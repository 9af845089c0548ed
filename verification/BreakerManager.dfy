/** The circuit-breaker manager: configs come in by Sync and are kept as flat stores of rules. */
module BreakerManager {
  import opened Strings
  import opened BreakerRules
  import opened BreakerState
  import opened BreakerStore
  import InterceptStore

  datatype SyncOption = UpdateConfig | DeleteConfig | CheckConfig | RecoverRules | Illegal

  /** No answer is given when the source dereferences a missing config. */
  datatype Response = Answer(success: bool) | Panic

  class Manager {
    var breakerMap: Configs
    const limiterStore: LimiterStore
    const intercepts: InterceptStore.Store

    /** The stores hold exactly the rules of the configs in the map. */
    ghost predicate Valid()
      reads this, limiterStore, intercepts
    {
      ValidFor(breakerMap)
    }

    ghost predicate ValidFor(configs: Configs)
      reads this, limiterStore, intercepts
    {
      && GoodConfigs(configs) && limiterStore.Valid() && intercepts.Valid()
      && Flattens(limiterStore.rules, configs, LimitingsOf)
      && Flattens(intercepts.LiveRules(), configs, InterceptsOf)
    }

    ghost predicate KnownHash(config: CircuitBreaker)
      reads this
    {
      config.name in breakerMap && breakerMap[config.name].hash == config.hash
    }

    constructor (compiles: string -> bool)
      ensures Valid() && breakerMap == map[] && intercepts.rules == map[]
      ensures fresh(limiterStore) && fresh(intercepts)
    {
      breakerMap := map[];
      limiterStore := new LimiterStore();
      intercepts := new InterceptStore.Store(compiles);
    }

    /** The keys that were there have kept their states and limiters; those that were not have new ones, none of
        those in `seen` and `asked`. */
    ghost predicate Grown(states: map<Key, State>, limiters: map<Key, Limiter>, seen: set<State>, asked: set<Limiter>)
      reads this, limiterStore, limiterStore.states.Values, limiterStore.limiters.Values
    {
      NewStates(states, limiterStore.states, seen) && NewLimiters(limiters, limiterStore.limiters, asked)
    }

    /** One call on the store: the key keeps its state and its limiter, or gets new ones. */
    method Put(key: Key, rule: RateLimiting, ghost seen: set<State>, ghost asked: set<Limiter>)
      requires limiterStore.Valid()
      modifies limiterStore
      ensures limiterStore.Valid() && limiterStore.rules == old(limiterStore.rules)[key := rule]
      ensures var was, now := old(limiterStore.states), limiterStore.states;
              && key in now && now == was[key := now[key]]
              && ((key in was && now[key] == was[key]) || (now[key] !in seen && now[key].View() == FRESH))
      ensures var was, now := old(limiterStore.limiters), limiterStore.limiters;
              && key in now && now == was[key := now[key]]
              && ((key in was && now[key] == was[key]) || (now[key] !in asked && now[key].used == 0))
      ensures forall k :: k in old(limiterStore.states) ==>
                            old(limiterStore.states)[k].View() == old(limiterStore.states[k].View())
      ensures forall k :: k in old(limiterStore.limiters) ==>
                            old(limiterStore.limiters)[k].used == old(limiterStore.limiters[k].used)
    {
      limiterStore.CreateOrUpdateRule(key, rule);
    }

    method StoreOne(key: Key, rule: RateLimiting, ghost states: map<Key, State>, ghost limiters: map<Key, Limiter>,
                    ghost seen: set<State>, ghost asked: set<Limiter>)
      requires limiterStore.Valid() && key !in states && key !in limiters && Grown(states, limiters, seen, asked)
      modifies limiterStore
      ensures limiterStore.Valid() && limiterStore.rules == old(limiterStore.rules)[key := rule]
      ensures Grown(states, limiters, seen, asked)
    {
      ghost var was, had := limiterStore.states, limiterStore.limiters;
      Put(key, rule, seen, asked);
      OneMoreState(states, was, limiterStore.states, key, seen);
      OneMoreLimiter(limiters, had, limiterStore.limiters, key, asked);
    }

    /** One turn of the loop over the rules of a config. */
    method StoreNth(cb: CircuitBreaker, i: nat, ghost rules: map<Key, RateLimiting>, ghost states: map<Key, State>,
                    ghost limiters: map<Key, Limiter>, ghost seen: set<State>, ghost asked: set<Limiter>)
      requires i < |cb.limitings| && limiterStore.Valid()
      requires LimitingsOf(cb).Keys !! states.Keys && LimitingsOf(cb).Keys !! limiters.Keys
      requires limiterStore.rules == Stored(rules, cb.name, cb.limitings[..i], LimitingName)
      requires Grown(states, limiters, seen, asked)
      modifies limiterStore
      ensures limiterStore.Valid() && Grown(states, limiters, seen, asked)
      ensures limiterStore.rules == Stored(rules, cb.name, cb.limitings[..i + 1], LimitingName)
    {
      StoredOneMore(rules, cb.name, cb.limitings, i, LimitingName);
      ItemHasKey(cb, i);
      StoreOne(KeyOf(cb.name, cb.limitings[i].name), cb.limitings[i], states, limiters, seen, asked);
    }

    method StoreAll(cb: CircuitBreaker, ghost rules: map<Key, RateLimiting>, ghost states: map<Key, State>,
                    ghost limiters: map<Key, Limiter>, ghost seen: set<State>, ghost asked: set<Limiter>)
      requires limiterStore.Valid() && limiterStore.rules == rules && Grown(states, limiters, seen, asked)
      requires LimitingsOf(cb).Keys !! states.Keys && LimitingsOf(cb).Keys !! limiters.Keys
      modifies limiterStore
      ensures limiterStore.Valid() && Grown(states, limiters, seen, asked)
      ensures limiterStore.rules == Stored(rules, cb.name, cb.limitings, LimitingName)
    {
      for i := 0 to |cb.limitings|
        invariant limiterStore.Valid() && Grown(states, limiters, seen, asked)
        invariant limiterStore.rules == Stored(rules, cb.name, cb.limitings[..i], LimitingName)
      {
        StoreNth(cb, i, rules, states, limiters, seen, asked);
      }
      assert cb.limitings[..|cb.limitings|] == cb.limitings;
    }

    method RegisterLimitings(cb: CircuitBreaker, ghost seen: set<State>, ghost asked: set<Limiter>)
      requires limiterStore.Valid() && LimitingsOf(cb).Keys !! limiterStore.rules.Keys
      modifies limiterStore
      ensures limiterStore.Valid()
      ensures limiterStore.rules == Stored(old(limiterStore.rules), cb.name, cb.limitings, LimitingName)
      ensures Grown(old(limiterStore.states), old(limiterStore.limiters), seen, asked)
    {
      NoneNew(limiterStore.states, limiterStore.limiters, seen, asked);
      StoreAll(cb, limiterStore.rules, limiterStore.states, limiterStore.limiters, seen, asked);
    }

    method UnregisterLimitings(cb: CircuitBreaker)
      requires limiterStore.Valid()
      modifies limiterStore
      ensures limiterStore.Valid()
      ensures limiterStore.rules == old(limiterStore.rules) - LimitingsOf(cb).Keys
      ensures limiterStore.limiters == old(limiterStore.limiters) - LimitingsOf(cb).Keys
      ensures limiterStore.states == old(limiterStore.states) - LimitingsOf(cb).Keys
    {
      ghost var rules, limiters, states := limiterStore.rules, limiterStore.limiters, limiterStore.states;
      var items := cb.limitings;
      for i := 0 to |items|
        invariant limiterStore.Valid()
        invariant limiterStore.rules == Removed(rules, cb.name, items[..i], LimitingName)
        invariant limiterStore.limiters == Removed(limiters, cb.name, items[..i], LimitingName)
        invariant limiterStore.states == Removed(states, cb.name, items[..i], LimitingName)
      {
        assert items[..i + 1][..i] == items[..i];
        limiterStore.DeleteRule(KeyOf(cb.name, items[i].name));
      }
      assert items[..|items|] == items;
      RemovedIsDifference(rules, cb.name, items, LimitingName);
      RemovedIsDifference(limiters, cb.name, items, LimitingName);
      RemovedIsDifference(states, cb.name, items, LimitingName);
    }

    method RegisterIntercepts(cb: CircuitBreaker)
      requires intercepts.Valid()
      modifies intercepts
      ensures intercepts.Valid() && intercepts.LiveRules() == old(intercepts.LiveRules()) + InterceptsOf(cb)
      ensures intercepts.rules == old(intercepts.rules) + InterceptsOf(cb)
    {
      var items := cb.intercepts;
      for i := 0 to |items|
        invariant intercepts.Valid()
        invariant intercepts.LiveRules() == Stored(old(intercepts.LiveRules()), cb.name, items[..i], InterceptName)
        invariant intercepts.rules == Stored(old(intercepts.rules), cb.name, items[..i], InterceptName)
      {
        StoredOneMore(old(intercepts.LiveRules()), cb.name, items, i, InterceptName);
        StoredOneMore(old(intercepts.rules), cb.name, items, i, InterceptName);
        intercepts.CreateOrUpdateRule(KeyOf(cb.name, items[i].name), items[i]);
      }
      assert items[..|items|] == items;
      StoredIsUnion(old(intercepts.LiveRules()), cb.name, items, InterceptName);
      StoredIsUnion(old(intercepts.rules), cb.name, items, InterceptName);
    }

    method UnregisterIntercepts(cb: CircuitBreaker)
      requires intercepts.Valid()
      modifies intercepts
      ensures intercepts.Valid() && intercepts.LiveRules() == old(intercepts.LiveRules()) - InterceptsOf(cb).Keys
      ensures intercepts.rules == old(intercepts.rules)
    {
      var items := cb.intercepts;
      for i := 0 to |items|
        invariant intercepts.Valid() && intercepts.rules == old(intercepts.rules)
        invariant intercepts.LiveRules() == Removed(old(intercepts.LiveRules()), cb.name, items[..i], InterceptName)
      {
        assert items[..i + 1][..i] == items[..i];
        intercepts.DeleteRule(KeyOf(cb.name, items[i].name));
      }
      assert items[..|items|] == items;
      RemovedIsDifference(old(intercepts.LiveRules()), cb.name, items, InterceptName);
    }

    /** The rules of a config go, and no others, but its intercept rules stay in the map of all rules ever stored; the
        map of configs is left to the caller. */
    method UnregisterRules(name: string)
      requires Valid() && Free(name, ':')
      modifies limiterStore, intercepts
      ensures ValidFor(breakerMap - {name}) && intercepts.rules == old(intercepts.rules)
      ensures name !in breakerMap ==> unchanged(limiterStore) && unchanged(intercepts)
      ensures forall k :: k in limiterStore.rules ==> !BelongsTo(k, name)
      ensures SameElsewhere(name, old(limiterStore.rules), limiterStore.rules)
      ensures SameElsewhere(name, old(limiterStore.limiters), limiterStore.limiters)
      ensures SameElsewhere(name, old(limiterStore.states), limiterStore.states)
    {
      LimitingsAreLocal();
      if name !in breakerMap {
        assert breakerMap == breakerMap - {name};
        FlattenBelongs(limiterStore.rules, breakerMap, LimitingsOf, name);
        return;
      }
      var cb := breakerMap[name];
      InterceptsAreLocal();
      FlattenWithout(limiterStore.rules, breakerMap, LimitingsOf, name);
      FlattenWithout(intercepts.LiveRules(), breakerMap, InterceptsOf, name);
      UnregisterLimitings(cb);
      UnregisterIntercepts(cb);
    }

    /** The rules of a config that is not in `configs` come in, under new limiters and new closed breakers: they are
        none of those in `seen` and `asked`. */
    method RegisterRules(cb: CircuitBreaker, ghost configs: Configs, ghost seen: set<State>, ghost asked: set<Limiter>)
      requires ValidFor(configs) && cb.name !in configs && Free(cb.name, ':')
      modifies limiterStore, intercepts
      ensures ValidFor(configs[cb.name := cb]) && intercepts.rules == old(intercepts.rules) + InterceptsOf(cb)
      ensures AllNew(limiterStore.states, LimitingsOf(cb).Keys, seen)
      ensures AllUnused(limiterStore.limiters, LimitingsOf(cb).Keys, asked)
      ensures SameElsewhere(cb.name, old(limiterStore.rules), limiterStore.rules)
      ensures SameElsewhere(cb.name, old(limiterStore.limiters), limiterStore.limiters)
      ensures SameElsewhere(cb.name, old(limiterStore.states), limiterStore.states)
    {
      LimitingsAreLocal();
      InterceptsAreLocal();
      FlattenWith(limiterStore.rules, configs, LimitingsOf, cb);
      FlattenWith(intercepts.LiveRules(), configs, InterceptsOf, cb);
      StoredIsUnion(limiterStore.rules, cb.name, cb.limitings, LimitingName);
      RegisterLimitings(cb, seen, asked);
      assert limiterStore.rules.Keys - old(limiterStore.rules).Keys == LimitingsOf(cb).Keys;
      AddedElsewhere(cb, old(limiterStore.states), limiterStore.states);
      AddedElsewhere(cb, old(limiterStore.limiters), limiterStore.limiters);
      RegisterIntercepts(cb);
    }

    /** A config with the hash of the one in the map changes nothing. Any other replaces the rules of its name by
        its own, under new limiters and new closed breakers, and leaves the rules of all other names alone. */
    method SyncUpdate(config: CircuitBreaker) returns (response: Response)
      requires Valid() && Free(config.name, ':')
      modifies this, limiterStore, intercepts
      ensures Valid() && response == Answer(true)
      ensures old(KnownHash(config)) ==> unchanged(this) && unchanged(limiterStore) && unchanged(intercepts)
      ensures old(!KnownHash(config)) ==>
                && breakerMap == old(breakerMap)[config.name := config]
                && intercepts.rules == old(intercepts.rules) + InterceptsOf(config)
                && AllNew(limiterStore.states, LimitingsOf(config).Keys, old(limiterStore.states.Values))
                && AllUnused(limiterStore.limiters, LimitingsOf(config).Keys, old(limiterStore.limiters.Values))
      ensures SameElsewhere(config.name, old(limiterStore.rules), limiterStore.rules)
      ensures SameElsewhere(config.name, old(limiterStore.limiters), limiterStore.limiters)
      ensures SameElsewhere(config.name, old(limiterStore.states), limiterStore.states)
    {
      ghost var states, limiters, others := limiterStore.states, limiterStore.limiters, breakerMap - {config.name};
      if config.name in breakerMap && breakerMap[config.name].hash == config.hash {
        return Answer(true);
      }
      assert config.name !in breakerMap ==> others == breakerMap;
      if config.name in breakerMap {
        UnregisterRules(config.name);
      }
      breakerMap := breakerMap[config.name := config];
      assert others[config.name := config] == breakerMap;
      RegisterRules(config, others, states.Values, limiters.Values);
      return Answer(true);
    }

    method SyncDelete(config: CircuitBreaker) returns (response: Response)
      requires Valid() && Free(config.name, ':')
      modifies this, limiterStore, intercepts
      ensures Valid() && response == Answer(true) && breakerMap == old(breakerMap) - {config.name}
      ensures intercepts.rules == old(intercepts.rules)
      ensures old(config.name !in breakerMap) ==> unchanged(limiterStore) && unchanged(intercepts)
      ensures forall k :: k in limiterStore.rules ==> !BelongsTo(k, config.name)
      ensures SameElsewhere(config.name, old(limiterStore.rules), limiterStore.rules)
      ensures SameElsewhere(config.name, old(limiterStore.limiters), limiterStore.limiters)
      ensures SameElsewhere(config.name, old(limiterStore.states), limiterStore.states)
    {
      if config.name in breakerMap {
        UnregisterRules(config.name);
        breakerMap := breakerMap - {config.name};
      } else {
        LimitingsAreLocal();
        FlattenBelongs(limiterStore.rules, breakerMap, LimitingsOf, config.name);
        assert breakerMap == breakerMap - {config.name};
      }
      return Answer(true);
    }

    method RecoverBreaker(key: Key, now: int)
      requires limiterStore.Valid()
      modifies limiterStore.states.Values
      ensures limiterStore.Views() == RecoveredFor(old(limiterStore.Views()), {key}, now)
    {
      ghost var states := limiterStore.states;
      if key in limiterStore.states {
        assert forall k :: k in states && k != key ==> states[k] != states[key];
        limiterStore.states[key].RecoverBreaker(now);
        assert forall k :: k in states && k != key ==> states[k].View() == old(states[k].View());
      }
    }

    method RecoverBreakers(config: CircuitBreaker, now: int)
      requires limiterStore.Valid()
      modifies limiterStore.states.Values
      ensures limiterStore.Views() == RecoveredInTurn(old(limiterStore.Views()), config.name, config.limitings, now)
    {
      var items := config.limitings;
      for i := 0 to |items|
        invariant limiterStore.Views() == RecoveredInTurn(old(limiterStore.Views()), config.name, items[..i], now)
      {
        assert items[..i + 1][..i] == items[..i];
        RecoverBreaker(KeyOf(config.name, items[i].name), now);
      }
      assert items[..|items|] == items;
    }

    /** The open breakers of the named rules close, and no others. */
    method SyncRecover(config: CircuitBreaker, now: int) returns (response: Response)
      requires Valid() && Free(config.name, ':')
      modifies limiterStore.states.Values
      ensures Valid() && response == Answer(true)
      ensures limiterStore.Views() == RecoveredFor(old(limiterStore.Views()), LimitingsOf(config).Keys, now)
      ensures SameElsewhere(config.name, old(limiterStore.Views()), limiterStore.Views())
      ensures NamedAreClosed(limiterStore.Views(), config)
    {
      RecoverBreakers(config, now);
      RecoveredInTurnIsFor(old(limiterStore.Views()), config, config.limitings, now);
      RecoveredAreClosed(old(limiterStore.Views()), config, now);
      return Answer(true);
    }

    /** The check of a config that is not there reads the name of a missing record. */
    method SyncCheck(config: CircuitBreaker) returns (response: Response)
      ensures response.Panic? <==> config.name !in breakerMap
      ensures response == Answer(true) <==> KnownHash(config)
    {
      if config.name !in breakerMap {
        return Panic;
      }
      return Answer(breakerMap[config.name].hash == config.hash);
    }

    /** Whatever the option, the stores hold the rules of the configs that are then in the map. Limiters and
        breakers of other configs stay as they are; only a recovery touches a breaker that is kept. */
    method Sync(config: CircuitBreaker, option: SyncOption, now: int) returns (response: Response)
      requires Valid() && Free(config.name, ':')
      modifies this, limiterStore, intercepts, if option.RecoverRules? then limiterStore.states.Values else {}
      ensures Valid() && breakerMap == SyncedMap(old(breakerMap), config, option)
      ensures response == SyncAnswer(old(breakerMap), config, option)
      ensures option.UpdateConfig? ==>
                breakerMap == if config.name in old(breakerMap) && old(breakerMap)[config.name].hash == config.hash
                              then old(breakerMap) else old(breakerMap)[config.name := config]
      ensures option.DeleteConfig? ==> breakerMap == old(breakerMap) - {config.name}
      ensures !option.UpdateConfig? && !option.DeleteConfig? ==> breakerMap == old(breakerMap)
      ensures response == Panic <==> option.CheckConfig? && config.name !in old(breakerMap)
      ensures response == Answer(true) <==>
                || option.UpdateConfig? || option.DeleteConfig? || option.RecoverRules?
                || (option.CheckConfig? && old(KnownHash(config)))
      ensures intercepts.rules == if option.UpdateConfig? && !old(KnownHash(config))
                                  then old(intercepts.rules) + InterceptsOf(config) else old(intercepts.rules)
      ensures option.UpdateConfig? || option.DeleteConfig? ==>
                && SameElsewhere(config.name, old(limiterStore.limiters), limiterStore.limiters)
                && SameElsewhere(config.name, old(limiterStore.states), limiterStore.states)
      ensures !(option.UpdateConfig? || option.DeleteConfig?) ==>
                unchanged(this) && unchanged(limiterStore) && unchanged(intercepts)
      ensures option.RecoverRules? ==>
                limiterStore.Views() == RecoveredFor(old(limiterStore.Views()), LimitingsOf(config).Keys, now)
    {
      match option
      case UpdateConfig =>
        response := SyncUpdate(config);
      case DeleteConfig =>
        response := SyncDelete(config);
      case CheckConfig =>
        response := SyncCheck(config);
      case RecoverRules =>
        response := SyncRecover(config, now);
      case Illegal =>
        response := Answer(false);
    }

    /** What the stores hold: of each name in each config the last rule with it, under the config's name, a colon and
        its own. */
    lemma HoldsLimitings(k: Key, r: RateLimiting)
      requires Valid()
      ensures k in limiterStore.rules && limiterStore.rules[k] == r <==>
              exists n, i :: n in breakerMap && StoredUnder(n, breakerMap[n].limitings, LimitingName, i, k)
                             && breakerMap[n].limitings[i] == r
    {
      FlattenedAre(limiterStore.rules, breakerMap, (cb: CircuitBreaker) => cb.limitings, LimitingName, LimitingsOf, k,
                   r);
    }

    lemma HoldsIntercepts(k: Key, r: InterceptRule)
      requires Valid()
      ensures k in intercepts.LiveRules() && intercepts.LiveRules()[k] == r <==>
              exists n, i :: n in breakerMap && StoredUnder(n, breakerMap[n].intercepts, InterceptName, i, k)
                             && breakerMap[n].intercepts[i] == r
    {
      FlattenedAre(intercepts.LiveRules(), breakerMap, (cb: CircuitBreaker) => cb.intercepts, InterceptName,
                   InterceptsOf, k, r);
    }

    lemma NoKeysOfMissing(name: string)
      requires Valid() && name !in breakerMap
      ensures forall k :: k in limiterStore.rules ==> !BelongsTo(k, name)
    {
      LimitingsAreLocal();
      FlattenBelongs(limiterStore.rules, breakerMap, LimitingsOf, name);
    }

    /** Deleting a config that was new undoes its update: rules, limiters, breakers, both indices and the live intercept
        rules are as before. The default verdict is as before exactly when its intercept rules, which stay behind, did
        not bring the first whitelist and did not overwrite the last one. */
    method UpdateThenDelete(config: CircuitBreaker)
      requires Valid() && Free(config.name, ':') && config.name !in breakerMap
      modifies this, limiterStore, intercepts
      ensures Valid() && breakerMap == old(breakerMap)
      ensures limiterStore.rules == old(limiterStore.rules) && limiterStore.limiters == old(limiterStore.limiters)
      ensures limiterStore.states == old(limiterStore.states)
      ensures limiterStore.resourceIndex == old(limiterStore.resourceIndex)
              && limiterStore.restIndex == old(limiterStore.restIndex)
      ensures intercepts.LiveRules() == old(intercepts.LiveRules())
      ensures intercepts.rules == old(intercepts.rules) + InterceptsOf(config)
      ensures InterceptStore.DefaultVerdict(intercepts.rules) == InterceptStore.DefaultVerdict(old(intercepts.rules))
              <==> InterceptStore.KeepDefault(old(intercepts.rules), InterceptsOf(config))
    {
      UpdateAndDelete(config);
      InterceptStore.DefaultStaysIff(old(intercepts.rules), InterceptsOf(config));
    }

    method UpdateAndDelete(config: CircuitBreaker)
      requires Valid() && Free(config.name, ':') && config.name !in breakerMap
      modifies this, limiterStore, intercepts
      ensures Valid() && breakerMap == old(breakerMap)
      ensures limiterStore.rules == old(limiterStore.rules) && limiterStore.limiters == old(limiterStore.limiters)
      ensures limiterStore.states == old(limiterStore.states)
      ensures limiterStore.resourceIndex == old(limiterStore.resourceIndex)
              && limiterStore.restIndex == old(limiterStore.restIndex)
      ensures intercepts.LiveRules() == old(intercepts.LiveRules())
      ensures intercepts.rules == old(intercepts.rules) + InterceptsOf(config)
    {
      ghost var store := limiterStore;
      ghost var rules, limiters, states := store.rules, store.limiters, store.states;
      ghost var resource, rest, live := store.resourceIndex, store.restIndex, intercepts.LiveRules();
      NoKeysOfMissing(config.name);
      var first := SyncUpdate(config);
      ghost var withRules, withLimiters, withStates := store.rules, store.limiters, store.states;
      var second := SyncDelete(config);
      assert old(breakerMap)[config.name := config] - {config.name} == old(breakerMap);
      ElsewhereTwice(config.name, rules, withRules, store.rules);
      ElsewhereTwice(config.name, limiters, withLimiters, store.limiters);
      ElsewhereTwice(config.name, states, withStates, store.states);
      ExactIsUnique(resource, store.resourceIndex, ResourceTags(rules));
      ExactIsUnique(rest, store.restIndex, RestTags(rules));
      FlattenIsUnique(live, intercepts.LiveRules(), breakerMap, InterceptsOf);
    }
  }

  /** A new manager allows every request. After any config with a whitelist has come and gone it refuses every one,
      with the same live rules. */
  method WhitelistOutlivesConfig(compiles: string -> bool, matches: (string, string) -> bool, config: CircuitBreaker,
                                 url: string, httpMethod: string)
    returns (before: bool, after: bool)
    requires Free(config.name, ':') && InterceptStore.HasWhitelist(InterceptsOf(config))
    ensures before && !after
  {
    var m := new Manager(compiles);
    before := m.intercepts.Validate(url, httpMethod, matches);
    m.UpdateThenDelete(config);
    after := m.intercepts.Validate(url, httpMethod, matches);
  }

  /** The breakers of the config's rules are closed. */
  ghost predicate NamedAreClosed(views: map<Key, Breaker>, config: CircuitBreaker) {
    forall i :: 0 <= i < |config.limitings| && config.name + [':'] + config.limitings[i].name in views ==>
                  views[config.name + [':'] + config.limitings[i].name].phase == Closed
  }

  lemma RecoveredAreClosed(views: map<Key, Breaker>, config: CircuitBreaker, now: int)
    ensures NamedAreClosed(RecoveredFor(views, LimitingsOf(config).Keys, now), config)
  {
    forall i | 0 <= i < |config.limitings|
      ensures KeyOf(config.name, config.limitings[i].name) in LimitingsOf(config)
    {
      ItemHasKey(config, i);
    }
  }

  function RecoveredFor(views: map<Key, Breaker>, ks: set<Key>, now: int): map<Key, Breaker> {
    map k | k in views :: if k in ks then Recovered(views[k], now) else views[k]
  }

  function RecoveredInTurn(views: map<Key, Breaker>, config: string, items: seq<RateLimiting>, now: int)
    : map<Key, Breaker>
  {
    if items == [] then views
    else RecoveredFor(RecoveredInTurn(views, config, items[..|items| - 1], now),
                      {KeyOf(config, items[|items| - 1].name)}, now)
  }

  lemma {:induction false} RecoveredInTurnIsFor(views: map<Key, Breaker>, config: CircuitBreaker,
                                                items: seq<RateLimiting>, now: int)
    ensures var ks := Entries(config.name, items, LimitingName).Keys;
            RecoveredInTurn(views, config.name, items, now) == RecoveredFor(views, ks, now)
    ensures Free(config.name, ':') ==> SameElsewhere(config.name, views,
                                                     RecoveredInTurn(views, config.name, items, now))
  {
    if items != [] {
      var last := items[|items| - 1];
      RecoveredInTurnIsFor(views, config, items[..|items| - 1], now);
      if Free(config.name, ':') {
        KeyTellsConfig(config.name, last.name);
      }
    }
  }

  function SyncedMap(configs: Configs, config: CircuitBreaker, option: SyncOption): Configs {
    match option
    case UpdateConfig =>
      if config.name in configs && configs[config.name].hash == config.hash then configs
      else configs[config.name := config]
    case DeleteConfig => configs - {config.name}
    case _ => configs
  }

  function SyncAnswer(configs: Configs, config: CircuitBreaker, option: SyncOption): Response {
    match option
    case CheckConfig => if config.name in configs then Answer(configs[config.name].hash == config.hash) else Panic
    case Illegal => Answer(false)
    case _ => Answer(true)
  }

  lemma ItemHasKey(cb: CircuitBreaker, i: nat)
    requires i < |cb.limitings|
    ensures KeyOf(cb.name, cb.limitings[i].name) in LimitingsOf(cb)
  {
    assert cb.limitings[i] in cb.limitings;
    EntriesKeys(cb.name, cb.limitings, LimitingName, KeyOf(cb.name, LimitingName(cb.limitings[i])));
  }

  lemma AddedElsewhere<V>(config: CircuitBreaker, before: map<Key, V>, after: map<Key, V>)
    requires Free(config.name, ':') && Local(LimitingsOf)
    requires Kept(before, after) && after.Keys == before.Keys + LimitingsOf(config).Keys
    ensures SameElsewhere(config.name, before, after)
  {
  }

  lemma FlattenBelongs<T>(rules: map<Key, T>, configs: Configs, parts: CircuitBreaker -> map<Key, T>, name: string)
    requires Flattens(rules, configs, parts) && GoodConfigs(configs) && Local(parts) && name !in configs
    ensures forall k :: k in rules ==> !BelongsTo(k, name)
  {
    forall k | k in rules
      ensures !BelongsTo(k, name)
    {
      var n :| Provides(configs, parts, n, k);
      assert BelongsTo(k, n);
    }
  }

  /** When two maps of configs differ at one name at most, so do the rules: the other names hold the same ones. */
  lemma FlattenElsewhere<T>(a: map<Key, T>, b: map<Key, T>, c: Configs, d: Configs,
                            parts: CircuitBreaker -> map<Key, T>, name: string)
    requires Flattens(a, c, parts) && Flattens(b, d, parts) && GoodConfigs(c) && GoodConfigs(d) && Local(parts)
    requires c - {name} == d - {name}
    ensures SameElsewhere(name, a, b)
  {
    FlattenWithin(a, b, c, d, parts, name);
    FlattenWithin(b, a, d, c, parts, name);
  }

  lemma FlattenWithin<T>(a: map<Key, T>, b: map<Key, T>, c: Configs, d: Configs, parts: CircuitBreaker -> map<Key, T>,
                         name: string)
    requires Flattens(a, c, parts) && Flattens(b, d, parts) && GoodConfigs(c) && Local(parts)
    requires c - {name} == d - {name}
    ensures forall k :: k in a && !BelongsTo(k, name) ==> k in b && a[k] == b[k]
  {
    forall k | k in a && !BelongsTo(k, name)
      ensures k in b && a[k] == b[k]
    {
      var n :| Provides(c, parts, n, k);
      assert BelongsTo(k, n);
      assert n in c - {name} && (c - {name})[n] == c[n];
      assert Provides(d, parts, n, k);
    }
  }

  lemma FlattenIsUnique<T>(a: map<Key, T>, b: map<Key, T>, configs: Configs, parts: CircuitBreaker -> map<Key, T>)
    requires Flattens(a, configs, parts) && Flattens(b, configs, parts)
    ensures a == b
  {
    assert forall k :: k in a ==> exists n :: Provides(configs, parts, n, k);
    assert forall k :: k in b ==> exists n :: Provides(configs, parts, n, k);
  }

  lemma ElsewhereTwice<V>(name: string, before: map<Key, V>, between: map<Key, V>, after: map<Key, V>)
    requires SameElsewhere(name, before, between) && SameElsewhere(name, between, after)
    requires forall k :: k in before || k in after ==> !BelongsTo(k, name)
    ensures before == after
  {
  }

  /** The keys of other configs than `name` hold what they held. */
  ghost predicate SameElsewhere<V>(name: string, before: map<Key, V>, after: map<Key, V>) {
    forall k :: !BelongsTo(k, name) ==> (k in before <==> k in after) && (k in before ==> before[k] == after[k])
  }

  // ----- The limiter store under registration -----

  /** A store after the items of a config are stored one by one. */
  function Stored<T>(m: map<Key, T>, config: string, items: seq<T>, name: T -> string): map<Key, T> {
    if items == [] then m
    else
      var last := items[|items| - 1];
      Stored(m, config, items[..|items| - 1], name)[KeyOf(config, name(last)) := last]
  }

  lemma StoredOneMore<T>(m: map<Key, T>, config: string, items: seq<T>, i: nat, name: T -> string)
    requires i < |items|
    ensures Stored(m, config, items[..i + 1], name) ==
            Stored(m, config, items[..i], name)[KeyOf(config, name(items[i])) := items[i]]
  {
    assert items[..i + 1][..i] == items[..i];
  }

  lemma {:induction false} StoredIsUnion<T>(m: map<Key, T>, config: string, items: seq<T>, name: T -> string)
    ensures Stored(m, config, items, name) == m + Entries(config, items, name)
  {
    if items != [] {
      StoredIsUnion(m, config, items[..|items| - 1], name);
    }
  }

  /** A store after the keys of a config's items are removed one by one. */
  function Removed<V, T>(m: map<Key, V>, config: string, items: seq<T>, name: T -> string): map<Key, V> {
    if items == [] then m
    else Removed(m, config, items[..|items| - 1], name) - {KeyOf(config, name(items[|items| - 1]))}
  }

  lemma {:induction false} RemovedIsDifference<V, T>(m: map<Key, V>, config: string, items: seq<T>, name: T -> string)
    ensures Removed(m, config, items, name) == m - Entries(config, items, name).Keys
  {
    if items != [] {
      RemovedIsDifference(m, config, items[..|items| - 1], name);
    }
  }

  /** Every key still has what it had. */
  ghost predicate Kept<V>(before: map<Key, V>, after: map<Key, V>) {
    forall k :: k in before ==> k in after && after[k] == before[k]
  }

  /** The keys have limiters that were not there before and have let nothing through. */
  ghost predicate AllUnused(limiters: map<Key, Limiter>, ks: set<Key>, before: set<Limiter>)
    reads limiters.Values
  {
    forall k :: k in ks ==> k in limiters && limiters[k] !in before && limiters[k].used == 0
  }

  /** The keys have states that were not there before and are closed. */
  ghost predicate AllNew(states: map<Key, State>, ks: set<Key>, before: set<State>)
    reads states.Values
  {
    forall k :: k in ks ==> k in states && states[k] !in before && states[k].View() == FRESH
  }

  ghost predicate NewStates(start: map<Key, State>, states: map<Key, State>, seen: set<State>)
    reads states.Values
  {
    Kept(start, states) && AllNew(states, states.Keys - start.Keys, seen)
  }

  ghost predicate NewLimiters(start: map<Key, Limiter>, limiters: map<Key, Limiter>, asked: set<Limiter>)
    reads limiters.Values
  {
    Kept(start, limiters) && AllUnused(limiters, limiters.Keys - start.Keys, asked)
  }

  lemma NoneNew(states: map<Key, State>, limiters: map<Key, Limiter>, seen: set<State>, asked: set<Limiter>)
    ensures NewStates(states, states, seen) && NewLimiters(limiters, limiters, asked)
  {
  }

  lemma OneMoreState(start: map<Key, State>, before: map<Key, State>, after: map<Key, State>, key: Key,
                     seen: set<State>)
    requires NewStates(start, before, seen) && key !in start
    requires key in after && after == before[key := after[key]]
    requires (key in before && after[key] == before[key]) || (after[key] !in seen && after[key].View() == FRESH)
    ensures NewStates(start, after, seen)
  {
  }

  lemma OneMoreLimiter(start: map<Key, Limiter>, before: map<Key, Limiter>, after: map<Key, Limiter>, key: Key,
                       asked: set<Limiter>)
    requires NewLimiters(start, before, asked) && key !in start
    requires key in after && after == before[key := after[key]]
    requires (key in before && after[key] == before[key]) || (after[key] !in asked && after[key].used == 0)
    ensures NewLimiters(start, after, asked)
  {
  }
}
