/** A request through the circuit breaker: the rules are found, and their breakers and limiters decide. */
module BreakerRequest {
  import opened Wrappers
  import opened BreakerRules
  import opened BreakerState
  import opened BreakerStore
  import opened BreakerLease
  import opened BreakerValidation
  import BreakerLookup
  import RestLookup

  type Rules = map<Key, RateLimiting>

  type Views = map<Key, Breaker>

  /** What the limiter of each key answers if it is asked. */
  type Answers = Key -> bool

  function CheckOf(rules: Rules, views: Views, allows: Answers, k: Key): Check
    requires k in rules && k in views
  {
    Check(rules[k], views[k], allows(k))
  }

  ghost predicate AllPermit(rules: Rules, keys: set<Key>, views: Views, allows: Answers)
    requires keys <= rules.Keys && keys <= views.Keys
  {
    forall k :: k in keys ==>
                  || rules[k].trigger == ForceClosed
                  || (rules[k].trigger != ForceOpened && views[k].phase == Closed && allows(k))
  }

  ghost predicate NonePanics(rules: Rules, keys: set<Key>, views: Views, allows: Answers)
    requires keys <= rules.Keys && keys <= views.Keys
  {
    forall k :: k in keys && rules[k].trigger == Normal && views[k].phase == Closed && !allows(k) ==>
                  rules[k].recovery != NoPolicy
  }

  ghost predicate NoneForcedClosed(rules: Rules, keys: set<Key>)
    requires keys <= rules.Keys
  {
    forall k :: k in keys ==> rules[k].trigger != ForceClosed
  }

  // ----- What a request changes -----

  /** The breakers after the rules `done` are applied. */
  function ViewsAfter(rules: Rules, done: set<Key>, views: Views, allows: Answers, now: int): Views
    requires done <= rules.Keys
  {
    map k | k in views :: if k in done then After(CheckOf(rules, views, allows, k), now) else views[k]
  }

  /** What the limiters have let through. */
  function UsesAfter(rules: Rules, done: set<Key>, views: Views, allows: Answers, uses: map<Key, nat>): map<Key, nat>
    requires done <= rules.Keys && done <= views.Keys
  {
    map k | k in uses :: if k in done then uses[k] + Use(CheckOf(rules, views, allows, k)) else uses[k]
  }

  /** The rules whose breakers open with a window while their keys are not pending. */
  function Opening(rules: Rules, done: set<Key>, views: Views, allows: Answers, pending: set<Key>): set<Key>
    requires done <= rules.Keys && done <= views.Keys
  {
    set k | k in done && k !in pending && Schedules(rules[k], views[k], allows(k))
  }

  /** The lease with the states of the keys `ks`, each due when its window ends. */
  ghost function LeaseWith(rules: Rules, states: map<Key, State>, ks: set<Key>, now: int,
                           l: Pending<State>): Pending<State>
    requires ks <= states.Keys
  {
    Pending(l.stateSet + StatesOf(states, ks), l.queue + DueTimes(rules, StatesOf(states, ks).Values, now))
  }

  function StatesOf(states: map<Key, State>, ks: set<Key>): map<Key, State>
    requires ks <= states.Keys
  {
    map k | k in ks :: states[k]
  }

  function DueTimes(rules: Rules, sts: set<State>, now: int): map<State, int> {
    map st | st in sts :: Due(rules, st.key, now)
  }

  ghost function LeaseAfter(rules: Rules, states: map<Key, State>, done: set<Key>, views: Views, allows: Answers,
                            now: int, l: Pending<State>): Pending<State>
    requires done <= rules.Keys && done <= views.Keys && done <= states.Keys
  {
    LeaseWith(rules, states, Opening(rules, done, views, allows, l.stateSet.Keys), now, l)
  }

  function Due(rules: Rules, k: Key, now: int): int {
    if k in rules && rules[k].recovery.SleepingWindow? then now + rules[k].recovery.size else now
  }

  // ----- Applying the rules in some order -----

  /** A map is walked in some order. */
  method InOrder(keys: set<Key>) returns (order: seq<Key>)
    ensures forall k :: k in order <==> k in keys
    ensures Distinct(order)
  {
    order := [];
    var left := keys;
    while left != {}
      invariant left <= keys
      invariant forall k :: k in order <==> k in keys - left
      invariant Distinct(order)
      decreases left
    {
      var k :| k in left;
      assert k !in order;
      order, left := order + [k], left - {k};
    }
  }

  /** Lists for one order of the keys. */
  ghost predicate InStep<T>(m: map<Key, T>, order: seq<Key>, items: seq<T>) {
    |items| == |order| && forall i :: 0 <= i < |order| ==> order[i] in m && items[i] == m[order[i]]
  }

  /** The lists that the source builds from the keys under an index value. */
  method Gather(store: LimiterStore, keys: set<Key>)
    returns (order: seq<Key>, rules: seq<RateLimiting>, limiters: seq<Limiter>, states: seq<State>)
    requires store.Valid() && keys <= store.rules.Keys
    ensures InStep(store.rules, order, rules) && InStep(store.limiters, order, limiters)
            && InStep(store.states, order, states)
    ensures Distinct(order)
    ensures forall k :: k in order <==> k in keys
  {
    order := InOrder(keys);
    rules := seq(|order|, i requires 0 <= i < |order| && order[i] in store.rules reads store => store.rules[order[i]]);
    limiters := seq(|order|, i requires 0 <= i < |order| && order[i] in store.limiters reads store =>
                    store.limiters[order[i]]);
    states := seq(|order|, i requires 0 <= i < |order| && order[i] in store.states reads store =>
                  store.states[order[i]]);
  }

  function AnswersFor(order: seq<Key>, allows: Answers): seq<bool> {
    seq(|order|, i requires 0 <= i < |order| => allows(order[i]))
  }

  function FirstKeys(order: seq<Key>, n: nat): set<Key>
    requires n <= |order|
  {
    set i | 0 <= i < n :: order[i]
  }

  ghost predicate ChecksMatch(rules: Rules, order: seq<Key>, views: Views, allows: Answers, checks: seq<Check>) {
    && |checks| == |order|
    && forall i :: 0 <= i < |order| ==>
                     order[i] in rules && order[i] in views && checks[i] == CheckOf(rules, views, allows, order[i])
  }

  lemma PermitsByCheck(rules: Rules, keys: set<Key>, views: Views, allows: Answers)
    requires keys <= rules.Keys && keys <= views.Keys
    ensures AllPermit(rules, keys, views, allows) <==>
            forall k :: k in keys ==> Passes(CheckOf(rules, views, allows, k))
    ensures NonePanics(rules, keys, views, allows) <==>
            forall k :: k in keys ==> !Fails(CheckOf(rules, views, allows, k))
  {
    forall k | k in keys
      ensures Passes(CheckOf(rules, views, allows, k)) <==> !Refuses(CheckOf(rules, views, allows, k))
    {
      PassesIff(CheckOf(rules, views, allows, k));
    }
  }

  /** The checks are those of the keys. */
  lemma ChecksAreThose(rules: Rules, order: seq<Key>, keys: set<Key>, views: Views, allows: Answers, checks: seq<Check>)
    requires keys <= rules.Keys && keys <= views.Keys && (forall k :: k in order <==> k in keys)
    requires ChecksMatch(rules, order, views, allows, checks)
    ensures forall c :: c in checks <==> exists k :: k in keys && c == CheckOf(rules, views, allows, k)
  {
    forall c | c in checks
      ensures exists k :: k in keys && c == CheckOf(rules, views, allows, k)
    {
      var i :| 0 <= i < |checks| && checks[i] == c;
      assert order[i] in keys;
    }
    forall k | k in keys
      ensures CheckOf(rules, views, allows, k) in checks
    {
      var i :| 0 <= i < |order| && order[i] == k;
      assert checks[i] == CheckOf(rules, views, allows, k);
    }
  }

  /** What the verdict in list order means for the set of rules. */
  lemma VerdictOnKeys(rules: Rules, order: seq<Key>, keys: set<Key>, views: Views, allows: Answers, checks: seq<Check>)
    requires keys <= rules.Keys && keys <= views.Keys && (forall k :: k in order <==> k in keys)
    requires ChecksMatch(rules, order, views, allows, checks)
    ensures AllPermit(rules, keys, views, allows) ==> Verdict(checks)
    ensures NoneForcedClosed(rules, keys) && Verdict(checks) ==> AllPermit(rules, keys, views, allows)
    ensures NonePanics(rules, keys, views, allows) <==> NoneFails(checks, |checks|)
  {
    PermitsByCheck(rules, keys, views, allows);
    ChecksAreThose(rules, order, keys, views, allows, checks);
    if AllPermit(rules, keys, views, allows) {
      PassingIsAllowed(checks);
    }
    if NoneForcedClosed(rules, keys) {
      VerdictIsConjunction(checks);
    }
    assert NoneFails(checks, |checks|) <==> forall c :: c in checks ==> !Fails(c);
  }

  lemma FirstKeysGrow(order: seq<Key>, n: nat)
    requires 0 < n <= |order| && Distinct(order)
    ensures FirstKeys(order, n) == FirstKeys(order, n - 1) + {order[n - 1]} && order[n - 1] !in FirstKeys(order, n - 1)
  {
  }

  lemma {:induction false} LeasedIsAfter(rules: Rules, order: seq<Key>, smap: map<Key, State>, states: seq<State>,
                                         views: Views,
                                         allows: Answers, checks: seq<Check>, n: nat, now: int, l: Pending<State>)
    requires n <= |order| == |states| && Distinct(order) && ChecksMatch(rules, order, views, allows, checks)
    requires forall i :: 0 <= i < |order| ==>
               order[i] in smap && states[i] == smap[order[i]] && states[i].key == order[i]
    ensures Leased(l, checks, states, n, now) == LeaseAfter(rules, smap, FirstKeys(order, n), views, allows, now, l)
  {
    if n == 0 {
      assert FirstKeys(order, 0) == {};
      assert LeaseAfter(rules, smap, {}, views, allows, now, l) == l;
    } else {
      LeasedIsAfter(rules, order, smap, states, views, allows, checks, n - 1, now, l);
      FirstKeysGrow(order, n);
      assert checks[n - 1] == CheckOf(rules, views, allows, order[n - 1]);
      LeaseOneMore(rules, smap, FirstKeys(order, n - 1), order[n - 1], views, allows, now, l);
    }
  }

  lemma PutLater<K, V>(m: map<K, V>, n: map<K, V>, k: K, v: V)
    ensures m + n[k := v] == (m + n)[k := v]
  {
  }

  lemma StatesOfOneMore(states: map<Key, State>, ks: set<Key>, k: Key)
    requires ks + {k} <= states.Keys
    ensures StatesOf(states, ks + {k}) == StatesOf(states, ks)[k := states[k]]
    ensures StatesOf(states, ks + {k}).Values == StatesOf(states, ks).Values + {states[k]}
  {
    var few, more := StatesOf(states, ks), StatesOf(states, ks + {k});
    assert more.Keys == ks + {k} && few.Keys == ks;
    forall st
      ensures st in more.Values <==> st in few.Values + {states[k]}
    {
      if st in more.Values {
        var j :| j in more && more[j] == st;
        assert j == k || (j in few && few[j] == st);
      }
      if st in few.Values {
        var j :| j in few && few[j] == st;
        assert more[j] == st;
      }
      assert more[k] == states[k];
    }
  }

  lemma LeaseWithOneMore(rules: Rules, smap: map<Key, State>, ks: set<Key>, k: Key, now: int, l: Pending<State>)
    requires ks + {k} <= smap.Keys && smap[k].key == k
    ensures var before := LeaseWith(rules, smap, ks, now, l);
            LeaseWith(rules, smap, ks + {k}, now, l) ==
            Pending(before.stateSet[k := smap[k]], before.queue[smap[k] := Due(rules, k, now)])
  {
    var sts := StatesOf(smap, ks).Values;
    StatesOfOneMore(smap, ks, k);
    assert DueTimes(rules, sts + {smap[k]}, now) == DueTimes(rules, sts, now)[smap[k] := Due(rules, k, now)];
    PutLater(l.stateSet, StatesOf(smap, ks), k, smap[k]);
    PutLater(l.queue, DueTimes(rules, sts, now), smap[k], Due(rules, k, now));
  }

  lemma LeaseOneMore(rules: Rules, smap: map<Key, State>, done: set<Key>, k: Key, views: Views, allows: Answers,
                     now: int, l: Pending<State>)
    requires done + {k} <= rules.Keys && done + {k} <= views.Keys && done + {k} <= smap.Keys && k !in done
    requires smap[k].key == k
    ensures var before, c := LeaseAfter(rules, smap, done, views, allows, now, l), CheckOf(rules, views, allows, k);
            LeaseAfter(rules, smap, done + {k}, views, allows, now, l) ==
            if Schedules(c.rule, c.breaker, c.allows) then Registered(before, smap[k], k, After(c, now)) else before
  {
    var pending := l.stateSet.Keys;
    var ks := Opening(rules, done, views, allows, pending);
    OpeningOneMore(rules, done, k, views, allows, pending);
    var before, c := LeaseWith(rules, smap, ks, now, l), CheckOf(rules, views, allows, k);
    RegisteredIs(rules, before, smap[k], k, c, now);
    if Schedules(c.rule, c.breaker, c.allows) && k !in pending {
      LeaseWithOneMore(rules, smap, ks, k, now, l);
      assert k !in StatesOf(smap, ks);
    }
  }

  lemma RegisteredIs(rules: Rules, l: Pending<State>, st: State, k: Key, c: Check, now: int)
    requires k in rules && c.rule == rules[k]
    ensures Schedules(c.rule, c.breaker, c.allows) ==>
              Registered(l, st, k, After(c, now)) ==
              if k in l.stateSet then l else Pending(l.stateSet[k := st], l.queue[st := Due(rules, k, now)])
  {
  }

  lemma OpeningOneMore(rules: Rules, done: set<Key>, k: Key, views: Views, allows: Answers, pending: set<Key>)
    requires done + {k} <= rules.Keys && done + {k} <= views.Keys && k !in done
    ensures var ks := Opening(rules, done, views, allows, pending);
            Opening(rules, done + {k}, views, allows, pending) ==
            if Schedules(rules[k], views[k], allows(k)) && k !in pending then ks + {k} else ks
  {
  }

  /** The states of the keys look as `views` says, the limiters have let through what `uses` says. */
  ghost predicate Shown(states: map<Key, State>, views: Views)
    reads states.Values
  {
    states.Keys == views.Keys && forall k :: k in states ==> states[k].View() == views[k]
  }

  ghost predicate Spent(limiters: map<Key, Limiter>, uses: map<Key, nat>)
    reads limiters.Values
  {
    limiters.Keys == uses.Keys && forall k :: k in limiters ==> limiters[k].used == uses[k]
  }

  /** Different keys have different states and limiters. */
  ghost predicate Owned(states: map<Key, State>, limiters: map<Key, Limiter>) {
    && (forall k :: k in states ==> states[k].key == k)
    && (forall k :: k in limiters ==> limiters[k].owner == k)
  }

  lemma FirstOrLater(order: seq<Key>, n: nat, k: Key)
    requires n <= |order| && Distinct(order)
    ensures k in FirstKeys(order, n) <==> exists i :: 0 <= i < n && order[i] == k
    ensures k !in FirstKeys(order, n) ==> k !in order || exists i :: n <= i < |order| && order[i] == k
  {
  }

  lemma ViewsMoved(rules: Rules, smap: map<Key, State>, order: seq<Key>, states: seq<State>, views: Views,
                   allows: Answers, checks: seq<Check>, n: nat, now: int)
    requires InStep(smap, order, states) && n <= |order| && Distinct(order)
    requires rules.Keys == views.Keys == smap.Keys && ChecksMatch(rules, order, views, allows, checks)
    requires Moved(checks, states, n, now)
    requires forall k :: k in smap && k !in order ==> smap[k].View() == views[k]
    ensures Shown(smap, ViewsAfter(rules, FirstKeys(order, n), views, allows, now))
  {
    forall k | k in views
      ensures smap[k].View() == ViewsAfter(rules, FirstKeys(order, n), views, allows, now)[k]
    {
      FirstOrLater(order, n, k);
      if k in order {
        var i :| 0 <= i < |order| && order[i] == k;
        assert states[i] == smap[k] && checks[i] == CheckOf(rules, views, allows, k);
      }
    }
  }

  lemma UsesCounted(rules: Rules, lmap: map<Key, Limiter>, order: seq<Key>, limiters: seq<Limiter>, views: Views,
                    allows: Answers, checks: seq<Check>, uses: map<Key, nat>, counts: seq<nat>, n: nat)
    requires InStep(lmap, order, limiters) && n <= |order| == |counts| && Distinct(order)
    requires rules.Keys == views.Keys == uses.Keys == lmap.Keys && ChecksMatch(rules, order, views, allows, checks)
    requires forall i :: 0 <= i < |order| ==> counts[i] == uses[order[i]]
    requires Counted(checks, counts, limiters, n)
    requires forall k :: k in lmap && k !in order ==> lmap[k].used == uses[k]
    ensures Spent(lmap, UsesAfter(rules, FirstKeys(order, n), views, allows, uses))
  {
    forall k | k in uses
      ensures lmap[k].used == UsesAfter(rules, FirstKeys(order, n), views, allows, uses)[k]
    {
      FirstOrLater(order, n, k);
      if k in order {
        var i :| 0 <= i < |order| && order[i] == k;
        assert limiters[i] == lmap[k] && checks[i] == CheckOf(rules, views, allows, k);
      }
    }
  }

  lemma OwnedIsDistinct(smap: map<Key, State>, lmap: map<Key, Limiter>, order: seq<Key>, states: seq<State>,
                        limiters: seq<Limiter>)
    requires Owned(smap, lmap) && InStep(smap, order, states) && InStep(lmap, order, limiters) && Distinct(order)
    ensures Distinct(states) && Distinct(limiters)
    ensures forall k :: k in smap && k !in order ==> smap[k] !in states
    ensures forall k :: k in lmap && k !in order ==> lmap[k] !in limiters
  {
  }

  lemma ListedChecks(rmap: Rules, smap: map<Key, State>, order: seq<Key>, rules: seq<RateLimiting>, states: seq<State>,
                     views: Views, allows: Answers)
    requires InStep(rmap, order, rules) && InStep(smap, order, states) && Shown(smap, views)
    ensures ChecksMatch(rmap, order, views, allows, Checks(rules, AnswersFor(order, allows), states))
  {
  }

  /** The call of the loop; the states and limiters of other keys are not touched. */
  method ApplyListed(ghost lmap: map<Key, Limiter>, ghost smap: map<Key, State>, order: seq<Key>,
                     rules: seq<RateLimiting>,
                     limiters: seq<Limiter>, states: seq<State>, allows: Answers, lease: Lease, now: int)
    returns (allowed: Option<bool>, ghost n: nat)
    requires Owned(smap, lmap) && Distinct(order) && |rules| == |order|
    requires InStep(lmap, order, limiters) && InStep(smap, order, states)
    modifies states, limiters, lease
    ensures var checks := old(Checks(rules, AnswersFor(order, allows), states));
            && Stops(checks, n) && allowed == (if n < |order| then None else Some(Verdict(checks)))
            && Moved(checks, states, n, now) && Counted(checks, old(UsesOf(limiters)), limiters, n)
            && lease.View() == Leased(old(lease.View()), checks, states, n, now)
    ensures forall k :: k in smap && k !in order ==> smap[k].View() == old(smap[k].View())
    ensures forall k :: k in lmap && k !in order ==> lmap[k].used == old(lmap[k].used)
  {
    OwnedIsDistinct(smap, lmap, order, states, limiters);
    allowed, n := DoValidation(rules, AnswersFor(order, allows), limiters, states, lease, now);
  }

  /** The rules of the keys are applied in the given order, up to one that panics. */
  method Apply(ghost rmap: Rules, ghost lmap: map<Key, Limiter>, ghost smap: map<Key, State>, order: seq<Key>,
               rules: seq<RateLimiting>, limiters: seq<Limiter>, states: seq<State>, allows: Answers, lease: Lease,
               now: int, ghost views: Views, ghost uses: map<Key, nat>, ghost checks: seq<Check>)
    returns (allowed: Option<bool>, ghost n: nat)
    requires rmap.Keys == lmap.Keys == smap.Keys && Owned(smap, lmap) && Distinct(order) && |rules| == |order|
    requires InStep(lmap, order, limiters) && InStep(smap, order, states)
    requires Shown(smap, views) && Spent(lmap, uses) && ChecksMatch(rmap, order, views, allows, checks)
    requires Checks(rules, AnswersFor(order, allows), states) == checks
    modifies states, limiters, lease
    ensures Stops(checks, n) && allowed == if n < |order| then None else Some(Verdict(checks))
    ensures Shown(smap, ViewsAfter(rmap, FirstKeys(order, n), views, allows, now))
    ensures Spent(lmap, UsesAfter(rmap, FirstKeys(order, n), views, allows, uses))
    ensures lease.View() == LeaseAfter(rmap, smap, FirstKeys(order, n), views, allows, now, old(lease.View()))
  {
    ghost var counts, l := UsesOf(limiters), lease.View();
    assert forall i :: 0 <= i < |order| ==> counts[i] == uses[order[i]];
    allowed, n := ApplyListed(lmap, smap, order, rules, limiters, states, allows, lease, now);
    ViewsMoved(rmap, smap, order, states, views, allows, checks, n, now);
    UsesCounted(rmap, lmap, order, limiters, views, allows, checks, uses, counts, n);
    LeasedIsAfter(rmap, order, smap, states, views, allows, checks, n, now, l);
  }

  // ----- Requests -----

  /** All that a request can change. */
  datatype Shot = Shot(views: Views, uses: map<Key, nat>, lease: Pending<State>)

  ghost predicate Shows(store: LimiterStore, lease: Lease, s: Shot)
    reads store, store.states.Values, store.limiters.Values, lease
  {
    Shown(store.states, s.views) && Spent(store.limiters, s.uses) && lease.View() == s.lease
  }

  /** What is changed when the rules `done` are applied. */
  ghost function ShotAfter(rules: Rules, states: map<Key, State>, done: set<Key>, s: Shot, allows: Answers,
                           now: int): Shot
    requires done <= rules.Keys && done <= states.Keys && done <= s.views.Keys
  {
    Shot(ViewsAfter(rules, done, s.views, allows, now), UsesAfter(rules, done, s.views, allows, s.uses),
         LeaseAfter(rules, states, done, s.views, allows, now, s.lease))
  }

  /** The request is judged by the rules `keys`. It panics exactly when one of them does. Otherwise all are applied;
      when all permit it is allowed, and when none is force-closed only then. */
  ghost predicate Judged(rules: Rules, states: map<Key, State>, keys: set<Key>, before: Shot, allows: Answers, now: int,
                         allowed: Option<bool>, after: Shot, done: set<Key>)
  {
    && done <= keys <= rules.Keys && rules.Keys == states.Keys == before.views.Keys
    && (allowed.None? <==> !NonePanics(rules, keys, before.views, allows))
    && NonePanics(rules, done, before.views, allows)
    && (allowed.Some? ==>
          && done == keys
          && (AllPermit(rules, keys, before.views, allows) ==> allowed.value)
          && (allowed.value && NoneForcedClosed(rules, keys) ==> AllPermit(rules, keys, before.views, allows)))
    && after == ShotAfter(rules, states, done, before, allows, now)
  }

  lemma AppliedIsJudged(rules: Rules, states: map<Key, State>, order: seq<Key>, keys: set<Key>, before: Shot,
                        allows: Answers, now: int, checks: seq<Check>, n: nat)
    requires keys <= rules.Keys && rules.Keys == states.Keys == before.views.Keys
             && forall k :: k in order <==> k in keys
    requires ChecksMatch(rules, order, before.views, allows, checks) && Stops(checks, n)
    ensures var done := FirstKeys(order, n);
            done <= keys && Judged(rules, states, keys, before, allows, now,
                                   if n < |order| then None else Some(Verdict(checks)),
                                   ShotAfter(rules, states, done, before, allows, now), done)
  {
    VerdictOnKeys(rules, order, keys, before.views, allows, checks);
    var done := FirstKeys(order, n);
    forall k | k in done
      ensures k in keys && !Fails(CheckOf(rules, before.views, allows, k))
    {
      var i :| 0 <= i < n && order[i] == k;
      assert !Fails(checks[i]);
    }
    if n == |order| {
      forall k | k in keys
        ensures k in done
      {
        var i :| 0 <= i < |order| && order[i] == k;
      }
    }
  }

  lemma NoneLeased(rules: Rules, states: map<Key, State>, before: Shot, allows: Answers, now: int)
    ensures LeaseAfter(rules, states, {}, before.views, allows, now, before.lease) == before.lease
  {
    assert StatesOf(states, {}) == map[] && StatesOf(states, {}).Values == {};
    assert Opening(rules, {}, before.views, allows, before.lease.stateSet.Keys) == {};
  }

  lemma NoRulesAllow(rules: Rules, states: map<Key, State>, before: Shot, allows: Answers, now: int)
    requires rules.Keys == states.Keys == before.views.Keys
    ensures Judged(rules, states, {}, before, allows, now, Some(true), before, {})
  {
    NoneLeased(rules, states, before, allows, now);
    assert ViewsAfter(rules, {}, before.views, allows, now) == before.views;
    assert UsesAfter(rules, {}, before.views, allows, before.uses) == before.uses;
  }

  /** The found rules are applied in some order. */
  method Validate(store: LimiterStore, keys: set<Key>, allows: Answers, lease: Lease, now: int, ghost before: Shot)
    returns (allowed: Option<bool>, ghost after: Shot, ghost done: set<Key>)
    requires store.Valid() && keys <= store.rules.Keys && Shows(store, lease, before)
    modifies store.states.Values, store.limiters.Values, lease
    ensures Judged(store.rules, store.states, keys, before, allows, now, allowed, after, done)
            && Shows(store, lease, after)
  {
    ghost var n;
    var order, rules, limiters, states := Gather(store, keys);
    ghost var checks := Checks(rules, AnswersFor(order, allows), states);
    ListedChecks(store.rules, store.states, order, rules, states, before.views, allows);
    allowed, n := Apply(store.rules, store.limiters, store.states, order, rules, limiters, states, allows, lease, now,
                        before.views, before.uses, checks);
    AppliedIsJudged(store.rules, store.states, order, keys, before, allows, now, checks, n);
    done := FirstKeys(order, n);
    after := ShotAfter(store.rules, store.states, done, before, allows, now);
  }

  /** The request is judged by the rules of the keys, and what is then shown is what the verdict comes with. */
  ghost predicate Done(store: LimiterStore, lease: Lease, keys: set<Key>, before: Shot, allows: Answers, now: int,
                       allowed: Option<bool>, after: Shot, done: set<Key>)
    reads store, store.states.Values, store.limiters.Values, lease
  {
    && Judged(store.rules, store.states, keys, before, allows, now, allowed, after, done)
    && Shows(store, lease, after)
  }

  /** A request for which no rule is found is allowed. */
  method ValidateFound(store: LimiterStore, keys: set<Key>, allows: Answers, lease: Lease, now: int, ghost before: Shot)
    returns (allowed: Option<bool>, ghost after: Shot, ghost done: set<Key>)
    requires store.Valid() && keys <= store.rules.Keys && Shows(store, lease, before)
    modifies store.states.Values, store.limiters.Values, lease
    ensures Done(store, lease, keys, before, allows, now, allowed, after, done)
  {
    if keys == {} {
      NoRulesAllow(store.rules, store.states, before, allows, now);
      return Some(true), before, {};
    }
    allowed, after, done := Validate(store, keys, allows, lease, now, before);
  }

  lemma {:induction false} FoundAreRules(rules: Rules, seeds: seq<string>, i: nat)
    requires i <= |seeds|
    ensures BreakerLookup.FoundFrom(rules, seeds, i) <= rules.Keys
    decreases |seeds| - i
  {
    if i < |seeds| {
      FoundAreRules(rules, seeds, i + 1);
    }
  }

  lemma {:induction false} FoundUrlsAreRules(rules: Rules, urls: seq<string>, httpMethod: string)
    ensures RestLookup.FoundFrom(rules, urls, httpMethod) <= rules.Keys
  {
    if urls != [] {
      FoundUrlsAreRules(rules, urls[1..], httpMethod);
    }
  }

  /** The most specific rules, as a scan of all rules picks them; colons in the request can mislead the lookups. */
  ghost function RulesFor(rules: Rules, q: Pattern): set<Key> {
    if ColonFree(q) then BreakerLookup.MostSpecific(rules, q)
    else BreakerLookup.FoundFrom(rules, BreakerLookup.GenerateWildcardSeeds(q), 0)
  }

  lemma FoundAreTheRules(rules: Rules, q: Pattern)
    ensures BreakerLookup.FoundFrom(rules, BreakerLookup.GenerateWildcardSeeds(q), 0) ==
        RulesFor(rules, q) <= rules.Keys
  {
    FoundAreRules(rules, BreakerLookup.GenerateWildcardSeeds(q), 0);
    if ColonFree(q) {
      BreakerLookup.LookupsEqualScan(rules, q);
    }
  }

  method FindForResource(store: LimiterStore, q: Pattern) returns (keys: set<Key>)
    requires store.Valid()
    ensures keys == RulesFor(store.rules, q) <= store.rules.Keys
  {
    keys := BreakerLookup.FindResource(store, q);
    FoundAreTheRules(store.rules, q);
  }

  method FindForUrl(store: LimiterStore, url: string, httpMethod: string, parse: string -> Option<RestLookup.Url>)
    returns (keys: set<Key>, ghost best: string)
    requires store.Valid()
    ensures RestLookup.ScanFinds(store.rules, url, parse(RestLookup.TrimSlash(url)), httpMethod, keys, best)
    ensures keys <= store.rules.Keys
  {
    keys := RestLookup.FindRest(store, url, httpMethod, parse);
    ghost var parsed := parse(RestLookup.TrimSlash(url));
    FoundUrlsAreRules(store.rules, RestLookup.LookupUrls(url, parsed), httpMethod);
    best := RestLookup.LookupsEqualScan(store.rules, url, parsed, httpMethod);
  }

  /** A resource request is judged by the most specific rules for it. */
  method ValidateResource(store: LimiterStore, q: Pattern, allows: Answers, lease: Lease, now: int, ghost before: Shot)
    returns (allowed: Option<bool>, ghost after: Shot, ghost done: set<Key>)
    requires store.Valid() && Shows(store, lease, before)
    modifies store.states.Values, store.limiters.Values, lease
    ensures Done(store, lease, RulesFor(store.rules, q), before, allows, now, allowed, after, done)
  {
    var keys := FindForResource(store, q);
    allowed, after, done := ValidateFound(store, keys, allows, lease, now, before);
  }

  /** A REST request is judged by the rules of its URL, or else of the longest stored prefix `best` of its path. */
  method ValidateRest(store: LimiterStore, url: string, httpMethod: string, parse: string -> Option<RestLookup.Url>,
                      allows: Answers, lease: Lease, now: int, ghost before: Shot)
    returns (allowed: Option<bool>, ghost after: Shot, ghost done: set<Key>, ghost found: set<Key>, ghost best: string)
    requires store.Valid() && Shows(store, lease, before)
    modifies store.states.Values, store.limiters.Values, lease
    ensures RestLookup.ScanFinds(store.rules, url, parse(RestLookup.TrimSlash(url)), httpMethod, found, best)
    ensures Done(store, lease, found, before, allows, now, allowed, after, done)
  {
    var keys;
    keys, best := FindForUrl(store, url, httpMethod, parse);
    found := keys;
    allowed, after, done := ValidateFound(store, keys, allows, lease, now, before);
  }
}
