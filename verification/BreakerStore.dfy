/** The local stores of the circuit breaker and their inverted indices. */
module BreakerStore {
  import opened BreakerRules
  import opened BreakerState

  // ----- Inverted indices -----

  type Index = map<string, set<Key>>

  function At(idx: Index, v: string): set<Key> {
    if v in idx then idx[v] else {}
  }

  ghost predicate NoEmptyBucket(idx: Index) {
    forall v :: v in idx ==> idx[v] != {}
  }

  function Tagged(tags: map<Key, set<string>>, v: string): set<Key> {
    set k | k in tags && v in tags[k]
  }

  /** A key is in a bucket exactly when its tags have the bucket's value, and no bucket is empty. */
  ghost predicate Exact(idx: Index, tags: map<Key, set<string>>) {
    NoEmptyBucket(idx) && forall v :: At(idx, v) == Tagged(tags, v)
  }

  lemma ExactInsert(idx: Index, result: Index, tags: map<Key, set<string>>, key: Key, values: set<string>)
    requires Exact(idx, tags) && key !in tags && NoEmptyBucket(result) && Edited(idx, result, values, key, true)
    ensures Exact(result, tags[key := values])
  {
    forall v
      ensures At(result, v) == Tagged(tags[key := values], v)
    {
    }
  }

  lemma ExactDelete(idx: Index, result: Index, tags: map<Key, set<string>>, key: Key)
    requires Exact(idx, tags) && key in tags && NoEmptyBucket(result) && Edited(idx, result, tags[key], key, false)
    ensures Exact(result, tags - {key})
  {
    forall v
      ensures At(result, v) == Tagged(tags - {key}, v)
    {
    }
  }

  /** The tags determine the index. */
  lemma ExactIsUnique(a: Index, b: Index, tags: map<Key, set<string>>)
    requires Exact(a, tags) && Exact(b, tags)
    ensures a == b
  {
    forall v
      ensures v in a <==> v in b
      ensures v in a ==> a[v] == b[v]
    {
      assert At(a, v) == At(b, v);
    }
  }

  /** In the buckets of `values` the key has been added to `idx`, or with `add` false removed. */
  ghost predicate Edited(idx: Index, result: Index, values: set<string>, key: Key, add: bool) {
    && (forall v :: v in values ==> At(result, v) == if add then At(idx, v) + {key} else At(idx, v) - {key})
    && (forall v :: v !in values ==> At(result, v) == At(idx, v))
  }

  lemma EditOneMore(idx: Index, before: Index, result: Index, done: set<string>, v: string, key: Key, add: bool)
    requires Edited(idx, before, done, key, add) && Edited(before, result, {v}, key, add) && v !in done
    ensures Edited(idx, result, done + {v}, key, add)
  {
  }

  /** Adds the key to one bucket. */
  method InsertInto(idx: Index, v: string, key: Key) returns (result: Index)
    ensures Edited(idx, result, {v}, key, true)
    ensures NoEmptyBucket(idx) ==> NoEmptyBucket(result)
  {
    result := idx[v := At(idx, v) + {key}];
  }

  /** Adds the key to the bucket of every value. */
  method InsertKey(idx: Index, values: set<string>, key: Key) returns (result: Index)
    ensures Edited(idx, result, values, key, true)
    ensures NoEmptyBucket(idx) ==> NoEmptyBucket(result)
  {
    result := idx;
    var left := values;
    ghost var done: set<string> := {};
    while left != {}
      invariant left <= values && done == values - left
      invariant Edited(idx, result, done, key, true)
      invariant NoEmptyBucket(idx) ==> NoEmptyBucket(result)
      decreases left
    {
      var v :| v in left;
      ghost var before := result;
      result := InsertInto(result, v, key);
      EditOneMore(idx, before, result, done, v, key, true);
      left, done := left - {v}, done + {v};
    }
  }

  /** Removes the key from one bucket, and the bucket when it becomes empty. */
  method DeleteFrom(idx: Index, v: string, key: Key) returns (result: Index)
    ensures Edited(idx, result, {v}, key, false)
    ensures NoEmptyBucket(idx) ==> NoEmptyBucket(result)
  {
    result := idx;
    if v in idx {
      var bucket := idx[v] - {key};
      if bucket == {} {
        result := idx - {v};
      } else {
        result := idx[v := bucket];
      }
    }
  }

  /** Removes the key from the bucket of every value. */
  method DeleteKey(idx: Index, values: set<string>, key: Key) returns (result: Index)
    ensures Edited(idx, result, values, key, false)
    ensures NoEmptyBucket(idx) ==> NoEmptyBucket(result)
  {
    result := idx;
    var left := values;
    ghost var done: set<string> := {};
    while left != {}
      invariant left <= values && done == values - left
      invariant Edited(idx, result, done, key, false)
      invariant NoEmptyBucket(idx) ==> NoEmptyBucket(result)
      decreases left
    {
      var v :| v in left;
      ghost var before := result;
      result := DeleteFrom(result, v, key);
      EditOneMore(idx, before, result, done, v, key, false);
      left, done := left - {v}, done + {v};
    }
  }

  // ----- The limiter store -----

  /** A rate limiter of the rule stored under `owner`, and how many requests it has let through. */
  class Limiter {
    ghost const owner: Key
    const bucket: Bucket
    var used: nat

    constructor (ghost owner: Key, bucket: Bucket)
      ensures this.owner == owner && this.bucket == bucket && used == 0
    {
      this.owner, this.bucket, used := owner, bucket, 0;
    }

    /** `answer` is what the clock and the bucket decide. */
    method Allow(answer: bool) returns (ok: bool)
      modifies this
      ensures ok == answer && used == old(used) + if ok then 1 else 0
    {
      if answer {
        used := used + 1;
      }
      return answer;
    }
  }

  function ResourceTags(rules: map<Key, RateLimiting>): map<Key, set<string>> {
    map k | k in rules :: ResourceKeys(rules[k])
  }

  function RestTags(rules: map<Key, RateLimiting>): map<Key, set<string>> {
    map k | k in rules :: RestKeys(rules[k])
  }

  ghost predicate Limits(rules: map<Key, RateLimiting>, limiters: map<Key, Limiter>) {
    && rules.Keys == limiters.Keys
    && (forall k :: k in limiters ==> limiters[k].owner == k && limiters[k].bucket == rules[k].bucket)
  }

  lemma LimitsWith(rules: map<Key, RateLimiting>, limiters: map<Key, Limiter>, key: Key, rule: RateLimiting,
                   limiter: Limiter)
    requires Limits(rules, limiters) && limiter.owner == key && limiter.bucket == rule.bucket
    ensures Limits(rules[key := rule], limiters[key := limiter])
  {
  }

  lemma TaggedByPattern(rules: map<Key, RateLimiting>, value: string)
    ensures forall k :: k in Tagged(ResourceTags(rules), value) <==>
              k in rules && exists p :: HasPattern(rules[k], p) && value == IndexForResource(p)
  {
    forall k | k in rules
      ensures value in ResourceKeys(rules[k]) <==> exists p :: HasPattern(rules[k], p) && value == IndexForResource(p)
    {
      ResourceKeysIff(rules[k], value);
    }
  }

  class LimiterStore {
    var rules: map<Key, RateLimiting>
    var limiters: map<Key, Limiter>
    var states: map<Key, State>
    var resourceIndex: Index
    var restIndex: Index

    /** Every rule has its own state and its own limiter, with the bucket of the rule, and both indices are exact. */
    ghost predicate Valid()
      reads this
    {
      && rules.Keys == states.Keys && (forall k :: k in states ==> states[k].key == k)
      && Limits(rules, limiters)
      && Exact(resourceIndex, ResourceTags(rules))
      && Exact(restIndex, RestTags(rules))
    }

    ghost function Views(): map<Key, Breaker>
      reads this, states.Values
    {
      map k | k in states :: states[k].View()
    }

    constructor ()
      ensures Valid() && rules == map[] && limiters == map[] && states == map[]
    {
      rules, limiters, states, resourceIndex, restIndex := map[], map[], map[], map[], map[];
    }

    method AddToIndices(rule: RateLimiting, key: Key, ghost before: map<Key, RateLimiting>)
      requires Exact(resourceIndex, ResourceTags(before)) && Exact(restIndex, RestTags(before)) && key !in before
      modifies this`resourceIndex, this`restIndex
      ensures Exact(resourceIndex, ResourceTags(before[key := rule])) && Exact(restIndex, RestTags(before[key := rule]))
    {
      ghost var resource, rest := resourceIndex, restIndex;
      var resourceKeys := IndexFuncForResource(rule);
      resourceIndex := InsertKey(resourceIndex, Elements(resourceKeys), key);
      var restKeys := IndexFuncForRest(rule);
      restIndex := InsertKey(restIndex, Elements(restKeys), key);
      ExactInsert(resource, resourceIndex, ResourceTags(before), key, ResourceKeys(rule));
      ExactInsert(rest, restIndex, RestTags(before), key, RestKeys(rule));
      assert ResourceTags(before)[key := ResourceKeys(rule)] == ResourceTags(before[key := rule]);
      assert RestTags(before)[key := RestKeys(rule)] == RestTags(before[key := rule]);
    }

    method DeleteFromIndices(rule: RateLimiting, key: Key, ghost before: map<Key, RateLimiting>)
      requires Exact(resourceIndex, ResourceTags(before)) && Exact(restIndex, RestTags(before))
      requires key in before && before[key] == rule
      modifies this`resourceIndex, this`restIndex
      ensures Exact(resourceIndex, ResourceTags(before - {key})) && Exact(restIndex, RestTags(before - {key}))
    {
      ghost var resource, rest := resourceIndex, restIndex;
      var resourceKeys := IndexFuncForResource(rule);
      resourceIndex := DeleteKey(resourceIndex, Elements(resourceKeys), key);
      var restKeys := IndexFuncForRest(rule);
      restIndex := DeleteKey(restIndex, Elements(restKeys), key);
      ExactDelete(resource, resourceIndex, ResourceTags(before), key);
      ExactDelete(rest, restIndex, RestTags(before), key);
      assert ResourceTags(before) - {key} == ResourceTags(before - {key});
      assert RestTags(before) - {key} == RestTags(before - {key});
    }

    method CreateRule(key: Key, rule: RateLimiting)
      requires Valid() && key !in rules
      modifies this
      ensures Valid() && rules == old(rules)[key := rule]
      ensures key in limiters && fresh(limiters[key]) && limiters == old(limiters)[key := limiters[key]]
      ensures key in states && fresh(states[key]) && states == old(states)[key := states[key]]
      ensures limiters[key].used == 0 && states[key].View() == FRESH
    {
      rules := rules[key := rule];
      var limiter := new Limiter(key, rule.bucket);
      limiters := limiters[key := limiter];
      var st := new State(key);
      states := states[key := st];
      AddToIndices(rule, key, old(rules));
    }

    method MoveInIndices(oldOne: RateLimiting, rule: RateLimiting, key: Key, ghost before: map<Key, RateLimiting>)
      requires Exact(resourceIndex, ResourceTags(before)) && Exact(restIndex, RestTags(before))
      requires key in before && before[key] == oldOne
      modifies this`resourceIndex, this`restIndex
      ensures Exact(resourceIndex, ResourceTags(before[key := rule])) && Exact(restIndex, RestTags(before[key := rule]))
    {
      DeleteFromIndices(oldOne, key, before);
      AddToIndices(rule, key, before - {key});
      assert (before - {key})[key := rule] == before[key := rule];
    }

    method UpdateRule(key: Key, rule: RateLimiting)
      requires Valid() && key in rules
      modifies this`rules, this`limiters, this`resourceIndex, this`restIndex
      ensures Valid() && rules == old(rules)[key := rule] && limiters == old(limiters)[key := limiters[key]]
      ensures if old(rules)[key].bucket == rule.bucket then limiters[key] == old(limiters)[key]
              else fresh(limiters[key]) && limiters[key].used == 0
    {
      var oldOne := rules[key];
      rules := rules[key := rule];
      MoveInIndices(oldOne, rule, key, old(rules));
      RefreshLimiter(key, oldOne.bucket, rule.bucket);
      LimitsWith(old(rules), old(limiters), key, rule, limiters[key]);
    }

    /** A limiter is replaced when the bucket changed. */
    method RefreshLimiter(key: Key, was: Bucket, bucket: Bucket)
      requires key in limiters && limiters[key].owner == key && limiters[key].bucket == was
      modifies this`limiters
      ensures key in limiters && limiters == old(limiters)[key := limiters[key]]
      ensures limiters[key].owner == key && limiters[key].bucket == bucket
      ensures if was == bucket then limiters[key] == old(limiters[key])
              else fresh(limiters[key]) && limiters[key].used == 0
    {
      if was != bucket {
        var limiter := new Limiter(key, bucket);
        limiters := limiters[key := limiter];
      }
    }

    /** A new key gets a new limiter and a closed breaker. A known key keeps its breaker, and its limiter unless
        the bucket changed. */
    method CreateOrUpdateRule(key: Key, rule: RateLimiting)
      requires Valid()
      modifies this
      ensures Valid() && rules == old(rules)[key := rule]
      ensures limiters == old(limiters)[key := limiters[key]] && states == old(states)[key := states[key]]
      ensures if key in old(rules) && old(rules)[key].bucket == rule.bucket then limiters[key] == old(limiters)[key]
              else fresh(limiters[key]) && limiters[key].used == 0
      ensures if key in old(rules) then states[key] == old(states)[key]
              else fresh(states[key]) && states[key].View() == FRESH
    {
      if key !in rules {
        CreateRule(key, rule);
      } else {
        assert states == states[key := states[key]];
        UpdateRule(key, rule);
      }
    }

    method DeleteRule(key: Key)
      requires Valid()
      modifies this
      ensures Valid() && rules == old(rules) - {key}
      ensures limiters == old(limiters) - {key} && states == old(states) - {key}
    {
      if key in rules {
        DeleteFromIndices(rules[key], key, rules);
        rules := rules - {key};
        limiters := limiters - {key};
        states := states - {key};
      }
    }

    /** The keys found under a resource value are those of the rules that have it. */
    method ByResource(value: string) returns (keys: set<Key>)
      requires Valid()
      ensures keys == set k | k in rules && value in ResourceKeys(rules[k])
      ensures forall k :: k in keys <==>
                k in rules && exists p :: HasPattern(rules[k], p) && value == IndexForResource(p)
    {
      keys := At(resourceIndex, value);
      assert keys == Tagged(ResourceTags(rules), value);
      TaggedByPattern(rules, value);
    }

    method ByRest(value: string) returns (keys: set<Key>)
      requires Valid()
      ensures keys == set k | k in rules && value in RestKeys(rules[k])
      ensures forall k :: k in keys <==>
                k in rules && exists r :: r in rules[k].restRules && value == IndexForRest(r.url, r.httpMethod)
    {
      keys := At(restIndex, value);
      assert keys == Tagged(RestTags(rules), value);
    }
  }
}
