/** Who owns an object or a pod among the child shards of a root config, from the namespace's name to the
    selector a shard's proxy applies. */
module Ownership {
  import opened Wrappers
  import opened Decimal
  import opened Selectors
  import opened AutoSharding
  import Injection
  import NameHash

  // ----- The children by index -----

  function Offset(c: CanaryConfig): int {
    if HasCanary(c) then 0 else 1
  }

  predicate HasChild(r: RootSpec, c: CanaryConfig, j: int) {
    r.auto.Some? && 0 <= j <= r.auto.value.shardingSize - Offset(c)
  }

  function Replicas(c: CanaryConfig): int {
    Effective(c).replicas.value
  }

  /** What child `j` requires of an object beyond the limits of the root config. */
  function ChildRequirements(r: RootSpec, c: CanaryConfig, j: int): seq<Requirement>
    requires HasChild(r, c, j)
  {
    if HasCanary(c) && j == 0 then CanaryRequirements(c)
    else ShardRequirements(Effective(c), Replicas(c), Batch(j + Offset(c), r.auto.value.shardingSize, HASHES))
  }

  lemma {:induction false} NormalsAt(r: RootSpec, c: CanaryConfig, n: int, i: int)
    requires r.auto.Some? && 0 <= i < n <= r.auto.value.shardingSize && c.replicas.Some?
    ensures |Normals(r, c, n)| == n && Normals(r, c, n)[i] == NormalChild(r, c, i + 1)
  {
    if i < n - 1 {
      NormalsAt(r, c, n - 1, i);
    } else if n > 1 {
      NormalsAt(r, c, n - 1, 0);
    }
  }

  lemma ChildIs(r: RootSpec, c: CanaryConfig, j: int)
    requires HasChild(r, c, j)
    ensures j < |Children(r, c)|
    ensures Children(r, c)[j] == if HasCanary(c) && j == 0 then CanaryChild(r, c)
                                 else NormalChild(r, Effective(c), j + Offset(c))
  {
    var n := r.auto.value.shardingSize;
    if HasCanary(c) {
      if j > 0 {
        NormalsAt(r, Effective(c), n, j - 1);
      }
    } else {
      NormalsAt(r, Effective(c), n, j);
    }
  }

  lemma ChildAt(r: RootSpec, c: CanaryConfig, j: int)
    requires HasChild(r, c, j)
    ensures j < |Children(r, c)|
    ensures Children(r, c)[j].limits == Limited(r.resourceSelector, ChildRequirements(r, c, j))
  {
    ChildIs(r, c, j);
  }

  // ----- Which child takes an object -----

  ghost predicate InNamespaces(c: CanaryConfig, l: Labels) {
    NAMESPACE in l && l[NAMESPACE] in c.inNamespaces
  }

  ghost predicate InShardHash(c: CanaryConfig, l: Labels) {
    SHARD_HASH in l && l[SHARD_HASH] in c.inShardHash
  }

  ghost predicate Takes(r: RootSpec, c: CanaryConfig, j: int, l: Labels)
    requires HasChild(r, c, j)
  {
    AllHold(ChildRequirements(r, c, j), l)
  }

  lemma CanaryTakes(c: CanaryConfig, l: Labels)
    ensures AllHold(CanaryRequirements(c), l) <==>
            (c.inNamespaces != [] ==> InNamespaces(c, l)) && (c.inShardHash != [] ==> InShardHash(c, l))
  {
    var ns := Requirement(NAMESPACE, In, c.inNamespaces);
    var hash := Requirement(SHARD_HASH, In, c.inShardHash);
    assert c.inNamespaces != [] ==> ns in CanaryRequirements(c);
    assert c.inShardHash != [] ==> hash in CanaryRequirements(c);
  }

  lemma ShardTakes(c: CanaryConfig, replicas: int, batch: seq<string>, l: Labels)
    ensures AllHold(ShardRequirements(c, replicas, batch), l) <==>
            && SHARD_HASH in l && l[SHARD_HASH] in batch
            && (replicas > 0 ==> !InNamespaces(c, l) && !InShardHash(c, l))
  {
    var ns := Requirement(NAMESPACE, NotIn, c.inNamespaces);
    var hash := Requirement(SHARD_HASH, NotIn, c.inShardHash);
    var own := Requirement(SHARD_HASH, In, batch);
    var rs := ShardRequirements(c, replicas, batch);
    assert own in rs;
    assert c.inNamespaces != [] && replicas > 0 ==> ns in rs;
    assert c.inShardHash != [] && replicas > 0 ==> hash in rs;
  }

  /** A generated canary has pods. */
  predicate ProperCanary(c: CanaryConfig) {
    HasCanary(c) ==> c.replicas.value > 0
  }

  /** Both canary lists are set and the object is in one of them only. */
  ghost predicate Orphaned(c: CanaryConfig, l: Labels) {
    HasCanary(c) && c.inNamespaces != [] && c.inShardHash != [] && InNamespaces(c, l) != InShardHash(c, l)
  }

  /** No object is taken by two children, whatever its labels. */
  lemma AtMostOneOwner(r: RootSpec, c: CanaryConfig, j: int, k: int, l: Labels)
    requires ProperCanary(c) && HasChild(r, c, j) && HasChild(r, c, k)
    requires Takes(r, c, j, l) && Takes(r, c, k, l)
    ensures j == k
  {
    CanaryTakes(c, l);
    var n := r.auto.value.shardingSize;
    if n > 0 {
      ShardTakes(Effective(c), Replicas(c), Batch(j + Offset(c), n, HASHES), l);
      ShardTakes(Effective(c), Replicas(c), Batch(k + Offset(c), n, HASHES), l);
    }
    if !(HasCanary(c) && (j == 0 || k == 0)) {
      OneBatch(n, j + Offset(c), k + Offset(c), l[SHARD_HASH]);
    }
  }

  lemma OneBatch(n: int, a: int, b: int, hash: string)
    requires 1 <= a <= n && 1 <= b <= n && hash in Batch(a, n, HASHES) && hash in Batch(b, n, HASHES)
    ensures a == b
  {
    BatchWithinRange(a, n, HASHES, hash);
    var v :| 0 <= v < HASHES && hash == Itoa(v);
    var id := BatchesPartition(n, HASHES, v);
    assert a == id && b == id;
  }

  ghost predicate OwnedOnce(r: RootSpec, c: CanaryConfig, l: Labels) {
    forall j, k :: HasChild(r, c, j) && HasChild(r, c, k) && Takes(r, c, j, l) && Takes(r, c, k, l) ==> j == k
  }

  /** With a hash label in range, an object is taken twice exactly when the canary takes it and has no positive
      replica count: only with one do the shards leave out what the canary takes. */
  lemma OwnedOnceIff(r: RootSpec, c: CanaryConfig, l: Labels, v: int)
    requires r.auto.Some? && r.auto.value.shardingSize > 0
    requires 0 <= v < HASHES && SHARD_HASH in l && l[SHARD_HASH] == Itoa(v)
    ensures OwnedOnce(r, c, l) <==> ProperCanary(c) || !AllHold(CanaryRequirements(c), l)
  {
    var n := r.auto.value.shardingSize;
    if ProperCanary(c) {
      forall j, k | HasChild(r, c, j) && HasChild(r, c, k) && Takes(r, c, j, l) && Takes(r, c, k, l)
        ensures j == k
      {
        AtMostOneOwner(r, c, j, k, l);
      }
    } else {
      var id := BatchesPartition(n, HASHES, v);
      forall j | HasChild(r, c, j) && j > 0
        ensures Takes(r, c, j, l) <==> j == id
      {
        ShardTakes(Effective(c), Replicas(c), Batch(j, n, HASHES), l);
      }
      assert HasChild(r, c, 0) && HasChild(r, c, id);
      assert Takes(r, c, 0, l) <==> AllHold(CanaryRequirements(c), l);
    }
  }

  /** An object with a hash label in range is taken by some child exactly when it is not in one of two set
      canary lists only; `owner` is that child. */
  lemma SomeOwnerIff(r: RootSpec, c: CanaryConfig, l: Labels, v: int) returns (owner: int)
    requires ProperCanary(c) && r.auto.Some? && r.auto.value.shardingSize > 0
    requires 0 <= v < HASHES && SHARD_HASH in l && l[SHARD_HASH] == Itoa(v)
    ensures HasChild(r, c, owner)
    ensures !Orphaned(c, l) ==> Takes(r, c, owner, l)
    ensures var size := Ceiling(32, r.auto.value.shardingSize);
            if HasCanary(c) && (c.inNamespaces != [] ==> NAMESPACE in l && l[NAMESPACE] in c.inNamespaces)
               && (c.inShardHash != [] ==> l[SHARD_HASH] in c.inShardHash)
            then owner == 0 else size * (owner + Offset(c) - 1) <= v < size * (owner + Offset(c))
    ensures Orphaned(c, l) ==> forall j :: HasChild(r, c, j) ==> !Takes(r, c, j, l)
  {
    var n := r.auto.value.shardingSize;
    var id := BatchesPartition(n, HASHES, v);
    CanaryTakes(c, l);
    if HasCanary(c) && AllHold(CanaryRequirements(c), l) {
      owner := 0;
    } else {
      owner := id - Offset(c);
      ShardTakes(Effective(c), Replicas(c), Batch(id, n, HASHES), l);
    }
    if Orphaned(c, l) {
      forall j | HasChild(r, c, j)
        ensures !Takes(r, c, j, l)
      {
        ShardTakes(Effective(c), Replicas(c), Batch(j + Offset(c), n, HASHES), l);
      }
    }
  }

  /** Two set canary lists do leave objects without an owner. */
  lemma TwoListsOrphanObjects(r: RootSpec)
    requires r.auto.Some? && r.auto.value.shardingSize > 0
    ensures var c := CanaryConfig(Some(1), ["ns"], ["7"]);
            var l: Labels := map[NAMESPACE := "ns", SHARD_HASH := Itoa(3)];
            forall j :: HasChild(r, c, j) ==> !Takes(r, c, j, l)
  {
    var c := CanaryConfig(Some(1), ["ns"], ["7"]);
    var l: Labels := map[NAMESPACE := "ns", SHARD_HASH := Itoa(3)];
    assert Itoa(3) == "3";
    assert Orphaned(c, l);
    var owner := SomeOwnerIff(r, c, l, 3);
  }

  // ----- From the namespace to the selector in the query -----

  /** The rules a shard's proxy holds for its limits. */
  function Rules(limits: seq<ObjectLimiter>): seq<LimitRule> {
    seq(|limits|, i requires 0 <= i < |limits| => LimitRule(limits[i].selector, limits[i].resources))
  }

  /** The root's limits with a missing selector read as one that selects everything. */
  function Origins(r: RootSpec): seq<LimitRule> {
    seq(|r.resourceSelector|, i requires 0 <= i < |r.resourceSelector| =>
      LimitRule(Some(if r.resourceSelector[i].selector.None? then EVERYTHING else r.resourceSelector[i].selector.value),
                r.resourceSelector[i].resources))
  }

  lemma OriginsAre(r: RootSpec)
    ensures Rules(Limited(r.resourceSelector, [])) == Origins(r)
  {
    var plain := Rules(Limited(r.resourceSelector, []));
    forall i | 0 <= i < |plain|
      ensures plain[i] == Origins(r)[i]
    {
      var sel := SelectorOf(r.resourceSelector[i].selector);
      assert sel.matchExpressions + [] == sel.matchExpressions;
    }
  }

  /** The selector that the proxy of child `j` applies to resource `gr`. */
  ghost function ChildSelector(r: RootSpec, c: CanaryConfig, j: int, gr: GroupResource): Option<LabelSelector>
    requires HasChild(r, c, j)
  {
    ChildAt(r, c, j);
    Folded(Rules(Children(r, c)[j].limits), gr)
  }

  /** Child `j` lists the object when it asks for resource `gr`. */
  ghost predicate Manages(r: RootSpec, c: CanaryConfig, j: int, gr: GroupResource, l: Labels)
    requires HasChild(r, c, j)
  {
    var sel := ChildSelector(r, c, j, gr);
    sel.Some? && Selects(sel.value, l)
  }

  ghost predicate AnyApplies(rules: seq<LimitRule>, gr: GroupResource) {
    exists i :: 0 <= i < |rules| && Applies(rules[i], gr)
  }

  lemma WithSelects(sel: LabelSelector, rs: seq<Requirement>, l: Labels)
    ensures Selects(With(sel, rs), l) <==> Selects(sel, l) && AllHold(rs, l)
  {
    AllHoldBoth(sel.matchExpressions, rs, l);
  }

  /** Requirements added to all limits are a further condition on what satisfies them. */
  lemma LimitedSatisfies(limiters: seq<ObjectLimiter>, rs: seq<Requirement>, gr: GroupResource, l: Labels)
    requires AnyApplies(Rules(Limited(limiters, [])), gr)
    ensures SatisfiesAll(Rules(Limited(limiters, rs)), gr, l) <==>
            SatisfiesAll(Rules(Limited(limiters, [])), gr, l) && AllHold(rs, l)
  {
    var plain, more := Rules(Limited(limiters, [])), Rules(Limited(limiters, rs));
    forall i | 0 <= i < |limiters|
      ensures Applies(plain[i], gr) <==> Applies(more[i], gr)
      ensures Selects(more[i].selector.value, l) <==> Selects(plain[i].selector.value, l) && AllHold(rs, l)
    {
      WithSelects(SelectorOf(limiters[i].selector), rs, l);
      WithSelects(SelectorOf(limiters[i].selector), [], l);
    }
    SatisfiesByIndex(plain, gr, l);
    SatisfiesByIndex(more, gr, l);
  }

  lemma SatisfiesByIndex(rules: seq<LimitRule>, gr: GroupResource, l: Labels)
    ensures SatisfiesAll(rules, gr, l) <==>
            forall i :: 0 <= i < |rules| && Applies(rules[i], gr) ==> Selects(rules[i].selector.value, l)
  {
    if SatisfiesAll(rules, gr, l) {
      forall i | 0 <= i < |rules| && Applies(rules[i], gr)
        ensures Selects(rules[i].selector.value, l)
      {
        assert rules[i] in rules;
      }
    }
  }

  lemma LimitedAgree(limiters: seq<ObjectLimiter>, rs: seq<Requirement>, gr: GroupResource)
    ensures AllAgree(Rules(Limited(limiters, rs)), gr) <==> AllAgree(Rules(Limited(limiters, [])), gr)
  {
    var plain, more := Rules(Limited(limiters, [])), Rules(Limited(limiters, rs));
    if AllAgree(plain, gr) {
      SameLabelsAgree(plain, more, gr);
    }
    if AllAgree(more, gr) {
      SameLabelsAgree(more, plain, gr);
    }
  }

  lemma SameLabelsAgree(a: seq<LimitRule>, b: seq<LimitRule>, gr: GroupResource)
    requires |a| == |b| && AllAgree(a, gr)
    requires forall i :: 0 <= i < |a| ==>
               a[i].selector.Some? && b[i].selector.Some? && a[i].resources == b[i].resources
               && a[i].selector.value.matchLabels == b[i].selector.value.matchLabels
    ensures AllAgree(b, gr)
  {
    forall i, j | 0 <= i < |b| && 0 <= j < |b| && Applies(b[i], gr) && Applies(b[j], gr)
      ensures Agree(b[i].selector.value, b[j].selector.value)
    {
      assert Applies(a[i], gr) && Applies(a[j], gr);
      assert Agree(a[i].selector.value, a[j].selector.value);
    }
  }

  /** What a child lists: objects within the root's limits that it takes. */
  lemma ManagesIff(r: RootSpec, c: CanaryConfig, j: int, gr: GroupResource, l: Labels)
    requires HasChild(r, c, j) && AnyApplies(Origins(r), gr) && AllAgree(Origins(r), gr)
    ensures Manages(r, c, j, gr, l) <==> SatisfiesAll(Origins(r), gr, l) && Takes(r, c, j, l)
  {
    ChildAt(r, c, j);
    OriginsAre(r);
    var rs := ChildRequirements(r, c, j);
    var rules := Rules(Limited(r.resourceSelector, rs));
    LimitedAgree(r.resourceSelector, rs, gr);
    LimitedSatisfies(r.resourceSelector, rs, gr, l);
    FoldedSelects(rules, gr, l);
    var i :| 0 <= i < |Origins(r)| && Applies(Origins(r)[i], gr);
    assert Applies(rules[i], gr) && rules[i] in rules;
  }

  lemma {:induction false} FoldedSome(limits: seq<LimitRule>, gr: GroupResource, rule: LimitRule)
    requires rule in limits && Applies(rule, gr)
    ensures Folded(limits, gr).Some?
  {
    var front, last := limits[..|limits| - 1], limits[|limits| - 1];
    assert limits == front + [last];
    if rule in front {
      FoldedSome(front, gr, rule);
    }
  }

  /** A child lists the objects within the root's limits that it takes, and no others, exactly when the limits agree
      or its selector is not satisfiable. */
  lemma ManagesIsConjunctionIff(r: RootSpec, c: CanaryConfig, j: int, gr: GroupResource)
    requires HasChild(r, c, j) && AnyApplies(Origins(r), gr)
    ensures ChildSelector(r, c, j, gr).Some?
    ensures (forall l: Labels :: Manages(r, c, j, gr, l) <==> SatisfiesAll(Origins(r), gr, l) && Takes(r, c, j, l))
            <==> AllAgree(Origins(r), gr) || !Satisfiable(ChildSelector(r, c, j, gr).value)
  {
    ChildAt(r, c, j);
    OriginsAre(r);
    var rs := ChildRequirements(r, c, j);
    var rules := Rules(Limited(r.resourceSelector, rs));
    var i :| 0 <= i < |Origins(r)| && Applies(Origins(r)[i], gr);
    FoldedSome(rules, gr, rules[i]);
    LimitedAgree(r.resourceSelector, rs, gr);
    FoldIsConjunctionIff(rules, gr);
    forall l: Labels
      ensures Manages(r, c, j, gr, l) <==> Selects(Folded(rules, gr).value, l)
      ensures SatisfiesAll(rules, gr, l) <==> SatisfiesAll(Origins(r), gr, l) && Takes(r, c, j, l)
    {
      LimitedSatisfies(r.resourceSelector, rs, gr, l);
    }
  }

  lemma SatisfiedAgree(rules: seq<LimitRule>, gr: GroupResource, l: Labels)
    requires SatisfiesAll(rules, gr, l)
    ensures AllAgree(rules, gr)
  {
    if !AllAgree(rules, gr) {
      DisagreementExcludesAll(rules, gr, l);
    }
  }

  /** The labels that the webhooks put on an object of a namespace. */
  ghost predicate LabelledFor(l: Labels, namespace: string) {
    && NAMESPACE in l && l[NAMESPACE] == namespace
    && SHARD_HASH in l && l[SHARD_HASH] == Itoa(NameHash.Polynomial(namespace) % NameHash.DEFAULT_SHARDING_SIZE)
  }

  /** From the name to the query: an object of any namespace, within the limits of a root config that apply to
      its resource, is listed by exactly one child shard, unless its namespace is in one of two set
      canary lists only, in which case no shard lists it. */
  lemma OneOwnerPerObject(r: RootSpec, c: CanaryConfig, namespace: string, gr: GroupResource, l: Labels)
    returns (owner: int)
    requires ProperCanary(c) && r.auto.Some? && r.auto.value.shardingSize > 0
    requires AnyApplies(Origins(r), gr)
    requires LabelledFor(l, namespace) && SatisfiesAll(Origins(r), gr, l)
    ensures forall j :: HasChild(r, c, j) ==> (Manages(r, c, j, gr, l) <==> !Orphaned(c, l) && j == owner)
    ensures HasChild(r, c, owner)
  {
    SatisfiedAgree(Origins(r), gr, l);
    var v := NameHash.Polynomial(namespace) % NameHash.DEFAULT_SHARDING_SIZE;
    owner := SomeOwnerIff(r, c, l, v);
    forall j | HasChild(r, c, j)
      ensures Manages(r, c, j, gr, l) <==> !Orphaned(c, l) && j == owner
    {
      ManagesIff(r, c, j, gr, l);
      if !Orphaned(c, l) && Takes(r, c, j, l) {
        AtMostOneOwner(r, c, j, owner, l);
      }
    }
  }

  // ----- With the selector of the client -----

  /** Child `j` lists the object when a client asks for resource `gr` with a selector of its own. */
  ghost predicate Lists(r: RootSpec, c: CanaryConfig, j: int, gr: GroupResource, client: Option<LabelSelector>,
                        l: Labels)
    requires HasChild(r, c, j)
  {
    var sel := ChildSelector(r, c, j, gr);
    if sel.None? then Wants(client, l) else Selects(Injection.Injected(sel.value, client), l)
  }

  ghost predicate Wants(client: Option<LabelSelector>, l: Labels) {
    client.None? || Selects(client.value, l)
  }

  /** Whatever the client asks for, a child lists only what it takes: its requirements are expressions, and merging
      keeps them. */
  lemma ListedIsTaken(r: RootSpec, c: CanaryConfig, j: int, gr: GroupResource, client: Option<LabelSelector>, l: Labels)
    requires HasChild(r, c, j) && AnyApplies(Origins(r), gr) && Lists(r, c, j, gr, client, l)
    ensures Takes(r, c, j, l) && Wants(client, l)
  {
    ChildAt(r, c, j);
    OriginsAre(r);
    var rs := ChildRequirements(r, c, j);
    var rules := Rules(Limited(r.resourceSelector, rs));
    var i :| 0 <= i < |Origins(r)| && Applies(Origins(r)[i], gr);
    assert Applies(rules[i], gr) && rules[i] in rules;
    var sel := Folded(rules, gr);
    FoldedSome(rules, gr, rules[i]);
    if client.Some? {
      MergedMeans(sel.value, client.value, l);
    }
    forall e | e in rs
      ensures Holds(e, l)
    {
      assert e in rules[i].selector.value.matchExpressions;
      FoldKeepsExpressions(rules, gr, rules[i], e);
    }
  }

  /** No two clients, whatever they ask for, get one object from two children. */
  lemma AtMostOneLister(r: RootSpec, c: CanaryConfig, j: int, k: int, gr: GroupResource, one: Option<LabelSelector>,
                        other: Option<LabelSelector>, l: Labels)
    requires ProperCanary(c) && HasChild(r, c, j) && HasChild(r, c, k) && AnyApplies(Origins(r), gr)
    requires Lists(r, c, j, gr, one, l) && Lists(r, c, k, gr, other, l)
    ensures j == k
  {
    ListedIsTaken(r, c, j, gr, one, l);
    ListedIsTaken(r, c, k, gr, other, l);
    AtMostOneOwner(r, c, j, k, l);
  }

  /** From the name to the answer: an object of any namespace, within the limits and wanted by the client, is listed by
      exactly one child, unless it is in one of two set canary lists only, and then by none. */
  lemma OneListerPerObject(r: RootSpec, c: CanaryConfig, namespace: string, gr: GroupResource,
                           client: Option<LabelSelector>, l: Labels)
    returns (owner: int)
    requires ProperCanary(c) && r.auto.Some? && r.auto.value.shardingSize > 0
    requires AnyApplies(Origins(r), gr)
    requires LabelledFor(l, namespace) && SatisfiesAll(Origins(r), gr, l) && Wants(client, l)
    ensures forall j :: HasChild(r, c, j) ==> (Lists(r, c, j, gr, client, l) <==> !Orphaned(c, l) && j == owner)
    ensures HasChild(r, c, owner)
  {
    owner := OneOwnerPerObject(r, c, namespace, gr, l);
    SatisfiedAgree(Origins(r), gr, l);
    forall j | HasChild(r, c, j)
      ensures Lists(r, c, j, gr, client, l) <==> !Orphaned(c, l) && j == owner
    {
      ManagesIff(r, c, j, gr, l);
      if Manages(r, c, j, gr, l) && client.Some? {
        MergedSelects(ChildSelector(r, c, j, gr).value, client.value, l);
      }
      if Lists(r, c, j, gr, client, l) {
        ListedIsTaken(r, c, j, gr, client, l);
      }
    }
  }

  /** A client gets from a child what the child manages and the client wants, and nothing else, exactly when its labels
      agree with those of the child's selector or the two together are not satisfiable. */
  lemma ListsIsConjunctionIff(r: RootSpec, c: CanaryConfig, j: int, gr: GroupResource, client: LabelSelector)
    requires HasChild(r, c, j) && ChildSelector(r, c, j, gr).Some?
    ensures var sel := ChildSelector(r, c, j, gr).value;
            (forall l: Labels :: Lists(r, c, j, gr, Some(client), l) <==> Manages(r, c, j, gr, l) && Selects(client, l))
            <==> Agree(sel, client) || !Satisfiable(Merged(sel, client))
  {
    var sel := ChildSelector(r, c, j, gr).value;
    MergeIsConjunctionIff(sel, client);
    forall l: Labels
      ensures Lists(r, c, j, gr, Some(client), l) <==> Selects(Merged(sel, client), l)
      ensures Manages(r, c, j, gr, l) <==> Selects(sel, l)
    {
    }
  }

  /** The labels of the client do win: under a limit to team a, a client that asks for team b gets objects of team b. */
  lemma ClientOverridesLimit(r: RootSpec, c: CanaryConfig, j: int, gr: GroupResource, resources: seq<APIGroupResource>,
                             l: Labels)
    requires HasChild(r, c, j) && Takes(r, c, j, l) && "team" in l && l["team"] == "b"
    requires r.resourceSelector == [ObjectLimiter(resources, Some(LabelSelector(map["team" := "a"], [])))]
    requires AnyApplies(Origins(r), gr)
    ensures Lists(r, c, j, gr, Some(LabelSelector(map["team" := "b"], [])), l) && !SatisfiesAll(Origins(r), gr, l)
  {
    ChildAt(r, c, j);
    OriginsAre(r);
    var rs := ChildRequirements(r, c, j);
    var rules := Rules(Limited(r.resourceSelector, rs));
    var limit, client := LabelSelector(map["team" := "a"], []), LabelSelector(map["team" := "b"], []);
    assert |Origins(r)| == 1 && Applies(Origins(r)[0], gr);
    assert rules == [LimitRule(Some(With(limit, rs)), resources)];
    assert Applies(rules[0], gr) && rules[..0] == [];
    assert Folded([], gr) == None;
    assert Folded(rules, gr) == Some(With(limit, rs));
    MergedMeans(With(limit, rs), client, l);
    assert With(limit, rs).matchExpressions == rs;
    assert With(limit, rs).matchLabels - client.matchLabels.Keys == map[];
    assert Origins(r)[0] in Origins(r) && !Selects(Origins(r)[0].selector.value, l);
  }

  // ----- Pods -----

  /** The ordinals of the pods of child `j`. */
  function Ordinals(r: RootSpec, c: CanaryConfig, j: int): (int, int)
    requires HasChild(r, c, j)
  {
    if HasCanary(c) && j == 0 then (0, Replicas(c))
    else
      var e, id := r.auto.value.everyShardReplicas, j + Offset(c);
      (Replicas(c) + e * (id - 1), Replicas(c) + e * id)
  }

  function PodName(r: RootSpec, o: int): string {
    r.targetStatefulSet + "-" + Itoa(o)
  }

  lemma PodsAt(r: RootSpec, c: CanaryConfig, j: int)
    requires HasChild(r, c, j)
    ensures j < |Children(r, c)|
    ensures Children(r, c)[j].pods == PodSelector(r, Ordinals(r, c, j).0, Ordinals(r, c, j).1)
  {
    ChildIs(r, c, j);
  }

  lemma SameTail(head: string, a: string, b: string)
    requires head + a == head + b
    ensures a == b
  {
    assert (head + a)[|head|..] == a && (head + b)[|head|..] == b;
  }

  lemma SamePodName(r: RootSpec, o: int, p: int)
    requires PodName(r, o) == PodName(r, p)
    ensures o == p
  {
    SameTail(r.targetStatefulSet + "-", Itoa(o), Itoa(p));
    ItoaIsInjective(o, p);
  }

  ghost predicate Injective(f: int -> string) {
    forall a, b :: f(a) == f(b) ==> a == b
  }

  lemma RangeMember(f: int -> string, names: seq<string>, lo: int, hi: int, o: int)
    requires Injective(f) && |names| == if lo <= hi then hi - lo else 0
    requires forall i :: 0 <= i < |names| ==> names[i] == f(lo + i)
    ensures f(o) in names <==> lo <= o < hi
  {
    if lo <= o < hi {
      assert names[o - lo] == f(o);
    }
  }

  lemma PodNamesMember(r: RootSpec, lo: int, hi: int, o: int)
    ensures PodName(r, o) in PodNames(r.targetStatefulSet, lo, hi) <==> lo <= o < hi
  {
    var f: int -> string := (x: int) => PodName(r, x);
    forall a, b | f(a) == f(b)
      ensures a == b
    {
      SamePodName(r, a, b);
    }
    RangeMember(f, PodNames(r.targetStatefulSet, lo, hi), lo, hi, o);
  }

  /** Child `j` selects the pod with the labels. */
  ghost predicate RunsOn(r: RootSpec, c: CanaryConfig, j: int, l: Labels)
    requires HasChild(r, c, j)
  {
    PodsAt(r, c, j);
    Selects(Children(r, c)[j].pods, l)
  }

  /** The labels of the pod with ordinal `o` of the stateful set. */
  ghost predicate PodLabels(r: RootSpec, o: int, l: Labels) {
    POD_NAME in l && l[POD_NAME] == PodName(r, o)
  }

  /** A child selects a pod exactly when the root's own pod selector does and the ordinal is one of its own. */
  lemma RunsOnIff(r: RootSpec, c: CanaryConfig, j: int, o: int, l: Labels)
    requires HasChild(r, c, j) && PodLabels(r, o, l)
    ensures RunsOn(r, c, j, l) <==>
            && (r.podSelector.Some? ==> Selects(r.podSelector.value, l))
            && Ordinals(r, c, j).0 <= o < Ordinals(r, c, j).1
  {
    PodsAt(r, c, j);
    var names := PodNames(r.targetStatefulSet, Ordinals(r, c, j).0, Ordinals(r, c, j).1);
    var own := Requirement(POD_NAME, In, names);
    WithSelects(SelectorOf(r.podSelector), [own], l);
    assert AllHold([own], l) <==> l[POD_NAME] in names by {
      assert own in [own];
    }
    PodNamesMember(r, Ordinals(r, c, j).0, Ordinals(r, c, j).1, o);
  }

  /** With counts that are not negative, every pod of the stateful set that the root selects belongs to exactly one
      child, and one that it does not select to none. */
  lemma OneShardPerPod(r: RootSpec, c: CanaryConfig, o: int, l: Labels) returns (owner: int)
    requires r.auto.Some? && r.auto.value.everyShardReplicas >= 0 && Replicas(c) >= 0
    requires 0 <= o < Replicas(c) + r.auto.value.everyShardReplicas * r.auto.value.shardingSize
    requires r.auto.value.shardingSize > 0 && PodLabels(r, o, l)
    ensures HasChild(r, c, owner)
    ensures forall j :: HasChild(r, c, j) ==>
              (RunsOn(r, c, j, l) <==> j == owner && (r.podSelector.Some? ==> Selects(r.podSelector.value, l)))
    ensures var e, first := r.auto.value.everyShardReplicas, Replicas(c);
            if o < first then owner == 0
            else first + e * (owner + Offset(c) - 1) <= o < first + e * (owner + Offset(c))
  {
    var e, n, first := r.auto.value.everyShardReplicas, r.auto.value.shardingSize, Replicas(c);
    if o < first {
      owner := 0;
    } else {
      assert e != 0;
      BlockOf(o - first, e, n);
      owner := (o - first) / e + 1 - Offset(c);
    }
    forall j | HasChild(r, c, j)
      ensures RunsOn(r, c, j, l) <==> j == owner && (r.podSelector.Some? ==> Selects(r.podSelector.value, l))
    {
      RunsOnIff(r, c, j, o, l);
      OrdinalsPartition(r, c, j, owner, o);
    }
  }

  // ----- The names of the children -----

  lemma SameHead(a: string, b: string, tail: string)
    requires a + tail == b + tail
    ensures a == b
  {
    assert |a| == |b|;
    assert a == (a + tail)[..|a|] && b == (b + tail)[..|b|];
  }

  function NormalName(prefix: string, id: int): string {
    prefix + "-" + Itoa(id) + "-normal"
  }

  function CanaryName(prefix: string): string {
    prefix + "-0-canary"
  }

  /** The name of child number `id`; number 0 is the canary's. */
  function NameText(prefix: string, canary: bool, id: int): string {
    if canary && id == 0 then CanaryName(prefix) else NormalName(prefix, id)
  }

  lemma NormalNamesDiffer(prefix: string, a: int, b: int)
    requires a > 0 && b > 0 && NormalName(prefix, a) == NormalName(prefix, b)
    ensures a == b
  {
    SameHead(prefix + "-" + Itoa(a), prefix + "-" + Itoa(b), "-normal");
    SameTail(prefix + "-", Itoa(a), Itoa(b));
    ItoaIsInjective(a, b);
  }

  lemma CanaryNameDiffers(prefix: string, id: int)
    ensures CanaryName(prefix) != NormalName(prefix, id)
  {
    var x, y := CanaryName(prefix), NormalName(prefix, id);
    assert x[|x| - 1] == 'y' && y[|y| - 1] == 'l';
  }

  lemma NameIs(r: RootSpec, c: CanaryConfig, j: int)
    requires HasChild(r, c, j)
    ensures j < |Children(r, c)|
    ensures Children(r, c)[j].name == NameText(r.prefix, HasCanary(c), j + Offset(c))
  {
    ChildIs(r, c, j);
  }

  lemma TextsDiffer(prefix: string, canary: bool, a: int, b: int)
    requires a >= 0 && b >= 0 && a != b && (!canary ==> a > 0 && b > 0)
    ensures NameText(prefix, canary, a) != NameText(prefix, canary, b)
  {
    CanaryNameDiffers(prefix, a);
    CanaryNameDiffers(prefix, b);
    if a > 0 && b > 0 && NormalName(prefix, a) == NormalName(prefix, b) {
      NormalNamesDiffer(prefix, a, b);
    }
  }

  /** No two children have one name, so none overwrites another. */
  lemma NamesDiffer(r: RootSpec, c: CanaryConfig, j: int, k: int)
    requires HasChild(r, c, j) && HasChild(r, c, k) && j != k
    ensures j < |Children(r, c)| && k < |Children(r, c)|
    ensures Children(r, c)[j].name != Children(r, c)[k].name
  {
    NameIs(r, c, j);
    NameIs(r, c, k);
    TextsDiffer(r.prefix, HasCanary(c), j + Offset(c), k + Offset(c));
  }

  lemma OrdinalsPartition(r: RootSpec, c: CanaryConfig, j: int, owner: int, o: int)
    requires HasChild(r, c, j) && HasChild(r, c, owner)
    requires r.auto.value.everyShardReplicas >= 0 && Replicas(c) >= 0
    requires Ordinals(r, c, owner).0 <= o < Ordinals(r, c, owner).1
    ensures Ordinals(r, c, j).0 <= o < Ordinals(r, c, j).1 <==> j == owner
  {
    var e, first := r.auto.value.everyShardReplicas, Replicas(c);
    var a, b := j + Offset(c), owner + Offset(c);
    if HasCanary(c) && (j == 0 || owner == 0) {
      if j > 0 {
        assert e * (a - 1) >= 0;
      } else if owner > 0 {
        assert e * (b - 1) >= 0;
      }
    } else if a < b && o - first < e * a {
      assert e > 0;
      BlocksAreDisjoint(o - first, e, a, b);
    } else if b < a {
      assert e > 0;
      BlocksAreDisjoint(o - first, e, b, a);
    }
  }
}
