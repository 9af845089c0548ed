/** Generating the child shards of a root config, and who owns which object and which pod. */
module AutoSharding {
  import opened Wrappers
  import opened Decimal
  import opened Selectors

  const POD_NAME := "statefulset.kubernetes.io/pod-name"
  const SHARD_HASH := "ctrlmesh.kusionstack.io/shard-hash"
  const NAMESPACE := "ctrlmesh.kusionstack.io/namespace"
  const HASHES := 32

  // ----- Ranges -----

  /** The least integer not below the quotient, computed on reals as the code does on floating-point numbers. */
  function Ceiling(a: int, b: int): int
    requires b != 0
  {
    -((-(a as real / b as real)).Floor)
  }

  lemma CeilingIsTight(a: int, b: int)
    requires b > 0
    ensures (Ceiling(a, b) - 1) * b < a <= Ceiling(a, b) * b
  {
    var q, c := a as real / b as real, Ceiling(a, b);
    assert (c - 1) as real < q <= c as real;
    assert q * b as real == a as real;
    assert (c - 1) as real * b as real < q * b as real <= c as real * b as real;
    assert ((c - 1) * b) as real == (c - 1) as real * b as real;
    assert (c * b) as real == c as real * b as real;
  }

  /** The decimal numerals from `lo` up to but not including `hi`. */
  function Numerals(lo: int, hi: int): seq<string> {
    seq(if lo <= hi then hi - lo else 0, i => Itoa(lo + i))
  }

  lemma NumeralsMember(lo: int, hi: int, v: int)
    ensures Itoa(v) in Numerals(lo, hi) <==> lo <= v < hi
  {
    if lo <= v < hi {
      assert Numerals(lo, hi)[v - lo] == Itoa(v);
    }
    if Itoa(v) in Numerals(lo, hi) {
      var i :| 0 <= i < |Numerals(lo, hi)| && Numerals(lo, hi)[i] == Itoa(v);
      ItoaIsInjective(lo + i, v);
    }
  }

  function Min(a: int, b: int): int {
    if a <= b then a else b
  }

  /** The hashes of shard `id` of `n`. */
  function Batch(id: int, n: int, all: int): seq<string>
    requires n > 0
  {
    var size := Ceiling(all, n);
    Numerals(size * (id - 1), Min(size * id, all))
  }

  method GetRange(id: int, n: int, all: int) returns (s: int, t: int, batch: seq<string>)
    requires n > 0
    ensures s == Ceiling(all, n) * (id - 1)
    ensures t == if Ceiling(all, n) * id > all then all else Ceiling(all, n) * id - 1
    ensures batch == Batch(id, n, all)
    ensures forall i :: 0 <= i < |batch| ==> batch[i] == Itoa(s + i)
    ensures s <= t < all ==> |batch| == t - s + 1
    ensures s <= t == all ==> |batch| == all - s
  {
    var size := Ceiling(all, n);
    s := size * (id - 1);
    t := size * id - 1;
    if t > all - 1 {
      t := all;
    }
    batch := [];
    var i := s;
    ghost var hi := Min(size * id, all);
    while i <= t && i < all
      invariant s <= i && (i <= hi || i == s)
      invariant batch == Numerals(s, i)
      decreases all - i
    {
      batch := batch + [Itoa(i)];
      i := i + 1;
    }
  }

  /** Blocks of equal size: the one that `v` lies in, and no other. */
  lemma BlockOf(v: int, size: int, n: int)
    requires size > 0 && 0 <= v < size * n
    ensures 1 <= v / size + 1 <= n && size * (v / size) <= v < size * (v / size + 1)
  {
    assert v == size * (v / size) + v % size;
  }

  lemma BlocksAreDisjoint(v: int, size: int, a: int, b: int)
    requires size > 0 && a < b
    requires v < size * a
    ensures v < size * (b - 1)
  {
    ProductGrows(size, a, b - 1);
  }

  lemma {:induction false} ProductGrows(size: int, a: int, b: int)
    requires size > 0 && a <= b
    ensures size * a <= size * b
    decreases b - a
  {
    if a < b {
      ProductGrows(size, a, b - 1);
      assert size * b == size * (b - 1) + size;
    }
  }

  lemma SizeCovers(all: int, n: int)
    requires n > 0 && all > 0
    ensures Ceiling(all, n) > 0 && all <= Ceiling(all, n) * n
  {
    CeilingIsTight(all, n);
  }

  /** Every number below `all` is in the batch of exactly one of the shards 1..n, also when the last shards
      have empty batches. */
  lemma BatchesPartition(n: int, all: int, v: int) returns (id: int)
    requires n > 0 && 0 <= v < all
    ensures 1 <= id <= n && Ceiling(all, n) * (id - 1) <= v < Ceiling(all, n) * id
    ensures forall k :: 1 <= k <= n ==> (Itoa(v) in Batch(k, n, all) <==> k == id)
  {
    SizeCovers(all, n);
    var size := Ceiling(all, n);
    assert size * n == Ceiling(all, n) * n;
    BlockOf(v, size, n);
    id := v / size + 1;
    forall k | 1 <= k <= n
      ensures Itoa(v) in Batch(k, n, all) <==> k == id
    {
      NumeralsMember(size * (k - 1), Min(size * k, all), v);
      if k < id {
        if v < size * k {
          BlocksAreDisjoint(v, size, k, id);
        }
      } else if k > id {
        BlocksAreDisjoint(v, size, id, k);
      }
    }
  }

  /** A batch holds nothing but numerals of the range. */
  lemma BatchWithinRange(id: int, n: int, all: int, x: string)
    requires 1 <= id <= n && all > 0 && x in Batch(id, n, all)
    ensures exists v :: 0 <= v < all && x == Itoa(v)
  {
    SizeCovers(all, n);
    var size := Ceiling(all, n);
    var lo, hi := size * (id - 1), Min(size * id, all);
    ProductGrows(size, 0, id - 1);
    NumeralsWithin(lo, hi, all, x);
  }

  lemma NumeralsWithin(lo: int, hi: int, all: int, x: string)
    requires 0 <= lo && hi <= all && x in Numerals(lo, hi)
    ensures exists v :: 0 <= v < all && x == Itoa(v)
  {
    var i :| 0 <= i < |Numerals(lo, hi)| && Numerals(lo, hi)[i] == x;
    assert x == Itoa(lo + i);
  }

  // ----- Child configs -----

  datatype CanaryConfig = CanaryConfig(replicas: Option<int>, inNamespaces: seq<string>, inShardHash: seq<string>)

  datatype AutoConfig = AutoConfig(shardingSize: int, everyShardReplicas: int)

  datatype ObjectLimiter = ObjectLimiter(resources: seq<APIGroupResource>, selector: Option<LabelSelector>)

  /** A generated config: its name, the pods it runs on and the limits of what it manages. */
  datatype Child = Child(name: string, pods: LabelSelector, limits: seq<ObjectLimiter>)

  function SelectorOf(sel: Option<LabelSelector>): LabelSelector {
    if sel.None? then EVERYTHING else sel.value
  }

  function With(sel: LabelSelector, rs: seq<Requirement>): LabelSelector {
    sel.(matchExpressions := sel.matchExpressions + rs)
  }

  /** Whether a canary shard is generated. */
  predicate HasCanary(c: CanaryConfig) {
    c.replicas.Some? && (c.inNamespaces != [] || c.inShardHash != [])
  }

  function CanaryRequirements(c: CanaryConfig): seq<Requirement> {
    (if c.inNamespaces != [] then [Requirement(NAMESPACE, In, c.inNamespaces)] else [])
    + (if c.inShardHash != [] then [Requirement(SHARD_HASH, In, c.inShardHash)] else [])
  }

  /** What a normal shard requires: not what the canary takes, and a hash of its batch. */
  function ShardRequirements(c: CanaryConfig, replicas: int, batch: seq<string>): seq<Requirement> {
    (if c.inNamespaces != [] && replicas > 0 then [Requirement(NAMESPACE, NotIn, c.inNamespaces)] else [])
    + (if c.inShardHash != [] && replicas > 0 then [Requirement(SHARD_HASH, NotIn, c.inShardHash)] else [])
    + [Requirement(SHARD_HASH, In, batch)]
  }

  function Limited(limiters: seq<ObjectLimiter>, rs: seq<Requirement>): seq<ObjectLimiter> {
    seq(|limiters|, i requires 0 <= i < |limiters| =>
      limiters[i].(selector := Some(With(SelectorOf(limiters[i].selector), rs))))
  }

  function PodNames(prefix: string, lo: int, hi: int): seq<string> {
    seq(if lo <= hi then hi - lo else 0, i => prefix + "-" + Itoa(lo + i))
  }

  /** `continue` in the inner loop leaves only that loop, so nothing is ever filtered out. */
  method ClearSame(data: seq<string>, target: seq<string>) returns (result: seq<string>)
    ensures result == data
  {
    result := [];
    for i := 0 to |data|
      invariant result == data[..i]
    {
      for j := 0 to |target| {
        if data[i] == target[j] {
          continue;
        }
      }
      result := result + [data[i]];
    }
  }

  method GenNameInRange(prefix: string, s: int, t: int) returns (result: seq<string>)
    ensures result == PodNames(prefix, s, t + 1)
  {
    result := [];
    var i := s;
    while i <= t
      invariant s <= i && (i <= t + 1 || i == s)
      invariant result == PodNames(prefix, s, i)
    {
      result := result + [prefix + "-" + Itoa(i)];
      i := i + 1;
    }
  }

  method GenCanaryLimits(c: CanaryConfig, limiters: seq<ObjectLimiter>) returns (result: seq<ObjectLimiter>)
    ensures result == Limited(limiters, CanaryRequirements(c))
  {
    result := [];
    for i := 0 to |limiters|
      invariant result == Limited(limiters, CanaryRequirements(c))[..i]
    {
      var sel := SelectorOf(limiters[i].selector);
      var exprs := sel.matchExpressions;
      if |c.inNamespaces| > 0 {
        exprs := exprs + [Requirement(NAMESPACE, In, c.inNamespaces)];
      }
      if |c.inShardHash| > 0 {
        exprs := exprs + [Requirement(SHARD_HASH, In, c.inShardHash)];
      }
      assert exprs == sel.matchExpressions + CanaryRequirements(c);
      result := result + [limiters[i].(selector := Some(sel.(matchExpressions := exprs)))];
    }
  }

  method GenShardingGlobalLimits(c: CanaryConfig, replicas: int, batch: seq<string>, limiters: seq<ObjectLimiter>)
    returns (result: seq<ObjectLimiter>)
    ensures result == Limited(limiters, ShardRequirements(c, replicas, batch))
  {
    var own := batch;
    if |c.inShardHash| > 0 {
      own := ClearSame(batch, c.inShardHash);
    }
    result := [];
    for i := 0 to |limiters|
      invariant result == Limited(limiters, ShardRequirements(c, replicas, batch))[..i]
    {
      var sel := SelectorOf(limiters[i].selector);
      var exprs := sel.matchExpressions;
      if |c.inNamespaces| > 0 && replicas > 0 {
        exprs := exprs + [Requirement(NAMESPACE, NotIn, c.inNamespaces)];
      }
      if |c.inShardHash| > 0 && replicas > 0 {
        exprs := exprs + [Requirement(SHARD_HASH, NotIn, c.inShardHash)];
      }
      exprs := exprs + [Requirement(SHARD_HASH, In, own)];
      assert exprs == sel.matchExpressions + ShardRequirements(c, replicas, batch);
      result := result + [limiters[i].(selector := Some(sel.(matchExpressions := exprs)))];
    }
  }

  /** The part of a root config that child generation reads. */
  datatype RootSpec = RootSpec(prefix: string, targetStatefulSet: string, podSelector: Option<LabelSelector>,
                               auto: Option<AutoConfig>, resourceSelector: seq<ObjectLimiter>)

  function PodSelector(r: RootSpec, lo: int, hi: int): LabelSelector {
    With(SelectorOf(r.podSelector), [Requirement(POD_NAME, In, PodNames(r.targetStatefulSet, lo, hi))])
  }

  function CanaryChild(r: RootSpec, c: CanaryConfig): Child
    requires HasCanary(c)
  {
    Child(r.prefix + "-0-canary", PodSelector(r, 0, c.replicas.value),
          Limited(r.resourceSelector, CanaryRequirements(c)))
  }

  function NormalChild(r: RootSpec, c: CanaryConfig, id: int): Child
    requires r.auto.Some? && 1 <= id <= r.auto.value.shardingSize && c.replicas.Some?
  {
    var n, e, first := r.auto.value.shardingSize, r.auto.value.everyShardReplicas, c.replicas.value;
    Child(r.prefix + "-" + Itoa(id) + "-normal", PodSelector(r, first + e * (id - 1), first + e * id),
          Limited(r.resourceSelector, ShardRequirements(c, first, Batch(id, n, HASHES))))
  }

  /** Without a canary the replica count is taken as 0. */
  function Effective(c: CanaryConfig): CanaryConfig {
    if HasCanary(c) then c else c.(replicas := Some(0))
  }

  function Normals(r: RootSpec, c: CanaryConfig, n: int): seq<Child>
    requires r.auto.Some? && (n <= r.auto.value.shardingSize || n <= 0) && c.replicas.Some?
  {
    if n <= 0 then [] else Normals(r, c, n - 1) + [NormalChild(r, c, n)]
  }

  function Max(a: int, b: int): int {
    if a < b then b else a
  }

  lemma {:induction false} CountNormals(r: RootSpec, c: CanaryConfig, n: int)
    requires r.auto.Some? && (n <= r.auto.value.shardingSize || n <= 0) && c.replicas.Some?
    ensures |Normals(r, c, n)| == Max(0, n)
  {
    if n > 0 {
      CountNormals(r, c, n - 1);
    }
  }

  function Children(r: RootSpec, c: CanaryConfig): seq<Child>
    requires r.auto.Some?
  {
    (if HasCanary(c) then [CanaryChild(r, c)] else []) + Normals(r, Effective(c), r.auto.value.shardingSize)
  }

  class Root {
    const spec: RootSpec
    var canary: Option<CanaryConfig>

    constructor (spec: RootSpec, canary: Option<CanaryConfig>)
      ensures this.spec == spec && this.canary == canary
    {
      this.spec, this.canary := spec, canary;
    }

    /** No result means that the missing canary config is dereferenced. A canary config for which no canary is
        generated gets its replica count set to 0. */
    method GetChild() returns (result: Option<seq<Child>>)
      modifies this
      ensures old(canary).None? ==> canary.None? && (result == if spec.auto.None? then Some([]) else None)
      ensures spec.auto.None? ==> result == Some([]) && canary == old(canary)
      ensures old(canary).Some? && spec.auto.Some? ==>
                result == Some(Children(spec, old(canary).value)) && canary == Some(Effective(old(canary).value))
      ensures old(canary).Some? && spec.auto.Some? ==>
                var c := old(canary).value;
                var made := c.replicas.Some? && (c.inNamespaces != [] || c.inShardHash != []);
                && canary == Some(if made then c else c.(replicas := Some(0)))
                && |result.value| == (if made then 1 else 0) + Max(0, spec.auto.value.shardingSize)
    {
      if spec.auto.None? {
        return Some([]);
      }
      var children: seq<Child> := [];
      if canary.Some? && canary.value.replicas.Some?
         && (|canary.value.inNamespaces| > 0 || |canary.value.inShardHash| > 0) {
        var names := GenNameInRange(spec.targetStatefulSet, 0, canary.value.replicas.value - 1);
        var limits := GenCanaryLimits(canary.value, spec.resourceSelector);
        children := [Child(spec.prefix + "-0-canary",
                           With(SelectorOf(spec.podSelector), [Requirement(POD_NAME, In, names)]), limits)];
      } else {
        if canary.None? {
          return None;
        }
        canary := Some(canary.value.(replicas := Some(0)));
      }
      var normals := GenNormals(spec, canary.value);
      CountNormals(spec, canary.value, spec.auto.value.shardingSize);
      return Some(children + normals);
    }
  }

  method GenNormals(r: RootSpec, c: CanaryConfig) returns (children: seq<Child>)
    requires r.auto.Some? && c.replicas.Some?
    ensures children == Normals(r, c, r.auto.value.shardingSize)
  {
    children := [];
    var n := r.auto.value.shardingSize;
    var id := 1;
    while id <= n
      invariant 1 <= id && (id <= n + 1 || id == 1)
      invariant children == Normals(r, c, id - 1)
    {
      var child := GenNormal(r, c, id);
      children := children + [child];
      id := id + 1;
    }
  }

  method GenNormal(r: RootSpec, c: CanaryConfig, id: int) returns (child: Child)
    requires r.auto.Some? && 1 <= id <= r.auto.value.shardingSize && c.replicas.Some?
    ensures child == NormalChild(r, c, id)
  {
    var n, e, first := r.auto.value.shardingSize, r.auto.value.everyShardReplicas, c.replicas.value;
    var names := GenNameInRange(r.targetStatefulSet, first + e * (id - 1), first + e * id - 1);
    var _, _, batch := GetRange(id, n, 32);
    var limits := GenShardingGlobalLimits(c, first, batch, r.resourceSelector);
    child := Child(r.prefix + "-" + Itoa(id) + "-normal",
                   With(SelectorOf(r.podSelector), [Requirement(POD_NAME, In, names)]), limits);
  }
}
