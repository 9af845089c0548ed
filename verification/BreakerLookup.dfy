/** Finding the rules for a request: the wildcard lookups against a scan of all rules. */
module BreakerLookup {
  import opened Strings
  import opened BreakerRules
  import opened BreakerStore

  type Rules = map<Key, RateLimiting>

  // ----- Resource requests -----

  const ANY := "*"

  /** Which fields of a request are replaced by the wildcard. */
  datatype Mask = Mask(namespace: bool, apiGroup: bool, resource: bool, verb: bool)

  function Wild(q: Pattern, m: Mask): Pattern {
    Pattern(if m.namespace then ANY else q.namespace, if m.apiGroup then ANY else q.apiGroup,
            if m.resource then ANY else q.resource, if m.verb then ANY else q.verb)
  }

  /** The lookups in order: fewest wildcards first. */
  const ORDER: seq<Mask> := [
    Mask(false, false, false, false),
    Mask(true, false, false, false), Mask(false, true, false, false),
    Mask(false, false, true, false), Mask(false, false, false, true),
    Mask(true, true, false, false), Mask(true, false, true, false), Mask(false, true, true, false),
    Mask(true, false, false, true), Mask(false, true, false, true), Mask(false, false, true, true),
    Mask(true, true, true, false), Mask(true, true, false, true), Mask(true, false, true, true),
    Mask(false, true, true, true),
    Mask(true, true, true, true)]

  function GenerateWildcardSeeds(q: Pattern): seq<string> {
    seq(|ORDER|, i requires 0 <= i < |ORDER| => IndexForResource(Wild(q, ORDER[i])))
  }

  /** The rules found by the first lookup, from the `i`th on, that finds any. */
  function FoundFrom(rules: Rules, seeds: seq<string>, i: nat): set<Key>
    requires i <= |seeds|
    decreases |seeds| - i
  {
    if i == |seeds| then {}
    else
      var ks := Tagged(ResourceTags(rules), seeds[i]);
      if ks != {} then ks else FoundFrom(rules, seeds, i + 1)
  }

  method FindResource(store: LimiterStore, q: Pattern) returns (keys: set<Key>)
    requires store.Valid()
    ensures keys == FoundFrom(store.rules, GenerateWildcardSeeds(q), 0)
  {
    keys := FindFirst(store, GenerateWildcardSeeds(q));
  }

  method FindFirst(store: LimiterStore, seeds: seq<string>) returns (keys: set<Key>)
    requires store.Valid()
    ensures keys == FoundFrom(store.rules, seeds, 0)
  {
    for i := 0 to |seeds|
      invariant FoundFrom(store.rules, seeds, 0) == FoundFrom(store.rules, seeds, i)
    {
      keys := store.ByResource(seeds[i]);
      assert keys == Tagged(ResourceTags(store.rules), seeds[i]);
      if keys != {} {
        return;
      }
    }
    keys := {};
  }

  // The scan: the reference for what the lookups find.

  predicate PatternMatches(p: Pattern, q: Pattern) {
    && (p.namespace == q.namespace || p.namespace == ANY) && (p.apiGroup == q.apiGroup || p.apiGroup == ANY)
    && (p.resource == q.resource || p.resource == ANY) && (p.verb == q.verb || p.verb == ANY)
  }

  function Bit(b: bool): nat {
    if b then 1 else 0
  }

  /** Fewer wildcards come first; among as many, a pattern that fixes the verb, then the resource, then the API
      group comes first. */
  function Score(m: Mask): nat {
    16 * (Bit(m.namespace) + Bit(m.apiGroup) + Bit(m.resource) + Bit(m.verb))
    + 8 * Bit(m.verb) + 4 * Bit(m.resource) + 2 * Bit(m.apiGroup) + Bit(m.namespace)
  }

  /** Wildcards in a mask. */
  function Count(m: Mask): nat {
    Bit(m.namespace) + Bit(m.apiGroup) + Bit(m.resource) + Bit(m.verb)
  }

  /** What the score means: fewer wildcards win; with as many, the first of verb, resource, API group and namespace that
      only one of the two fixes decides. */
  lemma ScoreMeans(m: Mask, n: Mask)
    ensures Score(m) < Score(n) <==>
            if Count(m) != Count(n) then Count(m) < Count(n)
            else if m.verb != n.verb then n.verb
            else if m.resource != n.resource then n.resource
            else if m.apiGroup != n.apiGroup then n.apiGroup
            else n.namespace && !m.namespace
  {
  }

  /** The fields in which the pattern needs its wildcard for this request. */
  function MaskOf(p: Pattern, q: Pattern): Mask {
    Mask(p.namespace != q.namespace, p.apiGroup != q.apiGroup, p.resource != q.resource, p.verb != q.verb)
  }

  ghost predicate Candidate(rules: Rules, q: Pattern, k: Key, p: Pattern) {
    k in rules && HasPattern(rules[k], p) && PatternMatches(p, q)
  }

  /** The rules with a matching pattern that no rule's matching pattern beats. */
  ghost function MostSpecific(rules: Rules, q: Pattern): set<Key> {
    set k | k in rules && exists p :: Candidate(rules, q, k, p) && Unbeaten(rules, q, p)
  }

  ghost predicate Unbeaten(rules: Rules, q: Pattern, p: Pattern) {
    forall l, r :: Candidate(rules, q, l, r) ==> Score(MaskOf(p, q)) <= Score(MaskOf(r, q))
  }

  /** The most specific rules, field by field: a rule is one of them when it has a pattern whose fields are those of the
      request or the wildcard, and no rule has such a pattern that fixes more fields. */
  lemma MostSpecificMeans(rules: Rules, q: Pattern, k: Key)
    requires k in MostSpecific(rules, q)
    ensures k in rules
    ensures exists p ::
              && HasPattern(rules[k], p) && p.namespace in {q.namespace, "*"} && p.apiGroup in {q.apiGroup, "*"}
              && p.resource in {q.resource, "*"} && p.verb in {q.verb, "*"}
              && (forall l, r ::
                    (&& l in rules && HasPattern(rules[l], r)
                     && r.namespace in {q.namespace, "*"} && r.apiGroup in {q.apiGroup, "*"}
                     && r.resource in {q.resource, "*"} && r.verb in {q.verb, "*"}) ==>
                       Fixed(r, q) <= Fixed(p, q))
  {
    var p :| Candidate(rules, q, k, p) && Unbeaten(rules, q, p);
    forall l, r | l in rules && HasPattern(rules[l], r)
                  && r.namespace in {q.namespace, "*"} && r.apiGroup in {q.apiGroup, "*"}
                  && r.resource in {q.resource, "*"} && r.verb in {q.verb, "*"}
      ensures Fixed(r, q) <= Fixed(p, q)
    {
      assert Candidate(rules, q, l, r);
      FewerFixed(r, p, q);
    }
  }

  lemma FewerFixed(r: Pattern, p: Pattern, q: Pattern)
    requires Score(MaskOf(p, q)) <= Score(MaskOf(r, q))
    ensures Fixed(r, q) <= Fixed(p, q)
  {
    assert Fixed(p, q) == 4 - Count(MaskOf(p, q)) && Fixed(r, q) == 4 - Count(MaskOf(r, q));
    ScoreMeans(MaskOf(r, q), MaskOf(p, q));
  }

  /** How many fields of the request the pattern has. */
  function Fixed(p: Pattern, q: Pattern): nat {
    Bit(p.namespace == q.namespace) + Bit(p.apiGroup == q.apiGroup) + Bit(p.resource == q.resource)
    + Bit(p.verb == q.verb)
  }

  /** Some rule is found exactly when some rule has a pattern whose fields are those of the request or the wildcard. */
  lemma SomeMostSpecificIff(rules: Rules, q: Pattern)
    ensures MostSpecific(rules, q) != {} <==>
            exists l, r ::
              && l in rules && HasPattern(rules[l], r)
              && r.namespace in {q.namespace, "*"} && r.apiGroup in {q.apiGroup, "*"}
              && r.resource in {q.resource, "*"} && r.verb in {q.verb, "*"}
  {
    if l, r :| l in rules && HasPattern(rules[l], r) && r.namespace in {q.namespace, "*"}
               && r.apiGroup in {q.apiGroup, "*"} && r.resource in {q.resource, "*"} && r.verb in {q.verb, "*"} {
      assert Candidate(rules, q, l, r);
      BestExists(rules, q, l, r);
    }
    if k :| k in MostSpecific(rules, q) {
      MostSpecificMeans(rules, q, k);
    }
  }

  lemma {:induction false} BestExists(rules: Rules, q: Pattern, k: Key, p: Pattern)
    requires Candidate(rules, q, k, p)
    ensures MostSpecific(rules, q) != {}
    decreases Score(MaskOf(p, q))
  {
    if Unbeaten(rules, q, p) {
      assert k in MostSpecific(rules, q);
    } else {
      var l, r :| Candidate(rules, q, l, r) && Score(MaskOf(r, q)) < Score(MaskOf(p, q));
      BestExists(rules, q, l, r);
    }
  }

  lemma OrderStep(i: int)
    requires 0 <= i < |ORDER| - 1
    ensures Score(ORDER[i]) < Score(ORDER[i + 1])
  {
  }

  lemma {:induction false} OrderIsSorted(i: int, j: int)
    requires 0 <= i < j < |ORDER|
    ensures Score(ORDER[i]) < Score(ORDER[j])
    decreases j
  {
    OrderStep(j - 1);
    if i < j - 1 {
      OrderIsSorted(i, j - 1);
    }
  }

  lemma OrderIsComplete(m: Mask)
    ensures exists i :: 0 <= i < |ORDER| && ORDER[i] == m
  {
    var Mask(a, b, c, d) := m;
    assert ORDER[0] == Mask(false, false, false, false) && ORDER[1] == Mask(true, false, false, false);
    assert ORDER[2] == Mask(false, true, false, false) && ORDER[3] == Mask(false, false, true, false);
    assert ORDER[4] == Mask(false, false, false, true) && ORDER[5] == Mask(true, true, false, false);
    assert ORDER[6] == Mask(true, false, true, false) && ORDER[7] == Mask(false, true, true, false);
    assert ORDER[8] == Mask(true, false, false, true) && ORDER[9] == Mask(false, true, false, true);
    assert ORDER[10] == Mask(false, false, true, true) && ORDER[11] == Mask(true, true, true, false);
    assert ORDER[12] == Mask(true, true, false, true) && ORDER[13] == Mask(true, false, true, true);
    assert ORDER[14] == Mask(false, true, true, true) && ORDER[15] == Mask(true, true, true, true);
  }

  lemma ScoreTellsMask(m: Mask, n: Mask)
    requires Score(m) == Score(n)
    ensures m == n
  {
  }

  /** A seed finds exactly the rules that have its pattern. */
  lemma SeedFinds(rules: Rules, p: Pattern, k: Key)
    requires ColonFree(p)
    ensures k in Tagged(ResourceTags(rules), IndexForResource(p)) <==> k in rules && HasPattern(rules[k], p)
  {
    if k in rules {
      ResourceKeysIff(rules[k], IndexForResource(p));
    }
    if k in Tagged(ResourceTags(rules), IndexForResource(p)) {
      var r :| HasPattern(rules[k], r) && IndexForResource(p) == IndexForResource(r);
      ResourceKeysDiffer(p, r);
    }
  }

  lemma WildIsColonFree(q: Pattern, m: Mask)
    requires ColonFree(q)
    ensures ColonFree(Wild(q, m))
  {
  }

  /** A matching pattern is the request with the wildcard in the fields of its mask. */
  lemma MatchIsWild(p: Pattern, q: Pattern)
    requires PatternMatches(p, q)
    ensures p == Wild(q, MaskOf(p, q))
  {
  }

  lemma WildMatches(q: Pattern, m: Mask)
    ensures PatternMatches(Wild(q, m), q) && Score(MaskOf(Wild(q, m), q)) <= Score(m)
  {
  }

  ghost predicate Misses(rules: Rules, seeds: seq<string>, i: nat) {
    i <= |seeds| && forall j :: 0 <= j < i ==> Tagged(ResourceTags(rules), seeds[j]) == {}
  }

  /** A candidate has a lookup of its own. */
  lemma OwnLookup(rules: Rules, q: Pattern, k: Key, p: Pattern) returns (j: int)
    requires ColonFree(q) && Candidate(rules, q, k, p)
    ensures 0 <= j < |ORDER| && ORDER[j] == MaskOf(p, q)
    ensures k in Tagged(ResourceTags(rules), GenerateWildcardSeeds(q)[j])
  {
    var m := MaskOf(p, q);
    OrderIsComplete(m);
    j :| 0 <= j < |ORDER| && ORDER[j] == m;
    MatchIsWild(p, q);
    WildIsColonFree(q, m);
    SeedFinds(rules, p, k);
    assert GenerateWildcardSeeds(q)[j] == IndexForResource(p);
  }

  /** A candidate's own lookup comes no earlier than the first lookup that finds anything. */
  lemma CandidateIsLater(rules: Rules, q: Pattern, i: nat, k: Key, p: Pattern)
    requires ColonFree(q) && Candidate(rules, q, k, p)
    requires Misses(rules, GenerateWildcardSeeds(q), i)
    ensures i < |ORDER| && Score(ORDER[i]) <= Score(MaskOf(p, q))
  {
    var j := OwnLookup(rules, q, k, p);
    if i < j {
      OrderIsSorted(i, j);
    }
  }

  lemma {:induction false} FoundIsMostSpecific(rules: Rules, q: Pattern, i: nat)
    requires ColonFree(q) && Misses(rules, GenerateWildcardSeeds(q), i)
    ensures FoundFrom(rules, GenerateWildcardSeeds(q), i) == MostSpecific(rules, q)
    decreases |ORDER| - i
  {
    var seeds := GenerateWildcardSeeds(q);
    if i == |seeds| {
      forall k | k in MostSpecific(rules, q)
        ensures false
      {
        var p :| Candidate(rules, q, k, p) && Unbeaten(rules, q, p);
        CandidateIsLater(rules, q, i, k, p);
      }
    } else if Tagged(ResourceTags(rules), seeds[i]) == {} {
      FoundIsMostSpecific(rules, q, i + 1);
    } else {
      HitIsMostSpecific(rules, q, i);
    }
  }

  lemma HitIsUnbeaten(rules: Rules, q: Pattern, i: nat)
    requires ColonFree(q) && i < |ORDER| && Misses(rules, GenerateWildcardSeeds(q), i)
    ensures PatternMatches(Wild(q, ORDER[i]), q) && Unbeaten(rules, q, Wild(q, ORDER[i]))
  {
    WildMatches(q, ORDER[i]);
    forall l, r | Candidate(rules, q, l, r)
      ensures Score(ORDER[i]) <= Score(MaskOf(r, q))
    {
      CandidateIsLater(rules, q, i, l, r);
    }
  }

  /** Two patterns that match and that nothing beats are the same. */
  lemma UnbeatenIsUnique(rules: Rules, q: Pattern, k: Key, p: Pattern, l: Key, r: Pattern)
    requires Candidate(rules, q, k, p) && Unbeaten(rules, q, p)
    requires Candidate(rules, q, l, r) && Unbeaten(rules, q, r)
    ensures p == r
  {
    ScoreTellsMask(MaskOf(p, q), MaskOf(r, q));
    MatchIsWild(p, q);
    MatchIsWild(r, q);
  }

  lemma HitIsMostSpecific(rules: Rules, q: Pattern, i: nat)
    requires ColonFree(q) && i < |ORDER| && Misses(rules, GenerateWildcardSeeds(q), i)
    requires Tagged(ResourceTags(rules), GenerateWildcardSeeds(q)[i]) != {}
    ensures Tagged(ResourceTags(rules), GenerateWildcardSeeds(q)[i]) == MostSpecific(rules, q)
  {
    var w := Wild(q, ORDER[i]);
    var found := Tagged(ResourceTags(rules), IndexForResource(w));
    WildIsColonFree(q, ORDER[i]);
    HitIsUnbeaten(rules, q, i);
    var one :| one in found;
    forall k
      ensures k in found <==> Candidate(rules, q, k, w)
    {
      SeedFinds(rules, w, k);
    }
    forall k | k in MostSpecific(rules, q)
      ensures k in found
    {
      var p :| Candidate(rules, q, k, p) && Unbeaten(rules, q, p);
      UnbeatenIsUnique(rules, q, k, p, one, w);
    }
  }

  ghost predicate LooksLikeScan(rules: Rules, q: Pattern) {
    FoundFrom(rules, GenerateWildcardSeeds(q), 0) == MostSpecific(rules, q)
  }

  /** For a request without colons the sixteen lookups find exactly the rules that a scan picks as most specific,
      whatever the rules are. */
  lemma LookupsEqualScan(rules: Rules, q: Pattern)
    requires ColonFree(q)
    ensures LooksLikeScan(rules, q)
  {
    FoundIsMostSpecific(rules, q, 0);
  }

  /** Cuts a text at a colon. */
  lemma Cut(s: string) returns (x: string, y: string)
    requires !Free(s, ':')
    ensures s == x + [':'] + y
  {
    var i :| 0 <= i < |s| && s[i] == ':';
    x, y := s[..i], s[i + 1..];
  }

  function OnlyRule(p: Pattern): RateLimiting {
    RateLimiting("r", [ResourceRule([p.namespace], [p.apiGroup], [p.resource], [p.verb])], [], Bucket(1, "s", 1),
                 Normal, Manual)
  }

  lemma OnlyPattern(p: Pattern)
    ensures forall q :: HasPattern(OnlyRule(p), q) <==> q == p
  {
    var r := ResourceRule([p.namespace], [p.apiGroup], [p.resource], [p.verb]);
    assert OnlyRule(p).resourceRules == [r];
    assert r in OnlyRule(p).resourceRules && p.namespace in r.namespaces && p.apiGroup in r.apiGroups
           && p.resource in r.resources && p.verb in r.verbs;
  }

  /** A pattern with the key of the request that does not match it is found all the same. */
  lemma SameKeyMisleads(p: Pattern, q: Pattern)
    requires IndexForResource(p) == IndexForResource(q) && !PatternMatches(p, q)
    ensures !LooksLikeScan(map["k" := OnlyRule(p)], q)
  {
    var rules := map["k" := OnlyRule(p)];
    OnlyPattern(p);
    ResourceKeysIff(rules["k"], IndexForResource(q));
    assert Wild(q, ORDER[0]) == q;
    assert GenerateWildcardSeeds(q)[0] == IndexForResource(q);
    assert IndexForResource(q) in ResourceTags(rules)["k"];
    assert "k" in Tagged(ResourceTags(rules), GenerateWildcardSeeds(q)[0]);
    assert "k" in FoundFrom(rules, GenerateWildcardSeeds(q), 0);
    assert "k" !in MostSpecific(rules, q);
  }

  lemma Regroup(x: string, y: string, z: string)
    ensures x + [':'] + y + [':'] + z == x + [':'] + (y + [':'] + z)
  {
  }

  /** A colon of one field can be read as the end of the field. */
  lemma ColonShifts(q: Pattern) returns (p: Pattern)
    requires !ColonFree(q)
    ensures IndexForResource(p) == IndexForResource(q) && !PatternMatches(p, q)
  {
    if !Free(q.namespace, ':') {
      var x, y := Cut(q.namespace);
      p := Pattern(x, y + [':'] + q.apiGroup, q.resource, q.verb);
      Regroup(x, y, q.apiGroup + [':'] + (q.resource + [':'] + q.verb));
      Regroup(y, q.apiGroup, q.resource + [':'] + q.verb);
      assert p.apiGroup[|y|] == ':' && |p.apiGroup| > |q.apiGroup|;
    } else if !Free(q.apiGroup, ':') {
      var x, y := Cut(q.apiGroup);
      p := Pattern(q.namespace, x, y + [':'] + q.resource, q.verb);
      Regroup(x, y, q.resource + [':'] + q.verb);
      Regroup(y, q.resource, q.verb);
      assert p.resource[|y|] == ':' && |p.resource| > |q.resource|;
    } else if !Free(q.resource, ':') {
      var x, y := Cut(q.resource);
      p := Pattern(q.namespace, q.apiGroup, x, y + [':'] + q.verb);
      Regroup(x, y, q.verb);
      assert p.verb[|y|] == ':' && |p.verb| > |q.verb|;
    } else {
      var x, y := Cut(q.verb);
      p := Pattern(q.namespace, q.apiGroup, q.resource + [':'] + x, y);
      Regroup(q.resource, x, y);
      assert p.resource[|q.resource|] == ':' && |p.resource| > |q.resource|;
    }
  }

  /** The lookups are the scan for all rules exactly when no field of the request has a colon. */
  lemma LookupsEqualScanIff(q: Pattern)
    ensures (forall rules: Rules :: LooksLikeScan(rules, q)) <==> ColonFree(q)
  {
    if ColonFree(q) {
      forall rules: Rules
        ensures LooksLikeScan(rules, q)
      {
        LookupsEqualScan(rules, q);
      }
    } else {
      var p := ColonShifts(q);
      SameKeyMisleads(p, q);
    }
  }
}
