/** Label selectors: their meaning, their merging, and the selector a proxy applies to a resource. */
module Selectors {
  import opened Wrappers
  import opened Strings

  type Labels = map<string, string>

  /** The operators of the API, and any other text found in that field. */
  datatype Operator = In | NotIn | Exists | DoesNotExist | Unsupported(name: string)

  datatype Requirement = Requirement(key: string, operator: Operator, values: seq<string>)

  datatype LabelSelector = LabelSelector(matchLabels: Labels, matchExpressions: seq<Requirement>)

  const EVERYTHING := LabelSelector(map[], [])

  /** In needs the key to be present; NotIn holds when it is absent. */
  predicate Holds(r: Requirement, l: Labels) {
    match r.operator
    case In => r.key in l && l[r.key] in r.values
    case NotIn => r.key !in l || l[r.key] !in r.values
    case Exists => r.key in l
    case DoesNotExist => r.key !in l
    case Unsupported(_) => false
  }

  ghost predicate LabelsHold(required: Labels, l: Labels) {
    forall k :: k in required ==> k in l && l[k] == required[k]
  }

  ghost predicate AllHold(rs: seq<Requirement>, l: Labels) {
    forall r :: r in rs ==> Holds(r, l)
  }

  ghost predicate Selects(sel: LabelSelector, l: Labels) {
    LabelsHold(sel.matchLabels, l) && AllHold(sel.matchExpressions, l)
  }

  /** What the operators mean: In holds when the key has one of the values, NotIn when it does not hold, Exists when the
      key has some value and DoesNotExist when it has none; the labels of a selector are among those of the object. */
  lemma OperatorsMean(key: string, values: seq<string>, l: Labels)
    ensures Holds(Requirement(key, In, values), l) <==> exists v :: v in values && (key, v) in l.Items
    ensures Holds(Requirement(key, NotIn, values), l) <==> !Holds(Requirement(key, In, values), l)
    ensures Holds(Requirement(key, Exists, values), l) <==> exists v :: (key, v) in l.Items
    ensures Holds(Requirement(key, DoesNotExist, values), l) <==> !Holds(Requirement(key, Exists, values), l)
  {
    if key in l {
      assert (key, l[key]) in l.Items;
    }
  }

  lemma LabelsMean(sel: LabelSelector, l: Labels)
    requires sel.matchExpressions == []
    ensures Selects(sel, l) <==> sel.matchLabels.Items <= l.Items
  {
    if sel.matchLabels.Items <= l.Items {
      forall k | k in sel.matchLabels
        ensures k in l && l[k] == sel.matchLabels[k]
      {
        assert (k, sel.matchLabels[k]) in sel.matchLabels.Items;
      }
    }
  }

  // ----- Conversion to a matcher -----

  datatype Matcher = Nothing | Requirements(reqs: seq<Requirement>)

  ghost predicate Matches(m: Matcher, l: Labels) {
    m.Requirements? && AllHold(m.reqs, l)
  }

  /** Equality labels become one-valued In requirements, in an arbitrary order. An operator that is not
      known is an error; no selector at all matches nothing. */
  method AsMatcher(sel: Option<LabelSelector>) returns (m: Option<Matcher>)
    ensures m.None? <==> sel.Some? && exists r :: r in sel.value.matchExpressions && r.operator.Unsupported?
    ensures m.Some? ==> forall l: Labels :: Matches(m.value, l) <==> sel.Some? && Selects(sel.value, l)
  {
    if sel.None? {
      return Some(Nothing);
    }
    var labels, exprs := sel.value.matchLabels, sel.value.matchExpressions;
    if |labels| + |exprs| == 0 {
      assert labels.Keys == {};
      return Some(Requirements([]));
    }
    var reqs: seq<Requirement> := [];
    var left := labels.Keys;
    while left != {}
      invariant left <= labels.Keys
      invariant forall r :: r in reqs <==> exists k :: k in labels && k !in left && r == Requirement(k, In, [labels[k]])
      decreases |left|
    {
      var k :| k in left;
      reqs := reqs + [Requirement(k, In, [labels[k]])];
      left := left - {k};
    }
    ghost var equalities := reqs;
    for i := 0 to |exprs|
      invariant reqs == equalities + exprs[..i]
      invariant forall j :: 0 <= j < i ==> !exprs[j].operator.Unsupported?
    {
      if exprs[i].operator.Unsupported? {
        assert exprs[i] in exprs;
        return None;
      }
      reqs := reqs + [exprs[i]];
    }
    assert reqs == equalities + exprs;
    m := Some(Requirements(reqs));
    forall l: Labels
      ensures AllHold(reqs, l) <==> Selects(sel.value, l)
    {
      EqualitiesHold(labels, equalities, l);
      AllHoldBoth(equalities, exprs, l);
    }
  }

  lemma EqualitiesHold(labels: Labels, reqs: seq<Requirement>, l: Labels)
    requires forall r :: r in reqs <==> exists k :: k in labels && r == Requirement(k, In, [labels[k]])
    ensures AllHold(reqs, l) <==> LabelsHold(labels, l)
  {
    if AllHold(reqs, l) {
      forall k | k in labels
        ensures k in l && l[k] == labels[k]
      {
        assert Requirement(k, In, [labels[k]]) in reqs;
      }
    }
  }

  lemma AllHoldBoth(rs: seq<Requirement>, ts: seq<Requirement>, l: Labels)
    ensures AllHold(rs + ts, l) <==> AllHold(rs, l) && AllHold(ts, l)
  {
    assert forall r :: r in rs ==> r in rs + ts;
    assert forall r :: r in ts ==> r in rs + ts;
  }

  // ----- Merging -----

  function Merged(a: LabelSelector, b: LabelSelector): LabelSelector {
    LabelSelector(a.matchLabels + b.matchLabels, a.matchExpressions + b.matchExpressions)
  }

  /** The loop that copies the labels of the second selector over those of the first. */
  method PutAll(m: Labels, n: Labels) returns (labels: Labels)
    ensures labels == m + n
  {
    labels := m;
    var left := n.Keys;
    while left != {}
      invariant left <= n.Keys
      invariant labels.Keys == m.Keys + (n.Keys - left)
      invariant forall k :: k in n && k !in left ==> labels[k] == n[k]
      invariant forall k :: k in m && (k !in n || k in left) ==> labels[k] == m[k]
      decreases |left|
    {
      var k :| k in left;
      labels := labels[k := n[k]];
      left := left - {k};
    }
  }

  /** A missing selector leaves the other one as it is; where both require a label, the second value wins. */
  method MergeLabelSelector(a: Option<LabelSelector>, b: Option<LabelSelector>) returns (result: Option<LabelSelector>)
    ensures result == if b.None? then a else if a.None? then b else Some(Merged(a.value, b.value))
    ensures a.Some? && b.Some? ==>
              && result.Some? && result.value.matchExpressions == a.value.matchExpressions + b.value.matchExpressions
              && result.value.matchLabels == a.value.matchLabels + b.value.matchLabels
  {
    if b.None? {
      return a;
    }
    if a.None? {
      return b;
    }
    var labels := PutAll(a.value.matchLabels, b.value.matchLabels);
    return Some(LabelSelector(labels, a.value.matchExpressions + b.value.matchExpressions));
  }

  /** The two require no label to have different values. */
  ghost predicate Agree(a: LabelSelector, b: LabelSelector) {
    forall k :: k in a.matchLabels && k in b.matchLabels ==> a.matchLabels[k] == b.matchLabels[k]
  }

  /** What both select, the merged selector selects; under agreement it selects nothing else. */
  lemma MergedSelects(a: LabelSelector, b: LabelSelector, l: Labels)
    ensures Selects(a, l) && Selects(b, l) ==> Selects(Merged(a, b), l)
    ensures Agree(a, b) && Selects(Merged(a, b), l) ==> Selects(a, l) && Selects(b, l)
  {
    AllHoldBoth(a.matchExpressions, b.matchExpressions, l);
    if Agree(a, b) && Selects(Merged(a, b), l) {
      forall k | k in a.matchLabels
        ensures k in l && l[k] == a.matchLabels[k]
      {
        assert k in (a.matchLabels + b.matchLabels);
      }
    }
  }

  // Whether a selector selects anything at all, decided from the values it names.

  predicate HoldsAt(r: Requirement, v: Option<string>) {
    match r.operator
    case In => v.Some? && v.value in r.values
    case NotIn => v.None? || v.value !in r.values
    case Exists => v.Some?
    case DoesNotExist => v.None?
    case Unsupported(_) => false
  }

  /** With value `v`, or none, key `k` meets all that the selector says about it. */
  predicate KeyMeets(sel: LabelSelector, k: string, v: Option<string>) {
    && (k in sel.matchLabels ==> v == Some(sel.matchLabels[k]))
    && forall r :: r in sel.matchExpressions && r.key == k ==> HoldsAt(r, v)
  }

  function Named(sel: LabelSelector): set<string> {
    (set k | k in sel.matchLabels :: sel.matchLabels[k])
    + (set r, x | r in sel.matchExpressions && x in r.values :: x)
  }

  function KeysOf(sel: LabelSelector): set<string> {
    sel.matchLabels.Keys + set r | r in sel.matchExpressions :: r.key
  }

  /** Every key can be left out, or be given a value that is named or one that is not. */
  ghost predicate Satisfiable(sel: LabelSelector) {
    forall k :: k in KeysOf(sel) ==>
                  || KeyMeets(sel, k, None)
                  || (exists x :: x in Named(sel) && KeyMeets(sel, k, Some(x)))
                  || MeetsOther(sel, k)
  }

  /** A value that the selector does not name would do. */
  predicate MeetsOther(sel: LabelSelector, k: string) {
    && k !in sel.matchLabels
    && forall r :: r in sel.matchExpressions && r.key == k ==> r.operator == NotIn || r.operator == Exists
  }

  function Look(l: Labels, k: string): Option<string> {
    if k in l then Some(l[k]) else None
  }

  lemma SelectsByKey(sel: LabelSelector, l: Labels)
    ensures Selects(sel, l) <==> forall k :: k in KeysOf(sel) ==> KeyMeets(sel, k, Look(l, k))
  {
    if forall k :: k in KeysOf(sel) ==> KeyMeets(sel, k, Look(l, k)) {
      forall k | k in sel.matchLabels
        ensures k in l && l[k] == sel.matchLabels[k]
      {
        assert k in KeysOf(sel);
      }
      forall r | r in sel.matchExpressions
        ensures Holds(r, l)
      {
        assert r.key in KeysOf(sel);
      }
    }
  }

  ghost predicate Possible(sel: LabelSelector, k: string) {
    exists v :: KeyMeets(sel, k, v)
  }

  lemma PossibleIff(sel: LabelSelector, k: string)
    ensures Possible(sel, k) <==> || KeyMeets(sel, k, None)
                                  || (exists x :: x in Named(sel) && KeyMeets(sel, k, Some(x)))
                                  || MeetsOther(sel, k)
  {
    if Possible(sel, k) {
      var v :| KeyMeets(sel, k, v);
      if v.Some? && v.value !in Named(sel) {
        assert k !in sel.matchLabels;
        forall r | r in sel.matchExpressions && r.key == k
          ensures r.operator == NotIn || r.operator == Exists
        {
          assert HoldsAt(r, v);
        }
      }
    }
    if MeetsOther(sel, k) {
      var n := SomeOther(Named(sel));
      assert KeyMeets(sel, k, Some(Repeat(n)));
    }
  }

  ghost function Chosen(sel: LabelSelector, k: string): Option<string>
    requires Possible(sel, k)
  {
    var v :| KeyMeets(sel, k, v);
    v
  }

  /** The decision is right: a selector is satisfiable exactly when it selects some label set. */
  lemma SatisfiableIff(sel: LabelSelector)
    ensures Satisfiable(sel) <==> exists l: Labels :: Selects(sel, l)
  {
    forall k
      ensures Possible(sel, k) <==> || KeyMeets(sel, k, None)
                                    || (exists x :: x in Named(sel) && KeyMeets(sel, k, Some(x)))
                                    || MeetsOther(sel, k)
    {
      PossibleIff(sel, k);
    }
    if Satisfiable(sel) {
      assert forall k :: k in KeysOf(sel) ==> Possible(sel, k);
      var l := map k | k in KeysOf(sel) && Chosen(sel, k).Some? :: Chosen(sel, k).value;
      assert forall k :: k in KeysOf(sel) ==> Look(l, k) == Chosen(sel, k);
      SelectsByKey(sel, l);
    }
    if l: Labels :| Selects(sel, l) {
      SelectsByKey(sel, l);
      assert forall k :: k in KeysOf(sel) ==> KeyMeets(sel, k, Look(l, k));
    }
  }

  /** Merging means conjunction exactly when the selectors agree or the merged one selects nothing. */
  lemma MergeIsConjunctionIff(a: LabelSelector, b: LabelSelector)
    ensures (forall l: Labels :: Selects(Merged(a, b), l) <==> Selects(a, l) && Selects(b, l))
            <==> Agree(a, b) || !Satisfiable(Merged(a, b))
  {
    SatisfiableIff(Merged(a, b));
    forall l: Labels
      ensures Selects(a, l) && Selects(b, l) ==> Selects(Merged(a, b), l)
      ensures Agree(a, b) && Selects(Merged(a, b), l) ==> Selects(a, l) && Selects(b, l)
    {
      MergedSelects(a, b, l);
    }
    if !Agree(a, b) {
      var k :| k in a.matchLabels && k in b.matchLabels && a.matchLabels[k] != b.matchLabels[k];
      forall l: Labels
        ensures !(Selects(a, l) && Selects(b, l))
      {
        assert Selects(a, l) ==> l[k] == a.matchLabels[k];
      }
    }
  }

  /** For selectors with equality labels only, agreement is the exact condition. */
  lemma EqualityMergeIsConjunctionIff(a: LabelSelector, b: LabelSelector)
    requires a.matchExpressions == [] && b.matchExpressions == []
    ensures (forall l: Labels :: Selects(Merged(a, b), l) <==> Selects(a, l) && Selects(b, l)) <==> Agree(a, b)
  {
    MergeIsConjunctionIff(a, b);
    assert Selects(Merged(a, b), a.matchLabels + b.matchLabels);
  }

  // ----- The selector a proxy applies to a resource -----

  datatype GroupResource = GroupResource(group: string, resource: string)

  datatype APIGroupResource = APIGroupResource(apiGroups: seq<string>, resources: seq<string>)

  datatype LimitRule = LimitRule(selector: Option<LabelSelector>, resources: seq<APIGroupResource>)

  const ALL := "*"

  predicate Contains(x: string, list: seq<string>) {
    list == [ALL] || x in list
  }

  method ContainsString(x: string, list: seq<string>) returns (found: bool)
    ensures found == Contains(x, list)
    ensures found <==> x in list || list == ["*"]
  {
    if |list| == 1 && list[0] == ALL {
      return true;
    }
    for i := 0 to |list|
      invariant x !in list[..i]
    {
      if x == list[i] {
        return true;
      }
    }
    return false;
  }

  predicate ResourceMatches(gr: GroupResource, r: APIGroupResource) {
    Contains(gr.group, r.apiGroups) && Contains(gr.resource, r.resources)
  }

  method MatchesAny(gr: GroupResource, resources: seq<APIGroupResource>) returns (found: bool)
    ensures found <==> exists r :: r in resources && ResourceMatches(gr, r)
    ensures found <==> exists r :: r in resources && (gr.group in r.apiGroups || r.apiGroups == ["*"])
                                   && (gr.resource in r.resources || r.resources == ["*"])
  {
    for i := 0 to |resources|
      invariant forall r :: r in resources[..i] ==> !ResourceMatches(gr, r)
    {
      var group := ContainsString(gr.group, resources[i].apiGroups);
      var resource := ContainsString(gr.resource, resources[i].resources);
      if group && resource {
        assert resources[i] in resources && ResourceMatches(gr, resources[i]);
        return true;
      }
    }
    assert resources[..|resources|] == resources;
    return false;
  }

  ghost predicate Applies(rule: LimitRule, gr: GroupResource) {
    && rule.selector.Some?
    && (rule.resources == [] || exists r :: r in rule.resources && ResourceMatches(gr, r))
  }

  ghost function Folded(limits: seq<LimitRule>, gr: GroupResource): Option<LabelSelector> {
    if limits == [] then None
    else
      var front, rule := Folded(limits[..|limits| - 1], gr), limits[|limits| - 1];
      if !Applies(rule, gr) then front
      else if front.None? then rule.selector
      else Some(Merged(front.value, rule.selector.value))
  }

  /** The limit has a selector, and lists no resources or one entry with the group and the resource; a lone wildcard
      stands for every group or resource. */
  ghost predicate Concerns(rule: LimitRule, gr: GroupResource) {
    && rule.selector.Some?
    && (|rule.resources| > 0 ==>
          exists r :: r in rule.resources && (gr.group in r.apiGroups || r.apiGroups == ["*"])
                      && (gr.resource in r.resources || r.resources == ["*"]))
  }

  lemma AppliesIff(rule: LimitRule, gr: GroupResource)
    ensures Applies(rule, gr) <==> Concerns(rule, gr)
  {
  }

  /** What the fold means: there is a selector exactly when some limit concerns the resource, and when those limits
      agree it selects what all of them select. */
  lemma FoldedMeans(limits: seq<LimitRule>, gr: GroupResource)
    ensures Folded(limits, gr).None? <==> forall rule :: rule in limits ==> !Concerns(rule, gr)
    ensures Folded(limits, gr).Some? && AllAgree(limits, gr) ==>
              forall l: Labels :: Selects(Folded(limits, gr).value, l) <==>
                forall rule :: rule in limits && Concerns(rule, gr) ==> Selects(rule.selector.value, l)
  {
    FoldedNoneIff(limits, gr);
    forall rule | rule in limits
      ensures Applies(rule, gr) <==> Concerns(rule, gr)
    {
      AppliesIff(rule, gr);
    }
    if Folded(limits, gr).Some? && AllAgree(limits, gr) {
      forall l: Labels
        ensures Selects(Folded(limits, gr).value, l) <==> SatisfiesAll(limits, gr, l)
      {
        FoldedSelects(limits, gr, l);
      }
    }
  }

  lemma {:induction false} FoldedNoneIff(limits: seq<LimitRule>, gr: GroupResource)
    ensures Folded(limits, gr).None? <==> forall rule :: rule in limits ==> !Applies(rule, gr)
  {
    if limits != [] {
      var front, rule := limits[..|limits| - 1], limits[|limits| - 1];
      assert limits == front + [rule];
      FoldedNoneIff(front, gr);
    }
  }

  method GetObjectSelector(limits: seq<LimitRule>, gr: GroupResource) returns (sel: Option<LabelSelector>)
    ensures sel == Folded(limits, gr)
    ensures sel.None? <==> forall rule :: rule in limits ==> !Concerns(rule, gr)
    ensures sel.Some? && AllAgree(limits, gr) ==>
              forall l: Labels :: Selects(sel.value, l) <==>
                forall rule :: rule in limits && Concerns(rule, gr) ==> Selects(rule.selector.value, l)
  {
    FoldedMeans(limits, gr);
    sel := None;
    for i := 0 to |limits|
      invariant sel == Folded(limits[..i], gr)
    {
      assert limits[..i + 1][..i] == limits[..i];
      if limits[i].selector.Some? {
        var skip := false;
        if |limits[i].resources| > 0 {
          var found := MatchesAny(gr, limits[i].resources);
          skip := !found;
        }
        if !skip {
          sel := MergeLabelSelector(sel, limits[i].selector);
        }
      }
    }
    assert limits[..|limits|] == limits;
  }

  ghost predicate AllAgree(limits: seq<LimitRule>, gr: GroupResource) {
    forall i, j :: 0 <= i < |limits| && 0 <= j < |limits| && Applies(limits[i], gr) && Applies(limits[j], gr) ==>
                     Agree(limits[i].selector.value, limits[j].selector.value)
  }

  ghost predicate Requires(limits: seq<LimitRule>, gr: GroupResource, k: string, v: string) {
    exists i :: 0 <= i < |limits| && Applies(limits[i], gr) && k in limits[i].selector.value.matchLabels
                && limits[i].selector.value.matchLabels[k] == v
  }

  lemma {:induction false} FoldedLabels(limits: seq<LimitRule>, gr: GroupResource, k: string)
    requires Folded(limits, gr).Some? && k in Folded(limits, gr).value.matchLabels
    ensures Requires(limits, gr, k, Folded(limits, gr).value.matchLabels[k])
  {
    var front, rule := limits[..|limits| - 1], limits[|limits| - 1];
    var v := Folded(limits, gr).value.matchLabels[k];
    if Applies(rule, gr) && k in rule.selector.value.matchLabels {
      assert limits[|limits| - 1] == rule;
    } else {
      FoldedLabels(front, gr, k);
      var i :| 0 <= i < |front| && Applies(front[i], gr) && k in front[i].selector.value.matchLabels
               && front[i].selector.value.matchLabels[k] == v;
      assert limits[i] == front[i];
    }
  }

  lemma FoldAgrees(limits: seq<LimitRule>, gr: GroupResource)
    requires limits != [] && AllAgree(limits, gr) && Applies(limits[|limits| - 1], gr)
    requires Folded(limits[..|limits| - 1], gr).Some?
    ensures Agree(Folded(limits[..|limits| - 1], gr).value, limits[|limits| - 1].selector.value)
  {
    var front, last := limits[..|limits| - 1], limits[|limits| - 1].selector.value;
    var sel := Folded(front, gr).value;
    forall k | k in sel.matchLabels && k in last.matchLabels
      ensures sel.matchLabels[k] == last.matchLabels[k]
    {
      FoldedLabels(front, gr, k);
      var i :| 0 <= i < |front| && Applies(front[i], gr) && k in front[i].selector.value.matchLabels
               && front[i].selector.value.matchLabels[k] == sel.matchLabels[k];
      assert limits[i] == front[i];
      assert Agree(limits[i].selector.value, limits[|limits| - 1].selector.value);
    }
  }

  ghost predicate SatisfiesAll(limits: seq<LimitRule>, gr: GroupResource, l: Labels) {
    forall rule :: rule in limits && Applies(rule, gr) ==> Selects(rule.selector.value, l)
  }

  /** When the applicable limits agree, the selector applied selects exactly the label sets that satisfy every
      applicable limit; and there is one exactly when some limit applies. */
  lemma {:induction false} FoldedSelects(limits: seq<LimitRule>, gr: GroupResource, l: Labels)
    requires AllAgree(limits, gr)
    ensures Folded(limits, gr).None? <==> forall rule :: rule in limits ==> !Applies(rule, gr)
    ensures Folded(limits, gr).Some? ==> (Selects(Folded(limits, gr).value, l) <==> SatisfiesAll(limits, gr, l))
  {
    if limits != [] {
      var front, rule := limits[..|limits| - 1], limits[|limits| - 1];
      assert limits == front + [rule];
      assert forall i :: 0 <= i < |front| ==> front[i] == limits[i];
      FoldedSelects(front, gr, l);
      if Applies(rule, gr) && Folded(front, gr).Some? {
        FoldAgrees(limits, gr);
        MergedSelects(Folded(front, gr).value, rule.selector.value, l);
      }
    }
  }

  /** Limits that do not agree are satisfied by nothing. */
  lemma DisagreementExcludesAll(limits: seq<LimitRule>, gr: GroupResource, l: Labels)
    requires !AllAgree(limits, gr)
    ensures !SatisfiesAll(limits, gr, l)
  {
    var i, j :| 0 <= i < |limits| && 0 <= j < |limits| && Applies(limits[i], gr) && Applies(limits[j], gr)
                && !Agree(limits[i].selector.value, limits[j].selector.value);
    var a, b := limits[i].selector.value, limits[j].selector.value;
    var k :| k in a.matchLabels && k in b.matchLabels && a.matchLabels[k] != b.matchLabels[k];
    assert limits[i] in limits && limits[j] in limits;
    assert !(Selects(a, l) && Selects(b, l)) by {
      assert Selects(a, l) ==> l[k] == a.matchLabels[k];
      assert Selects(b, l) ==> l[k] == b.matchLabels[k];
    }
  }

  /** The selector applied means that every applicable limit is satisfied, exactly when these agree or it is not
      satisfiable. */
  lemma FoldIsConjunctionIff(limits: seq<LimitRule>, gr: GroupResource)
    requires Folded(limits, gr).Some?
    ensures (forall l: Labels :: Selects(Folded(limits, gr).value, l) <==> SatisfiesAll(limits, gr, l))
            <==> AllAgree(limits, gr) || !Satisfiable(Folded(limits, gr).value)
  {
    SatisfiableIff(Folded(limits, gr).value);
    if AllAgree(limits, gr) {
      forall l: Labels
        ensures Selects(Folded(limits, gr).value, l) <==> SatisfiesAll(limits, gr, l)
      {
        FoldedSelects(limits, gr, l);
      }
    } else {
      forall l: Labels
        ensures !SatisfiesAll(limits, gr, l)
      {
        DisagreementExcludesAll(limits, gr, l);
      }
    }
  }

  /** The fold keeps every expression of an applicable limit, whether the limits agree or not. */
  lemma {:induction false} FoldKeepsExpressions(limits: seq<LimitRule>, gr: GroupResource, rule: LimitRule,
                                                e: Requirement)
    requires rule in limits && Applies(rule, gr) && e in rule.selector.value.matchExpressions
    ensures Folded(limits, gr).Some? && e in Folded(limits, gr).value.matchExpressions
  {
    var front, last := limits[..|limits| - 1], limits[|limits| - 1];
    assert limits == front + [last];
    if rule in front {
      FoldKeepsExpressions(front, gr, rule, e);
    }
  }

  /** What merging means for the client that comes second: its own selector, the expressions of the first, and the
      labels of the first that it does not set itself. */
  lemma MergedMeans(a: LabelSelector, b: LabelSelector, l: Labels)
    ensures Selects(Merged(a, b), l) <==>
            Selects(b, l) && AllHold(a.matchExpressions, l) && LabelsHold(a.matchLabels - b.matchLabels.Keys, l)
  {
    AllHoldBoth(a.matchExpressions, b.matchExpressions, l);
    var rest, all := a.matchLabels - b.matchLabels.Keys, a.matchLabels + b.matchLabels;
    assert forall k :: k in b.matchLabels ==> k in all && all[k] == b.matchLabels[k];
    assert forall k :: k in rest ==> k in all && all[k] == rest[k];
    assert forall k :: k in all ==> k in rest || k in b.matchLabels;
  }

  /** The order of the limits does not matter. */
  lemma LimitOrderIsIrrelevant(limits: seq<LimitRule>, other: seq<LimitRule>, gr: GroupResource, l: Labels)
    requires AllAgree(limits, gr) && multiset(limits) == multiset(other)
    ensures Folded(limits, gr).Some? <==> Folded(other, gr).Some?
    ensures Folded(limits, gr).Some? ==>
              (Selects(Folded(limits, gr).value, l) <==> Selects(Folded(other, gr).value, l))
  {
    assert forall rule :: rule in limits <==> rule in multiset(limits);
    assert forall rule :: rule in other <==> rule in multiset(other);
    forall i, j | 0 <= i < |other| && 0 <= j < |other| && Applies(other[i], gr) && Applies(other[j], gr)
      ensures Agree(other[i].selector.value, other[j].selector.value)
    {
      assert other[i] in other && other[j] in other;
      assert other[i] in limits && other[j] in limits;
    }
    FoldedSelects(limits, gr, l);
    FoldedSelects(other, gr, l);
  }
}
