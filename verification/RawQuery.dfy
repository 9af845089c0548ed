/** Raw URL queries as the proxy takes them apart and puts them together. */
module RawQuery {
  import opened Wrappers
  import opened Strings

  type Params = map<string, string>

  /** The parameters of the first `n` pairs, or nothing when one of them is not of the form key=value. */
  function ParsePairs(pairs: seq<string>): Option<Params> {
    if pairs == [] then Some(map[])
    else
      var front, kv := ParsePairs(pairs[..|pairs| - 1]), Split(pairs[|pairs| - 1], '=');
      if front.None? || |kv| != 2 then None else Some(front.value[kv[0] := kv[1]])
  }

  function Parse(query: string): Option<Params> {
    if query == "" then Some(map[]) else ParsePairs(Split(query, '&'))
  }

  method ParseRawQuery(query: string) returns (result: Params, ok: bool)
    ensures ok <==> Parse(query).Some?
    ensures ok ==> result == Parse(query).value
    ensures ok <==> query == "" || forall p :: p in Split(query, '&') ==> OneEquals(p)
    ensures ok && query == "" ==> result == map[]
    ensures ok && query != "" ==> forall k, v :: Gives(result, k, v) <==> Says(Split(query, '&'), k, v)
  {
    if query != "" {
      ParsedMeans(Split(query, '&'));
    }
    result := map[];
    if query == "" {
      return result, true;
    }
    var pairs := Split(query, '&');
    for i := 0 to |pairs|
      invariant ParsePairs(pairs[..i]) == Some(result)
    {
      assert pairs[..i + 1][..i] == pairs[..i];
      var kv := Split(pairs[i], '=');
      if |kv| != 2 {
        PrefixFails(pairs, i + 1);
        return result, false;
      }
      result := result[kv[0] := kv[1]];
    }
    assert pairs[..|pairs|] == pairs;
    ok := true;
  }

  /** The text is a key and a value with one equals sign between them. */
  ghost predicate IsPair(p: string, k: string, v: string) {
    p == k + ['='] + v && Free(k, '=') && Free(v, '=')
  }

  ghost predicate OneEquals(p: string) {
    exists k, v :: IsPair(p, k, v)
  }

  /** Pair `i` is the last with its key. */
  ghost predicate LastPair(pairs: seq<string>, i: int, k: string, v: string) {
    0 <= i < |pairs| && IsPair(pairs[i], k, v) && forall j, w :: i < j < |pairs| ==> !IsPair(pairs[j], k, w)
  }

  /** The last pair with the key has the value. */
  ghost predicate Says(pairs: seq<string>, k: string, v: string) {
    exists i :: LastPair(pairs, i, k, v)
  }

  predicate Gives(m: Params, k: string, v: string) {
    k in m && m[k] == v
  }

  lemma TwoPiecesIff(p: string, k: string, v: string)
    ensures IsPair(p, k, v) <==> Split(p, '=') == [k, v]
  {
    if IsPair(p, k, v) {
      SplitFirst(k, v, '=');
      SplitPiece(v, '=');
    }
    if Split(p, '=') == [k, v] {
      SplitIsFree(p, '=');
      JoinOfSplit(p, '=');
      assert [k, v][1..] == [v];
      assert k in [k, v] && v in [k, v];
    }
  }

  lemma OneEqualsIff(p: string)
    ensures OneEquals(p) <==> |Split(p, '=')| == 2
  {
    var kv := Split(p, '=');
    if |kv| == 2 {
      TwoPiecesIff(p, kv[0], kv[1]);
      assert kv == [kv[0], kv[1]];
    }
    if k, v :| IsPair(p, k, v) {
      TwoPiecesIff(p, k, v);
    }
  }

  lemma SaysOneMore(pairs: seq<string>, k: string, v: string)
    requires pairs != [] && |Split(pairs[|pairs| - 1], '=')| == 2
    ensures var front, kv := pairs[..|pairs| - 1], Split(pairs[|pairs| - 1], '=');
            Says(pairs, k, v) <==> if k == kv[0] then v == kv[1] else Says(front, k, v)
  {
    var n := |pairs| - 1;
    var front, kv := pairs[..n], Split(pairs[n], '=');
    assert kv == [kv[0], kv[1]];
    forall w
      ensures IsPair(pairs[n], k, w) <==> k == kv[0] && w == kv[1]
    {
      TwoPiecesIff(pairs[n], k, w);
    }
    if k == kv[0] {
      assert v == kv[1] ==> LastPair(pairs, n, k, v);
      assert forall i :: LastPair(pairs, i, k, v) ==> i == n || !IsPair(pairs[n], k, kv[1]);
    } else {
      if i :| LastPair(pairs, i, k, v) {
        assert LastPair(front, i, k, v);
      }
      if i :| LastPair(front, i, k, v) {
        assert LastPair(pairs, i, k, v);
      }
    }
  }

  lemma {:induction false} ParsesIff(pairs: seq<string>)
    ensures ParsePairs(pairs).Some? <==> forall p :: p in pairs ==> OneEquals(p)
  {
    if pairs != [] {
      var front, last := pairs[..|pairs| - 1], pairs[|pairs| - 1];
      assert pairs == front + [last];
      ParsesIff(front);
      OneEqualsIff(last);
    }
  }

  lemma {:induction false} ParsedGives(pairs: seq<string>, k: string, v: string)
    requires ParsePairs(pairs).Some?
    ensures Gives(ParsePairs(pairs).value, k, v) <==> Says(pairs, k, v)
  {
    if pairs != [] {
      ParsedGives(pairs[..|pairs| - 1], k, v);
      SaysOneMore(pairs, k, v);
    }
  }

  /** Parsing succeeds exactly when every pair has one equals sign; each key then has the value of its last pair. */
  lemma ParsedMeans(pairs: seq<string>)
    ensures ParsePairs(pairs).Some? <==> forall p :: p in pairs ==> OneEquals(p)
    ensures ParsePairs(pairs).Some? ==> forall k, v :: Gives(ParsePairs(pairs).value, k, v) <==> Says(pairs, k, v)
  {
    ParsesIff(pairs);
    if ParsePairs(pairs).Some? {
      forall k, v
        ensures Gives(ParsePairs(pairs).value, k, v) <==> Says(pairs, k, v)
      {
        ParsedGives(pairs, k, v);
      }
    }
  }

  lemma {:induction false} PrefixFails(pairs: seq<string>, n: nat)
    requires n <= |pairs| && ParsePairs(pairs[..n]).None?
    ensures ParsePairs(pairs).None?
  {
    if n < |pairs| {
      assert pairs[..|pairs| - 1][..n] == pairs[..n];
      PrefixFails(pairs[..|pairs| - 1], n);
    } else {
      assert pairs[..n] == pairs;
    }
  }

  // ----- Rendering in some order of the keys -----

  function Pair(k: string, v: string): string {
    k + ['='] + v
  }

  /** The query for the keys of `order`, in that order. */
  function Render(m: Params, order: seq<string>): string
    requires forall k :: k in order ==> k in m
  {
    Join(Pairs(m, order), '&')
  }

  function Pairs(m: Params, order: seq<string>): seq<string>
    requires forall k :: k in order ==> k in m
  {
    seq(|order|, i requires 0 <= i < |order| => Pair(order[i], m[order[i]]))
  }

  ghost predicate OrderOf(m: Params, order: seq<string>) {
    && (forall k :: k in order <==> k in m)
    && (forall i, j :: 0 <= i < j < |order| ==> order[i] != order[j])
  }

  /** Map iteration gives the keys in an arbitrary order. */
  method MarshalRawQuery(m: Params) returns (query: string, ghost order: seq<string>)
    ensures OrderOf(m, order) && query == Render(m, order)
  {
    query, order := "", [];
    var left := m.Keys;
    while left != {}
      invariant left <= m.Keys
      invariant forall k :: k in order <==> k in m && k !in left
      invariant forall i, j :: 0 <= i < j < |order| ==> order[i] != order[j]
      invariant query == Render(m, order) && (query == "" <==> order == [])
      decreases |left|
    {
      var k :| k in left;
      if |query| == 0 {
        query := query + k + "=" + m[k];
      } else {
        query := query + "&" + k + "=" + m[k];
      }
      RenderMore(m, order, k);
      order := order + [k];
      left := left - {k};
    }
  }

  lemma {:induction false} JoinMore(pieces: seq<string>, p: string, sep: char)
    requires pieces != []
    ensures Join(pieces + [p], sep) == Join(pieces, sep) + [sep] + p
  {
    if |pieces| > 1 {
      JoinMore(pieces[1..], p, sep);
      assert (pieces + [p])[1..] == pieces[1..] + [p];
    } else {
      assert (pieces + [p])[1..] == [p];
    }
  }

  lemma RenderMore(m: Params, order: seq<string>, k: string)
    requires k in m && forall l :: l in order ==> l in m
    ensures var more := Render(m, order + [k]);
            && more != ""
            && more == if order == [] then "" + k + "=" + m[k] else Render(m, order) + "&" + k + "=" + m[k]
  {
    assert Pairs(m, order + [k]) == Pairs(m, order) + [Pair(k, m[k])];
    if order != [] {
      JoinMore(Pairs(m, order), Pair(k, m[k]), '&');
    }
  }

  // ----- Round trip -----

  predicate CleanString(s: string) {
    Free(s, '&') && Free(s, '=')
  }

  ghost predicate Clean(m: Params) {
    forall k :: k in m ==> CleanString(k) && CleanString(m[k])
  }

  lemma SplitPair(k: string, v: string)
    requires CleanString(k) && CleanString(v)
    ensures Split(Pair(k, v), '=') == [k, v] && Free(Pair(k, v), '&')
  {
    SplitFirst(k, v, '=');
    SplitPiece(v, '=');
  }

  function Restrict(m: Params, order: seq<string>): Params
    requires forall k :: k in order ==> k in m
  {
    map k | k in order :: m[k]
  }

  lemma {:induction false} ParseOfPairs(m: Params, order: seq<string>)
    requires Clean(m) && forall k :: k in order ==> k in m
    ensures ParsePairs(Pairs(m, order)) == Some(Restrict(m, order))
  {
    if order != [] {
      var front, k := order[..|order| - 1], order[|order| - 1];
      ParseOfPairs(m, front);
      assert order == front + [k];
      assert Pairs(m, order)[..|order| - 1] == Pairs(m, front);
      assert Pairs(m, order)[|order| - 1] == Pair(k, m[k]);
      SplitPair(k, m[k]);
      assert Restrict(m, order) == Restrict(m, front)[k := m[k]];
    }
  }

  lemma PairsAreFree(m: Params, order: seq<string>)
    requires Clean(m) && forall k :: k in order ==> k in m
    ensures AllFree(Pairs(m, order), '&')
  {
    forall p | p in Pairs(m, order)
      ensures Free(p, '&')
    {
      var i :| 0 <= i < |order| && Pairs(m, order)[i] == p;
      SplitPair(order[i], m[order[i]]);
    }
  }

  lemma RenderNotEmpty(m: Params, order: seq<string>)
    requires order != [] && forall k :: k in order ==> k in m
    ensures Render(m, order) != ""
  {
    var front, last := order[..|order| - 1], order[|order| - 1];
    assert order == front + [last];
    assert forall k :: k in front ==> k in order;
    RenderMore(m, front, last);
  }

  lemma RenderParses(m: Params, order: seq<string>)
    requires Clean(m) && OrderOf(m, order)
    ensures Parse(Render(m, order)) == Some(m)
  {
    assert Restrict(m, order) == m;
    if order == [] {
      assert m == map[];
    } else {
      RenderNotEmpty(m, order);
      PairsAreFree(m, order);
      SplitOfJoin(Pairs(m, order), '&');
      ParseOfPairs(m, order);
    }
  }

  /** Whatever is parsed has keys and values free of both separators. */
  lemma {:induction false} ParsedIsClean(pairs: seq<string>)
    requires ParsePairs(pairs).Some? && AllFree(pairs, '&')
    ensures Clean(ParsePairs(pairs).value)
  {
    if pairs != [] {
      var front, last := pairs[..|pairs| - 1], pairs[|pairs| - 1];
      ParsedIsClean(front);
      var kv := Split(last, '=');
      SplitIsFree(last, '=');
      JoinOfSplit(last, '=');
      assert kv[1..] == [kv[1]];
      assert last == kv[0] + ['='] + kv[1];
      assert Free(last, '&');
    }
  }

  lemma ParseIsClean(query: string)
    requires Parse(query).Some?
    ensures Clean(Parse(query).value)
  {
    if query != "" {
      SplitIsFree(query, '&');
      ParsedIsClean(Split(query, '&'));
    }
  }

  /** Parsing what was rendered, in whatever order, gives the map back exactly when its keys and values are
      free of & and =. */
  lemma RoundTripIff(m: Params, order: seq<string>)
    requires OrderOf(m, order)
    ensures Parse(Render(m, order)) == Some(m) <==> Clean(m)
  {
    if Clean(m) {
      RenderParses(m, order);
    }
    if Parse(Render(m, order)) == Some(m) {
      ParseIsClean(Render(m, order));
    }
  }
}
