/** Splitting and joining of strings at a separator character, as the standard library does it. */
module Strings {

  /** strings.Split for a one-character separator: the pieces between the separators, at least one. */
  function Split(s: string, sep: char): (pieces: seq<string>)
    ensures pieces != []
  {
    if s == "" then [""]
    else
      var rest := Split(s[1..], sep);
      if s[0] == sep then [""] + rest
      else [[s[0]] + rest[0]] + rest[1..]
  }

  function Join(pieces: seq<string>, sep: char): string {
    if pieces == [] then ""
    else if |pieces| == 1 then pieces[0]
    else pieces[0] + [sep] + Join(pieces[1..], sep)
  }

  predicate Free(s: string, c: char) {
    c !in s
  }

  ghost predicate AllFree(pieces: seq<string>, c: char) {
    forall p :: p in pieces ==> Free(p, c)
  }

  lemma {:induction false} SplitIsFree(s: string, sep: char)
    ensures AllFree(Split(s, sep), sep)
  {
    if s != "" {
      SplitIsFree(s[1..], sep);
      var rest := Split(s[1..], sep);
      assert rest[0] in rest;
      forall p | p in Split(s, sep)
        ensures Free(p, sep)
      {
        assert p == "" || p in rest || (s[0] != sep && p == [s[0]] + rest[0]);
      }
    }
  }

  lemma {:induction false} JoinOfSplit(s: string, sep: char)
    ensures Join(Split(s, sep), sep) == s
  {
    if s != "" {
      var rest := Split(s[1..], sep);
      JoinOfSplit(s[1..], sep);
      if s[0] != sep {
        var first := [s[0]] + rest[0];
        assert ([first] + rest[1..])[1..] == rest[1..];
      } else {
        assert ([""] + rest)[1..] == rest;
      }
    }
  }

  lemma {:induction false} SplitPiece(p: string, sep: char)
    requires Free(p, sep)
    ensures Split(p, sep) == [p]
  {
    if p != "" {
      SplitPiece(p[1..], sep);
      assert [p[0]] + p[1..] == p;
    }
  }

  lemma {:induction false} SplitFirst(p: string, s: string, sep: char)
    requires Free(p, sep)
    ensures Split(p + [sep] + s, sep) == [p] + Split(s, sep)
  {
    var t := p + [sep] + s;
    if p == "" {
      assert t[1..] == s;
    } else {
      SplitFirst(p[1..], s, sep);
      assert t[1..] == p[1..] + [sep] + s;
      assert [p[0]] + p[1..] == p;
    }
  }

  lemma Regroup(a: string, b: string, c: string, sep: char)
    ensures a + [sep] + b + [sep] + c == a + [sep] + (b + [sep] + c)
  {
  }

  lemma SplitThen(p: string, pieces: seq<string>, rest: string, s: string, sep: char)
    requires Free(p, sep) && Split(rest, sep) == pieces + Split(s, sep)
    ensures Split(p + [sep] + rest, sep) == [p] + pieces + Split(s, sep)
  {
    SplitFirst(p, rest, sep);
  }

  lemma {:induction false} SplitJoinThen(pieces: seq<string>, s: string, sep: char)
    requires pieces != [] && AllFree(pieces, sep)
    ensures Split(Join(pieces, sep) + [sep] + s, sep) == pieces + Split(s, sep)
  {
    if |pieces| == 1 {
      SplitFirst(pieces[0], s, sep);
    } else {
      var rest := Join(pieces[1..], sep) + [sep] + s;
      Regroup(pieces[0], Join(pieces[1..], sep), s, sep);
      SplitJoinThen(pieces[1..], s, sep);
      SplitThen(pieces[0], pieces[1..], rest, s, sep);
      assert pieces == [pieces[0]] + pieces[1..];
    }
  }

  /** Splitting at one separator splits the parts on both sides of it. */
  lemma SplitConcat(p: string, s: string, sep: char)
    ensures Split(p + [sep] + s, sep) == Split(p, sep) + Split(s, sep)
  {
    SplitIsFree(p, sep);
    JoinOfSplit(p, sep);
    SplitJoinThen(Split(p, sep), s, sep);
  }

  lemma {:induction false} SplitOfJoin(pieces: seq<string>, sep: char)
    requires pieces != [] && AllFree(pieces, sep)
    ensures Split(Join(pieces, sep), sep) == pieces
  {
    if |pieces| == 1 {
      SplitPiece(pieces[0], sep);
    } else {
      SplitOfJoin(pieces[1..], sep);
      SplitFirst(pieces[0], Join(pieces[1..], sep), sep);
    }
  }

  lemma OnePieceIff(s: string, sep: char)
    ensures |Split(s, sep)| == 1 <==> Free(s, sep)
  {
    if Free(s, sep) {
      SplitPiece(s, sep);
    }
    if |Split(s, sep)| == 1 {
      JoinOfSplit(s, sep);
      SplitIsFree(s, sep);
      assert Split(s, sep)[0] in Split(s, sep);
    }
  }

  predicate HasPrefix(s: string, prefix: string) {
    prefix <= s
  }

  function Repeat(n: nat): (s: string)
    ensures |s| == n
  {
    seq(n, _ => 'a')
  }

  /** A text that is not in the set. */
  lemma {:induction false} SomeOther(xs: set<string>) returns (n: nat)
    ensures forall x :: x in xs ==> |x| < n
  {
    n := 0;
    if xs != {} {
      var x :| x in xs;
      var m := SomeOther(xs - {x});
      n := if |x| < m then m else |x| + 1;
    }
  }
}
