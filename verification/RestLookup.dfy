/** Finding the rules for a REST request: the URL itself, then its wildcard prefixes, longest first. */
module RestLookup {
  import opened Wrappers
  import opened Strings
  import opened BreakerRules
  import opened BreakerStore

  type Rules = map<Key, RateLimiting>

  datatype Url = Url(scheme: string, host: string, path: string)

  function TrimSlash(url: string): string {
    if url != "" && url[|url| - 1] == '/' then url[..|url| - 1] else url
  }

  function Base(u: Url): string {
    u.scheme + "://" + u.host
  }

  function WildUrl(base: string, prefix: string): string {
    base + (prefix + "/*")
  }

  /** The wildcard URLs for the first n, n-1, ..., 1 elements of the path. */
  function WildUrls(base: string, elements: seq<string>, n: nat): (urls: seq<string>)
    requires n <= |elements|
    ensures |urls| == n
  {
    if n == 0 then [] else [WildUrl(base, Join(elements[..n], '/'))] + WildUrls(base, elements, n - 1)
  }

  /** The URLs looked up, in order. `parsed` is what parsing the URL without its last slash gives. */
  function LookupUrls(url: string, parsed: Option<Url>): seq<string> {
    if parsed.None? || parsed.value.path == "" then [url]
    else
      var elements := Split(parsed.value.path, '/');
      [url] + WildUrls(Base(parsed.value), elements, |elements| - 1)
  }

  method GenerateWildcardUrls(url: string, httpMethod: string, parse: string -> Option<Url>) returns (keys: seq<string>)
    ensures var urls := LookupUrls(url, parse(TrimSlash(url)));
            |keys| == |urls| && forall i :: 0 <= i < |urls| ==> keys[i] == IndexForRest(urls[i], httpMethod)
  {
    keys := [IndexForRest(url, httpMethod)];
    var parsed := parse(TrimSlash(url));
    if parsed.None? {
      return;
    }
    if |parsed.value.path| > 0 {
      var elements := Split(parsed.value.path, '/');
      ghost var urls := LookupUrls(url, parsed);
      var i := |elements| - 1;
      while i > 0
        invariant 0 <= i < |elements|
        invariant |keys| + i == |urls| && urls[|keys|..] == WildUrls(Base(parsed.value), elements, i)
        invariant forall j :: 0 <= j < |keys| ==> keys[j] == IndexForRest(urls[j], httpMethod)
      {
        assert urls[|keys|] == WildUrls(Base(parsed.value), elements, i)[0];
        keys := keys + [IndexForRest(Base(parsed.value) + (Join(elements[..i], '/') + "/*"), httpMethod)];
        i := i - 1;
      }
    }
  }

  /** The rules under the joined key of a URL and a method. */
  function Having(rules: Rules, url: string, httpMethod: string): set<Key> {
    Tagged(RestTags(rules), IndexForRest(url, httpMethod))
  }

  function FoundFrom(rules: Rules, urls: seq<string>, httpMethod: string): set<Key> {
    if urls == [] then {}
    else
      var ks := Having(rules, urls[0], httpMethod);
      if ks != {} then ks else FoundFrom(rules, urls[1..], httpMethod)
  }

  ghost predicate ColonFreeMethods(rules: Rules) {
    forall k, r :: k in rules && r in rules[k].restRules ==> Free(r.httpMethod, ':')
  }

  /** They are the rules that have the URL with the method, as no method has a colon. */
  lemma KeyFinds(rules: Rules, url: string, httpMethod: string)
    requires ColonFreeMethods(rules) && Free(httpMethod, ':')
    ensures Having(rules, url, httpMethod) == set k | k in rules && RestRule(url, httpMethod) in rules[k].restRules
  {
    forall k | k in Having(rules, url, httpMethod)
      ensures RestRule(url, httpMethod) in rules[k].restRules
    {
      var r :| r in rules[k].restRules && IndexForRest(r.url, r.httpMethod) == IndexForRest(url, httpMethod);
      RestKeysDiffer(r.url, r.httpMethod, url, httpMethod);
    }
  }

  method FindRest(store: LimiterStore, url: string, httpMethod: string, parse: string -> Option<Url>)
    returns (keys: set<Key>)
    requires store.Valid()
    ensures keys == FoundFrom(store.rules, LookupUrls(url, parse(TrimSlash(url))), httpMethod)
  {
    var lookups := GenerateWildcardUrls(url, httpMethod, parse);
    ghost var urls := LookupUrls(url, parse(TrimSlash(url)));
    for i := 0 to |lookups|
      invariant FoundFrom(store.rules, urls, httpMethod) == FoundFrom(store.rules, urls[i..], httpMethod)
    {
      keys := store.ByRest(lookups[i]);
      assert keys == Having(store.rules, urls[i], httpMethod);
      assert urls[i..][0] == urls[i] && urls[i..][1..] == urls[i + 1..];
      if keys != {} {
        return;
      }
    }
    keys := {};
  }

  // ----- The scan -----

  /** A proper prefix of the path, cut before a slash. */
  predicate Cut(path: string, prefix: string) {
    prefix + ['/'] <= path
  }

  ghost predicate StoredPrefix(rules: Rules, u: Url, httpMethod: string, prefix: string) {
    Cut(u.path, prefix) && Having(rules, WildUrl(Base(u), prefix), httpMethod) != {}
  }

  ghost predicate LongestPrefix(rules: Rules, u: Url, httpMethod: string, prefix: string) {
    StoredPrefix(rules, u, httpMethod, prefix)
    && forall other :: StoredPrefix(rules, u, httpMethod, other) ==> |other| <= |prefix|
  }

  /** What a stored prefix is, in the text of the rules: the path goes on with a slash after it, and some rule has the
      scheme, the host, the prefix and a wildcard as its URL, with the method. */
  lemma StoredPrefixMeans(rules: Rules, u: Url, httpMethod: string, prefix: string)
    requires ColonFreeMethods(rules) && Free(httpMethod, ':')
    ensures StoredPrefix(rules, u, httpMethod, prefix) <==>
            && (exists rest :: u.path == prefix + "/" + rest)
            && (exists k :: k in rules &&
                  RestRule(u.scheme + "://" + u.host + prefix + "/*", httpMethod) in rules[k].restRules)
  {
    var url := u.scheme + "://" + u.host + prefix + "/*";
    assert WildUrl(Base(u), prefix) == url;
    KeyFinds(rules, url, httpMethod);
    if Cut(u.path, prefix) {
      assert u.path == prefix + "/" + u.path[|prefix| + 1..];
    }
    if rest :| u.path == prefix + "/" + rest {
      assert prefix + ['/'] <= u.path;
    }
    if k :| k in rules && RestRule(url, httpMethod) in rules[k].restRules {
      assert k in Having(rules, url, httpMethod);
    }
    if k :| k in Having(rules, url, httpMethod) {
      assert RestRule(url, httpMethod) in rules[k].restRules;
    }
  }

  /** One slash at the end is taken off. */
  lemma TrimSlashMeans(url: string)
    ensures TrimSlash(url + "/") == url
    ensures (forall front: string :: url != front + "/") ==> TrimSlash(url) == url
  {
    assert (url + "/")[..|url|] == url;
    if TrimSlash(url) != url {
      assert url == url[..|url| - 1] + "/";
    }
  }

  /** Every cut of the path is the join of its first elements, at least one and not all. */
  lemma CutIsElements(path: string, prefix: string)
    requires Cut(path, prefix)
    ensures var elements := Split(path, '/');
            exists i :: 1 <= i < |elements| && prefix == Join(elements[..i], '/')
  {
    var rest := path[|prefix| + 1..];
    assert path == prefix + ['/'] + rest;
    SplitConcat(prefix, rest, '/');
    JoinOfSplit(prefix, '/');
    var i := |Split(prefix, '/')|;
    assert Split(path, '/')[..i] == Split(prefix, '/');
  }

  lemma {:induction false} JoinConcat(a: seq<string>, b: seq<string>, sep: char)
    requires a != [] && b != []
    ensures Join(a + b, sep) == Join(a, sep) + [sep] + Join(b, sep)
  {
    if |a| == 1 {
      assert (a + b)[1..] == b;
    } else {
      assert (a + b)[1..] == a[1..] + b;
      JoinConcat(a[1..], b, sep);
    }
  }

  lemma ElementsAreCut(path: string, i: nat)
    requires 1 <= i < |Split(path, '/')|
    ensures Cut(path, Join(Split(path, '/')[..i], '/'))
  {
    var elements := Split(path, '/');
    assert elements == elements[..i] + elements[i..];
    JoinConcat(elements[..i], elements[i..], '/');
    JoinOfSplit(path, '/');
  }

  lemma {:induction false} FewerElementsAreShorter(elements: seq<string>, i: nat, j: nat)
    requires 1 <= i < j <= |elements|
    ensures |Join(elements[..i], '/')| < |Join(elements[..j], '/')|
  {
    assert elements[..j] == elements[..i] + elements[i..j];
    JoinConcat(elements[..i], elements[i..j], '/');
  }

  ghost predicate NoLonger(rules: Rules, u: Url, httpMethod: string, n: nat) {
    forall i :: n < i < |Split(u.path, '/')| ==>
                  !StoredPrefix(rules, u, httpMethod, Join(Split(u.path, '/')[..i], '/'))
  }

  /** When the first n elements are stored and no more of them are, they are the longest stored prefix. */
  lemma OwnIsLongest(rules: Rules, u: Url, httpMethod: string, n: nat)
    requires 1 <= n < |Split(u.path, '/')| && NoLonger(rules, u, httpMethod, n)
    requires StoredPrefix(rules, u, httpMethod, Join(Split(u.path, '/')[..n], '/'))
    ensures LongestPrefix(rules, u, httpMethod, Join(Split(u.path, '/')[..n], '/'))
  {
    var elements := Split(u.path, '/');
    forall other | StoredPrefix(rules, u, httpMethod, other)
      ensures |other| <= |Join(elements[..n], '/')|
    {
      CutIsElements(u.path, other);
      var i :| 1 <= i < |elements| && other == Join(elements[..i], '/');
      if i < n {
        FewerElementsAreShorter(elements, i, n);
      }
    }
  }

  lemma NothingStored(rules: Rules, u: Url, httpMethod: string, prefix: string)
    requires NoLonger(rules, u, httpMethod, 0)
    ensures !StoredPrefix(rules, u, httpMethod, prefix)
  {
    if Cut(u.path, prefix) {
      CutIsElements(u.path, prefix);
    }
  }

  /** The rules found are those of the longest stored prefix `best`; if none are found, no prefix is stored. */
  ghost predicate FoundLongest(rules: Rules, u: Url, httpMethod: string, found: set<Key>, best: string) {
    if found == {} then forall p :: !StoredPrefix(rules, u, httpMethod, p)
    else LongestPrefix(rules, u, httpMethod, best) && found == Having(rules, WildUrl(Base(u), best), httpMethod)
  }

  lemma {:induction false} WildFindsLongest(rules: Rules, u: Url, httpMethod: string, n: nat) returns (best: string)
    requires n < |Split(u.path, '/')| && NoLonger(rules, u, httpMethod, n)
    ensures FoundLongest(rules, u, httpMethod, FoundFrom(rules, WildUrls(Base(u), Split(u.path, '/'), n), httpMethod),
                         best)
  {
    var elements := Split(u.path, '/');
    if n == 0 {
      best := "";
      forall p
        ensures !StoredPrefix(rules, u, httpMethod, p)
      {
        NothingStored(rules, u, httpMethod, p);
      }
    } else {
      var own := Join(elements[..n], '/');
      ElementsAreCut(u.path, n);
      assert WildUrls(Base(u), elements, n)[1..] == WildUrls(Base(u), elements, n - 1);
      if Having(rules, WildUrl(Base(u), own), httpMethod) == {} {
        best := WildFindsLongest(rules, u, httpMethod, n - 1);
      } else {
        best := own;
        OwnIsLongest(rules, u, httpMethod, n);
      }
    }
  }

  /** A rule for the URL itself is found first; otherwise the rules of the longest stored wildcard prefix `best` of its
      path are found, and none exactly when no prefix is stored. */
  ghost predicate ScanFinds(rules: Rules, url: string, parsed: Option<Url>, httpMethod: string, found: set<Key>,
                            best: string)
  {
    if Having(rules, url, httpMethod) != {} then found == Having(rules, url, httpMethod)
    else if parsed.None? || parsed.value.path == "" then found == {}
    else FoundLongest(rules, parsed.value, httpMethod, found, best)
  }

  lemma LookupsEqualScan(rules: Rules, url: string, parsed: Option<Url>, httpMethod: string) returns (best: string)
    ensures ScanFinds(rules, url, parsed, httpMethod, FoundFrom(rules, LookupUrls(url, parsed), httpMethod), best)
  {
    best := "";
    var urls := LookupUrls(url, parsed);
    if Having(rules, url, httpMethod) == {} {
      if parsed.None? || parsed.value.path == "" {
        assert urls[1..] == [];
      } else {
        var elements := Split(parsed.value.path, '/');
        assert urls[1..] == WildUrls(Base(parsed.value), elements, |elements| - 1);
        best := WildFindsLongest(rules, parsed.value, httpMethod, |elements| - 1);
      }
    }
  }
}
