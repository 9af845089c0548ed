/** The store of traffic-intercept rules and the verdict on a request. */
module InterceptStore {
  import opened Wrappers
  import opened BreakerRules
  import opened Strings
  import opened BreakerStore

  /** One compiled expression: its text, the verdict it stands for and the HTTP method it is for. */
  datatype RegexpInfo = RegexpInfo(text: string, interceptType: InterceptType, httpMethod: string)

  function PlainKeys(rule: InterceptRule): set<string> {
    if rule.contentType == Plain then
      set c, m | c in rule.contents && m in rule.methods :: IndexForRest(c, m)
    else {}
  }

  function InfosOf(rule: InterceptRule, text: string, methods: seq<string>): seq<RegexpInfo> {
    seq(|methods|, i requires 0 <= i < |methods| => RegexpInfo(text, rule.interceptType, methods[i]))
  }

  /** The expressions of the contents that compile, each with every method. */
  function Infos(rule: InterceptRule, contents: seq<string>, compiles: string -> bool): seq<RegexpInfo> {
    if contents == [] then []
    else
      var front, last := Infos(rule, contents[..|contents| - 1], compiles), contents[|contents| - 1];
      if compiles(last) then front + InfosOf(rule, last, rule.methods) else front
  }

  function RegexpsOf(rule: InterceptRule, compiles: string -> bool): seq<RegexpInfo> {
    if rule.contentType == Regexp then Infos(rule, rule.contents, compiles) else []
  }

  ghost function PlainTags(rules: map<Key, InterceptRule>, live: set<Key>): map<Key, set<string>> {
    map k | k in rules && k in live :: PlainKeys(rules[k])
  }

  ghost function LiveOf(rules: map<Key, InterceptRule>, live: set<Key>): map<Key, InterceptRule> {
    map k | k in rules && k in live :: rules[k]
  }

  lemma LiveGrows(rules: map<Key, InterceptRule>, live: set<Key>, key: Key, rule: InterceptRule)
    ensures LiveOf(rules[key := rule], live - {key} + {key}) == LiveOf(rules, live)[key := rule]
    ensures live - {key} + {key} == live + {key}
  {
  }

  class Store {
    const compiles: string -> bool
    var rules: map<Key, InterceptRule>
    var normalIndexes: Index
    var regexpIndexes: map<Key, seq<RegexpInfo>>
    /** The keys registered and not deleted since. */
    ghost var live: set<Key>

    /** The rules that are not deleted. */
    ghost function LiveRules(): map<Key, InterceptRule>
      reads this
    {
      LiveOf(rules, live)
    }

    ghost predicate ExactRegexps(ks: set<Key>)
      reads this
    {
      forall k :: (k in regexpIndexes <==> k in rules && k in ks && RegexpsOf(rules[k], compiles) != [])
                  && (k in regexpIndexes ==> regexpIndexes[k] == RegexpsOf(rules[k], compiles))
    }

    /** Both indices are exact over the live keys; `rules` may hold further ones. */
    ghost predicate Valid()
      reads this
    {
      live <= rules.Keys && Exact(normalIndexes, PlainTags(rules, live)) && ExactRegexps(live)
    }

    constructor (compiles: string -> bool)
      ensures Valid() && rules == map[] && live == {} && this.compiles == compiles
    {
      this.compiles := compiles;
      rules, normalIndexes, regexpIndexes, live := map[], map[], map[], {};
    }

    method AddToIndex(rule: InterceptRule, key: Key)
      requires key in rules && rules[key] == rule && key !in live && live <= rules.Keys
      requires Exact(normalIndexes, PlainTags(rules, live)) && ExactRegexps(live)
      modifies this`normalIndexes, this`regexpIndexes
      ensures Exact(normalIndexes, PlainTags(rules, live + {key})) && ExactRegexps(live + {key})
    {
      if rule.contentType == Plain {
        ghost var before := normalIndexes;
        normalIndexes := InsertKey(normalIndexes, PlainKeys(rule), key);
        ExactInsert(before, normalIndexes, PlainTags(rules, live), key, PlainKeys(rule));
        assert PlainTags(rules, live)[key := PlainKeys(rule)] == PlainTags(rules, live + {key});
      } else {
        NoTags(normalIndexes, PlainTags(rules, live), key);
        assert PlainTags(rules, live)[key := {}] == PlainTags(rules, live + {key});
        var infos: seq<RegexpInfo> := [];
        for i := 0 to |rule.contents|
          invariant infos == Infos(rule, rule.contents[..i], compiles)
          invariant normalIndexes == old(normalIndexes) && regexpIndexes == old(regexpIndexes)
        {
          assert rule.contents[..i + 1][..i] == rule.contents[..i];
          if compiles(rule.contents[i]) {
            infos := infos + InfosOf(rule, rule.contents[i], rule.methods);
          }
        }
        assert rule.contents[..|rule.contents|] == rule.contents;
        if infos != [] {
          regexpIndexes := regexpIndexes[key := infos];
        }
      }
    }

    method DeleteFromIndex(rule: InterceptRule, key: Key, ghost before: map<Key, InterceptRule>)
      requires key in before && before[key] == rule && live <= before.Keys
      requires Exact(normalIndexes, PlainTags(before, live))
      modifies this`normalIndexes, this`regexpIndexes
      ensures Exact(normalIndexes, PlainTags(before, live - {key}))
      ensures regexpIndexes == if rule.contentType == Regexp then old(regexpIndexes) - {key} else old(regexpIndexes)
    {
      ghost var idx, tags := normalIndexes, PlainTags(before, live);
      if rule.contentType == Plain {
        normalIndexes := DeleteKey(normalIndexes, PlainKeys(rule), key);
      } else if key in regexpIndexes {
        regexpIndexes := regexpIndexes - {key};
      }
      assert PlainTags(before, live - {key}) == tags - {key};
      if key in live {
        ExactDelete(idx, normalIndexes, tags, key);
      } else {
        assert tags - {key} == tags;
        forall v
          ensures At(normalIndexes, v) == At(idx, v)
        {
          assert At(idx, v) == Tagged(tags, v);
        }
      }
    }

    method CreateOrUpdateRule(key: Key, rule: InterceptRule)
      requires Valid()
      modifies this
      ensures Valid() && rules == old(rules)[key := rule] && live == old(live) + {key}
      ensures LiveRules() == old(LiveRules())[key := rule]
    {
      if key in rules {
        var oldOne := rules[key];
        DeleteFromIndex(oldOne, key, rules);
      }
      live := live - {key};
      rules := rules[key := rule];
      assert PlainTags(rules, live) == PlainTags(old(rules), old(live) - {key});
      AddToIndex(rule, key);
      live := live + {key};
      LiveGrows(old(rules), old(live), key, rule);
    }

    /** Deletion takes the key out of both indices and leaves its rule in `rules`. */
    method DeleteRule(key: Key)
      requires Valid()
      modifies this
      ensures Valid() && rules == old(rules) && live == old(live) - {key}
      ensures LiveRules() == old(LiveRules()) - {key}
    {
      if key in rules {
        DeleteFromIndex(rules[key], key, rules);
      }
      live := live - {key};
    }

    /** The first part: rules under the URL and the method, or else under the URL and any method. */
    method ByPlain(url: string, httpMethod: string) returns (verdict: Option<bool>)
      requires Valid()
      ensures verdict == None <==> Covering(LiveRules(), url, httpMethod) == Covering(LiveRules(), url, "*") == {}
      ensures verdict.Some? ==>
                var own := Covering(LiveRules(), url, httpMethod);
                OneSays(LiveRules(), if own != {} then own else Covering(LiveRules(), url, "*"), verdict.value)
    {
      var keys := At(normalIndexes, IndexForRest(url, httpMethod));
      CoveredIs(url, httpMethod);
      CoveredIs(url, "*");
      if keys == {} {
        keys := At(normalIndexes, IndexForRest(url, "*"));
      }
      if keys == {} {
        return None;
      }
      var k :| k in keys;
      return Some(rules[k].interceptType == Whitelist);
    }

    /** The second part: expressions. */
    method ByRegexp(url: string, httpMethod: string, matches: (string, string) -> bool) returns (verdict: Option<bool>)
      requires Valid()
      ensures var ks := Fitting(LiveRules(), httpMethod, FitsFor(compiles, matches, url));
              (verdict == None <==> ks == {}) && (verdict.Some? ==> OneSays(LiveRules(), ks, verdict.value))
    {
      ghost var live, fits := LiveRules(), FitsFor(compiles, matches, url);
      var left := regexpIndexes.Keys;
      while left != {}
        invariant left <= regexpIndexes.Keys
        invariant forall k :: k in regexpIndexes && k !in left ==> !Fits(live[k], httpMethod, fits)
        decreases left
      {
        var k :| k in left;
        var info := FirstHit(regexpIndexes[k], url, httpMethod, matches);
        if info.Some? {
          HitFits(live[k], compiles, matches, url, httpMethod, info.value);
          assert k in Fitting(live, httpMethod, fits);
          return Some(info.value.interceptType == Whitelist);
        }
        NoHitNoFit(live[k], compiles, matches, url, httpMethod);
        left := left - {k};
      }
      forall k | k in live
        ensures !Fits(live[k], httpMethod, fits)
      {
        if k !in regexpIndexes {
          NoHitNoFit(live[k], compiles, matches, url, httpMethod);
        }
      }
      verdict := None;
    }

    /** The verdict on a request, by the live rules except for the default. */
    method Validate(url: string, httpMethod: string, matches: (string, string) -> bool) returns (allowed: bool)
      requires Valid()
      ensures Decided(LiveRules(), rules, url, httpMethod, FitsFor(compiles, matches, url), allowed)
      ensures var own, any := Covering(LiveRules(), url, httpMethod), Covering(LiveRules(), url, "*");
              var expr := Fitting(LiveRules(), httpMethod, FitsFor(compiles, matches, url));
              && (own != {} ==> OneSays(LiveRules(), own, allowed))
              && (own == {} && any != {} ==> OneSays(LiveRules(), any, allowed))
              && (own == any == {} && expr != {} ==> OneSays(LiveRules(), expr, allowed))
              && (own == any == expr == {} ==>
                    (allowed <==> forall k :: k in rules ==> rules[k].interceptType == Blacklist))
    {
      var verdict := ByPlain(url, httpMethod);
      if verdict.None? {
        verdict := ByRegexp(url, httpMethod, matches);
      }
      if verdict.None? {
        return DefaultVerdict(rules);
      }
      return verdict.value;
    }

    lemma CoveredIs(url: string, httpMethod: string)
      requires Valid()
      ensures At(normalIndexes, IndexForRest(url, httpMethod)) == Covering(LiveRules(), url, httpMethod)
    {
      assert At(normalIndexes, IndexForRest(url, httpMethod)) ==
          Tagged(PlainTags(rules, live), IndexForRest(url, httpMethod));
    }
  }

  predicate Hit(info: RegexpInfo, url: string, httpMethod: string, matches: (string, string) -> bool) {
    info.httpMethod == httpMethod && matches(info.text, url)
  }

  method FirstHit(infos: seq<RegexpInfo>, url: string, httpMethod: string, matches: (string, string) -> bool)
    returns (hit: Option<RegexpInfo>)
    ensures hit.None? ==> forall info :: info in infos ==> !Hit(info, url, httpMethod, matches)
    ensures hit.Some? ==> hit.value in infos && Hit(hit.value, url, httpMethod, matches)
  {
    for i := 0 to |infos|
      invariant forall j :: 0 <= j < i ==> !Hit(infos[j], url, httpMethod, matches)
    {
      if Hit(infos[i], url, httpMethod, matches) {
        return Some(infos[i]);
      }
    }
    return None;
  }

  /** A plain rule names the URL and the method; for methods without a colon this is what its key says. */
  predicate Covers(rule: InterceptRule, url: string, httpMethod: string) {
    IndexForRest(url, httpMethod) in PlainKeys(rule)
  }

  lemma CoversIff(rule: InterceptRule, url: string, httpMethod: string)
    requires Free(httpMethod, ':') && forall m :: m in rule.methods ==> Free(m, ':')
    ensures Covers(rule, url, httpMethod) <==>
              rule.contentType == Plain && url in rule.contents && httpMethod in rule.methods
  {
    if Covers(rule, url, httpMethod) {
      var c, m :| c in rule.contents && m in rule.methods && IndexForRest(c, m) == IndexForRest(url, httpMethod);
      RestKeysDiffer(c, m, url, httpMethod);
    }
  }

  /** An expression rule for the method has an expression that fits. */
  ghost predicate Fits(rule: InterceptRule, httpMethod: string, fits: string -> bool) {
    rule.contentType == Regexp && httpMethod in rule.methods && exists c :: c in rule.contents && fits(c)
  }

  function FitsFor(compiles: string -> bool, matches: (string, string) -> bool, url: string): string -> bool {
    x => compiles(x) && matches(x, url)
  }

  ghost function Covering(live: map<Key, InterceptRule>, url: string, httpMethod: string): set<Key> {
    set k | k in live && Covers(live[k], url, httpMethod)
  }

  ghost function Fitting(live: map<Key, InterceptRule>, httpMethod: string, fits: string -> bool): set<Key> {
    set k | k in live && Fits(live[k], httpMethod, fits)
  }

  ghost predicate OneSays(live: map<Key, InterceptRule>, ks: set<Key>, allowed: bool) {
    exists k :: k in ks && k in live && allowed == (live[k].interceptType == Whitelist)
  }

  ghost predicate OneType(live: map<Key, InterceptRule>, ks: set<Key>) {
    forall j, k :: j in ks && k in ks && j in live && k in live ==> live[j].interceptType == live[k].interceptType
  }

  /** The rules that may decide: those for the method, else those for any method, else those with an expression that
      fits. */
  ghost function Deciding(live: map<Key, InterceptRule>, url: string, httpMethod: string, fits: string -> bool)
    : set<Key>
  {
    var own, any := Covering(live, url, httpMethod), Covering(live, url, "*");
    if own != {} then own else if any != {} then any else Fitting(live, httpMethod, fits)
  }

  /** A live rule that covers the request with its method decides, else one that covers it with any method, else one
      with an expression that fits; which of several is left open. Otherwise the default of all rules that were ever
      stored decides. */
  ghost predicate Decided(live: map<Key, InterceptRule>, rules: map<Key, InterceptRule>, url: string,
                          httpMethod: string, fits: string -> bool, allowed: bool)
  {
    var ks := Deciding(live, url, httpMethod, fits);
    if ks != {} then OneSays(live, ks, allowed) else allowed == DefaultVerdict(rules)
  }

  /** Which of several rules decides does not matter, whatever they are, exactly when they are of one type. */
  lemma DeterminedIff(live: map<Key, InterceptRule>, rules: map<Key, InterceptRule>, url: string, httpMethod: string,
                      fits: string -> bool)
    ensures !(Decided(live, rules, url, httpMethod, fits, true) && Decided(live, rules, url, httpMethod, fits, false))
            <==> OneType(live, Deciding(live, url, httpMethod, fits))
  {
    var ks := Deciding(live, url, httpMethod, fits);
    if !OneType(live, ks) {
      var j, k :| j in ks && k in ks && j in live && k in live && live[j].interceptType != live[k].interceptType;
      var a, b := live[j].interceptType == Whitelist, live[k].interceptType == Whitelist;
      assert OneSays(live, ks, a) && OneSays(live, ks, b);
    }
  }

  lemma {:induction false} InfosMember(rule: InterceptRule, contents: seq<string>, compiles: string -> bool,
                                       info: RegexpInfo)
    ensures info in Infos(rule, contents, compiles) <==>
            && info.text in contents && compiles(info.text) && info.httpMethod in rule.methods
            && info.interceptType == rule.interceptType
  {
    if contents != [] {
      var front, last := contents[..|contents| - 1], contents[|contents| - 1];
      assert contents == front + [last];
      InfosMember(rule, front, compiles, info);
      var own := InfosOf(rule, last, rule.methods);
      if info.text == last && info.httpMethod in rule.methods && info.interceptType == rule.interceptType {
        var i :| 0 <= i < |rule.methods| && rule.methods[i] == info.httpMethod;
        assert own[i] == info;
      }
    }
  }

  lemma HitFits(rule: InterceptRule, compiles: string -> bool, matches: (string, string) -> bool, url: string,
                httpMethod: string, info: RegexpInfo)
    requires info in RegexpsOf(rule, compiles) && Hit(info, url, httpMethod, matches)
    ensures Fits(rule, httpMethod, FitsFor(compiles, matches, url)) && info.interceptType == rule.interceptType
  {
    InfosMember(rule, rule.contents, compiles, info);
  }

  lemma NoHitNoFit(rule: InterceptRule, compiles: string -> bool, matches: (string, string) -> bool, url: string,
                   httpMethod: string)
    requires forall info :: info in RegexpsOf(rule, compiles) ==> !Hit(info, url, httpMethod, matches)
    ensures !Fits(rule, httpMethod, FitsFor(compiles, matches, url))
  {
    if Fits(rule, httpMethod, FitsFor(compiles, matches, url)) {
      var c :| c in rule.contents && compiles(c) && matches(c, url);
      var info := RegexpInfo(c, rule.interceptType, httpMethod);
      InfosMember(rule, rule.contents, compiles, info);
      assert Hit(info, url, httpMethod, matches);
    }
  }

  lemma NoTags(idx: Index, tags: map<Key, set<string>>, key: Key)
    requires Exact(idx, tags) && key !in tags
    ensures Exact(idx, tags[key := {}])
  {
    forall v
      ensures Tagged(tags[key := {}], v) == Tagged(tags, v)
    {
    }
  }

  /** Without a matching rule everything is allowed unless there is a whitelist. */
  predicate DefaultVerdict(rules: map<Key, InterceptRule>) {
    forall k :: k in rules ==> rules[k].interceptType != Whitelist
  }

  ghost predicate HasWhitelist(rules: map<Key, InterceptRule>) {
    exists k :: k in rules && rules[k].interceptType == Whitelist
  }

  /** The further rules bring no first whitelist and do not overwrite the last one. */
  ghost predicate KeepDefault(rules: map<Key, InterceptRule>, more: map<Key, InterceptRule>) {
    if HasWhitelist(more) then HasWhitelist(rules) else HasWhitelist(rules) ==> HasWhitelist(rules - more.Keys)
  }

  /** Rules that stay behind change the default exactly when they bring the first whitelist, or overwrite the last. */
  lemma DefaultStaysIff(rules: map<Key, InterceptRule>, more: map<Key, InterceptRule>)
    ensures DefaultVerdict(rules + more) == DefaultVerdict(rules) <==> KeepDefault(rules, more)
  {
    var all := rules + more;
    assert DefaultVerdict(rules) <==> !HasWhitelist(rules);
    assert HasWhitelist(all) <==> HasWhitelist(more) || HasWhitelist(rules - more.Keys) by {
      if k :| k in more && more[k].interceptType == Whitelist {
        assert k in all && all[k] == more[k];
      }
      if k :| k in rules - more.Keys && rules[k].interceptType == Whitelist {
        assert k in all && all[k] == rules[k];
      }
      if k :| k in all && all[k].interceptType == Whitelist {
        assert if k in more then more[k] == all[k] else k in rules - more.Keys && (rules - more.Keys)[k] == all[k];
      }
    }
  }

  /** The default verdict is the one the live rules stand for exactly when some live rule is a whitelist or no deleted
      one is. */
  lemma DefaultVerdictIff(rules: map<Key, InterceptRule>, live: set<Key>)
    ensures DefaultVerdict(rules) == DefaultVerdict(LiveOf(rules, live)) <==>
            || (exists k :: k in rules && k in live && rules[k].interceptType == Whitelist)
            || (forall k :: k in rules && k !in live ==> rules[k].interceptType != Whitelist)
  {
    var kept := LiveOf(rules, live);
    if k :| k in rules && k in live && rules[k].interceptType == Whitelist {
      assert k in kept;
    }
    if k :| k in rules && k !in live && rules[k].interceptType == Whitelist {
      assert !DefaultVerdict(rules);
    }
  }
}
