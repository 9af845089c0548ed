/** Circuit-breaker configuration: rules, the keys they are stored under and the keys they are looked up by. */
module BreakerRules {
  import opened Strings

  datatype ResourceRule = ResourceRule(namespaces: seq<string>, apiGroups: seq<string>, resources: seq<string>,
                                       verbs: seq<string>)

  datatype RestRule = RestRule(url: string, httpMethod: string)

  datatype Bucket = Bucket(burst: int, interval: string, limit: int)

  datatype TriggerPolicy = Normal | LimiterOnly | ForceOpened | ForceClosed

  /** How an opened breaker closes again; the window is a duration. A rule may come without a policy. */
  datatype RecoverPolicy = Manual | SleepingWindow(size: int) | NoPolicy

  datatype RateLimiting = RateLimiting(name: string, resourceRules: seq<ResourceRule>, restRules: seq<RestRule>,
                                       bucket: Bucket, trigger: TriggerPolicy, recovery: RecoverPolicy)

  datatype InterceptType = Whitelist | Blacklist

  datatype ContentType = Plain | Regexp

  datatype InterceptRule = InterceptRule(name: string, interceptType: InterceptType, contentType: ContentType,
                                         contents: seq<string>, methods: seq<string>)

  datatype CircuitBreaker = CircuitBreaker(name: string, hash: string, limitings: seq<RateLimiting>,
                                           intercepts: seq<InterceptRule>)

  // ----- Store keys -----

  type Key = string

  function KeyOf(config: string, rule: string): Key {
    config + [':'] + rule
  }

  /** The config name can be read back from a key when it has no colon. */
  lemma KeyTellsConfig(config: string, rule: string)
    requires Free(config, ':')
    ensures Split(KeyOf(config, rule), ':')[0] == config
  {
    SplitFirst(config, rule, ':');
  }

  lemma KeysOfConfigsDiffer(a: string, b: string, x: string, y: string)
    requires Free(a, ':') && Free(b, ':') && KeyOf(a, x) == KeyOf(b, y)
    ensures a == b && x == y
  {
    KeyTellsConfig(a, x);
    KeyTellsConfig(b, y);
    assert KeyOf(a, x)[|a| + 1..] == x;
    assert KeyOf(b, y)[|b| + 1..] == y;
  }

  // ----- Lookup keys -----

  datatype Pattern = Pattern(namespace: string, apiGroup: string, resource: string, verb: string)

  function IndexForResource(p: Pattern): string {
    p.namespace + [':'] + (p.apiGroup + [':'] + (p.resource + [':'] + p.verb))
  }

  function IndexForRest(url: string, httpMethod: string): string {
    url + [':'] + httpMethod
  }

  predicate ColonFree(p: Pattern) {
    Free(p.namespace, ':') && Free(p.apiGroup, ':') && Free(p.resource, ':') && Free(p.verb, ':')
  }

  lemma ResourceKeyTellsPattern(p: Pattern)
    requires ColonFree(p)
    ensures Split(IndexForResource(p), ':') == [p.namespace, p.apiGroup, p.resource, p.verb]
  {
    SplitFirst(p.namespace, p.apiGroup + [':'] + (p.resource + [':'] + p.verb), ':');
    SplitFirst(p.apiGroup, p.resource + [':'] + p.verb, ':');
    SplitFirst(p.resource, p.verb, ':');
    SplitPiece(p.verb, ':');
  }

  /** A key has four pieces exactly when no field of its pattern has a colon. */
  lemma FourPiecesIff(p: Pattern)
    ensures |Split(IndexForResource(p), ':')| == 4 <==> ColonFree(p)
  {
    SplitConcat(p.namespace, p.apiGroup + [':'] + (p.resource + [':'] + p.verb), ':');
    SplitConcat(p.apiGroup, p.resource + [':'] + p.verb, ':');
    SplitConcat(p.resource, p.verb, ':');
    OnePieceIff(p.namespace, ':');
    OnePieceIff(p.apiGroup, ':');
    OnePieceIff(p.resource, ':');
    OnePieceIff(p.verb, ':');
  }

  /** The joined key of a colon-free pattern is that of no other pattern, with or without colons. */
  lemma ResourceKeysDiffer(p: Pattern, q: Pattern)
    requires ColonFree(p) && IndexForResource(p) == IndexForResource(q)
    ensures p == q
  {
    FourPiecesIff(p);
    FourPiecesIff(q);
    ResourceKeyTellsPattern(p);
    ResourceKeyTellsPattern(q);
    var a, b := Split(IndexForResource(p), ':'), Split(IndexForResource(q), ':');
    assert a[0] == b[0] && a[1] == b[1] && a[2] == b[2] && a[3] == b[3];
  }

  /** The last colon of the key is where the URL ends. */
  lemma LastColon(u: string, m: string)
    requires Free(m, ':')
    ensures IndexForRest(u, m)[|u|] == ':'
    ensures forall i :: |u| < i < |IndexForRest(u, m)| ==> IndexForRest(u, m)[i] != ':'
  {
    forall i | |u| < i < |IndexForRest(u, m)|
      ensures IndexForRest(u, m)[i] != ':'
    {
      assert IndexForRest(u, m)[i] == m[i - |u| - 1];
    }
  }

  /** A URL may have colons; the method, which is last, may not. */
  lemma RestKeysDiffer(u: string, m: string, v: string, n: string)
    requires Free(m, ':') && Free(n, ':') && IndexForRest(u, m) == IndexForRest(v, n)
    ensures u == v && m == n
  {
    LastColon(u, m);
    LastColon(v, n);
    var s, t := IndexForRest(u, m), IndexForRest(v, n);
    assert |u| == |v|;
    assert s[..|u|] == u && t[..|v|] == v;
    assert s[|u| + 1..] == m && t[|v| + 1..] == n;
  }

  /** The patterns of a rule: all combinations of the four lists of one of its resource rules. */
  function Patterns(rule: RateLimiting): set<Pattern> {
    set r, a, b, c, d | r in rule.resourceRules && a in r.namespaces && b in r.apiGroups && c in r.resources
                        && d in r.verbs :: Pattern(a, b, c, d)
  }

  function ResourceKeys(rule: RateLimiting): set<string> {
    set p | p in Patterns(rule) :: IndexForResource(p)
  }

  function RestKeys(rule: RateLimiting): set<string> {
    set r | r in rule.restRules :: IndexForRest(r.url, r.httpMethod)
  }

  /** One of the resource rules lists all four fields of the pattern. */
  ghost predicate HasPattern(rule: RateLimiting, p: Pattern) {
    exists r :: r in rule.resourceRules && p.namespace in r.namespaces && p.apiGroup in r.apiGroups
                && p.resource in r.resources && p.verb in r.verbs
  }

  lemma PatternsIff(rule: RateLimiting, p: Pattern)
    ensures p in Patterns(rule) <==> HasPattern(rule, p)
  {
    if HasPattern(rule, p) {
      var r :| r in rule.resourceRules && p.namespace in r.namespaces && p.apiGroup in r.apiGroups
               && p.resource in r.resources && p.verb in r.verbs;
      assert p == Pattern(p.namespace, p.apiGroup, p.resource, p.verb);
    }
  }

  lemma ResourceKeysIff(rule: RateLimiting, value: string)
    ensures value in ResourceKeys(rule) <==> exists p :: HasPattern(rule, p) && value == IndexForResource(p)
  {
    if value in ResourceKeys(rule) {
      var p :| p in Patterns(rule) && value == IndexForResource(p);
      PatternsIff(rule, p);
    }
    if p :| HasPattern(rule, p) && value == IndexForResource(p) {
      PatternsIff(rule, p);
    }
  }

  // ----- The loops that list the lookup keys of a rule -----

  function Elements(values: seq<string>): set<string> {
    set v | v in values
  }

  function VerbKeys(a: string, b: string, c: string, verbs: seq<string>): set<string> {
    set d | d in verbs :: IndexForResource(Pattern(a, b, c, d))
  }

  function ResourceVerbKeys(a: string, b: string, resources: seq<string>, verbs: seq<string>): set<string> {
    set c, d | c in resources && d in verbs :: IndexForResource(Pattern(a, b, c, d))
  }

  function GroupKeys(a: string, groups: seq<string>, resources: seq<string>, verbs: seq<string>): set<string> {
    set b, c, d | b in groups && c in resources && d in verbs :: IndexForResource(Pattern(a, b, c, d))
  }

  function SpaceKeys(spaces: seq<string>, r: ResourceRule): set<string> {
    set a, b, c, d | a in spaces && b in r.apiGroups && c in r.resources && d in r.verbs ::
      IndexForResource(Pattern(a, b, c, d))
  }

  function RuleKeys(rules: seq<ResourceRule>): set<string> {
    set r, v | r in rules && v in SpaceKeys(r.namespaces, r) :: v
  }

  method ListVerbs(before: seq<string>, a: string, b: string, c: string, verbs: seq<string>)
    returns (result: seq<string>)
    ensures Elements(result) == Elements(before) + VerbKeys(a, b, c, verbs)
  {
    result := before;
    for i := 0 to |verbs|
      invariant Elements(result) == Elements(before) + VerbKeys(a, b, c, verbs[..i])
    {
      assert verbs[..i + 1] == verbs[..i] + [verbs[i]];
      var value := IndexForResource(Pattern(a, b, c, verbs[i]));
      assert VerbKeys(a, b, c, verbs[..i + 1]) == VerbKeys(a, b, c, verbs[..i]) + {value};
      assert Elements(result + [value]) == Elements(result) + {value};
      result := result + [value];
    }
    assert verbs[..|verbs|] == verbs;
  }

  method ListResources(before: seq<string>, a: string, b: string, resources: seq<string>, verbs: seq<string>)
    returns (result: seq<string>)
    ensures Elements(result) == Elements(before) + ResourceVerbKeys(a, b, resources, verbs)
  {
    result := before;
    for i := 0 to |resources|
      invariant Elements(result) == Elements(before) + ResourceVerbKeys(a, b, resources[..i], verbs)
    {
      assert resources[..i + 1] == resources[..i] + [resources[i]];
      result := ListVerbs(result, a, b, resources[i], verbs);
      assert ResourceVerbKeys(a, b, resources[..i + 1], verbs) ==
             ResourceVerbKeys(a, b, resources[..i], verbs) + VerbKeys(a, b, resources[i], verbs);
    }
    assert resources[..|resources|] == resources;
  }

  method ListGroups(before: seq<string>, a: string, groups: seq<string>, resources: seq<string>, verbs: seq<string>)
    returns (result: seq<string>)
    ensures Elements(result) == Elements(before) + GroupKeys(a, groups, resources, verbs)
  {
    result := before;
    for i := 0 to |groups|
      invariant Elements(result) == Elements(before) + GroupKeys(a, groups[..i], resources, verbs)
    {
      assert groups[..i + 1] == groups[..i] + [groups[i]];
      result := ListResources(result, a, groups[i], resources, verbs);
      assert GroupKeys(a, groups[..i + 1], resources, verbs) ==
             GroupKeys(a, groups[..i], resources, verbs) + ResourceVerbKeys(a, groups[i], resources, verbs);
    }
    assert groups[..|groups|] == groups;
  }

  method ListSpaces(before: seq<string>, r: ResourceRule) returns (result: seq<string>)
    ensures Elements(result) == Elements(before) + SpaceKeys(r.namespaces, r)
  {
    result := before;
    for i := 0 to |r.namespaces|
      invariant Elements(result) == Elements(before) + SpaceKeys(r.namespaces[..i], r)
    {
      assert r.namespaces[..i + 1] == r.namespaces[..i] + [r.namespaces[i]];
      result := ListGroups(result, r.namespaces[i], r.apiGroups, r.resources, r.verbs);
      assert SpaceKeys(r.namespaces[..i + 1], r) ==
             SpaceKeys(r.namespaces[..i], r) + GroupKeys(r.namespaces[i], r.apiGroups, r.resources, r.verbs);
    }
    assert r.namespaces[..|r.namespaces|] == r.namespaces;
  }

  lemma RuleKeysAre(rule: RateLimiting)
    ensures RuleKeys(rule.resourceRules) == ResourceKeys(rule)
  {
    forall v
      ensures v in RuleKeys(rule.resourceRules) <==> v in ResourceKeys(rule)
    {
      ResourceKeysIff(rule, v);
      if v in RuleKeys(rule.resourceRules) {
        var r :| r in rule.resourceRules && v in SpaceKeys(r.namespaces, r);
        var a, b, c, d :| a in r.namespaces && b in r.apiGroups && c in r.resources && d in r.verbs
                          && v == IndexForResource(Pattern(a, b, c, d));
        assert HasPattern(rule, Pattern(a, b, c, d));
      }
      if p :| HasPattern(rule, p) && v == IndexForResource(p) {
        var r :| r in rule.resourceRules && p.namespace in r.namespaces && p.apiGroup in r.apiGroups
                 && p.resource in r.resources && p.verb in r.verbs;
        assert p == Pattern(p.namespace, p.apiGroup, p.resource, p.verb);
        assert v in SpaceKeys(r.namespaces, r);
      }
    }
  }

  /** The lookup keys listed are those of all combinations of the four lists of a resource rule. */
  method IndexFuncForResource(rule: RateLimiting) returns (result: seq<string>)
    ensures Elements(result) == ResourceKeys(rule)
    ensures forall v :: v in result <==> exists p :: HasPattern(rule, p) && v == IndexForResource(p)
  {
    result := [];
    var rules := rule.resourceRules;
    for i := 0 to |rules|
      invariant Elements(result) == RuleKeys(rules[..i])
    {
      assert rules[..i + 1] == rules[..i] + [rules[i]];
      result := ListSpaces(result, rules[i]);
      assert RuleKeys(rules[..i + 1]) == RuleKeys(rules[..i]) + SpaceKeys(rules[i].namespaces, rules[i]);
    }
    assert rules[..|rules|] == rules;
    RuleKeysAre(rule);
    forall v
      ensures v in result <==> exists p :: HasPattern(rule, p) && v == IndexForResource(p)
    {
      ResourceKeysIff(rule, v);
      assert v in result <==> v in Elements(result);
    }
  }

  method IndexFuncForRest(rule: RateLimiting) returns (result: seq<string>)
    ensures Elements(result) == RestKeys(rule)
    ensures forall v :: v in result <==> exists r :: r in rule.restRules && v == IndexForRest(r.url, r.httpMethod)
  {
    result := [];
    var rules := rule.restRules;
    for i := 0 to |rules|
      invariant |result| == i && forall j :: 0 <= j < i ==> result[j] == IndexForRest(rules[j].url, rules[j].httpMethod)
    {
      result := result + [IndexForRest(rules[i].url, rules[i].httpMethod)];
    }
    forall v
      ensures v in result <==> exists r :: r in rule.restRules && v == IndexForRest(r.url, r.httpMethod)
    {
      if r :| r in rule.restRules && v == IndexForRest(r.url, r.httpMethod) {
        var j :| 0 <= j < |rules| && rules[j] == r;
        assert result[j] == v;
      }
    }
  }

  // ----- The rules of all configs together -----

  /** The items of one config by key; of two items with one name the later one counts. */
  function Entries<T>(config: string, items: seq<T>, name: T -> string): map<Key, T> {
    if items == [] then map[]
    else
      var last := items[|items| - 1];
      Entries(config, items[..|items| - 1], name)[KeyOf(config, name(last)) := last]
  }

  lemma {:induction false} EntriesKeys<T>(config: string, items: seq<T>, name: T -> string, k: Key)
    ensures k in Entries(config, items, name) <==> exists r :: r in items && k == KeyOf(config, name(r))
  {
    if items != [] {
      var front, last := items[..|items| - 1], items[|items| - 1];
      assert items == front + [last];
      EntriesKeys(config, front, name, k);
    }
  }

  /** Item `i` is stored under the key: the key is the config's name, a colon and its name, and no later item has the
      name. */
  ghost predicate StoredUnder<T>(config: string, items: seq<T>, name: T -> string, i: int, k: Key) {
    && 0 <= i < |items| && k == config + [':'] + name(items[i])
    && forall j :: i < j < |items| ==> name(items[j]) != name(items[i])
  }

  lemma SameNameIff(config: string, a: string, b: string)
    ensures KeyOf(config, a) == KeyOf(config, b) <==> a == b
  {
    assert KeyOf(config, a)[|config| + 1..] == a && KeyOf(config, b)[|config| + 1..] == b;
  }

  lemma UnderOneMore<T>(config: string, items: seq<T>, name: T -> string, i: int, k: Key)
    requires items != []
    ensures var n := |items| - 1;
            StoredUnder(config, items, name, i, k) <==>
            if k == KeyOf(config, name(items[n])) then i == n else StoredUnder(config, items[..n], name, i, k)
  {
    var n := |items| - 1;
    if 0 <= i < n {
      SameNameIff(config, name(items[i]), name(items[n]));
      assert items[..n][i] == items[i];
      assert forall j :: i < j < n ==> items[..n][j] == items[j];
    }
  }

  /** The items by key are the last ones of each name. */
  lemma {:induction false} EntriesAreLast<T>(config: string, items: seq<T>, name: T -> string, k: Key, r: T)
    ensures k in Entries(config, items, name) && Entries(config, items, name)[k] == r <==>
            exists i :: StoredUnder(config, items, name, i, k) && items[i] == r
  {
    if items != [] {
      var n := |items| - 1;
      var front := items[..n];
      EntriesAreLast(config, front, name, k, r);
      forall i
        ensures StoredUnder(config, items, name, i, k) <==>
                if k == KeyOf(config, name(items[n])) then i == n else StoredUnder(config, front, name, i, k)
      {
        UnderOneMore(config, items, name, i, k);
      }
      if k == KeyOf(config, name(items[n])) {
        assert StoredUnder(config, items, name, n, k);
      } else if i :| StoredUnder(config, front, name, i, k) && front[i] == r {
        assert StoredUnder(config, items, name, i, k) && items[i] == r;
      }
    }
  }

  /** The flattening of the configs holds exactly the last item of each name of each config, under its key. */
  lemma FlattenedAre<T>(rules: map<Key, T>, configs: Configs, items: CircuitBreaker -> seq<T>, name: T -> string,
                        parts: CircuitBreaker -> map<Key, T>, k: Key, r: T)
    requires Flattens(rules, configs, parts) && GoodConfigs(configs)
    requires forall cb: CircuitBreaker :: parts(cb) == Entries(cb.name, items(cb), name)
    ensures k in rules && rules[k] == r <==>
            exists n, i :: n in configs && StoredUnder(n, items(configs[n]), name, i, k) && items(configs[n])[i] == r
  {
    forall n | n in configs
      ensures k in parts(configs[n]) && parts(configs[n])[k] == r <==>
              exists i :: StoredUnder(n, items(configs[n]), name, i, k) && items(configs[n])[i] == r
    {
      EntriesAreLast(n, items(configs[n]), name, k, r);
    }
    if k in rules && rules[k] == r {
      var n :| Provides(configs, parts, n, k);
      assert k in parts(configs[n]) && parts(configs[n])[k] == r;
    }
    if n, i :| n in configs && StoredUnder(n, items(configs[n]), name, i, k) && items(configs[n])[i] == r {
      assert Provides(configs, parts, n, k);
    }
  }

  /** A key tells the config it belongs to. */
  predicate BelongsTo(k: Key, config: string) {
    Split(k, ':')[0] == config
  }

  lemma EntriesBelong<T>(config: string, items: seq<T>, name: T -> string, k: Key)
    requires Free(config, ':') && k in Entries(config, items, name)
    ensures BelongsTo(k, config)
  {
    EntriesKeys(config, items, name, k);
    var r :| r in items && k == KeyOf(config, name(r));
    KeyTellsConfig(config, name(r));
  }

  function LimitingName(r: RateLimiting): string {
    r.name
  }

  function InterceptName(r: InterceptRule): string {
    r.name
  }

  function LimitingsOf(cb: CircuitBreaker): map<Key, RateLimiting> {
    Entries(cb.name, cb.limitings, LimitingName)
  }

  function InterceptsOf(cb: CircuitBreaker): map<Key, InterceptRule> {
    Entries(cb.name, cb.intercepts, InterceptName)
  }

  type Configs = map<string, CircuitBreaker>

  ghost predicate GoodConfigs(configs: Configs) {
    forall n :: n in configs ==> configs[n].name == n && Free(n, ':')
  }

  ghost predicate Provides<T>(configs: Configs, parts: CircuitBreaker -> map<Key, T>, n: string, k: Key) {
    n in configs && k in parts(configs[n])
  }

  /** `rules` is the flattening of the configs' `parts`: each key holds its config's item, and no other key is there. */
  ghost predicate Flattens<T>(rules: map<Key, T>, configs: Configs, parts: CircuitBreaker -> map<Key, T>) {
    && (forall k :: k in rules ==> exists n :: Provides(configs, parts, n, k))
    && (forall n, k :: Provides(configs, parts, n, k) ==> k in rules && rules[k] == parts(configs[n])[k])
  }

  /** The keys of every part belong to their config. */
  ghost predicate Local<T>(parts: CircuitBreaker -> map<Key, T>) {
    forall cb: CircuitBreaker, k :: Free(cb.name, ':') && k in parts(cb) ==> BelongsTo(k, cb.name)
  }

  lemma LimitingsAreLocal()
    ensures Local(LimitingsOf)
  {
    forall cb: CircuitBreaker, k | Free(cb.name, ':') && k in LimitingsOf(cb)
      ensures BelongsTo(k, cb.name)
    {
      EntriesBelong(cb.name, cb.limitings, LimitingName, k);
    }
  }

  lemma InterceptsAreLocal()
    ensures Local(InterceptsOf)
  {
    forall cb: CircuitBreaker, k | Free(cb.name, ':') && k in InterceptsOf(cb)
      ensures BelongsTo(k, cb.name)
    {
      EntriesBelong(cb.name, cb.intercepts, InterceptName, k);
    }
  }

  /** Taking a config's items out of the flattening flattens the other configs. */
  lemma FlattenWithout<T>(rules: map<Key, T>, configs: Configs, parts: CircuitBreaker -> map<Key, T>, name: string)
    requires Flattens(rules, configs, parts) && GoodConfigs(configs) && Local(parts) && name in configs
    ensures Flattens(rules - parts(configs[name]).Keys, configs - {name}, parts)
    ensures GoodConfigs(configs - {name})
    ensures forall k :: k in rules && !BelongsTo(k, name) ==> k in rules - parts(configs[name]).Keys
    ensures forall k :: k in rules - parts(configs[name]).Keys ==> !BelongsTo(k, name)
  {
    var left := rules - parts(configs[name]).Keys;
    forall k | k in left
      ensures !BelongsTo(k, name)
      ensures exists n :: Provides(configs - {name}, parts, n, k)
    {
      var n :| Provides(configs, parts, n, k);
      assert BelongsTo(k, n);
      assert Provides(configs - {name}, parts, n, k);
    }
    forall n, k | Provides(configs - {name}, parts, n, k)
      ensures k in left && left[k] == parts(configs[n])[k]
    {
      assert Provides(configs, parts, n, k) && BelongsTo(k, n);
    }
    forall k | k in rules && !BelongsTo(k, name)
      ensures k in left
    {
      assert Provides(configs, parts, name, k) ==> BelongsTo(k, name);
    }
  }

  /** Adding a new config's items flattens the configs with it. */
  lemma FlattenWith<T>(rules: map<Key, T>, configs: Configs, parts: CircuitBreaker -> map<Key, T>, cb: CircuitBreaker)
    requires Flattens(rules, configs, parts) && GoodConfigs(configs) && Local(parts)
    requires Free(cb.name, ':') && cb.name !in configs
    ensures Flattens(rules + parts(cb), configs[cb.name := cb], parts) && GoodConfigs(configs[cb.name := cb])
    ensures forall k :: k in parts(cb) ==> k !in rules && BelongsTo(k, cb.name)
  {
    var more := configs[cb.name := cb];
    forall k | k in parts(cb)
      ensures k !in rules && BelongsTo(k, cb.name)
    {
    }
    forall k | k in rules + parts(cb)
      ensures exists n :: Provides(more, parts, n, k)
    {
      if k in parts(cb) {
        assert Provides(more, parts, cb.name, k);
      } else {
        var n :| Provides(configs, parts, n, k);
        assert Provides(more, parts, n, k);
      }
    }
    forall n, k | Provides(more, parts, n, k)
      ensures k in rules + parts(cb) && (rules + parts(cb))[k] == parts(more[n])[k]
    {
      if n != cb.name {
        assert Provides(configs, parts, n, k);
      }
    }
  }
}
