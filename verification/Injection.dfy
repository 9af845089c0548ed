/** Injecting the selector of a shard into the query of a list or watch request. */
module Injection {
  import opened Wrappers
  import opened RawQuery
  import opened Selectors

  const LABEL_SELECTOR := "labelSelector"

  /** The selector in the query after injection, when the client sent `client`. */
  function Injected(sel: LabelSelector, client: Option<LabelSelector>): LabelSelector {
    if client.None? then sel else Merged(sel, client.value)
  }

  /** The selector parameter of a query, if it can be parsed and has one. */
  function ClientText(query: string): Option<string> {
    var p := Parse(query);
    if p.Some? && LABEL_SELECTOR in p.value then Some(p.value[LABEL_SELECTOR]) else None
  }

  /** The client's selector; no result when there is one that cannot be decoded. */
  function ClientSelector(query: string, decode: string -> Option<LabelSelector>): Option<Option<LabelSelector>> {
    var text := ClientText(query);
    if text.None? then Some(None)
    else
      var sel := decode(text.value);
      if sel.None? then None else Some(sel)
  }

  ghost predicate Supported(sel: LabelSelector) {
    forall r :: r in sel.matchExpressions ==> !r.operator.Unsupported?
  }

  /** The new query has the rendered selector `m`, which matches what the merged selector selects, in place of the
      client's; its other parameters are as they were. On failure the query is left alone. `decode` and `encode`
      stand for unescaping and parsing, and for rendering and escaping, a selector. */
  method InjectSelector(query: string, sel: LabelSelector, decode: string -> Option<LabelSelector>,
                        encode: Matcher -> string)
    returns (ok: bool, result: string, ghost m: Matcher)
    ensures ok <==> var client := ClientSelector(query, decode);
                    Parse(query).Some? && client.Some? && Supported(Injected(sel, client.value))
    ensures !ok ==> result == query
    ensures ok ==> forall l: Labels :: Matches(m, l) <==> Selects(Injected(sel, ClientSelector(query, decode).value), l)
    ensures ok && CleanString(encode(m)) ==> Parse(result) == Some(Parse(query).value[LABEL_SELECTOR := encode(m)])
  {
    m := Nothing;
    var raw, parsed := ParseRawQuery(query);
    if !parsed {
      return false, query, m;
    }
    var client := None;
    if LABEL_SELECTOR in raw {
      client := decode(raw[LABEL_SELECTOR]);
      if client.None? {
        return false, query, m;
      }
    }
    var merged := MergeLabelSelector(Some(sel), client);
    assert merged == Some(Injected(sel, client));
    var matcher := AsMatcher(merged);
    if matcher.None? {
      return false, query, m;
    }
    m := matcher.value;
    raw := raw[LABEL_SELECTOR := encode(matcher.value)];
    ghost var order;
    result, order := MarshalRawQuery(raw);
    ok := true;
    if CleanString(encode(m)) {
      ParseIsClean(query);
      RenderParses(raw, order);
    }
  }
}
