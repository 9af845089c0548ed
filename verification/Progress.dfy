/** Convergence of the dispatch protocol while the shard's spec is fixed and nothing fails.

    Every pod has a rank that bounds the work still to be done for it and its replacement: 3 when it runs an
    older spec, 2 when it is stale and must be replaced, 1 when it waits for a first spec, 0 when it has converged. */
module Progress {
  import opened Wrappers
  import opened Specs
  import opened Reconciler
  import opened Dispatch

  // ----- What a pod reports now and will report once the messages in flight are taken -----

  function Took(m: Memory, spec: ProxySpec): Memory {
    if spec.limits == [] then m else UpdateMemory(m, spec)
  }

  function Drained(m: Memory, down: seq<ProxySpec>): Memory {
    if down == [] then m else Took(Drained(m, down[..|down| - 1]), down[|down| - 1])
  }

  /** The hashes reported after each of the first 0, 1, ..., |down| messages. */
  function Replay(m: Memory, down: seq<ProxySpec>): (r: seq<Option<MetaState>>)
    ensures |r| == |down| + 1
    ensures r[0] == ReportedMeta(m) && r[|down|] == ReportedMeta(Drained(m, down))
  {
    if down == [] then [ReportedMeta(m)]
    else Replay(m, down[..|down| - 1]) + [ReportedMeta(Drained(m, down))]
  }

  function Metas(up: seq<Status>): seq<Option<MetaState>> {
    seq(|up|, i requires 0 <= i < |up| => up[i].meta)
  }

  /** All reports of a connected pod in the order the manager sees them: the stored one, those under way, the
      proxy's present one and the future ones. */
  ghost function Reports(s: System, u: Uid): (r: seq<Option<MetaState>>)
    requires u in s.mgr.conns && u in s.links && u in s.proxies && s.proxies[u].memory.Some?
    ensures r != []
  {
    [s.mgr.conns[u].status.meta] + Metas(s.links[u].up) + Replay(s.proxies[u].memory.value, s.links[u].down)
  }

  predicate Acks(r: Option<MetaState>, hash: string) {
    r.Some? && r.value.expectedHash == hash
  }

  /** Without an expectation all reports agree; with one, the last report acknowledges it and every report
      from the first acknowledgement on is the last one. */
  ghost predicate Settling(r: seq<Option<MetaState>>, expectation: Option<string>)
    requires r != []
  {
    var last := r[|r| - 1];
    match expectation
    case None => forall i :: 0 <= i < |r| ==> r[i] == last
    case Some(h) => Acks(last, h) && forall i, j :: 0 <= i <= j < |r| && Acks(r[i], h) ==> r[j] == last
  }

  lemma {:induction false} ReplayTail(m: Memory, down: seq<ProxySpec>)
    requires down != []
    ensures Replay(m, down) == [ReportedMeta(m)] + Replay(Took(m, down[0]), down[1..])
    ensures Drained(m, down) == Drained(Took(m, down[0]), down[1..])
  {
    var front := down[..|down| - 1];
    if front == [] {
      assert down[1..] == [];
    } else {
      ReplayTail(m, front);
      assert front[1..] == down[1..][..|down| - 2];
    }
  }

  /** Dropping a report keeps the property, unless it is the last one. */
  lemma SettlingDrop(r: seq<Option<MetaState>>, k: nat, expectation: Option<string>)
    requires k < |r| - 1 && Settling(r, expectation)
    ensures Settling(r[..k] + r[k + 1..], expectation)
  {
  }

  lemma SettlingRepeat(r: seq<Option<MetaState>>, k: nat, expectation: Option<string>)
    requires k < |r| && Settling(r, expectation)
    ensures Settling(r[..k] + [r[k]] + r[k..], expectation)
  {
  }

  lemma RepeatSplit(head: seq<Option<MetaState>>, tail: seq<Option<MetaState>>)
    requires tail != []
    ensures var r := head + tail; r[..|head|] + [r[|head|]] + r[|head|..] == head + [tail[0]] + tail
  {
  }

  // ----- The invariant of calm runs -----

  ghost predicate OfShard(m: Memory, down: seq<ProxySpec>, shard: string) {
    && (m.current.Some? <==> m.expected.Some?)
    && (m.current.Some? ==> m.current.value.meta.shard == shard && m.expected.value.meta.shard == shard)
    && (forall i :: 0 <= i < |down| ==> down[i].meta.shard == shard)
  }

  ghost function Expectation(m: Manager, u: Uid): Option<string> {
    if u in m.hashExpectation then Some(m.hashExpectation[u]) else None
  }

  ghost predicate Fine(s: System, u: Uid, shard: string) {
    && u in s.proxies && s.proxies[u].memory.Some? && u in s.links
    && OfShard(s.proxies[u].memory.value, s.links[u].down, shard)
    && (u !in s.mgr.conns ==> s.links[u] == Link([], []))
    && (u in s.mgr.conns ==> !s.mgr.conns[u].disconnected && Settling(Reports(s, u), Expectation(s.mgr, u)))
  }

  ghost predicate Settled(s: System, shard: string) {
    Safe(s) && forall u :: ActivePod(s, u) ==> Fine(s, u, shard)
  }

  /** The steps that happen when the spec is fixed and nothing fails: every call succeeds, pods go away only
      after the controller deleted them, and a new pod replaces one that is gone. */
  ghost predicate Calm(s: System, step: Step, spec: ProxySpec) {
    match step
    case Reconcile(_, sent, failed) => sent == spec && failed == {}
    case Register(u, _) => u !in s.mgr.conns
    case ManagerReceive(_) => true
    case Disconnect(_, _) => false
    case ProxyReceive(_, fault) => fault == NoFault
    case ProxyReport(_, _) => true
    case ProxyCrash(_) => false
    case ProxyRestart(_, _) => false
    case PodCreated(p) => s.vacant > 0 && Active(p)
    case PodChanged(p) => Active(p) || p.uid in s.mgr.deletionExpectation || !ActivePod(s, p.uid)
    case PodGone(u) => !ActivePod(s, u)
  }

  /** An active pod is expected to report a hash that no report stored, under way, present or to come has. */
  ghost predicate Blocked(s: System, u: Uid, hash: string) {
    && Safe(s) && ActivePod(s, u) && u !in s.mgr.deletionExpectation
    && u in s.mgr.conns && u in s.links && u in s.proxies && s.proxies[u].memory.Some?
    && Expectation(s.mgr, u) == Some(hash)
    && forall i :: 0 <= i < |Reports(s, u)| ==> !Acks(Reports(s, u)[i], hash)
  }

  // ----- Ranks -----

  /** What the pod will report when all messages to it are taken. */
  ghost function FinalReport(s: System, u: Uid): Option<MetaState>
    requires u in s.links && u in s.proxies && s.proxies[u].memory.Some?
  {
    ReportedMeta(Drained(s.proxies[u].memory.value, s.links[u].down))
  }

  ghost predicate SentTo(s: System, u: Uid) {
    u in s.mgr.conns && s.mgr.conns[u].sendTimes > 0
  }

  ghost function MetaRank(meta: Option<MetaState>, sent: bool, hash: string): nat {
    if meta.None? then 1
    else if meta.value.expectedHash != meta.value.currentHash then 2
    else if meta.value.expectedHash != hash then 3
    else if sent then 0
    else 1
  }

  ghost function Rank(s: System, u: Uid, hash: string): nat {
    if !ActivePod(s, u) || u in s.mgr.deletionExpectation then 1
    else if !(u in s.links && u in s.proxies && s.proxies[u].memory.Some?) then 1
    else MetaRank(FinalReport(s, u), SentTo(s, u), hash)
  }

  ghost function Ranks(s: System, hash: string): map<Uid, nat> {
    map u | u in s.pods :: Rank(s, u, hash)
  }

  ghost function Total(r: map<Uid, nat>): nat {
    if r == map[] then 0 else var u :| u in r; r[u] + Total(r - {u})
  }

  /** The ranks of all pods, and one for every pod still to be replaced. */
  ghost function Potential(s: System, hash: string): nat {
    s.vacant + Total(Ranks(s, hash))
  }

  lemma {:induction false} TotalRemove(r: map<Uid, nat>, u: Uid)
    requires u in r
    ensures Total(r) == r[u] + Total(r - {u})
    decreases |r|
  {
    var v :| v in r && Total(r) == r[v] + Total(r - {v});
    if v != u {
      TotalRemove(r - {v}, u);
      assert r - {v} - {u} == r - {u} - {v};
      TotalRemove(r - {u}, v);
    }
  }

  lemma {:induction false} TotalDrops(r: map<Uid, nat>, r': map<Uid, nat>, us: set<Uid>)
    requires r.Keys == r'.Keys && us <= r.Keys
    requires forall u :: u in r ==> r'[u] + (if u in us then 1 else 0) <= r[u]
    ensures Total(r') + |us| <= Total(r)
    decreases |r|
  {
    if r == map[] {
      assert us == {};
    } else {
      var u :| u in r;
      TotalRemove(r, u);
      TotalRemove(r', u);
      TotalDrops(r - {u}, r' - {u}, us - {u});
    }
  }

  // ----- Steps of one pod -----

  /** A connected pod is fine when its reports `r` settle. */
  lemma FineFrom(s: System, u: Uid, shard: string, r: seq<Option<MetaState>>)
    requires u in s.proxies && s.proxies[u].memory.Some? && u in s.links && u in s.mgr.conns && r != []
    requires OfShard(s.proxies[u].memory.value, s.links[u].down, shard) && !s.mgr.conns[u].disconnected
    requires Reports(s, u) == r && Settling(r, Expectation(s.mgr, u))
    ensures Fine(s, u, shard)
  {
  }

  lemma ReceiveDropsFirst(s: System, u: Uid)
    requires u in s.proxies && s.proxies[u].memory.Some? && Enabled(s, ManagerReceive(u))
    ensures var s', r := ReceiveStep(s, u), Reports(s, u);
            && s'.proxies == s.proxies && u in s'.links && s'.links[u].down == s.links[u].down && u in s'.mgr.conns
            && s'.mgr.conns[u].disconnected == s.mgr.conns[u].disconnected
            && s'.mgr.hashExpectation == s.mgr.hashExpectation
            && |r| > 1 && Reports(s', u) == r[..0] + r[0 + 1..]
  {
    var up, s' := s.links[u].up, ReceiveStep(s, u);
    assert Metas(up) == [up[0].meta] + Metas(up[1..]);
    DropHead(s.mgr.conns[u].status.meta, up[0].meta, Metas(up[1..]),
             Replay(s.proxies[u].memory.value, s.links[u].down));
  }

  lemma DropHead(a: Option<MetaState>, b: Option<MetaState>, ms: seq<Option<MetaState>>, t: seq<Option<MetaState>>)
    ensures var r := [a] + ([b] + ms) + t; r[..0] + r[0 + 1..] == [b] + ms + t
  {
  }

  lemma ReceiveKeepsFine(s: System, u: Uid, shard: string)
    requires Fine(s, u, shard) && Enabled(s, ManagerReceive(u))
    ensures Fine(ReceiveStep(s, u), u, shard)
    ensures FinalReport(ReceiveStep(s, u), u) == FinalReport(s, u)
  {
    var r := Reports(s, u);
    ReceiveDropsFirst(s, u);
    SettlingDrop(r, 0, Expectation(s.mgr, u));
    FineFrom(ReceiveStep(s, u), u, shard, r[..0] + r[0 + 1..]);
  }

  /** The proxy's present report gives way to the next one. */
  lemma ProxyReceiveDropsOne(s: System, u: Uid)
    requires Enabled(s, ProxyReceive(u, NoFault)) && u in s.mgr.conns
    ensures var s', r, k := ProxyReceiveStep(s, u, NoFault), Reports(s, u), 1 + |s.links[u].up|;
            && u in s'.proxies && s'.proxies[u].memory.Some? && u in s'.links && s'.mgr == s.mgr
            && k < |r| - 1 && Reports(s', u) == r[..k] + r[k + 1..]
  {
    var s' := ProxyReceiveStep(s, u, NoFault);
    var m, down, up := s.proxies[u].memory.value, s.links[u].down, s.links[u].up;
    assert s'.proxies[u].memory == Some(Took(m, down[0]));
    ReplayTail(m, down);
    var head, tail := [s.mgr.conns[u].status.meta] + Metas(up), Replay(m, down);
    DropAfter(head, tail);
  }

  lemma DropAfter(head: seq<Option<MetaState>>, tail: seq<Option<MetaState>>)
    requires tail != []
    ensures var r := head + tail; r[..|head|] + r[|head| + 1..] == head + tail[1..]
  {
  }

  lemma ProxyReceiveOfShard(s: System, u: Uid, shard: string)
    requires Fine(s, u, shard) && Enabled(s, ProxyReceive(u, NoFault))
    ensures var s' := ProxyReceiveStep(s, u, NoFault);
            && u in s'.proxies && s'.proxies[u].memory.Some? && u in s'.links
            && OfShard(s'.proxies[u].memory.value, s'.links[u].down, shard) && FinalReport(s', u) == FinalReport(s, u)
  {
    var s' := ProxyReceiveStep(s, u, NoFault);
    var m, down := s.proxies[u].memory.value, s.links[u].down;
    assert s'.proxies[u].memory == Some(Took(m, down[0]));
    ReplayTail(m, down);
  }

  lemma ProxyReceiveKeepsFine(s: System, u: Uid, shard: string)
    requires Fine(s, u, shard) && Enabled(s, ProxyReceive(u, NoFault))
    ensures Fine(ProxyReceiveStep(s, u, NoFault), u, shard)
    ensures FinalReport(ProxyReceiveStep(s, u, NoFault), u) == FinalReport(s, u)
  {
    ProxyReceiveOfShard(s, u, shard);
    assert u in s.mgr.conns;
    var r, k := Reports(s, u), 1 + |s.links[u].up|;
    ProxyReceiveDropsOne(s, u);
    SettlingDrop(r, k, Expectation(s.mgr, u));
    FineFrom(ProxyReceiveStep(s, u, NoFault), u, shard, r[..k] + r[k + 1..]);
  }

  /** A new report repeats the proxy's present one. */
  lemma ReportRepeatsOne(s: System, u: Uid, leader: Option<bool>)
    requires Enabled(s, ProxyReport(u, leader))
    ensures var s', r, k := Next(s, ProxyReport(u, leader)), Reports(s, u), 1 + |s.links[u].up|;
            && k < |r| && u in s'.links && s'.mgr == s.mgr && s'.proxies == s.proxies
            && s'.links[u].down == s.links[u].down
            && Reports(s', u) == r[..k] + [r[k]] + r[k..]
  {
    ReportIsAdded(s, u, leader);
    MoreReported(s, Next(s, ProxyReport(u, leader)), u, leader);
  }

  lemma ReportIsAdded(s: System, u: Uid, leader: Option<bool>)
    requires Enabled(s, ProxyReport(u, leader))
    ensures var s', l := Next(s, ProxyReport(u, leader)), s.links[u];
            && s'.mgr == s.mgr && s'.proxies == s.proxies && u in s'.links
            && s'.links[u] == l.(up := l.up + [Status(ReportedMeta(s.proxies[u].memory.value), leader)])
  {
  }

  lemma MoreReported(s: System, s': System, u: Uid, leader: Option<bool>)
    requires u in s.mgr.conns && u in s.links && u in s.proxies && s.proxies[u].memory.Some?
    requires s'.mgr == s.mgr && s'.proxies == s.proxies && u in s'.links
    requires s'.links[u] ==
             s.links[u].(up := s.links[u].up + [Status(ReportedMeta(s.proxies[u].memory.value), leader)])
    ensures var r, k := Reports(s, u), 1 + |s.links[u].up|; k < |r| && Reports(s', u) == r[..k] + [r[k]] + r[k..]
  {
    var up, m := s.links[u].up, s.proxies[u].memory.value;
    var head, tail := [s.mgr.conns[u].status.meta] + Metas(up), Replay(m, s.links[u].down);
    assert Metas(up + [Status(ReportedMeta(m), leader)]) == Metas(up) + [ReportedMeta(m)];
    RepeatSplit(head, tail);
  }

  lemma ReportKeepsFine(s: System, u: Uid, leader: Option<bool>, shard: string)
    requires Fine(s, u, shard) && Enabled(s, ProxyReport(u, leader))
    ensures Fine(Next(s, ProxyReport(u, leader)), u, shard)
    ensures FinalReport(Next(s, ProxyReport(u, leader)), u) == FinalReport(s, u)
  {
    var r, k := Reports(s, u), 1 + |s.links[u].up|;
    ReportRepeatsOne(s, u, leader);
    SettlingRepeat(r, k, Expectation(s.mgr, u));
    FineFrom(Next(s, ProxyReport(u, leader)), u, shard, r[..k] + [r[k]] + r[k..]);
  }

  lemma RegisterKeepsFine(s: System, u: Uid, leader: Option<bool>, shard: string)
    requires Fine(s, u, shard) && Enabled(s, Register(u, leader)) && u !in s.mgr.conns
    ensures Fine(RegisterStep(s, u, leader), u, shard)
    ensures FinalReport(RegisterStep(s, u, leader), u) == FinalReport(s, u)
  {
    var s' := RegisterStep(s, u, leader);
    var meta := ReportedMeta(s.proxies[u].memory.value);
    assert Reports(s', u) == [meta, meta];
  }

  // ----- A reconcile step -----

  /** The stored report of a pod that is let through is what the pod will report in the end. */
  lemma AdmittedReportsAgree(s: System, u: Uid, shard: string)
    requires Safe(s) && ActivePod(s, u) && Fine(s, u, shard) && Inspect(s.pods[u], s.mgr) == Admit
    ensures forall i :: 0 <= i < |Reports(s, u)| ==> Reports(s, u)[i] == FinalReport(s, u)
    ensures s.mgr.conns[u].status.meta == FinalReport(s, u)
  {
    var r := Reports(s, u);
    assert r[|r| - 1] == FinalReport(s, u) && r[0] == s.mgr.conns[u].status.meta;
    if u in s.mgr.hashExpectation {
      assert Acks(r[0], s.mgr.hashExpectation[u]);
    }
  }

  lemma {:induction false} DrainedOfShard(m: Memory, down: seq<ProxySpec>, shard: string)
    requires OfShard(m, down, shard)
    ensures OfShard(Drained(m, down), [], shard)
  {
    if down != [] {
      DrainedOfShard(m, down[..|down| - 1], shard);
    }
  }

  /** What one more message does to the final report of a pod whose final report is `meta`. */
  lemma TookReport(m: Memory, spec: ProxySpec)
    requires OfShard(m, [], spec.meta.shard) && (spec.limits != [] || Acks(ReportedMeta(m), spec.meta.hash))
    ensures var meta, hash := ReportedMeta(m), spec.meta.hash;
            ReportedMeta(Took(m, spec)) ==
              Some(MetaState(hash, if meta.None? then hash else meta.value.currentHash))
  {
  }

  lemma GatedAdmits(s: System, step: Step, u: Uid)
    requires Safe(s) && step.Reconcile? && Enabled(s, step) && ActivePod(s, u)
    ensures var g := Gated(s.mgr, Listed(s, step.order));
            && (u in g.hashExpectation ==> u in s.mgr.hashExpectation)
            && (u in s.mgr.hashExpectation && u !in g.hashExpectation ==> Inspect(s.pods[u], s.mgr) == Admit)
  {
    var pods := Listed(s, step.order);
    ListedHasAll(s, step.order, u);
    if u in Admitted(pods[..Scanned(pods, s.mgr)], s.mgr) {
      var p :| p in pods && p.uid == u && Inspect(p, s.mgr) == Admit;
    }
  }

  lemma UntouchedPod(s: System, step: Step, u: Uid, spec: ProxySpec)
    requires Settled(s, spec.meta.shard) && step.Reconcile? && Enabled(s, step) && Calm(s, step, spec)
    requires ActivePod(s, u) && u !in Acted(s, step)
    ensures var s' := ReconcileStep(s, step);
            && Fine(s', u, spec.meta.shard) && FinalReport(s', u) == FinalReport(s, u)
            && (SentTo(s, u) ==> SentTo(s', u))
  {
    var s' := ReconcileStep(s, step);
    ReconciledAt(s.mgr, Listed(s, step.order), spec.meta.hash, {}, u);
    GatedAdmits(s, step, u);
    if u in s.mgr.conns {
      assert Reports(s', u) == Reports(s, u);
      if Expectation(s'.mgr, u) != Expectation(s.mgr, u) {
        AdmittedReportsAgree(s, u, spec.meta.shard);
      }
    }
  }

  /** One more report that acknowledges the new hash, after reports that agree. */
  lemma SettlingAppend(r: seq<Option<MetaState>>, last: Option<MetaState>, hash: string)
    requires r != [] && (forall i :: 0 <= i < |r| ==> r[i] == r[|r| - 1])
    requires Acks(last, hash) && (Acks(r[|r| - 1], hash) ==> last == r[|r| - 1])
    ensures Settling(r + [last], Some(hash))
  {
  }

  lemma MoreReports(s: System, s': System, u: Uid, spec: ProxySpec)
    requires u in s.mgr.conns && u in s.links && u in s.proxies && s.proxies[u].memory.Some?
    requires s'.proxies == s.proxies && u in s'.mgr.conns && u in s'.links
    requires s'.mgr.conns[u].status == s.mgr.conns[u].status
    requires s'.links[u] == s.links[u].(down := s.links[u].down + [spec])
    ensures Reports(s', u) == Reports(s, u) + [FinalReport(s', u)]
    ensures FinalReport(s', u) == ReportedMeta(Took(Drained(s.proxies[u].memory.value, s.links[u].down), spec))
  {
    assert (s.links[u].down + [spec])[..|s.links[u].down|] == s.links[u].down;
  }

  /** The final report of a pod that is sent the spec, against the report it was classified by. */
  lemma ClassifiedRank(c: Connection, hash: string, last: Option<MetaState>)
    requires Classify(c, hash) == Update || Classify(c, hash) == Work.Dispatch
    requires last == Some(MetaState(hash, if c.status.meta.None? then hash else c.status.meta.value.currentHash))
    ensures Acks(c.status.meta, hash) ==> last == c.status.meta
    ensures MetaRank(last, true, hash) + 1 <= MetaRank(c.status.meta, c.sendTimes > 0, hash)
  {
  }

  ghost predicate OneMore(s: System, s': System, u: Uid, spec: ProxySpec) {
    && Safe(s) && ActivePod(s, u) && Fine(s, u, spec.meta.shard) && Inspect(s.pods[u], s.mgr) == Admit
    && (spec.limits != [] || Acknowledged(s.mgr.conns[u].status, spec.meta.hash))
    && s'.proxies == s.proxies && u in s'.mgr.conns && u in s'.links
    && s'.mgr.conns[u] == s.mgr.conns[u].(sendTimes := s.mgr.conns[u].sendTimes + 1)
    && s'.links[u] == s.links[u].(down := s.links[u].down + [spec])
    && (Classify(s.mgr.conns[u], spec.meta.hash) == Update || Classify(s.mgr.conns[u], spec.meta.hash) == Work.Dispatch)
  }

  /** One more spec on the way to a pod that has settled. */
  lemma OneMoreReport(s: System, s': System, u: Uid, spec: ProxySpec)
    requires OneMore(s, s', u, spec)
    ensures var meta := s.mgr.conns[u].status.meta;
            && meta == FinalReport(s, u)
            && FinalReport(s', u) ==
               Some(MetaState(spec.meta.hash, if meta.None? then spec.meta.hash else meta.value.currentHash))
  {
    AdmittedReportsAgree(s, u, spec.meta.shard);
    MoreReports(s, s', u, spec);
    DrainedOfShard(s.proxies[u].memory.value, s.links[u].down, spec.meta.shard);
    TookReport(Drained(s.proxies[u].memory.value, s.links[u].down), spec);
  }

  lemma OneMoreFine(s: System, s': System, u: Uid, spec: ProxySpec)
    requires OneMore(s, s', u, spec) && Expectation(s'.mgr, u) == Some(spec.meta.hash)
    ensures Fine(s', u, spec.meta.shard)
  {
    OneMoreReport(s, s', u, spec);
    ClassifiedRank(s.mgr.conns[u], spec.meta.hash, FinalReport(s', u));
    AdmittedReportsAgree(s, u, spec.meta.shard);
    MoreReports(s, s', u, spec);
    SettlingAppend(Reports(s, u), FinalReport(s', u), spec.meta.hash);
  }

  /** The pass sends a spec without limits, which a proxy drops, to a pod that does not report its hash yet. */
  ghost predicate Drops(s: System, step: Step) {
    && step.Reconcile? && Enabled(s, step) && Sends(s, step) && step.spec.limits == []
    && exists u :: u in Acted(s, step) && u in s.mgr.conns && !Acknowledged(s.mgr.conns[u].status, step.spec.meta.hash)
  }

  /** A pass that sends puts one more spec on the way to a pod it acts on, and expects its hash. */
  lemma SentIsOneMore(s: System, step: Step, u: Uid, spec: ProxySpec)
    requires Settled(s, spec.meta.shard) && step.Reconcile? && Enabled(s, step) && Calm(s, step, spec)
    requires !Drops(s, step) && Sends(s, step) && u in Acted(s, step)
    ensures var s' := ReconcileStep(s, step);
            && OneMore(s, s', u, spec) && Expectation(s'.mgr, u) == Some(spec.meta.hash) && SentTo(s', u)
            && u !in s.mgr.deletionExpectation && u !in s'.mgr.deletionExpectation && s'.pods == s.pods
  {
    ActedPod(s, step, u);
    ReconciledAt(s.mgr, Listed(s, step.order), spec.meta.hash, {}, u);
  }

  lemma OneMoreRank(s: System, s': System, u: Uid, spec: ProxySpec)
    requires OneMore(s, s', u, spec) && SentTo(s', u) && s'.pods == s.pods
    requires u !in s.mgr.deletionExpectation && u !in s'.mgr.deletionExpectation
    ensures Rank(s', u, spec.meta.hash) + 1 <= Rank(s, u, spec.meta.hash)
  {
    var hash := spec.meta.hash;
    OneMoreReport(s, s', u, spec);
    ClassifiedRank(s.mgr.conns[u], hash, FinalReport(s', u));
    assert Rank(s', u, hash) == MetaRank(FinalReport(s', u), true, hash);
    assert Rank(s, u, hash) == MetaRank(FinalReport(s, u), SentTo(s, u), hash);
  }

  lemma SentPod(s: System, step: Step, u: Uid, spec: ProxySpec)
    requires Settled(s, spec.meta.shard) && step.Reconcile? && Enabled(s, step) && Calm(s, step, spec)
    requires !Drops(s, step) && Sends(s, step) && u in Acted(s, step)
    ensures var s' := ReconcileStep(s, step);
            && Fine(s', u, spec.meta.shard)
            && Rank(s', u, spec.meta.hash) + 1 <= Rank(s, u, spec.meta.hash)
  {
    SentIsOneMore(s, step, u, spec);
    OneMoreFine(s, ReconcileStep(s, step), u, spec);
    OneMoreRank(s, ReconcileStep(s, step), u, spec);
  }

  lemma DeletedPod(s: System, step: Step, u: Uid, spec: ProxySpec)
    requires Settled(s, spec.meta.shard) && step.Reconcile? && Enabled(s, step) && Calm(s, step, spec)
    requires Deletes(s, step) && u in Acted(s, step)
    ensures var s' := ReconcileStep(s, step);
            && Fine(s', u, spec.meta.shard)
            && Rank(s', u, spec.meta.hash) + 1 <= Rank(s, u, spec.meta.hash)
  {
    var s', shard := ReconcileStep(s, step), spec.meta.shard;
    ActedPod(s, step, u);
    ReconciledAt(s.mgr, Listed(s, step.order), spec.meta.hash, {}, u);
    AdmittedReportsAgree(s, u, shard);
    assert Reports(s', u) == Reports(s, u);
  }

  lemma ReconcilePod(s: System, step: Step, u: Uid, spec: ProxySpec)
    requires Settled(s, spec.meta.shard) && step.Reconcile? && Enabled(s, step) && Calm(s, step, spec)
    requires !Drops(s, step) && u in s.pods
    ensures var s' := ReconcileStep(s, step);
            && (ActivePod(s, u) ==> Fine(s', u, spec.meta.shard))
            && Rank(s', u, spec.meta.hash) + (if u in Acted(s, step) then 1 else 0) <= Rank(s, u, spec.meta.hash)
  {
    if u in Acted(s, step) {
      ActedPod(s, step, u);
      if Deletes(s, step) {
        DeletedPod(s, step, u, spec);
      } else {
        SentPod(s, step, u, spec);
      }
    } else if ActivePod(s, u) {
      UntouchedPod(s, step, u, spec);
      ReconcileKeys(s.mgr, Listed(s, step.order), spec.meta.hash, {});
    }
  }

  lemma PotentialDrops(s: System, s': System, hash: string, us: set<Uid>)
    requires s'.pods.Keys == s.pods.Keys && s'.vacant == s.vacant && us <= s.pods.Keys
    requires forall u :: u in s.pods ==> Rank(s', u, hash) + (if u in us then 1 else 0) <= Rank(s, u, hash)
    ensures Potential(s', hash) + |us| <= Potential(s, hash)
  {
    TotalDrops(Ranks(s, hash), Ranks(s', hash), us);
  }

  lemma SentAt(s: System, step: Step, u: Uid, spec: ProxySpec)
    requires Settled(s, spec.meta.shard) && step.Reconcile? && Enabled(s, step) && Calm(s, step, spec)
    requires Sends(s, step) && u in Acted(s, step)
    ensures ActivePod(s, u) && Inspect(s.pods[u], s.mgr) == Admit && u in s.mgr.conns && u in s.links
    ensures var s' := ReconcileStep(s, step);
            && s'.pods == s.pods && s'.proxies == s.proxies && u !in s'.mgr.deletionExpectation
            && u in s'.mgr.conns && u in s'.links && s'.mgr.conns[u].status == s.mgr.conns[u].status
            && s'.links[u] == s.links[u].(down := s.links[u].down + [spec])
            && Expectation(s'.mgr, u) == Some(spec.meta.hash)
  {
    ActedPod(s, step, u);
    ReconciledAt(s.mgr, Listed(s, step.order), spec.meta.hash, {}, u);
    assert Fine(s, u, spec.meta.shard);
  }

  /** A pod that is sent a spec without limits, and does not report its hash, is expected to and never will. */
  lemma DroppedAt(s: System, s': System, u: Uid, spec: ProxySpec)
    requires Settled(s, spec.meta.shard) && ActivePod(s, u) && Inspect(s.pods[u], s.mgr) == Admit
    requires u in s.mgr.conns && !Acknowledged(s.mgr.conns[u].status, spec.meta.hash) && spec.limits == []
    requires s'.proxies == s.proxies && u in s'.mgr.conns && u in s'.links && u in s.links
    requires s'.mgr.conns[u].status == s.mgr.conns[u].status
    requires s'.links[u] == s.links[u].(down := s.links[u].down + [spec])
    ensures u in s'.proxies && s'.proxies[u].memory.Some?
    ensures forall i :: 0 <= i < |Reports(s', u)| ==> !Acks(Reports(s', u)[i], spec.meta.hash)
  {
    assert Fine(s, u, spec.meta.shard);
    AdmittedReportsAgree(s, u, spec.meta.shard);
    MoreReports(s, s', u, spec);
  }

  lemma BlockedIsNotFine(s: System, u: Uid, hash: string, shard: string)
    requires Blocked(s, u, hash)
    ensures !Settled(s, shard)
  {
    var r := Reports(s, u);
    assert !Acks(r[|r| - 1], hash);
    assert !Fine(s, u, shard);
  }

  /** A pass keeps the state settled exactly when it does not send a spec without limits to a pod that does not report
      its hash; such a pod is blocked. */
  lemma ReconcileSettlesIff(s: System, step: Step, spec: ProxySpec)
    requires Settled(s, spec.meta.shard) && step.Reconcile? && Enabled(s, step) && Calm(s, step, spec)
    ensures Settled(ReconcileStep(s, step), spec.meta.shard) <==> !Drops(s, step)
    ensures Drops(s, step) ==> exists u :: Blocked(ReconcileStep(s, step), u, spec.meta.hash)
  {
    var s' := ReconcileStep(s, step);
    if Drops(s, step) {
      var u :| u in Acted(s, step) && u in s.mgr.conns && !Acknowledged(s.mgr.conns[u].status, spec.meta.hash);
      SentAt(s, step, u, spec);
      DroppedAt(s, s', u, spec);
      ReconcileIsSafe(s, step);
      assert Blocked(s', u, spec.meta.hash);
      BlockedIsNotFine(s', u, spec.meta.hash, spec.meta.shard);
    } else {
      assert s'.pods == s.pods;
      forall u | ActivePod(s', u)
        ensures Fine(s', u, spec.meta.shard)
      {
        ReconcilePod(s, step, u, spec);
      }
      ReconcileIsSafe(s, step);
    }
  }

  lemma ReconcileKeepsPods(s: System, step: Step)
    requires step.Reconcile? && Enabled(s, step)
    ensures ReconcileStep(s, step).pods == s.pods && ReconcileStep(s, step).vacant == s.vacant
  {
  }

  /** Every pod that is acted on has some rank left. */
  lemma ActedRank(s: System, step: Step, u: Uid, spec: ProxySpec)
    requires Settled(s, spec.meta.shard) && step.Reconcile? && Enabled(s, step) && Calm(s, step, spec)
    requires u in Acted(s, step)
    ensures u in s.pods && Rank(s, u, spec.meta.hash) >= 1
  {
    ActedPod(s, step, u);
    AdmittedReportsAgree(s, u, spec.meta.shard);
  }

  lemma TotalAtLeast(r: map<Uid, nat>, us: set<Uid>)
    requires us <= r.Keys && forall u :: u in us ==> r[u] >= 1
    ensures |us| <= Total(r)
  {
    TotalDrops(r, map u | u in r :: if u in us then r[u] - 1 else r[u], us);
  }

  /** The work of one pass is bounded by the sum of ranks, which goes down by it unless a spec is dropped. */
  lemma ReconcileDescends(s: System, step: Step, spec: ProxySpec)
    requires Settled(s, spec.meta.shard) && step.Reconcile? && Enabled(s, step) && Calm(s, step, spec)
    ensures |Acted(s, step)| <= Potential(s, spec.meta.hash)
    ensures !Drops(s, step) ==>
              Potential(ReconcileStep(s, step), spec.meta.hash) + |Acted(s, step)| <= Potential(s, spec.meta.hash)
  {
    var s', hash, us := ReconcileStep(s, step), spec.meta.hash, Acted(s, step);
    forall u | u in us
      ensures u in s.pods && Rank(s, u, hash) >= 1
    {
      ActedRank(s, step, u, spec);
    }
    TotalAtLeast(Ranks(s, hash), us);
    if !Drops(s, step) {
      ReconcileKeepsPods(s, step);
      forall u | u in s.pods
        ensures Rank(s', u, hash) + (if u in us then 1 else 0) <= Rank(s, u, hash)
      {
        ReconcilePod(s, step, u, spec);
      }
      PotentialDrops(s, s', hash, us);
    }
  }

  // ----- The other steps -----

  ghost predicate SameAt(s: System, s': System, v: Uid) {
    && (v in s.mgr.conns <==> v in s'.mgr.conns) && (v in s.mgr.conns ==> s'.mgr.conns[v] == s.mgr.conns[v])
    && Expectation(s'.mgr, v) == Expectation(s.mgr, v)
    && (v in s.links <==> v in s'.links) && (v in s.links ==> s'.links[v] == s.links[v])
    && (v in s.proxies <==> v in s'.proxies) && (v in s.proxies ==> s'.proxies[v] == s.proxies[v])
    && (v in s.mgr.deletionExpectation <==> v in s'.mgr.deletionExpectation)
  }

  lemma SameFine(s: System, s': System, v: Uid, shard: string)
    requires SameAt(s, s', v) && Fine(s, v, shard)
    ensures Fine(s', v, shard)
  {
    if v in s.mgr.conns {
      assert Reports(s', v) == Reports(s, v);
    }
  }

  /** A step that concerns one pod and leaves its final report as it was. */
  lemma LocalStep(s: System, s': System, u: Uid, shard: string, hash: string)
    requires Settled(s, shard) && Safe(s') && s'.pods == s.pods && s'.vacant == s.vacant
    requires s'.mgr.deletionExpectation == s.mgr.deletionExpectation
    requires forall v :: v != u ==> SameAt(s, s', v)
    requires ActivePod(s, u) ==> Fine(s', u, shard) && FinalReport(s', u) == FinalReport(s, u)
                                 && (SentTo(s, u) ==> SentTo(s', u))
    ensures Settled(s', shard) && Potential(s', hash) <= Potential(s, hash)
  {
    forall v | v in s.pods
      ensures ActivePod(s, v) ==> Fine(s', v, shard)
      ensures Rank(s', v, hash) <= Rank(s, v, hash)
    {
      if ActivePod(s, v) {
        if v != u {
          SameFine(s, s', v, shard);
        }
        assert Fine(s, v, shard) && FinalReport(s', v) == FinalReport(s, v);
      }
    }
    PotentialDrops(s, s', hash, {});
  }

  ghost predicate IsMessage(step: Step) {
    step.ManagerReceive? || step.ProxyReceive? || step.ProxyReport? || step.Register?
  }

  lemma MessageAtPod(s: System, step: Step, spec: ProxySpec)
    requires Settled(s, spec.meta.shard) && Enabled(s, step) && Calm(s, step, spec) && IsMessage(step)
    requires ActivePod(s, step.uid)
    ensures var s', u := Next(s, step), step.uid;
            Fine(s', u, spec.meta.shard) && FinalReport(s', u) == FinalReport(s, u) && (SentTo(s, u) ==> SentTo(s', u))
  {
    var shard, u := spec.meta.shard, step.uid;
    match step
    case ManagerReceive(_) => ReceiveKeepsFine(s, u, shard);
    case ProxyReceive(_, _) => ProxyReceiveKeepsFine(s, u, shard);
    case ProxyReport(_, leader) => ReportKeepsFine(s, u, leader, shard);
    case Register(_, leader) => RegisterKeepsFine(s, u, leader, shard);
  }

  lemma MessageElsewhere(s: System, step: Step)
    requires Enabled(s, step) && IsMessage(step)
    ensures var s' := Next(s, step);
            && s'.pods == s.pods && s'.vacant == s.vacant && s'.mgr.deletionExpectation == s.mgr.deletionExpectation
            && forall v :: v != step.uid ==> SameAt(s, s', v)
  {
  }

  lemma MessageStep(s: System, step: Step, spec: ProxySpec)
    requires Settled(s, spec.meta.shard) && Enabled(s, step) && Calm(s, step, spec) && IsMessage(step)
    ensures Settled(Next(s, step), spec.meta.shard)
    ensures Potential(Next(s, step), spec.meta.hash) <= Potential(s, spec.meta.hash)
  {
    StepIsSafe(s, step);
    if ActivePod(s, step.uid) {
      MessageAtPod(s, step, spec);
    }
    MessageElsewhere(s, step);
    LocalStep(s, Next(s, step), step.uid, spec.meta.shard, spec.meta.hash);
  }

  lemma ChangedPod(s: System, p: Pod, spec: ProxySpec)
    requires Settled(s, spec.meta.shard) && Enabled(s, PodChanged(p)) && Calm(s, PodChanged(p), spec)
    ensures Settled(Next(s, PodChanged(p)), spec.meta.shard)
    ensures Potential(Next(s, PodChanged(p)), spec.meta.hash) <= Potential(s, spec.meta.hash)
  {
    var s', shard := Next(s, PodChanged(p)), spec.meta.shard;
    StepIsSafe(s, PodChanged(p));
    forall v | v in s.pods
      ensures ActivePod(s', v) ==> Fine(s', v, shard)
      ensures Rank(s', v, spec.meta.hash) <= Rank(s, v, spec.meta.hash)
    {
      if ActivePod(s', v) {
        SameFine(s, s', v, shard);
      }
    }
    PotentialDrops(s, s', spec.meta.hash, {});
  }

  lemma GonePod(s: System, u: Uid, spec: ProxySpec)
    requires Settled(s, spec.meta.shard) && Enabled(s, PodGone(u)) && Calm(s, PodGone(u), spec)
    ensures Settled(Next(s, PodGone(u)), spec.meta.shard)
    ensures Potential(Next(s, PodGone(u)), spec.meta.hash) <= Potential(s, spec.meta.hash)
  {
    var s', hash := Next(s, PodGone(u)), spec.meta.hash;
    StepIsSafe(s, PodGone(u));
    forall v | v in s'.pods
      ensures ActivePod(s', v) ==> Fine(s', v, spec.meta.shard)
      ensures Rank(s', v, hash) == Rank(s, v, hash)
    {
      if ActivePod(s', v) {
        SameFine(s, s', v, spec.meta.shard);
      }
    }
    assert Ranks(s', hash) == Ranks(s, hash) - {u};
    TotalRemove(Ranks(s, hash), u);
  }

  lemma NewPodElsewhere(s: System, p: Pod, spec: ProxySpec, v: Uid)
    requires Settled(s, spec.meta.shard) && Enabled(s, PodCreated(p)) && v in s.pods
    ensures var s' := Next(s, PodCreated(p));
            && (ActivePod(s', v) ==> Fine(s', v, spec.meta.shard))
            && Rank(s', v, spec.meta.hash) == Rank(s, v, spec.meta.hash)
  {
    if ActivePod(s, v) {
      SameFine(s, Next(s, PodCreated(p)), v, spec.meta.shard);
    }
  }

  lemma NewPod(s: System, p: Pod, spec: ProxySpec)
    requires Settled(s, spec.meta.shard) && Enabled(s, PodCreated(p)) && Calm(s, PodCreated(p), spec)
    ensures Settled(Next(s, PodCreated(p)), spec.meta.shard)
    ensures Potential(Next(s, PodCreated(p)), spec.meta.hash) <= Potential(s, spec.meta.hash)
  {
    var s', hash := Next(s, PodCreated(p)), spec.meta.hash;
    StepIsSafe(s, PodCreated(p));
    assert s'.pods.Keys == s.pods.Keys + {p.uid};
    forall v | v in s.pods
      ensures ActivePod(s', v) ==> Fine(s', v, spec.meta.shard)
      ensures Rank(s', v, hash) == Rank(s, v, hash)
    {
      NewPodElsewhere(s, p, spec, v);
    }
    assert Fine(s', p.uid, spec.meta.shard) && Rank(s', p.uid, hash) == 1;
    assert Ranks(s', hash) - {p.uid} == Ranks(s, hash);
    TotalRemove(Ranks(s', hash), p.uid);
  }

  // ----- Calm runs -----

  ghost function Actions(s: System, step: Step): nat {
    if step.Reconcile? && Enabled(s, step) then |Acted(s, step)| else 0
  }

  /** A step of a calm run keeps the state settled exactly when it drops no spec; then it does not raise the sum of
      ranks, and work lowers it. */
  lemma CalmStep(s: System, step: Step, spec: ProxySpec)
    requires Settled(s, spec.meta.shard) && Calm(s, step, spec)
    ensures Settled(Next(s, step), spec.meta.shard) <==> !Drops(s, step)
    ensures Drops(s, step) ==> exists u :: Blocked(Next(s, step), u, spec.meta.hash)
    ensures Actions(s, step) <= Potential(s, spec.meta.hash)
    ensures !Drops(s, step) ==>
              Potential(Next(s, step), spec.meta.hash) + Actions(s, step) <= Potential(s, spec.meta.hash)
  {
    if Enabled(s, step) {
      match step
      case Reconcile(_, _, _) =>
        ReconcileSettlesIff(s, step, spec);
        ReconcileDescends(s, step, spec);
      case PodCreated(p) => NewPod(s, p, spec);
      case PodChanged(p) => ChangedPod(s, p, spec);
      case PodGone(u) => GonePod(s, u, spec);
      case _ => MessageStep(s, step, spec);
    }
  }

  // ----- Blocked shards -----

  /** The step does not connect, end, crash, restart or disconnect the pod. */
  predicate Spares(step: Step, u: Uid) {
    match step
    case Register(v, _) => v != u
    case Disconnect(v, _) => v != u
    case ProxyReceive(v, fault) => v == u ==> fault == NoFault
    case ProxyCrash(v) => v != u
    case PodChanged(p) => p.uid == u ==> Active(p)
    case PodGone(v) => v != u
    case _ => true
  }

  lemma BlockedStops(s: System, step: Step, u: Uid, hash: string)
    requires Blocked(s, u, hash) && step.Reconcile? && Enabled(s, step)
    ensures Acted(s, step) == {} && !Sends(s, step) && !Deletes(s, step)
    ensures u in Gated(s.mgr, Listed(s, step.order)).hashExpectation
  {
    var pods, r := Listed(s, step.order), Reports(s, u);
    assert r[0] == s.mgr.conns[u].status.meta;
    ListedHasAll(s, step.order, u);
    forall p | p in pods && p.uid == u
      ensures Inspect(p, s.mgr) == Stop
    {
    }
    assert s.pods[u] in pods;
  }

  /** The reports of the pod are those it had, with some left out or repeated. */
  lemma BlockedFrom(s: System, s': System, u: Uid, hash: string)
    requires Blocked(s, u, hash) && Safe(s') && ActivePod(s', u) && u !in s'.mgr.deletionExpectation
    requires u in s'.mgr.conns && u in s'.links && u in s'.proxies && s'.proxies[u].memory.Some?
    requires Expectation(s'.mgr, u) == Some(hash)
    requires forall x :: x in Reports(s', u) ==> x in Reports(s, u)
    ensures Blocked(s', u, hash)
  {
    forall i | 0 <= i < |Reports(s', u)|
      ensures !Acks(Reports(s', u)[i], hash)
    {
      assert Reports(s', u)[i] in Reports(s, u);
    }
  }

  lemma BlockedAtPod(s: System, step: Step, u: Uid, hash: string)
    requires Blocked(s, u, hash) && Enabled(s, step) && Spares(step, u) && IsMessage(step) && step.uid == u
    ensures Blocked(Next(s, step), u, hash)
  {
    StepIsSafe(s, step);
    match step
    case ManagerReceive(_) =>
      ReceiveDropsFirst(s, u);
      BlockedFrom(s, Next(s, step), u, hash);
    case ProxyReceive(_, _) =>
      ProxyReceiveDropsOne(s, u);
      BlockedFrom(s, Next(s, step), u, hash);
    case ProxyReport(_, leader) =>
      ReportRepeatsOne(s, u, leader);
      BlockedFrom(s, Next(s, step), u, hash);
  }

  lemma BlockedElsewhere(s: System, s': System, u: Uid, hash: string)
    requires Blocked(s, u, hash) && Safe(s') && ActivePod(s', u) && SameAt(s, s', u)
    ensures Blocked(s', u, hash)
  {
    assert Reports(s', u) == Reports(s, u);
  }

  /** While a pod is blocked no pass acts on any pod, whatever spec it sends and whatever else happens. */
  lemma BlockedStep(s: System, step: Step, u: Uid, hash: string)
    requires Blocked(s, u, hash) && Spares(step, u)
    ensures Blocked(Next(s, step), u, hash) && Actions(s, step) == 0
  {
    if Enabled(s, step) {
      StepIsSafe(s, step);
      if step.Reconcile? {
        BlockedStops(s, step, u, hash);
        ReconciledAt(s.mgr, Listed(s, step.order), step.spec.meta.hash, step.failed, u);
        BlockedElsewhere(s, Next(s, step), u, hash);
      } else if IsMessage(step) && step.uid == u {
        BlockedAtPod(s, step, u, hash);
      } else {
        BlockedElsewhere(s, Next(s, step), u, hash);
      }
    }
  }

  lemma {:induction false} BlockedForever(s: System, steps: seq<Step>, u: Uid, hash: string)
    requires Blocked(s, u, hash) && forall i :: 0 <= i < |steps| ==> Spares(steps[i], u)
    ensures Blocked(Dispatch.Run(s, steps), u, hash) && RunActions(s, steps) == 0
  {
    if steps != [] {
      BlockedForever(s, steps[..|steps| - 1], u, hash);
      BlockedStep(Dispatch.Run(s, steps[..|steps| - 1]), steps[|steps| - 1], u, hash);
    }
  }

  lemma CalmSpares(s: System, step: Step, spec: ProxySpec, u: Uid, hash: string)
    requires Blocked(s, u, hash) && Calm(s, step, spec)
    ensures Spares(step, u)
  {
  }

  // ----- Calm runs as a whole -----

  ghost predicate AllCalm(s: System, steps: seq<Step>, spec: ProxySpec) {
    forall i :: 0 <= i < |steps| ==> Calm(Dispatch.Run(s, steps[..i]), steps[i], spec)
  }

  ghost function RunActions(s: System, steps: seq<Step>): nat {
    if steps == [] then 0
    else RunActions(s, steps[..|steps| - 1]) + Actions(Dispatch.Run(s, steps[..|steps| - 1]), steps[|steps| - 1])
  }

  ghost predicate DropsAt(s: System, steps: seq<Step>, i: nat)
    requires i < |steps|
  {
    Drops(Dispatch.Run(s, steps[..i]), steps[i])
  }

  ghost predicate NoDrops(s: System, steps: seq<Step>) {
    forall i :: 0 <= i < |steps| ==> !DropsAt(s, steps, i)
  }

  lemma SameDrops(s: System, steps: seq<Step>, i: nat)
    requires i < |steps| - 1
    ensures DropsAt(s, steps[..|steps| - 1], i) == DropsAt(s, steps, i)
  {
    assert steps[..|steps| - 1][..i] == steps[..i];
  }

  lemma NoDropsOneMore(s: System, steps: seq<Step>)
    requires steps != []
    ensures NoDrops(s, steps) <==> NoDrops(s, steps[..|steps| - 1]) && !DropsAt(s, steps, |steps| - 1)
  {
    var front := steps[..|steps| - 1];
    if NoDrops(s, steps) {
      forall i | 0 <= i < |front|
        ensures !DropsAt(s, front, i)
      {
        SameDrops(s, steps, i);
      }
    }
    if NoDrops(s, front) && !DropsAt(s, steps, |front|) {
      forall i | 0 <= i < |steps|
        ensures !DropsAt(s, steps, i)
      {
        if i < |front| {
          SameDrops(s, steps, i);
        }
      }
    }
  }

  lemma CalmFront(s: System, steps: seq<Step>, spec: ProxySpec)
    requires AllCalm(s, steps, spec) && steps != []
    ensures AllCalm(s, steps[..|steps| - 1], spec)
    ensures Calm(Dispatch.Run(s, steps[..|steps| - 1]), steps[|steps| - 1], spec)
  {
    var front := steps[..|steps| - 1];
    assert forall i :: 0 <= i < |front| ==> front[..i] == steps[..i];
  }

  /** What is left of the ranks, or the pod that is blocked. */
  ghost predicate Outcome(s: System, spec: ProxySpec, left: int, dropped: bool) {
    && (Settled(s, spec.meta.shard) <==> !dropped)
    && (!dropped ==> Potential(s, spec.meta.hash) <= left)
    && (dropped ==> left >= 0 && exists u :: Blocked(s, u, spec.meta.hash))
  }

  lemma OutcomeStep(s: System, step: Step, spec: ProxySpec, left: int, dropped: bool)
    requires Outcome(s, spec, left, dropped) && Calm(s, step, spec)
    ensures Outcome(Next(s, step), spec, left - Actions(s, step), dropped || Drops(s, step))
  {
    if dropped {
      var u :| Blocked(s, u, spec.meta.hash);
      CalmSpares(s, step, spec, u, spec.meta.hash);
      BlockedStep(s, step, u, spec.meta.hash);
      BlockedIsNotFine(Next(s, step), u, spec.meta.hash, spec.meta.shard);
    } else {
      CalmStep(s, step, spec);
    }
  }

  lemma {:induction false} OutcomeOfRun(s: System, steps: seq<Step>, spec: ProxySpec)
    requires Settled(s, spec.meta.shard) && AllCalm(s, steps, spec)
    ensures Outcome(Dispatch.Run(s, steps), spec, Potential(s, spec.meta.hash) - RunActions(s, steps),
                    !NoDrops(s, steps))
  {
    if steps != [] {
      var front := steps[..|steps| - 1];
      CalmFront(s, steps, spec);
      OutcomeOfRun(s, front, spec);
      NoDropsOneMore(s, steps);
      OutcomeStep(Dispatch.Run(s, front), steps[|steps| - 1], spec,
                  Potential(s, spec.meta.hash) - RunActions(s, front), !NoDrops(s, front));
    }
  }

  /** In a run where the spec is fixed and nothing fails, every update, delete and dispatch uses up rank, so their
      number is bounded by the ranks at the start. The run stays settled exactly when no spec without limits is
      dropped; otherwise some pod is blocked at the end. */
  lemma ActionsAreBounded(s: System, steps: seq<Step>, spec: ProxySpec)
    requires Settled(s, spec.meta.shard) && AllCalm(s, steps, spec)
    ensures RunActions(s, steps) <= Potential(s, spec.meta.hash)
    ensures Settled(Dispatch.Run(s, steps), spec.meta.shard) <==> NoDrops(s, steps)
    ensures NoDrops(s, steps) ==>
              Potential(Dispatch.Run(s, steps), spec.meta.hash) + RunActions(s, steps) <= Potential(s, spec.meta.hash)
    ensures !NoDrops(s, steps) ==> exists u :: Blocked(Dispatch.Run(s, steps), u, spec.meta.hash)
  {
    OutcomeOfRun(s, steps, spec);
  }

  /** With limits nothing is dropped. */
  lemma LimitsSettle(s: System, steps: seq<Step>, spec: ProxySpec)
    requires AllCalm(s, steps, spec) && spec.limits != []
    ensures NoDrops(s, steps)
  {
  }

  const SPEC_NONE := ProxySpec(SpecMeta("s", "n"), [])

  /** A pod connects and is sent a spec without limits. */
  const EMPTY_RUN := [PodCreated(POD), Register("p", None), Reconcile(["p"], SPEC_NONE, {})]

  /** The state of EMPTY_RUN before the spec is sent. */
  const JOINED := System(Manager(map["p" := Connection(0, Status(None, None), 0, false)], map[], {}),
                         map["p" := POD], map["p" := Restarted(EMPTY_DISK, NoFault)], map["p" := Link([], [])],
                         1, {}, map[], {"p"}, 0)

  lemma EmptyRunJoins()
    ensures Dispatch.Run(START, EMPTY_RUN[..2]) == JOINED
  {
    assert EMPTY_RUN[..2][..1][..0] == [];
    var s1 := Next(START, EMPTY_RUN[0]);
    assert Dispatch.Run(START, EMPTY_RUN[..2][..1]) == s1;
    var s2 := Next(s1, EMPTY_RUN[1]);
    assert s2.mgr.conns == JOINED.mgr.conns && s2.mgr.hashExpectation == map[];
    assert s2.pods == JOINED.pods && s2.links == JOINED.links && s2.proxies == JOINED.proxies;
  }

  lemma JoinedIsSettled()
    ensures Settled(JOINED, "s")
  {
    assert JOINED.proxies["p"].memory == Some(Memory(None, None, ""));
    assert Reports(JOINED, "p") == [None, None];
    assert Fine(JOINED, "p", "s");
  }

  lemma JoinedIsBlocked()
    ensures Blocked(Next(JOINED, EMPTY_RUN[2]), "p", "n")
  {
    var step := Reconcile(["p"], SPEC_NONE, {});
    SoloReconcile(JOINED, SPEC_NONE);
    JoinedIsSettled();
    SentAt(JOINED, step, "p", SPEC_NONE);
    DroppedAt(JOINED, ReconcileStep(JOINED, step), "p", SPEC_NONE);
    ReconcileIsSafe(JOINED, step);
  }

  /** It does happen from the start: after this run no pass acts on any pod, whatever is sent later and whatever happens
      to other pods. */
  lemma EmptyLimitsBlock(after: seq<Step>)
    requires forall i :: 0 <= i < |after| ==> Spares(after[i], "p")
    ensures var s := Dispatch.Run(START, EMPTY_RUN); Blocked(s, "p", "n") && RunActions(s, after) == 0
  {
    assert Dispatch.Run(START, EMPTY_RUN) == Next(JOINED, EMPTY_RUN[2]) by {
      EmptyRunJoins();
    }
    JoinedIsBlocked();
    BlockedForever(Dispatch.Run(START, EMPTY_RUN), after, "p", "n");
  }

  /** A state in which no pod is connected yet and every proxy runs, with what it may have loaded for this shard,
      is a possible start. */
  lemma UnconnectedIsSettled(s: System, shard: string)
    requires Safe(s) && s.mgr.conns == map[]
    requires forall u :: ActivePod(s, u) ==> && u in s.links && s.links[u] == Link([], [])
                                             && u in s.proxies && s.proxies[u].memory.Some?
                                             && OfShard(s.proxies[u].memory.value, [], shard)
    ensures Settled(s, shard)
  {
  }

  /** When a settled state is one where a pass goes through and finds nothing to do, every active connected pod
      runs the shard's spec: the proxy itself, not only its last report, has the new hash as expected and current. */
  lemma IdleMeansConverged(s: System, order: seq<Uid>, spec: ProxySpec, u: Uid)
    requires Settled(s, spec.meta.shard) && Listing(s, order) && Passes(Listed(s, order), s.mgr)
    requires Chosen(Listed(s, order), s.mgr, spec.meta.hash) == Nothing
    requires ActivePod(s, u) && u in s.mgr.conns
    ensures s.proxies[u].memory.value.current.Some?
    ensures ReportedMeta(s.proxies[u].memory.value) == Some(MetaState(spec.meta.hash, spec.meta.hash))
    ensures Rank(s, u, spec.meta.hash) == 0
  {
    ListedHasAll(s, order, u);
    assert Inspect(s.pods[u], s.mgr) == Admit;
    IdleIffConverged(Listed(s, order), s.mgr, spec.meta.hash);
    AdmittedReportsAgree(s, u, spec.meta.shard);
    var r := Reports(s, u);
    assert r[1 + |s.links[u].up|] == ReportedMeta(s.proxies[u].memory.value);
  }

  // ----- When the gate opens -----

  /** All messages have arrived: every active pod is connected, has nothing under way and has its present report
      stored; no active pod is under deletion, and no container of an inactive one is running. */
  ghost predicate Quiet(s: System) {
    && (forall u :: ActivePod(s, u) ==>
                      && u in s.mgr.conns && u !in s.mgr.deletionExpectation
                      && u in s.links && s.links[u] == Link([], []) && u in s.proxies && s.proxies[u].memory.Some?
                      && s.mgr.conns[u].status.meta == ReportedMeta(s.proxies[u].memory.value))
    && (forall u :: u in s.pods && !Active(s.pods[u]) ==> s.pods[u].running == 0)
  }

  lemma QuietReports(s: System, u: Uid)
    requires Quiet(s) && ActivePod(s, u)
    ensures Reports(s, u) == [s.mgr.conns[u].status.meta, s.mgr.conns[u].status.meta]
    ensures FinalReport(s, u) == s.mgr.conns[u].status.meta
  {
    assert Metas([]) == [];
  }

  lemma QuietAdmits(s: System, u: Uid, shard: string)
    requires Settled(s, shard) && Quiet(s) && ActivePod(s, u)
    ensures Inspect(s.pods[u], s.mgr) == Admit
  {
    assert s.pods[u].uid == u && Fine(s, u, shard);
    QuietReports(s, u);
    assert Settling(Reports(s, u), Expectation(s.mgr, u));
  }

  /** When all messages have arrived a pass goes through; then it acts on some pod, or every active pod has the spec. */
  lemma QuietPassWorksOrIsDone(s: System, order: seq<Uid>, spec: ProxySpec)
    requires Settled(s, spec.meta.shard) && Quiet(s) && Listing(s, order)
    ensures Passes(Listed(s, order), s.mgr)
    ensures || Targets(Listed(s, order), s.mgr, spec.meta.hash) != {}
            || forall u :: ActivePod(s, u) ==> Rank(s, u, spec.meta.hash) == 0
  {
    var pods := Listed(s, order);
    forall p | p in pods
      ensures Inspect(p, s.mgr) != Stop
    {
      ListedHasAll(s, order, p.uid);
      var v :| v in s.pods && p == s.pods[v];
      if Active(p) {
        assert ActivePod(s, v);
        QuietAdmits(s, v, spec.meta.shard);
      }
    }
    if Targets(pods, s.mgr, spec.meta.hash) == {} {
      assert Chosen(pods, s.mgr, spec.meta.hash) == Nothing;
      forall u | ActivePod(s, u)
        ensures Rank(s, u, spec.meta.hash) == 0
      {
        IdleMeansConverged(s, order, spec, u);
      }
    }
  }
}
