/** The dispatch protocol between the manager and the proxies of one shard, as a transition system.

    Every step of the manager, of a proxy or of the environment may come in any order, with faults.
    A step that is not enabled changes nothing, so every sequence of steps is a run. */
module Dispatch {
  import opened Wrappers
  import opened Specs
  import opened Reconciler

  /** The two directions of a pod's stored connection, oldest message first. */
  datatype Link = Link(down: seq<ProxySpec>, up: seq<Status>)

  /** `pods` is what the manager's cache shows. The last four fields record history: the pods the controller
      has deleted, the hash last sent on each stored connection and not acknowledged on it, the pod
      identities used so far, and how many pods are gone and not yet replaced. */
  datatype System = System(mgr: Manager, pods: map<Uid, Pod>, proxies: map<Uid, Proxy>, links: map<Uid, Link>,
                           nextConn: nat, deleted: set<Uid>, owed: map<Uid, string>, used: set<Uid>, vacant: nat)

  datatype Step =
    | Reconcile(order: seq<Uid>, spec: ProxySpec, failed: set<Uid>)
    | Register(uid: Uid, leader: Option<bool>)
    | ManagerReceive(uid: Uid)
    | Disconnect(uid: Uid, conn: nat)
    | ProxyReceive(uid: Uid, fault: Fault)
    | ProxyReport(uid: Uid, leader: Option<bool>)
    | ProxyCrash(uid: Uid)
    | ProxyRestart(uid: Uid, fault: Fault)
    | PodCreated(pod: Pod)
    | PodChanged(pod: Pod)
    | PodGone(uid: Uid)

  ghost predicate Listing(s: System, order: seq<Uid>) {
    NoRepeats(order) && Elements(order) == s.pods.Keys
  }

  ghost function Listed(s: System, order: seq<Uid>): seq<Pod>
    requires Listing(s, order)
  {
    seq(|order|, i requires 0 <= i < |order| => assert order[i] in Elements(order); s.pods[order[i]])
  }

  ghost predicate Enabled(s: System, step: Step) {
    match step
    case Reconcile(order, _, _) => Listing(s, order)
    case Register(u, _) => u in s.pods && Active(s.pods[u]) && u in s.proxies && s.proxies[u].memory.Some?
    case ManagerReceive(u) => u in s.mgr.conns && u in s.links && s.links[u].up != []
    case Disconnect(u, k) => u in s.mgr.conns && k <= s.mgr.conns[u].id
    case ProxyReceive(u, _) => u in s.proxies && s.proxies[u].memory.Some? && u in s.links && s.links[u].down != []
    case ProxyReport(u, _) => u in s.mgr.conns && u in s.links && u in s.proxies && s.proxies[u].memory.Some?
                              && ReportedMeta(s.proxies[u].memory.value).Some?
    case ProxyCrash(u) => u in s.proxies
    case ProxyRestart(u, _) => u in s.proxies && s.proxies[u].memory.None?
    case PodCreated(p) => p.uid !in s.used
    case PodChanged(p) => p.uid in s.pods && (Active(p) ==> Active(s.pods[p.uid]))
    case PodGone(u) => u in s.pods
  }

  /** The pods a reconcile step acts on with success. */
  ghost function Acted(s: System, step: Step): set<Uid>
    requires step.Reconcile? && Enabled(s, step)
  {
    Targets(Listed(s, step.order), s.mgr, step.spec.meta.hash) - step.failed
  }

  ghost predicate Sends(s: System, step: Step)
    requires step.Reconcile? && Enabled(s, step)
  {
    Sending(Listed(s, step.order), s.mgr, step.spec.meta.hash)
  }

  ghost predicate Deletes(s: System, step: Step)
    requires step.Reconcile? && Enabled(s, step)
  {
    Deleting(Listed(s, step.order), s.mgr, step.spec.meta.hash)
  }

  ghost function SentLinks(links: map<Uid, Link>, us: set<Uid>, spec: ProxySpec): map<Uid, Link> {
    map u | u in links :: if u in us then links[u].(down := links[u].down + [spec]) else links[u]
  }

  /** Pods sent `hash` that have not reported it as expected yet. */
  ghost function Unacknowledged(m: Manager, us: set<Uid>, hash: string): map<Uid, string> {
    map u | u in us && u in m.conns && !Acknowledged(m.conns[u].status, hash) :: hash
  }

  ghost function ReconcileStep(s: System, step: Step): System
    requires step.Reconcile? && Enabled(s, step)
  {
    var us := Acted(s, step);
    var s1 := s.(mgr := Reconciled(s.mgr, Listed(s, step.order), step.spec.meta.hash, step.failed));
    if Deletes(s, step) then s1.(deleted := s.deleted + us)
    else if Sends(s, step) then
      s1.(links := SentLinks(s.links, us, step.spec),
          owed := (s.owed - us) + Unacknowledged(s.mgr, us, step.spec.meta.hash))
    else s1
  }

  ghost function RegisterStep(s: System, u: Uid, leader: Option<bool>): System
    requires Enabled(s, Register(u, leader))
  {
    var status := Status(ReportedMeta(s.proxies[u].memory.value), leader);
    s.(mgr := Registered(s.mgr, u, s.nextConn, status),
       links := s.links[u := Link([], [])], nextConn := s.nextConn + 1, owed := s.owed - {u})
  }

  ghost function ReceiveStep(s: System, u: Uid): System
    requires Enabled(s, ManagerReceive(u))
  {
    var status := s.links[u].up[0];
    s.(mgr := Reported(s.mgr, u, s.mgr.conns[u].id, status),
       links := s.links[u := s.links[u].(up := s.links[u].up[1..])],
       owed := if u in s.owed && Acknowledged(status, s.owed[u]) then s.owed - {u} else s.owed)
  }

  /** The end of connection `k` drops the pod's hash expectation whichever connection is stored. */
  ghost function DisconnectStep(s: System, u: Uid, k: nat): System
    requires Enabled(s, Disconnect(u, k))
  {
    s.(mgr := Ended(s.mgr, u, k), owed := if s.mgr.conns[u].id == k then s.owed - {u} else s.owed)
  }

  /** A proxy drops a spec without limits. */
  ghost function ProxyReceiveStep(s: System, u: Uid, fault: Fault): System
    requires Enabled(s, ProxyReceive(u, fault))
  {
    var spec := s.links[u].down[0];
    var p := s.proxies[u];
    s.(proxies := if spec.limits == [] then s.proxies
                  else s.proxies[u := Specs.Update(p.memory.value, p.disk, spec, fault)],
       links := s.links[u := s.links[u].(down := s.links[u].down[1..])])
  }

  ghost function Next(s: System, step: Step): System {
    if !Enabled(s, step) then s else
    match step
    case Reconcile(_, _, _) => ReconcileStep(s, step)
    case Register(u, leader) => RegisterStep(s, u, leader)
    case ManagerReceive(u) => ReceiveStep(s, u)
    case Disconnect(u, k) => DisconnectStep(s, u, k)
    case ProxyReceive(u, fault) => ProxyReceiveStep(s, u, fault)
    case ProxyReport(u, leader) =>
      var l := s.links[u];
      s.(links := s.links[u := l.(up := l.up + [Status(ReportedMeta(s.proxies[u].memory.value), leader)])])
    case ProxyCrash(u) => s.(proxies := s.proxies[u := s.proxies[u].(memory := None)])
    case ProxyRestart(u, fault) => s.(proxies := s.proxies[u := Restarted(s.proxies[u].disk, fault)])
    case PodCreated(p) =>
      s.(pods := s.pods[p.uid := p], proxies := s.proxies[p.uid := Restarted(EMPTY_DISK, NoFault)],
         links := s.links[p.uid := Link([], [])], used := s.used + {p.uid},
         vacant := if s.vacant > 0 then s.vacant - 1 else 0)
    case PodChanged(p) => s.(pods := s.pods[p.uid := p])
    case PodGone(u) =>
      s.(pods := s.pods - {u}, vacant := s.vacant + 1, mgr := Forgotten(s.mgr, u))
  }

  const START := System(Manager(map[], map[], {}), map[], map[], map[], 0, {}, map[], {}, 0)

  ghost function Run(s: System, steps: seq<Step>): System {
    if steps == [] then s else Next(Run(s, steps[..|steps| - 1]), steps[|steps| - 1])
  }

  // ----- One outstanding hash, and pods under deletion stay marked -----

  ghost predicate ActivePod(s: System, u: Uid) {
    u in s.pods && Active(s.pods[u])
  }

  ghost predicate OneHash(s: System) {
    forall u, v :: u in s.mgr.hashExpectation && v in s.mgr.hashExpectation && ActivePod(s, u) && ActivePod(s, v) ==>
                     s.mgr.hashExpectation[u] == s.mgr.hashExpectation[v]
  }

  ghost predicate Safe(s: System) {
    && s.mgr.hashExpectation.Keys <= s.mgr.conns.Keys <= s.used
    && s.pods.Keys <= s.used
    && s.deleted <= s.used
    && s.owed.Keys <= s.used
    && (forall u :: u in s.pods ==> s.pods[u].uid == u)
    && s.deleted * s.pods.Keys <= s.mgr.deletionExpectation
    && OneHash(s)
  }

  lemma ListedHasAll(s: System, order: seq<Uid>, u: Uid)
    requires Listing(s, order)
    ensures u in s.pods ==> s.pods[u] in Listed(s, order)
    ensures forall p :: p in Listed(s, order) ==> exists v :: v in s.pods && p == s.pods[v]
  {
    if u in s.pods {
      assert u in Elements(order);
      var i :| 0 <= i < |order| && order[i] == u;
      assert Listed(s, order)[i] == s.pods[u];
    }
    forall p | p in Listed(s, order)
      ensures exists v :: v in s.pods && p == s.pods[v]
    {
      var i :| 0 <= i < |order| && Listed(s, order)[i] == p;
      assert order[i] in Elements(order);
    }
  }

  /** After a pass that gets through, no active pod has an expectation left. */
  lemma GateEmptiesExpectations(s: System, order: seq<Uid>, u: Uid)
    requires Safe(s) && Listing(s, order) && Passes(Listed(s, order), s.mgr) && ActivePod(s, u)
    ensures u !in Gated(s.mgr, Listed(s, order)).hashExpectation
  {
    ListedHasAll(s, order, u);
    PassClearsExpectations(Listed(s, order), s.mgr, s.pods[u]);
  }

  lemma ActedPod(s: System, step: Step, u: Uid)
    requires Safe(s) && step.Reconcile? && Enabled(s, step) && u in Acted(s, step)
    ensures ActivePod(s, u) && u in s.mgr.conns && u !in s.mgr.deletionExpectation
    ensures Classify(s.mgr.conns[u], step.spec.meta.hash) == Chosen(Listed(s, step.order), s.mgr, step.spec.meta.hash)
    ensures Inspect(s.pods[u], s.mgr) == Admit
  {
    var pods := Listed(s, step.order);
    TargetsAreAdmitted(pods, s.mgr, step.spec.meta.hash, u);
    var p :| p in pods && p.uid == u && Active(p) && Inspect(p, s.mgr) == Admit;
    ListedHasAll(s, step.order, u);
  }

  /** What a reconcile step leaves of the expectations: none but the new ones after sending, and a part of
      the old ones otherwise. */
  lemma ReconcileExpectations(s: System, step: Step, u: Uid)
    requires Safe(s) && step.Reconcile? && Enabled(s, step) && ActivePod(s, u)
    requires u in ReconcileStep(s, step).mgr.hashExpectation
    ensures var h := ReconcileStep(s, step).mgr.hashExpectation[u];
            if Sends(s, step) then u in Acted(s, step) && h == step.spec.meta.hash
            else u in s.mgr.hashExpectation && h == s.mgr.hashExpectation[u]
  {
    ReconciledAt(s.mgr, Listed(s, step.order), step.spec.meta.hash, step.failed, u);
    if Sends(s, step) {
      GateEmptiesExpectations(s, step.order, u);
    }
  }

  lemma ReconcileKeepsOneHash(s: System, step: Step)
    requires Safe(s) && step.Reconcile? && Enabled(s, step)
    ensures OneHash(ReconcileStep(s, step))
  {
    var s' := ReconcileStep(s, step);
    forall u, v | u in s'.mgr.hashExpectation && v in s'.mgr.hashExpectation && ActivePod(s', u) && ActivePod(s', v)
      ensures s'.mgr.hashExpectation[u] == s'.mgr.hashExpectation[v]
    {
      ReconcileExpectations(s, step, u);
      ReconcileExpectations(s, step, v);
    }
  }

  lemma ReconcileKeys(m: Manager, pods: seq<Pod>, hash: string, failed: set<Uid>)
    ensures var r := Reconciled(m, pods, hash, failed);
            && r.conns.Keys == m.conns.Keys
            && r.hashExpectation.Keys <= m.hashExpectation.Keys + (Targets(pods, m, hash) - failed)
            && r.deletionExpectation == if Deleting(pods, m, hash)
                                        then m.deletionExpectation + (Targets(pods, m, hash) - failed)
                                        else m.deletionExpectation
  {
  }

  lemma ReconcileKeepsTables(s: System, step: Step)
    requires Safe(s) && step.Reconcile? && Enabled(s, step)
    ensures var s' := ReconcileStep(s, step);
            && s'.mgr.hashExpectation.Keys <= s'.mgr.conns.Keys <= s.used
            && s'.deleted <= s.used && s'.owed.Keys <= s.used
            && s'.deleted * s.pods.Keys <= s'.mgr.deletionExpectation
  {
    ReconcileKeys(s.mgr, Listed(s, step.order), step.spec.meta.hash, step.failed);
    forall u | u in Acted(s, step)
      ensures u in s.mgr.conns && u in s.pods
    {
      ActedPod(s, step, u);
    }
  }

  lemma ReconcileIsSafe(s: System, step: Step)
    requires Safe(s) && step.Reconcile? && Enabled(s, step)
    ensures Safe(ReconcileStep(s, step))
  {
    ReconcileKeepsOneHash(s, step);
    ReconcileKeepsTables(s, step);
  }

  lemma StepIsSafe(s: System, step: Step)
    requires Safe(s)
    ensures Safe(Next(s, step))
  {
    if step.Reconcile? && Enabled(s, step) {
      ReconcileIsSafe(s, step);
    }
  }

  /** In every reachable state the outstanding hash expectations of the shard's active pods carry one hash
      and belong to pods with a stored connection, and every pod the controller has deleted and still sees
      is marked as under deletion. */
  lemma {:induction false} AlwaysSafe(steps: seq<Step>)
    ensures Safe(Run(START, steps))
  {
    if steps != [] {
      AlwaysSafe(steps[..|steps| - 1]);
      StepIsSafe(Run(START, steps[..|steps| - 1]), steps[|steps| - 1]);
    }
  }

  // ----- Deletion -----

  ghost predicate ReportedStale(s: System, u: Uid) {
    u in s.mgr.conns && s.mgr.conns[u].status.meta.Some?
    && s.mgr.conns[u].status.meta.value.expectedHash != s.mgr.conns[u].status.meta.value.currentHash
  }

  ghost predicate ReportedLeader(s: System, u: Uid) {
    u in s.mgr.conns && s.mgr.conns[u].status.leader == Some(true)
  }

  /** Whenever a reconcile step deletes pods, after any run: it sends nothing; every pod it deletes had
      reported different hashes and was never deleted before; every pod deleted earlier that is still seen is inactive
      without a running container; and if a leader is among the deleted, no active connected non-leader is stale. */
  lemma LeaderLast(steps: seq<Step>, step: Step)
    requires step.Reconcile? && Enabled(Run(START, steps), step) && Deletes(Run(START, steps), step)
    ensures var s, us := Run(START, steps), Acted(Run(START, steps), step);
            var s' := Next(s, step);
            && s'.links == s.links && s'.mgr.conns == s.mgr.conns
            && (forall u :: u in us ==> ReportedStale(s, u) && u !in s.deleted)
            && (forall d :: d in s.deleted && d in s.pods ==> !Active(s.pods[d]) && s.pods[d].running == 0)
            && ((exists u :: u in us && ReportedLeader(s, u)) ==>
                  forall v :: ActivePod(s, v) && ReportedStale(s, v) ==> ReportedLeader(s, v))
  {
    AlwaysSafe(steps);
    var s := Run(START, steps);
    var us, pods, hash := Acted(s, step), Listed(s, step.order), step.spec.meta.hash;
    forall u | u in us
      ensures ReportedStale(s, u) && u !in s.deleted
      ensures ReportedLeader(s, u) <==> Chosen(pods, s.mgr, hash) == DeleteLeader
    {
      ActedPod(s, step, u);
    }
    forall v | v in s.pods
      ensures Inspect(s.pods[v], s.mgr) != Stop
    {
      ListedHasAll(s, step.order, v);
    }
    if Chosen(pods, s.mgr, hash) == DeleteLeader {
      forall v | ActivePod(s, v) && ReportedStale(s, v)
        ensures ReportedLeader(s, v)
      {
        ListedHasAll(s, step.order, v);
        assert Inspect(s.pods[v], s.mgr) == Admit;
        assert !ReportedLeader(s, v) ==> v in Members(pods, s.mgr, hash, DeleteNonLeader);
      }
    }
  }

  /** The pod has loaded a spec other than that of the hash. */
  ghost predicate ReportedOther(s: System, u: Uid, hash: string) {
    u in s.mgr.conns && s.mgr.conns[u].status.meta.Some? && s.mgr.conns[u].status.meta.value.expectedHash != hash
  }

  /** Whenever a reconcile step sends, after any run: no active connected pod is stale, every active pod that is ready
      or was created just now is connected, every pod deleted earlier that is still seen is inactive without a running
      container, and first specs are sent only when no active connected pod has another one. */
  lemma SendsComeLast(steps: seq<Step>, step: Step)
    requires step.Reconcile? && Enabled(Run(START, steps), step) && Sends(Run(START, steps), step)
    ensures var s, hash := Run(START, steps), step.spec.meta.hash;
            && (forall v :: ActivePod(s, v) ==>
                  && !ReportedStale(s, v)
                  && (s.pods[v].phase == Phase.Running && s.pods[v].ready ==> v in s.mgr.conns)
                  && (s.pods[v].phase == Phase.Pending && s.pods[v].young ==> v in s.mgr.conns))
            && (forall d :: d in s.deleted && d in s.pods ==> !Active(s.pods[d]) && s.pods[d].running == 0)
            && ((exists v :: ActivePod(s, v) && ReportedOther(s, v, hash)) ==>
                  forall u :: u in Acted(s, step) ==> ReportedOther(s, u, hash))
  {
    AlwaysSafe(steps);
    var s, hash := Run(START, steps), step.spec.meta.hash;
    var pods := Listed(s, step.order);
    PassesIff(pods, s.mgr);
    WorkInOrder(pods, s.mgr, hash);
    forall v | v in s.pods
      ensures Calmed(s.pods[v], s.mgr)
      ensures ActivePod(s, v) && v in s.mgr.conns ==> v in Linked(pods, s.mgr)
    {
      ListedHasAll(s, step.order, v);
    }
    if v :| ActivePod(s, v) && ReportedOther(s, v, hash) {
      assert v in OtherPods(pods, s.mgr, hash);
    }
    forall v | ActivePod(s, v)
      ensures !ReportedStale(s, v)
    {
      assert ReportedStale(s, v) ==> v in StalePods(pods, s.mgr);
    }
  }

  // ----- A new spec waits for the acknowledgement of the previous one -----

  /** Every pod that still owes an acknowledgement has an expectation that blocks the controller. */
  ghost predicate Waiting(s: System) {
    forall u :: u in s.owed && ActivePod(s, u) ==>
                  && u in s.mgr.hashExpectation && s.mgr.hashExpectation[u] == s.owed[u]
                  && u in s.mgr.conns && !Acknowledged(s.mgr.conns[u].status, s.owed[u])
  }

  /** The end of a connection that has been replaced is not noticed after its successor was sent a spec. */
  ghost predicate Timely(s: System, step: Step) {
    step.Disconnect? && Enabled(s, step) ==>
      step.conn == s.mgr.conns[step.uid].id || step.uid !in s.owed || !ActivePod(s, step.uid)
  }

  ghost predicate TimelyAt(steps: seq<Step>, i: nat)
    requires i < |steps|
  {
    Timely(Run(START, steps[..i]), steps[i])
  }

  ghost predicate AllTimely(steps: seq<Step>) {
    forall i :: 0 <= i < |steps| ==> TimelyAt(steps, i)
  }

  ghost predicate WaitingAt(steps: seq<Step>, i: nat)
    requires i <= |steps|
  {
    Waiting(Run(START, steps[..i]))
  }

  ghost predicate WaitingThroughout(steps: seq<Step>) {
    forall i :: 0 <= i <= |steps| ==> WaitingAt(steps, i)
  }

  lemma PassMeansNothingOwed(s: System, order: seq<Uid>)
    requires Safe(s) && Waiting(s) && Listing(s, order) && Passes(Listed(s, order), s.mgr)
    ensures forall u :: u in s.owed ==> !ActivePod(s, u)
  {
    forall u | u in s.owed
      ensures !ActivePod(s, u)
    {
      if ActivePod(s, u) {
        OwedNotAdmitted(s, order, u);
      }
    }
  }

  /** A pod that owes an acknowledgement is never let through, so its expectation is not dropped. */
  lemma OwedNotAdmitted(s: System, order: seq<Uid>, u: Uid)
    requires Safe(s) && Waiting(s) && Listing(s, order) && u in s.owed && ActivePod(s, u)
    ensures u in Gated(s.mgr, Listed(s, order)).hashExpectation
    ensures !Passes(Listed(s, order), s.mgr)
  {
    ListedHasAll(s, order, u);
    var pods := Listed(s, order);
    forall p | p in pods && p.uid == u
      ensures Inspect(p, s.mgr) == Stop
    {
    }
  }

  lemma ReconcileKeepsWaiting(s: System, step: Step)
    requires Safe(s) && Waiting(s) && step.Reconcile? && Enabled(s, step)
    ensures Waiting(ReconcileStep(s, step))
  {
    var s' := ReconcileStep(s, step);
    forall u | u in s'.owed && ActivePod(s', u)
      ensures u in s'.mgr.hashExpectation && s'.mgr.hashExpectation[u] == s'.owed[u]
      ensures u in s'.mgr.conns && !Acknowledged(s'.mgr.conns[u].status, s'.owed[u])
    {
      ReconciledAt(s.mgr, Listed(s, step.order), step.spec.meta.hash, step.failed, u);
      if u in s.owed {
        OwedNotAdmitted(s, step.order, u);
      }
    }
  }

  /** Exactly the timely steps keep every owed acknowledgement guarded by an expectation. */
  lemma StepKeepsWaitingIff(s: System, step: Step)
    requires Safe(s) && Waiting(s)
    ensures Waiting(Next(s, step)) <==> Timely(s, step)
  {
    if step.Reconcile? && Enabled(s, step) {
      ReconcileKeepsWaiting(s, step);
    } else if step.Disconnect? && Enabled(s, step) && !Timely(s, step) {
      assert step.uid in Next(s, step).owed;
    }
  }

  lemma {:induction false} AlwaysWaiting(steps: seq<Step>)
    requires AllTimely(steps)
    ensures Waiting(Run(START, steps))
  {
    if steps != [] {
      var front := steps[..|steps| - 1];
      TimelyOneMore(steps);
      AlwaysWaiting(front);
      AlwaysSafe(front);
      StepKeepsWaitingIff(Run(START, front), steps[|steps| - 1]);
    }
  }

  /** All owed acknowledgements are guarded at every point of a run exactly when no late disconnect is in it. */
  lemma {:induction false} WaitingThroughoutIff(steps: seq<Step>)
    ensures WaitingThroughout(steps) <==> AllTimely(steps)
  {
    if steps != [] {
      var front, last := steps[..|steps| - 1], steps[|steps| - 1];
      WaitingThroughoutIff(front);
      AlwaysSafe(front);
      TimelyOneMore(steps);
      WaitingOneMore(steps);
      if WaitingThroughout(front) {
        assert WaitingAt(front, |front|) && front[..|front|] == front;
        StepKeepsWaitingIff(Run(START, front), last);
        assert steps[..|steps|] == steps;
      }
    }
  }

  lemma SameBefore(steps: seq<Step>, i: nat)
    requires i < |steps|
    ensures WaitingAt(steps[..|steps| - 1], i) == WaitingAt(steps, i)
    ensures i < |steps| - 1 ==> TimelyAt(steps[..|steps| - 1], i) == TimelyAt(steps, i)
  {
    assert steps[..|steps| - 1][..i] == steps[..i];
  }

  lemma TimelyOneMore(steps: seq<Step>)
    requires steps != []
    ensures AllTimely(steps) <==> AllTimely(steps[..|steps| - 1]) && TimelyAt(steps, |steps| - 1)
  {
    var front := steps[..|steps| - 1];
    if AllTimely(steps) {
      forall i | 0 <= i < |front|
        ensures TimelyAt(front, i)
      {
        SameBefore(steps, i);
      }
    }
    if AllTimely(front) && TimelyAt(steps, |front|) {
      forall i | 0 <= i < |steps|
        ensures TimelyAt(steps, i)
      {
        if i < |front| {
          SameBefore(steps, i);
        }
      }
    }
  }

  lemma WaitingOneMore(steps: seq<Step>)
    requires steps != []
    ensures WaitingThroughout(steps) <==> WaitingThroughout(steps[..|steps| - 1]) && WaitingAt(steps, |steps|)
  {
    var front := steps[..|steps| - 1];
    if WaitingThroughout(steps) {
      forall i | 0 <= i <= |front|
        ensures WaitingAt(front, i)
      {
        SameBefore(steps, i);
      }
    }
    if WaitingThroughout(front) && WaitingAt(steps, |steps|) {
      forall i | 0 <= i <= |steps|
        ensures WaitingAt(steps, i)
      {
        if i < |steps| {
          SameBefore(steps, i);
        }
      }
    }
  }

  /** In a run without late disconnects, a reconcile step acts on pods only when no active pod owes an
      acknowledgement of an earlier spec. */
  lemma SendWaitsForAcknowledgements(steps: seq<Step>, step: Step)
    requires AllTimely(steps)
    requires step.Reconcile? && Enabled(Run(START, steps), step)
    requires Targets(Listed(Run(START, steps), step.order), Run(START, steps).mgr, step.spec.meta.hash) != {}
    ensures forall u :: u in Run(START, steps).owed ==> !ActivePod(Run(START, steps), u)
  {
    AlwaysSafe(steps);
    AlwaysWaiting(steps);
    PassMeansNothingOwed(Run(START, steps), step.order);
  }

  const POD := Pod("p", Running, false, false, 1, false)
  const SPEC_A := ProxySpec(SpecMeta("s", "a"), ["x"])
  const SPEC_B := ProxySpec(SpecMeta("s", "b"), ["y"])

  /** A pod connects twice and is sent spec a; then the end of its first connection is noticed. */
  const LATE_RUN := [PodCreated(POD), Register("p", None), Register("p", None),
                     Reconcile(["p"], SPEC_A, {}), Disconnect("p", 0)]

  /** The state of LATE_RUN before spec a is sent. */
  const CONNECTED := System(Manager(map["p" := Connection(1, Status(None, None), 0, false)], map[], {}),
                            map["p" := POD], map["p" := Restarted(EMPTY_DISK, NoFault)], map["p" := Link([], [])],
                            2, {}, map[], {"p"}, 0)

  lemma LateRunConnects()
    ensures Run(START, LATE_RUN[..3]) == CONNECTED
  {
    assert LATE_RUN[..3][..2][..1][..0] == [];
    var s1 := Next(START, LATE_RUN[0]);
    assert Run(START, LATE_RUN[..3][..2][..1]) == s1;
    var s2 := Next(s1, LATE_RUN[1]);
    assert Run(START, LATE_RUN[..3][..2]) == s2;
    var s3 := Next(s2, LATE_RUN[2]);
    assert Run(START, LATE_RUN[..3]) == s3;
    assert s3.mgr.conns == CONNECTED.mgr.conns && s3.mgr.hashExpectation == map[];
    assert s3.pods == CONNECTED.pods && s3.links == CONNECTED.links && s3.proxies == CONNECTED.proxies;
  }

  lemma LateRunSends()
    ensures var s := Next(CONNECTED, Reconcile(["p"], SPEC_A, {}));
            && s.owed == map["p" := "a"] && s.pods == CONNECTED.pods && s.mgr.deletionExpectation == {}
            && s.mgr.conns == map["p" := Connection(1, Status(None, None), 1, false)]
  {
    SoloReconcile(CONNECTED, SPEC_A);
    var step := Reconcile(["p"], SPEC_A, {});
    assert Targets(Listed(CONNECTED, ["p"]), CONNECTED.mgr, "a") == {"p"} by {
      assert Acted(CONNECTED, step) == {"p"};
    }
  }

  lemma LateRunDisconnects(sent: System)
    requires sent.pods == CONNECTED.pods && sent.mgr.deletionExpectation == {} && sent.owed == map["p" := "a"]
    requires sent.mgr.conns == map["p" := Connection(1, Status(None, None), 1, false)]
    ensures var s, step := Next(sent, Disconnect("p", 0)), Reconcile(["p"], SPEC_B, {});
            && ActivePod(s, "p") && "p" in s.owed && s.owed["p"] == "a"
            && Enabled(s, step) && Sends(s, step) && Acted(s, step) == {"p"}
  {
    var s := DisconnectStep(sent, "p", 0);
    assert s == Next(sent, Disconnect("p", 0));
    SoloReconcile(s, SPEC_B);
  }

  /** The property does fail with a late disconnect: spec b is sent while spec a is not acknowledged. */
  lemma LateDisconnectLosesExpectation()
    ensures var s, step := Run(START, LATE_RUN), Reconcile(["p"], SPEC_B, {});
            && ActivePod(s, "p") && "p" in s.owed && s.owed["p"] == "a"
            && Enabled(s, step) && Sends(s, step) && Acted(s, step) == {"p"}
  {
    var sent := Next(CONNECTED, LATE_RUN[3]);
    assert Run(START, LATE_RUN[..4]) == sent by {
      LateRunConnects();
      assert LATE_RUN[..4][..3] == LATE_RUN[..3];
    }
    assert Run(START, LATE_RUN) == Next(sent, Disconnect("p", 0));
    LateRunSends();
    LateRunDisconnects(sent);
  }

  /** A single pod that is connected and has reported nothing is sent the spec. */
  lemma SoloReconcile(s: System, spec: ProxySpec)
    requires s.pods == map["p" := POD] && "p" in s.mgr.conns && "p" !in s.mgr.hashExpectation
    requires s.mgr.deletionExpectation == {} && s.mgr.conns["p"].status.meta == None && !s.mgr.conns["p"].disconnected
    ensures var step := Reconcile(["p"], spec, {});
            && Enabled(s, step) && Sends(s, step) && Acted(s, step) == {"p"}
  {
    var step := Reconcile(["p"], spec, {});
    assert Elements(["p"]) == {"p"};
    assert Enabled(s, step);
    var pods := Listed(s, ["p"]);
    assert pods == [POD];
    assert Members(pods, s.mgr, spec.meta.hash, Work.Dispatch) == {"p"};
  }
}
