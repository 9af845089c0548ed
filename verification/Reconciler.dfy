/** One pass of the sharding-config controller over the pods of a shard: wait until every pod
    is settled, sort the pods into work lists, and act on one list only. */
module Reconciler {
  import opened Wrappers
  import opened Specs

  type Uid = string

  datatype Phase = Pending | Running | Succeeded | Failed | Unknown

  /** `running` counts the running containers; `young` says that the pod was created less than a minute ago. */
  datatype Pod = Pod(uid: Uid, phase: Phase, deleting: bool, ready: bool, running: nat, young: bool)

  datatype Status = Status(meta: Option<MetaState>, leader: Option<bool>)

  /** A stored connection; `id` tells one connection of a pod from a later one. */
  datatype Connection = Connection(id: nat, status: Status, sendTimes: nat, disconnected: bool)

  /** The manager's shared tables: stored connections and the two expectation tables. */
  datatype Manager = Manager(conns: map<Uid, Connection>, hashExpectation: map<Uid, string>,
                             deletionExpectation: set<Uid>)

  predicate Active(p: Pod) {
    p.phase != Succeeded && p.phase != Failed && !p.deleting
  }

  // ----- Gating -----

  datatype Verdict = Stop | Ignore | Admit

  /** What the first loop decides about one pod. */
  function Inspect(p: Pod, m: Manager): Verdict {
    if !Active(p) then
      if p.running > 0 then Stop else Ignore
    else if p.uid in m.deletionExpectation then Stop
    else if p.uid !in m.conns then
      if (p.phase == Running && p.ready) || (p.phase == Pending && p.young) then Stop else Ignore
    else
      var c := m.conns[p.uid];
      if c.disconnected then Stop
      else if p.uid in m.hashExpectation && !Acknowledged(c.status, m.hashExpectation[p.uid]) then Stop
      else Admit
  }

  predicate Acknowledged(status: Status, hash: string) {
    status.meta.Some? && status.meta.value.expectedHash == hash
  }

  ghost predicate Passes(pods: seq<Pod>, m: Manager) {
    forall p :: p in pods ==> Inspect(p, m) != Stop
  }

  ghost predicate Distinct(pods: seq<Pod>) {
    forall i, j :: 0 <= i < j < |pods| ==> pods[i].uid != pods[j].uid
  }

  /** How many pods are looked at before the first that stops the pass. */
  function Scanned(pods: seq<Pod>, m: Manager): (n: nat)
    ensures n <= |pods|
    ensures forall i :: 0 <= i < n ==> Inspect(pods[i], m) != Stop
    ensures n < |pods| ==> Inspect(pods[n], m) == Stop
  {
    if pods == [] || Inspect(pods[0], m) == Stop then 0 else 1 + Scanned(pods[1..], m)
  }

  function Admitted(pods: seq<Pod>, m: Manager): set<Uid> {
    set p | p in pods && Inspect(p, m) == Admit :: p.uid
  }

  // ----- Work lists -----

  datatype Work = DeleteNonLeader | DeleteLeader | Update | Dispatch | Nothing

  /** The list a pod with this connection goes to, when the shard's hash is `hash`. */
  function Classify(c: Connection, hash: string): Work {
    if c.status.meta.None? then Dispatch
    else
      var meta := c.status.meta.value;
      if meta.expectedHash != meta.currentHash then
        if c.status.leader == Some(true) then DeleteLeader else DeleteNonLeader
      else if hash != meta.expectedHash then Update
      else if c.sendTimes == 0 then Dispatch
      else Nothing
  }

  ghost function Members(pods: seq<Pod>, m: Manager, hash: string, w: Work): set<Uid> {
    set p | p in pods && Inspect(p, m) == Admit && Classify(m.conns[p.uid], hash) == w :: p.uid
  }

  /** The one list that is acted on. */
  ghost function Chosen(pods: seq<Pod>, m: Manager, hash: string): Work {
    if Members(pods, m, hash, DeleteNonLeader) != {} then DeleteNonLeader
    else if Members(pods, m, hash, DeleteLeader) != {} then DeleteLeader
    else if Members(pods, m, hash, Update) != {} then Update
    else if Members(pods, m, hash, Dispatch) != {} then Dispatch
    else Nothing
  }

  ghost function Targets(pods: seq<Pod>, m: Manager, hash: string): set<Uid> {
    if !Passes(pods, m) || Chosen(pods, m, hash) == Nothing then {}
    else Members(pods, m, hash, Chosen(pods, m, hash))
  }

  ghost predicate Deleting(pods: seq<Pod>, m: Manager, hash: string) {
    Passes(pods, m) && Chosen(pods, m, hash) in {DeleteNonLeader, DeleteLeader}
  }

  ghost predicate Sending(pods: seq<Pod>, m: Manager, hash: string) {
    Passes(pods, m) && Chosen(pods, m, hash) in {Update, Dispatch}
  }

  ghost function Bumped(conns: map<Uid, Connection>, us: set<Uid>): map<Uid, Connection> {
    map u | u in conns :: if u in us then conns[u].(sendTimes := conns[u].sendTimes + 1) else conns[u]
  }

  /** The tables after acting on the pods `us` of class `w`; pods in `failed` are those whose delete or
      send call returns an error. */
  ghost function Performed(m: Manager, w: Work, us: set<Uid>, hash: string, failed: set<Uid>): Manager {
    match w
    case DeleteNonLeader => m.(deletionExpectation := m.deletionExpectation + (us - failed))
    case DeleteLeader => m.(deletionExpectation := m.deletionExpectation + (us - failed))
    case Update => m.(conns := Bumped(m.conns, us), hashExpectation := m.hashExpectation + Constant(us - failed, hash))
    case Dispatch =>
      m.(conns := Bumped(m.conns, us), hashExpectation := m.hashExpectation + Constant(us - failed, hash))
    case Nothing => m
  }

  /** The tables after the first loop. Expectations met by the scanned pods are dropped even when a later
      pod stops the pass. */
  ghost function Gated(m: Manager, pods: seq<Pod>): Manager {
    m.(hashExpectation := m.hashExpectation - Admitted(pods[..Scanned(pods, m)], m))
  }

  /** The tables after the pass. */
  ghost function Reconciled(m: Manager, pods: seq<Pod>, hash: string, failed: set<Uid>): Manager {
    if Passes(pods, m) then Performed(Gated(m, pods), Chosen(pods, m, hash), Targets(pods, m, hash), hash, failed)
    else Gated(m, pods)
  }

  // ----- What a pass guarantees -----

  lemma ScannedAll(pods: seq<Pod>, m: Manager)
    ensures Passes(pods, m) <==> Scanned(pods, m) == |pods|
  {
    if Scanned(pods, m) < |pods| {
      assert pods[Scanned(pods, m)] in pods;
    }
  }

  /** A pass that gets through drops every expectation of an active pod. */
  lemma PassClearsExpectations(pods: seq<Pod>, m: Manager, p: Pod)
    requires Passes(pods, m) && p in pods && Active(p)
    requires p.uid in m.hashExpectation ==> p.uid in m.conns
    ensures p.uid !in Gated(m, pods).hashExpectation
  {
    ScannedAll(pods, m);
    assert pods[..|pods|] == pods;
    assert Inspect(p, m) != Stop;
  }

  lemma AdmittedGrow(pods: seq<Pod>, i: nat, m: Manager)
    requires i < |pods| && Distinct(pods)
    ensures pods[i].uid !in Admitted(pods[..i], m)
    ensures Admitted(pods[..i + 1], m) ==
        Admitted(pods[..i], m) + (if Inspect(pods[i], m) == Admit then {pods[i].uid} else {})
    ensures pods[..i + 1][..i] == pods[..i]
  {
    assert pods[..i + 1] == pods[..i] + [pods[i]];
  }

  /** The verdict on a pod depends on its own expectation only. */
  lemma InspectIsLocal(p: Pod, m: Manager, cleared: set<Uid>)
    requires p.uid !in cleared
    ensures Inspect(p, m.(hashExpectation := m.hashExpectation - cleared)) == Inspect(p, m)
  {
  }

  lemma TargetsAreAdmitted(pods: seq<Pod>, m: Manager, hash: string, u: Uid)
    requires u in Targets(pods, m, hash)
    ensures u in m.conns && !m.conns[u].disconnected && u !in m.deletionExpectation
    ensures Classify(m.conns[u], hash) == Chosen(pods, m, hash)
    ensures exists p :: p in pods && p.uid == u && Active(p) && Inspect(p, m) == Admit
  {
    var p :| p in pods && Inspect(p, m) == Admit && Classify(m.conns[p.uid], hash) == Chosen(pods, m, hash)
             && p.uid == u;
  }

  /** The tables at one pod after the pass. */
  lemma ReconciledAt(m: Manager, pods: seq<Pod>, hash: string, failed: set<Uid>, u: Uid)
    ensures var r := Reconciled(m, pods, hash, failed);
            var sent := Sending(pods, m, hash) && u in Targets(pods, m, hash) - failed;
            && (u in r.hashExpectation <==> sent || u in Gated(m, pods).hashExpectation)
            && (sent ==> r.hashExpectation[u] == hash)
            && (!sent && u in r.hashExpectation ==> r.hashExpectation[u] == m.hashExpectation[u])
            && (u in r.conns <==> u in m.conns)
            && (u in m.conns ==>
                  var more := if Sending(pods, m, hash) && u in Targets(pods, m, hash) then 1 else 0;
                  r.conns[u] == m.conns[u].(sendTimes := m.conns[u].sendTimes + more))
  {
    assert Chosen(pods, m, hash) in {Update, Dispatch, DeleteLeader, DeleteNonLeader, Nothing};
  }

  /** The pass finds nothing to do exactly when every admitted pod has been sent to and reports the shard's
      hash as both expected and current. */
  lemma IdleIffConverged(pods: seq<Pod>, m: Manager, hash: string)
    requires Passes(pods, m)
    ensures Chosen(pods, m, hash) == Nothing
            <==> forall p :: p in pods && Inspect(p, m) == Admit ==>
                               var c := m.conns[p.uid];
                               c.sendTimes > 0 && c.status.meta == Some(MetaState(hash, hash))
  {
    if Chosen(pods, m, hash) == Nothing {
      forall p | p in pods && Inspect(p, m) == Admit
        ensures m.conns[p.uid].sendTimes > 0 && m.conns[p.uid].status.meta == Some(MetaState(hash, hash))
      {
        var w := Classify(m.conns[p.uid], hash);
        assert p.uid in Members(pods, m, hash, w);
      }
    }
  }

  /** What the pass waits for at one pod: a pod that has ended or is being deleted has no running container; any other
      is not under deletion by the controller, is connected when it is ready or was created just now, and has reported
      the hash expected of it on a connection that stands. */
  predicate Calmed(p: Pod, m: Manager) {
    if p.phase == Succeeded || p.phase == Failed || p.deleting then p.running == 0
    else
      && p.uid !in m.deletionExpectation
      && (p.phase == Running && p.ready ==> p.uid in m.conns)
      && (p.phase == Pending && p.young ==> p.uid in m.conns)
      && (p.uid in m.conns ==>
            var c := m.conns[p.uid];
            && !c.disconnected
            && (p.uid in m.hashExpectation ==>
                  c.status.meta.Some? && c.status.meta.value.expectedHash == m.hashExpectation[p.uid]))
  }

  lemma InspectMeans(p: Pod, m: Manager)
    ensures Inspect(p, m) == Stop <==> !Calmed(p, m)
    ensures Inspect(p, m) == Admit <==>
            && Calmed(p, m) && p.phase != Succeeded && p.phase != Failed && !p.deleting && p.uid in m.conns
  {
  }

  /** The pass gets through exactly when every pod is as it waits for. */
  lemma PassesIff(pods: seq<Pod>, m: Manager)
    ensures Passes(pods, m) <==> forall p :: p in pods ==> Calmed(p, m)
  {
    forall p | p in pods
      ensures Inspect(p, m) != Stop <==> Calmed(p, m)
    {
      InspectMeans(p, m);
    }
  }

  /** The pods with a stored connection that have not ended and are not being deleted. */
  ghost function Linked(pods: seq<Pod>, m: Manager): set<Uid> {
    set p | p in pods && p.phase != Succeeded && p.phase != Failed && !p.deleting && p.uid in m.conns :: p.uid
  }

  /** Those that report a spec they cannot load. */
  ghost function StalePods(pods: seq<Pod>, m: Manager): set<Uid> {
    set u | u in Linked(pods, m) && m.conns[u].status.meta.Some?
            && m.conns[u].status.meta.value.expectedHash != m.conns[u].status.meta.value.currentHash
  }

  ghost function Leaders(us: set<Uid>, m: Manager): set<Uid> {
    set u | u in us && u in m.conns && m.conns[u].status.leader == Some(true)
  }

  /** Those that have loaded another spec. */
  ghost function OtherPods(pods: seq<Pod>, m: Manager, hash: string): set<Uid> {
    set u | u in Linked(pods, m) && m.conns[u].status.meta.Some?
            && m.conns[u].status.meta.value.expectedHash != hash
  }

  /** Those that have reported nothing or have been sent nothing. */
  ghost function NewPods(pods: seq<Pod>, m: Manager): set<Uid> {
    set u | u in Linked(pods, m) && (m.conns[u].status.meta.None? || m.conns[u].sendTimes == 0)
  }

  /** What a pass that gets through acts on: stale pods are deleted before anything is sent, and among them leaders
      last; then pods with another spec are updated; then the new ones are sent their first. */
  lemma WorkInOrder(pods: seq<Pod>, m: Manager, hash: string)
    requires Passes(pods, m)
    ensures var stale, targets := StalePods(pods, m), Targets(pods, m, hash);
            if stale != {} then
              && Deleting(pods, m, hash) && !Sending(pods, m, hash)
              && targets == (if stale == Leaders(stale, m) then stale else stale - Leaders(stale, m))
            else
              && !Deleting(pods, m, hash) && (Sending(pods, m, hash) <==> targets != {})
              && targets == if OtherPods(pods, m, hash) != {} then OtherPods(pods, m, hash) else NewPods(pods, m)
  {
    var stale := StalePods(pods, m);
    var leaders := Leaders(stale, m);
    ClassesAre(pods, m, hash);
    assert stale - leaders == {} <==> stale == leaders by {
      assert stale == (stale - leaders) + leaders;
    }
  }

  lemma ClassesAre(pods: seq<Pod>, m: Manager, hash: string)
    requires Passes(pods, m)
    ensures var stale := StalePods(pods, m);
            && Members(pods, m, hash, DeleteLeader) == Leaders(stale, m)
            && Members(pods, m, hash, DeleteNonLeader) == stale - Leaders(stale, m)
            && (stale == {} ==> Members(pods, m, hash, Update) == OtherPods(pods, m, hash))
            && (stale == {} && OtherPods(pods, m, hash) == {} ==>
                  Members(pods, m, hash, Dispatch) == NewPods(pods, m))
  {
    var stale := StalePods(pods, m);
    MembersAre(pods, m, hash);
    forall u | u in Linked(pods, m)
      ensures u in stale <==> Classify(m.conns[u], hash) in {DeleteLeader, DeleteNonLeader}
      ensures stale == {} ==> (u in OtherPods(pods, m, hash) <==> Classify(m.conns[u], hash) == Update)
      ensures stale == {} && u !in OtherPods(pods, m, hash) ==>
                (u in NewPods(pods, m) <==> Classify(m.conns[u], hash) == Dispatch)
    {
      assert stale == {} ==> u !in stale;
    }
  }

  lemma MembersAre(pods: seq<Pod>, m: Manager, hash: string)
    requires Passes(pods, m)
    ensures forall w, u :: u in Members(pods, m, hash, w) <==> u in Linked(pods, m) && Classify(m.conns[u], hash) == w
  {
    forall w, u
      ensures u in Members(pods, m, hash, w) <==> u in Linked(pods, m) && Classify(m.conns[u], hash) == w
    {
      if u in Linked(pods, m) {
        var p :| p in pods && p.phase != Succeeded && p.phase != Failed && !p.deleting && p.uid in m.conns
                 && p.uid == u;
        InspectMeans(p, m);
        assert Inspect(p, m) == Admit;
      }
      if u in Members(pods, m, hash, w) {
        var p :| p in pods && Inspect(p, m) == Admit && Classify(m.conns[p.uid], hash) == w && p.uid == u;
        InspectMeans(p, m);
      }
    }
  }

  // ----- The controller as the code has it -----

  datatype SyncPod = SyncPod(uid: Uid, conn: Connection)

  ghost predicate NoRepeats(us: seq<Uid>) {
    forall i, j :: 0 <= i < j < |us| ==> us[i] != us[j]
  }

  ghost function Elements(us: seq<Uid>): set<Uid> {
    set u | u in us
  }

  ghost function Constant(us: set<Uid>, hash: string): map<Uid, string> {
    map u | u in us :: hash
  }

  lemma ElementsGrow(us: seq<Uid>, i: nat)
    requires i < |us| && NoRepeats(us)
    ensures us[i] !in us[..i]
    ensures Elements(us[..i + 1]) == Elements(us[..i]) + {us[i]}
  {
    assert us[..i + 1] == us[..i] + [us[i]];
  }

  lemma BumpOneMore(conns: map<Uid, Connection>, us: set<Uid>, u: Uid)
    requires u in conns && u !in us
    ensures var c := Bumped(conns, us);
            u in c && Bumped(conns, us + {u}) == c[u := c[u].(sendTimes := c[u].sendTimes + 1)]
  {
  }

  lemma ConstantOneMore(h: map<Uid, string>, us: set<Uid>, failed: set<Uid>, u: Uid, hash: string)
    ensures var h1 := h + Constant(us - failed, hash);
            h + Constant(us + {u} - failed, hash) == if u in failed then h1 else h1[u := hash]
  {
    if u in failed {
      assert us + {u} - failed == us - failed;
    }
  }

  /** The pods the first loop collects, in list order. */
  ghost function AdmittedList(pods: seq<Pod>, m: Manager): seq<SyncPod> {
    if pods == [] then []
    else
      var p := pods[|pods| - 1];
      AdmittedList(pods[..|pods| - 1], m) + (if Inspect(p, m) == Admit then [SyncPod(p.uid, m.conns[p.uid])] else [])
  }

  /** The pods of one class, in list order. */
  ghost function WorkList(sync: seq<SyncPod>, hash: string, w: Work): seq<Uid> {
    if sync == [] then []
    else
      var s := sync[|sync| - 1];
      WorkList(sync[..|sync| - 1], hash, w) + (if Classify(s.conn, hash) == w then [s.uid] else [])
  }

  lemma {:induction false} WorkListMember(sync: seq<SyncPod>, hash: string, w: Work, u: Uid)
    ensures u in WorkList(sync, hash, w) <==> exists s :: s in sync && s.uid == u && Classify(s.conn, hash) == w
  {
    if sync != [] {
      assert sync == sync[..|sync| - 1] + [sync[|sync| - 1]];
      WorkListMember(sync[..|sync| - 1], hash, w, u);
    }
  }

  lemma {:induction false} AdmittedListMember(pods: seq<Pod>, m: Manager, s: SyncPod)
    ensures s in AdmittedList(pods, m) <==>
            exists p :: p in pods && Inspect(p, m) == Admit && s == SyncPod(p.uid, m.conns[p.uid])
  {
    if pods != [] {
      assert pods == pods[..|pods| - 1] + [pods[|pods| - 1]];
      AdmittedListMember(pods[..|pods| - 1], m, s);
    }
  }

  lemma {:induction false} WorkListNoRepeats(sync: seq<SyncPod>, hash: string, w: Work)
    requires forall i, j :: 0 <= i < j < |sync| ==> sync[i].uid != sync[j].uid
    ensures NoRepeats(WorkList(sync, hash, w))
  {
    if sync != [] {
      var front, s := sync[..|sync| - 1], sync[|sync| - 1];
      WorkListNoRepeats(front, hash, w);
      WorkListMember(front, hash, w, s.uid);
    }
  }

  lemma {:induction false} AdmittedListDistinct(pods: seq<Pod>, m: Manager)
    requires Distinct(pods)
    ensures var sync := AdmittedList(pods, m);
            forall i, j :: 0 <= i < j < |sync| ==> sync[i].uid != sync[j].uid
  {
    if pods != [] {
      var front := pods[..|pods| - 1];
      AdmittedListDistinct(front, m);
      var fs, p := AdmittedList(front, m), pods[|pods| - 1];
      forall i | 0 <= i < |fs|
        ensures fs[i].uid != p.uid
      {
        AdmittedListMember(front, m, fs[i]);
        var q :| q in front && fs[i].uid == q.uid;
      }
    }
  }

  lemma WorkListIn(pods: seq<Pod>, m: Manager, hash: string, w: Work, u: Uid)
    requires u in WorkList(AdmittedList(pods, m), hash, w)
    ensures u in Members(pods, m, hash, w)
  {
    var sync := AdmittedList(pods, m);
    WorkListMember(sync, hash, w, u);
    var s :| s in sync && s.uid == u && Classify(s.conn, hash) == w;
    AdmittedListMember(pods, m, s);
  }

  lemma WorkListHas(pods: seq<Pod>, m: Manager, hash: string, w: Work, u: Uid)
    requires u in Members(pods, m, hash, w)
    ensures u in WorkList(AdmittedList(pods, m), hash, w)
  {
    var p :| p in pods && Inspect(p, m) == Admit && Classify(m.conns[p.uid], hash) == w && p.uid == u;
    AdmittedListMember(pods, m, SyncPod(p.uid, m.conns[p.uid]));
    WorkListMember(AdmittedList(pods, m), hash, w, u);
  }

  /** The work lists hold exactly the members of each class. */
  lemma WorkListMembers(pods: seq<Pod>, m: Manager, hash: string, w: Work)
    ensures Elements(WorkList(AdmittedList(pods, m), hash, w)) == Members(pods, m, hash, w)
  {
    forall u | u in WorkList(AdmittedList(pods, m), hash, w)
      ensures u in Members(pods, m, hash, w)
    {
      WorkListIn(pods, m, hash, w, u);
    }
    forall u | u in Members(pods, m, hash, w)
      ensures u in WorkList(AdmittedList(pods, m), hash, w)
    {
      WorkListHas(pods, m, hash, w, u);
    }
  }

  lemma EmptyElements(us: seq<Uid>)
    ensures us == [] <==> Elements(us) == {}
  {
    if us != [] {
      assert us[0] in Elements(us);
    }
  }

  lemma WorkListFacts(pods: seq<Pod>, m: Manager, hash: string, w: Work, us: seq<Uid>)
    requires Distinct(pods) && us == WorkList(AdmittedList(pods, m), hash, w)
    ensures NoRepeats(us) && Elements(us) == Members(pods, m, hash, w) && Elements(us) <= m.conns.Keys
    ensures us == [] <==> Members(pods, m, hash, w) == {}
  {
    AdmittedListDistinct(pods, m);
    WorkListNoRepeats(AdmittedList(pods, m), hash, w);
    WorkListMembers(pods, m, hash, w);
    EmptyElements(us);
  }

  /** The first list of work. */
  function FirstList(dispatch: seq<Uid>, update: seq<Uid>, leaders: seq<Uid>, others: seq<Uid>): (Work, seq<Uid>) {
    if others != [] then (DeleteNonLeader, others)
    else if leaders != [] then (DeleteLeader, leaders)
    else if update != [] then (Update, update)
    else if dispatch != [] then (Dispatch, dispatch)
    else (Nothing, [])
  }

  /** The first work list that is not empty holds the targets of a pass that is not stopped. */
  lemma ChosenList(pods: seq<Pod>, m: Manager, hash: string, dispatch: seq<Uid>, update: seq<Uid>, leaders: seq<Uid>,
                   others: seq<Uid>)
    requires Distinct(pods) && Passes(pods, m)
    requires dispatch == WorkList(AdmittedList(pods, m), hash, Dispatch)
             && update == WorkList(AdmittedList(pods, m), hash, Update)
    requires leaders == WorkList(AdmittedList(pods, m), hash, DeleteLeader)
    requires others == WorkList(AdmittedList(pods, m), hash, DeleteNonLeader)
    ensures NoRepeats(update) && NoRepeats(dispatch) && Elements(update) + Elements(dispatch) <= m.conns.Keys
    ensures var (w, us) := FirstList(dispatch, update, leaders, others);
            w == Chosen(pods, m, hash) && Elements(us) == Targets(pods, m, hash)
  {
    WorkListFacts(pods, m, hash, Dispatch, dispatch);
    WorkListFacts(pods, m, hash, Update, update);
    WorkListFacts(pods, m, hash, DeleteLeader, leaders);
    WorkListFacts(pods, m, hash, DeleteNonLeader, others);
  }

  // ----- Connections -----

  /** A registration stores a new connection in place of any other and owes the pod a first message. */
  function Registered(m: Manager, u: Uid, id: nat, status: Status): Manager {
    m.(conns := m.conns[u := Connection(id, status, 0, false)], hashExpectation := m.hashExpectation - {u})
  }

  /** A report goes to the connection it came on, which may not be the stored one any more. */
  function Reported(m: Manager, u: Uid, id: nat, status: Status): Manager {
    if u in m.conns && m.conns[u].id == id then m.(conns := m.conns[u := m.conns[u].(status := status)]) else m
  }

  /** The end of a connection drops the pod's hash expectation, whichever connection is stored. */
  function Ended(m: Manager, u: Uid, id: nat): Manager {
    m.(conns := if u in m.conns && m.conns[u].id == id then m.conns[u := m.conns[u].(disconnected := true)]
                else m.conns,
       hashExpectation := m.hashExpectation - {u})
  }

  /** The event that a pod is gone. */
  function Forgotten(m: Manager, u: Uid): Manager {
    m.(hashExpectation := m.hashExpectation - {u}, deletionExpectation := m.deletionExpectation - {u})
  }

  class Controller {
    var conns: map<Uid, Connection>
    var hashExpectation: map<Uid, string>
    var deletionExpectation: set<Uid>

    ghost function View(): Manager
      reads this
    {
      Manager(conns, hashExpectation, deletionExpectation)
    }

    constructor ()
      ensures View() == Manager(map[], map[], {})
    {
      conns, hashExpectation, deletionExpectation := map[], map[], {};
    }

    /** The body of the first loop. A met expectation is dropped at once. */
    method Check(p: Pod) returns (verdict: Verdict)
      modifies this`hashExpectation
      ensures verdict == Inspect(p, old(View()))
      ensures verdict == Stop <==> !Calmed(p, old(View()))
      ensures hashExpectation == if verdict == Admit then old(hashExpectation) - {p.uid} else old(hashExpectation)
    {
      if !Active(p) {
        if p.running > 0 {
          return Stop;
        }
        return Ignore;
      }
      if p.uid in deletionExpectation {
        return Stop;
      }
      if p.uid !in conns {
        if p.phase == Running && p.ready {
          return Stop;
        }
        if p.phase == Pending && p.young {
          return Stop;
        }
        return Ignore;
      }
      var c := conns[p.uid];
      if c.disconnected {
        return Stop;
      }
      if p.uid in hashExpectation {
        if c.status.meta.None? || hashExpectation[p.uid] != c.status.meta.value.expectedHash {
          return Stop;
        }
        hashExpectation := hashExpectation - {p.uid};
      }
      return Admit;
    }

    /** Step `i` of the first loop, which started with the tables `m`. */
    method GateOne(pods: seq<Pod>, i: nat, sync: seq<SyncPod>, ghost m: Manager)
      returns (stop: bool, more: seq<SyncPod>)
      requires Distinct(pods) && i < |pods| && sync == AdmittedList(pods[..i], m)
      requires View() == m.(hashExpectation := m.hashExpectation - Admitted(pods[..i], m))
      modifies this`hashExpectation
      ensures stop <==> Inspect(pods[i], m) == Stop
      ensures stop ==> hashExpectation == old(hashExpectation)
      ensures !stop ==> hashExpectation == m.hashExpectation - Admitted(pods[..i + 1], m)
      ensures !stop ==> more == AdmittedList(pods[..i + 1], m)
    {
      AdmittedGrow(pods, i, m);
      InspectIsLocal(pods[i], m, Admitted(pods[..i], m));
      var verdict := Check(pods[i]);
      more := sync;
      if verdict == Admit {
        more := more + [SyncPod(pods[i].uid, conns[pods[i].uid])];
      }
      return verdict == Stop, more;
    }

    /** The first loop. */
    method Gate(pods: seq<Pod>) returns (passed: bool, sync: seq<SyncPod>)
      requires Distinct(pods)
      modifies this`hashExpectation
      ensures hashExpectation == old(hashExpectation) - Admitted(pods[..Scanned(pods, old(View()))], old(View()))
      ensures passed <==> Passes(pods, old(View()))
      ensures passed ==> sync == AdmittedList(pods, old(View()))
    {
      ghost var m := View();
      sync := [];
      ScannedAll(pods, m);
      for i := 0 to |pods|
        invariant i <= Scanned(pods, m)
        invariant hashExpectation == m.hashExpectation - Admitted(pods[..i], m)
        invariant sync == AdmittedList(pods[..i], m)
      {
        var stop;
        stop, sync := GateOne(pods, i, sync, m);
        if stop {
          return false, sync;
        }
      }
      assert pods[..|pods|] == pods;
      passed := true;
    }

    /** The second loop: fill the four work lists. */
    static method Sort(sync: seq<SyncPod>, hash: string)
      returns (dispatch: seq<Uid>, update: seq<Uid>, leaders: seq<Uid>, others: seq<Uid>)
      ensures dispatch == WorkList(sync, hash, Dispatch) && update == WorkList(sync, hash, Update)
      ensures leaders == WorkList(sync, hash, DeleteLeader) && others == WorkList(sync, hash, DeleteNonLeader)
    {
      dispatch, update, leaders, others := [], [], [], [];
      for i := 0 to |sync|
        invariant dispatch == WorkList(sync[..i], hash, Dispatch) && update == WorkList(sync[..i], hash, Update)
        invariant leaders == WorkList(sync[..i], hash, DeleteLeader)
        invariant others == WorkList(sync[..i], hash, DeleteNonLeader)
      {
        var s := sync[i];
        assert sync[..i + 1][..i] == sync[..i];
        if s.conn.status.meta.None? {
          dispatch := dispatch + [s.uid];
        } else {
          var meta := s.conn.status.meta.value;
          if meta.expectedHash != meta.currentHash {
            if s.conn.status.leader == Some(true) {
              leaders := leaders + [s.uid];
            } else {
              others := others + [s.uid];
            }
          } else if hash != meta.expectedHash {
            update := update + [s.uid];
          } else if s.conn.sendTimes == 0 {
            dispatch := dispatch + [s.uid];
          }
        }
      }
      assert sync[..|sync|] == sync;
    }

    /** Deletes the listed pods; the error reported is that of the last call only. */
    method DeleteAll(us: seq<Uid>, failed: set<Uid>) returns (err: bool)
      modifies this`deletionExpectation
      ensures deletionExpectation == old(deletionExpectation) + (Elements(us) - failed)
      ensures err <==> us != [] && us[|us| - 1] in failed
    {
      err := false;
      for i := 0 to |us|
        invariant deletionExpectation == old(deletionExpectation) + (Elements(us[..i]) - failed)
        invariant err <==> i > 0 && us[i - 1] in failed
      {
        assert us[..i + 1] == us[..i] + [us[i]];
        err := us[i] in failed;
        if !err {
          deletionExpectation := deletionExpectation + {us[i]};
        }
      }
      assert us[..|us|] == us;
    }

    /** Sends the spec to the listed pods. The send counter grows even when the send fails. */
    method SendAll(us: seq<Uid>, hash: string, failed: set<Uid>) returns (err: bool)
      requires NoRepeats(us) && Elements(us) <= conns.Keys
      modifies this`conns, this`hashExpectation
      ensures conns == Bumped(old(conns), Elements(us))
      ensures hashExpectation == old(hashExpectation) + Constant(Elements(us) - failed, hash)
      ensures err <==> us != [] && us[|us| - 1] in failed
    {
      err := false;
      ghost var c0, h0 := conns, hashExpectation;
      assert conns == Bumped(c0, {});
      for i := 0 to |us|
        invariant conns == Bumped(c0, Elements(us[..i]))
        invariant hashExpectation == h0 + Constant(Elements(us[..i]) - failed, hash)
        invariant err <==> i > 0 && us[i - 1] in failed
      {
        ElementsGrow(us, i);
        BumpOneMore(c0, Elements(us[..i]), us[i]);
        ConstantOneMore(h0, Elements(us[..i]), failed, us[i], hash);
        conns := conns[us[i] := conns[us[i]].(sendTimes := conns[us[i]].sendTimes + 1)];
        err := us[i] in failed;
        if !err {
          hashExpectation := hashExpectation[us[i] := hash];
        }
      }
      assert us[..|us|] == us;
    }

    /** The last three loops: act on the first work list that is not empty. */
    method Act(dispatch: seq<Uid>, update: seq<Uid>, leaders: seq<Uid>, others: seq<Uid>, hash: string,
               failed: set<Uid>)
      returns (err: bool, ghost w: Work, ghost us: seq<Uid>)
      requires NoRepeats(update) && NoRepeats(dispatch) && Elements(update) + Elements(dispatch) <= conns.Keys
      modifies this
      ensures View() == Performed(old(View()), w, Elements(us), hash, failed)
      ensures err ==> Elements(us) * failed != {}
      ensures (w, us) == FirstList(dispatch, update, leaders, others)
    {
      if dispatch == [] && update == [] && leaders == [] && others == [] {
        return false, Nothing, [];
      }
      var toDelete := others;
      w := DeleteNonLeader;
      if toDelete == [] {
        toDelete := leaders;
        w := DeleteLeader;
      }
      if toDelete != [] {
        us := toDelete;
        err := DeleteAll(toDelete, failed);
        assert err ==> us[|us| - 1] in Elements(us) * failed;
      } else if update != [] {
        w, us := Update, update;
        err := SendAll(update, hash, failed);
        assert err ==> us[|us| - 1] in Elements(us) * failed;
      } else {
        w, us := Dispatch, dispatch;
        err := SendAll(dispatch, hash, failed);
        assert err ==> us[|us| - 1] in Elements(us) * failed;
      }
    }

    /** The pass as a whole. `Targets` of the state before the call are the pods acted on. */
    method Reconcile(pods: seq<Pod>, hash: string, failed: set<Uid>) returns (err: bool)
      requires Distinct(pods)
      modifies this
      ensures View() == Reconciled(old(View()), pods, hash, failed)
      ensures err ==> Targets(pods, old(View()), hash) * failed != {}
      ensures (exists p :: p in pods && !Calmed(p, old(View()))) || StalePods(pods, old(View())) != {} ==>
                conns == old(conns) && hashExpectation.Keys <= old(hashExpectation.Keys)
      ensures (exists p :: p in pods && !Calmed(p, old(View()))) || StalePods(pods, old(View())) == {} ==>
                deletionExpectation == old(deletionExpectation)
    {
      ghost var m := View();
      PassesIff(pods, m);
      if Passes(pods, m) {
        WorkInOrder(pods, m, hash);
      }
      var passed, sync := Gate(pods);
      if !passed {
        return false;
      }
      var dispatch, update, leaders, others := Sort(sync, hash);
      ChosenList(pods, m, hash, dispatch, update, leaders, others);
      ghost var w, us;
      err, w, us := Act(dispatch, update, leaders, others, hash, failed);
    }

    /** A first message. `found` is what the lookup of the sender's pod gives. */
    method Register(found: Option<Pod>, id: nat, status: Status) returns (accepted: bool)
      modifies this
      ensures accepted <==> found.Some? && found.value.phase !in {Succeeded, Failed} && !found.value.deleting
      ensures View() == if accepted then Registered(old(View()), found.value.uid, id, status) else old(View())
      ensures accepted ==>
                && conns == old(conns)[found.value.uid := Connection(id, status, 0, false)]
                && hashExpectation == old(hashExpectation) - {found.value.uid}
                && deletionExpectation == old(deletionExpectation)
    {
      if found.None? || !Active(found.value) {
        return false;
      }
      var u := found.value.uid;
      conns := conns[u := Connection(id, status, 0, false)];
      hashExpectation := hashExpectation - {u};
      return true;
    }

    method Receive(u: Uid, id: nat, status: Status)
      modifies this`conns
      ensures View() == Reported(old(View()), u, id, status)
      ensures conns.Keys == old(conns.Keys)
      ensures forall v :: v in conns ==>
                conns[v] == if v == u && old(conns)[v].id == id then old(conns)[v].(status := status) else old(conns)[v]
    {
      if u in conns && conns[u].id == id {
        conns := conns[u := conns[u].(status := status)];
      }
    }

    method Disconnect(u: Uid, id: nat)
      modifies this`conns, this`hashExpectation
      ensures View() == Ended(old(View()), u, id)
      ensures conns.Keys == old(conns.Keys) && hashExpectation == old(hashExpectation) - {u}
      ensures forall v :: v in conns ==>
                conns[v].disconnected == (old(conns)[v].disconnected || (v == u && old(conns)[v].id == id))
                && conns[v] == old(conns)[v].(disconnected := conns[v].disconnected)
    {
      hashExpectation := hashExpectation - {u};
      if u in conns && conns[u].id == id {
        conns := conns[u := conns[u].(disconnected := true)];
      }
    }

    method PodDeleted(u: Uid)
      modifies this`hashExpectation, this`deletionExpectation
      ensures View() == Forgotten(old(View()), u)
      ensures hashExpectation == old(hashExpectation) - {u} && deletionExpectation == old(deletionExpectation) - {u}
    {
      hashExpectation := hashExpectation - {u};
      deletionExpectation := deletionExpectation - {u};
    }
  }
}
