/** From which settled states of a shard some run without faults leads to convergence: from all of them when the spec
    has limits, and otherwise from those in which no pod lacks it. */
module Convergence {
  import opened Wrappers
  import opened Strings
  import opened Specs
  import opened Reconciler
  import opened Dispatch
  import opened Progress

  // ----- Runs one after the other -----

  lemma {:induction false} RunAppend(s: System, a: seq<Step>, b: seq<Step>)
    ensures Dispatch.Run(s, a + b) == Dispatch.Run(Dispatch.Run(s, a), b)
  {
    if b == [] {
      assert a + b == a;
    } else {
      assert (a + b)[..|a + b| - 1] == a + b[..|b| - 1];
      RunAppend(s, a, b[..|b| - 1]);
    }
  }

  lemma RunOne(s: System, step: Step)
    ensures Dispatch.Run(s, [step]) == Next(s, step)
  {
    assert [step][..0] == [];
  }

  lemma CalmAppend(s: System, a: seq<Step>, b: seq<Step>, spec: ProxySpec)
    requires AllCalm(s, a, spec) && AllCalm(Dispatch.Run(s, a), b, spec)
    ensures AllCalm(s, a + b, spec)
  {
    forall i | 0 <= i < |a + b|
      ensures Calm(Dispatch.Run(s, (a + b)[..i]), (a + b)[i], spec)
    {
      if i < |a| {
        assert (a + b)[..i] == a[..i];
      } else {
        assert (a + b)[..i] == a + b[..i - |a|];
        RunAppend(s, a, b[..i - |a|]);
      }
    }
  }

  lemma CalmOne(s: System, step: Step, spec: ProxySpec)
    requires Calm(s, step, spec)
    ensures AllCalm(s, [step], spec)
  {
    assert [step][..0] == [];
  }

  // ----- Pods that lack the spec -----

  ghost predicate Stays(s: System, u: Uid) {
    ActivePod(s, u) && u !in s.mgr.deletionExpectation
  }

  /** The pod will report the spec when all messages to it are taken. */
  ghost predicate HasIt(s: System, u: Uid, hash: string) {
    && u in s.links && u in s.proxies && s.proxies[u].memory.Some?
    && FinalReport(s, u) == Some(MetaState(hash, hash))
  }

  /** A pod is to come or to go, or will not report the spec. */
  ghost predicate Lacking(s: System, hash: string) {
    s.vacant > 0 || exists u :: u in s.pods && !(Stays(s, u) && HasIt(s, u, hash))
  }

  lemma MessageKeepsIt(s: System, step: Step, spec: ProxySpec, u: Uid)
    requires Settled(s, spec.meta.shard) && Enabled(s, step) && Calm(s, step, spec) && IsMessage(step)
    requires Stays(s, u) && HasIt(s, u, spec.meta.hash)
    ensures Stays(Next(s, step), u) && HasIt(Next(s, step), u, spec.meta.hash)
  {
    MessageElsewhere(s, step);
    if u == step.uid {
      MessageAtPod(s, step, spec);
    }
  }

  /** A pod that reports the spec is not deleted by a pass, and still reports it after one. */
  lemma PassKeepsIt(s: System, step: Step, spec: ProxySpec, u: Uid)
    requires Settled(s, spec.meta.shard) && step.Reconcile? && Enabled(s, step) && Calm(s, step, spec)
    requires !Drops(s, step) && Stays(s, u) && HasIt(s, u, spec.meta.hash)
    ensures Stays(ReconcileStep(s, step), u) && HasIt(ReconcileStep(s, step), u, spec.meta.hash)
  {
    ReconcileKeepsPods(s, step);
    ReconcileKeys(s.mgr, Listed(s, step.order), spec.meta.hash, {});
    if u in Acted(s, step) {
      ActedPod(s, step, u);
      AdmittedReportsAgree(s, u, spec.meta.shard);
      assert Classify(s.mgr.conns[u], spec.meta.hash) == Work.Dispatch;
      SentIsOneMore(s, step, u, spec);
      OneMoreReport(s, ReconcileStep(s, step), u, spec);
    } else {
      UntouchedPod(s, step, u, spec);
    }
  }

  lemma NothingComesToLack(s: System, step: Step, spec: ProxySpec)
    requires Settled(s, spec.meta.shard) && Calm(s, step, spec) && !Drops(s, step) && !Lacking(s, spec.meta.hash)
    ensures !Lacking(Next(s, step), spec.meta.hash)
  {
    if Enabled(s, step) {
      forall u | u in Next(s, step).pods
        ensures Stays(Next(s, step), u) && HasIt(Next(s, step), u, spec.meta.hash)
      {
        assert u in s.pods ==> Stays(s, u) && HasIt(s, u, spec.meta.hash);
        if step.Reconcile? {
          ReconcileKeepsPods(s, step);
          PassKeepsIt(s, step, spec, u);
        } else if IsMessage(step) {
          MessageElsewhere(s, step);
          MessageKeepsIt(s, step, spec, u);
        }
      }
      KeepsVacant(s, step, spec);
    }
  }

  lemma KeepsVacant(s: System, step: Step, spec: ProxySpec)
    requires Enabled(s, step) && Calm(s, step, spec) && !Lacking(s, spec.meta.hash)
    ensures Next(s, step).vacant == 0
  {
  }

  // ----- What a spec without limits cannot bring about -----

  /** Nothing is on its way to a pod that never connected. */
  ghost predicate Tidy(s: System) {
    Safe(s) && forall u :: ActivePod(s, u) ==> u in s.links && (u !in s.mgr.conns ==> s.links[u].down == [])
  }

  lemma TidyStep(s: System, step: Step, spec: ProxySpec)
    requires Tidy(s) && Calm(s, step, spec)
    ensures Tidy(Next(s, step))
  {
    StepIsSafe(s, step);
    if step.Reconcile? && Enabled(s, step) {
      ReconcileKeepsPods(s, step);
      ReconcileKeys(s.mgr, Listed(s, step.order), spec.meta.hash, {});
      forall u | ActivePod(s, u) && u !in s.mgr.conns
        ensures u !in Acted(s, step)
      {
        if u in Acted(s, step) {
          ActedPod(s, step, u);
        }
      }
    }
  }

  lemma ReceiveKeepsFinal(s: System, u: Uid)
    requires Enabled(s, ProxyReceive(u, NoFault))
    ensures var t := ProxyReceiveStep(s, u, NoFault);
            && u in t.proxies && t.proxies[u].memory.Some? && u in t.links && FinalReport(t, u) == FinalReport(s, u)
  {
    var t := ProxyReceiveStep(s, u, NoFault);
    var m, down := s.proxies[u].memory.value, s.links[u].down;
    assert t.proxies[u].memory == Some(Took(m, down[0]));
    ReplayTail(m, down);
  }

  /** A spec without limits does not change what a pod will report. */
  lemma EmptyKeepsFinal(s: System, step: Step, u: Uid)
    requires step.Reconcile? && Enabled(s, step) && step.spec.limits == []
    requires u in s.links && u in s.proxies && s.proxies[u].memory.Some?
    ensures var t := ReconcileStep(s, step);
            && t.proxies == s.proxies && u in t.links && FinalReport(t, u) == FinalReport(s, u)
  {
    var down := s.links[u].down;
    assert (down + [step.spec])[..|down|] == down;
  }

  /** A pod that has the spec after a calm step and is to stay had it before. */
  lemma HadItBefore(s: System, step: Step, spec: ProxySpec, u: Uid)
    requires Tidy(s) && Enabled(s, step) && Calm(s, step, spec) && spec.limits == []
    requires u in s.pods && Stays(Next(s, step), u) && HasIt(Next(s, step), u, spec.meta.hash)
    ensures Stays(s, u) && HasIt(s, u, spec.meta.hash)
  {
    match step
    case Reconcile(_, _, _) =>
      ReconcileKeepsPods(s, step);
      ReconcileKeys(s.mgr, Listed(s, step.order), spec.meta.hash, {});
      EmptyKeepsFinal(s, step, u);
    case ProxyReceive(v, _) =>
      if v == u {
        ReceiveKeepsFinal(s, u);
      }
    case Register(v, _) =>
      assert v == u ==> s.links[u].down == [];
    case _ =>
  }

  lemma StillLacking(s: System, step: Step, spec: ProxySpec)
    requires Tidy(s) && Calm(s, step, spec) && spec.limits == [] && Lacking(s, spec.meta.hash)
    ensures Lacking(Next(s, step), spec.meta.hash)
  {
    var t, hash := Next(s, step), spec.meta.hash;
    if !Enabled(s, step) || step.PodGone? {
    } else if step.PodCreated? {
      assert step.pod.uid in t.pods && !HasIt(t, step.pod.uid, hash);
    } else if u :| u in s.pods && !(Stays(s, u) && HasIt(s, u, hash)) {
      SamePods(s, step);
      if Stays(t, u) && HasIt(t, u, hash) {
        HadItBefore(s, step, spec, u);
      }
    } else {
      SamePods(s, step);
    }
  }

  lemma SamePods(s: System, step: Step)
    requires Enabled(s, step) && !step.PodGone? && !step.PodCreated?
    ensures Next(s, step).pods.Keys == s.pods.Keys && Next(s, step).vacant == s.vacant
  {
  }

  lemma {:induction false} AlwaysLacking(s: System, steps: seq<Step>, spec: ProxySpec)
    requires Tidy(s) && AllCalm(s, steps, spec) && spec.limits == [] && Lacking(s, spec.meta.hash)
    ensures Tidy(Dispatch.Run(s, steps)) && Lacking(Dispatch.Run(s, steps), spec.meta.hash)
  {
    if steps != [] {
      CalmFront(s, steps, spec);
      AlwaysLacking(s, steps[..|steps| - 1], spec);
      TidyStep(Dispatch.Run(s, steps[..|steps| - 1]), steps[|steps| - 1], spec);
      StillLacking(Dispatch.Run(s, steps[..|steps| - 1]), steps[|steps| - 1], spec);
    }
  }

  // ----- Calm runs between settled states -----

  /** A calm run leads from one settled state to another. */
  ghost predicate Leads(s: System, steps: seq<Step>, t: System, spec: ProxySpec) {
    && AllCalm(s, steps, spec) && Dispatch.Run(s, steps) == t && Settled(t, spec.meta.shard)
    && Potential(t, spec.meta.hash) <= Potential(s, spec.meta.hash)
    && (!Lacking(s, spec.meta.hash) ==> !Lacking(t, spec.meta.hash))
  }

  lemma LeadsOne(s: System, step: Step, spec: ProxySpec)
    requires Settled(s, spec.meta.shard) && Calm(s, step, spec) && !Drops(s, step)
    ensures Leads(s, [step], Next(s, step), spec)
    ensures Potential(Next(s, step), spec.meta.hash) + Actions(s, step) <= Potential(s, spec.meta.hash)
  {
    RunOne(s, step);
    CalmOne(s, step, spec);
    CalmStep(s, step, spec);
    if !Lacking(s, spec.meta.hash) {
      NothingComesToLack(s, step, spec);
    }
  }

  lemma LeadsOn(s: System, a: seq<Step>, t: System, b: seq<Step>, r: System, spec: ProxySpec)
    requires Leads(s, a, t, spec) && Leads(t, b, r, spec)
    ensures Leads(s, a + b, r, spec)
  {
    RunAppend(s, a, b);
    CalmAppend(s, a, b, spec);
  }

  lemma LeadsNowhere(s: System, spec: ProxySpec)
    requires Settled(s, spec.meta.shard)
    ensures Leads(s, [], s, spec)
  {
  }

  // ----- Letting all messages arrive -----

  /** The part of one pod in a quiet state. */
  ghost predicate QuietAt(s: System, u: Uid) {
    if ActivePod(s, u) then
      && u in s.mgr.conns && u !in s.mgr.deletionExpectation
      && u in s.links && s.links[u] == Link([], []) && u in s.proxies && s.proxies[u].memory.Some?
      && s.mgr.conns[u].status.meta == ReportedMeta(s.proxies[u].memory.value)
    else u in s.pods ==> s.pods[u].running == 0
  }

  /** Only the pod is touched, and it is to stay exactly when it was. */
  ghost predicate Beside(s: System, t: System, u: Uid) {
    && t.pods.Keys == s.pods.Keys && t.vacant == s.vacant
    && (forall v :: v in s.pods && v != u ==> SameAt(s, t, v) && t.pods[v] == s.pods[v])
    && (Stays(t, u) <==> Stays(s, u))
  }

  lemma BesideOn(s: System, t: System, r: System, u: Uid)
    requires Beside(s, t, u) && Beside(t, r, u)
    ensures Beside(s, r, u)
  {
  }

  lemma MessageBeside(s: System, step: Step)
    requires Enabled(s, step) && IsMessage(step)
    ensures Beside(s, Next(s, step), step.uid)
    ensures ActivePod(Next(s, step), step.uid) <==> ActivePod(s, step.uid)
  {
    MessageElsewhere(s, step);
  }

  lemma MessageLeads(s: System, step: Step, spec: ProxySpec) returns (t: System)
    requires Settled(s, spec.meta.shard) && Calm(s, step, spec)
    requires Enabled(s, step) && IsMessage(step)
    ensures t == Next(s, step) && Leads(s, [step], t, spec) && Beside(s, t, step.uid)
    ensures Stays(s, step.uid) ==> Stays(t, step.uid)
  {
    t := Next(s, step);
    LeadsOne(s, step, spec);
    MessageBeside(s, step);
  }

  /** The proxy takes all specs on their way. */
  lemma {:induction false} TakeAll(s: System, u: Uid, spec: ProxySpec) returns (steps: seq<Step>, t: System)
    requires Settled(s, spec.meta.shard) && Stays(s, u) && u in s.mgr.conns
    ensures Leads(s, steps, t, spec) && Beside(s, t, u) && Stays(t, u) && u in t.mgr.conns
    ensures u in t.links && t.links[u].down == []
    decreases if u in s.links then |s.links[u].down| else 0
  {
    assert Fine(s, u, spec.meta.shard);
    if s.links[u].down == [] {
      LeadsNowhere(s, spec);
      steps, t := [], s;
    } else {
      var step := ProxyReceive(u, NoFault);
      var r := MessageLeads(s, step, spec);
      steps, t := TakeAll(r, u, spec);
      LeadsOn(s, [step], r, steps, t, spec);
      BesideOn(s, r, t, u);
      steps := [step] + steps;
    }
  }

  /** The manager takes all reports on their way. */
  lemma {:induction false} HearAll(s: System, u: Uid, spec: ProxySpec) returns (steps: seq<Step>, t: System)
    requires Settled(s, spec.meta.shard) && Stays(s, u) && u in s.mgr.conns
    requires u in s.links && s.links[u].down == []
    ensures Leads(s, steps, t, spec) && Beside(s, t, u) && Stays(t, u) && u in t.mgr.conns
    ensures u in t.links && t.links[u] == Link([], [])
    decreases |s.links[u].up|
  {
    if s.links[u].up == [] {
      LeadsNowhere(s, spec);
      steps, t := [], s;
    } else {
      var step := ManagerReceive(u);
      var r := MessageLeads(s, step, spec);
      steps, t := HearAll(r, u, spec);
      LeadsOn(s, [step], r, steps, t, spec);
      BesideOn(s, r, t, u);
      steps := [step] + steps;
    }
  }

  /** A report that differs from the stored one is one that can be sent. */
  lemma DifferentIsThere(s: System, u: Uid, shard: string)
    requires Settled(s, shard) && Stays(s, u) && u in s.mgr.conns && u in s.links && s.links[u] == Link([], [])
    ensures u in s.proxies && s.proxies[u].memory.Some?
    ensures var now := ReportedMeta(s.proxies[u].memory.value); s.mgr.conns[u].status.meta == now || now.Some?
  {
    assert Fine(s, u, shard);
    var r := Reports(s, u);
    assert r == [s.mgr.conns[u].status.meta, ReportedMeta(s.proxies[u].memory.value)];
    assert Settling(r, Expectation(s.mgr, u)) && r[0] == s.mgr.conns[u].status.meta && r[1] == r[|r| - 1];
  }

  /** The stored report becomes the present one. */
  lemma ReportNow(s: System, u: Uid, spec: ProxySpec) returns (steps: seq<Step>, t: System)
    requires Settled(s, spec.meta.shard) && Stays(s, u) && u in s.mgr.conns
    requires u in s.links && s.links[u] == Link([], [])
    ensures Leads(s, steps, t, spec) && Beside(s, t, u) && QuietAt(t, u)
  {
    DifferentIsThere(s, u, spec.meta.shard);
    if s.mgr.conns[u].status.meta == ReportedMeta(s.proxies[u].memory.value) {
      LeadsNowhere(s, spec);
      steps, t := [], s;
    } else {
      var tell, hear := ProxyReport(u, None), ManagerReceive(u);
      ToldAndHeard(s, u);
      var r := MessageLeads(s, tell, spec);
      t := MessageLeads(r, hear, spec);
      LeadsOn(s, [tell], r, [hear], t, spec);
      BesideOn(s, r, t, u);
      steps := [tell] + [hear];
    }
  }

  lemma ToldAndHeard(s: System, u: Uid)
    requires Stays(s, u) && u in s.mgr.conns && u in s.links && s.links[u] == Link([], [])
    requires u in s.proxies && s.proxies[u].memory.Some? && ReportedMeta(s.proxies[u].memory.value).Some?
    ensures var r := Next(s, ProxyReport(u, None));
            && Enabled(r, ManagerReceive(u)) && QuietAt(Next(r, ManagerReceive(u)), u)
  {
    var r := Next(s, ProxyReport(u, None));
    assert r.links[u].up == [Status(ReportedMeta(s.proxies[u].memory.value), None)];
    assert r.links[u].up[1..] == [];
  }

  lemma QuietConnected(s: System, u: Uid, spec: ProxySpec) returns (steps: seq<Step>, t: System)
    requires Settled(s, spec.meta.shard) && Stays(s, u) && u in s.mgr.conns
    ensures Leads(s, steps, t, spec) && Beside(s, t, u) && QuietAt(t, u)
  {
    var a, r := TakeAll(s, u, spec);
    var b, q := HearAll(r, u, spec);
    var c, end := ReportNow(q, u, spec);
    LeadsOn(s, a, r, b, q, spec);
    LeadsOn(s, a + b, q, c, end, spec);
    BesideOn(s, r, q, u);
    BesideOn(s, q, end, u);
    steps, t := a + b + c, end;
  }

  lemma QuietUnconnected(s: System, u: Uid, spec: ProxySpec) returns (steps: seq<Step>, t: System)
    requires Settled(s, spec.meta.shard) && Stays(s, u) && u !in s.mgr.conns
    ensures Leads(s, steps, t, spec) && Beside(s, t, u) && QuietAt(t, u)
  {
    assert Fine(s, u, spec.meta.shard);
    var step := Register(u, None);
    t := MessageLeads(s, step, spec);
    steps := [step];
  }

  lemma StoppedBeside(s: System, p: Pod)
    requires p.uid in s.pods && !Stays(s, p.uid) && !Active(p) && p.running == 0
    ensures var t := Next(s, PodChanged(p));
            && Enabled(s, PodChanged(p)) && Beside(s, t, p.uid) && QuietAt(t, p.uid)
  {
  }

  /** A pod that is to go stops running. */
  lemma QuietLeaving(s: System, u: Uid, spec: ProxySpec) returns (steps: seq<Step>, t: System)
    requires Settled(s, spec.meta.shard) && u in s.pods && !Stays(s, u)
    ensures Leads(s, steps, t, spec) && Beside(s, t, u) && QuietAt(t, u)
  {
    var p := s.pods[u].(deleting := true, running := 0);
    assert p.uid == u;
    StoppedBeside(s, p);
    LeadsOne(s, PodChanged(p), spec);
    steps, t := [PodChanged(p)], Next(s, PodChanged(p));
  }

  lemma QuietOne(s: System, u: Uid, spec: ProxySpec) returns (steps: seq<Step>, t: System)
    requires Settled(s, spec.meta.shard) && u in s.pods
    ensures Leads(s, steps, t, spec) && Beside(s, t, u) && QuietAt(t, u)
  {
    if !Stays(s, u) {
      steps, t := QuietLeaving(s, u, spec);
    } else if u in s.mgr.conns {
      steps, t := QuietConnected(s, u, spec);
    } else {
      steps, t := QuietUnconnected(s, u, spec);
    }
  }

  ghost function Leaving(s: System): set<Uid> {
    set u | u in s.pods && !Stays(s, u)
  }

  lemma BesideKeeps(s: System, t: System, u: Uid)
    requires Beside(s, t, u) && u in s.pods
    ensures Leaving(t) == Leaving(s)
    ensures forall v :: v in s.pods && v != u && QuietAt(s, v) ==> QuietAt(t, v)
  {
    forall v | v in s.pods
      ensures Stays(t, v) <==> Stays(s, v)
    {
    }
  }

  lemma {:induction false} QuietAll(s: System, left: set<Uid>, spec: ProxySpec) returns (steps: seq<Step>, t: System)
    requires Settled(s, spec.meta.shard) && left <= s.pods.Keys
    requires forall v :: v in s.pods && v !in left ==> QuietAt(s, v)
    ensures Leads(s, steps, t, spec) && Quiet(t) && Leaving(t) == Leaving(s) && t.vacant == s.vacant
    decreases left
  {
    if left == {} {
      LeadsNowhere(s, spec);
      assert forall v :: v in s.pods ==> QuietAt(s, v);
      steps, t := [], s;
    } else {
      var u :| u in left;
      var a, r := QuietOne(s, u, spec);
      BesideKeeps(s, r, u);
      steps, t := QuietAll(r, left - {u}, spec);
      LeadsOn(s, a, r, steps, t, spec);
      steps := a + steps;
    }
  }

  // ----- The next piece of work -----

  lemma {:induction false} SomeListing(us: set<Uid>) returns (order: seq<Uid>)
    ensures NoRepeats(order) && Elements(order) == us
    decreases us
  {
    if us == {} {
      order := [];
    } else {
      var u :| u in us;
      var rest := SomeListing(us - {u});
      assert u !in Elements(rest);
      order := rest + [u];
      assert Elements(order) == Elements(rest) + {u};
    }
  }

  lemma {:induction false} TotalZeroIff(r: map<Uid, nat>)
    ensures Total(r) == 0 <==> forall u :: u in r ==> r[u] == 0
    decreases |r|
  {
    if r != map[] {
      var u :| u in r && Total(r) == r[u] + Total(r - {u});
      TotalZeroIff(r - {u});
      assert forall v :: v in r ==> v == u || (v in r - {u} && (r - {u})[v] == r[v]);
    }
  }

  /** The pod has the spec, has been sent it, and is to stay. */
  ghost predicate Converged(s: System, u: Uid, hash: string) {
    Stays(s, u) && SentTo(s, u) && HasIt(s, u, hash)
  }

  /** All pods are in place and have converged. */
  ghost predicate AllConverged(s: System, hash: string) {
    s.vacant == 0 && forall u :: u in s.pods ==> Converged(s, u, hash)
  }

  /** No rank is left exactly when every pod has converged and every pod that went has been replaced. */
  lemma NoRankLeftIff(s: System, hash: string)
    ensures Potential(s, hash) == 0 <==> AllConverged(s, hash)
  {
    TotalZeroIff(Ranks(s, hash));
    forall u | u in s.pods
      ensures Rank(s, u, hash) == 0 <==> Converged(s, u, hash)
    {
    }
    assert forall u :: u in s.pods ==> Ranks(s, hash)[u] == Rank(s, u, hash);
  }

  /** Pods to be replaced and to be created. */
  ghost function Turnover(s: System): nat {
    2 * |Leaving(s)| + s.vacant
  }

  lemma PodGoes(s: System, u: Uid, spec: ProxySpec) returns (t: System)
    requires Settled(s, spec.meta.shard) && u in s.pods && !ActivePod(s, u)
    ensures t == Next(s, PodGone(u)) && Leads(s, [PodGone(u)], t, spec) && Turnover(t) < Turnover(s)
  {
    var step := PodGone(u);
    t := Next(s, step);
    LeadsOne(s, step, spec);
    assert Leaving(t) == Leaving(s) - {u};
  }

  lemma PodComes(s: System, spec: ProxySpec) returns (step: Step, t: System)
    requires Settled(s, spec.meta.shard) && s.vacant > 0
    ensures Leads(s, [step], t, spec) && Turnover(t) < Turnover(s)
  {
    var n := SomeOther(s.used + s.mgr.deletionExpectation);
    var p := Pod(Repeat(n), Running, false, true, 1, true);
    step := PodCreated(p);
    t := Next(s, step);
    LeadsOne(s, step, spec);
    assert p.uid !in s.used + s.mgr.deletionExpectation;
    assert Leaving(t) == Leaving(s);
  }

  /** The spec has limits, or no pod needs it. */
  ghost predicate Able(s: System, spec: ProxySpec) {
    spec.limits != [] || !Lacking(s, spec.meta.hash)
  }

  lemma AbleDropsNothing(s: System, step: Step, spec: ProxySpec)
    requires Settled(s, spec.meta.shard) && Able(s, spec) && Calm(s, step, spec)
    ensures !Drops(s, step)
  {
    if Drops(s, step) {
      var u :| u in Acted(s, step) && u in s.mgr.conns && !Acknowledged(s.mgr.conns[u].status, spec.meta.hash);
      ActedPod(s, step, u);
      AdmittedReportsAgree(s, u, spec.meta.shard);
    }
  }

  lemma ActsOnSome(s: System, order: seq<Uid>, spec: ProxySpec)
    requires Listing(s, order) && Targets(Listed(s, order), s.mgr, spec.meta.hash) != {}
    ensures Actions(s, Reconcile(order, spec, {})) > 0
  {
    var us := Acted(s, Reconcile(order, spec, {}));
    assert us == Targets(Listed(s, order), s.mgr, spec.meta.hash);
  }

  lemma PassWorks(s: System, order: seq<Uid>, spec: ProxySpec) returns (step: Step, t: System)
    requires Settled(s, spec.meta.shard) && Able(s, spec) && Listing(s, order)
    requires Targets(Listed(s, order), s.mgr, spec.meta.hash) != {}
    ensures Leads(s, [step], t, spec) && Potential(t, spec.meta.hash) < Potential(s, spec.meta.hash)
  {
    step := Reconcile(order, spec, {});
    t := Next(s, step);
    AbleDropsNothing(s, step, spec);
    LeadsOne(s, step, spec);
    ActsOnSome(s, order, spec);
  }

  /** When all messages have arrived and there is rank left, some step makes headway. */
  lemma Headway(s: System, spec: ProxySpec) returns (step: Step, t: System)
    requires Settled(s, spec.meta.shard) && Able(s, spec) && Quiet(s) && Potential(s, spec.meta.hash) > 0
    ensures Leads(s, [step], t, spec)
    ensures Potential(t, spec.meta.hash) < Potential(s, spec.meta.hash) || Turnover(t) < Turnover(s)
  {
    var order := SomeListing(s.pods.Keys);
    QuietPassWorksOrIsDone(s, order, spec);
    if Targets(Listed(s, order), s.mgr, spec.meta.hash) != {} {
      step, t := PassWorks(s, order, spec);
    } else if u :| u in s.pods && !ActivePod(s, u) {
      step := PodGone(u);
      t := PodGoes(s, u, spec);
    } else {
      TotalZeroIff(Ranks(s, spec.meta.hash));
      step, t := PodComes(s, spec);
    }
  }

  lemma {:induction false} CanConverge(s: System, spec: ProxySpec) returns (steps: seq<Step>)
    requires Settled(s, spec.meta.shard) && Able(s, spec)
    ensures AllCalm(s, steps, spec) && AllConverged(Dispatch.Run(s, steps), spec.meta.hash)
    decreases Potential(s, spec.meta.hash), Turnover(s)
  {
    var hash := spec.meta.hash;
    NoRankLeftIff(s, hash);
    if Potential(s, hash) == 0 {
      steps := [];
    } else {
      var a, q := QuietAll(s, s.pods.Keys, spec);
      if Potential(q, hash) == 0 {
        NoRankLeftIff(q, hash);
        steps := a;
      } else {
        var step, t := Headway(q, spec);
        var rest := CanConverge(t, spec);
        LeadsOn(s, a, q, [step], t, spec);
        RunAppend(s, a + [step], rest);
        CalmAppend(s, a + [step], rest, spec);
        steps := a + [step] + rest;
      }
    }
  }

  ghost predicate Converges(s: System, steps: seq<Step>, spec: ProxySpec) {
    AllCalm(s, steps, spec) && AllConverged(Dispatch.Run(s, steps), spec.meta.hash)
  }

  /** From a settled state, with everything under way, some run without faults under the fixed spec leads to a state in
      which all pods are in place and have the spec, exactly when the spec has limits or all pods are in place already
      and will report it by themselves. */
  lemma CanConvergeIff(s: System, spec: ProxySpec)
    requires Settled(s, spec.meta.shard)
    ensures (exists steps :: Converges(s, steps, spec)) <==> spec.limits != [] || !Lacking(s, spec.meta.hash)
  {
    if Able(s, spec) {
      var steps := CanConverge(s, spec);
      assert Converges(s, steps, spec);
    }
    if steps :| Converges(s, steps, spec) {
      if !Able(s, spec) {
        SettledIsTidy(s, spec.meta.shard);
        AlwaysLacking(s, steps, spec);
      }
    }
  }

  lemma SettledIsTidy(s: System, shard: string)
    requires Settled(s, shard)
    ensures Tidy(s)
  {
    forall u | ActivePod(s, u)
      ensures u in s.links && (u !in s.mgr.conns ==> s.links[u].down == [])
    {
      assert Fine(s, u, shard);
    }
  }
}
