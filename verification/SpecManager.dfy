/** The proxy side of spec dispatch: the spec manager and the two files it keeps.

    A proxy holds an expected and a current spec. It replaces the current one only by
    a spec with the same shard name and hash. Both are written to files that are opened
    without truncation, so every write appends a record and loading a file merges all
    of its records (the protobuf rule: the last non-empty scalar wins and repeated
    fields are concatenated). */
module Specs {
  import opened Wrappers

  datatype SpecMeta = SpecMeta(shard: string, hash: string)

  /** One serialised entry of the limit list. */
  type Limit = string

  datatype ProxySpec = ProxySpec(meta: SpecMeta, limits: seq<Limit>)

  /** The two spec files, each as the list of records appended to it. */
  datatype Disk = Disk(expected: seq<ProxySpec>, current: seq<ProxySpec>)

  datatype Memory = Memory(expected: Option<ProxySpec>, current: Option<ProxySpec>, unloadReason: string)

  /** A proxy is down when it has no memory. */
  datatype Proxy = Proxy(memory: Option<Memory>, disk: Disk)

  datatype MetaState = MetaState(expectedHash: string, currentHash: string)

  /** What a proxy reports; whether it leads is not known before the first election. */
  datatype ProxyStatus = ProxyStatus(meta: MetaState, unloadReason: string, leader: Option<bool>)

  /** Where a call of UpdateSpec stops: nowhere, at the first write, between the writes
      or at the second write. */
  datatype Fault = NoFault | AtExpected | Between | AtCurrent

  const EMPTY_DISK := Disk([], [])

  function PickScalar(older: string, newer: string): string {
    if newer == "" then older else newer
  }

  function MergeRecords(older: ProxySpec, newer: ProxySpec): ProxySpec {
    ProxySpec(SpecMeta(PickScalar(older.meta.shard, newer.meta.shard), PickScalar(older.meta.hash, newer.meta.hash)),
              older.limits + newer.limits)
  }

  function MergeAll(log: seq<ProxySpec>): ProxySpec
    requires log != []
  {
    if |log| == 1 then log[0] else MergeRecords(MergeAll(log[..|log| - 1]), log[|log| - 1])
  }

  function Loaded(log: seq<ProxySpec>): Option<ProxySpec> {
    if log == [] then None else Some(MergeAll(log))
  }

  predicate Loadable(current: Option<ProxySpec>, expected: ProxySpec) {
    current.None? || current.value.meta == expected.meta
  }

  /** The reason recorded when a spec cannot be loaded. */
  function UnloadReason(current: ProxySpec, expected: ProxySpec): string {
    if current.meta.shard != expected.meta.shard then
      "ShardingConfig changed from " + current.meta.shard + " to " + expected.meta.shard
    else
      "SpecHase changed from " + current.meta.hash + " to " + expected.meta.hash
  }

  function UpdateMemory(m: Memory, spec: ProxySpec): Memory {
    if Loadable(m.current, spec) then
      m.(expected := Some(spec), current := Some(spec))
    else
      m.(expected := Some(spec), unloadReason := UnloadReason(m.current.value, spec))
  }

  /** UpdateSpec on a running proxy, with a fault; a write that fails panics, which ends the process. */
  function Update(m: Memory, d: Disk, spec: ProxySpec, fault: Fault): Proxy {
    if fault.AtExpected? then Proxy(None, d)
    else
      var d1 := d.(expected := d.expected + [spec]);
      if fault.Between? then Proxy(None, d1)
      else if !Loadable(m.current, spec) then Proxy(Some(UpdateMemory(m, spec)), d1)
      else if fault.AtCurrent? then Proxy(None, d1)
      else Proxy(Some(UpdateMemory(m, spec)), d1.(current := d1.current + [spec]))
  }

  /** newSpecManager: load both files, then pass the expected spec through UpdateSpec. */
  function Restarted(d: Disk, fault: Fault): Proxy {
    var m := Memory(None, Loaded(d.current), "");
    if d.expected == [] then Proxy(Some(m), d)
    else Update(m, d, MergeAll(d.expected), fault)
  }

  /** The hashes a running proxy reports; nothing before the first spec is loaded. */
  function ReportedMeta(m: Memory): Option<MetaState> {
    if m.current.Some? && m.expected.Some? then
      Some(MetaState(m.expected.value.meta.hash, m.current.value.meta.hash))
    else None
  }

  // ----- Runs with crashes and restarts -----

  datatype Event = Receive(spec: ProxySpec, fault: Fault) | Crash | Restart(fault: Fault)

  /** Receiving needs a running proxy and restarting a stopped one; anything else changes nothing. */
  function After(p: Proxy, e: Event): Proxy {
    match e
    case Receive(spec, fault) => if p.memory.Some? then Update(p.memory.value, p.disk, spec, fault) else p
    case Crash => p.(memory := None)
    case Restart(fault) => if p.memory.None? then Restarted(p.disk, fault) else p
  }

  function Run(p: Proxy, es: seq<Event>): Proxy {
    if es == [] then p else After(Run(p, es[..|es| - 1]), es[|es| - 1])
  }

  /** The current spec's identity: from memory while the proxy runs, else what its file would load. */
  function CurrentMeta(p: Proxy): Option<SpecMeta> {
    var c := if p.memory.Some? then p.memory.value.current else Loaded(p.disk.current);
    if c.Some? then Some(c.value.meta) else None
  }

  ghost predicate AllMeta(log: seq<ProxySpec>, meta: SpecMeta) {
    forall i :: 0 <= i < |log| ==> log[i].meta == meta
  }

  /** What every event keeps. */
  ghost predicate Consistent(p: Proxy) {
    && (p.disk.current != [] ==> p.disk.expected != [] && AllMeta(p.disk.current, p.disk.current[0].meta))
    && (p.memory.Some? ==>
          var m := p.memory.value;
          && (m.current.Some? <==> m.expected.Some?)
          && (m.current.Some? <==> p.disk.current != [])
          && (m.expected.Some? <==> p.disk.expected != [])
          && (m.current.Some? ==> m.current.value.meta == p.disk.current[0].meta)
          && (m.current.Some? && m.current.value.meta != m.expected.value.meta ==>
                m.unloadReason == UnloadReason(m.current.value, m.expected.value)))
  }

  lemma {:induction false} MergeKeepsMeta(log: seq<ProxySpec>, meta: SpecMeta)
    requires log != [] && AllMeta(log, meta)
    ensures MergeAll(log).meta == meta
  {
    if |log| > 1 {
      MergeKeepsMeta(log[..|log| - 1], meta);
    }
  }

  /** Record `i` is the last that has the field. */
  ghost predicate LastSet(log: seq<ProxySpec>, field: ProxySpec -> string, i: int) {
    0 <= i < |log| && field(log[i]) != "" && forall j :: i < j < |log| ==> field(log[j]) == ""
  }

  /** Loading takes shard name and hash each from the last record that has one. */
  lemma {:induction false} MergeTakesLast(log: seq<ProxySpec>)
    requires log != []
    ensures forall i :: LastSet(log, (r: ProxySpec) => r.meta.shard, i) ==>
                          MergeAll(log).meta.shard == log[i].meta.shard
    ensures forall i :: LastSet(log, (r: ProxySpec) => r.meta.hash, i) ==>
                          MergeAll(log).meta.hash == log[i].meta.hash
    ensures (forall r :: r in log ==> r.meta.shard == "") ==> MergeAll(log).meta.shard == ""
    ensures (forall r :: r in log ==> r.meta.hash == "") ==> MergeAll(log).meta.hash == ""
  {
    if |log| > 1 {
      var front, last := log[..|log| - 1], log[|log| - 1];
      assert log == front + [last];
      MergeTakesLast(front);
      var shard, hash := (r: ProxySpec) => r.meta.shard, (r: ProxySpec) => r.meta.hash;
      forall i | LastSet(log, shard, i)
        ensures MergeAll(log).meta.shard == log[i].meta.shard
      {
        if i < |log| - 1 {
          assert LastSet(front, shard, i);
        }
      }
      forall i | LastSet(log, hash, i)
        ensures MergeAll(log).meta.hash == log[i].meta.hash
      {
        if i < |log| - 1 {
          assert LastSet(front, hash, i);
        }
      }
    }
  }

  lemma LoadedMeta(d: Disk)
    requires d.current != [] && AllMeta(d.current, d.current[0].meta)
    ensures Loaded(d.current).value.meta == d.current[0].meta
  {
    MergeKeepsMeta(d.current, d.current[0].meta);
  }

  lemma EventKeepsConsistent(p: Proxy, e: Event)
    requires Consistent(p)
    ensures Consistent(After(p, e))
    ensures CurrentMeta(p).Some? ==> CurrentMeta(After(p, e)) == CurrentMeta(p)
  {
    if p.disk.current != [] {
      LoadedMeta(p.disk);
    }
    var q := After(p, e);
    if q.disk.current != [] {
      assert AllMeta(q.disk.current, q.disk.current[0].meta);
      LoadedMeta(q.disk);
    }
  }

  /** A proxy that starts with empty files keeps a consistent pair of specs through every run, and the
      shard name and hash of its current spec never change once set. */
  lemma {:induction false} CurrentIsWriteOnce(es: seq<Event>, fs: seq<Event>)
    ensures var p := Run(Proxy(None, EMPTY_DISK), es);
            var q := Run(p, fs);
            Consistent(p) && Consistent(q) && (CurrentMeta(p).Some? ==> CurrentMeta(q) == CurrentMeta(p))
    decreases |es| + |fs|
  {
    var start := Proxy(None, EMPTY_DISK);
    if fs != [] {
      CurrentIsWriteOnce(es, fs[..|fs| - 1]);
      EventKeepsConsistent(Run(Run(start, es), fs[..|fs| - 1]), fs[|fs| - 1]);
    } else if es != [] {
      CurrentIsWriteOnce(es[..|es| - 1], []);
      EventKeepsConsistent(Run(start, es[..|es| - 1]), es[|es| - 1]);
    }
  }

  /** In every reachable state of a running proxy the status is present exactly when a current spec is,
      and then the expected spec is present too, so building the status never fails. */
  lemma StatusAlwaysDefined(es: seq<Event>)
    ensures var p := Run(Proxy(None, EMPTY_DISK), es);
            p.memory.Some? ==>
              && (p.memory.value.current.Some? ==> p.memory.value.expected.Some?)
              && (ReportedMeta(p.memory.value).Some? <==> p.disk.current != [])
  {
    CurrentIsWriteOnce(es, []);
  }

  // ----- What a restart does to the limits in force -----

  function LimitSet(limits: seq<Limit>): set<Limit> {
    set l | l in limits
  }

  function LogLimits(log: seq<ProxySpec>): set<Limit> {
    set r, l | r in log && l in r.limits :: l
  }

  lemma {:induction false} MergeCollectsLimits(log: seq<ProxySpec>)
    requires log != []
    ensures LimitSet(MergeAll(log).limits) == LogLimits(log)
  {
    if |log| == 1 {
      assert log == [log[0]];
    } else {
      var front, last := log[..|log| - 1], log[|log| - 1];
      assert log == front + [last];
      MergeCollectsLimits(front);
      assert MergeAll(log).limits == MergeAll(front).limits + last.limits;
      assert LogLimits(log) == LogLimits(front) + LimitSet(last.limits);
    }
  }

  /** The file a restart takes the current spec from. */
  function ReloadedLog(d: Disk): seq<ProxySpec>
    requires d.expected != [] && d.current != []
  {
    if Loadable(Loaded(d.current), MergeAll(d.expected)) then d.expected else d.current
  }

  /** A crash and restart leaves the set of limits in force unchanged exactly when the file that is
      reloaded holds the limits in force and no others. The hash always stays the same. */
  lemma RestartKeepsLimitsIff(p: Proxy)
    requires Consistent(p) && p.memory.Some? && p.memory.value.current.Some?
    ensures var q := After(After(p, Crash), Restart(NoFault));
            && q.memory.Some? && q.memory.value.current.Some?
            && q.memory.value.current.value.meta == p.memory.value.current.value.meta
            && (LimitSet(q.memory.value.current.value.limits) == LimitSet(p.memory.value.current.value.limits)
                <==> LogLimits(ReloadedLog(p.disk)) == LimitSet(p.memory.value.current.value.limits))
  {
    LoadedMeta(p.disk);
    MergeCollectsLimits(p.disk.expected);
    MergeCollectsLimits(p.disk.current);
  }

  /** The condition of RestartKeepsLimitsIff does fail: a proxy that received spec a, then spec b,
      then spec a again comes back under the hash of a with the limits of b in force as well. */
  lemma RestartCanMixLimits()
    ensures var a, b := ProxySpec(SpecMeta("s", "1"), ["x"]), ProxySpec(SpecMeta("s", "2"), ["y"]);
            var p := Run(Proxy(None, EMPTY_DISK),
                         [Restart(NoFault), Receive(a, NoFault), Receive(b, NoFault), Receive(a, NoFault)]);
            var q := After(After(p, Crash), Restart(NoFault));
            && p.memory.Some? && p.memory.value.current == Some(a)
            && q.memory.Some? && q.memory.value.current == Some(ProxySpec(a.meta, ["x", "y", "x"]))
  {
    var a, b := ProxySpec(SpecMeta("s", "1"), ["x"]), ProxySpec(SpecMeta("s", "2"), ["y"]);
    var es := [Restart(NoFault), Receive(a, NoFault), Receive(b, NoFault), Receive(a, NoFault)];
    var p0 := Proxy(None, EMPTY_DISK);
    assert es[..3][..2][..1][..0] == [];
    var p1 := After(p0, es[0]);
    assert Run(p0, es[..3][..2][..1]) == p1;
    var p2 := After(p1, es[1]);
    assert Run(p0, es[..3][..2]) == p2;
    var p3 := After(p2, es[2]);
    assert Run(p0, es[..3]) == p3;
    var p := After(p3, es[3]);
    assert Run(p0, es) == p;
    assert p.disk == Disk([a, b, a], [a, a]);
    assert p.disk.expected[..2][..1] == [a];
    assert MergeAll(p.disk.expected[..2]) == ProxySpec(b.meta, ["x", "y"]);
    assert MergeAll(p.disk.expected) == ProxySpec(a.meta, ["x", "y", "x"]);
    assert p.disk.current[..1] == [a];
    assert MergeAll(p.disk.current).meta == a.meta;
  }

  // ----- The reason that a spec was not loaded -----

  /** The two specs agree and a reason against an earlier one is reported all the same. */
  predicate Stale(m: Memory) {
    m.current.Some? && m.expected.Some? && m.current.value.meta == m.expected.value.meta && m.unloadReason != ""
  }

  lemma ReasonIsNotEmpty(a: ProxySpec, b: ProxySpec)
    ensures UnloadReason(a, b) != ""
  {
    assert |UnloadReason(a, b)| > 0;
  }

  /** A proxy that runs after an event reports a stale reason exactly when it received a spec that can be loaded and
      had a reason before; a restart never leaves one. */
  lemma StaleAfterIff(p: Proxy, e: Event)
    requires Consistent(p) && After(p, e).memory.Some?
    ensures Stale(After(p, e).memory.value) <==>
              && p.memory.Some?
              && (if e.Receive? then Loadable(p.memory.value.current, e.spec) && p.memory.value.unloadReason != ""
                  else Stale(p.memory.value))
  {
    if p.disk.current != [] {
      LoadedMeta(p.disk);
    }
  }

  function Receives(ss: seq<ProxySpec>): seq<Event> {
    seq(|ss|, i requires 0 <= i < |ss| => Receive(ss[i], NoFault))
  }

  /** The identity that a running proxy has after its first spec. */
  function FirstMeta(m: Memory, ss: seq<ProxySpec>): SpecMeta
    requires ss != []
  {
    if m.current.Some? then m.current.value.meta else ss[0].meta
  }

  ghost predicate Differs(ss: seq<ProxySpec>, meta: SpecMeta) {
    exists i :: 0 <= i < |ss| && ss[i].meta != meta
  }

  lemma ReceivedOne(q: Proxy, spec: ProxySpec)
    requires Consistent(q) && q.memory.Some?
    ensures var m, r := q.memory.value, After(q, Receive(spec, NoFault));
            var meta := FirstMeta(m, [spec]);
            && Consistent(r) && r.memory.Some? && r.memory.value.expected == Some(spec)
            && r.memory.value.current.Some? && r.memory.value.current.value.meta == meta
            && (r.memory.value.unloadReason != "" <==> m.unloadReason != "" || spec.meta != meta)
  {
    EventKeepsConsistent(q, Receive(spec, NoFault));
    if q.memory.value.current.Some? {
      ReasonIsNotEmpty(q.memory.value.current.value, spec);
    }
  }

  lemma DiffersOneMore(ss: seq<ProxySpec>, last: ProxySpec, meta: SpecMeta)
    ensures Differs(ss + [last], meta) <==> Differs(ss, meta) || last.meta != meta
  {
    assert (ss + [last])[|ss|] == last;
    forall i | 0 <= i < |ss|
      ensures (ss + [last])[i] == ss[i]
    {
    }
  }

  lemma {:induction false} ReasonAfter(p: Proxy, ss: seq<ProxySpec>)
    requires Consistent(p) && p.memory.Some? && ss != []
    ensures var q, meta := Run(p, Receives(ss)), FirstMeta(p.memory.value, ss);
            && Consistent(q) && q.memory.Some? && q.memory.value.expected == Some(ss[|ss| - 1])
            && q.memory.value.current.Some? && q.memory.value.current.value.meta == meta
            && (q.memory.value.unloadReason != "" <==> p.memory.value.unloadReason != "" || Differs(ss, meta))
  {
    var front, last := ss[..|ss| - 1], ss[|ss| - 1];
    assert ss == front + [last] && Receives(ss)[..|ss| - 1] == Receives(front);
    DiffersOneMore(front, last, FirstMeta(p.memory.value, ss));
    if front != [] {
      ReasonAfter(p, front);
    }
    ReceivedOne(Run(p, Receives(front)), last);
  }

  /** After any specs received without faults a stale reason is reported exactly when the last one is that of the
      shard and some other one was not, or a reason was there before. */
  lemma StaleReasonIff(p: Proxy, ss: seq<ProxySpec>)
    requires Consistent(p) && p.memory.Some? && ss != []
    ensures var q, meta := Run(p, Receives(ss)), FirstMeta(p.memory.value, ss);
            && q.memory.Some?
            && (Stale(q.memory.value) <==>
                  ss[|ss| - 1].meta == meta && (p.memory.value.unloadReason != "" || Differs(ss, meta)))
  {
    ReasonAfter(p, ss);
  }

  /** Such a run: after specs a, b and a again the hashes agree and the reason for b is still reported. */
  lemma ReasonIsNeverCleared()
    ensures var a, b := ProxySpec(SpecMeta("s", "1"), ["x"]), ProxySpec(SpecMeta("s", "2"), ["y"]);
            var p := Run(Proxy(None, EMPTY_DISK),
                         [Restart(NoFault), Receive(a, NoFault), Receive(b, NoFault), Receive(a, NoFault)]);
            && p.memory.Some? && ReportedMeta(p.memory.value) == Some(MetaState("1", "1"))
            && p.memory.value.unloadReason == UnloadReason(a, b)
  {
    var a, b := ProxySpec(SpecMeta("s", "1"), ["x"]), ProxySpec(SpecMeta("s", "2"), ["y"]);
    var es := [Restart(NoFault), Receive(a, NoFault), Receive(b, NoFault), Receive(a, NoFault)];
    var p0 := Proxy(None, EMPTY_DISK);
    assert es[..3][..2][..1][..0] == [];
    var p1 := After(p0, es[0]);
    assert Run(p0, es[..3][..2][..1]) == p1;
    var p2 := After(p1, es[1]);
    assert Run(p0, es[..3][..2]) == p2;
    var p3 := After(p2, es[2]);
    assert Run(p0, es[..3]) == p3;
    assert Run(p0, es) == After(p3, es[3]);
  }

  // ----- The spec manager as the code has it -----

  class SpecManager {
    var expectedSpec: Option<ProxySpec>
    var currentSpec: Option<ProxySpec>
    var unloadReason: string
    var leaderElection: Option<bool>
    var disk: Disk

    ghost function View(): Memory
      reads this
    {
      Memory(expectedSpec, currentSpec, unloadReason)
    }

    ghost predicate Valid()
      reads this
    {
      Consistent(Proxy(Some(View()), disk))
    }

    /** Loading never fails here; a write fault at startup is the one that UpdateSpec can meet. */
    constructor (files: Disk)
      requires Consistent(Proxy(None, files))
      ensures Proxy(Some(View()), disk) == Restarted(files, NoFault)
      ensures Valid() && disk.expected[..|files.expected|] == files.expected
      ensures expectedSpec == (if files.expected == [] then None else Some(MergeAll(files.expected)))
      ensures currentSpec.Some? <==> files.expected != []
      ensures files.current != [] ==> currentSpec.value.meta == files.current[0].meta
    {
      expectedSpec, currentSpec, unloadReason, leaderElection := None, Loaded(files.current), "", None;
      disk := files;
      new;
      if files.expected != [] {
        UpdateSpec(MergeAll(files.expected));
      }
      if files.current != [] {
        LoadedMeta(files);
      }
      EventKeepsConsistent(Proxy(None, files), Restart(NoFault));
    }

    method UpdateSpec(spec: ProxySpec)
      modifies this
      ensures Proxy(Some(View()), disk) == Update(old(View()), old(disk), spec, NoFault)
      ensures expectedSpec == Some(spec) && disk.expected == old(disk.expected) + [spec]
      ensures if old(currentSpec).None? || old(currentSpec).value.meta == spec.meta
              then currentSpec == Some(spec) && disk.current == old(disk.current) + [spec]
                   && unloadReason == old(unloadReason)
              else currentSpec == old(currentSpec) && disk.current == old(disk.current) && unloadReason != ""
      ensures old(Valid()) ==> Valid()
    {
      ghost var before := Proxy(Some(View()), disk);
      expectedSpec := Some(spec);
      disk := disk.(expected := disk.expected + [spec]);
      var reason := CheckLoadable();
      if reason.Some? {
        unloadReason := reason.value;
        ReasonIsNotEmpty(currentSpec.value, spec);
      } else {
        currentSpec := expectedSpec;
        disk := disk.(current := disk.current + [spec]);
      }
      if Consistent(before) {
        EventKeepsConsistent(before, Receive(spec, NoFault));
      }
    }

    method CheckLoadable() returns (reason: Option<string>)
      requires expectedSpec.Some?
      ensures reason.None? <==> Loadable(currentSpec, expectedSpec.value)
      ensures reason.Some? ==> reason.value == UnloadReason(currentSpec.value, expectedSpec.value)
      ensures reason.Some? ==>
                var a, b := currentSpec.value.meta, expectedSpec.value.meta;
                a != b && reason.value == if a.shard != b.shard
                                          then "ShardingConfig changed from " + a.shard + " to " + b.shard
                                          else "SpecHase changed from " + a.hash + " to " + b.hash
    {
      if currentSpec.None? {
        return None;
      }
      if currentSpec.value.meta.shard != expectedSpec.value.meta.shard {
        return Some("ShardingConfig changed from " + currentSpec.value.meta.shard +
                    " to " + expectedSpec.value.meta.shard);
      }
      if currentSpec.value.meta.hash != expectedSpec.value.meta.hash {
        return Some("SpecHase changed from " + currentSpec.value.meta.hash + " to " + expectedSpec.value.meta.hash);
      }
      return None;
    }

    method UpdateLeaderElection(state: Option<bool>) returns (report: bool)
      modifies this`leaderElection
      ensures leaderElection == state && (report <==> old(leaderElection) != state)
    {
      report := leaderElection != state;
      leaderElection := state;
    }

    method GetStatus() returns (status: Option<ProxyStatus>)
      requires Valid()
      ensures status.Some? <==> currentSpec.Some?
      ensures status.Some? ==> status.value.leader == leaderElection && ReportedMeta(View()) == Some(status.value.meta)
      ensures status.Some? ==> && status.value.meta.expectedHash == expectedSpec.value.meta.hash
                               && status.value.meta.currentHash == currentSpec.value.meta.hash
      ensures status.Some? ==> status.value.unloadReason == unloadReason
      ensures status.Some? && currentSpec.value.meta != expectedSpec.value.meta ==>
                status.value.unloadReason == UnloadReason(currentSpec.value, expectedSpec.value)
    {
      if currentSpec.None? {
        return None;
      }
      var meta := MetaState(expectedSpec.value.meta.hash, currentSpec.value.meta.hash);
      return Some(ProxyStatus(meta, unloadReason, leaderElection));
    }
  }
}
