/** The lease that closes breakers after their sleeping window, alone and in runs of the whole engine. */
module BreakerLease {
  import opened Wrappers
  import opened BreakerRules
  import opened BreakerState

  /** The lease's set of pending keys and its delaying queue: when each state is due. States are named by `R`. */
  datatype Pending<R(==)> = Pending(stateSet: map<Key, R>, queue: map<R, int>)

  /** An opened state with a recovery time is scheduled unless its key is pending already. */
  function Registered<R>(l: Pending<R>, r: R, key: Key, b: Breaker): Pending<R> {
    if b.phase == Opened && key !in l.stateSet && b.recoverAt.Some? then
      Pending(l.stateSet[key := r], l.queue[r := b.recoverAt.value])
    else l
  }

  /** Whether a state that is due has to wait again. */
  predicate TooEarly(b: Breaker, now: int) {
    b.recoverAt.Some? && now < b.recoverAt.value
  }

  function Woken<R>(l: Pending<R>, r: R, key: Key, b: Breaker, now: int): (Pending<R>, Breaker) {
    if TooEarly(b, now) then (l.(queue := l.queue[r := b.recoverAt.value]), b)
    else (Pending(l.stateSet - {key}, l.queue - {r}), Recovered(b, now))
  }

  class Lease {
    var stateSet: map<Key, State>
    var queue: map<State, int>

    ghost function View(): Pending<State>
      reads this
    {
      Pending(stateSet, queue)
    }

    constructor ()
      ensures View() == Pending(map[], map[])
    {
      stateSet, queue := map[], map[];
    }

    method RegisterState(st: State)
      modifies this
      ensures View() == Registered(old(View()), st, st.key, st.View())
      ensures if st.phase == Opened && st.recoverAt.Some? && st.key !in old(stateSet)
              then stateSet == old(stateSet)[st.key := st] && queue == old(queue)[st := st.recoverAt.value]
              else stateSet == old(stateSet) && queue == old(queue)
    {
      if st.phase == Opened {
        if st.key !in stateSet {
          if st.recoverAt.Some? {
            stateSet := stateSet[st.key := st];
            queue := queue[st := st.recoverAt.value];
          }
        }
      }
    }

    /** One turn of the processing loop, on a state that the queue delivers. */
    method Process(st: State, now: int)
      requires st in queue && queue[st] <= now
      modifies this, st
      ensures (View(), st.View()) == Woken(old(View()), st, st.key, old(st.View()), now)
      ensures if old(st.recoverAt).Some? && now < old(st.recoverAt).value
              then st.View() == old(st.View()) && stateSet == old(stateSet)
                   && queue == old(queue)[st := st.recoverAt.value]
              else st.phase == Closed && stateSet == old(stateSet) - {st.key} && queue == old(queue) - {st}
    {
      if st.recoverAt.Some? && now < st.recoverAt.value {
        queue := queue[st := st.recoverAt.value];
      } else {
        stateSet := stateSet - {st.key};
        queue := queue - {st};
        st.RecoverBreaker(now);
      }
    }
  }

  // ----- One rule's part in a request -----

  /** Whether a rule lets a request through, given its breaker and its limiter's answer; a force-closed rule lets
      everything through. */
  predicate Permits(rule: RateLimiting, b: Breaker, allows: bool) {
    match rule.trigger
    case ForceClosed => true
    case ForceOpened => false
    case LimiterOnly => b.phase == Closed && allows
    case Normal => b.phase == Closed && allows
  }

  /** Whether the limiter of the rule is asked. */
  predicate Asks(rule: RateLimiting, b: Breaker) {
    rule.trigger == LimiterOnly || (rule.trigger == Normal && b.phase == Closed)
  }

  /** A breaker that is to open needs a recover policy, or the one that is missing is dereferenced. */
  predicate Panics(rule: RateLimiting, b: Breaker, allows: bool) {
    rule.trigger == Normal && b.phase == Closed && !allows && rule.recovery.NoPolicy?
  }

  function NextBreaker(rule: RateLimiting, b: Breaker, allows: bool, now: int): Breaker {
    match rule.trigger
    case ForceOpened => Tripped(b, now)
    case ForceClosed => Recovered(b, now)
    case LimiterOnly => Recovered(b, now)
    case Normal =>
      if b.phase == Opened || allows || rule.recovery.NoPolicy? then b
      else if rule.recovery.SleepingWindow? then TrippedFor(b, now, rule.recovery.size)
      else Tripped(b, now)
  }

  /** Whether the request schedules the breaker's recovery. */
  predicate Schedules(rule: RateLimiting, b: Breaker, allows: bool) {
    rule.trigger == Normal && b.phase == Closed && !allows && rule.recovery.SleepingWindow?
  }

  /** What a request does to the breaker of a rule: under a normal policy it opens when the limiter refuses, the forced
      policies move it as they say, and every other breaker that is open closes or stays as it is. A change is timed,
      and the recovery time is set by an opening with a window and cleared by any other change. */
  lemma BreakerMoves(rule: RateLimiting, b: Breaker, allows: bool, now: int)
    ensures var n := NextBreaker(rule, b, allows, now);
            && (n.phase == Opened <==>
                  || rule.trigger == ForceOpened
                  || (rule.trigger == Normal && (b.phase == Opened || (!allows && rule.recovery != NoPolicy))))
            && (n.phase == b.phase ==> n == b)
            && (n.phase != b.phase ==> n.since == Some(now))
            && (n.phase != b.phase ==>
                  n.recoverAt == if n.phase == Opened && rule.trigger == Normal && rule.recovery.SleepingWindow?
                                 then Some(now + rule.recovery.size) else None)
            && (Schedules(rule, b, allows) <==> n.phase != b.phase && n.recoverAt.Some?)
  {
  }

  // ----- Runs -----

  /** The engine: the clock, the rules, the state of each rule, all states ever made with their keys, and the lease. */
  datatype Engine = Engine(now: int, rules: map<Key, RateLimiting>, refs: map<Key, nat>, objs: map<nat, Breaker>,
                           keys: map<nat, Key>, lease: Pending<nat>)

  const START := Engine(0, map[], map[], map[], map[], Pending(map[], map[]))

  datatype Step =
    | Tick(elapsed: nat)
    | Create(key: Key, rule: RateLimiting, ref: nat)
    | Replace(key: Key, rule: RateLimiting)
    | Delete(key: Key)
    | Request(key: Key, allows: bool)
    | Recover(key: Key)
    | Wake(ref: nat)

  /** A rule is replaced without being deleted only while its breaker is new: when a config has two rules
      with one name. */
  predicate Enabled(e: Engine, step: Step) {
    match step
    case Tick(_) => true
    case Create(k, _, r) => k !in e.rules && r !in e.objs
    case Replace(k, _) => k in e.rules && k in e.refs && e.refs[k] in e.objs && e.objs[e.refs[k]] == FRESH
    case Delete(k) => true
    case Request(k, _) => k in e.rules && k in e.refs && e.refs[k] in e.objs
    case Recover(k) => k in e.refs && e.refs[k] in e.objs
    case Wake(r) => r in e.objs && r in e.keys && r in e.lease.queue && e.lease.queue[r] <= e.now
  }

  function Next(e: Engine, step: Step): Engine {
    if !Enabled(e, step) then e else
    match step
    case Tick(d) => e.(now := e.now + d)
    case Create(k, rule, r) =>
      e.(rules := e.rules[k := rule], refs := e.refs[k := r], objs := e.objs[r := FRESH], keys := e.keys[r := k])
    case Replace(k, rule) => e.(rules := e.rules[k := rule])
    case Delete(k) => e.(rules := e.rules - {k}, refs := e.refs - {k})
    case Request(k, allows) =>
      var r, rule := e.refs[k], e.rules[k];
      var b := NextBreaker(rule, e.objs[r], allows, e.now);
      e.(objs := e.objs[r := b],
         lease := if Schedules(rule, e.objs[r], allows) then Registered(e.lease, r, k, b) else e.lease)
    case Recover(k) => e.(objs := e.objs[e.refs[k] := Recovered(e.objs[e.refs[k]], e.now)])
    case Wake(r) =>
      var (lease, b) := Woken(e.lease, r, e.keys[r], e.objs[r], e.now);
      e.(lease := lease, objs := e.objs[r := b])
  }

  function Run(e: Engine, steps: seq<Step>): Engine {
    if steps == [] then e else Next(Run(e, steps[..|steps| - 1]), steps[|steps| - 1])
  }

  // ----- What every step keeps -----

  predicate Sleeping(rule: RateLimiting) {
    rule.trigger == Normal && rule.recovery.SleepingWindow?
  }

  /** References are consistent, and the pending set and the queue hold the same states. */
  ghost predicate Linked(e: Engine) {
    && e.rules.Keys == e.refs.Keys && e.objs.Keys == e.keys.Keys
    && (forall k :: k in e.refs ==> e.refs[k] in e.objs && e.keys[e.refs[k]] == k)
    && (forall r :: r in e.lease.queue ==>
          r in e.objs && e.keys[r] in e.lease.stateSet && e.lease.stateSet[e.keys[r]] == r)
    && (forall k :: k in e.lease.stateSet ==>
                      e.lease.stateSet[k] in e.lease.queue && e.keys[e.lease.stateSet[k]] == k)
    && (forall r :: r in e.lease.queue ==> e.objs[r].since.Some?)
    && (forall k :: k in e.rules && e.refs[k] in e.lease.queue ==> Sleeping(e.rules[k]))
    && (forall r :: r in e.objs && e.objs[r].phase == Closed ==> e.objs[r].recoverAt.None?)
  }

  lemma RulesKeepLinked(e: Engine, step: Step)
    requires Linked(e) && (step.Create? || step.Replace? || step.Delete? || step.Tick? || step.Recover?)
    ensures Linked(Next(e, step))
  {
  }

  lemma RequestKeepsLinked(e: Engine, k: Key, allows: bool)
    requires Linked(e)
    ensures Linked(Next(e, Request(k, allows)))
  {
  }

  lemma WakeKeepsLinked(e: Engine, r: nat)
    requires Linked(e)
    ensures Linked(Next(e, Wake(r)))
  {
  }

  lemma StepKeepsLinked(e: Engine, step: Step)
    requires Linked(e)
    ensures Linked(Next(e, step))
  {
    match step
    case Request(k, allows) => RequestKeepsLinked(e, k, allows);
    case Wake(r) => WakeKeepsLinked(e, r);
    case _ => RulesKeepLinked(e, step);
  }

  /** The window's promise for one rule: its pending entry is at most one window away, and an opened breaker has a
      recovery time at most one window away and a pending entry due no later than that. */
  ghost predicate Kept(e: Engine, k: Key)
    requires Linked(e) && k in e.rules
  {
    var r, rule := e.refs[k], e.rules[k];
    Sleeping(rule) ==>
      && (r in e.lease.queue ==> e.lease.queue[r] <= e.now + rule.recovery.size)
      && (e.objs[r].phase == Opened ==>
            && e.objs[r].recoverAt.Some? && e.objs[r].recoverAt.value <= e.now + rule.recovery.size
            && r in e.lease.queue && e.lease.queue[r] <= e.objs[r].recoverAt.value)
  }

  ghost predicate AllKept(e: Engine) {
    Linked(e) && forall k :: k in e.rules ==> Kept(e, k)
  }

  /** The request opens a breaker with a window while an earlier state of the key, from a rule deleted since, is
      pending. */
  predicate Clashes(e: Engine, step: Step) {
    && step.Request? && Enabled(e, step)
    && Schedules(e.rules[step.key], e.objs[e.refs[step.key]], step.allows)
    && step.key in e.lease.stateSet && e.lease.stateSet[step.key] != e.refs[step.key]
  }

  lemma RequestKeepsOther(e: Engine, k: Key, allows: bool, l: Key)
    requires AllKept(e) && l in e.rules && l != k
    ensures Linked(Next(e, Request(k, allows))) && l in Next(e, Request(k, allows)).rules
            && Kept(Next(e, Request(k, allows)), l)
  {
    RequestKeepsLinked(e, k, allows);
    assert Kept(e, l);
  }

  /** A request keeps the promise for its own rule exactly when it does not clash. */
  lemma RequestKeepsOwnIff(e: Engine, k: Key, allows: bool, f: Engine)
    requires Linked(e) && k in e.rules && Kept(e, k) && f == Next(e, Request(k, allows)) && Linked(f) && k in f.rules
    ensures Kept(f, k) <==> !Clashes(e, Request(k, allows))
  {
    var r := e.refs[k];
    assert r in e.lease.queue ==> k in e.lease.stateSet && e.lease.stateSet[k] == r;
  }

  lemma RequestKeepsIff(e: Engine, k: Key, allows: bool)
    requires AllKept(e)
    ensures AllKept(Next(e, Request(k, allows))) <==> !Clashes(e, Request(k, allows))
  {
    RequestKeepsLinked(e, k, allows);
    var f := Next(e, Request(k, allows));
    assert f.rules == e.rules;
    forall l | l in f.rules && l != k
      ensures Kept(f, l)
    {
      RequestKeepsOther(e, k, allows, l);
    }
    if k in e.rules {
      RequestKeepsOwnIff(e, k, allows, f);
    }
  }

  lemma WakeKeeps(e: Engine, r: nat)
    requires AllKept(e)
    ensures AllKept(Next(e, Wake(r)))
  {
    WakeKeepsLinked(e, r);
    var f := Next(e, Wake(r));
    forall l | l in f.rules
      ensures Kept(f, l)
    {
      assert Kept(e, l);
    }
  }

  lemma RulesKeep(e: Engine, step: Step)
    requires AllKept(e) && (step.Create? || step.Replace? || step.Delete? || step.Tick? || step.Recover?)
    ensures AllKept(Next(e, step))
  {
    RulesKeepLinked(e, step);
    var f := Next(e, step);
    forall l | l in f.rules
      ensures Kept(f, l)
    {
      assert l in e.rules ==> Kept(e, l);
    }
  }

  /** A step keeps the promise exactly when it does not clash. */
  lemma StepKeepsAllIff(e: Engine, step: Step)
    requires AllKept(e)
    ensures AllKept(Next(e, step)) <==> !Clashes(e, step)
  {
    match step
    case Request(k, allows) => RequestKeepsIff(e, k, allows);
    case Wake(r) => WakeKeeps(e, r);
    case _ => RulesKeep(e, step);
  }

  /** No request of the run clashes. */
  predicate NoClash(steps: seq<Step>) {
    steps == [] ||
    var front := steps[..|steps| - 1];
    NoClash(front) && !Clashes(Run(START, front), steps[|steps| - 1])
  }

  /** The promise is kept at every point of the run. */
  ghost predicate KeptThroughout(steps: seq<Step>) {
    AllKept(Run(START, steps)) && (steps == [] || KeptThroughout(steps[..|steps| - 1]))
  }

  /** At every point of a run every opened breaker with a sleeping window has a recovery time at most one window away
      and a pending entry due by then, exactly when no request of the run clashes. */
  lemma {:induction false} WindowsAreKeptIff(steps: seq<Step>)
    ensures KeptThroughout(steps) <==> NoClash(steps)
  {
    if steps != [] {
      var front := steps[..|steps| - 1];
      WindowsAreKeptIff(front);
      if KeptThroughout(front) {
        StepKeepsAllIff(Run(START, front), steps[|steps| - 1]);
      }
    }
  }

  /** The lease closes an opened breaker exactly when it is not before its recovery time, whatever happened since the
      entry was made; and it can always do so from that time on. */
  lemma LeaseClosesOnTime(e: Engine, k: Key)
    requires AllKept(e) && k in e.rules && Sleeping(e.rules[k]) && e.objs[e.refs[k]].phase == Opened
    ensures var r := e.refs[k];
            && (e.objs[r].recoverAt.value <= e.now ==> Enabled(e, Wake(r)))
            && (Enabled(e, Wake(r)) ==>
                  (Next(e, Wake(r)).objs[r].phase == Closed <==> e.objs[r].recoverAt.value <= e.now))
  {
    assert Kept(e, k);
  }

  /** A breaker that opens with a window gets a pending entry exactly when no other state of its key is pending. */
  lemma ScheduledIff(e: Engine, k: Key)
    requires Linked(e) && k in e.rules && Sleeping(e.rules[k]) && e.objs[e.refs[k]].phase == Closed
    ensures var f := Next(e, Request(k, false));
            && f.refs[k] == e.refs[k] && f.objs[f.refs[k]].phase == Opened
            && (f.refs[k] in f.lease.queue <==> k !in e.lease.stateSet || e.lease.stateSet[k] == e.refs[k])
  {
    var r := e.refs[k];
    assert r in e.lease.queue ==> e.keys[r] in e.lease.stateSet && e.lease.stateSet[e.keys[r]] == r;
  }

  // ----- Breakers that stay open -----

  predicate Touches(step: Step, k: Key) {
    (step.Create? || step.Replace? || step.Delete? || step.Recover?) && step.key == k
  }

  /** An opened breaker of a normal rule that nothing is scheduled for. */
  ghost predicate OpenUnscheduled(e: Engine, k: Key) {
    && Linked(e) && k in e.rules && e.rules[k].trigger == Normal
    && e.objs[e.refs[k]].phase == Opened && e.refs[k] !in e.lease.queue
  }

  lemma StepKeepsOpen(e: Engine, step: Step, k: Key)
    requires OpenUnscheduled(e, k) && !Touches(step, k)
    ensures OpenUnscheduled(Next(e, step), k) && Next(e, step).rules[k] == e.rules[k]
  {
    StepKeepsLinked(e, step);
    StaysUntouched(e, step, k);
  }

  lemma StaysUntouched(e: Engine, step: Step, k: Key)
    requires OpenUnscheduled(e, k) && !Touches(step, k)
    ensures var f := Next(e, step);
            && k in f.rules && f.rules[k] == e.rules[k] && k in f.refs && f.refs[k] == e.refs[k]
            && f.refs[k] in f.objs && f.objs[f.refs[k]] == e.objs[f.refs[k]] && f.refs[k] !in f.lease.queue
  {
  }

  /** Such a breaker stays open, and refuses every request, until its rule is deleted or replaced or it is recovered by
      hand. */
  lemma {:induction false} StaysOpen(e: Engine, steps: seq<Step>, k: Key, allows: bool)
    requires OpenUnscheduled(e, k) && forall i :: 0 <= i < |steps| ==> !Touches(steps[i], k)
    ensures var f := Run(e, steps);
            && OpenUnscheduled(f, k) && f.rules[k] == e.rules[k]
            && !Permits(f.rules[k], f.objs[f.refs[k]], allows)
  {
    if steps != [] {
      StaysOpen(e, steps[..|steps| - 1], k, allows);
      StepKeepsOpen(Run(e, steps[..|steps| - 1]), steps[|steps| - 1], k);
    }
  }

  lemma {:induction false} AlwaysLinked(steps: seq<Step>)
    ensures Linked(Run(START, steps))
  {
    if steps != [] {
      AlwaysLinked(steps[..|steps| - 1]);
      StepKeepsLinked(Run(START, steps[..|steps| - 1]), steps[|steps| - 1]);
    }
  }

  /** A rule with manual recovery, once opened in any run, refuses every request until it is recovered, deleted
      or replaced. */
  lemma ManualStaysOpen(before: seq<Step>, after: seq<Step>, k: Key, allows: bool)
    requires var e := Run(START, before);
             k in e.rules && k in e.refs && e.refs[k] in e.objs
             && e.rules[k].trigger == Normal && e.rules[k].recovery == Manual && e.objs[e.refs[k]].phase == Opened
    requires forall i :: 0 <= i < |after| ==> !Touches(after[i], k)
    ensures var f := Run(Run(START, before), after);
            && k in f.rules && k in f.refs && f.refs[k] in f.objs
            && !Permits(f.rules[k], f.objs[f.refs[k]], allows)
  {
    AlwaysLinked(before);
    StaysOpen(Run(START, before), after, k, allows);
  }

  lemma ManualOpens(e: Engine, k: Key)
    requires Linked(e) && k in e.rules && e.rules[k].trigger == Normal && e.rules[k].recovery == Manual
    ensures OpenUnscheduled(Next(e, Request(k, false)), k)
  {
    RequestKeepsLinked(e, k, false);
    var f := Next(e, Request(k, false));
    assert f.rules == e.rules && f.refs == e.refs && f.lease == e.lease;
  }

  /** Over all runs: once its limiter has refused a request, a rule with manual recovery refuses every request, whatever
      the limiter says, until it is recovered, deleted or replaced. */
  lemma RefusalOpensForGood(before: seq<Step>, after: seq<Step>, k: Key, allows: bool)
    requires var e := Run(START, before);
             k in e.rules && e.rules[k].trigger == Normal && e.rules[k].recovery == Manual
    requires forall i :: 0 <= i < |after| ==> !Touches(after[i], k)
    ensures var f := Run(Next(Run(START, before), Request(k, false)), after);
            && k in f.rules && k in f.refs && f.refs[k] in f.objs && f.objs[f.refs[k]].phase == Opened
            && !Permits(f.rules[k], f.objs[f.refs[k]], allows)
  {
    AlwaysLinked(before);
    ManualOpens(Run(START, before), k);
    StaysOpen(Next(Run(START, before), Request(k, false)), after, k, allows);
  }

  /** A closed breaker that opens while another state of its key is pending is not scheduled. */
  lemma OpensForGood(c: Engine, k: Key, after: seq<Step>)
    requires Linked(c) && k in c.rules && Sleeping(c.rules[k]) && c.objs[c.refs[k]].phase == Closed
    requires k in c.lease.stateSet && c.lease.stateSet[k] != c.refs[k]
    requires forall i :: 0 <= i < |after| ==> !Touches(after[i], k)
    ensures var f := Run(Next(c, Request(k, false)), after);
            k in f.refs && f.refs[k] in f.objs && f.objs[f.refs[k]].phase == Opened
  {
    StepKeepsLinked(c, Request(k, false));
    assert c.refs[k] !in c.lease.queue;
    StaysOpen(Next(c, Request(k, false)), after, k, true);
  }

  /** A rule created while an earlier state of its key is pending opens for good: no wake-up ever closes it. */
  lemma RecreatedRuleIsStuck(e: Engine, k: Key, rule: RateLimiting, r: nat, after: seq<Step>)
    requires Linked(e) && k !in e.rules && r !in e.objs && Sleeping(rule) && k in e.lease.stateSet
    requires forall i :: 0 <= i < |after| ==> !Touches(after[i], k)
    ensures var f := Run(Next(Next(e, Create(k, rule, r)), Request(k, false)), after);
            k in f.refs && f.refs[k] in f.objs && f.objs[f.refs[k]].phase == Opened
  {
    StepKeepsLinked(e, Create(k, rule, r));
    OpensForGood(Next(e, Create(k, rule, r)), k, after);
  }

  lemma RunThree(a: Step, b: Step, c: Step)
    ensures Run(START, [a, b, c]) == Next(Next(Next(START, a), b), c)
  {
    assert [a, b, c][..2] == [a, b] && [a, b][..1] == [a] && [a][..0] == [];
    assert Run(START, [a]) == Next(START, a);
    assert Run(START, [a, b]) == Next(Run(START, [a]), b);
  }

  /** A rule that opens and is deleted leaves its state pending. */
  lemma OpenedThenDeleted(c: Engine, k: Key)
    requires Linked(c) && k in c.rules && Sleeping(c.rules[k]) && c.objs[c.refs[k]].phase == Closed
    requires k !in c.lease.stateSet
    ensures var e := Next(Next(c, Request(k, false)), Delete(k));
            Linked(e) && k !in e.rules && e.objs.Keys == c.objs.Keys && k in e.lease.stateSet
  {
    var o := Next(c, Request(k, false));
    StepKeepsLinked(c, Request(k, false));
    ScheduledIff(c, k);
    assert o.keys[o.refs[k]] == k;
    StepKeepsLinked(o, Delete(k));
  }

  /** Creating, opening and deleting a rule is a way there. */
  lemma DeletedRuleStaysPending(k: Key, rule: RateLimiting)
    requires Sleeping(rule)
    ensures var e := Run(START, [Create(k, rule, 0), Request(k, false), Delete(k)]);
            Linked(e) && k !in e.rules && 1 !in e.objs && k in e.lease.stateSet
  {
    var c := Next(START, Create(k, rule, 0));
    RunThree(Create(k, rule, 0), Request(k, false), Delete(k));
    StepKeepsLinked(START, Create(k, rule, 0));
    assert c.rules == map[k := rule] && c.refs == map[k := 0] && c.objs == map[0 := FRESH];
    OpenedThenDeleted(c, k);
  }
}
