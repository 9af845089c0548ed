/** The verdict on a request that several rules are found for. */
module BreakerValidation {
  import opened Wrappers
  import opened BreakerRules
  import opened BreakerState
  import opened BreakerStore
  import opened BreakerLease

  /** A rule found for a request, its breaker before the request and its limiter's answer. */
  datatype Check = Check(rule: RateLimiting, breaker: Breaker, allows: bool)

  predicate Passes(c: Check) {
    Permits(c.rule, c.breaker, c.allows)
  }

  /** The rules are applied in list order; a force-closed rule overrides what came before it. */
  function Verdict(checks: seq<Check>): bool {
    if checks == [] then true
    else
      var last := checks[|checks| - 1];
      if last.rule.trigger == ForceClosed then true
      else Verdict(checks[..|checks| - 1]) && Passes(last)
  }

  predicate Fails(c: Check) {
    Panics(c.rule, c.breaker, c.allows)
  }

  ghost function Checks(rules: seq<RateLimiting>, allows: seq<bool>, states: seq<State>): seq<Check>
    requires |rules| == |allows| == |states|
    reads states
  {
    seq(|rules|, i requires 0 <= i < |rules| reads states => Check(rules[i], states[i].View(), allows[i]))
  }

  ghost predicate NoneFails(checks: seq<Check>, n: nat) {
    forall i :: 0 <= i < n && i < |checks| ==> !Fails(checks[i])
  }

  /** The rules before the `n`th are applied, and all of them unless that one panics. */
  ghost predicate Stops(checks: seq<Check>, n: nat) {
    n <= |checks| && NoneFails(checks, n) && (n < |checks| ==> Fails(checks[n]))
  }

  /** The lease after the first `n` rules. */
  ghost function Leased(l: Pending<State>, checks: seq<Check>, states: seq<State>, n: nat, now: int): Pending<State>
    requires n <= |checks| == |states|
  {
    if n == 0 then l
    else
      var before, c, st := Leased(l, checks, states, n - 1, now), checks[n - 1], states[n - 1];
      if Schedules(c.rule, c.breaker, c.allows)
      then Registered(before, st, st.key, NextBreaker(c.rule, c.breaker, c.allows, now)) else before
  }

  ghost predicate Distinct<T>(objs: seq<T>) {
    forall i, j :: 0 <= i < j < |objs| ==> objs[i] != objs[j]
  }

  /** One more request let through by a limiter that is asked. */
  function Use(c: Check): nat {
    if Asks(c.rule, c.breaker) && c.allows then 1 else 0
  }

  function After(c: Check, now: int): Breaker {
    NextBreaker(c.rule, c.breaker, c.allows, now)
  }

  /** The breakers of the first `n` rules have moved, and no others. */
  ghost predicate Moved(checks: seq<Check>, states: seq<State>, n: nat, now: int)
    requires |checks| == |states|
    reads states
  {
    && (forall i :: 0 <= i < n && i < |states| ==> states[i].View() == After(checks[i], now))
    && (forall i :: n <= i < |states| ==> states[i].View() == checks[i].breaker)
  }

  ghost function UsesOf(limiters: seq<Limiter>): seq<nat>
    reads limiters
  {
    seq(|limiters|, i requires 0 <= i < |limiters| reads limiters => limiters[i].used)
  }

  /** The limiters of the first `n` rules have counted their use. */
  ghost predicate Counted(checks: seq<Check>, uses: seq<nat>, limiters: seq<Limiter>, n: nat)
    requires |checks| == |uses| == |limiters|
    reads limiters
  {
    && (forall i :: 0 <= i < n && i < |limiters| ==> limiters[i].used == uses[i] + Use(checks[i]))
    && (forall i :: n <= i < |limiters| ==> limiters[i].used == uses[i])
  }

  /** The loop of the source; `allows[i]` is what the limiter of rule `i` answers if it is asked. No verdict is given
      when a rule without recover policy is to open its breaker; the rules after it are then not applied. */
  method DoValidation(rules: seq<RateLimiting>, allows: seq<bool>, limiters: seq<Limiter>, states: seq<State>,
                      lease: Lease, now: int)
    returns (allowed: Option<bool>, ghost n: nat)
    requires |rules| == |allows| == |limiters| == |states| && Distinct(states) && Distinct(limiters)
    modifies states, limiters, lease
    ensures Stops(old(Checks(rules, allows, states)), n)
    ensures allowed == if n < |rules| then None else Some(Verdict(old(Checks(rules, allows, states))))
    ensures allowed.Some? ==> (allowed.value <==> RefusalsOverruled(old(Checks(rules, allows, states))))
    ensures Moved(old(Checks(rules, allows, states)), states, n, now)
    ensures Counted(old(Checks(rules, allows, states)), old(UsesOf(limiters)), limiters, n)
    ensures lease.View() == Leased(old(lease.View()), old(Checks(rules, allows, states)), states, n, now)
  {
    ghost var checks, uses, l := Checks(rules, allows, states), UsesOf(limiters), lease.View();
    var result := true;
    for i := 0 to |rules|
      invariant result == Verdict(checks[..i]) && NoneFails(checks, i)
      invariant Moved(checks, states, i, now) && Counted(checks, uses, limiters, i)
      invariant lease.View() == Leased(l, checks, states, i, now)
    {
      VerdictOneMore(checks, i);
      var permits := ApplyNth(rules, allows, limiters, states, lease, now, i, checks, uses, l);
      if permits.None? {
        return None, i;
      }
      assert !Fails(checks[i]);
      if rules[i].trigger == ForceClosed {
        result := true;
      } else if !permits.value {
        result := false;
      }
    }
    assert checks[..|rules|] == checks;
    VerdictIff(checks);
    return Some(result), |rules|;
  }

  /** Step `i` of the loop. */
  method ApplyNth(rules: seq<RateLimiting>, allows: seq<bool>, limiters: seq<Limiter>, states: seq<State>,
                  lease: Lease, now: int,
                  i: nat, ghost checks: seq<Check>, ghost uses: seq<nat>, ghost l: Pending<State>)
    returns (permits: Option<bool>)
    requires i < |rules| == |allows| == |limiters| == |states| == |checks| == |uses| && Distinct(states)
             && Distinct(limiters)
    requires checks[i].rule == rules[i] && checks[i].allows == allows[i]
    requires Moved(checks, states, i, now) && Counted(checks, uses, limiters, i)
    requires lease.View() == Leased(l, checks, states, i, now)
    modifies states, limiters, lease
    ensures permits == if Fails(checks[i]) then None else Some(Passes(checks[i]))
    ensures var n := if permits.None? then i else i + 1;
            && Moved(checks, states, n, now) && Counted(checks, uses, limiters, n)
            && lease.View() == Leased(l, checks, states, n, now)
  {
    permits := ApplyRule(rules[i], allows[i], limiters[i], states[i], lease, now);
  }

  lemma VerdictOneMore(checks: seq<Check>, i: nat)
    requires i < |checks|
    ensures Verdict(checks[..i + 1]) ==
            (checks[i].rule.trigger == ForceClosed || (Verdict(checks[..i]) && Passes(checks[i])))
  {
    assert checks[..i + 1][..i] == checks[..i];
  }

  /** The body of the loop for one rule; a breaker that opens with a sleeping window is given to the lease. */
  method ApplyRule(rule: RateLimiting, allows: bool, limiter: Limiter, st: State, lease: Lease, now: int)
    returns (permits: Option<bool>)
    modifies st, limiter, lease
    ensures permits ==
        if Panics(rule, old(st.View()), allows) then None else Some(Permits(rule, old(st.View()), allows))
    ensures permits.None? <==>
              rule.trigger == Normal && old(st.phase) == Closed && !allows && rule.recovery == NoPolicy
    ensures permits == Some(true) <==>
              || rule.trigger == ForceClosed
              || (rule.trigger != ForceOpened && old(st.phase) == Closed && allows)
    ensures st.View() == NextBreaker(rule, old(st.View()), allows, now)
    ensures limiter.used > old(limiter.used) <==>
              allows && (rule.trigger == LimiterOnly || (rule.trigger == Normal && old(st.phase) == Closed))
    ensures limiter.used == old(limiter.used) + Use(Check(rule, old(st.View()), allows))
    ensures lease.View() == if Schedules(rule, old(st.View()), allows)
                            then Registered(old(lease.View()), st, st.key, st.View()) else old(lease.View())
  {
    var ok := st.phase != Opened;
    match rule.trigger {
      case ForceOpened =>
        st.TriggerBreaker(now);
        ok := false;
      case ForceClosed =>
        st.RecoverBreaker(now);
        ok := true;
      case LimiterOnly =>
        st.RecoverBreaker(now);
        var answer := limiter.Allow(allows);
        if !answer {
          ok := false;
        }
      case Normal =>
        if st.phase == Closed {
          var answer := limiter.Allow(allows);
          if !answer {
            ok := false;
            if rule.recovery.NoPolicy? {
              return None;
            }
            if rule.recovery.SleepingWindow? {
              st.TriggerBreakerWithTimeWindow(now, rule.recovery.size);
              lease.RegisterState(st);
            } else {
              st.TriggerBreaker(now);
            }
          } else {
            st.RecoverBreaker(now);
          }
        }
    }
    return Some(ok);
  }

  // ----- What the verdict means -----

  /** The rule is not force-closed, and it is force-opened, its breaker is open or its limiter says no. */
  predicate Refuses(c: Check) {
    c.rule.trigger != ForceClosed && (c.rule.trigger == ForceOpened || c.breaker.phase == Opened || !c.allows)
  }

  /** A force-closed rule comes after every rule that refuses. */
  ghost predicate RefusalsOverruled(checks: seq<Check>) {
    forall i :: 0 <= i < |checks| && Refuses(checks[i]) ==>
      exists j :: i < j < |checks| && checks[j].rule.trigger == ForceClosed
  }

  lemma PassesIff(c: Check)
    ensures Passes(c) <==> !Refuses(c)
  {
  }

  /** A request is allowed exactly when a force-closed rule comes after every rule that refuses it. */
  lemma {:induction false} VerdictIff(checks: seq<Check>)
    ensures Verdict(checks) <==> RefusalsOverruled(checks)
  {
    if checks != [] {
      var n := |checks| - 1;
      var front, last := checks[..n], checks[n];
      VerdictIff(front);
      PassesIff(last);
      if last.rule.trigger == ForceClosed {
        assert RefusalsOverruled(checks);
      } else if Refuses(last) {
        assert !RefusalsOverruled(checks);
      } else {
        assert RefusalsOverruled(checks) <==> RefusalsOverruled(front) by {
          assert forall i :: 0 <= i < n ==> front[i] == checks[i];
        }
      }
    }
  }

  /** Without a force-closed rule an allowed request has found no force-opened rule, no open breaker and no limiter that
      says no; and conversely. */
  lemma AllowedMeans(checks: seq<Check>)
    requires NoForceClosed(checks)
    ensures Verdict(checks) <==>
            forall c :: c in checks ==> c.rule.trigger != ForceOpened && c.breaker.phase == Closed && c.allows
  {
    VerdictIff(checks);
    assert forall i :: 0 <= i < |checks| ==> checks[i] in checks && checks[i].rule.trigger != ForceClosed;
    assert RefusalsOverruled(checks) <==> forall i :: 0 <= i < |checks| ==> !Refuses(checks[i]);
  }

  // ----- Order -----

  ghost predicate NoForceClosed(checks: seq<Check>) {
    forall c :: c in checks ==> c.rule.trigger != ForceClosed
  }

  ghost predicate AllPass(checks: seq<Check>) {
    forall c :: c in checks ==> Passes(c)
  }

  /** Without a force-closed rule a request is allowed exactly when every rule permits it. */
  lemma {:induction false} VerdictIsConjunction(checks: seq<Check>)
    requires NoForceClosed(checks)
    ensures Verdict(checks) <==> AllPass(checks)
  {
    if checks != [] {
      var front, last := checks[..|checks| - 1], checks[|checks| - 1];
      assert checks == front + [last];
      VerdictIsConjunction(front);
    }
  }

  lemma {:induction false} PassingIsAllowed(checks: seq<Check>)
    requires AllPass(checks)
    ensures Verdict(checks)
  {
    if checks != [] {
      PassingIsAllowed(checks[..|checks| - 1]);
    }
  }

  ghost predicate SameForEveryOrder(checks: seq<Check>) {
    forall other: seq<Check> :: multiset(other) == multiset(checks) ==> Verdict(other) == Verdict(checks)
  }

  function MovedToEnd(checks: seq<Check>, i: nat): seq<Check>
    requires i < |checks|
  {
    checks[..i] + checks[i + 1..] + [checks[i]]
  }

  lemma MovingPermutes(checks: seq<Check>, i: nat)
    requires i < |checks|
    ensures multiset(MovedToEnd(checks, i)) == multiset(checks)
    ensures Verdict(MovedToEnd(checks, i)) ==
            (checks[i].rule.trigger == ForceClosed || (Verdict(checks[..i] + checks[i + 1..]) && Passes(checks[i])))
  {
    assert checks == checks[..i] + [checks[i]] + checks[i + 1..];
    var rest := checks[..i] + checks[i + 1..];
    assert MovedToEnd(checks, i)[..|rest|] == rest;
  }

  /** The verdict is the same for every order of the rules exactly when none is force-closed or all the
      others permit. */
  lemma OrderIrrelevantIff(checks: seq<Check>)
    ensures SameForEveryOrder(checks) <==> NoForceClosed(checks) || AllPass(checks)
  {
    if NoForceClosed(checks) || AllPass(checks) {
      forall other: seq<Check> | multiset(other) == multiset(checks)
        ensures Verdict(other) == Verdict(checks)
      {
        SameMembers(other, checks);
        if NoForceClosed(checks) {
          VerdictIsConjunction(checks);
          VerdictIsConjunction(other);
        } else {
          PassingIsAllowed(checks);
          PassingIsAllowed(other);
        }
      }
    } else {
      var f :| f in checks && f.rule.trigger == ForceClosed;
      var r :| r in checks && !Passes(r);
      var i :| 0 <= i < |checks| && checks[i] == f;
      var j :| 0 <= j < |checks| && checks[j] == r;
      MovingPermutes(checks, i);
      MovingPermutes(checks, j);
      assert Verdict(MovedToEnd(checks, i)) != Verdict(MovedToEnd(checks, j));
    }
  }

  lemma SameMembers(a: seq<Check>, b: seq<Check>)
    requires multiset(a) == multiset(b)
    ensures forall c :: c in a <==> c in b
  {
    assert forall c :: c in a <==> c in multiset(a);
    assert forall c :: c in b <==> c in multiset(b);
  }

  /** A request that finds a rule which refuses, and no force-closed rule, is refused in every order. */
  lemma OneRefusalRefuses(checks: seq<Check>, c: Check)
    requires NoForceClosed(checks) && c in checks && !Passes(c)
    ensures !Verdict(checks)
  {
    VerdictIsConjunction(checks);
  }
}
