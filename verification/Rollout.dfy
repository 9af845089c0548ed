/** The rollout controller: upgrade the pods of a stateful set shard by shard, leader last. */
module Rollout {
  import opened Wrappers
  import opened Strings

  /** A pod as the controller sees it; `updated` says that it has the new revision, `expected` that its deletion
      was requested before and has not been observed. */
  datatype Pod = Pod(name: string, host: Option<string>, updated: bool, ready: bool, deleting: bool, expected: bool)

  predicate Terminating(p: Pod) {
    p.deleting || p.expected
  }

  predicate Done(p: Pod) {
    p.updated && p.ready && !Terminating(p)
  }

  ghost predicate AllDone(pods: seq<Pod>) {
    forall p :: p in pods ==> Done(p)
  }

  /** The holder identity starts with the pod's name or host name. */
  predicate IsLeader(p: Pod, identity: string) {
    HasPrefix(identity, p.name) || (p.host.Some? && HasPrefix(identity, p.host.value))
  }

  ghost predicate DistinctNames(pods: seq<Pod>) {
    forall i, j :: 0 <= i < j < |pods| ==> pods[i].name != pods[j].name
  }

  /** What upgrading one shard returns, and the names of the pods it deleted. */
  datatype Result = Result(finish: bool, requeue: bool, err: bool, deleted: set<string>)

  /** Some pod is on its way: terminating, or new and not ready. */
  ghost predicate Busy(pods: seq<Pod>) {
    exists p :: p in pods && (Terminating(p) || (p.updated && !p.ready))
  }

  ghost function Outdated(pods: seq<Pod>): set<string> {
    set p | p in pods && !p.updated :: p.name
  }

  ghost function Others(pods: seq<Pod>, identity: string): set<string> {
    set p | p in pods && !p.updated && !IsLeader(p, identity) :: p.name
  }

  /** The results possible for one shard; `failed` are the pods whose delete call fails. Which of several pods
      that match the identity is deleted depends on map iteration. */
  ghost predicate Upgraded(pods: seq<Pod>, holder: Option<string>, failed: set<string>, r: Result) {
    if Busy(pods) then r == Result(false, false, false, {})
    else if Outdated(pods) == {} then r == Result(true, false, false, {})
    else if holder.None? then r == Result(false, true, false, {})
    else
      var others := Others(pods, holder.value);
      if others != {} then
        r == Result(false, others * failed != {}, others * failed != {}, others - failed)
      else
        exists n :: n in Outdated(pods) && r == Result(false, true, n in failed, {n} - failed)
  }

  /** A text starts with the other. */
  ghost predicate StartsWith(s: string, t: string) {
    exists rest :: s == t + rest
  }

  /** The pod holds back the others: it is going, or it is new and not ready. */
  predicate OnItsWay(p: Pod) {
    p.deleting || p.expected || (p.updated && !p.ready)
  }

  /** The pod is to be replaced, and the holder's identity starts with its name or its host name. */
  ghost predicate OldLeader(p: Pod, identity: string) {
    !p.updated && (StartsWith(identity, p.name) || (p.host.Some? && StartsWith(identity, p.host.value)))
  }

  /** What a pass over one shard does, pod by pod. While a pod is on its way nothing is done. With no old pod left the
      shard is finished. Without a holder it waits. Otherwise all old pods but the leader's go, and only when there are
      none but the leader's, one of these; deletes that fail are tried again. */
  ghost predicate Means(pods: seq<Pod>, holder: Option<string>, failed: set<string>, r: Result) {
    && (r.finish <==> forall p :: p in pods ==> p.updated && !OnItsWay(p))
    && ((exists p :: p in pods && OnItsWay(p)) || r.finish ==> !r.requeue && !r.err && r.deleted == {})
    && (!(exists p :: p in pods && OnItsWay(p)) && !r.finish && holder.None? ==> r.requeue && !r.err && r.deleted == {})
    && (!(exists p :: p in pods && OnItsWay(p)) && !r.finish && holder.Some? ==>
          if exists p :: p in pods && !p.updated && !OldLeader(p, holder.value) then
            && (forall p :: p in pods ==>
                  (p.name in r.deleted <==> !p.updated && !OldLeader(p, holder.value) && p.name !in failed))
            && (r.err <==> exists p :: p in pods && !p.updated && !OldLeader(p, holder.value) && p.name in failed)
            && r.requeue == r.err
          else
            && r.requeue && (r.err <==> r.deleted == {})
            && (r.deleted != {} ==> exists p :: p in pods && !p.updated && p.name !in failed && r.deleted == {p.name}))
  }

  lemma LeaderIff(p: Pod, identity: string)
    requires !p.updated
    ensures IsLeader(p, identity) <==> OldLeader(p, identity)
  {
    StartsIff(identity, p.name);
    if p.host.Some? {
      StartsIff(identity, p.host.value);
    }
  }

  lemma StartsIff(s: string, t: string)
    ensures HasPrefix(s, t) <==> StartsWith(s, t)
  {
    if HasPrefix(s, t) {
      assert s == t + s[|t|..];
    }
  }

  lemma OthersIff(pods: seq<Pod>, identity: string, p: Pod)
    requires DistinctNames(pods) && p in pods
    ensures p.name in Others(pods, identity) <==> !p.updated && !OldLeader(p, identity)
    ensures p.name in Outdated(pods) <==> !p.updated
  {
    if !p.updated {
      LeaderIff(p, identity);
    }
    forall q | q in pods && q.name == p.name
      ensures q == p
    {
      var i :| 0 <= i < |pods| && pods[i] == p;
      var j :| 0 <= j < |pods| && pods[j] == q;
      assert i == j;
    }
  }

  lemma BusyIff(pods: seq<Pod>)
    ensures Busy(pods) <==> exists p :: p in pods && OnItsWay(p)
  {
    if p :| p in pods && (Terminating(p) || (p.updated && !p.ready)) {
      assert OnItsWay(p);
    }
  }

  ghost predicate SortedOut(pods: seq<Pod>, identity: string) {
    forall p :: p in pods ==>
      && (p.name in Others(pods, identity) <==> !p.updated && !OldLeader(p, identity))
      && (p.name in Outdated(pods) <==> !p.updated)
  }

  lemma ActedMeans(pods: seq<Pod>, identity: string, failed: set<string>, r: Result)
    requires SortedOut(pods, identity) && Upgraded(pods, Some(identity), failed, r)
    requires !Busy(pods) && Outdated(pods) != {}
    ensures !r.finish
    ensures if exists p :: p in pods && !p.updated && !OldLeader(p, identity) then
              && (forall p :: p in pods ==>
                    (p.name in r.deleted <==> !p.updated && !OldLeader(p, identity) && p.name !in failed))
              && (r.err <==> exists p :: p in pods && !p.updated && !OldLeader(p, identity) && p.name in failed)
              && r.requeue == r.err
            else
              && r.requeue && (r.err <==> r.deleted == {})
              && (r.deleted != {} ==> exists p :: p in pods && !p.updated && p.name !in failed && r.deleted == {p.name})
  {
    var others := Others(pods, identity);
    if others != {} {
      var n :| n in others;
      var p :| p in pods && !p.updated && p.name == n;
      if q :| q in pods && !q.updated && !OldLeader(q, identity) && q.name in failed {
        assert q.name in others * failed;
      }
      if m :| m in others * failed {
        var q :| q in pods && !q.updated && q.name == m;
        assert !OldLeader(q, identity);
      }
    } else {
      var n :| n in Outdated(pods) && r == Result(false, true, n in failed, {n} - failed);
      var p :| p in pods && !p.updated && p.name == n;
      if n in failed {
        assert {n} - failed == {};
      } else {
        assert n in {n} - failed && {n} - failed == {p.name};
      }
    }
  }

  lemma UpgradedMeans(pods: seq<Pod>, holder: Option<string>, failed: set<string>, r: Result)
    requires DistinctNames(pods) && Upgraded(pods, holder, failed, r)
    ensures Means(pods, holder, failed, r)
  {
    BusyIff(pods);
    if !Busy(pods) && Outdated(pods) != {} && holder.Some? {
      forall p | p in pods
        ensures p.name in Others(pods, holder.value) <==> !p.updated && !OldLeader(p, holder.value)
        ensures p.name in Outdated(pods) <==> !p.updated
      {
        OthersIff(pods, holder.value, p);
      }
      assert SortedOut(pods, holder.value);
      ActedMeans(pods, holder.value, failed, r);
    }
    if Outdated(pods) == {} {
      assert forall p :: p in pods && !p.updated ==> p.name in Outdated(pods);
    } else {
      var n :| n in Outdated(pods);
      var p :| p in pods && !p.updated && p.name == n;
    }
  }

  method Upgrade(pods: seq<Pod>, holder: Option<string>, failed: set<string>) returns (r: Result)
    requires DistinctNames(pods)
    ensures Upgraded(pods, holder, failed, r)
    ensures Means(pods, holder, failed, r)
  {
    r := Advance(pods, holder, failed);
    UpgradedMeans(pods, holder, failed, r);
  }

  method Advance(pods: seq<Pod>, holder: Option<string>, failed: set<string>) returns (r: Result)
    requires DistinctNames(pods)
    ensures Upgraded(pods, holder, failed, r)
  {
    var busy, outdated := Collect(pods);
    if busy {
      return Result(false, false, false, {});
    }
    if outdated == map[] {
      assert Outdated(pods) == {};
      return Result(true, false, false, {});
    }
    var some :| some in outdated;
    assert some in Outdated(pods);
    if holder.None? {
      return Result(false, true, false, {});
    }
    OthersByName(pods, outdated, holder.value);
    var err, deleted, leader := DeleteOthers(outdated, holder.value, failed, Others(pods, holder.value));
    if deleted != {} || err {
      return Result(false, err, err, deleted);
    }
    NoneLeft(Others(pods, holder.value), failed);
    if leader.Some? {
      return Result(false, true, leader.value in failed, {leader.value} - failed);
    }
    assert false;
    return Result(true, false, false, {});
  }

  lemma NoneLeft(others: set<string>, failed: set<string>)
    requires others - failed == {} && others * failed == {}
    ensures others == {}
  {
    assert others == (others - failed) + (others * failed);
  }

  /** The first loop. */
  method Collect(pods: seq<Pod>) returns (busy: bool, outdated: map<string, Pod>)
    requires DistinctNames(pods)
    ensures busy <==> Busy(pods)
    ensures !busy ==> outdated.Keys == Outdated(pods)
    ensures !busy ==> forall n :: n in outdated ==> outdated[n] in pods && outdated[n].name == n && !outdated[n].updated
  {
    busy, outdated := false, map[];
    for i := 0 to |pods|
      invariant busy <==> exists p :: p in pods[..i] && Terminating(p)
      invariant forall p :: p in pods[..i] && p.updated ==> p.ready
      invariant outdated.Keys == Outdated(pods[..i])
      invariant forall n :: n in outdated ==> outdated[n] in pods && outdated[n].name == n && !outdated[n].updated
    {
      var p := pods[i];
      assert pods[..i + 1] == pods[..i] + [p];
      if Terminating(p) {
        busy := true;
      }
      if p.updated {
        if !p.ready {
          return true, outdated;
        }
      } else {
        outdated := outdated[p.name := p];
      }
    }
    assert pods[..|pods|] == pods;
  }

  /** The second loop: delete the outdated pods that do not match the identity, in any order. */
  method DeleteOthers(outdated: map<string, Pod>, identity: string, failed: set<string>, ghost others: set<string>)
    returns (err: bool, deleted: set<string>, leader: Option<string>)
    requires others == set n | n in outdated && !IsLeader(outdated[n], identity)
    ensures deleted == others - failed
    ensures err <==> others * failed != {}
    ensures leader.None? <==> others == outdated.Keys
    ensures leader.Some? ==> leader.value in outdated
  {
    err, deleted, leader := false, {}, None;
    var left := outdated.Keys;
    while left != {}
      invariant left <= outdated.Keys
      invariant deleted == others - left - failed
      invariant !err ==> (others - left) !! failed
      invariant err ==> others * failed != {}
      invariant leader.None? ==> outdated.Keys - left <= others
      invariant leader.Some? ==> leader.value in outdated && leader.value !in others
      decreases |left|
    {
      var n :| n in left;
      left := left - {n};
      if IsLeader(outdated[n], identity) {
        leader := Some(n);
      } else if n in failed {
        assert n in others * failed;
        err := true;
      } else {
        deleted := deleted + {n};
      }
    }
  }

  lemma OthersByName(pods: seq<Pod>, outdated: map<string, Pod>, identity: string)
    requires DistinctNames(pods) && outdated.Keys == Outdated(pods)
    requires forall n :: n in outdated ==> outdated[n] in pods && outdated[n].name == n && !outdated[n].updated
    ensures Others(pods, identity) == set n | n in outdated && !IsLeader(outdated[n], identity)
  {
    forall n | n in outdated
      ensures n in Others(pods, identity) <==> !IsLeader(outdated[n], identity)
    {
      SameName(pods, outdated[n], identity);
    }
  }

  lemma SameName(pods: seq<Pod>, p: Pod, identity: string)
    requires DistinctNames(pods) && p in pods && !p.updated
    ensures p.name in Others(pods, identity) <==> !IsLeader(p, identity)
  {
    forall q | q in pods && q.name == p.name
      ensures q == p
    {
    }
  }

  // ----- What a shard's upgrade guarantees -----

  /** A shard is finished exactly when all its pods are done; a shard without outdated pods is not stuck in the
      last return, which is never reached. */
  lemma FinishIffAllDone(pods: seq<Pod>, holder: Option<string>, failed: set<string>, r: Result)
    requires Upgraded(pods, holder, failed, r)
    ensures r.finish <==> AllDone(pods)
    ensures r.finish ==> r.deleted == {}
  {
    if AllDone(pods) {
      assert Outdated(pods) == {};
    } else if !Busy(pods) {
      var p :| p in pods && !Done(p);
      assert p.name in Outdated(pods);
    }
  }

  lemma DeletedAreOutdated(pods: seq<Pod>, holder: Option<string>, failed: set<string>, r: Result, n: string)
    requires Upgraded(pods, holder, failed, r) && n in r.deleted
    ensures n in Outdated(pods) && !Busy(pods) && holder.Some?
  {
  }

  ghost predicate Matches(pods: seq<Pod>, n: string, identity: string) {
    exists p :: p in pods && p.name == n && IsLeader(p, identity)
  }

  /** Everyone else in the shard is done. */
  ghost predicate PeersDone(pods: seq<Pod>, n: string) {
    forall p :: p in pods && p.name != n ==> Done(p)
  }

  /** When a pod that matches the holder identity is deleted, its peers are done exactly when it is the only
      outdated pod. */
  lemma DeletedLeader(pods: seq<Pod>, identity: string, failed: set<string>, r: Result, n: string)
    requires DistinctNames(pods) && Upgraded(pods, Some(identity), failed, r)
    requires n in r.deleted && Matches(pods, n, identity)
    ensures PeersDone(pods, n) <==> Outdated(pods) == {n}
    ensures r.deleted == {n} && Others(pods, identity) == {}
  {
    DeletedAreOutdated(pods, Some(identity), failed, r, n);
    var leader :| leader in pods && leader.name == n && IsLeader(leader, identity);
    assert n !in Others(pods, identity) by {
      forall q | q in pods && q.name == n
        ensures q == leader
      {
      }
    }
    if Outdated(pods) == {n} {
      forall p | p in pods && p.name != n
        ensures Done(p)
      {
        assert !p.updated ==> p.name in Outdated(pods);
      }
    }
  }

  /** When at most one outdated pod matches the identity, the leader goes last. */
  lemma LeaderLast(pods: seq<Pod>, identity: string, failed: set<string>, r: Result, n: string)
    requires DistinctNames(pods) && Upgraded(pods, Some(identity), failed, r)
    requires n in r.deleted && Matches(pods, n, identity)
    requires forall p :: p in pods && !p.updated && IsLeader(p, identity) ==> p.name == n
    ensures PeersDone(pods, n)
  {
    DeletedLeader(pods, identity, failed, r, n);
    forall m | m in Outdated(pods)
      ensures m == n
    {
      var p :| p in pods && !p.updated && p.name == m;
      assert !IsLeader(p, identity) ==> m in Others(pods, identity);
    }
  }

  /** The result deletes a pod that matches the identity while a peer is not done. */
  ghost predicate TooEarly(pods: seq<Pod>, identity: string, failed: set<string>, r: Result) {
    && Upgraded(pods, Some(identity), failed, r)
    && exists n :: n in r.deleted && Matches(pods, n, identity) && !PeersDone(pods, n)
  }

  /** A pod that is deleted with another outdated pod left. */
  ghost predicate OneOfSeveral(pods: seq<Pod>, failed: set<string>) {
    exists n, m :: n in Outdated(pods) && m in Outdated(pods) && n != m && n !in failed
  }

  lemma TooEarlyNeeds(pods: seq<Pod>, identity: string, failed: set<string>, r: Result)
    requires DistinctNames(pods) && TooEarly(pods, identity, failed, r)
    ensures !Busy(pods) && Others(pods, identity) == {} && OneOfSeveral(pods, failed)
  {
    var n :| n in r.deleted && Matches(pods, n, identity) && !PeersDone(pods, n);
    DeletedLeader(pods, identity, failed, r, n);
    DeletedAreOutdated(pods, Some(identity), failed, r, n);
    assert n !in failed;
    var m :| m in Outdated(pods) && m != n;
  }

  lemma CanBeTooEarly(pods: seq<Pod>, identity: string, failed: set<string>)
    requires !Busy(pods) && Others(pods, identity) == {} && OneOfSeveral(pods, failed)
    ensures exists r :: TooEarly(pods, identity, failed, r)
  {
    var n, m :| n in Outdated(pods) && m in Outdated(pods) && n != m && n !in failed;
    var p :| p in pods && !p.updated && p.name == n;
    var q :| q in pods && !q.updated && q.name == m;
    var r := Result(false, true, false, {n});
    assert !IsLeader(p, identity) ==> n in Others(pods, identity);
    assert Matches(pods, n, identity) && !Done(q);
    assert r == Result(false, true, n in failed, {n} - failed);
    assert TooEarly(pods, identity, failed, r);
  }

  /** The leader can go before a peer exactly when no pod is on its way, every outdated pod matches the identity, there
      are several, and one of them can be deleted. */
  lemma TooEarlyIff(pods: seq<Pod>, identity: string, failed: set<string>)
    requires DistinctNames(pods)
    ensures (exists r :: TooEarly(pods, identity, failed, r)) <==>
            !Busy(pods) && Others(pods, identity) == {} && OneOfSeveral(pods, failed)
  {
    if r :| TooEarly(pods, identity, failed, r) {
      TooEarlyNeeds(pods, identity, failed, r);
    }
    if !Busy(pods) && Others(pods, identity) == {} && OneOfSeveral(pods, failed) {
      CanBeTooEarly(pods, identity, failed);
    }
  }

  /** Matching by prefix takes pod 1 for the leader when pod 10 is: the leader may then be deleted while
      pod 1 is outdated. */
  lemma PrefixHidesAPeer()
    ensures var pods := [Pod("s-1", None, false, true, false, false), Pod("s-10", None, false, true, false, false)];
            var r := Result(false, true, false, {"s-10"});
            && DistinctNames(pods) && Upgraded(pods, Some("s-10_id"), {}, r)
            && Matches(pods, "s-10", "s-10_id") && !PeersDone(pods, "s-10")
  {
    var a, b := Pod("s-1", None, false, true, false, false), Pod("s-10", None, false, true, false, false);
    var pods := [a, b];
    assert a in pods && b in pods;
    assert "s-10" in Outdated(pods);
    assert IsLeader(a, "s-10_id") && IsLeader(b, "s-10_id");
    assert Others(pods, "s-10_id") == {};
    assert Result(false, true, false, {"s-10"}) == Result(false, true, "s-10" in {}, {"s-10"} - {});
  }

  // ----- The shards in order -----

  datatype Shard = Shard(name: string, pods: seq<Pod>, holder: Option<string>)

  /** Byte-wise order of names. */
  predicate Less(a: string, b: string) {
    b != "" && (a == "" || a[0] < b[0] || (a[0] == b[0] && Less(a[1..], b[1..])))
  }

  lemma {:induction false} NotLessItself(a: string)
    ensures !Less(a, a)
  {
    if a != "" {
      NotLessItself(a[1..]);
    }
  }

  /** The texts first differ at `i`, where the first has the smaller character. */
  predicate SmallerAt(a: string, b: string, i: int) {
    0 <= i < |a| && i < |b| && a[..i] == b[..i] && a[i] < b[i]
  }

  lemma SmallerLater(a: string, b: string, i: int)
    requires a != "" && b != "" && a[0] == b[0]
    ensures SmallerAt(a, b, i + 1) <==> SmallerAt(a[1..], b[1..], i)
  {
    if 0 <= i < |a| - 1 && i < |b| - 1 {
      assert a[..i + 1] == [a[0]] + a[1..][..i] && b[..i + 1] == [b[0]] + b[1..][..i];
      assert a[..i + 1][1..] == a[1..][..i] && b[..i + 1][1..] == b[1..][..i];
    } else if i == -1 {
      assert !SmallerAt(a, b, 0);
    }
  }

  /** One name comes before another when it is a beginning of it or has the smaller character where they first
      differ. */
  lemma {:induction false} LessIff(a: string, b: string)
    ensures Less(a, b) <==> a < b || exists i :: SmallerAt(a, b, i)
  {
    if a != "" && b != "" && a[0] == b[0] {
      LessIff(a[1..], b[1..]);
      if i :| SmallerAt(a[1..], b[1..], i) {
        SmallerLater(a, b, i);
      }
      if i :| SmallerAt(a, b, i) {
        SmallerLater(a, b, i - 1);
      }
      assert a == [a[0]] + a[1..] && b == [a[0]] + b[1..];
    } else if a != "" && b != "" {
      assert a[..0] == b[..0];
      assert a[0] < b[0] ==> SmallerAt(a, b, 0);
      assert forall i :: 0 < i < |a| && i < |b| && a[..i] == b[..i] ==> a[..i][0] == b[..i][0];
    }
  }

  ghost predicate SortedByName(shards: seq<Shard>) {
    forall i, j :: 0 <= i < j < |shards| ==> !Less(shards[j].name, shards[i].name)
  }

  predicate Contains(s: string, sub: string) {
    sub <= s || (s != "" && Contains(s[1..], sub))
  }

  lemma {:induction false} ContainsIff(s: string, sub: string)
    ensures Contains(s, sub) <==> exists a, b :: s == a + sub + b
  {
    if sub <= s {
      assert s == "" + sub + s[|sub|..];
    } else if s != "" {
      ContainsIff(s[1..], sub);
      if a, b :| s[1..] == a + sub + b {
        assert s == ([s[0]] + a) + sub + b;
      }
      if a, b :| s == a + sub + b {
        assert a != "" ==> s[1..] == a[1..] + sub + b;
      }
    }
  }

  predicate Selected(shard: Shard, rollType: string) {
    rollType == "all" || rollType == "" || Contains(shard.name, rollType)
  }

  /** The shard loop: `at` is the shard that the pass stopped at, if any. */
  method Roll(shards: seq<Shard>, rollType: string, failed: set<string>)
    returns (finished: bool, at: nat, r: Result)
    requires SortedByName(shards) && forall s :: s in shards ==> DistinctNames(s.pods)
    ensures finished <==> forall s :: s in shards && Selected(s, rollType) ==> AllDone(s.pods)
    ensures !finished ==> && at < |shards| && Selected(shards[at], rollType)
                          && Upgraded(shards[at].pods, shards[at].holder, failed, r)
                          && Means(shards[at].pods, shards[at].holder, failed, r)
                          && !AllDone(shards[at].pods)
    ensures !finished ==> forall i :: 0 <= i < at && Selected(shards[i], rollType) ==> AllDone(shards[i].pods)
    ensures !finished ==> forall s :: s in shards && Selected(s, rollType) && Less(s.name, shards[at].name) ==>
                                        AllDone(s.pods)
    ensures finished ==> r.deleted == {}
  {
    at, r := 0, Result(true, false, false, {});
    while at < |shards|
      invariant at <= |shards|
      invariant forall i :: 0 <= i < at && Selected(shards[i], rollType) ==> AllDone(shards[i].pods)
      invariant r.deleted == {}
    {
      if Selected(shards[at], rollType) {
        assert shards[at] in shards;
        r := Upgrade(shards[at].pods, shards[at].holder, failed);
        FinishIffAllDone(shards[at].pods, shards[at].holder, failed, r);
        if !r.finish {
          NotLessItself(shards[at].name);
          return false, at, r;
        }
      }
      at := at + 1;
    }
    finished := true;
  }
}
