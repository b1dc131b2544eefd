/** Which steps a backstop covers, when it is installed and armed, and the reach rule:
    core/src/backstop.rs and `schedule` of engine/src/backstop.rs. */
module Backstops {
  import opened Wrappers
  import opened Model
  import opened Algebra

  datatype Coverage = Coverage(covered: seq<nat>, installedBefore: Option<nat>, armedBeforeStep: nat, lateArmingWindow: seq<nat>)

  /** The numbers of the leaves from `n` on whose op is kept, in order. */
  function StepsWhere(ls: seq<Item>, i: nat, keep: (nat, Op) -> bool): (r: seq<nat>)
    requires i <= |ls|
    ensures forall n :: n in r <==> i < n <= |ls| && OpOf(ls[n - 1]).Some? && keep(n, OpOf(ls[n - 1]).value)
    ensures forall j, k :: 0 <= j < k < |r| ==> r[j] < r[k]
    decreases |ls| - i
  {
    if i == |ls| then []
    else
      var rest := StepsWhere(ls, i + 1, keep);
      assert forall n :: n in rest ==> i + 1 < n;
      assert forall j :: 0 <= j < |rest| ==> rest[j] in rest;
      if OpOf(ls[i]).Some? && keep(i + 1, OpOf(ls[i]).value) then [i + 1] + rest else rest
  }

  function TargetUndoSteps(items: seq<Item>): seq<nat> {
    StepsWhere(Leaves(items), 0, (n: nat, o: Op) => o.undoLocus.OnTarget?)
  }

  function Below(ns: seq<nat>, bound: nat): seq<nat> {
    if ns == [] then []
    else if ns[0] < bound then [ns[0]] + Below(ns[1..], bound)
    else Below(ns[1..], bound)
  }

  function CoverageOf(p: Plan): Option<Coverage> {
    match p.backstop
    case None => None
    case Some(b) =>
      var cov := TargetUndoSteps(p.body);
      Some(Coverage(cov, if cov == [] then None else Some(cov[0]), b.armBefore, Below(cov, b.armBefore)))
  }

  predicate ArmedBefore(p: Plan, n: nat) { p.backstop.Some? && p.backstop.value.armBefore <= n }

  /** E0401: a step that may sever a transport needs a `:target` undo and a backstop armed
      before it. */
  function ReachViolations(p: Plan): seq<nat> {
    StepsWhere(Leaves(p.body), 0, (n: nat, o: Op) => o.reach != [] && (!o.undoLocus.OnTarget? || !ArmedBefore(p, n)))
  }

  /** What a clean reach rule says of every reach step: it is covered, at or after the first
      covered step, and the backstop is due before it. */
  lemma CleanReachMeans(p: Plan, n: nat)
    requires ReachViolations(p) == []
    requires OpAt(p.body, n).Some? && OpAt(p.body, n).value.reach != []
    ensures CoverageOf(p).Some? && n in CoverageOf(p).value.covered
    ensures CoverageOf(p).value.installedBefore.Some? && CoverageOf(p).value.installedBefore.value <= n
    ensures CoverageOf(p).value.armedBeforeStep <= n
  {
    assert n !in ReachViolations(p);
    CoveredMeans(p, n);
  }

  lemma CoveredMeans(p: Plan, n: nat)
    requires p.backstop.Some?
    requires OpAt(p.body, n).Some? && OpAt(p.body, n).value.undoLocus.OnTarget?
    ensures n in CoverageOf(p).value.covered
    ensures CoverageOf(p).value.installedBefore.Some? && CoverageOf(p).value.installedBefore.value <= n
  {
    var cov := TargetUndoSteps(p.body);
    assert n in cov;
    var i :| 0 <= i < |cov| && cov[i] == n;
    assert i > 0 ==> cov[0] < cov[i];
  }

  // ---------------------------------------------------------------------------
  // The schedule an arm writes

  datatype Schedule = Schedule(deadline: Option<Seconds>, heartbeat: Option<Seconds>, interval: Option<Seconds>)

  /** What one trigger sets. */
  function AfterTrigger(t: Trigger, now: Seconds, wane: Option<Seconds>, s: Schedule): Schedule {
    match t
    case After(d) => s.(deadline := Some(if wane.Some? then wane.value else now + d))
    case UnlessConfirmed(d) => s.(deadline := Some(now + d))
    case UnlessHeartbeat(deadline, interval) =>
      s.(heartbeat := Some(deadline), interval := Some(if interval.Some? then interval.value else deadline / 3))
  }

  function ScheduleOf(ts: seq<Trigger>, now: Seconds, wane: Option<Seconds>): Schedule {
    if ts == [] then Schedule(None, None, None)
    else AfterTrigger(ts[|ts| - 1], now, wane, ScheduleOf(ts[..|ts| - 1], now, wane))
  }

  /** `schedule`: a struct filled trigger by trigger, the last of a kind winning. */
  method FillSchedule(ts: seq<Trigger>, now: Seconds, wane: Option<Seconds>) returns (s: Schedule)
    ensures s == ScheduleOf(ts, now, wane)
  {
    s := Schedule(None, None, None);
    var i := 0;
    while i < |ts|
      invariant 0 <= i <= |ts|
      invariant s == ScheduleOf(ts[..i], now, wane)
    {
      s := AfterTrigger(ts[i], now, wane, s);
      assert ts[..i + 1][..i] == ts[..i];
      i := i + 1;
    }
    assert ts[..|ts|] == ts;
  }

  predicate SetsDeadline(t: Trigger) { t.After? || t.UnlessConfirmed? }

  /** An arm writes a deadline exactly when some trigger is bound to one, never one already
      past, and a heartbeat exactly when some trigger wants one. */
  lemma {:induction false} ScheduleMeans(ts: seq<Trigger>, now: Seconds, wane: Option<Seconds>)
    requires wane.Some? ==> now <= wane.value
    ensures ScheduleOf(ts, now, wane).deadline.Some? <==> exists t :: t in ts && SetsDeadline(t)
    ensures ScheduleOf(ts, now, wane).deadline.Some? ==> now <= ScheduleOf(ts, now, wane).deadline.value
    ensures ScheduleOf(ts, now, wane).heartbeat.Some? <==> exists t :: t in ts && t.UnlessHeartbeat?
    ensures ScheduleOf(ts, now, wane).heartbeat.Some? <==> ScheduleOf(ts, now, wane).interval.Some?
  {
    if ts != [] {
      var last := |ts| - 1;
      ScheduleMeans(ts[..last], now, wane);
      assert ts == ts[..last] + [ts[last]];
      assert ts[last] in ts;
      assert forall t :: t in ts <==> t in ts[..last] || t == ts[last];
    }
  }

  /** E0405: heartbeat intervals above a third of their deadline. */
  predicate HeartbeatViolation(t: Trigger) {
    t.UnlessHeartbeat? && t.interval.Some? && t.interval.value * 3 > t.deadline
  }

  predicate HeartbeatsClean(ts: seq<Trigger>) {
    forall i :: 0 <= i < |ts| ==> !HeartbeatViolation(ts[i])
  }

  /** Under a clean E0405 the engine beats at least three times before a heartbeat goes stale. */
  lemma {:induction false} ThreeBeatsPerDeadline(ts: seq<Trigger>, now: Seconds, wane: Option<Seconds>)
    requires HeartbeatsClean(ts) && ScheduleOf(ts, now, wane).heartbeat.Some?
    ensures ScheduleOf(ts, now, wane).interval.Some?
    ensures ScheduleOf(ts, now, wane).interval.value * 3 <= ScheduleOf(ts, now, wane).heartbeat.value
  {
    if ts != [] {
      var last := |ts| - 1;
      assert !HeartbeatViolation(ts[last]);
      if !ts[last].UnlessHeartbeat? {
        ThreeBeatsPerDeadline(ts[..last], now, wane);
      }
    }
  }
}
