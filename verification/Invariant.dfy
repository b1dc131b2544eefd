/** The steps of the engine's invariant, by value: what each change of record or world keeps. */
module Invariant {
  import opened Wrappers
  import opened Model
  import opened Algebra
  import opened Intent
  import opened States
  import opened Footprint
  import opened Unrolling
  import opened Backstops
  import opened Safety
  import opened Drifting
  import opened Course
  import opened Completion

  /** How a step's walk ended. */
  datatype Flow = Continue | Stop

  datatype JournalEvent =
    | StepApplying(step: nat) | StepDone(step: nat) | StepFailed(step: nat) | UndoSkipped(step: nat)
    | StepHandedOff(step: nat) | KnellAcknowledged(measured: bool) | Note(name: string)

  /** The verbs a run may fall into doubt at: a handoff taken over, a walk gone on with, an expiry,
      a restart. */
  datatype Entry = HandsOff | Walks | Expires | Boots

  /** What the engine did: an entry, with the record's backstop as it then was; a guard asked; a
      `do` begun, with the record the store then kept; an undo run; the end of a walk that ran
      every leaf and was not stopped, with the arms it had chosen; or a verb entered, with the
      point of the run it was entered at. */
  datatype Act =
    | Journaled(ev: JournalEvent, backstop: Option<BackstopState>)
    | Asked(guard: Guard, answer: Res<Tri>, forced: bool)
    | Began(at: AppliedStep, kept: Record)
    | Undid(at: AppliedStep, result: UndoResult)
    | WalkedOut(choices: Choices)
    | Entered(verb: Entry, point: nat)

  datatype UndoResult = Undone(clobbered: seq<string>) | HeldBack(held: seq<string>) | Failed

  const SNAPSHOT_CAP: nat := 1048576

  predicate Live(b: Option<BackstopState>) { b.Some? && b.value.installed && b.value.armed }

  /** Under a clean reach rule, a step that may sever a transport is announced only with the
      backstop installed and armed, and no covered step's `do` runs before installation. Every
      `do` is of the next application, which is not applied, and runs only when the store names
      it in flight and keeps what was read of its facts. */
  predicate Protected(s: Setting, act: Act) {
    match act
    case Journaled(StepApplying(n), b) => Defended(s, n, b)
    case Began(at, kept) => WrittenAhead(s, at, kept) && InstalledFor(s, at.step, kept.backstop)
    case WalkedOut(ch) => SkipsItsCommit(s, ch)
    case _ => true
  }

  /** A plan clear of E0502 and E0505 whose repeats, under these arms, never come to its `commit()`. */
  predicate SkipsItsCommit(s: Setting, ch: Choices) {
    CommitClean(s.plan.body) ==> TimesRun(s.lists, s.plan.body, 1, map[], ch) == 0
  }

  predicate Defended(s: Setting, n: nat, b: Option<BackstopState>) {
    ReachViolations(s.plan) == [] && OpAt(s.plan.body, n).Some? && OpAt(s.plan.body, n).value.reach != [] ==> Live(b)
  }

  predicate InstalledFor(s: Setting, n: nat, b: Option<BackstopState>) {
    s.plan.backstop.Some? && OpAt(s.plan.body, n).Some? && OpAt(s.plan.body, n).value.undoLocus.OnTarget? ==>
      b.Some? && b.value.installed
  }

  predicate WrittenAhead(s: Setting, at: AppliedStep, kept: Record) {
    && kept.state.Applying? && kept.attempting == Some(at)
    && kept.applied + [at] <= Planned(s, kept.choices) && at !in kept.applied
    && Recorded(s, at.AsKey(), kept.snapshots, kept.attemptingPre)
  }

  /** What was read of every fact a step observes, and every existing fact it does not own. */
  predicate Recorded(s: Setting, key: Key, snaps: Snapshots, pre: map<string, Digest>) {
    forall k :: 0 <= k < |Entries(s, key)| && Observed(Entries(s, key)[k]) ==> RecordedAt(Entries(s, key)[k], key, k, snaps, pre)
  }

  predicate RecordedAt(e: FootprintEntry, key: Key, k: nat, snaps: Snapshots, pre: map<string, Digest>) {
    e.shape in pre && (!e.kind.Owned? && pre[e.shape] != Missing ==> SnapshotKey(key, k) in snaps)
  }

  /** A guard lets the walk go on: it answered yes, or unknown and an operator forced it. */
  predicate Passes(s: Setting, g: Guard, answer: Res<Tri>, forced: bool) {
    answer == Ok(Yes) || (answer == Ok(Unknown) && forced && !g.forceNever && s.plan.mode.Manual?)
  }

  /** From some act on, every guard of a list was asked, in order, and passed. */
  predicate PassedAt(s: Setting, acts: seq<Act>, from: nat, gs: seq<Guard>) {
    from + |gs| <= |acts| && forall i :: 0 <= i < |gs| ==> PassedBy(s, acts[from + i], gs[i])
  }

  predicate PassedBy(s: Setting, act: Act, g: Guard) {
    act.Asked? && act.guard == g && Passes(s, g, act.answer, act.forced)
  }

  ghost predicate AllProtected(s: Setting, acts: seq<Act>) {
    acts == [] || (Protected(s, acts[|acts| - 1]) && AllProtected(s, acts[..|acts| - 1]))
  }

  /** No application is in an unrolling twice, and every state in a list keeps the invariant. */
  ghost predicate Holds(s: Setting, points: seq<Point>, d: Doubt) {
    if points == [] then Identified(s)
    else Inv(s, points[|points| - 1].rec, points[|points| - 1].world, d) && Holds(s, points[..|points| - 1], d)
  }

  /** In every state of a list no `do` is half done. */
  ghost predicate Settled(s: Setting, points: seq<Point>, d: Doubt) {
    points == [] ||
    ((Trusted(s, d) ==> Rested(s, d.through, points[|points| - 1].rec, points[|points| - 1].world))
     && Settled(s, points[..|points| - 1], d))
  }

  // ---------------------------------------------------------------------------
  // The history of a run

  /** What a run had done and doubted when store and world were in some state together. */
  datatype Moment = Moment(acts: seq<Act>, doubt: Doubt)

  /** A step was announced, or handed to an operator and done. */
  predicate Begun(acts: seq<Act>, n: nat) {
    exists i :: 0 <= i < |acts| && acts[i].Journaled? && (acts[i].ev == StepApplying(n) || acts[i].ev == StepHandedOff(n))
  }

  /** A verb entered in this state is one the invariant does not survive. */
  ghost predicate AtRisk(s: Setting, through: nat, verb: Entry, p: Point) {
    match verb
    case HandsOff => p.rec.state.Deferred? && p.rec.deferred.Some? && !Snapped(s, p.rec.snapshots, p.rec.deferred.value.AsKey())
    case Walks => p.rec.state.Applying? && !Rested(s, through, p.rec, p.world)
    case Expires => p.rec.state.Applying? && !Rested(s, through, p.rec, p.world)
    case Boots => !Recoverable(s, p.rec, p.world)
  }

  /** The run entered a verb, at a point of its own history, in such a state. */
  ghost predicate Met(s: Setting, through: nat, trail: seq<Point>, acts: seq<Act>, verb: Entry, point: nat) {
    Entered(verb, point) in acts && point < |trail| && AtRisk(s, through, verb, trail[point])
  }

  /** At a point of the run a reserved fact held other bytes than the request found, with the same
      hash. */
  ghost predicate CollidedAt(s: Setting, p: Point, f: Fact) {
    Dirty(s, p.world, f) && DigestOf(s.sha, Value(p.world, f)) == DigestOf(s.sha, Init(s, f))
  }

  /** What the run's own history holds in evidence of its doubt. */
  ghost predicate Evidence(s: Setting, through: nat, trail: seq<Point>, acts: seq<Act>, d: Doubt) {
    match d
    case Certain(n) => n == through
    case Collided(point, f) => point < |trail| && CollidedAt(s, trail[point], f)
    case Past(n) => n > through && OpAt(s.plan.body, n).Some? && Begun(acts, n)
    case ByHand(point) => Met(s, through, trail, acts, HandsOff, point)
    case HalfDone(point) => Met(s, through, trail, acts, Walks, point) || Met(s, through, trail, acts, Expires, point)
    case Unrecovered(point) => Met(s, through, trail, acts, Boots, point)
  }

  /** A history in which no such state was met, no step past the number begun, and no fact was
      changed to bytes with the same hash. */
  ghost predicate Untroubled(s: Setting, through: nat, trail: seq<Point>, acts: seq<Act>) {
    && (forall verb, point :: !Met(s, through, trail, acts, verb, point))
    && (forall n :: n > through && OpAt(s.plan.body, n).Some? ==> !Begun(acts, n))
    && (forall i, f :: 0 <= i < |trail| ==> !CollidedAt(s, trail[i], f))
  }

  lemma UntroubledIsCertain(s: Setting, through: nat, trail: seq<Point>, acts: seq<Act>, d: Doubt)
    requires Evidence(s, through, trail, acts, d) && Untroubled(s, through, trail, acts)
    ensures d == Certain(through)
  {
    hide Met, Begun, CollidedAt;
  }

  /** Every state of a history keeps the invariant, up to a doubt the history so far holds the
      evidence of, and has only protected acts behind it, each state's leading on to the next's. */
  ghost predicate Kept(s: Setting, through: nat, trail: seq<Point>, moments: seq<Moment>) {
    && |moments| == |trail|
    && if trail == [] then Identified(s)
       else KeptAt(s, through, trail, moments) && Kept(s, through, trail[..|trail| - 1], moments[..|trail| - 1])
  }

  ghost predicate KeptAt(s: Setting, through: nat, trail: seq<Point>, moments: seq<Moment>)
    requires |moments| == |trail| > 0
  {
    var p, m := trail[|trail| - 1], moments[|trail| - 1];
    && Inv(s, p.rec, p.world, m.doubt)
    && Evidence(s, through, trail, m.acts, m.doubt)
    && AllProtected(s, m.acts)
    && (|trail| > 1 ==> moments[|trail| - 2].acts <= m.acts)
  }

  lemma {:induction false} KeptIsIdentified(s: Setting, through: nat, trail: seq<Point>, moments: seq<Moment>)
    requires Kept(s, through, trail, moments)
    ensures Identified(s)
  {
    hide Identified, KeptAt;
    if trail != [] { KeptIsIdentified(s, through, trail[..|trail| - 1], moments[..|trail| - 1]); }
  }

  /** A state that holds is added to the history. */
  lemma {:induction false} KeptGrows(s: Setting, through: nat, trail: seq<Point>, moments: seq<Moment>, p: Point, m: Moment)
    requires trail != [] && Kept(s, through, trail, moments) && Holds(s, [p], m.doubt)
    requires moments[|trail| - 1].acts <= m.acts && AllProtected(s, m.acts) && Evidence(s, through, trail, m.acts, m.doubt)
    ensures |moments| == |trail|
    ensures Kept(s, through, trail + [p], moments + [m]) && Evidence(s, through, trail + [p], m.acts, m.doubt)
  {
    hide Identified, Inv, AllProtected, Evidence;
    var all, with := trail + [p], moments + [m];
    assert all[..|all| - 1] == trail && with[..|all| - 1] == moments;
    assert p == Point(p.rec, p.world);
    HoldsOne(s, p.rec, p.world, m.doubt);
    EvidenceStays(s, through, trail, all, m.acts, m.acts, m.doubt);
  }

  lemma KeptFirst(s: Setting, through: nat, p: Point)
    requires Holds(s, [p], Certain(through))
    ensures Kept(s, through, [p], [Moment([], Certain(through))])
  {
    hide Identified, Inv;
    var trail, moments := [p], [Moment([], Certain(through))];
    assert trail[..0] == [] && moments[..0] == [] && p == Point(p.rec, p.world);
    HoldsOne(s, p.rec, p.world, Certain(through));
    assert AllProtected(s, []);
    assert Kept(s, through, trail[..0], moments[..0]);
  }

  lemma ActsLeadOn(s: Setting, through: nat, trail: seq<Point>, moments: seq<Moment>, i: nat)
    requires Kept(s, through, trail, moments) && i + 1 < |trail|
    ensures moments[i].acts <= moments[i + 1].acts
  {
    hide Inv, AllProtected, Evidence;
    KeptEverywhere(s, through, trail, moments, i + 1);
    assert moments[..i + 2][i] == moments[i] && moments[..i + 2][i + 1] == moments[i + 1];
  }

  /** What a history holds in evidence it keeps as it goes on. */
  lemma {:induction false} EvidenceStays(s: Setting, through: nat, trail: seq<Point>, more: seq<Point>, acts: seq<Act>, further: seq<Act>, d: Doubt)
    requires Evidence(s, through, trail, acts, d) && trail <= more && acts <= further
    ensures Evidence(s, through, more, further, d)
  {
    hide AtRisk, CollidedAt;
    if d.Past? {
      var i :| 0 <= i < |acts| && acts[i].Journaled? && (acts[i].ev == StepApplying(d.step) || acts[i].ev == StepHandedOff(d.step));
      assert further[i] == acts[i];
    } else {
      assert forall a :: a in acts ==> a in further;
    }
  }

  /** Any state of a history: it and what was before it. */
  lemma {:induction false} KeptEverywhere(s: Setting, through: nat, trail: seq<Point>, moments: seq<Moment>, i: nat)
    requires Kept(s, through, trail, moments) && i < |trail|
    ensures Kept(s, through, trail[..i + 1], moments[..i + 1]) && KeptAt(s, through, trail[..i + 1], moments[..i + 1])
    ensures |moments| == |trail| && moments[i].acts <= moments[|trail| - 1].acts
  {
    hide Identified, Inv, AllProtected, Evidence;
    if i == |trail| - 1 {
      assert trail[..i + 1] == trail && moments[..i + 1] == moments;
    } else {
      var shorter, less := trail[..|trail| - 1], moments[..|trail| - 1];
      KeptEverywhere(s, through, shorter, less, i);
      assert shorter[..i + 1] == trail[..i + 1] && less[..i + 1] == moments[..i + 1];
    }
  }

  lemma {:induction false} ProtectedPrefix(s: Setting, acts: seq<Act>, n: nat)
    requires AllProtected(s, acts) && n <= |acts|
    ensures AllProtected(s, acts[..n])
  {
    hide Protected;
    if n == |acts| {
      assert acts[..n] == acts;
    } else {
      ProtectedPrefix(s, acts[..|acts| - 1], n);
      assert acts[..|acts| - 1][..n] == acts[..n];
    }
  }

  /** A history cut short at a state, with some of what was done there. */
  lemma {:induction false} KeptCut(s: Setting, through: nat, trail: seq<Point>, moments: seq<Moment>, acts: seq<Act>, i: nat, n: nat)
    requires Kept(s, through, trail, moments) && AllProtected(s, acts) && i < |trail|
    requires moments[|trail| - 1].acts <= acts && |moments[i].acts| <= n <= |acts|
    ensures Kept(s, through, trail[..i + 1], moments[..i + 1]) && Holds(s, [trail[i]], moments[i].doubt)
    ensures Evidence(s, through, trail[..i + 1], acts[..n], moments[i].doubt) && AllProtected(s, acts[..n])
    ensures |moments| == |trail| && |moments[..i + 1]| == |trail[..i + 1]| == i + 1 && trail[..i + 1][i] == trail[i] && moments[..i + 1][i].acts <= acts[..n]
  {
    hide Identified, Inv, AllProtected, Evidence, Holds;
    var p, m := trail[i], moments[i];
    KeptEverywhere(s, through, trail, moments, i);
    KeptIsIdentified(s, through, trail, moments);
    assert p == Point(p.rec, p.world);
    HoldsOne(s, p.rec, p.world, m.doubt);
    ProtectedPrefix(s, acts, n);
    assert m.acts <= acts[..n];
    EvidenceStays(s, through, trail[..i + 1], trail[..i + 1], m.acts, acts[..n], m.doubt);
  }

  lemma SettledOne(s: Setting, r: Record, w: World, d: Doubt)
    ensures Settled(s, [Point(r, w)], d) <==> (Trusted(s, d) ==> Rested(s, d.through, r, w))
  {
    hide Rested;
    var one := [Point(r, w)];
    assert Settled(s, one[..0], d);
  }

  lemma HoldsOne(s: Setting, r: Record, w: World, d: Doubt)
    ensures Holds(s, [Point(r, w)], d) <==> Identified(s) && Inv(s, r, w, d)
  {
    hide Identified, HonestThrough, Inv;
    var one := [Point(r, w)];
    assert one[..0] == [];
    assert Holds(s, one[..0], d) <==> Identified(s);
  }

  lemma ActsGrow(s: Setting, acts: seq<Act>, a: Act)
    requires AllProtected(s, acts) && Protected(s, a)
    ensures AllProtected(s, acts + [a])
  {
    hide Protected;
    var all := acts + [a];
    assert all[..|all| - 1] == acts;
  }

  /** Going forward, a run not in doubt falls into it only by a collision or by a step past its
      number. */
  predicate Strays(was: Doubt, now: Doubt) { now == was || (was.Certain? && (now.Collided? || now.Past?)) }

  /** What a run has settled and done so far. */
  datatype Stage = Stage(hand: (bool, Option<Seconds>), kept: (bool, Option<Seconds>), trail: seq<Point>, acts: seq<Act>, doubt: Doubt)

  /** Going forward: approval and deadline stay, in hand and in the store; history and acts are
      added; doubt strays only so. */
  predicate GoesOn(a: Stage, b: Stage) {
    b.hand == a.hand && (b.kept == a.kept || b.kept == a.hand) && a.trail <= b.trail && a.acts <= b.acts && Strays(a.doubt, b.doubt)
  }

  lemma GoesOnAlong()
    ensures forall a :: GoesOn(a, a)
    ensures forall a, b, c {:trigger GoesOn(a, b), GoesOn(b, c)} :: GoesOn(a, b) && GoesOn(b, c) ==> GoesOn(a, c)
  {
  }

  lemma GoesOnGrows()
    ensures forall a, b {:trigger GoesOn(a, b)} :: GoesOn(a, b) ==> a.trail <= b.trail && a.acts <= b.acts
  {
  }

  lemma GoesOnKeeps()
    ensures forall a, b {:trigger GoesOn(a, b)} :: GoesOn(a, b) ==> b.kept == a.kept || b.kept == a.hand
    ensures forall a, b {:trigger GoesOn(a, b)} :: GoesOn(a, b) ==> Strays(a.doubt, b.doubt)
  {
  }

  /** The applications undone, in the order they were. */
  function UndoneIn(acts: seq<Act>): seq<AppliedStep> {
    if acts == [] then [] else UndoneIn(acts[..|acts| - 1]) + UndoneBy(acts[|acts| - 1])
  }

  function UndoneBy(a: Act): seq<AppliedStep> { if a.Undid? && a.result.Undone? then [a.at] else [] }

  /** The steps among some applications, last first. */
  function LastFirst(s: Setting, applied: seq<AppliedStep>): seq<AppliedStep> {
    if applied == [] then []
    else StepAlone(s, applied[|applied| - 1]) + LastFirst(s, applied[..|applied| - 1])
  }

  function StepAlone(s: Setting, a: AppliedStep): seq<AppliedStep> { if OpAt(s.plan.body, a.step).Some? then [a] else [] }

  lemma LastFirstStep(s: Setting, rest: seq<AppliedStep>, a: AppliedStep)
    ensures LastFirst(s, rest + [a]) == StepAlone(s, a) + LastFirst(s, rest)
  {
    var all := rest + [a];
    assert all[..|all| - 1] == rest;
  }

  lemma LastFirstNone(s: Setting)
    ensures LastFirst(s, []) == []
  {
  }

  lemma UndoneGrows(acts: seq<Act>, a: Act)
    ensures UndoneIn(acts + [a]) == UndoneIn(acts) + UndoneBy(a)
  {
    var all := acts + [a];
    assert all[..|all| - 1] == acts;
  }

  /** Where an undo takes an instance. */
  lemma FromReverting(ctx: Ctx, st: State)
    requires st.Reverting? || st.Expired?
    ensures Transition(ctx, st, UndoClean) == To(Closed)
    ensures Transition(ctx, st, UndoFailed) == To(Stuck)
    ensures Transition(ctx, st, DriftOnDefer) == To(DriftHeld)
  {
  }

  /** Where an event takes an instance that is applying. */
  lemma FromApplying(s: Setting, r: Record)
    requires r.state.Applying?
    ensures Transition(CtxOf(s, r), r.state, Refuse) == To(if HoldsEarlier(s, r.applied) then Held else Reverting)
    ensures Transition(CtxOf(s, r), r.state, WaitAtStep) == To(Waiting)
    ensures Transition(CtxOf(s, r), r.state, DeferAtStep) == To(Deferred)
    ensures Transition(CtxOf(s, r), r.state, ConfirmEvent) == (if s.permanent then Stay else RefuseWith(R0102))
    ensures Transition(CtxOf(s, r), r.state, CommitItem) == (if s.permanent then To(Committed) else RefuseWith(R0102))
    ensures Transition(CtxOf(s, r), r.state, AllStepsDone) == (if s.permanent then NotApplicable else To(State.Applied))
  {
    hide HoldsEarlier, StepAt;
  }

  /** Whether an earlier applied step holds, and what a wait's step does on a lapse. */
  function CtxOf(s: Setting, r: Record): Ctx {
    Ctx(IntentOf(s), s.plan.mode, HoldsEarlier(s, r.applied),
        if r.waiting.Some? && StepAt(s.plan.body, r.waiting.value.step).Some?
        then StepAt(s.plan.body, r.waiting.value.step).value.onLapse else LapseReverts)
  }

  function HoldsEarlier(s: Setting, applied: seq<AppliedStep>): bool {
    applied != [] &&
    (HoldsEarlier(s, applied[..|applied| - 1])
     || (OpAt(s.plan.body, applied[|applied| - 1].step).Some?
         && OpAt(s.plan.body, applied[|applied| - 1].step).value.refusal.Hold?))
  }

  /** Where a refusal takes an instance: Held at the step, with what was applied, when an earlier
      applied step holds, else wherever the undo ended. */
  predicate RefusedAs(s: Setting, applied: seq<AppliedStep>, n: nat, r: Record) {
    if HoldsEarlier(s, applied) then r.state.Held? && r.heldAt == Some(n) && r.applied == applied else UndoEnded(r)
  }

  predicate UndoEnded(r: Record) { (r.state.Closed? && r.applied == []) || r.state.Stuck? || r.state.DriftHeld? }

  /** A wait at a step, bounded exactly when a bound is given. */
  predicate WaitsAt(w: Option<WaitAt>, n: nat, bound: Option<Seconds>, guarded: bool) {
    w.Some? && w.value.step == n && w.value.guarded == guarded && (w.value.bound.Some? <==> bound.Some?)
  }

  function Until(now: Seconds, bound: Option<Seconds>): (r: Option<Seconds>)
    ensures r.Some? <==> bound.Some?
  {
    if bound.Some? then Some(now + bound.value) else None
  }

  function OrElse(a: Option<Seconds>, b: Option<Seconds>): Option<Seconds> { if a.Some? then a else b }

  /** The first guards passed, and the next did not. */
  predicate BlockedAt(s: Setting, acts: seq<Act>, from: nat, gs: seq<Guard>, k: nat)
    requires k < |gs|
  {
    && PassedAt(s, acts, from, gs[..k]) && from + k < |acts|
    && acts[from + k].Asked? && acts[from + k].guard == gs[k] && !PassedBy(s, acts[from + k], gs[k])
  }

  /** From some act on: a knell's guard passed, its cost was measured, and it was acknowledged. */
  predicate KnellPassedAt(s: Setting, acts: seq<Act>, from: nat, refusal: Refusal) {
    refusal.PointOfNoReturn? ==>
      var guarded := if refusal.guard.Some? then 1 else 0;
      && (refusal.guard.Some? ==> PassedAt(s, acts, from, [refusal.guard.value]))
      && (refusal.ack.AckGate? ==> AcknowledgedAt(acts, from + guarded, refusal.cost))
  }

  predicate AcknowledgedAt(acts: seq<Act>, i: nat, cost: Cost) {
    i < |acts| && acts[i].Journaled? && acts[i].ev.KnellAcknowledged? && (cost.Probe? ==> acts[i].ev.measured)
  }

  /** From some act on, a step's `do` was begun. */
  predicate BeganIn(acts: seq<Act>, from: nat, at: AppliedStep) {
    exists i :: from <= i < |acts| && acts[i].Began? && acts[i].at == at
  }

  /** From some act on, the guards a leaf asks before it is run or marked all passed. */
  predicate GuardsPassed(s: Setting, acts: seq<Act>, from: nat, it: Item) {
    match it
    case Step(st) => PassedAt(s, acts, from, st.op.pre)
    case Knell(st) => PassedAt(s, acts, from, st.op.pre) && KnellPassedAt(s, acts, from + |st.op.pre|, st.op.refusal)
    case Preflight(gs) => PassedAt(s, acts, from, gs)
    case Assert(g, _, _) => PassedAt(s, acts, from, [g])
    case _ => true
  }

  /** Where a step that does not go on, tried or not, leaves an instance. */
  predicate StepStopped(s: Setting, applied: seq<AppliedStep>, at: AppliedStep, r: Record) {
    StoppedAs(s, applied, at.step, r) || StoppedAs(s, applied + [at], at.step, r)
  }

  lemma RefusedStops(s: Setting, applied: seq<AppliedStep>, at: AppliedStep, r: Record)
    requires RefusedAs(s, applied, at.step, r)
    ensures StepStopped(s, applied, at, r)
  {
    hide RefusedAs;
  }

  lemma JustBegun(acts: seq<Act>, n: nat)
    requires acts != [] && acts[|acts| - 1].Journaled?
    requires acts[|acts| - 1].ev == StepApplying(n) || acts[|acts| - 1].ev == StepHandedOff(n)
    ensures Begun(acts, n)
  {
  }

  lemma DroppedIsNotJoined(r: Record, a: AppliedStep)
    ensures Dropped(r) != Joined(r, a)
  {
    assert |Dropped(r).applied| < |Joined(r, a).applied|;
  }

  /** The next application, recorded, may have its `do` begun. */
  lemma NextIsWrittenAhead(s: Setting, r: Record, w: World, d: Doubt, a: AppliedStep)
    requires Holds(s, [Point(r, w)], d) && r.state.Applying? && r.attempting == Some(a) && Next(s, r, a)
    requires Recorded(s, a.AsKey(), r.snapshots, r.attemptingPre)
    ensures WrittenAhead(s, a, r)
  {
    HoldsOne(s, r, w, d);
    hide Inv, Recorded;
    var u := Planned(s, r.choices);
    assert u[|r.applied|] == (r.applied + [a])[|r.applied|] == a;
    forall i | 0 <= i < |r.applied| ensures r.applied[i] != a {
      assert u[i] == (r.applied + [a])[i] == r.applied[i];
    }
  }

  /** What was read and kept of the facts of the entries below `k`, as they read now. */
  ghost predicate RecordedTo(s: Setting, w: World, host: Host, es: seq<FootprintEntry>, key: Key, snaps: Snapshots, pre: map<string, Digest>, k: nat) {
    && (forall shape :: shape in pre ==> pre[shape] == DigestOf(s.sha, Value(w, Fact(host, shape))))
    && (forall j :: 0 <= j < k && j < |es| && Observed(es[j]) ==> RecordedAt(es[j], key, j, snaps, pre))
  }

  lemma RecordedNext(s: Setting, w: World, host: Host, es: seq<FootprintEntry>, key: Key, snaps: Snapshots, snaps': Snapshots, pre: map<string, Digest>, k: nat)
    requires RecordedTo(s, w, host, es, key, snaps, pre, k) && k < |es|
    requires snaps.Keys <= snaps'.Keys
    requires !es[k].kind.Owned? && Value(w, Fact(host, es[k].shape)).Some? ==> SnapshotKey(key, k) in snaps'
    ensures RecordedTo(s, w, host, es, key, snaps', pre[es[k].shape := DigestOf(s.sha, Value(w, Fact(host, es[k].shape)))], k + 1)
  {
    hide Value;
    var pre' := pre[es[k].shape := DigestOf(s.sha, Value(w, Fact(host, es[k].shape)))];
    forall j | 0 <= j < k + 1 && j < |es| && Observed(es[j])
      ensures RecordedAt(es[j], key, j, snaps', pre')
    {
      if j < k {
        assert RecordedAt(es[j], key, j, snaps, pre);
        assert pre'[es[j].shape] == pre[es[j].shape];
      }
    }
  }

  lemma RecordedSkips(s: Setting, w: World, host: Host, es: seq<FootprintEntry>, key: Key, snaps: Snapshots, pre: map<string, Digest>, k: nat)
    requires RecordedTo(s, w, host, es, key, snaps, pre, k) && k < |es| && !Observed(es[k])
    ensures RecordedTo(s, w, host, es, key, snaps, pre, k + 1)
  {
  }

  /** Where a step that does not go on leaves an instance. */
  predicate StoppedAs(s: Setting, applied: seq<AppliedStep>, n: nat, r: Record) {
    ((r.state.Waiting? || r.state.Deferred?) && r.applied == applied) || RefusedAs(s, applied, n, r)
  }

  /** What approval settles of a record. */
  function Terms(r: Record): (bool, Option<Seconds>) { (r.approved, r.deadline) }

  /** A record that gave its attempt up. */
  function Dropped(r: Record): Record { r.(attempting := None, attemptingPre := map[]) }

  /** The deadline approval gives a temporary plan: its wane from now. */
  function DeadlineAt(s: Setting, had: Option<Seconds>, now: Seconds): Option<Seconds> {
    if s.permanent then had
    else
      match EffectiveWane(s.plan)
      case Some(wane) => Some(now + wane)
      case None => None
  }

  /** What disarming leaves of a backstop: confirmed, and gone altogether unless a heartbeat is
      still to be served. */
  predicate DisarmedFrom(s: Setting, all: bool, had: Option<BackstopState>, b: Option<BackstopState>) {
    if had.Some? && had.value.installed then
      var whole := all || s.plan.backstop.None? || !ServesHeartbeat(s.plan.backstop.value.triggers);
      b == Some(had.value.(confirmed := true, armed := had.value.armed && !whole, installed := !whole))
    else b == had
  }

  /** A record whose attempt joined the applied. */
  function Joined(r: Record, a: AppliedStep): Record {
    r.(applied := r.applied + [a], attempting := None, attemptingPre := map[])
  }

  predicate IsApplied(r: Record, step: nat, iteration: nat, vars: Vars) {
    exists i :: 0 <= i < |r.applied| && r.applied[i] == AppliedStep(step, iteration, vars)
  }

  // ---------------------------------------------------------------------------
  // Steps of the invariant, by value

  /** A rested record may leave Applying for any state that is not a deferral. */
  lemma RestedMayMove(s: Setting, r: Record, w: World, d: Doubt, st: State)
    requires Holds(s, [Point(r, w)], d) && Settled(s, [Point(r, w)], d)
    requires r.state.Applying? && !st.Deferred? && !BeforeApproval(st) && Admits(IntentOf(s), st)
    ensures Holds(s, [Point(r.(state := st), w)], d)
  {
    hide Identified, HonestThrough;
    HoldsOne(s, r, w, d);
    SettledOne(s, r, w, d);
    HoldsOne(s, r.(state := st), w, d);
  }

  /** It may expire with a step in flight that no `do` has changed anything for. */
  lemma UntouchedMayExpire(s: Setting, r: Record, w: World, d: Doubt)
    requires Holds(s, [Point(r, w)], d) && r.state.Applying? && !s.permanent
    requires Trusted(s, d) && r.attempting.Some? ==> r.attempting.value in r.applied || Clean(s, w, r.attempting.value.AsKey())
    ensures Holds(s, [Point(r.(state := Expired), w)], d)
  {
    hide Identified, HonestThrough, Snapped, Faithful;
    HoldsOne(s, r, w, d);
    HoldsOne(s, r.(state := Expired), w, d);
    if Trusted(s, d) && r.attempting.Some? && r.attempting.value in r.applied {
      var i :| 0 <= i < |r.applied| && r.applied[i] == r.attempting.value;
    }
  }

  /** A step in flight that has changed something is half done. */
  lemma TouchedIsHalfDone(s: Setting, r: Record, w: World, d: Doubt)
    requires Holds(s, [Point(r, w)], d) && Trusted(s, d) && InFlight(r)
    requires r.attempting.value !in r.applied && !Clean(s, w, r.attempting.value.AsKey())
    ensures !Rested(s, d.through, r, w)
  {
    HoldsOne(s, r, w, d);
    hide Clean, Rested;
    if Rested(s, d.through, r, w) { FreshIsClean(s, d.through, r, w, r.attempting.value); }
  }

  /** Anyone may write a fact an applied step may write. */
  lemma OthersMayWrite(s: Setting, r: Record, w: World, d: Doubt, i: nat, f: Fact, v: Option<Bytes>)
    requires Holds(s, [Point(r, w)], d) && i < |r.applied| && Touches(s, r.applied[i].AsKey(), f)
    ensures Holds(s, [Point(r, Put(w, f, v))], d)
  {
    var w' := Put(w, f, v);
    HoldsOne(s, r, w, d);
    HoldsOne(s, r, w', d);
    if Trusted(s, d) {
      assert forall g :: Dirty(s, w', g) ==> g == f || Dirty(s, w, g);
      AttemptIsPlanned(s, r, r.applied[i]);
      assert Loose(s, d.through, f) || Claimed(s, r.applied, f);
      if InFlight(r) && r.attempting.value !in r.applied {
        FactsApart(s, d.through, r, i, r.attempting.value);
        PlannedIsHonest(s, d.through, r, r.attempting.value);
      }
      hide HonestThrough, Covers, Touches, Put, Value, IsPlanned;
    }
    hide Identified, OnCourse, HonestThrough, Faithful, Covers, Put, Loose;
  }

  lemma FactsApart(s: Setting, n: nat, r: Record, i: nat, a: AppliedStep)
    requires HonestThrough(s, n) && AllSnapped(s, n, r) && Next(s, r, a) && Upto(s, n, a.step) && i < |r.applied|
    ensures ApartAt(s, r.applied[i].AsKey(), a.AsKey())
  {
    var u := Planned(s, r.choices);
    var l := |r.applied|;
    assert u[l] == (r.applied + [a])[l] == a;
    assert u[i] == (r.applied + [a])[i] == r.applied[i];
    assert BothUpto(s, n, u[i], u[l]);
  }

  /** It may defer the next application. */
  lemma RestedMayDefer(s: Setting, r: Record, w: World, d: Doubt, a: AppliedStep)
    requires Holds(s, [Point(r, w)], d) && Settled(s, [Point(r, w)], d)
    requires r.state.Applying? && Next(s, r, a) && LeafAt(s.plan.body, a.step) != Some(Commit)
    ensures Holds(s, [Point(r.(deferred := Some(a)), w)], d)
    ensures Holds(s, [Point(r.(deferred := Some(a), state := State.Deferred), w)], d)
  {
    hide Identified, HonestThrough;
    HoldsOne(s, r, w, d);
    SettledOne(s, r, w, d);
    HoldsOne(s, r.(deferred := Some(a)), w, d);
    HoldsOne(s, r.(deferred := Some(a), state := State.Deferred), w, d);
  }

  /** An instance that is being undone may come to rest. */
  lemma RevertingMayMove(s: Setting, r: Record, w: World, d: Doubt, st: State)
    requires Holds(s, [Point(r, w)], d) && (r.state.Reverting? || r.state.Expired?)
    requires st.Closed? || st.Stuck? || st.DriftHeld?
    ensures Holds(s, [Point(r.(state := st), w)], d)
  {
    hide Identified, HonestThrough;
    HoldsOne(s, r, w, d);
    HoldsOne(s, r.(state := st), w, d);
  }

  /** Marking the application that was in flight, or a leaf that changes nothing. */
  lemma MarkedIsRested(s: Setting, n: nat, r: Record, w: World, a: AppliedStep)
    requires Safe(s, n, r, w) && Upto(s, n, a.step)
    requires forall f :: Dirty(s, w, f) ==> Loose(s, n, f) || Claimed(s, r.applied, f) || Covers(s, a.AsKey(), f)
    requires forall key :: key in r.markers ==> HasKey(r.applied, key) || key == a.AsKey()
    requires Snapped(s, r.snapshots, a.AsKey())
    ensures var r' := r.(applied := r.applied + [a], attempting := None, attemptingPre := map[]);
            Safe(s, n, r', w) && Rested(s, n, r', w)
  {
    var all := r.applied + [a];
    forall f | Dirty(s, w, f) && !Loose(s, n, f)
      ensures Claimed(s, all, f)
    {
      if Claimed(s, r.applied, f) {
        var i :| 0 <= i < |r.applied| && Covers(s, r.applied[i].AsKey(), f);
        assert Covers(s, all[i].AsKey(), f);
      } else {
        assert Covers(s, all[|r.applied|].AsKey(), f);
      }
    }
    forall key | key in r.markers
      ensures HasKey(all, key)
    {
      if HasKey(r.applied, key) {
        var i :| 0 <= i < |r.applied| && r.applied[i].AsKey() == key;
        assert all[i].AsKey() == key;
      } else {
        assert all[|r.applied|].AsKey() == key;
      }
    }
    forall i | 0 <= i < |all|
      ensures Upto(s, n, all[i].step) && Snapped(s, r.snapshots, all[i].AsKey())
    {
      if i < |r.applied| { assert all[i] == r.applied[i]; }
    }
  }

  /** Popping an application whose facts are clean. */
  lemma PoppedIsSafe(s: Setting, n: nat, r: Record, w: World, markers: map<Key, seq<Marker>>)
    requires Safe(s, n, r, w) && !InFlight(r) && |r.applied| > 0
    requires Clean(s, w, r.applied[|r.applied| - 1].AsKey())
    requires !MayAttempt(r.state)
    ensures Safe(s, n, r.(applied := r.applied[..|r.applied| - 1], markers := markers), w)
  {
    hide Snapped, Faithful;
    var last := |r.applied| - 1;
    var rest := r.applied[..last];
    assert forall i :: 0 <= i < last ==> rest[i] == r.applied[i];
    forall f | Dirty(s, w, f) && !Loose(s, n, f)
      ensures Claimed(s, rest, f)
    {
      var i :| 0 <= i < |r.applied| && Covers(s, r.applied[i].AsKey(), f);
      assert Covers(s, rest[i].AsKey(), f);
    }
  }

  /** Two records that differ only in fields the invariant does not read. */
  predicate SameCore(r: Record, r': Record) {
    && r'.state == r.state && r'.applied == r.applied && r'.choices == r.choices
    && r'.snapshots == r.snapshots && r'.markers == r.markers && r'.deferred == r.deferred
    && r'.attempting == r.attempting && r'.attemptingPre == r.attemptingPre
  }

  lemma SameCoreKeeps(s: Setting, r: Record, r': Record, w: World, d: Doubt)
    requires Holds(s, [Point(r, w)], d) && SameCore(r, r')
    ensures Holds(s, [Point(r', w)], d)
    ensures Settled(s, [Point(r, w)], d) ==> Settled(s, [Point(r', w)], d)
  {
    hide Identified, HonestThrough;
    HoldsOne(s, r, w, d);
    HoldsOne(s, r', w, d);
    SettledOne(s, r, w, d);
    SettledOne(s, r', w, d);
  }

  lemma TowardKeepsInv(s: Setting, r: Record, w: World, w': World, d: Doubt)
    requires Holds(s, [Point(r, w)], d) && (Trusted(s, d) ==> Toward(s, w, w'))
    ensures Holds(s, [Point(r, w')], d)
  {
    hide Identified, HonestThrough, Safe;
    HoldsOne(s, r, w, d);
    HoldsOne(s, r, w', d);
    if Trusted(s, d) { TowardKeeps(s, d.through, r, w, w'); }
  }

  lemma DoKeepsInv(s: Setting, r: Record, w: World, w': World, d: Doubt)
    requires Holds(s, [Point(r, w)], d) && InFlight(r)
    requires Trusted(s, d) ==>
      && Snapped(s, r.snapshots, r.attempting.value.AsKey())
      && (r.attemptingPre != map[] ==> PreRight(s, r.attemptingPre, r.attempting.value.AsKey()))
      && Within(s, r.attempting.value.AsKey(), w, w')
    ensures Holds(s, [Point(r, w')], d)
  {
    hide Identified, HonestThrough, Safe;
    HoldsOne(s, r, w, d);
    HoldsOne(s, r, w', d);
    if Trusted(s, d) {
      AttemptIsPlanned(s, r, r.attempting.value);
      DoKeeps(s, d.through, r, w, w');
    }
  }

  /** A doubt only weakens what a state is held to. */
  lemma {:induction false} DoubtWeakens(s: Setting, points: seq<Point>, d: Doubt, more: Doubt)
    requires Holds(s, points, d) && !more.Certain?
    ensures Holds(s, points, more) && Settled(s, points, more) && !Trusted(s, more)
  {
    hide Identified, HonestThrough, OnCourse, Safe, Rested;
    if points != [] {
      DoubtWeakens(s, points[..|points| - 1], d, more);
    }
  }

  /** What is known between a step's snapshot and its mark. */
  ghost predicate MidDo(s: Setting, r: Record, w: World, d: Doubt, a: AppliedStep, marked: bool) {
    && r.state.Applying? && r.attempting == Some(a) && Next(s, r, a)
    && LeafAt(s.plan.body, a.step) != Some(Commit)
    && (Trusted(s, d) ==>
          && Upto(s, d.through, a.step)
          && Snapped(s, r.snapshots, a.AsKey())
          && (r.attemptingPre != map[] ==> PreRight(s, r.attemptingPre, a.AsKey()))
          && (forall key :: key in r.markers ==> HasKey(r.applied, key) || (marked && key == a.AsKey())))
  }

  /** Writing ahead: the next application may be put in flight; nothing of it is touched. */
  lemma AttemptMayBegin(s: Setting, r: Record, w: World, d: Doubt, a: AppliedStep)
    requires Holds(s, [Point(r, w)], d) && Settled(s, [Point(r, w)], d)
    requires r.state.Applying? && Next(s, r, a) && LeafAt(s.plan.body, a.step) != Some(Commit)
    requires Trusted(s, d) ==> Upto(s, d.through, a.step)
    ensures var r' := r.(attempting := Some(a)); Holds(s, [Point(r', w)], d) && Settled(s, [Point(r', w)], d)
    ensures Trusted(s, d) ==> Clean(s, w, a.AsKey()) && HonestApp(s, a.AsKey()) && a.AsKey() !in r.markers
  {
    HoldsOne(s, r, w, d);
    SettledOne(s, r, w, d);
    HoldsOne(s, r.(attempting := Some(a)), w, d);
    SettledOne(s, r.(attempting := Some(a)), w, d);
    if Trusted(s, d) {
      FreshIsClean(s, d.through, r, w, a);
      PlannedIsHonest(s, d.through, r, a);
    }
    hide Identified, HonestThrough, Snapped, Faithful, HonestApp;
  }

  /** Before anything runs, the attempt may be withdrawn. */
  lemma AttemptMayBeWithdrawn(s: Setting, r: Record, w: World, d: Doubt)
    requires Holds(s, [Point(r, w)], d) && Settled(s, [Point(r, w)], d) && r.state.Applying?
    ensures var r' := r.(attempting := None, attemptingPre := map[]); Holds(s, [Point(r', w)], d) && Settled(s, [Point(r', w)], d)
  {
    hide Identified, HonestThrough, Snapped, Faithful;
    var r' := r.(attempting := None, attemptingPre := map[]);
    HoldsOne(s, r, w, d);
    SettledOne(s, r, w, d);
    HoldsOne(s, r', w, d);
    SettledOne(s, r', w, d);
  }

  /** One fact's snapshot, taken while the step's facts are clean. */
  lemma SnapshotKeeps(s: Setting, r: Record, w: World, d: Doubt, key: Key, k: nat, bytes: Bytes)
    requires Holds(s, [Point(r, w)], d) && Settled(s, [Point(r, w)], d)
    requires Trusted(s, d) ==>
      && HonestApp(s, key) && Clean(s, w, key)
      && k < |Entries(s, key)| && Entries(s, key)[k].kind.Modified? && Value(w, FactAt(s, key, k)) == Some(bytes)
    ensures var r' := r.(snapshots := r.snapshots[SnapshotKey(key, k) := s.lossy(bytes)]);
            Holds(s, [Point(r', w)], d) && Settled(s, [Point(r', w)], d)
  {
    var r' := r.(snapshots := r.snapshots[SnapshotKey(key, k) := s.lossy(bytes)]);
    HoldsOne(s, r, w, d);
    SettledOne(s, r, w, d);
    HoldsOne(s, r', w, d);
    SettledOne(s, r', w, d);
    if Trusted(s, d) {
      assert HonestEntry(s, key, k);
      assert Covers(s, key, FactAt(s, key, k));
      assert Init(s, FactAt(s, key, k)) == Some(bytes);
      SnapshotsOnlyGrow(s, d.through, r, w, r'.snapshots);
    }
    hide Identified, HonestThrough, Safe;
  }

  lemma SnapshotsOnlyGrow(s: Setting, n: nat, r: Record, w: World, snaps: Snapshots)
    requires Safe(s, n, r, w) && Faithful(s, snaps) && r.snapshots.Keys <= snaps.Keys
    ensures Safe(s, n, r.(snapshots := snaps), w)
  {
    hide Faithful;
    forall key | Snapped(s, r.snapshots, key)
      ensures Snapped(s, snaps, key)
    {
      assert forall k :: 0 <= k < |Entries(s, key)| && NotLost(s, r.snapshots, key, k) ==> NotLost(s, snaps, key, k);
    }
  }

  /** What was read before `do` goes into the record. */
  lemma PreMayBeKept(s: Setting, r: Record, w: World, d: Doubt, pre: map<string, Digest>)
    requires Holds(s, [Point(r, w)], d) && Settled(s, [Point(r, w)], d) && InFlight(r)
    requires Trusted(s, d) ==> PreRight(s, pre, r.attempting.value.AsKey())
    ensures var r' := r.(attemptingPre := pre); Holds(s, [Point(r', w)], d) && Settled(s, [Point(r', w)], d)
  {
    hide Identified, HonestThrough, PreRight, Snapped, Faithful;
    var r' := r.(attemptingPre := pre);
    HoldsOne(s, r, w, d);
    SettledOne(s, r, w, d);
    HoldsOne(s, r', w, d);
    SettledOne(s, r', w, d);
  }

  /** A failed step whose facts are clean again is dropped. */
  lemma AttemptMayBeDropped(s: Setting, r: Record, w: World, w': World, d: Doubt, a: AppliedStep)
    requires Holds(s, [Point(r, w)], d) && MidDo(s, r, w, d, a, false)
    requires Trusted(s, d) ==> Toward(s, w, w') && Clean(s, w', a.AsKey())
    ensures var r' := r.(attempting := None, attemptingPre := map[]); Holds(s, [Point(r', w')], d) && Settled(s, [Point(r', w')], d)
  {
    hide Identified, HonestThrough;
    var r' := r.(attempting := None, attemptingPre := map[]);
    HoldsOne(s, r, w, d);
    HoldsOne(s, r', w', d);
    SettledOne(s, r', w', d);
    assert OnCourse(s, r');
    if Trusted(s, d) {
      DroppedIsRested(s, d.through, r, w, w');
    }
    hide Safe, Rested, OnCourse, MidDo;
  }

  /** The step's `do` is done, or its undo failed: it joins the applied. */
  lemma AttemptMayBeMarked(s: Setting, r: Record, w: World, d: Doubt, a: AppliedStep, marked: bool)
    requires Holds(s, [Point(r, w)], d) && MidDo(s, r, w, d, a, marked)
    ensures var r' := r.(applied := r.applied + [a], attempting := None, attemptingPre := map[]);
            Holds(s, [Point(r', w)], d) && Settled(s, [Point(r', w)], d)
    ensures r.state.Applying?
  {
    hide Identified, HonestThrough;
    var r' := r.(applied := r.applied + [a], attempting := None, attemptingPre := map[]);
    HoldsOne(s, r, w, d);
    HoldsOne(s, r', w, d);
    SettledOne(s, r', w, d);
    assert OnCourse(s, r');
    if Trusted(s, d) {
      assert Safe(s, d.through, r, w);
      hide OnCourse, Snapped, Faithful, PreRight, Covers;
      MarkedIsRested(s, d.through, r, w, a);
    }
    hide Safe, Rested, OnCourse, MidDo;
  }

  /** A leaf that changes nothing joins the applied. */
  lemma LeafMayBeMarked(s: Setting, r: Record, w: World, d: Doubt, a: AppliedStep)
    requires Holds(s, [Point(r, w)], d) && Settled(s, [Point(r, w)], d) && r.state.Applying? && Next(s, r, a)
    requires OpAt(s.plan.body, a.step).None? && LeafAt(s.plan.body, a.step) != Some(Commit)
    ensures var r' := r.(applied := r.applied + [a], attempting := None, attemptingPre := map[]);
            Holds(s, [Point(r', w)], d) && Settled(s, [Point(r', w)], d)
  {
    hide Identified, HonestThrough;
    var r' := r.(applied := r.applied + [a], attempting := None, attemptingPre := map[]);
    HoldsOne(s, r, w, d);
    SettledOne(s, r, w, d);
    HoldsOne(s, r', w, d);
    SettledOne(s, r', w, d);
    assert OnCourse(s, r');
    if Trusted(s, d) {
      assert Safe(s, d.through, r, w);
      assert Snapped(s, r.snapshots, a.AsKey());
      hide OnCourse, Snapped, Faithful, PreRight, Covers;
      MarkedIsRested(s, d.through, r, w, a);
    }
    hide Safe, Rested, OnCourse;
  }

  /** The entries below `k` are snapped, and what was read of them is right. */
  ghost predicate SnappedTo(s: Setting, snaps: Snapshots, key: Key, k: nat) {
    forall j :: 0 <= j < k && j < |Entries(s, key)| ==> NotLost(s, snaps, key, j)
  }

  ghost predicate PreRightTo(s: Setting, pre: map<string, Digest>, key: Key, k: nat) {
    forall j :: 0 <= j < k && j < |Entries(s, key)| && Observed(Entries(s, key)[j]) ==>
      Entries(s, key)[j].shape in pre
      && pre[Entries(s, key)[j].shape] == DigestOf(s.sha, Init(s, FactAt(s, key, j)))
  }

  lemma PreRightToAll(s: Setting, pre: map<string, Digest>, key: Key)
    requires PreRightTo(s, pre, key, |Entries(s, key)|)
    ensures PreRight(s, pre, key)
  {
  }

  /** A clean step's facts read as they were at the request. */
  lemma CleanReads(s: Setting, w: World, key: Key, k: nat)
    requires HonestApp(s, key) && Clean(s, w, key) && k < |Entries(s, key)| && Observed(Entries(s, key)[k])
    ensures Value(w, FactAt(s, key, k)) == Init(s, FactAt(s, key, k))
  {
    assert HonestEntry(s, key, k);
    assert Covers(s, key, FactAt(s, key, k));
  }

  lemma SnapshotReaches(s: Setting, w: World, snaps: Snapshots, snaps': Snapshots, pre: map<string, Digest>, key: Key, k: nat, read: Option<Bytes>)
    requires HonestApp(s, key) && Clean(s, w, key)
    requires k < |Entries(s, key)| && Observed(Entries(s, key)[k]) && read == Value(w, FactAt(s, key, k))
    requires SnappedTo(s, snaps, key, k) && PreRightTo(s, pre, key, k)
    requires snaps.Keys <= snaps'.Keys
    requires !Entries(s, key)[k].kind.Owned? && read.Some? ==> SnapshotKey(key, k) in snaps'
    ensures SnappedTo(s, snaps', key, k + 1)
    ensures PreRightTo(s, pre[Entries(s, key)[k].shape := DigestOf(s.sha, read)], key, k + 1)
  {
    CleanReads(s, w, key, k);
    hide HonestApp, Clean;
    forall j | 0 <= j < k + 1
      ensures NotLost(s, snaps', key, j)
    {
      if j < k { assert NotLost(s, snaps, key, j); }
    }
  }

  lemma SkippedReaches(s: Setting, snaps: Snapshots, pre: map<string, Digest>, key: Key, k: nat)
    requires k < |Entries(s, key)| && !Observed(Entries(s, key)[k])
    requires SnappedTo(s, snaps, key, k) && PreRightTo(s, pre, key, k)
    ensures SnappedTo(s, snaps, key, k + 1) && PreRightTo(s, pre, key, k + 1)
  {
  }

  lemma MidDoSurvives(s: Setting, r: Record, w: World, w': World, d: Doubt, a: AppliedStep)
    requires MidDo(s, r, w, d, a, false)
    ensures MidDo(s, r, w', d, a, false)
  {
  }

  /** A failed step has no marker yet, so its undo is never held back for drift. */
  lemma NotHeldBack(s: Setting, r: Record, w: World, d: Doubt, a: AppliedStep, undone: UndoResult)
    requires Holds(s, [Point(r, w)], d) && MidDo(s, r, w, d, a, false)
    requires Trusted(s, d) && undone.HeldBack? ==> a.AsKey() in r.markers
    ensures Trusted(s, d) ==> !undone.HeldBack?
  {
    if Trusted(s, d) {
      HoldsOne(s, r, w, d);
      MidDoIsFresh(s, d.through, r, a);
    }
  }

  lemma MidDoIsFresh(s: Setting, n: nat, r: Record, a: AppliedStep)
    requires HonestThrough(s, n) && AllSnapped(s, n, r) && Next(s, r, a) && Upto(s, n, a.step)
    ensures !HasKey(r.applied, a.AsKey())
  {
    var u := Planned(s, r.choices);
    var l := |r.applied|;
    assert u[l] == (r.applied + [a])[l] == a;
    forall i | 0 <= i < l
      ensures r.applied[i].AsKey() != a.AsKey()
    {
      assert u[i] == (r.applied + [a])[i] == r.applied[i];
      assert ApartAt(s, u[i].AsKey(), u[l].AsKey());
    }
  }

  lemma MarkersMayBeKept(s: Setting, r: Record, w: World, d: Doubt, a: AppliedStep, markers: map<Key, seq<Marker>>)
    requires Holds(s, [Point(r, w)], d) && MidDo(s, r, w, d, a, false) && OpAt(s.plan.body, a.step).Some?
    requires markers.Keys == r.markers.Keys + {a.AsKey()}
    ensures Holds(s, [Point(r.(markers := markers), w)], d)
    ensures MidDo(s, r.(markers := markers), w, d, a, true)
  {
    hide Identified, HonestThrough, Snapped, PreRight, Faithful;
    var r' := r.(markers := markers);
    HoldsOne(s, r, w, d);
    HoldsOne(s, r', w, d);
  }

  /** Everything `do` needs to start. */
  lemma DoMayStart(s: Setting, r: Record, w: World, d: Doubt, a: AppliedStep, op: Op)
    requires Holds(s, [Point(r, w)], d) && Settled(s, [Point(r, w)], d)
    requires r.state.Applying? && r.attempting == Some(a) && Next(s, r, a) && OpAt(s.plan.body, a.step) == Some(op)
    requires Trusted(s, d) ==>
      Upto(s, d.through, a.step) && Snapped(s, r.snapshots, a.AsKey()) && PreRight(s, r.attemptingPre, a.AsKey())
    ensures MidDo(s, r, w, d, a, false)
  {
    hide Holds, Snapped, PreRight;
    SettledOne(s, r, w, d);
  }

  /** A leaf of a walk is skipped or next. */
  lemma LeafIsNext(s: Setting, r: Record, w: World, d: Doubt, walked: seq<AppliedStep>, it: Item, at: AppliedStep)
    requires Holds(s, [Point(r, w)], d) && !Container(it) && walked <= r.applied
    requires FitsItem(s, r.choices, walked, it, at.iteration, at.step, at.vars)
    ensures IsApplied(r, at.step, at.iteration, at.vars) ==> walked + [at] <= r.applied
    ensures !IsApplied(r, at.step, at.iteration, at.vars) ==> walked == r.applied && Next(s, r, at)
  {
    HoldsOne(s, r, w, d);
    hide Identified, HonestThrough, Safe, Planned;
    assert Extends(r.choices, r.choices);
    assert UnrollItem(s.lists, it, at.iteration, at.step, at.vars, r.choices).apps == [at];
    SkippedOrNext(s, r, walked, at);
  }

  lemma ChoiceMayBeKept(s: Setting, r: Record, w: World, d: Doubt, leaf: nat, arm: bool)
    requires Holds(s, [Point(r, w)], d) && Settled(s, [Point(r, w)], d) && leaf !in r.choices
    ensures var r' := r.(choices := r.choices[leaf := arm]); Holds(s, [Point(r', w)], d) && Settled(s, [Point(r', w)], d)
  {
    var r' := r.(choices := r.choices[leaf := arm]);
    HoldsOne(s, r, w, d);
    SettledOne(s, r, w, d);
    HoldsOne(s, r', w, d);
    SettledOne(s, r', w, d);
    ChoiceKeepsCourse(s, r, leaf, arm);
    hide Identified, HonestThrough, OnCourse;
  }

  /** A `commit()` is run, not marked: where a clean plan's whole unrolling is applied, its repeats
      never came to it. */
  lemma WalkedOutSkipsItsCommit(s: Setting, r: Record, w: World, d: Doubt)
    requires Holds(s, [Point(r, w)], d) && Unroll(s.lists, s.plan.body, 0, 1, map[], r.choices).whole
    requires Planned(s, r.choices) <= r.applied
    ensures SkipsItsCommit(s, r.choices)
  {
    hide Identified, HonestThrough, Safe, Unroll, Leaves, CommitClean, TimesRun, EndsRun, Next;
    HoldsOne(s, r, w, d);
    if CommitClean(s.plan.body) {
      WholeRunCommits(s.lists, s.plan.body, r.choices);
      var u := Planned(s, r.choices);
      var ran := Completion.Ran(Leaves(s.plan.body), u);
      forall i | 0 <= i < |ran| ensures !ran[i].Commit? {
        assert u[i] == r.applied[i];
        assert LeafAt(s.plan.body, u[i].step) != Some(Commit);
      }
    }
  }

  lemma FitsItemsLater(s: Setting, ch: Choices, ch': Choices, walked: seq<AppliedStep>, items: seq<Item>, iteration: nat, leaf: nat, vars: Vars)
    requires FitsItems(s, ch, walked, items, iteration, leaf, vars) && Extends(ch, ch')
    ensures FitsItems(s, ch', walked, items, iteration, leaf, vars)
  {
    hide Unroll, Planned;
    assert forall more: Choices :: Extends(ch', more) ==> Extends(ch, more);
  }

  lemma NoLeavesYet(items: seq<Item>)
    ensures LeafCount(items[..0]) == 0
  {
    assert items[..0] == [];
  }

  lemma WholePlanPlaced(s: Setting)
    ensures Placed(s, s.plan.body, 1)
  {
    hide Leaves;
    assert Leaves(s.plan.body)[0..|Leaves(s.plan.body)|] == Leaves(s.plan.body);
  }

  /** The first leaf no applied step is at, for a refusal that belongs to no leaf. */
  function FirstUnapplied(s: Setting, r: Record): nat {
    FirstUnappliedFrom(r.applied, |Leaves(s.plan.body)|, 1)
  }

  function FirstUnappliedFrom(applied: seq<AppliedStep>, last: nat, n: nat): nat
    decreases last + 1 - n
  {
    if n > last then 1
    else if exists i :: 0 <= i < |applied| && applied[i].step == n then FirstUnappliedFrom(applied, last, n + 1)
    else n
  }

  predicate ServesHeartbeat(ts: seq<Trigger>) {
    exists i :: 0 <= i < |ts| && ts[i].UnlessHeartbeat?
  }

  lemma CoveredHaveOps(p: Plan)
    requires p.backstop.Some?
    ensures forall i :: 0 <= i < |CoverageOf(p).value.covered| ==> OpAt(p.body, CoverageOf(p).value.covered[i]).Some?
  {
    var cov := TargetUndoSteps(p.body);
    forall i | 0 <= i < |cov|
      ensures OpAt(p.body, cov[i]).Some?
    {
      assert cov[i] in cov;
    }
  }

  /** Where steps are covered, this one's turn for the backstop has come. */
  predicate Due(p: Plan, n: nat) {
    var cov := CoverageOf(p);
    cov.Some? && cov.value.covered != [] && cov.value.installedBefore.Some? && n >= cov.value.installedBefore.value
  }

  /** Installing and arming before a leaf, where that is due, protects it. */
  lemma CoveredAndDue(s: Setting, n: nat, b: Option<BackstopState>)
    requires Due(s.plan, n) ==> b.Some? && b.value.installed && (n >= CoverageOf(s.plan).value.armedBeforeStep ==> Live(b))
    ensures Defended(s, n, b) && InstalledFor(s, n, b)
  {
    hide ReachViolations, OpAt, TargetUndoSteps;
    if ReachViolations(s.plan) == [] && OpAt(s.plan.body, n).Some? && OpAt(s.plan.body, n).value.reach != [] {
      CleanReachMeans(s.plan, n);
    }
    if s.plan.backstop.Some? && OpAt(s.plan.body, n).Some? && OpAt(s.plan.body, n).value.undoLocus.OnTarget? {
      CoveredMeans(s.plan, n);
    }
  }

  // ---------------------------------------------------------------------------
  // Verbs and restarts

  /** An instance at rest has nothing half done, whatever state it rests in. */
  lemma AtRestIsSettled(s: Setting, r: Record, w: World, d: Doubt)
    requires Holds(s, [Point(r, w)], d) && !r.state.Applying?
    ensures Settled(s, [Point(r, w)], d)
  {
    hide Identified, HonestThrough, OnCourse, AllSnapped, AttemptKnown, Faithful;
    HoldsOne(s, r, w, d);
    SettledOne(s, r, w, d);
  }

  /** Every event the machine admits at rest leads to a state that holds, and to a settled one
      where it sets the instance going again. */
  lemma {:induction false} AtRestMayStep(s: Setting, r: Record, w: World, d: Doubt, ev: Event)
    requires Holds(s, [Point(r, w)], d) && !r.state.Applying?
    requires Transition(CtxOf(s, r), r.state, ev).To?
    ensures var st := Transition(CtxOf(s, r), r.state, ev).state;
            Holds(s, [Point(r.(state := st), w)], d) && Settled(s, [Point(r.(state := st), w)], d)
  {
    var st := Transition(CtxOf(s, r), r.state, ev).state;
    FromRest(s, r, ev);
    HoldsOne(s, r, w, d);
    AtRestIsSettled(s, r, w, d);
    SettledOne(s, r, w, d);
    MovedFromRest(s, r, w, d, st);
  }

  lemma FromRest(s: Setting, r: Record, ev: Event)
    requires !r.state.Applying? && Admits(IntentOf(s), r.state)
    requires Transition(CtxOf(s, r), r.state, ev).To?
    ensures var st := Transition(CtxOf(s, r), r.state, ev).state;
      && Admits(IntentOf(s), st) && !st.Deferred?
      && (BeforeApproval(st) ==> BeforeApproval(r.state))
      && (GoesForward(st) ==> GoesForward(r.state) || BeforeApproval(r.state))
  {
    hide HoldsEarlier, StepAt;
  }

  /** Where a resting record may be moved. */
  predicate MayMoveTo(s: Setting, r: Record, st: State) {
    && !r.state.Applying? && Admits(IntentOf(s), st) && !st.Deferred?
    && (BeforeApproval(st) ==> BeforeApproval(r.state)) && (GoesForward(st) ==> GoesForward(r.state) || BeforeApproval(r.state))
  }

  lemma MovedFromRest(s: Setting, r: Record, w: World, d: Doubt, st: State)
    requires Identified(s) && Inv(s, r, w, d) && (Trusted(s, d) ==> Rested(s, d.through, r, w)) && MayMoveTo(s, r, st)
    ensures Holds(s, [Point(r.(state := st), w)], d) && Settled(s, [Point(r.(state := st), w)], d)
  {
    HoldsOne(s, r.(state := st), w, d);
    SettledOne(s, r.(state := st), w, d);
    MovedOnCourse(s, r, st);
    hide Identified, HonestThrough, OnCourse, Safe, Rested;
    if Trusted(s, d) { MovedSafely(s, d.through, r, w, st); }
  }

  lemma MovedOnCourse(s: Setting, r: Record, st: State)
    requires OnCourse(s, r) && MayMoveTo(s, r, st)
    ensures OnCourse(s, r.(state := st))
  {
    hide Planned, LeafAt;
  }

  lemma MovedSafely(s: Setting, n: nat, r: Record, w: World, st: State)
    requires HonestThrough(s, n) && OnCourse(s, r) && Safe(s, n, r, w) && Rested(s, n, r, w) && MayMoveTo(s, r, st)
    ensures Safe(s, n, r.(state := st), w) && Rested(s, n, r.(state := st), w)
  {
    if st.Applying? && r.attempting.Some? && r.attempting.value !in r.applied {
      assert Next(s, r, r.attempting.value);
      FreshIsClean(s, n, r, w, r.attempting.value);
    }
    hide HonestThrough, Snapped, Faithful, Next, Covers;
  }

  /** A deferred step is the next one. */
  lemma DeferredIsNext(s: Setting, r: Record, w: World, d: Doubt)
    requires Holds(s, [Point(r, w)], d) && r.state.Deferred?
    ensures r.deferred.Some? && Next(s, r, r.deferred.value)
    ensures LeafAt(s.plan.body, r.deferred.value.step) != Some(Commit)
  {
    hide Identified, HonestThrough, Safe;
    HoldsOne(s, r, w, d);
  }

  /** A step done by hand joins the applied, if its undo would lose nothing. */
  lemma HandoffMayBeMarked(s: Setting, r: Record, w: World, d: Doubt, a: AppliedStep)
    requires Holds(s, [Point(r, w)], d) && Settled(s, [Point(r, w)], d) && r.state.Applying?
    requires Next(s, r, a) && LeafAt(s.plan.body, a.step) != Some(Commit)
    requires Trusted(s, d) ==> Upto(s, d.through, a.step) && Snapped(s, r.snapshots, a.AsKey())
    ensures var r' := r.(deferred := None, applied := r.applied + [a]); Holds(s, [Point(r', w)], d) && Settled(s, [Point(r', w)], d)
  {
    var r' := r.(deferred := None, applied := r.applied + [a]);
    HoldsOne(s, r, w, d);
    SettledOne(s, r, w, d);
    HoldsOne(s, r', w, d);
    SettledOne(s, r', w, d);
    HandoffOnCourse(s, r, a);
    hide Identified, HonestThrough, OnCourse, Safe, Rested, Snapped;
    if Trusted(s, d) { HandoffSafely(s, d.through, r, w, a); }
  }

  lemma HandoffOnCourse(s: Setting, r: Record, a: AppliedStep)
    requires OnCourse(s, r) && r.state.Applying? && Next(s, r, a) && LeafAt(s.plan.body, a.step) != Some(Commit)
    ensures OnCourse(s, r.(deferred := None, applied := r.applied + [a]))
  {
    if r.attempting.Some? && r.attempting.value !in r.applied {
      SameNext(s, r, r.attempting.value, a);
      assert (r.applied + [a])[|r.applied|] == a;
    }
    hide Planned, LeafAt;
  }

  lemma HandoffSafely(s: Setting, n: nat, r: Record, w: World, a: AppliedStep)
    requires OnCourse(s, r) && Safe(s, n, r, w) && Rested(s, n, r, w) && r.state.Applying? && Next(s, r, a)
    requires Upto(s, n, a.step) && Snapped(s, r.snapshots, a.AsKey())
    ensures var r' := r.(deferred := None, applied := r.applied + [a]); Safe(s, n, r', w) && Rested(s, n, r', w)
  {
    if r.attempting.Some? && r.attempting.value !in r.applied {
      SameNext(s, r, r.attempting.value, a);
      assert (r.applied + [a])[|r.applied|] == a;
    }
    hide OnCourse, Snapped, Faithful, Covers, Next;
    MarkedIsRested(s, n, r, w, a);
  }

  lemma SameNext(s: Setting, r: Record, a: AppliedStep, b: AppliedStep)
    requires Next(s, r, a) && Next(s, r, b)
    ensures a == b
  {
    var u := Planned(s, r.choices);
    assert u[|r.applied|] == (r.applied + [a])[|r.applied|] == (r.applied + [b])[|r.applied|];
  }

  /** What a boot needs of the state a crash left: the step in flight was applied already, or
      its undo would put back what the request found; and it is not one whose markers are
      written, whose facts read as before, and which an earlier step's hold keeps from the
      revert. */
  predicate Recoverable(s: Setting, r: Record, w: World) {
    InFlight(r) && r.attempting.value !in r.applied ==>
      var key := r.attempting.value.AsKey();
      && Snapped(s, r.snapshots, key)
      && (key in r.markers && HoldsEarlier(s, r.applied) ==> !ReadsAsBefore(s, w, HostAt(s, key), r.attemptingPre))
  }

  /** Boot counts the step in flight as applied. */
  lemma InterruptedMayBeMarked(s: Setting, r: Record, w: World, d: Doubt)
    requires Holds(s, [Point(r, w)], d) && InFlight(r) && r.attempting.value !in r.applied
    requires Trusted(s, d) ==> Snapped(s, r.snapshots, r.attempting.value.AsKey())
    ensures var r' := r.(applied := r.applied + [r.attempting.value], attempting := None, attemptingPre := map[]);
            Holds(s, [Point(r', w)], d) && Settled(s, [Point(r', w)], d)
  {
    var a := r.attempting.value;
    var r' := r.(applied := r.applied + [a], attempting := None, attemptingPre := map[]);
    HoldsOne(s, r, w, d);
    HoldsOne(s, r', w, d);
    SettledOne(s, r', w, d);
    assert OnCourse(s, r') by { hide Safe, Identified, HonestThrough; }
    if Trusted(s, d) {
      assert Safe(s, d.through, r, w);
      hide Identified, HonestThrough, OnCourse, Snapped, Faithful, Covers, PreRight;
      MarkedIsRested(s, d.through, r, w, a);
    }
    hide Identified, HonestThrough, OnCourse, Snapped, Faithful, Covers, PreRight;
  }

  /** Boot lets go of a step that was applied already. */
  lemma AppliedMayBeDropped(s: Setting, r: Record, w: World, d: Doubt)
    requires Holds(s, [Point(r, w)], d) && r.state.Applying?
    requires r.attempting.Some? ==> r.attempting.value in r.applied
    ensures var r' := r.(attempting := None, attemptingPre := map[]);
            Holds(s, [Point(r', w)], d) && Settled(s, [Point(r', w)], d)
  {
    var r' := r.(attempting := None, attemptingPre := map[]);
    HoldsOne(s, r, w, d);
    HoldsOne(s, r', w, d);
    SettledOne(s, r', w, d);
    if r.attempting.Some? {
      var i :| 0 <= i < |r.applied| && r.applied[i] == r.attempting.value;
    }
    hide Identified, HonestThrough, Snapped, Faithful, Covers, PreRight, Next;
  }

  /** Boot lets go of a step whose `do` never took, on the way to Held or Reverting. */
  lemma UntakenMayBeDropped(s: Setting, r: Record, w: World, d: Doubt, st: State)
    requires Holds(s, [Point(r, w)], d) && InFlight(r) && (st.Held? || st.Reverting?)
    requires Trusted(s, d) ==> Clean(s, w, r.attempting.value.AsKey())
    requires Trusted(s, d) && st.Held? ==> r.attempting.value.AsKey() !in r.markers
    ensures Holds(s, [Point(r.(attempting := None, attemptingPre := map[], state := st), w)], d)
  {
    hide Identified, HonestThrough, Snapped, Faithful, Covers, PreRight, Next;
    var r' := r.(attempting := None, attemptingPre := map[], state := st);
    HoldsOne(s, r, w, d);
    HoldsOne(s, r', w, d);
  }

  function LastOf(applied: seq<AppliedStep>): nat {
    if applied == [] then 0 else applied[|applied| - 1].step
  }

  /** What a boot takes as applied: the step in flight too, unless it was applied already, or
      every fact read before its `do` reads as it did then. */
  predicate Demotes(s: Setting, r: Record, w: World, demoted: seq<AppliedStep>) {
    if r.attempting.None? || r.attempting.value in r.applied then demoted == r.applied
    else
      || demoted == r.applied + [r.attempting.value]
      || (demoted == r.applied && r.attemptingPre != map[] && ReadsAsBefore(s, w, HostAt(s, r.attempting.value.AsKey()), r.attemptingPre))
  }

  predicate BoundReached(now: Seconds, w: Option<WaitAt>) { w.Some? && w.value.bound.Some? && IsExpired(now, w.value.bound.value) }

  predicate Guarded(w: Option<WaitAt>) { w.Some? && w.value.guarded }

  predicate OfAVerb(ev: Event) {
    ev.Resume? || ev.HandoffDone? || ev.Recant? || ev.ForceDrift? || ev.ConfirmEvent? || ev.CommitVerb? || ev.Cancel? || ev.Abandon?
    || ev.WaitSatisfied? || ev.BoundLapses?
  }

  lemma NoVerbMovesApplying(ctx: Ctx, ev: Event)
    requires OfAVerb(ev)
    ensures !Transition(ctx, State.Applying, ev).To?
  {
  }

  lemma AppliedAllOnce(s: Setting, r: Record)
    requires Identified(s) && OnCourse(s, r)
    ensures NoDuplicates(r.applied)
  {
    hide Identified, OnCourse;
    forall j, k | 0 <= j < k < |r.applied| ensures r.applied[j] != r.applied[k] {
      if r.applied[j] == r.applied[k] { AppliedOnce(s, r, j, k); }
    }
  }

  /** Whatever the machine says of a verb's event, or of any event at rest, holds; and where it
      moves, the instance was at rest and is settled. */
  lemma AnyStepAtRest(s: Setting, r: Record, w: World, d: Doubt, ev: Event)
    requires Holds(s, [Point(r, w)], d) && (r.state.Applying? ==> OfAVerb(ev))
    ensures var o := Transition(CtxOf(s, r), r.state, ev);
      var r' := if o.To? then r.(state := o.state) else r;
      Holds(s, [Point(r', w)], d) && (o.To? ==> !r.state.Applying? && Settled(s, [Point(r', w)], d))
  {
    hide Holds, Settled, Transition, CtxOf, OfAVerb;
    if r.state.Applying? {
      NoVerbMovesApplying(CtxOf(s, r), ev);
    } else if Transition(CtxOf(s, r), r.state, ev).To? {
      AtRestMayStep(s, r, w, d, ev);
    }
  }

  /** What the invariant says of a state to someone who knows the plan. */
  ghost predicate Stands(s: Setting, through: nat, p: Point, d: Doubt) {
    && p.rec.applied <= Planned(s, p.rec.choices) && NoDuplicates(p.rec.applied)
    && Admits(IntentOf(s), p.rec.state)
    && (p.rec.state.Closed? && p.rec.applied == [] && HonestThrough(s, through) && d.Certain? ==> Restored(s, through, p.world))
  }

  /** Every reserved fact is as the request found it, but those a step writes and does not observe. */
  ghost predicate Restored(s: Setting, n: nat, w: World) {
    forall f :: f in s.umbra && !Loose(s, n, f) ==> Value(w, f) == Init(s, f)
  }

  lemma HoldsStands(s: Setting, through: nat, p: Point, d: Doubt)
    requires Identified(s) && Inv(s, p.rec, p.world, d) && (d.Certain? ==> d.through == through)
    ensures Stands(s, through, p, d)
  {
    hide Identified, HonestThrough, Safe, Loose;
    AppliedAllOnce(s, p.rec);
    if p.rec.state.Closed? && p.rec.applied == [] && HonestThrough(s, through) && d.Certain? {
      NothingAppliedMeansRestored(s, through, p.rec, p.world);
    }
  }

  lemma {:induction false} ProtectedEverywhere(s: Setting, acts: seq<Act>, i: nat)
    requires AllProtected(s, acts) && i < |acts|
    ensures Protected(s, acts[i])
  {
    hide Protected;
    if i < |acts| - 1 { ProtectedEverywhere(s, acts[..|acts| - 1], i); }
  }

  lemma BlankHolds(s: Setting, blank: Record, through: nat)
    requires Identified(s) && blank.state.Pending? && blank.applied == [] && blank.attempting.None?
    requires blank.markers == map[] && blank.snapshots == map[]
    ensures Holds(s, [Point(blank, s.initial)], Certain(through))
  {
    hide Identified, HonestThrough;
    HoldsOne(s, blank, s.initial, Certain(through));
  }

  lemma AttemptIsKnown(s: Setting, r: Record, w: World, d: Doubt)
    requires Holds(s, [Point(r, w)], d) && InFlight(r) && r.attempting.value !in r.applied
    ensures Trusted(s, d) && r.attemptingPre != map[] ==>
      PreRight(s, r.attemptingPre, r.attempting.value.AsKey()) || Clean(s, w, r.attempting.value.AsKey())
  {
    hide Identified, HonestThrough, OnCourse, PreRight, Clean;
    HoldsOne(s, r, w, d);
  }

  lemma NotCommitted(s: Setting, r: Record, w: World, d: Doubt)
    requires Holds(s, [Point(r, w)], d)
    ensures Admits(IntentOf(s), r.state)
  {
    hide Identified, HonestThrough, Safe;
    HoldsOne(s, r, w, d);
  }

  lemma FromPending(s: Setting, r: Record)
    requires r.state.Pending?
    ensures Transition(CtxOf(s, r), r.state, Event.Approve) == To(State.Applying)
    ensures Transition(CtxOf(s, r), r.state, HostContractChanged) == To(Closed)
  {
  }

  lemma FromPendingOrLapsed(s: Setting, r: Record)
    ensures r.state.Pending? ==> Transition(CtxOf(s, r), r.state, ApprovalWindowLapses) == To(ApprovalExpired)
    ensures r.state.Pending? || r.state.ApprovalExpired? ==> Transition(CtxOf(s, r), r.state, Cancel) == To(Closed)
  {
  }

  lemma FromHeld(s: Setting, r: Record)
    ensures var o := Transition(CtxOf(s, r), r.state, Event.Resume);
      if r.state.Held? then o == To(State.Applying) else !o.To? && !o.Stay?
  {
  }

  lemma FromDeferred(s: Setting, r: Record)
    ensures var o := Transition(CtxOf(s, r), r.state, Event.HandoffDone);
      if r.state.Deferred? then o == To(State.Applying) else !o.To? && !o.Stay?
  {
  }

  lemma FromWaiting(s: Setting, r: Record)
    ensures r.state.Waiting? ==> Transition(CtxOf(s, r), r.state, WaitSatisfied) == To(State.Applying)
    ensures r.state.Waiting? ==> Transition(CtxOf(s, r), r.state, BoundLapses) in {To(Held), To(Reverting)}
    ensures !r.state.Waiting? ==> var ctx := CtxOf(s, r);
      !Transition(ctx, r.state, WaitSatisfied).To? && !Transition(ctx, r.state, WaitSatisfied).Stay?
      && !Transition(ctx, r.state, BoundLapses).To? && !Transition(ctx, r.state, BoundLapses).Stay?
  {
  }

  lemma FromStuck(s: Setting, r: Record)
    requires r.state.Stuck?
    ensures Transition(CtxOf(s, r), r.state, Retry) == To(Reverting)
  {
  }

  lemma FromRecant(s: Setting, r: Record)
    ensures var o := Transition(CtxOf(s, r), r.state, Event.Recant); !o.Stay? && (o.To? ==> o == To(Reverting))
    ensures r.state.DriftHeld? ==> Transition(CtxOf(s, r), r.state, ForceDrift) == To(Reverting)
    ensures r.state.DriftHeld? ==> Transition(CtxOf(s, r), r.state, Event.Recant).RefuseWith?
  {
  }

  lemma FromConfirm(s: Setting, r: Record)
    ensures !Transition(CtxOf(s, r), r.state, ConfirmEvent).To?
    ensures Transition(CtxOf(s, r), r.state, ConfirmEvent).Stay? ==> s.permanent
  {
  }

  lemma FromFinish(s: Setting, r: Record, w: World, d: Doubt, ev: Event)
    requires Holds(s, [Point(r, w)], d) && (ev.CommitVerb? || ev.Cancel? || ev.Abandon?)
    ensures var o := Transition(CtxOf(s, r), r.state, ev);
      && !o.Stay? && (o.To? ==> Terminal(o.state))
      && (o.To? && ev.Cancel? ==> o.state.Closed? && r.applied == [])
      && (o.To? && ev.CommitVerb? ==> o.state.Committed? && s.permanent)
  {
    hide Identified, HonestThrough, Safe, HoldsEarlier;
    HoldsOne(s, r, w, d);
  }

  /** Wane moves every bounded state of a temporary plan, and nothing else. */
  lemma FromWane(s: Setting, r: Record)
    requires !Terminal(r.state) && !BeforeApproval(r.state)
    ensures Transition(CtxOf(s, r), r.state, WaneElapses) ==
      if s.permanent then NotApplicable
      else if r.state.DriftHeld? || r.state.Stuck? || r.state.Expired? then Stay
      else To(Expired)
  {
  }

  /** The last applied step may be undone. */
  lemma UndoIsAllowed(s: Setting, r: Record, w: World, d: Doubt)
    requires Holds(s, [Point(r, w)], d) && |r.applied| > 0
    ensures Trusted(s, d) ==>
      var key := r.applied[|r.applied| - 1].AsKey();
      HonestApp(s, key) && Snapped(s, r.snapshots, key) && Faithful(s, r.snapshots)
  {
    HoldsOne(s, r, w, d);
    if Trusted(s, d) {
      hide Identified, HonestThrough, Snapped;
      PlannedIsHonest(s, d.through, r, r.applied[|r.applied| - 1]);
    }
  }

  /** Popping the last applied application once its facts are clean. */
  lemma PopKeeps(s: Setting, r: Record, w: World, d: Doubt, markers: map<Key, seq<Marker>>)
    requires Holds(s, [Point(r, w)], d) && (r.state.Reverting? || r.state.Expired?) && |r.applied| > 0
    requires var a := r.applied[|r.applied| - 1]; OpAt(s.plan.body, a.step).Some? && Trusted(s, d) ==> Clean(s, w, a.AsKey())
    ensures Holds(s, [Point(r.(applied := r.applied[..|r.applied| - 1], markers := markers), w)], d)
  {
    hide Identified, HonestThrough;
    var rest := r.applied[..|r.applied| - 1];
    var r' := r.(applied := rest, markers := markers);
    HoldsOne(s, r, w, d);
    HoldsOne(s, r', w, d);
    assert rest <= r.applied;
    if Trusted(s, d) {
      assert Clean(s, w, r.applied[|r.applied| - 1].AsKey());
      PoppedIsSafe(s, d.through, r, w, markers);
    }
    assert OnCourse(s, r') by { hide Safe; }
  }

  /** Giving up an attempt whose facts are clean again. */
  lemma DroppedIsRested(s: Setting, n: nat, r: Record, w: World, w': World)
    requires Safe(s, n, r, w) && InFlight(r) && Toward(s, w, w')
    requires Clean(s, w', r.attempting.value.AsKey())
    requires forall key :: key in r.markers ==> HasKey(r.applied, key)
    ensures var r' := r.(attempting := None, attemptingPre := map[]); Safe(s, n, r', w') && Rested(s, n, r', w')
  {
  }

  /** A restore body's primitives put facts at their initial values, one for each the step observes. */
  lemma RestoreBodyPutsInitial(s: Setting, snaps: Snapshots, key: Key, prims: seq<Prim>)
    requires HonestApp(s, key) && Snapped(s, snaps, key) && Faithful(s, snaps)
    requires RestorePrims(key, Entries(s, key), |Entries(s, key)|, snaps) == Some(prims)
    ensures forall i :: 0 <= i < |prims| ==> PutsInitial(s, HostAt(s, key), prims[i])
    ensures forall f :: Covers(s, key, f) ==> exists i :: 0 <= i < |prims| && SetsFact(prims[i]) && Fact(HostAt(s, key), prims[i].shape) == f
  {
    hide HonestApp, Snapped, Faithful, RestorePrims;
    var es := Entries(s, key);
    var from := RestorePrimsFromEntries(key, es, |es|, snaps);
    forall i | 0 <= i < |prims|
      ensures PutsInitial(s, HostAt(s, key), prims[i])
    {
      var k := from[i];
      UndoPutsBack(s, snaps, key, k);
    }
    forall f | Covers(s, key, f)
      ensures exists i :: 0 <= i < |prims| && SetsFact(prims[i]) && Fact(HostAt(s, key), prims[i].shape) == f
    {
      var k :| 0 <= k < |es| && Observed(es[k]) && FactAt(s, key, k) == f;
      UndoPutsBack(s, snaps, key, k);
      assert !UndoOfEntry(key, k, es[k], snaps).Impossible?;
      var i :| 0 <= i < |from| && from[i] == k;
      assert SetsFact(prims[i]) && prims[i].shape == es[k].shape;
    }
  }

  /** Facts that digest as their initial values either have them, or show a collision. */
  predicate ReadsAsBefore(s: Setting, w: World, host: Host, pre: map<string, Digest>) {
    forall shape :: shape in pre ==> DigestOf(s.sha, Value(w, Fact(host, shape))) == pre[shape]
  }

  function StepsBackwards(applied: seq<AppliedStep>): seq<nat> {
    if applied == [] then []
    else
      var rest := StepsBackwards(applied[..|applied| - 1]);
      var n := applied[|applied| - 1].step;
      if rest != [] && rest[0] == n then rest else [n] + rest
  }

  lemma NoRegions(s: Setting, key: Key)
    requires HonestApp(s, key)
    ensures NoRegion(Entries(s, key))
  {
  }

  /** A dirty fact that digests as its initial value is one side of a collision. */
  lemma ReadsAlikeCollides(s: Setting, p: Point, key: Key, host: Host, pre: map<string, Digest>, f: Fact)
    requires host == HostAt(s, key) && PreRight(s, pre, key) && ReadsAsBefore(s, p.world, host, pre)
    requires Covers(s, key, f) && Dirty(s, p.world, f)
    ensures CollidedAt(s, p, f)
  {
    var k :| 0 <= k < |Entries(s, key)| && Observed(Entries(s, key)[k]) && FactAt(s, key, k) == f;
    assert DigestOf(s.sha, Value(p.world, f)) == pre[Entries(s, key)[k].shape] == DigestOf(s.sha, Init(s, f));
  }

  predicate SetsFact(p: Prim) { p.Remove? || p.Write? }

  /** A primitive that puts a fact at its initial value, or touches none. */
  ghost predicate PutsInitial(s: Setting, host: Host, p: Prim) {
    match p
    case Remove(shape) => Init(s, Fact(host, shape)).None?
    case Write(shape, content) => Init(s, Fact(host, shape)) == Some(content)
    case RegionClear(_, _) => false
    case Release(_) => true
  }
}
