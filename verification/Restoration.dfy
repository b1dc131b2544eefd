/** Exactly when a `:restore` undo is a restoration: engine/src/lifecycle.rs, `snapshot` and
    `restore_body`. A crash between the two writes of the write-ahead leaves the case it is not. */
module Restoration {
  import opened Wrappers
  import opened Model
  import opened Algebra
  import opened Footprint
  import opened Unrolling
  import States
  import opened Safety
  import opened Drifting
  import opened Course
  import opened Invariant

  /** No two entries of a footprint name one shape. */
  predicate DistinctShapes(es: seq<FootprintEntry>) {
    forall i, j :: 0 <= i < j < |es| ==> es[i].shape != es[j].shape
  }

  /** What an entry's undo leaves its fact at, when it sets it at all. */
  function LeftAt(u: EntryUndo): Option<Option<Bytes>> {
    match u
    case Does(Remove(_)) => Some(None)
    case Does(Write(_, content)) => Some(Some(content))
    case _ => None
  }

  /** Run to its end, a restore body leaves every fact it sets where that entry's undo says. */
  lemma {:induction false} BodyLeaves(w: World, host: Host, key: Key, es: seq<FootprintEntry>, n: nat, snaps: Snapshots, k: nat)
    requires DistinctShapes(es) && k < n <= |es|
    requires RestorePrims(key, es, n, snaps).Some?
    requires LeftAt(UndoOfEntry(key, k, es[k], snaps)).Some?
    ensures Value(AfterBody(w, host, RestorePrims(key, es, n, snaps).value), Fact(host, es[k].shape))
         == LeftAt(UndoOfEntry(key, k, es[k], snaps)).value
  {
    hide AfterBody, Value;
    var before := RestorePrims(key, es, n - 1, snaps).value;
    var last := UndoOfEntry(key, n - 1, es[n - 1], snaps);
    if k < n - 1 {
      BodyLeaves(w, host, key, es, n - 1, snaps, k);
      assert es[k].shape != es[n - 1].shape;
    }
    if last.Does? {
      OnePrim(w, host, before, last.prim, es[k].shape);
    }
  }

  /** One more primitive sets the fact it targets and no other. */
  lemma OnePrim(w: World, host: Host, before: seq<Prim>, p: Prim, shape: string)
    ensures Value(AfterBody(w, host, before + [p]), Fact(host, shape))
         == if Targets(p, shape) then TargetOf(p) else Value(AfterBody(w, host, before), Fact(host, shape))
  {
    var all := before + [p];
    assert all[..|all| - 1] == before;
    hide Value, Put;
  }

  lemma {:induction false} BodyExists(key: Key, es: seq<FootprintEntry>, n: nat, snaps: Snapshots, k: nat)
    requires k < n <= |es| && RestorePrims(key, es, n, snaps).Some?
    ensures !UndoOfEntry(key, k, es[k], snaps).Impossible?
  {
    if k < n - 1 { BodyExists(key, es, n - 1, snaps, k); }
  }

  /** Every fact the step observes is at its initial value. */
  ghost predicate AllBack(s: Setting, key: Key, w: World) {
    forall k :: 0 <= k < |Entries(s, key)| && Observed(Entries(s, key)[k]) ==> Value(w, FactAt(s, key, k)) == Init(s, FactAt(s, key, k))
  }

  /** From any world at all, an honest step's restore body brings back every fact the step
      observes exactly when each existing file it modifies was snapshotted. */
  lemma RestoresExactlyWhenSnapped(s: Setting, snaps: Snapshots, key: Key, w: World)
    requires HonestApp(s, key) && Faithful(s, snaps) && DistinctShapes(Entries(s, key))
    requires RestorePrims(key, Entries(s, key), |Entries(s, key)|, snaps).Some?
    ensures AllBack(s, key, AfterBody(w, HostAt(s, key), RestorePrims(key, Entries(s, key), |Entries(s, key)|, snaps).value))
       <==> Snapped(s, snaps, key)
  {
    hide RestorePrims, Entries, HostAt;
    var es := Entries(s, key);
    var after := AfterBody(w, HostAt(s, key), RestorePrims(key, es, |es|, snaps).value);
    forall k | 0 <= k < |es| && Observed(es[k])
      ensures Value(after, FactAt(s, key, k)) == Init(s, FactAt(s, key, k)) <==> NotLost(s, snaps, key, k)
    {
      assert HonestEntry(s, key, k);
      BodyExists(key, es, |es|, snaps, k);
      BodyLeaves(w, HostAt(s, key), key, es, |es|, snaps, k);
    }
    hide Value, AfterBody, Faithful;
    if Snapped(s, snaps, key) {
      forall k | 0 <= k < |es| && Observed(es[k])
        ensures Value(after, FactAt(s, key, k)) == Init(s, FactAt(s, key, k))
      {
        assert NotLost(s, snaps, key, k);
      }
    }
    if AllBack(s, key, after) {
      forall k | 0 <= k < |es| ensures NotLost(s, snaps, key, k) {
        if Observed(es[k]) { assert Value(after, FactAt(s, key, k)) == Init(s, FactAt(s, key, k)); }
      }
    }
  }

  /** The window: the step is written ahead and not yet snapshotted; it modifies an existing file. */
  ghost predicate InTheWindow(s: Setting, r: Record, a: AppliedStep, k: nat) {
    && InFlight(r) && r.attempting == Some(a) && a !in r.applied && r.attemptingPre == map[] && a.AsKey() !in r.markers
    && k < |Entries(s, a.AsKey())| && Entries(s, a.AsKey())[k].kind.Modified? && IsFile(Entries(s, a.AsKey())[k].shape)
    && Init(s, FactAt(s, a.AsKey(), k)).Some? && SnapshotKey(a.AsKey(), k) !in r.snapshots
  }

  /** The engine dies in the window, before `do`. Boot can only count the step as applied;
      without an earlier hold it reverts, and the step's undo comes first. */
  lemma BootUndoesWhatNeverRan(s: Setting, r: Record, w: World, a: AppliedStep, k: nat)
    requires InTheWindow(s, r, a, k) && OpAt(s.plan.body, a.step).Some?
    ensures forall demoted :: Demotes(s, r, w, demoted) ==> demoted == r.applied + [a]
    ensures !HoldsEarlier(s, r.applied + [a]) ==>
      States.Transition(CtxOf(s, Joined(r, a)), r.state, States.Refuse) == States.To(States.Reverting)
    ensures LastFirst(s, r.applied + [a]) == [a] + LastFirst(s, r.applied)
  {
    hide Entries, HostAt, HoldsEarlier, LastFirst;
    LastFirstStep(s, r.applied, a);
  }

  /** That undo finds no drift to hold it, and removes every existing file the step modifies. */
  lemma CrashBeforeTheSnapshotLosesTheFile(s: Setting, r: Record, w: World, a: AppliedStep, k: nat, policy: Model.Drift)
    requires InTheWindow(s, r, a, k) && DistinctShapes(Entries(s, a.AsKey())) && NoRegion(Entries(s, a.AsKey()))
    requires RestorePrims(a.AsKey(), Entries(s, a.AsKey()), |Entries(s, a.AsKey())|, r.snapshots).Some?
    ensures var es := Entries(s, a.AsKey());
      Judged(s, w, HostAt(s, a.AsKey()), MarkersAt(r.markers, a.AsKey()), policy, r.forceDrift, es, |es|) == Judgement([], [])
    ensures var body := RestorePrims(a.AsKey(), Entries(s, a.AsKey()), |Entries(s, a.AsKey())|, r.snapshots).value;
      Value(AfterBody(w, HostAt(s, a.AsKey()), body), FactAt(s, a.AsKey(), k)).None?
  {
    hide RestorePrims, Entries, HostAt, Judged, AfterBody, Value;
    var es, host := Entries(s, a.AsKey()), HostAt(s, a.AsKey());
    UndriftedIsUndone(s, w, host, MarkersAt(r.markers, a.AsKey()), policy, r.forceDrift, es);
    BodyLeaves(w, host, a.AsKey(), es, |es|, r.snapshots, k);
  }

  /** The window is one the invariant admits, and boot is told nothing of it: the record is safe,
      the world the one the request found, and the state is not recoverable. */
  lemma TheWindowIsReached(s: Setting, n: nat, r: Record, a: AppliedStep, k: nat)
    requires InTheWindow(s, r, a, k) && Upto(s, n, a.step) && Faithful(s, r.snapshots) && AllSnapped(s, n, r)
    requires forall key :: key in r.markers ==> HasKey(r.applied, key)
    ensures Safe(s, n, r, s.initial) && !Recoverable(s, r, s.initial)
  {
    hide Entries, Faithful, AllSnapped;
    assert Clean(s, s.initial, a.AsKey());
    assert !NotLost(s, r.snapshots, a.AsKey(), k);
  }

  /** A snapshot goes through text: a modified fact comes back as its bytes exactly when they
      survive the trip. */
  lemma SnapshotIsExactWhenTextIs(s: Setting, snaps: Snapshots, key: Key, k: nat, w: World, read: Bytes)
    requires DistinctShapes(Entries(s, key)) && k < |Entries(s, key)| && Entries(s, key)[k].kind.Modified?
    requires RestorePrims(key, Entries(s, key), |Entries(s, key)|, snaps).Some?
    requires SnapshotKey(key, k) in snaps && snaps[SnapshotKey(key, k)] == s.lossy(read)
    ensures var after := AfterBody(w, HostAt(s, key), RestorePrims(key, Entries(s, key), |Entries(s, key)|, snaps).value);
            Value(after, FactAt(s, key, k)) == Some(read) <==> s.lossy(read) == read
  {
    hide RestorePrims, Entries, HostAt;
    BodyLeaves(w, HostAt(s, key), key, Entries(s, key), |Entries(s, key)|, snaps, k);
  }

  // ---------------------------------------------------------------------------
  // Where the invariant would be lost

  /** Boot may count the step in flight as applied exactly when it was snapshotted. */
  lemma InFlightMayJoinIff(s: Setting, n: nat, r: Record, w: World)
    requires Safe(s, n, r, w) && InFlight(r) && r.attempting.value !in r.applied
    ensures Safe(s, n, Joined(r, r.attempting.value), w) <==> Snapped(s, r.snapshots, r.attempting.value.AsKey())
  {
    var a := r.attempting.value;
    var joined := Joined(r, a);
    assert joined.applied[|r.applied|] == a;
    if Safe(s, n, joined, w) {
      assert Snapped(s, joined.snapshots, joined.applied[|r.applied|].AsKey());
    }
    hide Snapped, Faithful, Covers, PreRight;
    if Snapped(s, r.snapshots, a.AsKey()) {
      MarkedIsRested(s, n, r, w, a);
    }
  }

  /** A step done by hand may join the applied exactly when its undo would lose nothing. */
  lemma HandoffMayJoinIff(s: Setting, n: nat, r: Record, w: World, a: AppliedStep)
    requires Safe(s, n, r, w) && Rested(s, n, r, w) && r.state.Deferred? && Upto(s, n, a.step) && r.attempting.None?
    ensures Safe(s, n, r.(deferred := None, state := States.Applying, applied := r.applied + [a]), w) <==> Snapped(s, r.snapshots, a.AsKey())
  {
    var joined := r.(deferred := None, state := States.Applying, applied := r.applied + [a]);
    assert joined.applied[|r.applied|] == a;
    if Safe(s, n, joined, w) {
      assert Snapped(s, joined.snapshots, joined.applied[|r.applied|].AsKey());
    }
    hide Snapped, Faithful, Covers, PreRight;
    if Snapped(s, r.snapshots, a.AsKey()) {
      MarkedIsRested(s, n, r, w, a);
    }
  }

  /** A dirty fact of the step in flight is no applied step's: accounted for without it exactly
      when the step is clean. */
  lemma OnlyItsOwn(s: Setting, n: nat, r: Record, w: World)
    requires HonestThrough(s, n) && OnCourse(s, r) && Safe(s, n, r, w) && InFlight(r) && r.attempting.value !in r.applied
    ensures (forall f :: Dirty(s, w, f) ==> Loose(s, n, f) || Claimed(s, r.applied, f)) <==> Clean(s, w, r.attempting.value.AsKey())
    ensures !HasKey(r.applied, r.attempting.value.AsKey())
  {
    var a := r.attempting.value;
    forall i | 0 <= i < |r.applied| ensures ApartAt(s, r.applied[i].AsKey(), a.AsKey()) {
      FactsApart(s, n, r, i, a);
    }
    PlannedIsHonest(s, n, r, a);
    hide HonestThrough, OnCourse, Snapped, Faithful, PreRight, Covers, Loose;
  }

  /** A verb that fails after `do` leaves the instance Applying, with the step in flight. If the
      reap pass then lets it expire, the revert never sees that step, which is safe exactly when
      there is none, it was applied already, or its facts read as the request found them. */
  lemma ExpiringIsSafeIff(s: Setting, n: nat, r: Record, w: World)
    requires HonestThrough(s, n) && OnCourse(s, r) && Safe(s, n, r, w) && r.state.Applying?
    ensures Safe(s, n, r.(state := States.Expired), w)
       <==> r.attempting.None? || r.attempting.value in r.applied || Clean(s, w, r.attempting.value.AsKey())
  {
    if r.attempting.Some? {
      var a := r.attempting.value;
      if a in r.applied {
        var i :| 0 <= i < |r.applied| && r.applied[i] == a;
      } else {
        OnlyItsOwn(s, n, r, w);
      }
    }
    hide HonestThrough, OnCourse, Snapped, Faithful, Covers, PreRight, Dirty;
  }

  /** Boot may let the step in flight go, where an earlier step holds, exactly when its facts read
      as the request found them and it left no marker: a marker left behind would have a later
      attempt at the step judged against it, and its undo held for drift that is its own. Where
      none holds, the marker does not matter. */
  lemma LettingGoIsSafeIff(s: Setting, n: nat, r: Record, w: World)
    requires HonestThrough(s, n) && OnCourse(s, r) && Safe(s, n, r, w) && InFlight(r) && r.attempting.value !in r.applied
    ensures var key := r.attempting.value.AsKey();
      && (Safe(s, n, Dropped(r).(state := States.Held), w) <==> Clean(s, w, key) && key !in r.markers)
      && (Safe(s, n, Dropped(r).(state := States.Reverting), w) <==> Clean(s, w, key))
  {
    OnlyItsOwn(s, n, r, w);
    hide HonestThrough, OnCourse, Snapped, Faithful, Covers, PreRight, Dirty, Claimed, HasKey;
  }

  /** A second walk over a step half done takes its snapshots again. What it keeps of a fact is what
      the request found exactly when the fact, through the text encoding, still reads so. */
  lemma SnapshotAgainIsRightIff(s: Setting, r: Record, w: World, a: AppliedStep, k: nat)
    requires Faithful(s, r.snapshots) && k < |Entries(s, a.AsKey())| && Value(w, FactAt(s, a.AsKey(), k)).Some?
    ensures var again := r.snapshots[SnapshotKey(a.AsKey(), k) := s.lossy(Value(w, FactAt(s, a.AsKey(), k)).value)];
      Faithful(s, again) <==> Init(s, FactAt(s, a.AsKey(), k)) == Some(s.lossy(Value(w, FactAt(s, a.AsKey(), k)).value))
  {
    var sk := SnapshotKey(a.AsKey(), k);
    var again := r.snapshots[sk := s.lossy(Value(w, FactAt(s, a.AsKey(), k)).value)];
    assert sk in again;
    hide Entries, HostAt, Value;
  }

  // ---------------------------------------------------------------------------
  // Two runs that lose a file

  const SHAPE: string := "file:/f"
  const FACT: Fact := Fact("h", SHAPE)

  /** An op that owns a file, or none, and defers to drift. */
  function OwnerOf(es: seq<FootprintEntry>, refusal: Refusal): Op {
    Op("op", es, [], Restore, [], OnController, refusal, Some(Model.Defer), [], Target, None)
  }

  function PlainStep(op: Op): Item { Step(StepI(op, Forward, None, None, LapseReverts)) }

  function OwnedFile(): seq<FootprintEntry> { [FootprintEntry(Owned, SHAPE, None)] }

  /** A temporary plan on host `h`, where the request found no file. */
  function PlanOf(body: seq<Item>): Setting {
    Setting(Plan("h", Some(1), None, false, Manual, body), false, (_, _) => [], (op: Op, _) => Some(op.footprint),
            b => b, b => b, map[], {FACT}, None)
  }

  function RecordOf(st: States.State, applied: seq<AppliedStep>, markers: map<Key, seq<Marker>>, attempting: Option<AppliedStep>, pre: map<string, Digest>): Record {
    Record(st, true, Some(1), None, applied, map[], map[], markers, None, None, None, [], [], false, None, attempting, pre)
  }

  /** One step that creates a file. */
  function OneStep(): Setting { PlanOf([PlainStep(OwnerOf(OwnedFile(), Revert))]) }

  const FIRST: AppliedStep := AppliedStep(1, 0, map[])

  lemma OneStepIsHonest()
    ensures forall ch :: Planned(OneStep(), ch) == [FIRST]
    ensures Entries(OneStep(), FIRST.AsKey()) == OwnedFile() && HostAt(OneStep(), FIRST.AsKey()) == "h"
    ensures HonestThrough(OneStep(), 1) && Covers(OneStep(), FIRST.AsKey(), FACT)
  {
    var s := OneStep();
    var it := s.plan.body[0];
    assert s.plan.body[1..] == [];
    assert Leaves(s.plan.body) == [it];
    assert OpAt(s.plan.body, 1) == Some(OwnerOf(OwnedFile(), Revert));
    forall ch ensures Planned(s, ch) == [FIRST] {
      assert UnrollItem(s.lists, it, 0, 1, map[], ch) == Unrolled([FIRST], true);
    }
    assert FactAt(s, FIRST.AsKey(), 0) == FACT;
    assert HonestEntry(s, FIRST.AsKey(), 0);
  }

  /** A `do` wrote its file and the journal entry after it was refused. The record is safe, the
      step in flight. Wane elapses in the same process: Expired; nothing is applied, so nothing
      is undone; Closed, with the file still there. */
  lemma ExpiringLosesAHalfDoneStep()
    ensures var s := OneStep();
      var w: World := map[FACT := [1]];
      var r := RecordOf(States.Applying, [], map[], Some(FIRST), map[SHAPE := Missing]);
      && HonestThrough(s, 1) && OnCourse(s, r) && Safe(s, 1, r, w)
      && States.Transition(CtxOf(s, r), r.state, States.WaneElapses) == States.To(States.Expired)
      && LastFirst(s, r.applied) == []
      && States.Transition(CtxOf(s, r), States.Expired, States.UndoClean) == States.To(States.Closed)
      && Dirty(s, w, FACT)
  {
    OneStepIsHonest();
    hide Planned, HonestThrough, Leaves;
    var s := OneStep();
    var r := RecordOf(States.Applying, [], map[], Some(FIRST), map[SHAPE := Missing]);
    assert r.applied + [FIRST] == [FIRST];
  }

  const SECOND: AppliedStep := AppliedStep(2, 0, map[])

  /** A step that holds, then one that creates a file. */
  function TwoSteps(): Setting { PlanOf([PlainStep(OwnerOf([], Hold(None))), PlainStep(OwnerOf(OwnedFile(), Revert))]) }

  lemma TwoStepsUnroll()
    ensures forall ch :: Planned(TwoSteps(), ch) == [FIRST, SECOND]
    ensures OpAt(TwoSteps().plan.body, 1) == Some(OwnerOf([], Hold(None)))
    ensures OpAt(TwoSteps().plan.body, 2) == Some(OwnerOf(OwnedFile(), Revert))
    ensures LeafAt(TwoSteps().plan.body, 1) != Some(Commit) && LeafAt(TwoSteps().plan.body, 2) != Some(Commit)
  {
    var s := TwoSteps();
    var one, two := s.plan.body[0], s.plan.body[1];
    assert s.plan.body[1..] == [two] && [two][1..] == [];
    assert Leaves([two]) == [two];
    assert Leaves(s.plan.body) == [one, two];
    forall ch ensures Planned(s, ch) == [FIRST, SECOND] {
      assert UnrollItem(s.lists, one, 0, 1, map[], ch) == Unrolled([FIRST], true);
      assert UnrollItem(s.lists, two, 0, 2, map[], ch) == Unrolled([SECOND], true);
      assert Unroll(s.lists, [two], 0, 2, map[], ch) == Unrolled([SECOND], true);
    }
  }

  lemma TwoStepsAreHonest()
    ensures forall ch :: Planned(TwoSteps(), ch) == [FIRST, SECOND]
    ensures Entries(TwoSteps(), FIRST.AsKey()) == []
    ensures Entries(TwoSteps(), SECOND.AsKey()) == OwnedFile() && HostAt(TwoSteps(), SECOND.AsKey()) == "h"
    ensures HonestThrough(TwoSteps(), 2) && HoldsEarlier(TwoSteps(), [FIRST])
    ensures OpAt(TwoSteps().plan.body, 2) == Some(OwnerOf(OwnedFile(), Revert))
    ensures LeafAt(TwoSteps().plan.body, 1) != Some(Commit) && LeafAt(TwoSteps().plan.body, 2) != Some(Commit)
  {
    TwoStepsUnroll();
    TwoStepsEntries();
    hide Planned, OpAt, LeafAt, Entries, HostAt, TwoSteps;
    var s := TwoSteps();
    assert FactAt(s, SECOND.AsKey(), 0) == FACT;
    assert HonestApp(s, FIRST.AsKey()) && HonestApp(s, SECOND.AsKey());
    forall key | IsPlanned(s, key) ensures forall f :: Touches(s, key, f) ==> Covers(s, key, f) {
      assert key == FIRST.AsKey() || key == SECOND.AsKey();
    }
    hide Touches, HonestApp, IsPlanned;
  }

  lemma TwoStepsEntries()
    ensures Entries(TwoSteps(), FIRST.AsKey()) == []
    ensures Entries(TwoSteps(), SECOND.AsKey()) == OwnedFile() && HostAt(TwoSteps(), SECOND.AsKey()) == "h"
    ensures HoldsEarlier(TwoSteps(), [FIRST]) && TwoSteps().umbra == {FACT} && TwoSteps().initial == map[]
  {
    TwoStepsUnroll();
    hide Planned, OpAt, LeafAt;
    assert [FIRST][..0] == [];
  }

  /** The markers of the file as the request found it. */
  function Leftover(): map<Key, seq<Marker>> { map[SECOND.AsKey() := [Marker(AddressOf(SHAPE), Missing)]] }

  /** Markers were written for a `do` that changed nothing, and the engine died. */
  function Died(): Record { RecordOf(States.Applying, [FIRST], Leftover(), Some(SECOND), map[SHAPE := Missing]) }

  /** After the boot and an operator's resume, the step is tried again. */
  function Again(): Record {
    Dropped(Died()).(state := States.Applying, attempting := Some(SECOND), attemptingPre := map[SHAPE := Missing])
  }

  lemma LeftoverIsWhatDoLeft(none: World)
    requires none == map[]
    ensures MarkersOf(TwoSteps(), none, "h", OwnedFile(), 1) == Leftover()[SECOND.AsKey()]
  {
    assert MarkersOf(TwoSteps(), none, "h", OwnedFile(), 0) == [];
    assert Observed(OwnedFile()[0]) && Value(none, Fact("h", SHAPE)) == None;
    assert [] + [Marker(AddressOf(SHAPE), Missing)] == [Marker(AddressOf(SHAPE), Missing)];
  }

  lemma DiedReadingAsBefore(none: World)
    requires none == map[]
    ensures Demotes(TwoSteps(), Died(), none, [FIRST])
  {
    TwoStepsAreHonest();
    hide Planned, HonestThrough, Leaves, HoldsEarlier, OpAt, LeafAt, Entries;
    assert Died().attempting == Some(SECOND) && SECOND !in [FIRST];
    assert Died().attemptingPre.Keys == {SHAPE};
    assert ReadsAsBefore(TwoSteps(), none, "h", Died().attemptingPre);
  }

  /** The engine dies in a state the invariant admits, and boot reads the facts as before: under
      the earlier hold it drops the step and holds, and the marker stays. */
  lemma BootLeavesTheMarker()
    ensures var s := TwoSteps();
      && HonestThrough(s, 2) && OnCourse(s, Died()) && Safe(s, 2, Died(), map[])
      && Demotes(s, Died(), map[], [FIRST])
      && States.Transition(CtxOf(s, Dropped(Died())), States.Applying, States.Refuse) == States.To(States.Held)
      && States.Transition(CtxOf(s, Dropped(Died()).(state := States.Held)), States.Held, States.Resume) == States.To(States.Applying)
      && SECOND.AsKey() in Dropped(Died()).markers
  {
    TwoStepsAreHonest();
    DiedOnCourse();
    DiedSafely();
    DiedReadingAsBefore(map[]);
    FromApplying(TwoSteps(), Dropped(Died()));
    FromHeld(TwoSteps(), Dropped(Died()).(state := States.Held));
    hide Planned, HonestThrough, Leaves, HoldsEarlier, OpAt, OnCourse, Safe, TwoSteps, Demotes, States.Transition, CtxOf;
  }

  lemma DiedOnCourse()
    ensures OnCourse(TwoSteps(), Died())
  {
    TwoStepsAreHonest();
    hide Planned, HonestThrough, Leaves, HoldsEarlier, OpAt, LeafAt, Entries, HostAt;
    assert Died().applied + [SECOND] == [FIRST, SECOND];
    assert Planned(TwoSteps(), map[]) == [FIRST, SECOND];
  }

  lemma DiedSafely()
    ensures Safe(TwoSteps(), 2, Died(), map[])
  {
    TwoStepsAreHonest();
    hide Planned, HonestThrough, Leaves, HoldsEarlier, OpAt, LeafAt, Entries, HostAt, OnCourse;
    var s, r, key := TwoSteps(), Died(), SECOND.AsKey();
    assert FactAt(s, key, 0) == FACT;
    assert PreRight(s, r.attemptingPre, key);
    assert Snapped(s, r.snapshots, key) && Snapped(s, r.snapshots, FIRST.AsKey());
    assert r.attempting.value == SECOND && r.attempting.value !in r.applied;
  }

  /** Tried again, its `do` writes the file and fails. Its undo is judged against the old marker and
      held back, which counts as undone: the attempt is dropped, and no step answers for the
      file. */
  lemma LeftoverMarkerLosesAFailedStep()
    ensures var s := TwoSteps(); var w: World := map[FACT := [1]]; var es := OwnedFile();
      && !ReadsAsBefore(s, w, "h", Again().attemptingPre)
      && Judged(s, w, "h", MarkersAt(Again().markers, SECOND.AsKey()), PolicyOf(OpAt(s.plan.body, 2).value, es), Again().forceDrift, es, |es|)
         == Judgement([], [SHAPE])
      && Dirty(s, w, FACT) && !Claimed(s, Dropped(Again()).applied, FACT)
  {
    TwoStepsAreHonest();
    hide Planned, HonestThrough, Leaves, HoldsEarlier, OpAt, Entries;
    var s := TwoSteps();
    var es := OwnedFile();
    var ms := [Marker(AddressOf(SHAPE), Missing)];
    assert FindMarker(ms, AddressOf(SHAPE)) == Some(Missing);
    var w: World := map[FACT := [1]];
    assert Drifted(s, w, "h", ms, SHAPE);
    assert Judged(s, w, "h", ms, Model.Defer, false, es, 0) == Judgement([], []);
  }

  // ---------------------------------------------------------------------------
  // A run that takes nothing back

  function AppendedFile(): seq<FootprintEntry> { [FootprintEntry(AppendOnly, SHAPE, None)] }

  /** One step that appends to a file. */
  function AppendStep(): Setting { PlanOf([PlainStep(OwnerOf(AppendedFile(), Revert))]) }

  lemma AppendStepIsHonest()
    ensures forall ch :: Planned(AppendStep(), ch) == [FIRST]
    ensures OpAt(AppendStep().plan.body, 1) == Some(OwnerOf(AppendedFile(), Revert)) && LeafAt(AppendStep().plan.body, 1) != Some(Commit)
    ensures Entries(AppendStep(), FIRST.AsKey()) == AppendedFile() && HostAt(AppendStep(), FIRST.AsKey()) == "h"
    ensures forall f :: !Covers(AppendStep(), FIRST.AsKey(), f)
    ensures HonestThrough(AppendStep(), 1) && Touches(AppendStep(), FIRST.AsKey(), FACT) && Loose(AppendStep(), 1, FACT)
  {
    var s := AppendStep();
    var it := s.plan.body[0];
    assert s.plan.body[1..] == [];
    assert Leaves(s.plan.body) == [it];
    assert OpAt(s.plan.body, 1) == Some(OwnerOf(AppendedFile(), Revert));
    forall ch: Choices ensures Planned(s, ch) == [FIRST] {
      assert UnrollItem(s.lists, it, 0, 1, map[], ch) == Unrolled([FIRST], true);
    }
    assert FactAt(s, FIRST.AsKey(), 0) == FACT && Writable(AppendedFile()[0]);
    assert Planned(s, map[])[0].AsKey() == FIRST.AsKey();
    assert IsPlanned(s, FIRST.AsKey());
  }

  /** The step ran and is applied, the file appended to. */
  function Appended(): Record { RecordOf(States.Applying, [FIRST], map[FIRST.AsKey() := []], None, map[]) }

  /** A step of honest declarations appended to a reserved fact. Its undo runs no primitive, meets
      no drift and succeeds: it is popped, the instance closed, and the fact is not as found. */
  lemma AppendIsNotTakenBack(policy: Model.Drift, force: bool)
    ensures var s := AppendStep(); var w: World := map[FACT := [1]]; var key := FIRST.AsKey(); var es := AppendedFile();
      && HonestThrough(s, 1) && OnCourse(s, Appended()) && Safe(s, 1, Appended(), w) && Rested(s, 1, Appended(), w)
      && Within(s, key, s.initial, w) && LastFirst(s, Appended().applied) == [FIRST]
      && RestorePrims(key, es, |es|, map[]) == Some([]) && AfterBody(w, "h", []) == w
      && Judged(s, w, "h", MarkersAt(Appended().markers, key), policy, force, es, |es|) == Judgement([], [])
      && Safe(s, 1, Appended().(state := States.Closed, applied := [], markers := map[]), w)
      && Dirty(s, w, FACT)
  {
    AppendStepIsHonest();
    AppendedSafely();
    hide HonestThrough, OnCourse, Safe, Rested, Leaves, OpAt, Entries, HostAt, Covers, Touches, Loose, Planned;
    var s, key, es := AppendStep(), FIRST.AsKey(), AppendedFile();
    assert OpAt(s.plan.body, FIRST.step).Some? && [FIRST][..0] == [];
    assert LastFirst(s, []) == [];
    assert RestorePrims(key, es, 0, map[]) == Some([]);
    assert Judged(s, map[FACT := [1]], "h", [], policy, force, es, 0) == Judgement([], []);
  }

  lemma AppendedSafely()
    ensures var s := AppendStep(); var w: World := map[FACT := [1]];
      && OnCourse(s, Appended()) && Safe(s, 1, Appended(), w) && Rested(s, 1, Appended(), w)
      && Safe(s, 1, Appended().(state := States.Closed, applied := [], markers := map[]), w)
  {
    AppendStepIsHonest();
    hide HonestThrough, Leaves, OpAt, LeafAt, Entries, HostAt, Covers, Touches, Loose, Planned;
    var s := AppendStep();
    assert Planned(s, map[]) == [FIRST] && Appended().applied == [FIRST];
    assert Appended().applied[0].AsKey() == FIRST.AsKey();
  }
}
