/** The persisted record, and what every persisted record and world owe each other. */
module Safety {
  import opened Wrappers
  import opened Model
  import opened Algebra
  import opened Intent
  import opened States
  import opened Footprint
  import opened Unrolling

  // ---------------------------------------------------------------------------
  // The record

  datatype Marker = Marker(address: string, digest: Digest)

  datatype BackstopState = BackstopState(installed: bool, armed: bool, deadline: Option<Seconds>, confirmed: bool, fired: bool)

  datatype WaitAt = WaitAt(step: nat, bound: Option<Seconds>, guarded: bool)

  /** `InstanceRecord`: what the store keeps of one instance, as far as the walk, the undo and
      the reap pass read it. */
  datatype Record = Record(
    state: State,
    approved: bool,
    deadline: Option<Seconds>,
    approvalDeadline: Option<Seconds>,
    applied: seq<AppliedStep>,
    choices: Choices,
    snapshots: Snapshots,
    markers: map<Key, seq<Marker>>,
    waiting: Option<WaitAt>,
    heldAt: Option<nat>,
    deferred: Option<AppliedStep>,
    stuck: seq<nat>,
    driftHeld: seq<nat>,
    forceDrift: bool,
    backstop: Option<BackstopState>,
    attempting: Option<AppliedStep>,
    attemptingPre: map<string, Digest>)

  /** What does not change over an instance's life: its plan, the readings its lists and shapes
      resolve to, the functions the engine calls, the world as the request found it, the
      facts the ledger reserved for it, and the site's longest wait. */
  datatype Setting = Setting(
    plan: Plan,
    permanent: bool,
    lists: Lists,
    concrete: (Op, Vars) -> Option<seq<FootprintEntry>>,
    sha: Bytes -> Hash,
    lossy: Bytes -> Bytes,
    initial: World,
    umbra: set<Fact>,
    maxWait: Option<Seconds>)

  function IntentOf(s: Setting): Intent { if s.permanent then Permanent else Temporary }

  /** The plan's applications under the arms chosen so far. */
  function Planned(s: Setting, ch: Choices): seq<AppliedStep> {
    Unroll(s.lists, s.plan.body, 0, 1, map[], ch).apps
  }

  // ---------------------------------------------------------------------------
  // Facts of an application

  /** The host a step's locus names, when it is not bound at runtime. */
  function StepHost(owner: Host, op: Op): Option<Host> {
    match op.locus
    case Controller => Some("controller")
    case Target => Some(owner)
    case AtHost(Static(h)) => Some(h)
    case AtHost(Bound(_)) => None
  }

  function EntriesOf(s: Setting, op: Op, vars: Vars): seq<FootprintEntry> {
    if StepHost(s.plan.owner, op).None? then []
    else
      match s.concrete(op, vars)
      case Some(es) => es
      case None => []
  }

  /** The concrete footprint of an application; empty for a leaf that is not a step. */
  function Entries(s: Setting, key: Key): seq<FootprintEntry> {
    match OpAt(s.plan.body, key.step)
    case Some(op) => EntriesOf(s, op, key.vars)
    case None => []
  }

  function HostAt(s: Setting, key: Key): Host {
    match OpAt(s.plan.body, key.step)
    case Some(op) => (match StepHost(s.plan.owner, op) case Some(h) => h case None => "")
    case None => ""
  }

  function FactAt(s: Setting, key: Key, k: nat): Fact
    requires k < |Entries(s, key)|
  {
    Fact(HostAt(s, key), Entries(s, key)[k].shape)
  }

  /** The application observes, and so answers for, a fact. */
  ghost predicate Covers(s: Setting, key: Key, f: Fact) {
    exists k :: 0 <= k < |Entries(s, key)| && Observed(Entries(s, key)[k]) && FactAt(s, key, k) == f
  }

  /** The application's `do` may write a fact, observed or not. */
  ghost predicate Touches(s: Setting, key: Key, f: Fact) {
    exists k :: 0 <= k < |Entries(s, key)| && Writable(Entries(s, key)[k]) && FactAt(s, key, k) == f
  }

  function Init(s: Setting, f: Fact): Option<Bytes> { Value(s.initial, f) }

  /** A reserved fact that is not at its initial value. */
  ghost predicate Dirty(s: Setting, w: World, f: Fact) {
    f in s.umbra && Value(w, f) != Init(s, f)
  }

  ghost predicate Claimed(s: Setting, applied: seq<AppliedStep>, f: Fact) {
    exists i :: 0 <= i < |applied| && Covers(s, applied[i].AsKey(), f)
  }

  ghost predicate Clean(s: Setting, w: World, key: Key) {
    forall f :: Covers(s, key, f) ==> !Dirty(s, w, f)
  }

  /** Every existing file a step modifies has the snapshot its undo writes back. */
  predicate Snapped(s: Setting, snaps: Snapshots, key: Key) {
    forall k :: 0 <= k < |Entries(s, key)| ==> NotLost(s, snaps, key, k)
  }

  predicate NotLost(s: Setting, snaps: Snapshots, key: Key, k: nat)
    requires k < |Entries(s, key)|
  {
    var e := Entries(s, key)[k];
    e.kind.Modified? && IsFile(e.shape) && Init(s, FactAt(s, key, k)).Some? ==> SnapshotKey(key, k) in snaps
  }

  /** Every snapshot holds the value the request found. */
  ghost predicate Faithful(s: Setting, snaps: Snapshots) {
    forall sk :: sk in snaps ==>
      sk.entry < |Entries(s, sk.key)| && Init(s, FactAt(s, sk.key, sk.entry)) == Some(snaps[sk])
  }

  /** What was read before `do` was the initial value of every fact the step observes. */
  ghost predicate PreRight(s: Setting, pre: map<string, Digest>, key: Key) {
    forall k :: 0 <= k < |Entries(s, key)| && Observed(Entries(s, key)[k]) ==>
      Entries(s, key)[k].shape in pre
      && pre[Entries(s, key)[k].shape] == DigestOf(s.sha, Init(s, FactAt(s, key, k)))
  }

  // ---------------------------------------------------------------------------
  // Honest declarations

  /** What the declarations of one application must be for its undo to be a restoration: its
      undo is `:restore`, it has no region, its observed facts are reserved, what it owns was
      absent, and what it modifies survives the snapshot's text encoding. */
  ghost predicate HonestApp(s: Setting, key: Key) {
    && (OpAt(s.plan.body, key.step).Some? ==> OpAt(s.plan.body, key.step).value.undo.Restore?)
    && forall k :: 0 <= k < |Entries(s, key)| ==>
         !Entries(s, key)[k].kind.Region? && (Observed(Entries(s, key)[k]) ==> HonestEntry(s, key, k))
  }

  ghost predicate HonestEntry(s: Setting, key: Key, k: nat)
    requires k < |Entries(s, key)|
  {
    var e := Entries(s, key)[k];
    var f := FactAt(s, key, k);
    && f in s.umbra
    && (e.kind.Owned? ==> Init(s, f).None?)
    && (e.kind.Modified? && Init(s, f).Some? ==> s.lossy(Init(s, f).value) == Init(s, f).value)
  }

  /** Two applications share neither a key nor a fact. */
  ghost predicate ApartAt(s: Setting, a: Key, b: Key) {
    a != b && forall f :: !(Covers(s, a, f) && Covers(s, b, f))
  }

  /** A leaf numbered at most `n`, or one that changes nothing. */
  predicate Upto(s: Setting, n: nat, step: nat) { step <= n || OpAt(s.plan.body, step).None? }

  /** An application of some unrolling. */
  ghost predicate IsPlanned(s: Setting, key: Key) {
    exists ch: Choices, i :: 0 <= i < |Planned(s, ch)| && Planned(s, ch)[i].AsKey() == key
  }

  /** A fact a step numbered at most `n` writes and does not observe: no undo puts it back. */
  ghost predicate Loose(s: Setting, n: nat, f: Fact) {
    exists key: Key :: IsPlanned(s, key) && Upto(s, n, key.step) && Touches(s, key, f) && !Covers(s, key, f)
  }

  /** None of the facts an application observes is one that another step writes and no undo puts back. */
  ghost predicate Fast(s: Setting, n: nat, key: Key) {
    forall f :: Covers(s, key, f) ==> !Loose(s, n, f)
  }

  predicate BothUpto(s: Setting, n: nat, a: AppliedStep, b: AppliedStep) { Upto(s, n, a.step) && Upto(s, n, b.step) }

  /** The steps numbered at most `n` are declared honestly, no two applications of them in one run
      share a key or an observed fact, and none of them writes another's observed fact as one it
      does not observe itself. */
  ghost predicate HonestThrough(s: Setting, n: nat) {
    && (forall ch: Choices, i :: 0 <= i < |Planned(s, ch)| && Upto(s, n, Planned(s, ch)[i].step) ==>
          HonestApp(s, Planned(s, ch)[i].AsKey()) && Fast(s, n, Planned(s, ch)[i].AsKey()))
    && (forall ch: Choices, i, j :: 0 <= i < j < |Planned(s, ch)| && BothUpto(s, n, Planned(s, ch)[i], Planned(s, ch)[j]) ==>
          ApartAt(s, Planned(s, ch)[i].AsKey(), Planned(s, ch)[j].AsKey()))
  }

  /** No application is in one unrolling twice. */
  ghost predicate Identified(s: Setting) {
    forall ch: Choices, i, j :: 0 <= i < j < |Planned(s, ch)| ==> Planned(s, ch)[i] != Planned(s, ch)[j]
  }

  // ---------------------------------------------------------------------------
  // The invariant

  predicate InFlight(r: Record) { r.state.Applying? && r.attempting.Some? }

  /** The states an instance can still go forward from. */
  predicate GoesForward(st: State) { st.Applying? || st.Held? || st.Waiting? || st.Deferred? }

  predicate BeforeApproval(st: State) { st.Unchecked? || st.Checked? || st.Pending? || st.ApprovalExpired? }

  predicate MayAttempt(st: State) { GoesForward(st) || BeforeApproval(st) }

  /** An application is the next one of the unrolling. */
  ghost predicate Next(s: Setting, r: Record, a: AppliedStep) {
    r.applied + [a] <= Planned(s, r.choices)
  }

  /** An attempt is at the next application, or at one applied since. */
  ghost predicate OnLeaf(s: Setting, r: Record, a: AppliedStep) {
    (a in r.applied || Next(s, r, a)) && LeafAt(s.plan.body, a.step) != Some(Commit)
  }

  ghost predicate OnCourse(s: Setting, r: Record) {
    && r.applied <= Planned(s, r.choices)
    && (GoesForward(r.state) && r.attempting.Some? ==> OnLeaf(s, r, r.attempting.value))
    && (r.state.Deferred? ==>
          r.deferred.Some? && Next(s, r, r.deferred.value) && LeafAt(s.plan.body, r.deferred.value.step) != Some(Commit))
    && (BeforeApproval(r.state) ==> r.applied == [] && r.attempting.None?)
    && (forall a :: a in r.applied ==> LeafAt(s.plan.body, a.step) != Some(Commit))
    && Admits(IntentOf(s), r.state)
  }

  ghost predicate Accounted(s: Setting, n: nat, r: Record, w: World) {
    forall f :: Dirty(s, w, f) ==>
      Loose(s, n, f) || Claimed(s, r.applied, f) || (InFlight(r) && Covers(s, r.attempting.value.AsKey(), f))
  }

  /** While a step may still be attempted, a marker belongs to an application that is applied
      or in flight. */
  ghost predicate MarkersKept(s: Setting, r: Record) {
    MayAttempt(r.state) ==>
      forall key :: key in r.markers ==> HasKey(r.applied, key) || (InFlight(r) && r.attempting.value.AsKey() == key)
  }

  ghost predicate HasKey(applied: seq<AppliedStep>, key: Key) {
    exists i :: 0 <= i < |applied| && applied[i].AsKey() == key
  }

  ghost predicate AllSnapped(s: Setting, n: nat, r: Record) {
    forall i :: 0 <= i < |r.applied| ==>
      Upto(s, n, r.applied[i].step) && Snapped(s, r.snapshots, r.applied[i].AsKey())
  }

  ghost predicate AttemptKnown(s: Setting, n: nat, r: Record, w: World) {
    r.attempting.Some? && r.attempting.value !in r.applied ==>
      var key := r.attempting.value.AsKey();
      && (GoesForward(r.state) ==> Upto(s, n, r.attempting.value.step))
      && (InFlight(r) ==> Snapped(s, r.snapshots, key) || Clean(s, w, key))
      && (InFlight(r) && r.attemptingPre != map[] ==> PreRight(s, r.attemptingPre, key) || Clean(s, w, key))
  }

  /** Every reserved fact is at its initial value, or answered for by an application that is
      applied or in flight, or one no undo puts back; whatever an undo would write back is the
      initial value, and no step past number `n` was begun. */
  ghost predicate Safe(s: Setting, n: nat, r: Record, w: World) {
    && Accounted(s, n, r, w)
    && MarkersKept(s, r)
    && AllSnapped(s, n, r)
    && AttemptKnown(s, n, r, w)
    && Faithful(s, r.snapshots)
  }

  /** A state of store and world a crash can leave behind. */
  datatype Point = Point(rec: Record, world: World)

  /** What a run has met that the invariant does not survive: a step past the number honesty is
      known through; or, at some point of its history, a fact with other bytes than the request
      found and the same hash, a step done by hand that would be undone without its snapshot, an
      instance that went on or expired with a step half done, a restart from a state boot does not
      recover. Else nothing, and what the facts are follows. */
  datatype Doubt =
    | Certain(through: nat)
    | Collided(point: nat, fact: Fact)
    | Past(step: nat)
    | ByHand(point: nat)
    | HalfDone(point: nat)
    | Unrecovered(point: nat)

  /** Nothing in doubt, and the declarations honest through the number the run is held to. */
  ghost predicate Trusted(s: Setting, d: Doubt) { d.Certain? && HonestThrough(s, d.through) }

  ghost predicate Inv(s: Setting, r: Record, w: World, d: Doubt) {
    OnCourse(s, r) && (Trusted(s, d) ==> Safe(s, d.through, r, w))
  }

  /** No `do` is half done: every changed fact belongs to an applied step, or to none that could
      put it back. */
  ghost predicate Rested(s: Setting, n: nat, r: Record, w: World) {
    && (forall f :: Dirty(s, w, f) ==> Loose(s, n, f) || Claimed(s, r.applied, f))
    && (MayAttempt(r.state) ==> forall key :: key in r.markers ==> HasKey(r.applied, key))
  }

  // ---------------------------------------------------------------------------
  // What keeps it

  /** Facts only moved to their initial values. */
  ghost predicate Toward(s: Setting, w: World, w': World) {
    forall f :: Dirty(s, w', f) ==> Dirty(s, w, f)
  }

  lemma TowardKeeps(s: Setting, n: nat, r: Record, w: World, w': World)
    requires Safe(s, n, r, w) && Toward(s, w, w')
    ensures Safe(s, n, r, w')
    ensures Rested(s, n, r, w) ==> Rested(s, n, r, w')
  {
    if InFlight(r) && Clean(s, w, r.attempting.value.AsKey()) {
      assert Clean(s, w', r.attempting.value.AsKey());
    }
  }

  /** Only facts one application may write changed. */
  ghost predicate Within(s: Setting, key: Key, w: World, w': World) {
    forall f :: Value(w', f) != Value(w, f) ==> Touches(s, key, f)
  }

  lemma DoKeeps(s: Setting, n: nat, r: Record, w: World, w': World)
    requires Safe(s, n, r, w) && InFlight(r) && IsPlanned(s, r.attempting.value.AsKey())
    requires Snapped(s, r.snapshots, r.attempting.value.AsKey())
    requires r.attemptingPre != map[] ==> PreRight(s, r.attemptingPre, r.attempting.value.AsKey())
    requires Within(s, r.attempting.value.AsKey(), w, w')
    ensures Safe(s, n, r, w')
  {
    var key := r.attempting.value.AsKey();
    assert Upto(s, n, key.step) by {
      if r.attempting.value in r.applied { var i :| 0 <= i < |r.applied| && r.applied[i] == r.attempting.value; }
    }
    forall f | Dirty(s, w', f)
      ensures Loose(s, n, f) || Claimed(s, r.applied, f) || Covers(s, key, f)
    {
      if !Dirty(s, w, f) { assert Touches(s, key, f); }
    }
    hide Loose, Touches, Covers, Claimed, IsPlanned;
  }

  /** An attempt is at an application of the unrolling under way. */
  lemma AttemptIsPlanned(s: Setting, r: Record, a: AppliedStep)
    requires r.applied <= Planned(s, r.choices) && (a in r.applied || Next(s, r, a))
    ensures IsPlanned(s, a.AsKey())
  {
    hide Planned;
    var u := Planned(s, r.choices);
    if a in r.applied {
      var i :| 0 <= i < |r.applied| && r.applied[i] == a;
      assert u[i].AsKey() == a.AsKey();
    } else {
      assert u[|r.applied|] == (r.applied + [a])[|r.applied|] == a;
    }
  }

  /** The next application of a rested record has touched nothing and left no marker. */
  lemma FreshIsClean(s: Setting, n: nat, r: Record, w: World, a: AppliedStep)
    requires HonestThrough(s, n) && Safe(s, n, r, w) && Rested(s, n, r, w) && Next(s, r, a) && Upto(s, n, a.step) && MayAttempt(r.state)
    ensures Clean(s, w, a.AsKey())
    ensures !HasKey(r.applied, a.AsKey())
    ensures a.AsKey() !in r.markers
  {
    var u := Planned(s, r.choices);
    var l := |r.applied|;
    assert u[l] == (r.applied + [a])[l] == a;
    forall i | 0 <= i < l
      ensures ApartAt(s, r.applied[i].AsKey(), a.AsKey())
    {
      assert u[i] == (r.applied + [a])[i] == r.applied[i];
      assert ApartAt(s, u[i].AsKey(), u[l].AsKey());
    }
  }

  lemma PlannedIsHonest(s: Setting, n: nat, r: Record, a: AppliedStep)
    requires HonestThrough(s, n) && r.applied <= Planned(s, r.choices) && Upto(s, n, a.step)
    requires a in r.applied || Next(s, r, a)
    ensures HonestApp(s, a.AsKey()) && Fast(s, n, a.AsKey())
  {
    var u := Planned(s, r.choices);
    if a in r.applied {
      var i :| 0 <= i < |r.applied| && r.applied[i] == a;
      assert u[i] == a;
    } else {
      var l := |r.applied|;
      assert u[l] == (r.applied + [a])[l] == a;
    }
  }

  /** What a restore body does to an honest, snapped step's facts: back to the initial value. */
  lemma UndoPutsBack(s: Setting, snaps: Snapshots, key: Key, k: nat)
    requires HonestApp(s, key) && Snapped(s, snaps, key) && Faithful(s, snaps)
    requires k < |Entries(s, key)|
    ensures match UndoOfEntry(key, k, Entries(s, key)[k], snaps)
            case Does(Remove(shape)) => shape == Entries(s, key)[k].shape && Init(s, FactAt(s, key, k)).None?
            case Does(Write(shape, content)) => shape == Entries(s, key)[k].shape && Init(s, FactAt(s, key, k)) == Some(content)
            case Does(RegionClear(_, _)) => false
            case _ => true
  {
    var e := Entries(s, key)[k];
    assert NotLost(s, snaps, key, k);
    if Observed(e) {
      assert HonestEntry(s, key, k);
    }
    if e.kind.Modified? && SnapshotKey(key, k) in snaps {
      assert snaps[SnapshotKey(key, k)] == Init(s, FactAt(s, key, k)).value;
    }
  }

  /** An instance closed with nothing applied has every reserved fact back that an undo puts back. */
  lemma NothingAppliedMeansRestored(s: Setting, n: nat, r: Record, w: World)
    requires Safe(s, n, r, w) && !InFlight(r) && r.applied == []
    ensures forall f :: f in s.umbra && !Loose(s, n, f) ==> Value(w, f) == Init(s, f)
  {
    forall f | f in s.umbra && !Loose(s, n, f)
      ensures Value(w, f) == Init(s, f)
    {
      assert !Claimed(s, r.applied, f);
      assert !Dirty(s, w, f);
    }
  }
}
