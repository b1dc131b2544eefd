/** The undo engine over one instance: write-ahead, `do`, snapshot, undo, walk, reap and boot,
    engine/src/lifecycle.rs. A verb loads the record from the store, works on it in hand, and
    persists it as it goes; any journal entry or store write may be refused, which ends the
    verb where it stands. What executors, guards, gates and schedulers answer is arbitrary. */
module Engine {
  import opened Wrappers
  import opened Model
  import opened Algebra
  import opened Intent
  import opened States
  import opened Footprint
  import opened Unrolling
  import opened Backstops
  import opened Safety
  import opened Drifting
  import opened Course
  import opened Completion
  import opened Invariant

  class Engine {
    const s: Setting
    var rec: Record
    var stored: Record
    var world: World
    var trail: seq<Point>
    ghost const through: nat
    ghost var moments: seq<Moment>
    ghost var acts: seq<Act>
    ghost var doubt: Doubt

    /** Every state the store and the world have been in together kept the invariant, up to a
        doubt the history by then held the evidence of; every act was protected. */
    ghost predicate Historied()
      reads this
    {
      && trail != [] && Kept(s, through, trail, moments) && moments[|trail| - 1].acts <= acts
      && Evidence(s, through, trail, acts, doubt)
      && AllProtected(s, acts)
      && Holds(s, [Point(stored, world)], doubt)
    }

    /** And the last of them is the one they are in. */
    ghost predicate Sound()
      reads this
    {
      Historied() && trail[|trail| - 1] == Point(stored, world)
    }

    ghost predicate InHand()
      reads this
    {
      Sound() && Holds(s, [Point(rec, world)], doubt)
    }

    /** Between steps of a walk. */
    ghost predicate Ready()
      reads this
    {
      InHand() && rec.state.Applying? && Settled(s, [Point(rec, world)], doubt)
    }

    /** A verb has come to rest. */
    ghost predicate Halted()
      reads this
    {
      InHand() && !rec.state.Applying? && !stored.state.Applying?
    }

    ghost function Now(): Stage
      reads this
    {
      Stage(Terms(rec), Terms(stored), trail, acts, doubt)
    }

    /** Going forward: what approval settled stays, history and acts are added, and a run not in
        doubt falls into it only by a collision or by a step past its number. */
    twostate predicate Onward()
      reads this
    {
      GoesOn(old(Now()), Now())
    }

    /** A verb only adds to the history. */
    twostate predicate Lengthens()
      reads this
    {
      old(trail) <= trail && old(acts) <= acts
    }

    // --- effects --------------------------------------------------------------

    /** The state that store and world are now in goes into the history. */
    method Remember()
      requires Historied()
      modifies this`trail, this`moments
      ensures Sound() && trail == old(trail) + [Point(stored, world)]
    {
      hide Kept, Holds, Trusted, Evidence, AllProtected;
      KeptGrows(s, through, trail, moments, Point(stored, world), Moment(acts, doubt));
      trail, moments := trail + [Point(stored, world)], moments + [Moment(acts, doubt)];
    }

    method Persist() returns (d: Done)
      requires InHand()
      modifies this`stored, this`trail, this`moments
      ensures InHand() && Onward()
      ensures stored == if d.Pass? then rec else old(stored)
    {
      hide Kept, Holds, Trusted, Evidence, AllProtected;
      if * { return Done.Fail; }
      stored := rec;
      Remember();
      return Done.Pass;
    }

    method Log(ev: JournalEvent) returns (d: Done)
      requires Sound() && (ev.StepApplying? ==> Defended(s, ev.step, rec.backstop))
      modifies this`acts
      ensures Sound() && Onward()
      ensures acts == old(acts) + [Journaled(ev, rec.backstop)] && UndoneIn(acts) == UndoneIn(old(acts))
    {
      hide Kept, Holds, Trusted, Evidence, AllProtected, Defended, GoesOn;
      GoesOnAlong();
      Acted(Journaled(ev, rec.backstop));
      if * { return Done.Fail; }
      return Done.Pass;
    }

    /** One more act, protected. */
    ghost method Acted(a: Act)
      requires Sound() && Protected(s, a)
      modifies this`acts
      ensures Sound() && Onward() && acts == old(acts) + [a]
      ensures UndoneIn(acts) == UndoneIn(old(acts)) + UndoneBy(a)
    {
      hide Kept, Holds, Trusted, Evidence, AllProtected, Protected;
      ActsGrow(s, acts, a);
      EvidenceStays(s, through, trail, trail, acts, acts + [a], doubt);
      UndoneGrows(acts, a);
      acts := acts + [a];
    }

    /** A verb is entered where the run now is. */
    ghost method Enters(verb: Entry)
      requires Sound()
      modifies this`acts
      ensures Sound() && Onward() && acts == old(acts) + [Entered(verb, |trail| - 1)]
      ensures UndoneIn(acts) == UndoneIn(old(acts))
    {
      hide Kept, Holds, Trusted, Evidence, AllProtected, UndoneIn, GoesOn;
      Acted(Entered(verb, |trail| - 1));
    }

    /** The handoff of a step whose undo would lose a file puts the run in doubt. */
    ghost method EntersHandoff()
      requires InHand() && rec == stored && rec.deferred.Some?
      modifies this`acts, this`doubt
      ensures InHand() && old(acts) <= acts && UndoneIn(acts) == UndoneIn(old(acts))
      ensures doubt == old(doubt) || (old(doubt).Certain? && doubt == ByHand(|trail| - 1))
      ensures rec.state.Deferred? && Trusted(s, doubt) ==> Snapped(s, rec.snapshots, rec.deferred.value.AsKey())
    {
      hide Kept, Holds, Settled, HonestThrough, AllProtected, Snapped, UndoneIn;
      Enters(HandsOff);
      if rec.state.Deferred? && Trusted(s, doubt) && !Snapped(s, rec.snapshots, rec.deferred.value.AsKey()) {
        Doubts(ByHand(|trail| - 1));
      }
    }

    /** Going on with a step half done puts the run in doubt. */
    ghost method EntersWalk()
      requires InHand() && rec == stored
      modifies this`acts, this`doubt
      ensures InHand() && old(acts) <= acts && UndoneIn(acts) == UndoneIn(old(acts))
      ensures doubt == old(doubt) || (rec.state.Applying? && old(doubt).Certain? && doubt == HalfDone(|trail| - 1))
      ensures rec.state.Applying? ==> Ready()
    {
      hide Kept, Holds, Settled, HonestThrough, AllProtected, Rested, UndoneIn;
      Enters(Walks);
      SettledOne(s, rec, world, doubt);
      if rec.state.Applying? && !Settled(s, [Point(rec, world)], doubt) {
        Doubts(HalfDone(|trail| - 1));
      }
    }

    /** Expiring over a step half done puts the run in doubt. */
    ghost method EntersExpiry()
      requires InHand() && rec == stored && rec.state.Applying?
      modifies this`acts, this`doubt
      ensures InHand() && old(acts) <= acts && UndoneIn(acts) == UndoneIn(old(acts))
      ensures doubt == old(doubt) || (old(doubt).Certain? && doubt == HalfDone(|trail| - 1))
      ensures Trusted(s, doubt) && rec.attempting.Some? ==> rec.attempting.value in rec.applied || Clean(s, world, rec.attempting.value.AsKey())
    {
      hide Kept, Holds, Settled, HonestThrough, AllProtected, Rested, Clean, UndoneIn;
      Enters(Expires);
      ghost var a := rec.attempting;
      if a.Some? && Trusted(s, doubt) && a.value !in rec.applied && !Clean(s, world, a.value.AsKey()) {
        TouchedIsHalfDone(s, rec, world, doubt);
        Doubts(HalfDone(|trail| - 1));
      }
    }

    /** A restart from a state boot does not recover puts the run in doubt. */
    ghost method EntersBoot()
      requires InHand() && rec == stored
      modifies this`acts, this`doubt
      ensures InHand() && old(acts) <= acts && UndoneIn(acts) == UndoneIn(old(acts))
      ensures doubt == old(doubt) || (old(doubt).Certain? && doubt == Unrecovered(|trail| - 1))
      ensures Trusted(s, doubt) ==> Recoverable(s, rec, world)
    {
      hide Kept, Holds, Settled, HonestThrough, AllProtected, Recoverable, UndoneIn;
      Enters(Boots);
      if Trusted(s, doubt) && !Recoverable(s, rec, world) { Doubts(Unrecovered(|trail| - 1)); }
    }

    /** The run is in doubt from here on, and holds why. */
    ghost method Doubts(more: Doubt)
      requires InHand() && Trusted(s, doubt) && !more.Certain? && Evidence(s, through, trail, acts, more)
      modifies this`doubt
      ensures InHand() && Settled(s, [Point(rec, world)], doubt)
      ensures doubt == more && !Trusted(s, doubt) && old(doubt).Certain?
    {
      hide Kept, Holds, Settled, HonestThrough, Evidence, AllProtected;
      DoubtWeakens(s, [Point(stored, world)], doubt, more);
      DoubtWeakens(s, [Point(rec, world)], doubt, more);
      doubt := more;
    }

    /** Feed one event to the machine; refuse per its verdict; persist. */
    method Step(ev: Event) returns (r: Res<bool>)
      requires Sound()
      requires var o := Transition(CtxOf(s, rec), rec.state, ev);
               Holds(s, [Point(if o.To? then rec.(state := o.state) else rec, world)], doubt)
      modifies this`rec, this`stored, this`trail, this`moments
      ensures Sound() && Onward()
      ensures r.Ok? ==> InHand()
      ensures r.Ok? ==> var o := Transition(CtxOf(s, old(rec)), old(rec).state, ev);
                if o.To? then r.value && rec == old(rec).(state := o.state) && stored == rec
                else o.Stay? && !r.value && rec == old(rec) && stored == old(stored)
    {
      hide Kept, Holds, Trusted, Evidence, AllProtected, Transition, CtxOf, GoesOn;
      GoesOnAlong();
      match Transition(CtxOf(s, rec), rec.state, ev) {
        case To(st) =>
          rec := rec.(state := st);
          :- Persist();
          return Ok(true);
        case Stay => return Ok(false);
        case _ => return Err;
      }
    }

    /** A fact's bytes as they are now; a read may fail, and is then never an absence. */
    method ReadFact(f: Fact) returns (v: Res<Option<Bytes>>)
      ensures v.Ok? ==> v.value == Value(world, f)
    {
      if * { return Err; }
      return Ok(Value(world, f));
    }

    /** The executor runs an undo body, primitive by primitive, and may stop at any of them. */
    method RunUndo(host: Host, body: seq<Prim>) returns (ok: bool)
      requires Sound()
      requires Trusted(s, doubt) ==> forall i :: 0 <= i < |body| ==> PutsInitial(s, host, body[i])
      modifies this`world, this`trail, this`moments
      ensures Sound() && Onward()
      ensures Trusted(s, doubt) ==> Toward(s, old(world), world)
      ensures Trusted(s, doubt) && ok ==> forall i :: 0 <= i < |body| && SetsFact(body[i]) ==> !Dirty(s, world, Fact(host, body[i].shape))
    {
      hide Kept, Holds, Trusted, Evidence, AllProtected;
      var i := 0;
      while i < |body|
        invariant 0 <= i <= |body|
        invariant Sound() && Onward()
        invariant Trusted(s, doubt) ==> Toward(s, old(world), world)
        invariant Trusted(s, doubt) ==> forall j :: 0 <= j < i && SetsFact(body[j]) ==> !Dirty(s, world, Fact(host, body[j].shape))
      {
        if * { return false; }
        ghost var before := world;
        world := AfterPrim(world, host, body[i]);
        TowardKeepsInv(s, stored, before, world, doubt);
        Remember();
        i := i + 1;
      }
      return true;
    }

    /** The executor runs a step's `do`: any writes to the facts its footprint declares, but for
        the derived ones, which no step writes; stopping anywhere. */
    method RunDo(key: Key) returns (ok: bool)
      requires InHand() && stored == rec && InFlight(rec) && rec.attempting.value.AsKey() == key
      requires Trusted(s, doubt) ==> Snapped(s, rec.snapshots, key)
      requires Trusted(s, doubt) && rec.attemptingPre != map[] ==> PreRight(s, rec.attemptingPre, key)
      modifies this`world, this`trail, this`moments
      ensures InHand() && Onward()
      ensures Trusted(s, doubt) ==> Within(s, key, old(world), world)
    {
      hide Kept, Holds, Trusted, Evidence, AllProtected, Snapped, PreRight;
      var todo: nat := *;
      while todo > 0
        invariant InHand() && Onward()
        invariant Trusted(s, doubt) ==> Within(s, key, old(world), world)
      {
        var k: nat := *;
        var v: Option<Bytes> := *;
        if 0 <= k < |Entries(s, key)| && Writable(Entries(s, key)[k]) {
          ghost var before := world;
          world := Put(world, FactAt(s, key, k), v);
          assert Touches(s, key, FactAt(s, key, k));
          DoKeepsInv(s, stored, before, world, doubt);
          Remember();
        }
        todo := todo - 1;
      }
      ok := *;
    }

    // --- undo -----------------------------------------------------------------

    /** Whether every fact read before `do` reads now as it did then; a fact that cannot be read
        is not shown untouched. Two values with one digest are caught in the act. */
    method Untouched(op: Op, key: Key, pre: map<string, Digest>) returns (same: bool)
      requires InHand() && OpAt(s.plan.body, key.step) == Some(op)
      requires Trusted(s, doubt) ==> PreRight(s, pre, key) || Clean(s, world, key)
      modifies this`doubt
      ensures InHand()
      ensures doubt == old(doubt) || (old(doubt).Certain? && doubt.Collided? && !Trusted(s, doubt))
      ensures same && Trusted(s, doubt) ==> Clean(s, world, key)
      ensures same ==> ReadsAsBefore(s, world, HostAt(s, key), pre)
    {
      hide Kept, Holds, HonestThrough, AllProtected, Snapped, Rested, Recoverable;
      var host := StepHost(s.plan.owner, op);
      if host.None? { return false; }
      var todo := pre.Keys;
      while todo != {}
        modifies {}
        invariant todo <= pre.Keys
        invariant forall shape :: shape in pre.Keys - todo ==> DigestOf(s.sha, Value(world, Fact(host.value, shape))) == pre[shape]
      {
        var shape :| shape in todo;
        var now := ReadFact(Fact(host.value, shape));
        if now.Err? || DigestOf(s.sha, now.value) != pre[shape] { return false; }
        todo := todo - {shape};
      }
      if Trusted(s, doubt) && !Clean(s, world, key) {
        ghost var f :| Covers(s, key, f) && Dirty(s, world, f);
        ReadsAlikeCollides(s, trail[|trail| - 1], key, host.value, pre, f);
        Doubts(Collided(|trail| - 1, f));
      }
      return true;
    }

    /** Every observed fact is read against its marker and judged under the step's policy. What is
        read of a region's strip is arbitrary. */
    method Judge(op: Op, key: Key, host: Host, es: seq<FootprintEntry>) returns (ok: bool, clobbered: seq<string>, held: seq<string>, ghost strips: seq<Strip>)
      ensures ok ==> |strips| == |es|
      ensures ok ==>
        Judgement(clobbered, held) == JudgedWith(s, world, host, MarkersAt(rec.markers, key), PolicyOf(op, es), rec.forceDrift, es, strips, |es|)
      ensures ok && NoRegion(es) ==>
        Judgement(clobbered, held) == Judged(s, world, host, MarkersAt(rec.markers, key), PolicyOf(op, es), rec.forceDrift, es, |es|)
    {
      hide Decide, Forced, DigestOf, FindMarker, Judged, PolicyOf, AddressOf, MarkersAt;
      clobbered, held, strips := [], [], [];
      var policy := PolicyOf(op, es);
      var markers := MarkersAt(rec.markers, key);
      var k := 0;
      while k < |es|
        modifies {}
        invariant 0 <= k <= |es| && |strips| == k
        invariant Judgement(clobbered, held) == JudgedWith(s, world, host, markers, policy, rec.forceDrift, es, strips, k)
      {
        var e := es[k];
        var intact: Option<bool> := *;
        var foreign: bool := *;
        ghost var before := strips;
        strips := strips + [Strip(intact, foreign)];
        MoreStrips(s, world, host, markers, policy, rec.forceDrift, es, before, strips, k);
        if Observed(e) {
          var now := ReadFact(Fact(host, e.shape));
          if now.Err? { return false, [], [], []; }
          var recorded := FindMarker(markers, AddressOf(e.shape));
          var changed := recorded.Some? && recorded.value != DigestOf(s.sha, now.value);
          match Forced(rec.forceDrift, Decide(e.kind, policy, changed, if e.kind.Region? then intact else None, e.kind.Region? && foreign)) {
            case Undo =>
            case Clobbering | RestoreWhole => clobbered := clobbered + [e.shape];
            case Deferring | DeferForeign => held := held + [e.shape];
          }
        }
        k := k + 1;
      }
      if NoRegion(es) { StripsDoNotMatter(s, world, host, markers, policy, rec.forceDrift, es, strips, |es|); }
      ok := true;
    }

    /** Undo one step under its drift policy. The step counts as the last applied one of `marked`,
        which is the record in hand when the step is being reverted. */
    method UndoStep(a: AppliedStep, op: Op, ghost marked: Record) returns (r: UndoResult)
      requires Sound() && OpAt(s.plan.body, a.step) == Some(op)
      requires Holds(s, [Point(marked, world)], doubt)
      requires |marked.applied| > 0 && marked.applied[|marked.applied| - 1] == a && marked.snapshots == rec.snapshots
      modifies this`world, this`trail, this`moments, this`acts
      ensures Sound() && Onward() && acts == old(acts) + [Undid(a, r)]
      ensures UndoneIn(acts) == UndoneIn(old(acts)) + UndoneBy(Undid(a, r))
      ensures Trusted(s, doubt) ==> Toward(s, old(world), world)
      ensures Trusted(s, doubt) && r.Undone? ==> Clean(s, world, a.AsKey())
      ensures r.HeldBack? ==> world == old(world)
      ensures Trusted(s, doubt) && r.HeldBack? ==> a.AsKey() in rec.markers
      ensures Trusted(s, doubt) && !r.Failed? && !op.undo.NoUndo? ==>
        var es := Entries(s, a.AsKey());
        var j := Judged(s, old(world), HostAt(s, a.AsKey()), MarkersAt(rec.markers, a.AsKey()), PolicyOf(op, es), rec.forceDrift, es, |es|);
        r == if j.held != [] then HeldBack(j.held) else Undone(j.clobbered)
    {
      hide Kept, Holds, Trusted, Evidence, AllProtected, GoesOn;
      GoesOnAlong();
      r := RunUndoOf(a, op, marked);
      Acted(Undid(a, r));
    }

    method RunUndoOf(a: AppliedStep, op: Op, ghost marked: Record) returns (r: UndoResult)
      requires Sound() && OpAt(s.plan.body, a.step) == Some(op)
      requires Holds(s, [Point(marked, world)], doubt)
      requires |marked.applied| > 0 && marked.applied[|marked.applied| - 1] == a && marked.snapshots == rec.snapshots
      modifies this`world, this`trail, this`moments
      ensures Sound() && Onward()
      ensures Trusted(s, doubt) ==> Toward(s, old(world), world)
      ensures Trusted(s, doubt) && r.Undone? ==> Clean(s, world, a.AsKey())
      ensures r.HeldBack? ==> world == old(world)
      ensures Trusted(s, doubt) && r.HeldBack? ==> a.AsKey() in rec.markers
      ensures Trusted(s, doubt) && !r.Failed? && !op.undo.NoUndo? ==>
        var es := Entries(s, a.AsKey());
        var j := Judged(s, old(world), HostAt(s, a.AsKey()), MarkersAt(rec.markers, a.AsKey()), PolicyOf(op, es), rec.forceDrift, es, |es|);
        r == if j.held != [] then HeldBack(j.held) else Undone(j.clobbered)
    {
      hide Kept, Holds, Trusted, Evidence, AllProtected, Snapped, Faithful, RestorePrims, Judged, GoesOn;
      GoesOnAlong();
      var key := a.AsKey();
      UndoIsAllowed(s, marked, world, doubt);
      if op.undo.NoUndo? { return Undone([]); }
      var host := StepHost(s.plan.owner, op);
      var concrete := s.concrete(op, a.vars);
      if host.None? || concrete.None? { return Failed; }
      var es := concrete.value;
      assert es == Entries(s, key) && host.value == HostAt(s, key);
      if * { return Failed; }
      var ok, clobbered, held, _ := Judge(op, key, host.value, es);
      if !ok { return Failed; }
      if Trusted(s, doubt) { NoRegions(s, key); }
      if held != [] {
        if Trusted(s, doubt) {
          HeldNeedsAMarker(s, world, host.value, MarkersAt(rec.markers, key), PolicyOf(op, es), rec.forceDrift, es, |es|);
        }
        return HeldBack(held);
      }
      var body: Option<seq<Prim>>;
      if op.undo.Restore? {
        body := RestoreBody(key, es, rec.snapshots);
      } else {
        body := *;
      }
      if !body.Some? { return Failed; }
      if Trusted(s, doubt) { RestoreBodyPutsInitial(s, rec.snapshots, key, body.value); }
      ok := RunUndo(host.value, body.value);
      if !ok { return Failed; }
      return Undone(clobbered);
    }

    /** Undo the applied steps last in, first out. Clean: Closed. A failing undo: Stuck. Drift
        under `:defer`: DriftHeld. */
    method Revert() returns (r: Res<Flow>)
      requires InHand() && (rec.state.Reverting? || rec.state.Expired?)
      modifies this`rec, this`stored, this`world, this`trail, this`moments, this`acts
      ensures Sound() && Onward()
      ensures r.Ok? ==> r.value.Stop? && Halted() && stored == rec && UndoEnded(rec)
      ensures r.Ok? && rec.state.Closed? ==> UndoneIn(acts) == UndoneIn(old(acts)) + LastFirst(s, old(rec).applied)
    {
      hide Kept, Holds, Trusted, Evidence, AllProtected, Transition, CtxOf, UndoneIn, LastFirst, GoesOn;
      GoesOnAlong();
      :- Log(Note("reverting"));
      rec := rec.(stuck := []);
      SameCoreKeeps(s, old(rec), rec, world, doubt);
      while |rec.applied| > 0
        invariant InHand() && Onward() && rec.state == old(rec).state
        invariant UndoneIn(acts) + LastFirst(s, rec.applied) == UndoneIn(old(acts)) + LastFirst(s, old(rec).applied)
        decreases |rec.applied|
      {
        ghost var had, a, rest, done := rec.applied, rec.applied[|rec.applied| - 1], rec.applied[..|rec.applied| - 1], UndoneIn(acts);
        var stopped :- UndoLast();
        if stopped { return Ok(Stop); }
        assert had == rest + [a];
        LastFirstStep(s, rest, a);
        Associate(done, StepAlone(s, a), LastFirst(s, rest));
      }
      LastFirstNone(s);
      RevertingMayMove(s, rec, world, doubt, Closed);
      FromReverting(CtxOf(s, rec), rec.state);
      var _ :- Step(UndoClean);
      :- Log(Note("closed"));
      return Ok(Stop);
    }

    /** One turn of the revert: the last applied step is undone and popped, or the revert stops. */
    method UndoLast() returns (r: Res<bool>)
      requires InHand() && (rec.state.Reverting? || rec.state.Expired?) && |rec.applied| > 0
      modifies this`rec, this`stored, this`world, this`trail, this`moments, this`acts
      ensures Sound() && Onward()
      ensures r.Ok? && !r.value ==> InHand() && rec.state == old(rec).state && rec.applied == old(rec).applied[..|old(rec).applied| - 1]
      ensures r.Ok? && !r.value ==> UndoneIn(acts) == UndoneIn(old(acts)) + StepAlone(s, old(rec).applied[|old(rec).applied| - 1])
      ensures r.Ok? && r.value ==> Halted() && stored == rec && rec.applied == old(rec).applied
      ensures r.Ok? && r.value ==>
        && |acts| > |old(acts)| && acts[|old(acts)|].Undid? && !acts[|old(acts)|].result.Undone?
        && acts[|old(acts)|].at == rec.applied[|rec.applied| - 1]
        && rec.state == if acts[|old(acts)|].result.Failed? then Stuck else DriftHeld
    {
      hide Kept, Holds, Trusted, Evidence, AllProtected, Clean, Toward, UndoneIn, GoesOn;
      GoesOnAlong();
      GoesOnGrows();
      var a := rec.applied[|rec.applied| - 1];
      var op := OpAt(s.plan.body, a.step);
      if op.None? {
        r := Pop(rec.markers);
        return;
      }
      ghost var before := world;
      var undone := UndoStep(a, op.value, rec);
      TowardKeepsInv(s, rec, before, world, doubt);
      r := UndoneWith(a, undone);
    }

    /** An entry only where something is to be said. */
    method LogUnless(silent: bool, ev: JournalEvent) returns (d: Done)
      requires Sound() && ev.Note?
      modifies this`acts
      ensures Sound() && Onward() && UndoneIn(acts) == UndoneIn(old(acts))
      ensures silent ==> d.Pass? && acts == old(acts)
    {
      hide Kept, Holds, Trusted, Evidence, AllProtected, UndoneIn, GoesOn;
      GoesOnAlong();
      d := Pass;
      if !silent { d := Log(ev); }
    }

    method UndoneWith(a: AppliedStep, undone: UndoResult) returns (r: Res<bool>)
      requires InHand() && (rec.state.Reverting? || rec.state.Expired?)
      requires |rec.applied| > 0 && rec.applied[|rec.applied| - 1] == a && OpAt(s.plan.body, a.step).Some?
      requires Trusted(s, doubt) && undone.Undone? ==> Clean(s, world, a.AsKey())
      modifies this`rec, this`stored, this`trail, this`moments, this`acts
      ensures Sound() && Onward() && UndoneIn(acts) == UndoneIn(old(acts))
      ensures r.Ok? ==> r.value == !undone.Undone? && stored == rec
      ensures r.Ok? && undone.Undone? ==> InHand() && rec.state == old(rec).state && rec.applied == old(rec).applied[..|old(rec).applied| - 1]
      ensures r.Ok? && !undone.Undone? ==> Halted() && rec.applied == old(rec).applied && rec.state == if undone.Failed? then Stuck else DriftHeld
    {
      hide Kept, Holds, Trusted, Evidence, AllProtected, Clean, UndoneIn, GoesOn;
      GoesOnAlong();
      if undone.Undone? {
        :- LogUnless(undone.clobbered == [], Note("drift clobbered"));
        r := Pop(rec.markers - {a.AsKey()});
      } else if undone.Failed? {
        r := StopReverting(rec.(stuck := StepsBackwards(rec.applied)), StepFailed(a.step), UndoFailed);
      } else {
        r := StopReverting(rec.(driftHeld := [a.step]), Note("drift held"), DriftOnDefer);
      }
    }

    method Pop(markers: map<Key, seq<Marker>>) returns (r: Res<bool>)
      requires InHand() && (rec.state.Reverting? || rec.state.Expired?) && |rec.applied| > 0
      requires var a := rec.applied[|rec.applied| - 1];
        OpAt(s.plan.body, a.step).Some? && Trusted(s, doubt) ==> Clean(s, world, a.AsKey())
      modifies this`rec, this`stored, this`trail, this`moments
      ensures Sound() && Onward()
      ensures r.Ok? ==> !r.value && InHand() && stored == rec
      ensures r.Ok? ==> rec == old(rec).(applied := old(rec).applied[..|old(rec).applied| - 1], markers := markers)
    {
      hide Kept, Holds, Trusted, Evidence, AllProtected, Clean, GoesOn;
      GoesOnAlong();
      PopKeeps(s, rec, world, doubt, markers);
      rec := rec.(applied := rec.applied[..|rec.applied| - 1], markers := markers);
      :- Persist();
      return Ok(false);
    }

    /** The revert stops: what it leaves is noted, journaled, and the machine is told. */
    method StopReverting(noted: Record, ev: JournalEvent, outcome: Event) returns (r: Res<bool>)
      requires InHand() && (rec.state.Reverting? || rec.state.Expired?) && SameCore(rec, noted) && Terms(noted) == Terms(rec)
      requires (outcome.UndoFailed? && ev.StepFailed?) || (outcome.DriftOnDefer? && ev.Note?)
      modifies this`rec, this`stored, this`trail, this`moments, this`acts
      ensures Sound() && Onward() && UndoneIn(acts) == UndoneIn(old(acts))
      ensures r.Ok? ==> r.value && Halted() && stored == rec
      ensures r.Ok? ==> rec == noted.(state := if outcome.UndoFailed? then Stuck else DriftHeld)
    {
      hide Kept, Holds, Trusted, Evidence, AllProtected, Transition, CtxOf, UndoneIn, GoesOn;
      GoesOnAlong();
      SameCoreKeeps(s, rec, noted, world, doubt);
      rec := noted;
      :- Log(ev);
      RevertingMayMove(s, rec, world, doubt, if outcome.UndoFailed? then Stuck else DriftHeld);
      FromReverting(CtxOf(s, rec), rec.state);
      var _ :- Step(outcome);
      if outcome.UndoFailed? {
        :- Log(Note("stuck"));
      }
      return Ok(true);
    }

    // --- refusing, waiting, deferring ------------------------------------------

    /** A refusal before a step's `do`, or after its failed `do` was dealt with: Held when an
        earlier applied step holds, else Reverting, and the revert runs. */
    method RefuseApplied(n: nat) returns (r: Res<Flow>)
      requires Ready()
      modifies this`rec, this`stored, this`world, this`trail, this`moments, this`acts
      ensures Sound() && Onward()
      ensures r.Ok? ==> r.value.Stop? && Halted() && stored == rec && RefusedAs(s, old(rec).applied, n, rec)
      ensures r.Ok? && HoldsEarlier(s, old(rec).applied) ==> world == old(world)
    {
      hide Kept, Holds, Settled, Trusted, Evidence, AllProtected, Transition, CtxOf, HoldsEarlier, GoesOn;
      GoesOnAlong();
      FromApplying(s, rec);
      RestedMayMove(s, rec, world, doubt, Held);
      RestedMayMove(s, rec, world, doubt, Reverting);
      var _ :- Step(Refuse);
      r := Refused(n);
    }

    /** The machine was told of a refusal: hold, or revert. */
    method Refused(n: nat) returns (r: Res<Flow>)
      requires InHand() && stored == rec && (rec.state.Held? || rec.state.Reverting?)
      modifies this`rec, this`stored, this`world, this`trail, this`moments, this`acts
      ensures Sound() && Onward()
      ensures r.Ok? ==> r.value.Stop? && Halted() && stored == rec
      ensures r.Ok? && old(rec).state.Held? ==> rec == old(rec).(heldAt := Some(n)) && world == old(world)
      ensures r.Ok? && old(rec).state.Reverting? ==> UndoEnded(rec)
    {
      hide Kept, Holds, Trusted, Evidence, AllProtected, GoesOn;
      GoesOnAlong();
      if rec.state.Held? {
        r := HoldAt(n);
      } else {
        r := Revert();
      }
    }

    method HoldAt(n: nat) returns (r: Res<Flow>)
      requires InHand() && rec.state.Held? && stored == rec
      modifies this`rec, this`stored, this`trail, this`moments, this`acts
      ensures Sound() && Onward()
      ensures r.Ok? ==> r.value.Stop? && Halted() && stored == rec == old(rec).(heldAt := Some(n))
    {
      hide Kept, Holds, Trusted, Evidence, AllProtected, GoesOn;
      GoesOnAlong();
      SameCoreKeeps(s, rec, rec.(heldAt := Some(n)), world, doubt);
      rec := rec.(heldAt := Some(n));
      :- Persist();
      :- Log(Note("held"));
      return Ok(Stop);
    }

    method RefuseStep(n: nat) returns (r: Res<Flow>)
      requires Ready()
      modifies this`rec, this`stored, this`world, this`trail, this`moments, this`acts
      ensures Sound() && Onward()
      ensures r.Ok? ==> r.value.Stop? && Halted() && stored == rec && RefusedAs(s, old(rec).applied, n, rec)
    {
      hide Kept, Holds, Settled, Trusted, Evidence, AllProtected, RefusedAs, GoesOn;
      GoesOnAlong();
      :- Log(Note("refused"));
      r := RefuseApplied(n);
    }

    /** A wait, bounded from now where a bound is given. */
    method WaitFor(n: nat, bound: Option<Seconds>, guarded: bool) returns (r: Res<Flow>)
      requires Ready()
      modifies this`rec, this`stored, this`trail, this`moments, this`acts
      ensures Sound() && Onward()
      ensures r.Ok? ==> r.value.Stop? && Halted() && stored == rec && rec == old(rec).(state := Waiting, waiting := rec.waiting)
      ensures r.Ok? ==> WaitsAt(rec.waiting, n, bound, guarded)
    {
      hide Kept, Holds, Settled, Trusted, Evidence, AllProtected, Transition, CtxOf, HoldsEarlier, GoesOn;
      GoesOnAlong();
      var now: nat := *;
      var until := Until(if now >= 0 then now else 0, bound);
      SameCoreKeeps(s, rec, rec.(waiting := Some(WaitAt(n, until, guarded))), world, doubt);
      rec := rec.(waiting := Some(WaitAt(n, until, guarded)));
      FromApplying(s, rec);
      RestedMayMove(s, rec, world, doubt, Waiting);
      var _ :- Step(WaitAtStep);
      :- Log(Note("waiting"));
      return Ok(Stop);
    }

    method Defer(a: AppliedStep) returns (r: Res<Flow>)
      requires Ready() && Next(s, rec, a) && LeafAt(s.plan.body, a.step) != Some(Commit)
      modifies this`rec, this`stored, this`trail, this`moments, this`acts
      ensures Sound() && Onward()
      ensures r.Ok? ==> r.value.Stop? && Halted() && stored == rec == old(rec).(deferred := Some(a), state := State.Deferred)
    {
      hide Kept, Holds, Settled, Trusted, Evidence, AllProtected, Transition, CtxOf, HoldsEarlier, GoesOn;
      GoesOnAlong();
      RestedMayDefer(s, rec, world, doubt, a);
      rec := rec.(deferred := Some(a));
      FromApplying(s, rec);
      var _ :- Step(DeferAtStep);
      :- Log(Note("deferred"));
      return Ok(Stop);
    }

    /** A guard: passed, or the flow after a wait or a refusal. */
    method GuardBlocks(n: nat, g: Guard, bound: Option<Seconds>) returns (r: Res<Option<Flow>>)
      requires Ready()
      modifies this`rec, this`stored, this`world, this`trail, this`moments, this`acts
      ensures Sound() && Onward()
      ensures |acts| > |old(acts)| && acts[|old(acts)|].Asked? && acts[|old(acts)|].guard == g
      ensures r == Ok(None) ==> Ready() && rec == old(rec) && stored == old(stored) && world == old(world)
      ensures r == Ok(None) ==> |acts| == |old(acts)| + 1 && PassedBy(s, acts[|old(acts)|], g)
      ensures r.Ok? && r.value.Some? ==>
        && r.value.value.Stop? && Halted() && stored == rec && !PassedBy(s, acts[|old(acts)|], g)
        && if acts[|old(acts)|].answer == Ok(Unknown) then rec.state.Waiting? && rec.applied == old(rec).applied && WaitsAt(rec.waiting, n, bound, true)
           else RefusedAs(s, old(rec).applied, n, rec)
    {
      hide Kept, Holds, Settled, Trusted, Evidence, AllProtected, RefusedAs, WaitsAt, GoesOn;
      GoesOnAlong();
      GoesOnGrows();
      var answer: Res<Tri> := *;
      var forced: bool := *;
      Acted(Asked(g, answer, forced));
      if answer == Ok(Yes) || (answer == Ok(Unknown) && forced && !g.forceNever && s.plan.mode.Manual?) {
        return Ok(None);
      }
      var flow: Flow;
      if answer == Ok(Unknown) {
        flow :- WaitFor(n, bound, true);
      } else {
        flow :- RefuseStep(n);
      }
      return Ok(Some(flow));
    }

    /** Every guard of a list, in order, up to the first that blocks. */
    method GuardsBlock(n: nat, gs: seq<Guard>, bound: Option<Seconds>) returns (r: Res<Option<Flow>>)
      requires Ready()
      modifies this`rec, this`stored, this`world, this`trail, this`moments, this`acts
      ensures Sound() && Onward()
      ensures r == Ok(None) ==> Ready() && rec == old(rec) && stored == old(stored) && world == old(world)
      ensures r == Ok(None) ==> PassedAt(s, acts, |old(acts)|, gs) && |acts| == |old(acts)| + |gs|
      ensures r.Ok? && r.value.Some? ==> r.value.value.Stop? && Halted() && stored == rec && StoppedAs(s, old(rec).applied, n, rec)
      ensures r.Ok? && r.value.Some? ==> exists k :: 0 <= k < |gs| && BlockedAt(s, acts, |old(acts)|, gs, k)
    {
      hide Kept, Holds, Settled, Trusted, Evidence, AllProtected, RefusedAs, WaitsAt, PassedBy, GoesOn;
      GoesOnAlong();
      GoesOnGrows();
      var i := 0;
      while i < |gs|
        invariant 0 <= i <= |gs|
        invariant Ready() && Onward() && rec == old(rec) && stored == old(stored) && world == old(world)
        invariant PassedAt(s, acts, |old(acts)|, gs[..i]) && |acts| == |old(acts)| + i
      {
        ghost var before := acts;
        var flow :- GuardBlocks(n, gs[i], bound);
        if flow.Some? {
          assert BlockedAt(s, acts, |old(acts)|, gs, i);
          return Ok(flow);
        }
        i := i + 1;
      }
      assert gs[..i] == gs;
      return Ok(None);
    }

    // --- running a step ----------------------------------------------------------

    /** Before `do`: the snapshot a `:restore` puts back and the digest of every observed fact,
        persisted together. None is a fact that could not be read. */
    method Snapshot(at: AppliedStep, host: Host, es: seq<FootprintEntry>) returns (r: Res<Option<map<string, Digest>>>)
      requires Ready() && rec.attempting == Some(at)
      requires es == Entries(s, at.AsKey()) && host == HostAt(s, at.AsKey())
      requires Trusted(s, doubt) ==> HonestApp(s, at.AsKey()) && Clean(s, world, at.AsKey())
      modifies this`rec, this`stored, this`trail, this`moments
      ensures Sound() && Onward()
      ensures r.Ok? ==> Ready() && rec == old(rec).(snapshots := rec.snapshots, attemptingPre := rec.attemptingPre)
      ensures r.Ok? && r.value.Some? ==>
        stored == rec && rec.attemptingPre == r.value.value && Recorded(s, at.AsKey(), rec.snapshots, rec.attemptingPre)
      ensures r.Ok? && r.value.Some? && Trusted(s, doubt) ==>
        Snapped(s, rec.snapshots, at.AsKey()) && PreRight(s, r.value.value, at.AsKey())
    {
      hide Kept, Holds, Settled, Trusted, Evidence, AllProtected, HonestApp, Clean, Entries, GoesOn;
      GoesOnAlong();
      var key := at.AsKey();
      var pre: map<string, Digest> := map[];
      if * {
        // No executor reaches the host: nothing is read, and `do` cannot run.
        :- Persist();
        if * { return Err; }
        return Ok(None);
      }
      var k := 0;
      while k < |es|
        invariant 0 <= k <= |es|
        invariant Ready() && stored == old(stored) && trail == old(trail) && rec == old(rec).(snapshots := rec.snapshots)
        invariant Trusted(s, doubt) ==> SnappedTo(s, rec.snapshots, key, k) && PreRightTo(s, pre, key, k)
        invariant RecordedTo(s, world, host, es, key, rec.snapshots, pre, k)
      {
        hide SnappedTo, PreRightTo, RecordedTo;
        var more :- SnapshotEntry(at, host, es, k, pre);
        if more.None? { return Ok(None); }
        pre := more.value;
        k := k + 1;
      }
      if Trusted(s, doubt) { PreRightToAll(s, pre, key); }
      PreMayBeKept(s, rec, world, doubt, pre);
      rec := rec.(attemptingPre := pre);
      :- Persist();
      return Ok(Some(pre));
    }

    /** One entry's fact, where it is observed, is read and added to what was read; none is a fact
        that could not be read, and one past the cap is an error. */
    method SnapshotEntry(at: AppliedStep, host: Host, es: seq<FootprintEntry>, k: nat, pre: map<string, Digest>) returns (r: Res<Option<map<string, Digest>>>)
      requires Ready() && es == Entries(s, at.AsKey()) && host == HostAt(s, at.AsKey()) && k < |es|
      requires Trusted(s, doubt) ==> HonestApp(s, at.AsKey()) && Clean(s, world, at.AsKey())
      requires Trusted(s, doubt) ==> SnappedTo(s, rec.snapshots, at.AsKey(), k) && PreRightTo(s, pre, at.AsKey(), k)
      requires RecordedTo(s, world, host, es, at.AsKey(), rec.snapshots, pre, k)
      modifies this`rec
      ensures Ready() && rec == old(rec).(snapshots := rec.snapshots)
      ensures r.Ok? && r.value.Some? && Trusted(s, doubt) ==>
        SnappedTo(s, rec.snapshots, at.AsKey(), k + 1) && PreRightTo(s, r.value.value, at.AsKey(), k + 1)
      ensures r.Ok? && r.value.Some? ==> RecordedTo(s, world, host, es, at.AsKey(), rec.snapshots, r.value.value, k + 1)
    {
      hide Kept, Holds, Settled, Trusted, Evidence, AllProtected, HonestApp, Clean, Entries, SnappedTo, PreRightTo, RecordedTo;
      var key := at.AsKey();
      ghost var snaps := rec.snapshots;
      if !Observed(es[k]) {
        if Trusted(s, doubt) { SkippedReaches(s, rec.snapshots, pre, key, k); }
        RecordedSkips(s, world, host, es, key, rec.snapshots, pre, k);
        return Ok(Some(pre));
      }
      var read := ReadFact(Fact(host, es[k].shape));
      if read.Err? { return Ok(None); }
      if read.value.Some? && |read.value.value| > SNAPSHOT_CAP && !es[k].kind.Owned? { return Err; }
      SnapshotFact(at, host, es, k, read.value);
      if Trusted(s, doubt) { SnapshotReaches(s, world, snaps, rec.snapshots, pre, key, k, read.value); }
      RecordedNext(s, world, host, es, key, snaps, rec.snapshots, pre, k);
      return Ok(Some(pre[es[k].shape := DigestOf(s.sha, read.value)]));
    }

    /** One fact read before `do`: a modified fact's, or a region's, bytes are kept. */
    method SnapshotFact(at: AppliedStep, host: Host, es: seq<FootprintEntry>, k: nat, read: Option<Bytes>)
      requires Ready() && es == Entries(s, at.AsKey()) && host == HostAt(s, at.AsKey())
      requires k < |es| && Observed(es[k]) && read == Value(world, Fact(host, es[k].shape))
      requires Trusted(s, doubt) ==> HonestApp(s, at.AsKey()) && Clean(s, world, at.AsKey())
      modifies this`rec
      ensures Ready() && rec == old(rec).(snapshots := rec.snapshots)
      ensures rec.snapshots ==
        if !es[k].kind.Owned? && read.Some? then old(rec).snapshots[SnapshotKey(at.AsKey(), k) := s.lossy(read.value)]
        else old(rec).snapshots
    {
      hide Kept, Holds, Settled, Trusted, Evidence, AllProtected, HonestApp, Clean, Entries;
      if (es[k].kind.Modified? || es[k].kind.Region?) && read.Some? {
        if Trusted(s, doubt) { NoRegions(s, at.AsKey()); }
        SnapshotKeeps(s, rec, world, doubt, at.AsKey(), k, read.value);
        rec := rec.(snapshots := rec.snapshots[SnapshotKey(at.AsKey(), k) := s.lossy(read.value)]);
      }
    }

    /** A failed step is itself undone at once, unless its `do` never took. If the undo fails
        too, the step stays in the applied set so the revert retries it. */
    method UndoOfFailed(at: AppliedStep, op: Op) returns (r: Res<bool>)
      requires InHand() && MidDo(s, rec, world, doubt, at, false) && OpAt(s.plan.body, at.step) == Some(op)
      modifies this
      ensures Sound() && Onward()
      ensures r.Ok? ==> Ready() && stored == rec && (rec == Dropped(old(rec)) || rec == Joined(old(rec), at))
      ensures r.Ok? && rec == Dropped(old(rec)) && Trusted(s, doubt) ==> Clean(s, world, at.AsKey())
    {
      hide Kept, Holds, Settled, Trusted, Evidence, AllProtected, Clean, Toward, GoesOn;
      GoesOnAlong();
      var pre := rec.attemptingPre;
      ghost var had, before := rec, world;
      if pre != map[] {
        hide MidDo;
        var same := UntouchedAttempt(at, op);
        if same {
          r := SkipUndo(at);
          return;
        }
      }
      r := UndoAttempt(at, op);
      DroppedIsNotJoined(had, at);
    }

    method SkipUndo(at: AppliedStep) returns (r: Res<bool>)
      requires InHand() && MidDo(s, rec, world, doubt, at, false)
      requires Trusted(s, doubt) ==> Clean(s, world, at.AsKey()) && Toward(s, world, world)
      modifies this`rec, this`stored, this`trail, this`moments, this`acts
      ensures Sound() && Onward() && acts == old(acts) + [Journaled(UndoSkipped(at.step), rec.backstop)]
      ensures r.Ok? ==> Ready() && stored == rec == Dropped(old(rec))
    {
      hide Kept, Holds, Settled, Trusted, Evidence, AllProtected, Clean, Toward, UndoneIn, GoesOn;
      GoesOnAlong();
      AttemptMayBeDropped(s, rec, world, world, doubt, at);
      rec := rec.(attempting := None, attemptingPre := map[]);
      :- Log(UndoSkipped(at.step));
      :- Persist();
      return Ok(true);
    }

    method UntouchedAttempt(at: AppliedStep, op: Op) returns (same: bool)
      requires InHand() && MidDo(s, rec, world, doubt, at, false) && OpAt(s.plan.body, at.step) == Some(op)
      requires rec.attemptingPre != map[]
      modifies this`doubt
      ensures InHand() && MidDo(s, rec, world, doubt, at, false) && Onward()
      ensures same && Trusted(s, doubt) ==> Clean(s, world, at.AsKey()) && Toward(s, world, world)
      ensures same ==> ReadsAsBefore(s, world, HostAt(s, at.AsKey()), rec.attemptingPre)
    {
      hide Kept, Holds, HonestThrough, AllProtected, Snapped, PreRight, Clean, ReadsAsBefore;
      same := Untouched(op, at.AsKey(), rec.attemptingPre);
    }

    method UndoAttempt(at: AppliedStep, op: Op) returns (r: Res<bool>)
      requires InHand() && MidDo(s, rec, world, doubt, at, false) && OpAt(s.plan.body, at.step) == Some(op)
      modifies this`rec, this`stored, this`world, this`trail, this`moments, this`acts
      ensures Sound() && Onward()
      ensures |acts| > |old(acts)| && acts[|old(acts)|].Undid? && acts[|old(acts)|].at == at
      ensures r.Ok? ==> Ready() && stored == rec && rec == if acts[|old(acts)|].result.Failed? then Joined(old(rec), at) else Dropped(old(rec))
      ensures r.Ok? && !acts[|old(acts)|].result.Failed? && Trusted(s, doubt) ==> Clean(s, world, at.AsKey())
    {
      hide Kept, Holds, Settled, Trusted, Evidence, AllProtected, Clean, Toward, UndoneIn, GoesOn;
      GoesOnAlong();
      GoesOnGrows();
      AttemptMayBeMarked(s, rec, world, doubt, at, false);
      ghost var had, before := rec, world;
      ghost var marked := rec.(applied := rec.applied + [at], attempting := None, attemptingPre := map[]);
      var undone := UndoStep(at, op, marked);
      if undone.Failed? {
        TowardKeepsInv(s, had, before, world, doubt);
        MidDoSurvives(s, had, before, world, doubt, at);
        AttemptMayBeMarked(s, had, world, doubt, at, false);
        rec := rec.(applied := rec.applied + [at], attempting := None, attemptingPre := map[]);
        :- Log(StepFailed(at.step));
      } else {
        NotHeldBack(s, had, before, doubt, at, undone);
        AttemptMayBeDropped(s, had, before, world, doubt, at);
        rec := rec.(attempting := None, attemptingPre := map[]);
      }
      :- Persist();
      return Ok(true);
    }

    /** A step whose `do` ran and failed: journaled, undone, refused. */
    method FailAfterDo(at: AppliedStep, op: Op, ev: JournalEvent) returns (r: Res<Flow>)
      requires InHand() && MidDo(s, rec, world, doubt, at, false) && OpAt(s.plan.body, at.step) == Some(op)
      requires !ev.StepApplying?
      modifies this
      ensures Sound() && Onward()
      ensures r.Ok? ==> r.value.Stop? && Halted() && stored == rec
      ensures r.Ok? ==> RefusedAs(s, old(rec).applied, at.step, rec) || RefusedAs(s, old(rec).applied + [at], at.step, rec)
    {
      hide Kept, Holds, Settled, Trusted, Evidence, AllProtected, MidDo, RefusedAs, GoesOn;
      GoesOnAlong();
      :- Log(ev);
      var _ :- UndoOfFailed(at, op);
      r := RefuseApplied(at.step);
    }

    /** The markers of a step's facts as `do` left them; false is a fact that could not be read. */
    method WriteMarkers(at: AppliedStep, host: Host, es: seq<FootprintEntry>) returns (r: Res<bool>)
      requires InHand() && MidDo(s, rec, world, doubt, at, false) && OpAt(s.plan.body, at.step).Some?
      modifies this`rec, this`stored, this`trail, this`moments
      ensures Sound() && Onward()
      ensures r.Ok? ==> InHand() && rec == old(rec).(markers := rec.markers)
      ensures r.Ok? && r.value ==> MidDo(s, rec, world, doubt, at, true)
      ensures r.Ok? && r.value ==> stored == rec && rec.markers == old(rec).markers[at.AsKey() := MarkersOf(s, world, host, es, |es|)]
      ensures r.Ok? && !r.value ==> rec == old(rec) && MidDo(s, rec, world, doubt, at, false)
    {
      hide Kept, Holds, Trusted, Evidence, AllProtected, GoesOn;
      GoesOnAlong();
      var ms: seq<Marker> := [];
      var k := 0;
      while k < |es|
        modifies {}
        invariant 0 <= k <= |es| && ms == MarkersOf(s, world, host, es, k)
      {
        if Observed(es[k]) {
          var read := ReadFact(Fact(host, es[k].shape));
          if read.Err? { return Ok(false); }
          ms := ms + [Marker(AddressOf(es[k].shape), DigestOf(s.sha, read.value))];
        }
        k := k + 1;
      }
      MarkersMayBeKept(s, rec, world, doubt, at, rec.markers[at.AsKey() := ms]);
      rec := rec.(markers := rec.markers[at.AsKey() := ms]);
      :- Persist();
      return Ok(true);
    }

    /** A step's `do` came back: it failed, or it left something out, or it is marked applied. */
    method AfterDo(at: AppliedStep, op: Op, host: Host, es: seq<FootprintEntry>, ran: bool) returns (r: Res<Flow>)
      requires InHand() && MidDo(s, rec, world, doubt, at, false) && OpAt(s.plan.body, at.step) == Some(op)
      modifies this
      ensures Sound() && Onward()
      ensures r.Ok? && r.value.Continue? ==> ran && Ready() && stored == rec && world == old(world)
      ensures r.Ok? && r.value.Continue? ==>
        rec == Joined(old(rec), at).(markers := old(rec).markers[at.AsKey() := MarkersOf(s, old(world), host, es, |es|)])
      ensures r.Ok? && r.value.Stop? ==> Halted() && stored == rec && StepStopped(s, old(rec).applied, at, rec)
    {
      hide Kept, Holds, Settled, Trusted, Evidence, AllProtected, MidDo, MarkersOf, RefusedAs, GoesOn;
      GoesOnAlong();
      // An error, or an output the step declared and did not produce.
      var silent: bool := *;
      if !ran || silent {
        r := FailAfterDo(at, op, StepFailed(at.step));
        return;
      }
      // A fact of another step that cannot be read, or that changed.
      var unreadable: bool := *;
      var violated: bool := *;
      if unreadable || violated {
        r := FailAfterDo(at, op, if unreadable then StepFailed(at.step) else Note("footprint violation"));
        return;
      }
      var marked :- WriteMarkers(at, host, es);
      if !marked {
        r := FailAfterDo(at, op, StepFailed(at.step));
        return;
      }
      r := FinishStep(at, op, true);
    }

    /** Mark the step applied, then its post guards. */
    method FinishStep(at: AppliedStep, op: Op, marked: bool) returns (r: Res<Flow>)
      requires InHand() && MidDo(s, rec, world, doubt, at, marked)
      modifies this`rec, this`stored, this`world, this`trail, this`moments, this`acts
      ensures Sound() && Onward()
      ensures r.Ok? && r.value.Continue? ==> Ready() && world == old(world) && stored == rec == Joined(old(rec), at)
      ensures r.Ok? && r.value.Continue? ==> PassedAt(s, acts, |old(acts)| + 1, op.post)
      ensures r.Ok? && r.value.Stop? ==> Halted() && stored == rec && StoppedAs(s, old(rec).applied + [at], at.step, rec)
    {
      hide Kept, Holds, Settled, Trusted, Evidence, AllProtected, MidDo, RefusedAs, PassedBy, GoesOn;
      GoesOnAlong();
      GoesOnGrows();
      :- Log(StepDone(at.step));
      // A secret the step produced is delivered here; delivery may be refused.
      if * { return Err; }
      AttemptMayBeMarked(s, rec, world, doubt, at, marked);
      rec := rec.(applied := rec.applied + [at], attempting := None, attemptingPre := map[]);
      :- Persist();
      var flow :- GuardsBlock(at.step, op.post, s.maxWait);
      if flow.Some? { return Ok(flow.value); }
      if * { return Err; }
      return Ok(Continue);
    }

    /** A step past the number the run is held to puts it in doubt. */
    ghost method Reaches(n: nat)
      requires InHand() && Begun(acts, n)
      modifies this`doubt
      ensures Onward() && InHand() && (Trusted(s, doubt) ==> doubt == old(doubt) && Upto(s, doubt.through, n))
      ensures doubt == old(doubt) || (old(doubt).Certain? && doubt == Past(n) && !Upto(s, through, n))
      ensures old(Settled(s, [Point(rec, world)], doubt)) ==> Settled(s, [Point(rec, world)], doubt)
    {
      hide Kept, Holds, Settled, HonestThrough, AllProtected;
      if Trusted(s, doubt) && !Upto(s, through, n) { Doubts(Past(n)); }
    }

    method Announce(at: AppliedStep) returns (d: Done)
      requires Ready() && Defended(s, at.step, rec.backstop)
      modifies this`acts, this`doubt
      ensures Sound() && Onward()
      ensures acts == old(acts) + [Journaled(StepApplying(at.step), rec.backstop)]
      ensures d.Pass? ==> Ready() && (Trusted(s, doubt) ==> Upto(s, doubt.through, at.step))
    {
      hide Kept, Holds, Settled, Trusted, Evidence, AllProtected, Defended, Upto, GoesOn;
      GoesOnAlong();
      d := Log(StepApplying(at.step));
      if d.Fail? { return; }
      JustBegun(acts, at.step);
      Reaches(at.step);
    }

    /** Announced, then named in flight by the store. */
    method WriteAhead(at: AppliedStep, op: Op) returns (d: Done)
      requires Ready() && Next(s, rec, at) && OpAt(s.plan.body, at.step) == Some(op)
      requires Defended(s, at.step, rec.backstop)
      modifies this`rec, this`stored, this`trail, this`moments, this`acts, this`doubt
      ensures Sound() && Onward()
      ensures |acts| == |old(acts)| + 1 && acts[|old(acts)|] == Journaled(StepApplying(at.step), old(rec).backstop)
      ensures d.Pass? ==> Ready() && stored == rec == old(rec).(attempting := Some(at))
      ensures d.Pass? && Trusted(s, doubt) ==> Upto(s, doubt.through, at.step)
      ensures d.Pass? && Trusted(s, doubt) ==> HonestApp(s, at.AsKey()) && Clean(s, world, at.AsKey()) && at.AsKey() !in rec.markers
    {
      hide Kept, Holds, Settled, Trusted, Evidence, AllProtected, Defended, HonestApp, Clean, Upto, GoesOn;
      GoesOnAlong();
      d := Announce(at);
      if d.Fail? { return; }
      AttemptMayBegin(s, rec, world, doubt, at);
      rec := rec.(attempting := Some(at));
      d := Persist();
    }

    /** Write ahead, snapshot, run. */
    method Attempt(at: AppliedStep, op: Op) returns (r: Res<Flow>)
      requires Ready() && Next(s, rec, at) && OpAt(s.plan.body, at.step) == Some(op)
      requires Defended(s, at.step, rec.backstop) && InstalledFor(s, at.step, rec.backstop)
      modifies this
      ensures Sound() && Onward()
      ensures |acts| > |old(acts)| && acts[|old(acts)|] == Journaled(StepApplying(at.step), old(rec).backstop)
      ensures r.Ok? && r.value.Continue? ==> Ready() && stored == rec && rec.applied == old(rec).applied + [at] && rec.choices == old(rec).choices
      ensures r.Ok? && r.value.Continue? ==> BeganIn(acts, |old(acts)| + 1, at)
      ensures r.Ok? && r.value.Stop? ==> Halted() && stored == rec && StepStopped(s, old(rec).applied, at, rec)
    {
      hide Kept, Holds, Settled, Trusted, Evidence, AllProtected, Defended, InstalledFor, HonestApp, Clean, RefusedAs, Upto, GoesOn;
      GoesOnAlong();
      GoesOnGrows();
      :- WriteAhead(at, op);
      // The instance directory on the host.
      if * {
        r := RefuseStep(at.step);
        return;
      }
      var host := StepHost(s.plan.owner, op);
      var concrete := s.concrete(op, at.vars);
      if host.None? || concrete.None? {
        r := RefuseStep(at.step);
        return;
      }
      r := AttemptOn(at, op, host.value, concrete.value);
    }

    method AttemptOn(at: AppliedStep, op: Op, host: Host, es: seq<FootprintEntry>) returns (r: Res<Flow>)
      requires Ready() && rec.attempting == Some(at) && Next(s, rec, at) && OpAt(s.plan.body, at.step) == Some(op)
      requires es == Entries(s, at.AsKey()) && host == HostAt(s, at.AsKey())
      requires Trusted(s, doubt) ==> HonestApp(s, at.AsKey()) && Clean(s, world, at.AsKey()) && Upto(s, doubt.through, at.step)
      requires Trusted(s, doubt) ==> at.AsKey() !in rec.markers
      requires InstalledFor(s, at.step, rec.backstop)
      modifies this
      ensures Sound() && Onward()
      ensures r.Ok? && r.value.Continue? ==> Ready() && stored == rec && rec.applied == old(rec).applied + [at] && rec.choices == old(rec).choices
      ensures r.Ok? && r.value.Continue? ==> BeganIn(acts, |old(acts)|, at)
      ensures r.Ok? && r.value.Stop? ==> Halted() && stored == rec && StepStopped(s, old(rec).applied, at, rec)
    {
      hide Kept, Holds, Settled, Trusted, Evidence, AllProtected, InstalledFor, HonestApp, Clean, Snapped, PreRight, MidDo, RefusedAs, Upto, Recorded, Planned, GoesOn;
      GoesOnAlong();
      GoesOnGrows();
      var pre :- Snapshot(at, host, es);
      var missing: bool := *;
      if pre.None? && missing {
        // Nothing was read, and a secret or a reference is missing besides.
        r := RefuseStep(at.step);
        return;
      }
      // A fact the step must leave alone that cannot be read refuses it too.
      var watched: bool := *;
      if pre.None? || !watched {
        AttemptMayBeWithdrawn(s, rec, world, doubt);
        rec := rec.(attempting := None, attemptingPre := map[]);
        r := RefuseStep(at.step);
        return;
      }
      // A secret the body names, or a reference in it, that nothing resolves.
      if * {
        r := RefuseStep(at.step);
        return;
      }
      r := RunAttempt(at, op, host, es);
    }

    /** Everything is kept: `do` runs, and what came of it is dealt with. */
    method RunAttempt(at: AppliedStep, op: Op, host: Host, es: seq<FootprintEntry>) returns (r: Res<Flow>)
      requires Ready() && stored == rec && rec.attempting == Some(at) && Next(s, rec, at) && OpAt(s.plan.body, at.step) == Some(op)
      requires Recorded(s, at.AsKey(), rec.snapshots, rec.attemptingPre) && InstalledFor(s, at.step, rec.backstop)
      requires Trusted(s, doubt) ==>
        Upto(s, doubt.through, at.step) && Snapped(s, rec.snapshots, at.AsKey()) && PreRight(s, rec.attemptingPre, at.AsKey())
      modifies this
      ensures Sound() && Onward()
      ensures |acts| > |old(acts)| && acts[|old(acts)|] == Began(at, old(rec))
      ensures r.Ok? && r.value.Continue? ==> Ready() && stored == rec && rec.applied == old(rec).applied + [at] && rec.choices == old(rec).choices
      ensures r.Ok? && r.value.Stop? ==> Halted() && stored == rec && StepStopped(s, old(rec).applied, at, rec)
    {
      hide Kept, Holds, Settled, Trusted, Evidence, AllProtected, InstalledFor, Snapped, PreRight, MidDo, StepStopped, Upto, Recorded, Planned, GoesOn;
      GoesOnAlong();
      GoesOnGrows();
      DoMayStart(s, rec, world, doubt, at, op);
      NextIsWrittenAhead(s, rec, world, doubt, at);
      Acted(Began(at, stored));
      ghost var before := world;
      var ran := RunDo(at.AsKey());
      MidDoSurvives(s, rec, before, world, doubt, at);
      r := AfterDo(at, op, host, es, ran);
    }

    /** The checks before a step is attempted: its host, its gate, its guards, its knell. */
    method RunStep(at: AppliedStep, st: StepI, knell: bool) returns (r: Res<Flow>)
      requires Ready() && Next(s, rec, at) && OpAt(s.plan.body, at.step) == Some(st.op)
      requires Defended(s, at.step, rec.backstop) && InstalledFor(s, at.step, rec.backstop)
      modifies this
      ensures Sound() && Onward()
      ensures r.Ok? && r.value.Continue? ==> Ready() && stored == rec && rec.applied == old(rec).applied + [at] && rec.choices == old(rec).choices
      ensures r.Ok? && r.value.Continue? ==>
        && PassedAt(s, acts, |old(acts)|, st.op.pre)
        && (knell ==> KnellPassedAt(s, acts, |old(acts)| + |st.op.pre|, st.op.refusal))
        && BeganIn(acts, |old(acts)| + |st.op.pre|, at)
      ensures r.Ok? && r.value.Stop? ==> Halted() && stored == rec && StepStopped(s, old(rec).applied, at, rec)
    {
      hide Kept, Holds, Settled, Trusted, Evidence, AllProtected, Defended, InstalledFor, RefusedAs, PassedBy, GoesOn;
      GoesOnAlong();
      GoesOnGrows();
      var flow :- StepBlocks(at, st);
      if flow.Some? { return Ok(flow.value); }
      flow :- GuardsBlock(at.step, st.op.pre, s.maxWait);
      if flow.Some? { return Ok(flow.value); }
      if knell {
        r := RunKnell(at, st);
      } else {
        r := Attempt(at, st.op);
      }
    }

    /** A step no transport reaches is deferred, one its host cannot undo is refused, and one whose
        gate is not open waits. */
    method StepBlocks(at: AppliedStep, st: StepI) returns (r: Res<Option<Flow>>)
      requires Ready() && Next(s, rec, at) && OpAt(s.plan.body, at.step) == Some(st.op)
      modifies this`rec, this`stored, this`world, this`trail, this`moments, this`acts
      ensures Sound() && Onward()
      ensures r == Ok(None) ==> unchanged(this) && StepHost(s.plan.owner, st.op).Some?
      ensures r.Ok? && r.value.Some? ==> r.value.value.Stop? && Halted() && stored == rec && StoppedAs(s, old(rec).applied, at.step, rec)
      ensures r.Ok? && StepHost(s.plan.owner, st.op).None? ==> stored == rec == old(rec).(deferred := Some(at), state := State.Deferred)
    {
      hide Kept, Holds, Settled, Trusted, Evidence, AllProtected, RefusedAs, GoesOn, Planned;
      GoesOnAlong();
      var reachable, filesystem, satisfied: bool := *, *, *;
      var flow: Flow;
      if StepHost(s.plan.owner, st.op).None? || !reachable {
        flow :- Defer(at);
      } else if st.op.undoLocus.OnTarget? && !filesystem {
        flow :- RefuseStep(at.step);
      } else if st.gate.Some? && !satisfied {
        flow :- WaitForGate(at.step, st);
      } else {
        return Ok(None);
      }
      return Ok(Some(flow));
    }

    method WaitForGate(n: nat, st: StepI) returns (r: Res<Flow>)
      requires Ready()
      modifies this`rec, this`stored, this`trail, this`moments, this`acts
      ensures Sound() && Onward()
      ensures r.Ok? ==> r.value.Stop? && Halted() && stored == rec && rec == old(rec).(state := Waiting, waiting := rec.waiting)
      ensures r.Ok? ==> WaitsAt(rec.waiting, n, OrElse(st.window, s.maxWait), false)
    {
      hide Kept, Holds, Settled, Trusted, Evidence, AllProtected, WaitsAt, GoesOn;
      GoesOnAlong();
      :- Log(Note("gate or acknowledgement requested"));
      r := WaitFor(n, OrElse(st.window, s.maxWait), false);
    }

    method RunKnell(at: AppliedStep, st: StepI) returns (r: Res<Flow>)
      requires Ready() && Next(s, rec, at) && OpAt(s.plan.body, at.step) == Some(st.op)
      requires Defended(s, at.step, rec.backstop) && InstalledFor(s, at.step, rec.backstop)
      modifies this
      ensures Sound() && Onward()
      ensures r.Ok? && r.value.Continue? ==> Ready() && stored == rec && rec.applied == old(rec).applied + [at] && rec.choices == old(rec).choices
      ensures r.Ok? && r.value.Continue? ==> KnellPassedAt(s, acts, |old(acts)|, st.op.refusal) && BeganIn(acts, |old(acts)|, at)
      ensures r.Ok? && r.value.Stop? ==> Halted() && stored == rec && StepStopped(s, old(rec).applied, at, rec)
    {
      hide Kept, Holds, Settled, Trusted, Evidence, AllProtected, Defended, InstalledFor, RefusedAs, PassedBy, GoesOn;
      GoesOnAlong();
      GoesOnGrows();
      var flow :- KnellBlocks(at.step, st);
      if flow.Some? { return Ok(flow.value); }
      r := Attempt(at, st.op);
    }

    /** A knell's guard, the measuring of its cost, and its acknowledgement. */
    method KnellBlocks(n: nat, st: StepI) returns (r: Res<Option<Flow>>)
      requires Ready()
      modifies this`rec, this`stored, this`world, this`trail, this`moments, this`acts
      ensures Sound() && Onward()
      ensures r == Ok(None) ==> Ready() && rec == old(rec) && stored == old(stored) && world == old(world)
      ensures r == Ok(None) ==> KnellPassedAt(s, acts, |old(acts)|, st.op.refusal)
      ensures r.Ok? && r.value.Some? ==> r.value.value.Stop? && Halted() && stored == rec && StoppedAs(s, old(rec).applied, n, rec)
    {
      hide Kept, Holds, Settled, Trusted, Evidence, AllProtected, RefusedAs, GoesOn;
      GoesOnAlong();
      GoesOnGrows();
      if !st.op.refusal.PointOfNoReturn? { return Ok(None); }
      if st.op.refusal.guard.Some? {
        r := GuardBlocks(n, st.op.refusal.guard.value, s.maxWait);
        if r != Ok(None) { return; }
      }
      r := AckBlocks(n, st);
    }

    /** The cost is measured where the acknowledgement is asked for; a knell is not acknowledged
        blind. */
    method AckBlocks(n: nat, st: StepI) returns (r: Res<Option<Flow>>)
      requires Ready() && st.op.refusal.PointOfNoReturn?
      modifies this`rec, this`stored, this`world, this`trail, this`moments, this`acts
      ensures Sound() && Onward()
      ensures r == Ok(None) ==> Ready() && rec == old(rec) && stored == old(stored) && world == old(world)
      ensures r == Ok(None) && st.op.refusal.ack.AckGate? ==> AcknowledgedAt(acts, |old(acts)|, st.op.refusal.cost)
      ensures r.Ok? && r.value.Some? ==> r.value.value.Stop? && Halted() && stored == rec && StoppedAs(s, old(rec).applied, n, rec)
    {
      hide Kept, Holds, Settled, Trusted, Evidence, AllProtected, RefusedAs, GoesOn;
      GoesOnAlong();
      if !st.op.refusal.ack.AckGate? { return Ok(None); }
      var measured, acked: bool := *, *;
      var flow: Flow;
      if st.op.refusal.cost.Probe? && !measured {
        flow :- RefuseStep(n);
      } else if !acked {
        flow :- WaitForGate(n, st);
      } else {
        :- Log(KnellAcknowledged(measured));
        return Ok(None);
      }
      return Ok(Some(flow));
    }

    // --- the backstop ------------------------------------------------------------

    /** The one host of the covered steps; not `ok` when they name two, or one bound at runtime. */
    method BackstopHost(covered: seq<nat>) returns (ok: bool, found: Option<Host>)
      ensures ok ==> forall i :: 0 <= i < |covered| && OpAt(s.plan.body, covered[i]).Some? ==>
        found.Some? && StepHost(s.plan.owner, OpAt(s.plan.body, covered[i]).value) == found
    {
      found := None;
      var i := 0;
      while i < |covered|
        modifies {}
        invariant 0 <= i <= |covered|
        invariant forall j :: 0 <= j < i && OpAt(s.plan.body, covered[j]).Some? ==>
          found.Some? && StepHost(s.plan.owner, OpAt(s.plan.body, covered[j]).value) == found
      {
        var op := OpAt(s.plan.body, covered[i]);
        if op.Some? {
          var h := StepHost(s.plan.owner, op.value);
          if h.None? || (found.Some? && found != h) { return false, None; }
          found := h;
        }
        i := i + 1;
      }
      ok := true;
    }

    /** The record's backstop, in hand and in the store. */
    method KeepBackstop(b: BackstopState) returns (d: Done)
      requires InHand()
      modifies this`rec, this`stored, this`trail, this`moments
      ensures Sound() && Onward()
      ensures d.Pass? ==> InHand() && rec == stored == old(rec).(backstop := Some(b))
      ensures d.Pass? && Settled(s, [Point(old(rec), world)], doubt) ==> Settled(s, [Point(rec, world)], doubt)
    {
      hide Kept, Holds, Trusted, Evidence, Settled, AllProtected, GoesOn;
      GoesOnAlong();
      SameCoreKeeps(s, rec, rec.(backstop := Some(b)), world, doubt);
      rec := rec.(backstop := Some(b));
      d := Persist();
    }

    /** Put the artifact and its scheduler entry on the host; false is a refusal of the step. */
    method BackstopInstall(cov: Coverage) returns (r: Res<bool>)
      requires Ready() && CoverageOf(s.plan) == Some(cov) && cov.covered != []
      modifies this`rec, this`stored, this`trail, this`moments
      ensures Sound() && Onward()
      ensures r.Ok? ==> Ready() && rec == old(rec).(backstop := rec.backstop) && (stored == old(stored) || stored == rec)
      ensures r.Ok? && r.value ==> rec.backstop.Some? && rec.backstop.value.installed
    {
      hide Kept, Holds, Trusted, Evidence, Settled, AllProtected, GoesOn;
      GoesOnAlong();
      if rec.backstop.Some? && rec.backstop.value.installed { return Ok(true); }
      var ok, host := BackstopHost(cov.covered);
      if !ok { return Ok(false); }
      CoveredHaveOps(s.plan);
      assert OpAt(s.plan.body, cov.covered[0]).Some?;
      // The directory, the artifact, the entry, and the scheduler's word that it is there.
      var placed: bool := *;
      if !placed { return Ok(false); }
      :- KeepBackstop(BackstopState(true, false, None, false, false));
      return Ok(true);
    }

    /** Write the deadline and the heartbeat the artifact reads; false is a refusal. */
    method BackstopArm(now: Seconds) returns (r: Res<bool>)
      requires Ready() && s.plan.backstop.Some?
      modifies this`rec, this`stored, this`trail, this`moments
      ensures Sound() && Onward()
      ensures r.Ok? ==> Ready() && rec == old(rec).(backstop := rec.backstop) && (stored == old(stored) || stored == rec)
      ensures r.Ok? && r.value && old(rec).backstop.Some? && old(rec).backstop.value.installed ==> Live(rec.backstop)
    {
      hide Kept, Holds, Trusted, Evidence, Settled, AllProtected, GoesOn;
      GoesOnAlong();
      if rec.backstop.None? || rec.backstop.value.armed || !rec.backstop.value.installed { return Ok(true); }
      var schedule := FillSchedule(s.plan.backstop.value.triggers, now, rec.deadline);
      // Modes, the target's clock, the files, the scheduler.
      var armed: bool := *;
      if !armed { return Ok(false); }
      :- KeepBackstop(rec.backstop.value.(armed := true, deadline := schedule.deadline));
      return Ok(true);
    }

    /** Take the deadline away, and with `all`, or no heartbeat to serve, the entry itself. */
    method BackstopDisarm(all: bool) returns (r: Res<bool>)
      requires InHand()
      modifies this`rec, this`stored, this`trail, this`moments
      ensures Sound() && Onward()
      ensures r.Ok? ==> InHand() && rec == old(rec).(backstop := rec.backstop)
      ensures r.Ok? && Settled(s, [Point(old(rec), world)], doubt) ==> Settled(s, [Point(rec, world)], doubt)
      ensures r.Ok? ==> stored == old(stored) || stored == rec
      ensures r.Ok? && r.value ==> DisarmedFrom(s, all, old(rec).backstop, rec.backstop)
    {
      hide Kept, Holds, Trusted, Evidence, Settled, AllProtected, GoesOn;
      GoesOnAlong();
      if rec.backstop.None? || !rec.backstop.value.installed { return Ok(true); }
      var whole := all || s.plan.backstop.None? || !ServesHeartbeat(s.plan.backstop.value.triggers);
      var taken: bool := *;
      if !taken { return Ok(false); }
      var b := rec.backstop.value;
      :- KeepBackstop(b.(confirmed := true, armed := b.armed && !whole, installed := !whole));
      return Ok(true);
    }

    /** No step is announced before the backstop covering it is installed and, where `arm_before`
        says so, armed. */
    method BackstopBeforeLeaf(n: nat) returns (r: Res<Option<Flow>>)
      requires Ready()
      modifies this`rec, this`stored, this`world, this`trail, this`moments, this`acts
      ensures Sound() && Onward()
      ensures r == Ok(None) ==> Ready() && rec == old(rec).(backstop := rec.backstop) && acts == old(acts)
      ensures r == Ok(None) ==> Defended(s, n, rec.backstop) && InstalledFor(s, n, rec.backstop)
      ensures r.Ok? && r.value.Some? ==> r.value.value.Stop? && Halted() && stored == rec && RefusedAs(s, old(rec).applied, n, rec)
    {
      hide Kept, Holds, Trusted, Evidence, Settled, AllProtected, Defended, InstalledFor, RefusedAs, GoesOn;
      GoesOnAlong();
      var cov := CoverageOf(s.plan);
      if cov.None? || cov.value.covered == [] {
        CoveredAndDue(s, n, rec.backstop);
        return Ok(None);
      }
      var due := cov.value.installedBefore.Some? && n >= cov.value.installedBefore.value;
      if due {
        var installed :- BackstopInstall(cov.value);
        if !installed {
          var flow :- RefuseStep(n);
          return Ok(Some(flow));
        }
      }
      if n >= cov.value.armedBeforeStep {
        var now: Seconds := *;
        var armed :- BackstopArm(if now >= 0 then now else 0);
        if !armed {
          var flow :- RefuseStep(n);
          return Ok(Some(flow));
        }
      }
      CoveredAndDue(s, n, rec.backstop);
      return Ok(None);
    }

    /** Late arming, once every leaf is done. */
    method BackstopAfterWalk(now: Seconds) returns (r: Res<Flow>)
      requires Ready()
      modifies this`rec, this`stored, this`world, this`trail, this`moments, this`acts
      ensures Sound() && Onward()
      ensures r.Ok? && r.value.Continue? ==> Ready() && rec == old(rec).(backstop := rec.backstop)
      ensures r.Ok? && r.value.Continue? && CoverageOf(s.plan).Some? && CoverageOf(s.plan).value.covered != [] ==>
        rec.backstop.Some? && rec.backstop.value.armed
      ensures r.Ok? && r.value.Stop? ==>
        CoverageOf(s.plan).Some? && Halted() && stored == rec && RefusedAs(s, old(rec).applied, CoverageOf(s.plan).value.armedBeforeStep, rec)
    {
      hide Kept, Holds, Trusted, Evidence, Settled, AllProtected, GoesOn;
      GoesOnAlong();
      var cov := CoverageOf(s.plan);
      if cov.None? || cov.value.covered == [] || (rec.backstop.Some? && rec.backstop.value.armed) { return Ok(Continue); }
      var installed :- BackstopInstall(cov.value);
      if !installed {
        r := RefuseStep(cov.value.armedBeforeStep);
        return;
      }
      var armed :- BackstopArm(now);
      if !armed {
        r := RefuseStep(cov.value.armedBeforeStep);
        return;
      }
      return Ok(Continue);
    }

    // --- the walk ------------------------------------------------------------------

    method MarkLeaf(at: AppliedStep) returns (r: Res<Flow>)
      requires Ready() && Next(s, rec, at)
      requires OpAt(s.plan.body, at.step).None? && LeafAt(s.plan.body, at.step) != Some(Commit)
      modifies this`rec, this`stored, this`trail, this`moments
      ensures Sound() && Onward()
      ensures r.Ok? ==> r.value.Continue? && Ready() && stored == rec == Joined(old(rec), at)
    {
      hide Kept, Holds, Trusted, Evidence, Settled, AllProtected, GoesOn;
      GoesOnAlong();
      LeafMayBeMarked(s, rec, world, doubt, at);
      rec := rec.(applied := rec.applied + [at], attempting := None, attemptingPre := map[]);
      :- Persist();
      return Ok(Continue);
    }

    /** One leaf, which is always the next application of the unrolling. */
    method RunLeaf(at: AppliedStep, it: Item) returns (r: Res<Flow>)
      requires Ready() && Next(s, rec, at) && LeafAt(s.plan.body, at.step) == Some(it) && !Container(it)
      modifies this
      ensures Sound() && Onward()
      ensures r.Ok? && r.value.Continue? ==> Ready() && stored == rec && rec.applied == old(rec).applied + [at] && rec.choices == old(rec).choices
      ensures r.Ok? && r.value.Continue? ==> GuardsPassed(s, acts, |old(acts)|, it)
      ensures r.Ok? && r.value.Continue? && OpOf(it).Some? ==> BeganIn(acts, |old(acts)|, at)
      ensures r.Ok? && r.value.Stop? ==> Halted() && stored == rec && ((it.Commit? && rec.state.Committed?) || StepStopped(s, old(rec).applied, at, rec))
    {
      hide Kept, Holds, Settled, Trusted, Evidence, AllProtected, Defended, InstalledFor, LeafAt, StepStopped, GuardsPassed, BeganIn, Planned, GoesOn;
      GoesOnAlong();
      var flow :- BackstopBeforeLeaf(at.step);
      if flow.Some? {
        RefusedStops(s, old(rec).applied, at, rec);
        return Ok(flow.value);
      }
      r := RunDefended(at, it);
    }

    method RunDefended(at: AppliedStep, it: Item) returns (r: Res<Flow>)
      requires Ready() && Next(s, rec, at) && LeafAt(s.plan.body, at.step) == Some(it) && !Container(it)
      requires Defended(s, at.step, rec.backstop) && InstalledFor(s, at.step, rec.backstop)
      modifies this
      ensures Sound() && Onward()
      ensures r.Ok? && r.value.Continue? ==> Ready() && stored == rec && rec.applied == old(rec).applied + [at] && rec.choices == old(rec).choices
      ensures r.Ok? && r.value.Continue? ==> GuardsPassed(s, acts, |old(acts)|, it)
      ensures r.Ok? && r.value.Continue? && OpOf(it).Some? ==> BeganIn(acts, |old(acts)|, at)
      ensures r.Ok? && r.value.Stop? ==> Halted() && stored == rec && ((it.Commit? && rec.state.Committed?) || StepStopped(s, old(rec).applied, at, rec))
    {
      hide Kept, Holds, Settled, Trusted, Evidence, AllProtected, Defended, InstalledFor, LeafAt, RefusedAs, PassedBy, GoesOn;
      GoesOnAlong();
      match it {
        case Step(st) => r := RunStep(at, st, false);
        case Knell(st) => r := RunStep(at, st, true);
        case Confirm => r := ConfirmLeaf(at);
        case Commit => r := CommitLeaf();
        case Observe(_, _) =>
          var read: bool := *;
          if read { r := MarkLeaf(at); } else { r := RefuseStep(at.step); }
        case Preflight(guards) => r := GuardedLeaf(at, guards, s.maxWait);
        case Assert(g, window, _) => r := GuardedLeaf(at, [g], OrElse(window, s.maxWait));
        case _ => r := Err;
      }
    }

    method GuardedLeaf(at: AppliedStep, gs: seq<Guard>, bound: Option<Seconds>) returns (r: Res<Flow>)
      requires Ready() && Next(s, rec, at)
      requires OpAt(s.plan.body, at.step).None? && LeafAt(s.plan.body, at.step) != Some(Commit)
      modifies this`rec, this`stored, this`world, this`trail, this`moments, this`acts
      ensures Sound() && Onward()
      ensures r.Ok? && r.value.Continue? ==> Ready() && stored == rec == Joined(old(rec), at)
      ensures r.Ok? && r.value.Continue? ==> PassedAt(s, acts, |old(acts)|, gs)
      ensures r.Ok? && r.value.Stop? ==> Halted() && stored == rec && StoppedAs(s, old(rec).applied, at.step, rec)
      ensures r.Ok? && r.value.Stop? ==> exists k :: 0 <= k < |gs| && BlockedAt(s, acts, |old(acts)|, gs, k)
    {
      hide Kept, Holds, Settled, Trusted, Evidence, AllProtected, LeafAt, RefusedAs, PassedBy, GoesOn;
      GoesOnAlong();
      GoesOnGrows();
      var flow :- GuardsBlock(at.step, gs, bound);
      if flow.Some? { return Ok(flow.value); }
      r := MarkLeaf(at);
    }

    method ConfirmLeaf(at: AppliedStep) returns (r: Res<Flow>)
      requires Ready() && Next(s, rec, at)
      requires OpAt(s.plan.body, at.step).None? && LeafAt(s.plan.body, at.step) != Some(Commit)
      modifies this`rec, this`stored, this`world, this`trail, this`moments, this`acts
      ensures Sound() && Onward()
      ensures r.Ok? ==> s.permanent
      ensures r.Ok? && r.value.Continue? ==> Ready() && stored == rec == Joined(old(rec), at).(backstop := rec.backstop)
      ensures r.Ok? && r.value.Continue? ==> DisarmedFrom(s, false, old(rec).backstop, rec.backstop)
      ensures r.Ok? && r.value.Stop? ==> Halted() && stored == rec && RefusedAs(s, old(rec).applied, at.step, rec)
    {
      hide Kept, Holds, Settled, Trusted, Evidence, AllProtected, LeafAt, Transition, CtxOf, RefusedAs, DisarmedFrom, UndoneIn, GoesOn;
      GoesOnAlong();
      FromApplying(s, rec);
      var _ :- Step(ConfirmEvent);
      var disarmed :- BackstopDisarm(false);
      if !disarmed {
        r := RefuseStep(at.step);
        return;
      }
      :- Log(Note("confirmed"));
      r := MarkLeaf(at);
    }

    /** An end is journaled, the backstop is disarmed, or a failure to is journaled too. */
    method Conclude(ended: JournalEvent, left: JournalEvent) returns (d: Done)
      requires InHand() && !rec.state.Applying? && ended.Note? && left.Note?
      modifies this`rec, this`stored, this`trail, this`moments, this`acts
      ensures Sound() && Onward()
      ensures d.Pass? ==> Halted() && stored == rec == old(rec).(backstop := rec.backstop)
    {
      hide Kept, Holds, Trusted, Evidence, AllProtected, DisarmedFrom, GoesOn;
      GoesOnAlong();
      d := Log(ended);
      if d.Fail? { return; }
      var disarmed := BackstopDisarm(true);
      if disarmed.Err? { return Done.Fail; }
      d := LogUnless(disarmed.value, left);
      if d.Fail? { return; }
      d := Persist();
    }

    method CommitLeaf() returns (r: Res<Flow>)
      requires Ready()
      modifies this`rec, this`stored, this`world, this`trail, this`moments, this`acts
      ensures Sound() && Onward()
      ensures r.Ok? ==> s.permanent && r.value.Stop? && Halted() && stored == rec == old(rec).(state := Committed, backstop := rec.backstop)
    {
      hide Kept, Holds, Settled, Trusted, Evidence, AllProtected, Transition, CtxOf, HoldsEarlier, GoesOn;
      GoesOnAlong();
      FromApplying(s, rec);
      if s.permanent { RestedMayMove(s, rec, world, doubt, Committed); }
      var _ :- Step(CommitItem);
      :- Conclude(Note("committed"), Note("refused"));
      return Ok(Stop);
    }

    /** Walk some items from leaf `leaf` on, skipping what is applied. */
    method WalkItems(items: seq<Item>, iteration: nat, leaf: nat, vars: Vars, ghost walked: seq<AppliedStep>) returns (r: Res<Flow>, next: nat)
      requires Ready() && Placed(s, items, leaf)
      requires FitsItems(s, rec.choices, walked, items, iteration, leaf, vars) && walked <= rec.applied
      modifies this
      ensures Sound() && Onward()
      ensures r.Ok? && r.value.Continue? ==>
        && Ready() && Extends(old(rec).choices, rec.choices)
        && Unroll(s.lists, items, iteration, leaf, vars, rec.choices).whole
        && walked + Unroll(s.lists, items, iteration, leaf, vars, rec.choices).apps <= rec.applied
        && next == leaf + LeafCount(items)
      ensures r.Ok? && r.value.Stop? ==> Halted()
      decreases items, 1, 0
    {
      hide Kept, Holds, Trusted, Evidence, Settled, AllProtected, FitsItems, FitsItem, Reached, Placed, PlacedItem, Unroll, UnrollItem, LeafCount, LeafCountOf, GoesOn;
      GoesOnAlong();
      next := leaf;
      ghost var done: seq<AppliedStep> := [];
      StartReached(s, rec.choices, items, iteration, leaf, vars);
      NoLeavesYet(items);
      assert walked + done == walked;
      var i := 0;
      while i < |items|
        invariant 0 <= i <= |items|
        invariant Ready() && Onward() && Extends(old(rec).choices, rec.choices)
        invariant FitsItems(s, rec.choices, walked, items, iteration, leaf, vars)
        invariant Reached(s, rec.choices, items, iteration, leaf, vars, done, i, next)
        invariant walked + done <= rec.applied
        invariant next == leaf + LeafCount(items[..i])
      {
        PlacedAt(s, items, leaf, i);
        ReachedFits(s, rec.choices, walked, items, iteration, leaf, vars, done, i, next);
        ghost var ch := rec.choices;
        var flow, after := WalkItem(items[i], iteration, next, vars, walked + done);
        if flow.Err? || flow.value.Stop? { return flow, after; }
        ReachedNext(s, ch, rec.choices, items, iteration, leaf, vars, done, i, next);
        FitsItemsLater(s, ch, rec.choices, walked, items, iteration, leaf, vars);
        ghost var here := UnrollItem(s.lists, items[i], iteration, next, vars, rec.choices).apps;
        assert walked + done + here == walked + (done + here);
        done := done + here;
        next := after;
        i := i + 1;
      }
      assert items[..|items|] == items;
      ReachedEnd(s, rec.choices, items, iteration, leaf, vars, done, next);
      r := Ok(Continue);
    }

    method WalkItem(it: Item, iteration: nat, leaf: nat, vars: Vars, ghost walked: seq<AppliedStep>) returns (r: Res<Flow>, next: nat)
      requires Ready() && PlacedItem(s, it, leaf)
      requires FitsItem(s, rec.choices, walked, it, iteration, leaf, vars) && walked <= rec.applied
      modifies this
      ensures Sound() && Onward()
      ensures r.Ok? && r.value.Continue? ==>
        && Ready() && Extends(old(rec).choices, rec.choices)
        && UnrollItem(s.lists, it, iteration, leaf, vars, rec.choices).whole
        && walked + UnrollItem(s.lists, it, iteration, leaf, vars, rec.choices).apps <= rec.applied
        && next == leaf + LeafCountOf(it)
      ensures r.Ok? && r.value.Stop? ==> Halted()
      decreases it, 2, 0
    {
      hide Kept, Holds, Trusted, Evidence, Settled, AllProtected, FitsItems, FitsItem, Placed, PlacedItem, Unroll, UnrollRepeat, LeafCount, LeafAt, ValuesOf, GoesOn;
      GoesOnAlong();
      PlacedInside(s, it, leaf);
      match it {
        case Par(children) =>
          ArmFits(s, rec.choices, walked, it, iteration, leaf, vars);
          r, next := WalkItems(children, iteration, leaf, vars, walked);
        case Repeat(form, _, body) =>
          // A list the engine must observe may not answer.
          if * { return Err, leaf; }
          r := WalkRepeat(it, ValuesOf(s.lists, form, vars), iteration, leaf, vars, walked);
          next := leaf + LeafCount(body);
        case When(_, _, _, _, _) =>
          r, next := WalkWhen(it, iteration, leaf, vars, walked);
        case _ =>
          r := WalkLeaf(it, AppliedStep(leaf, iteration, vars), walked);
          next := leaf + 1;
      }
    }

    method WalkLeaf(it: Item, at: AppliedStep, ghost walked: seq<AppliedStep>) returns (r: Res<Flow>)
      requires Ready() && LeafAt(s.plan.body, at.step) == Some(it) && !Container(it)
      requires FitsItem(s, rec.choices, walked, it, at.iteration, at.step, at.vars) && walked <= rec.applied
      modifies this
      ensures Sound() && Onward()
      ensures r.Ok? && r.value.Continue? ==> Ready() && rec.choices == old(rec).choices && walked + [at] <= rec.applied
      ensures r.Ok? && r.value.Stop? ==> Halted()
    {
      hide Kept, Holds, Trusted, Evidence, Settled, AllProtected, LeafAt, FitsItem, GoesOn;
      GoesOnAlong();
      LeafIsNext(s, rec, world, doubt, walked, it, at);
      if IsApplied(rec, at.step, at.iteration, at.vars) { return Ok(Continue); }
      r := RunLeaf(at, it);
    }

    /** Every value of the list, in order, each from the same first leaf. */
    method WalkRepeat(it: Item, values: seq<string>, iteration: nat, leaf: nat, vars: Vars, ghost walked: seq<AppliedStep>) returns (r: Res<Flow>)
      requires Ready() && it.Repeat? && values == ValuesOf(s.lists, it.form, vars) && Placed(s, it.body, leaf)
      requires FitsItem(s, rec.choices, walked, it, iteration, leaf, vars) && walked <= rec.applied
      modifies this
      ensures Sound() && Onward()
      ensures r.Ok? && r.value.Continue? ==>
        && Ready() && Extends(old(rec).choices, rec.choices)
        && UnrollRepeat(s.lists, values, 0, it.variable, it.body, leaf, vars, rec.choices).whole
        && walked + UnrollRepeat(s.lists, values, 0, it.variable, it.body, leaf, vars, rec.choices).apps <= rec.applied
      ensures r.Ok? && r.value.Stop? ==> Halted()
      decreases it, 1, 0
    {
      hide Kept, Holds, Trusted, Evidence, Settled, AllProtected, FitsItems, FitsItem, Iterated, Placed, Unroll, UnrollRepeat, GoesOn;
      GoesOnAlong();
      ghost var done: seq<AppliedStep> := [];
      StartIterated(s, rec.choices, values, it.variable, it.body, leaf, vars);
      assert walked + done == walked;
      var i := 0;
      while i < |values|
        invariant 0 <= i <= |values|
        invariant Ready() && Onward() && Extends(old(rec).choices, rec.choices)
        invariant FitsItem(s, rec.choices, walked, it, iteration, leaf, vars)
        invariant Iterated(s, rec.choices, values, it.variable, it.body, leaf, vars, done, i)
        invariant walked + done <= rec.applied
      {
        var inner := vars[it.variable := values[i]];
        IteratedFits(s, rec.choices, walked, it, iteration, leaf, vars, values, done, i);
        ghost var ch := rec.choices;
        var flow, _ := WalkItems(it.body, i, leaf, inner, walked + done);
        if flow.Err? || flow.value.Stop? { return flow; }
        IteratedNext(s, ch, rec.choices, values, it.variable, it.body, leaf, vars, done, i);
        FitsLater(s, ch, rec.choices, walked, it, iteration, leaf, vars);
        ghost var here := Unroll(s.lists, it.body, i, leaf, inner, rec.choices).apps;
        assert walked + done + here == walked + (done + here);
        done := done + here;
        i := i + 1;
      }
      IteratedEnd(s, rec.choices, values, it.variable, it.body, leaf, vars, done);
      r := Ok(Continue);
    }

    /** A `when`'s arm is chosen once and persisted before anything under it runs. */
    method WalkWhen(it: Item, iteration: nat, leaf: nat, vars: Vars, ghost walked: seq<AppliedStep>) returns (r: Res<Flow>, next: nat)
      requires Ready() && it.When? && Placed(s, it.then_, leaf) && Placed(s, it.else_, leaf + LeafCount(it.then_))
      requires FitsItem(s, rec.choices, walked, it, iteration, leaf, vars) && walked <= rec.applied
      modifies this
      ensures Sound() && Onward()
      ensures r.Ok? && r.value.Continue? ==>
        && Ready() && Extends(old(rec).choices, rec.choices)
        && UnrollItem(s.lists, it, iteration, leaf, vars, rec.choices).whole
        && walked + UnrollItem(s.lists, it, iteration, leaf, vars, rec.choices).apps <= rec.applied
        && next == leaf + LeafCount(it.then_) + LeafCount(it.else_)
      ensures r.Ok? && r.value.Stop? ==> Halted()
      decreases it, 1, 0
    {
      hide Kept, Holds, Trusted, Evidence, Settled, AllProtected, FitsItems, FitsItem, Placed, Unroll, UnrollItem, LeafCount, GoesOn;
      GoesOnAlong();
      next := leaf;
      if leaf !in rec.choices {
        var flow :- DecideArm(it, leaf);
        if flow.Some? { return Ok(flow.value), leaf; }
        FitsLater(s, old(rec).choices, rec.choices, walked, it, iteration, leaf, vars);
      }
      r, next := WalkArm(it, iteration, leaf, vars, walked);
    }

    /** Observe a `when`'s guard and keep the arm it chooses; a guard that fails refuses. */
    method DecideArm(it: Item, leaf: nat) returns (r: Res<Option<Flow>>)
      requires Ready() && it.When? && leaf !in rec.choices
      modifies this`rec, this`stored, this`world, this`trail, this`moments, this`acts
      ensures Sound() && Onward()
      ensures r == Ok(None) ==> Ready() && leaf in rec.choices && stored == rec == old(rec).(choices := old(rec).choices[leaf := rec.choices[leaf]])
      ensures r.Ok? && r.value.Some? ==> r.value.value.Stop? && Halted() && stored == rec && RefusedAs(s, old(rec).applied, leaf, rec)
    {
      hide Kept, Holds, Trusted, Evidence, Settled, AllProtected, GoesOn;
      GoesOnAlong();
      var answer: Res<Tri> := *;
      if answer.Err? {
        var flow :- RefuseStep(leaf);
        return Ok(Some(flow));
      }
      var _ :- Choose(leaf, answer == Ok(Yes) || (answer == Ok(Unknown) && it.guard.value.Yes?));
      return Ok(None);
    }

    method WalkArm(it: Item, iteration: nat, leaf: nat, vars: Vars, ghost walked: seq<AppliedStep>) returns (r: Res<Flow>, next: nat)
      requires Ready() && it.When? && leaf in rec.choices
      requires Placed(s, it.then_, leaf) && Placed(s, it.else_, leaf + LeafCount(it.then_))
      requires FitsItem(s, rec.choices, walked, it, iteration, leaf, vars) && walked <= rec.applied
      modifies this
      ensures Sound() && Onward()
      ensures r.Ok? && r.value.Continue? ==>
        && Ready() && Extends(old(rec).choices, rec.choices)
        && UnrollItem(s.lists, it, iteration, leaf, vars, rec.choices).whole
        && walked + UnrollItem(s.lists, it, iteration, leaf, vars, rec.choices).apps <= rec.applied
        && next == leaf + LeafCount(it.then_) + LeafCount(it.else_)
      ensures r.Ok? && r.value.Stop? ==> Halted()
      decreases it, 0, 0
    {
      hide Kept, Holds, Trusted, Evidence, Settled, AllProtected, FitsItems, FitsItem, Placed, Unroll, LeafCount, GoesOn;
      GoesOnAlong();
      ArmFits(s, rec.choices, walked, it, iteration, leaf, vars);
      if rec.choices[leaf] {
        r, next := WalkItems(it.then_, iteration, leaf, vars, walked);
        next := next + LeafCount(it.else_);
      } else {
        r, next := WalkItems(it.else_, iteration, leaf + LeafCount(it.then_), vars, walked);
      }
    }

    method Choose(leaf: nat, arm: bool) returns (r: Res<bool>)
      requires Ready() && leaf !in rec.choices
      modifies this`rec, this`stored, this`trail, this`moments
      ensures Sound() && Onward()
      ensures r.Ok? ==> Ready() && stored == rec == old(rec).(choices := old(rec).choices[leaf := arm])
    {
      hide Kept, Holds, Trusted, Evidence, Settled, AllProtected, GoesOn;
      GoesOnAlong();
      ChoiceMayBeKept(s, rec, world, doubt, leaf, arm);
      rec := rec.(choices := rec.choices[leaf := arm]);
      :- Persist();
      return Ok(true);
    }

    /** Walk the plan from its start until it ends or the instance leaves Applying. */
    method Walk() returns (r: Res<Flow>)
      requires InHand()
      requires rec.state.Applying? ==> Ready()
      requires !rec.state.Applying? ==> Halted()
      modifies this
      ensures Sound() && Onward()
      ensures r.Ok? ==> Halted()
      ensures !old(rec).state.Applying? ==> unchanged(this)
    {
      hide Kept, Holds, Trusted, Evidence, Settled, AllProtected, Transition, CtxOf, Placed, FitsItems, Unroll, SkipsItsCommit, LeafCount, UndoneIn, GoesOn;
      GoesOnAlong();
      if !rec.state.Applying? { return Ok(Stop); }
      var contractChanged: bool := *;
      if contractChanged {
        :- Log(Note("host contract changed"));
        r := RefuseStep(FirstUnapplied(s, rec));
        return;
      }
      WholePlanFits(s, rec.choices);
      WholePlanPlaced(s);
      var flow, _ := WalkItems(s.plan.body, 0, 1, map[], []);
      if flow.Err? || flow.value.Stop? { return flow; }
      WalkedOutSkipsItsCommit(s, rec, world, doubt);
      r := EndWalk();
    }

    /** Every leaf ran and none stopped the walk: the late arming, and a temporary plan rests. */
    method EndWalk() returns (r: Res<Flow>)
      requires Ready() && SkipsItsCommit(s, rec.choices)
      modifies this`rec, this`stored, this`world, this`trail, this`moments, this`acts
      ensures Sound() && Onward()
      ensures |acts| > |old(acts)| && acts[|old(acts)|] == WalkedOut(old(rec).choices)
      ensures r.Ok? ==> Halted() && stored == rec
      ensures r.Ok? ==>
        || (!s.permanent && rec == old(rec).(state := State.Applied, backstop := rec.backstop))
        || (CoverageOf(s.plan).Some? && RefusedAs(s, old(rec).applied, CoverageOf(s.plan).value.armedBeforeStep, rec))
    {
      hide Kept, Holds, Settled, Trusted, Evidence, AllProtected, SkipsItsCommit, UndoneIn, RefusedAs, CoverageOf, GoesOn;
      GoesOnAlong();
      GoesOnGrows();
      WalkOut();
      var now: Seconds := *;
      var flow :- BackstopAfterWalk(if now >= 0 then now else 0);
      if flow.Stop? { return Ok(Stop); }
      r := Rest();
    }

    method Rest() returns (r: Res<Flow>)
      requires Ready()
      modifies this`rec, this`stored, this`trail, this`moments, this`acts
      ensures Sound() && Onward()
      ensures r.Ok? ==> !s.permanent && Halted() && stored == rec == old(rec).(state := State.Applied)
    {
      hide Kept, Holds, Settled, Trusted, Evidence, AllProtected, Transition, CtxOf, UndoneIn, HoldsEarlier, GoesOn;
      GoesOnAlong();
      FromApplying(s, rec);
      if !s.permanent { RestedMayMove(s, rec, world, doubt, State.Applied); }
      var _ :- Step(AllStepsDone);
      :- Log(Note("applied"));
      return Ok(Stop);
    }

    /** The walk ran every leaf. */
    ghost method WalkOut()
      requires Sound() && SkipsItsCommit(s, rec.choices)
      modifies this`acts
      ensures Sound() && Onward() && acts == old(acts) + [WalkedOut(rec.choices)]
    {
      hide Kept, Holds, Trusted, Evidence, AllProtected, SkipsItsCommit;
      Acted(WalkedOut(rec.choices));
    }

    // --- verbs ---------------------------------------------------------------------

    constructor (s: Setting, ghost through: nat)
      requires Identified(s)
      ensures this.s == s && this.through == through && doubt == Certain(through)
      ensures Sound() && world == s.initial && acts == []
      ensures stored.state.Pending? && stored.applied == [] && !stored.approved
    {
      this.s := s;
      this.through := through;
      var blank := Record(Pending, false, None, None, [], map[], map[], map[], None, None, None, [], [], false, None, None, map[]);
      rec, stored, world := blank, blank, s.initial;
      trail, moments, acts, doubt := [Point(blank, s.initial)], [Moment([], Certain(through))], [], Certain(through);
      BlankHolds(s, blank, through);
      KeptFirst(s, through, Point(blank, s.initial));
    }

    /** A verb keeps what approval settled. */
    twostate predicate TermsStay()
      reads this
    {
      Terms(stored) == old(Terms(stored))
    }

    /** Every verb loads the record the store keeps. */
    method Load()
      requires Sound()
      modifies this`rec
      ensures InHand() && rec == stored
      ensures !rec.state.Applying? ==> Halted() && Settled(s, [Point(rec, world)], doubt)
    {
      hide Kept, Holds, Settled, Trusted, Evidence, AllProtected;
      rec := stored;
      if !rec.state.Applying? { AtRestIsSettled(s, rec, world, doubt); }
    }

    /** Tell the machine an event; one it goes on from is settled. No event of a verb moves an
        instance that is applying. */
    method StepAtRest(ev: Event) returns (r: Res<bool>)
      requires InHand() && (rec.state.Applying? ==> OfAVerb(ev))
      modifies this`rec, this`stored, this`trail, this`moments
      ensures Sound() && Onward()
      ensures r.Ok? ==> InHand()
      ensures r.Ok? && r.value ==> !old(rec).state.Applying? && (rec.state.Applying? ==> Ready())
      ensures r.Ok? ==> var o := Transition(CtxOf(s, old(rec)), old(rec).state, ev);
                if o.To? then r.value && rec == old(rec).(state := o.state) && stored == rec
                else o.Stay? && !r.value && rec == old(rec) && stored == old(stored)
    {
      hide Kept, Holds, Settled, Trusted, Evidence, AllProtected, Transition, CtxOf, OfAVerb, GoesOn;
      GoesOnAlong();
      AnyStepAtRest(s, rec, world, doubt, ev);
      r := Step(ev);
    }

    /** Approve a pending instance and apply it. */
    method Approve(now: Seconds) returns (r: Res<Flow>)
      requires Sound() && stored.state.Pending?
      modifies this
      ensures Sound() && Lengthens()
      ensures Strays(old(doubt), doubt)
      ensures r.Ok? ==> Halted()
      ensures TermsStay() || Terms(stored) == (true, DeadlineAt(s, old(stored).deadline, now))
      ensures r.Ok? && TermsStay() && !old(stored).approved ==> stored.state.Closed?
    {
      hide Kept, Holds, Settled, Trusted, Evidence, AllProtected, Transition, CtxOf;
      Load();
      var contractChanged: bool := *;
      if contractChanged {
        r := CloseUnapproved(HostContractChanged);
        return;
      }
      :- Admit(now);
      r := Walk();
    }

    /** The instance is approved: its deadline is counted from now, and it is applying. */
    method Admit(now: Seconds) returns (d: Done)
      requires Halted() && rec == stored && rec.state.Pending?
      modifies this`rec, this`stored, this`trail, this`moments, this`acts
      ensures Sound() && doubt == old(doubt) && Lengthens()
      ensures Terms(rec) == (true, DeadlineAt(s, old(stored).deadline, now))
      ensures TermsStay() || Terms(stored) == Terms(rec)
      ensures d.Pass? ==> Ready() && stored == rec
      ensures d.Pass? ==> rec == old(rec).(approved := true, deadline := DeadlineAt(s, old(rec).deadline, now), state := State.Applying)
    {
      hide Kept, Holds, Settled, Trusted, Evidence, AllProtected, Transition, CtxOf, DeadlineAt;
      SetDeadline(DeadlineAt(s, rec.deadline, now));
      FromPending(s, rec);
      var told := StepAtRest(Event.Approve);
      if told.Err? { return Done.Fail; }
      var logged := Log(Note("approved"));
      if logged.Fail? { return Done.Fail; }
      d := Persist();
    }

    method SetDeadline(deadline: Option<Seconds>)
      requires InHand() && rec == stored && rec.state.Pending?
      modifies this`rec
      ensures InHand() && rec == old(rec).(approved := true, deadline := deadline)
    {
      hide Kept, Holds, Trusted, Evidence, AllProtected;
      SameCoreKeeps(s, rec, rec.(approved := true, deadline := deadline), world, doubt);
      rec := rec.(approved := true, deadline := deadline);
    }

    /** An instance nothing was applied for is closed: its host contract changed before approval,
        or its approval never came. */
    method CloseUnapproved(ev: Event) returns (r: Res<Flow>)
      requires Halted() && rec == stored
      requires (ev.HostContractChanged? && rec.state.Pending?) || (ev.Cancel? && rec.state.ApprovalExpired?)
      modifies this`rec, this`stored, this`trail, this`moments, this`acts
      ensures Sound() && Onward()
      ensures r.Ok? ==> Halted() && stored == rec == old(rec).(state := Closed)
    {
      hide Kept, Holds, Settled, Trusted, Evidence, AllProtected, Transition, CtxOf, GoesOn;
      GoesOnAlong();
      if ev.Cancel? { FromPendingOrLapsed(s, rec); } else { FromPending(s, rec); }
      var _ :- StepAtRest(ev);
      :- Log(Note("closed"));
      :- Persist();
      return Ok(Stop);
    }

    method Resume() returns (r: Res<Flow>)
      requires Sound()
      modifies this
      ensures Sound() && Lengthens() && TermsStay() && Strays(old(doubt), doubt)
      ensures r.Ok? ==> old(stored).state.Held? && Halted()
    {
      hide Kept, Holds, Settled, Trusted, Evidence, AllProtected, GoesOn;
      GoesOnAlong();
      GoesOnGrows();
      GoesOnKeeps();
      Load();
      :- Wake();
      r := Walk();
    }

    /** A held instance is applying again, with what was applied. */
    method Wake() returns (d: Done)
      requires InHand() && rec == stored
      modifies this`rec, this`stored, this`trail, this`moments, this`acts
      ensures Sound() && Onward()
      ensures d.Pass? ==> old(rec).state.Held? && Ready() && rec == old(rec).(state := State.Applying, heldAt := None)
    {
      hide Kept, Holds, Settled, Trusted, Evidence, AllProtected, Transition, CtxOf, GoesOn;
      GoesOnAlong();
      FromHeld(s, rec);
      var told := StepAtRest(Event.Resume);
      if told.Err? { return Done.Fail; }
      SameCoreKeeps(s, rec, rec.(heldAt := None), world, doubt);
      rec := rec.(heldAt := None);
      d := Log(Note("resumed"));
    }

    /** A step done by hand. No snapshot was taken of it, so where it may have lost an existing
        file the run is in doubt from here on. */
    method HandoffDone(step: nat) returns (r: Res<Flow>)
      requires Sound()
      modifies this
      ensures Sound() && Lengthens() && TermsStay()
      ensures r.Ok? ==> old(stored).state.Deferred? && old(stored).deferred.Some? && old(stored).deferred.value.step == step && Halted()
      ensures Strays(old(doubt), doubt) || (old(doubt).Certain? && doubt == ByHand(|old(trail)| - 1))
    {
      hide Kept, Holds, Settled, Trusted, AllProtected, Snapped;
      Load();
      if rec.deferred.None? || rec.deferred.value.step != step { return Err; }
      EntersHandoff();
      :- TakeOver();
      r := Walk();
    }

    /** The step deferred joins the applied as the next application. */
    method TakeOver() returns (d: Done)
      requires InHand() && rec == stored && rec.deferred.Some?
      requires rec.state.Deferred? && Trusted(s, doubt) ==> Snapped(s, rec.snapshots, rec.deferred.value.AsKey())
      modifies this
      ensures Sound() && Onward() && world == old(world)
      ensures d.Pass? ==> old(rec).state.Deferred? && Ready() && stored == rec
      ensures d.Pass? ==>
        rec == old(rec).(state := State.Applying, deferred := None, applied := old(rec).applied + [old(rec).deferred.value])
    {
      hide Kept, Holds, Settled, Trusted, Evidence, AllProtected, Transition, CtxOf, Snapped, LeafAt, Upto, Planned, UndoneIn, GoesOn;
      GoesOnAlong();
      var a := rec.deferred.value;
      if rec.state.Deferred? { DeferredIsNext(s, rec, world, doubt); }
      FromDeferred(s, rec);
      var told := StepAtRest(Event.HandoffDone);
      if told.Err? { return Done.Fail; }
      var logged := Log(StepHandedOff(a.step));
      if logged.Fail? { return Done.Fail; }
      JustBegun(acts, a.step);
      Reaches(a.step);
      HandoffMayBeMarked(s, rec, world, doubt, a);
      rec := rec.(deferred := None, applied := rec.applied + [a]);
      d := Persist();
    }

    /** Go on with the walk of an instance that is applying. One left so by a verb that failed
        with a step half done is walked all the same. */
    method Advance() returns (r: Res<Flow>)
      requires Sound()
      modifies this
      ensures Sound() && Lengthens() && TermsStay()
      ensures r.Ok? ==> Halted()
      ensures !old(stored).state.Applying? ==> stored == old(stored) && world == old(world) && doubt == old(doubt)
      ensures Strays(old(doubt), doubt) || (old(doubt).Certain? && doubt == HalfDone(|old(trail)| - 1))
    {
      hide Kept, Holds, Settled, Trusted, AllProtected, Rested;
      Load();
      EntersWalk();
      r := Walk();
    }

    /** Undo an instance at an operator's word, over its drift when forced. */
    method Recant(force: bool) returns (r: Res<Flow>)
      requires Sound()
      modifies this
      ensures Sound() && Lengthens() && TermsStay() && doubt == old(doubt)
      ensures r.Ok? ==> !old(stored).state.Applying? && Halted() && stored == rec && UndoEnded(rec)
      ensures r.Ok? && rec.state.Closed? ==> UndoneIn(acts) == UndoneIn(old(acts)) + LastFirst(s, old(stored).applied)
    {
      hide Kept, Holds, Settled, Trusted, Evidence, AllProtected, Transition, CtxOf, LastFirst, GoesOn;
      GoesOnAlong();
      GoesOnGrows();
      GoesOnKeeps();
      Load();
      :- Withdraw(force);
      :- Log(Note("recant"));
      r := Revert();
    }

    /** Only an instance held for drift is forced over it; the rest are taken back, or refused. */
    method Withdraw(force: bool) returns (d: Done)
      requires InHand() && rec == stored
      modifies this`rec, this`stored, this`trail, this`moments
      ensures Sound() && Onward()
      ensures d.Pass? ==> InHand() && !old(rec).state.Applying? && (old(rec).state.DriftHeld? ==> force)
      ensures d.Pass? ==>
        rec == if old(rec).state.DriftHeld? then old(rec).(state := Reverting, forceDrift := true, driftHeld := [])
               else old(rec).(state := Reverting)
    {
      hide Kept, Holds, Settled, Trusted, Evidence, AllProtected, Transition, CtxOf, GoesOn;
      GoesOnAlong();
      FromRecant(s, rec);
      var over := rec.state.DriftHeld? && force;
      var told := StepAtRest(if over then ForceDrift else Event.Recant);
      if told.Err? { return Done.Fail; }
      if over {
        SameCoreKeeps(s, rec, rec.(forceDrift := true, driftHeld := []), world, doubt);
        rec := rec.(forceDrift := true, driftHeld := []);
      }
      return Done.Pass;
    }

    /** Confirming disarms the backstop, and leaves the instance where it stood. */
    method ConfirmVerb() returns (r: Res<Flow>)
      requires Sound()
      modifies this`rec, this`stored, this`trail, this`moments, this`acts
      ensures Sound() && Lengthens() && TermsStay()
      ensures r.Ok? ==> InHand() && s.permanent && stored == rec == old(stored).(backstop := rec.backstop)
      ensures r.Ok? ==> DisarmedFrom(s, false, old(stored).backstop, rec.backstop)
    {
      hide Kept, Holds, Settled, Trusted, Evidence, AllProtected, Transition, CtxOf, GoesOn;
      GoesOnAlong();
      GoesOnGrows();
      GoesOnKeeps();
      Load();
      FromConfirm(s, rec);
      var _ :- StepAtRest(ConfirmEvent);
      var disarmed :- BackstopDisarm(false);
      if !disarmed { return Err; }
      :- Log(Note("confirmed"));
      :- Persist();
      return Ok(Stop);
    }

    /** `commit`, `cancel` and `abandon`: a terminal state without an undo. */
    method Finish(ev: Event) returns (r: Res<Flow>)
      requires Sound() && (ev.CommitVerb? || ev.Cancel? || ev.Abandon?)
      modifies this`rec, this`stored, this`trail, this`moments, this`acts
      ensures Sound() && Lengthens() && TermsStay()
      ensures r.Ok? ==> Halted() && Terminal(rec.state) && !old(stored).state.Applying?
      ensures r.Ok? ==> stored == rec == old(stored).(state := rec.state, backstop := rec.backstop)
      ensures r.Ok? && ev.Cancel? ==> rec.state.Closed? && rec.applied == []
      ensures r.Ok? && ev.CommitVerb? ==> rec.state.Committed? && s.permanent
    {
      hide Kept, Holds, Settled, Trusted, Evidence, AllProtected, Transition, CtxOf, GoesOn;
      GoesOnAlong();
      GoesOnGrows();
      GoesOnKeeps();
      Load();
      FromFinish(s, rec, world, doubt, ev);
      var _ :- StepAtRest(ev);
      :- Conclude(Note("finished"), Note("left armed"));
      return Ok(Stop);
    }

    /** A proof or an acknowledgement ends a wait. */
    method WaitEnds() returns (r: Res<Flow>)
      requires Sound()
      modifies this
      ensures Sound() && Lengthens() && TermsStay() && Strays(old(doubt), doubt)
      ensures r.Ok? ==> old(stored).state.Waiting? && Halted()
    {
      hide Kept, Holds, Settled, Trusted, Evidence, AllProtected, GoesOn;
      GoesOnAlong();
      GoesOnGrows();
      GoesOnKeeps();
      Load();
      :- LeaveWaiting(WaitSatisfied);
      :- Log(Note("step gate satisfied"));
      :- Persist();
      r := Walk();
    }

    // --- the reap pass ---------------------------------------------------------------

    /** One pass over the instance, whatever state it is in. */
    method Reap(now: Seconds, settling: bool) returns (r: Res<Flow>)
      requires Sound()
      modifies this
      ensures Sound() && Lengthens()
      ensures r.Ok? && !old(stored).state.Applying? ==> !stored.state.Applying?
      ensures r.Ok? && !settling && !s.permanent && !BeforeApproval(old(stored).state)
              && old(stored).deadline.Some? && IsExpired(now, old(stored).deadline.value) ==>
        if Terminal(old(stored).state) then stored.state.Closed? else UndoEnded(stored)
      ensures !BeforeApproval(old(stored).state) ==> TermsStay()
      ensures Strays(old(doubt), doubt) || (old(doubt).Certain? && doubt in {HalfDone(|old(trail)| - 1), ByHand(|old(trail)| - 1)})
    {
      hide Kept, Holds, Settled, Trusted, Evidence, AllProtected, Transition, CtxOf, Snapped;
      Load();
      NotCommitted(s, rec, world, doubt);
      if Terminal(rec.state) { return Ok(Stop); }
      if BeforeApproval(rec.state) {
        r := ReapPending(now);
        return;
      }
      if settling { return Ok(Stop); }
      if rec.deadline.Some? && IsExpired(now, rec.deadline.value) {
        var reverted :- ReapExpired();
        if reverted { return Ok(Stop); }
      }
      if rec.state.Reverting? || rec.state.Expired? {
        r := Revert();
        return;
      }
      r := ReapAtRest(now);
    }

    method ReapPending(now: Seconds) returns (r: Res<Flow>)
      requires Halted() && stored == rec && BeforeApproval(rec.state)
      modifies this
      ensures Sound() && Lengthens()
      ensures r.Ok? ==> !stored.state.Applying?
      ensures r.Ok? && old(rec).state.ApprovalExpired? ==> stored.state.Closed?
      ensures r.Ok? && TermsStay() && !old(rec).approved ==> stored == old(stored) || stored.state.Closed?
      ensures Strays(old(doubt), doubt)
    {
      hide Kept, Holds, Settled, Trusted, Evidence, AllProtected, Transition, CtxOf;
      var opens: bool := *;
      if rec.state.Pending? && opens {
        r := Approve(now);
        return;
      }
      if rec.state.Pending? && rec.approvalDeadline.Some? && IsExpired(now, rec.approvalDeadline.value) {
        :- ApprovalLapses();
      } else if !rec.state.ApprovalExpired? {
        return Ok(Stop);
      }
      r := CloseUnapproved(Cancel);
    }

    method ApprovalLapses() returns (d: Done)
      requires Halted() && stored == rec && rec.state.Pending?
      modifies this`rec, this`stored, this`trail, this`moments, this`acts
      ensures Sound() && Onward()
      ensures d.Pass? ==> Halted() && stored == rec == old(rec).(state := ApprovalExpired)
    {
      hide Kept, Holds, Settled, Trusted, Evidence, AllProtected, Transition, CtxOf, GoesOn;
      GoesOnAlong();
      FromPendingOrLapsed(s, rec);
      var told := StepAtRest(ApprovalWindowLapses);
      if told.Err? { return Done.Fail; }
      d := Log(Note("approval expired"));
    }

    /** Wane: Expired and then the revert, observed before anything else; true when it ran. An
        instance found applying was left so by a verb that failed, and the revert does not see its
        step in flight: where that step had changed something, the run is in doubt. */
    method ReapExpired() returns (r: Res<bool>)
      requires InHand() && stored == rec && !Terminal(rec.state) && !BeforeApproval(rec.state)
      modifies this
      ensures Sound() && Lengthens() && TermsStay()
      ensures r.Ok? && r.value ==> stored == rec && UndoEnded(stored)
      ensures r.Ok? && !r.value ==> rec == old(rec) && stored == old(stored) && world == old(world) && trail == old(trail) && doubt == old(doubt) && InHand()
      ensures r.Ok? && !r.value && !s.permanent ==> rec.state.Stuck? || rec.state.DriftHeld? || rec.state.Expired?
      ensures doubt == old(doubt) || (old(doubt).Certain? && doubt == HalfDone(|old(trail)| - 1))
    {
      hide Kept, Holds, Settled, Trusted, Evidence, AllProtected, Transition, CtxOf;
      FromWane(s, rec);
      if s.permanent || rec.state.Stuck? || rec.state.DriftHeld? || rec.state.Expired? { return Ok(false); }
      var _ :- Expire();
      r := RevertExpired();
    }

    method RevertExpired() returns (r: Res<bool>)
      requires InHand() && rec.state.Expired?
      modifies this`rec, this`stored, this`world, this`trail, this`moments, this`acts
      ensures Sound() && Onward()
      ensures r.Ok? ==> r.value && stored == rec && UndoEnded(stored)
    {
      hide Kept, Holds, Trusted, Evidence, AllProtected, GoesOn;
      GoesOnAlong();
      :- Log(Note("expired"));
      var _ :- Revert();
      return Ok(true);
    }

    method Expire() returns (r: Res<bool>)
      requires InHand() && stored == rec && !s.permanent && Transition(CtxOf(s, rec), rec.state, WaneElapses) == To(Expired)
      modifies this`rec, this`stored, this`trail, this`moments, this`acts, this`doubt
      ensures Sound() && Lengthens() && TermsStay() && Terms(rec) == old(Terms(rec))
      ensures r.Ok? ==> InHand() && stored == rec == old(rec).(state := Expired)
      ensures doubt == old(doubt) || (old(doubt).Certain? && doubt == HalfDone(|old(trail)| - 1))
    {
      hide Kept, Holds, Settled, Trusted, AllProtected, Transition, CtxOf, Rested, Clean;
      if rec.state.Applying? {
        EntersExpiry();
        UntouchedMayExpire(s, rec, world, doubt);
        r := Step(WaneElapses);
      } else {
        r := StepAtRest(WaneElapses);
      }
    }

    method ReapAtRest(now: Seconds) returns (r: Res<Flow>)
      requires InHand() && stored == rec && !Terminal(rec.state) && !BeforeApproval(rec.state)
      requires !rec.state.Reverting? && !rec.state.Expired?
      modifies this
      ensures Sound() && Lengthens() && TermsStay()
      ensures r.Ok? && !old(stored).state.Applying? ==> !stored.state.Applying?
      ensures r.Ok? && old(stored).state.Stuck? ==> UndoEnded(stored)
      ensures r.Ok? && !old(stored).state.Stuck? && !old(stored).state.Waiting? && !old(stored).state.Deferred? ==> stored == old(stored)
      ensures Strays(old(doubt), doubt) || (old(doubt).Certain? && doubt == ByHand(|old(trail)| - 1))
    {
      hide Kept, Holds, Settled, Trusted, Evidence, AllProtected, Transition, CtxOf, Snapped;
      match rec.state {
        case Waiting => r := ReapWaiting(now);
        case Stuck =>
          FromStuck(s, rec);
          var _ :- StepAtRest(Retry);
          r := Revert();
        case Deferred =>
          var done: bool := *;
          if done && rec.deferred.Some? { r := HandoffDone(rec.deferred.value.step); } else { r := Ok(Stop); }
        case _ => r := Ok(Stop);
      }
    }

    method ReapWaiting(now: Seconds) returns (r: Res<Flow>)
      requires Halted() && stored == rec && rec.state.Waiting?
      modifies this
      ensures Sound() && Lengthens() && TermsStay()
      ensures r.Ok? ==> !stored.state.Applying?
      ensures r.Ok? && BoundReached(now, old(rec).waiting) ==> stored.state.Held? || UndoEnded(stored)
      ensures r.Ok? && !BoundReached(now, old(rec).waiting) && !Guarded(old(rec).waiting) ==> stored == old(stored) && world == old(world)
      ensures Strays(old(doubt), doubt)
    {
      hide Kept, Holds, Settled, Trusted, Evidence, AllProtected, Transition, CtxOf, RefusedAs;
      var w := rec.waiting;
      var answer: Res<Tri> := *;
      if BoundReached(now, w) {
        r := WaitLapses();
      } else if Guarded(w) && answer == Ok(Yes) {
        r := WaitEnds();
      } else if Guarded(w) && answer == Ok(No) {
        r := WaitRefused(w.value.step);
      } else {
        r := Ok(Stop);
      }
    }

    method WaitLapses() returns (r: Res<Flow>)
      requires Halted() && stored == rec && rec.state.Waiting? && rec.waiting.Some?
      modifies this`rec, this`stored, this`world, this`trail, this`moments, this`acts
      ensures Sound() && Lengthens() && TermsStay()
      ensures r.Ok? ==> Halted() && stored == rec
      ensures r.Ok? ==> (rec.state.Held? && rec.heldAt == Some(old(rec).waiting.value.step) && rec.applied == old(rec).applied) || UndoEnded(rec)
    {
      hide Kept, Holds, Settled, Trusted, Evidence, AllProtected, Transition, CtxOf, GoesOn;
      GoesOnAlong();
      GoesOnGrows();
      GoesOnKeeps();
      var n := rec.waiting.value.step;
      :- Log(Note("wait lapsed"));
      :- LeaveWaiting(BoundLapses);
      if rec.state.Held? {
        r := HoldLapsed(n);
        return;
      }
      r := Revert();
    }

    method HoldLapsed(n: nat) returns (r: Res<Flow>)
      requires Halted() && rec.state.Held?
      modifies this`rec, this`stored, this`trail, this`moments, this`acts
      ensures Sound() && Onward()
      ensures r.Ok? ==> Halted() && stored == rec == old(rec).(heldAt := Some(n))
    {
      hide Kept, Holds, Settled, Trusted, Evidence, AllProtected, GoesOn;
      GoesOnAlong();
      SameCoreKeeps(s, rec, rec.(heldAt := Some(n)), world, doubt);
      rec := rec.(heldAt := Some(n));
      :- Log(Note("held"));
      :- Persist();
      return Ok(Stop);
    }

    method WaitRefused(n: nat) returns (r: Res<Flow>)
      requires Halted() && stored == rec && rec.state.Waiting?
      modifies this`rec, this`stored, this`world, this`trail, this`moments, this`acts
      ensures Sound() && Lengthens() && TermsStay()
      ensures r.Ok? ==> Halted() && stored == rec && RefusedAs(s, old(rec).applied, n, rec)
    {
      hide Kept, Holds, Settled, Trusted, Evidence, AllProtected, Transition, CtxOf, RefusedAs, GoesOn;
      GoesOnAlong();
      GoesOnGrows();
      GoesOnKeeps();
      :- LeaveWaiting(WaitSatisfied);
      r := RefuseStep(n);
    }

    /** A wait is over: the machine is told, and the record forgets what it waited for. */
    method LeaveWaiting(ev: Event) returns (d: Done)
      requires InHand() && (ev.BoundLapses? || ev.WaitSatisfied?)
      modifies this`rec, this`stored, this`trail, this`moments
      ensures Sound() && Onward()
      ensures d.Pass? ==> old(rec).state.Waiting? && rec == old(rec).(state := rec.state, waiting := None) && stored.state == rec.state
      ensures d.Pass? && ev.WaitSatisfied? ==> Ready()
      ensures d.Pass? && ev.BoundLapses? ==> Halted() && (rec.state.Held? || rec.state.Reverting?)
    {
      hide Kept, Holds, Settled, Trusted, Evidence, AllProtected, Transition, CtxOf, GoesOn;
      GoesOnAlong();
      FromWaiting(s, rec);
      var told := StepAtRest(ev);
      if told.Err? { return Done.Fail; }
      SameCoreKeeps(s, rec, rec.(waiting := None), world, doubt);
      rec := rec.(waiting := None);
      return Done.Pass;
    }

    // --- boot --------------------------------------------------------------------------

    /** Recovery: an instance found Applying is demoted; the step in flight is undone with the
        rest, unless its facts read as they did before its `do`. From a state boot does not
        recover the run goes on in doubt. */
    method Boot() returns (r: Res<Flow>, ghost demoted: seq<AppliedStep>)
      requires Sound()
      modifies this
      ensures Sound() && Lengthens() && TermsStay()
      ensures r.Ok? ==> Halted()
      ensures !old(stored).state.Applying? ==> stored == old(stored) && world == old(world) && doubt == old(doubt)
      ensures old(stored).state.Applying? ==> Demotes(s, old(stored), old(world), demoted)
      ensures r.Ok? && old(stored).state.Applying? ==> stored == rec && RefusedAs(s, demoted, LastOf(demoted), rec)
      ensures Strays(old(doubt), doubt) || (old(doubt).Certain? && doubt == Unrecovered(|old(trail)| - 1))
    {
      hide Kept, Holds, Settled, Trusted, AllProtected, Transition, CtxOf, HoldsEarlier, Snapped, Clean, Recoverable, ReadsAsBefore, RefusedAs, GoesOn;
      GoesOnAlong();
      GoesOnGrows();
      GoesOnKeeps();
      demoted := stored.applied;
      Load();
      if !rec.state.Applying? { return Ok(Stop), demoted; }
      EntersBoot();
      if rec.attempting.None? || rec.attempting.value in rec.applied {
        r := BootSettled();
        return;
      }
      r, demoted := BootInFlight();
    }

    /** Nothing was in flight, or what was had been applied. */
    method BootSettled() returns (r: Res<Flow>)
      requires InHand() && rec == stored && rec.state.Applying? && (rec.attempting.Some? ==> rec.attempting.value in rec.applied)
      modifies this`rec, this`stored, this`world, this`trail, this`moments, this`acts
      ensures Sound() && Onward()
      ensures r.Ok? ==> Halted() && stored == rec && RefusedAs(s, old(rec).applied, LastOf(old(rec).applied), rec)
    {
      hide Kept, Holds, Settled, Trusted, Evidence, AllProtected, HoldsEarlier, RefusedAs, GoesOn;
      GoesOnAlong();
      AppliedMayBeDropped(s, rec, world, doubt);
      rec := rec.(attempting := None, attemptingPre := map[]);
      r := RefuseApplied(LastOf(rec.applied));
    }

    /** The step in flight joins the applied, or is dropped where its `do` never took; then the
        refusal. */
    method BootInFlight() returns (r: Res<Flow>, ghost demoted: seq<AppliedStep>)
      requires InHand() && rec == stored && InFlight(rec) && rec.attempting.value !in rec.applied
      requires Trusted(s, doubt) ==> Recoverable(s, rec, world)
      modifies this
      ensures Sound() && Onward()
      ensures Demotes(s, old(rec), old(world), demoted)
      ensures r.Ok? ==> Halted() && stored == rec && RefusedAs(s, demoted, LastOf(demoted), rec)
    {
      hide Kept, Holds, Settled, Trusted, Evidence, AllProtected, HoldsEarlier, Snapped, Clean, Recoverable, ReadsAsBefore, RefusedAs, GoesOn;
      GoesOnAlong();
      demoted := rec.applied;
      var never := NeverTook();
      if never {
        r := BootDrops();
      } else {
        demoted := rec.applied + [rec.attempting.value];
        InterruptedMayBeMarked(s, rec, world, doubt);
        rec := rec.(applied := rec.applied + [rec.attempting.value], attempting := None, attemptingPre := map[]);
        r := RefuseApplied(LastOf(rec.applied));
      }
    }

    /** Whether the step in flight left every fact it observes as it was. */
    method NeverTook() returns (never: bool)
      requires InHand() && rec == stored && InFlight(rec) && rec.attempting.value !in rec.applied
      requires Trusted(s, doubt) ==> Recoverable(s, rec, world)
      modifies this`doubt
      ensures InHand() && Onward() && (doubt == old(doubt) || (old(doubt).Certain? && doubt.Collided? && !Trusted(s, doubt)))
      ensures never ==> rec.attemptingPre != map[] && ReadsAsBefore(s, world, HostAt(s, rec.attempting.value.AsKey()), rec.attemptingPre)
      ensures never && Trusted(s, doubt) ==> Clean(s, world, rec.attempting.value.AsKey())
      ensures never && Trusted(s, doubt) && HoldsEarlier(s, rec.applied) ==> rec.attempting.value.AsKey() !in rec.markers
      ensures Trusted(s, doubt) ==> Snapped(s, rec.snapshots, rec.attempting.value.AsKey())
    {
      hide Kept, Holds, Settled, Trusted, Evidence, AllProtected, Snapped, Clean, PreRight, HoldsEarlier, ReadsAsBefore;
      var key := rec.attempting.value.AsKey();
      var op := OpAt(s.plan.body, key.step);
      if op.None? || rec.attemptingPre == map[] || s.concrete(op.value, key.vars).None? { return false; }
      AttemptIsKnown(s, rec, world, doubt);
      never := Untouched(op.value, key, rec.attemptingPre);
    }

    method BootDrops() returns (r: Res<Flow>)
      requires InHand() && rec == stored && InFlight(rec) && rec.attempting.value !in rec.applied
      requires Trusted(s, doubt) ==> Clean(s, world, rec.attempting.value.AsKey())
      requires Trusted(s, doubt) && HoldsEarlier(s, rec.applied) ==> rec.attempting.value.AsKey() !in rec.markers
      modifies this`rec, this`stored, this`world, this`trail, this`moments, this`acts
      ensures Sound() && Onward()
      ensures |acts| > |old(acts)| && acts[|old(acts)|] == Journaled(UndoSkipped(old(rec).attempting.value.step), old(rec).backstop)
      ensures r.Ok? ==> Halted() && stored == rec && RefusedAs(s, old(rec).applied, LastOf(old(rec).applied), rec)
    {
      hide Kept, Holds, Settled, Trusted, Evidence, AllProtected, HoldsEarlier, Clean, GoesOn;
      GoesOnAlong();
      GoesOnGrows();
      :- Log(UndoSkipped(rec.attempting.value.step));
      :- LetGo();
      r := Refused(LastOf(rec.applied));
    }

    /** The step in flight is let go of, and the machine told of a refusal. */
    method LetGo() returns (d: Done)
      requires InHand() && InFlight(rec)
      requires Trusted(s, doubt) ==> Clean(s, world, rec.attempting.value.AsKey())
      requires Trusted(s, doubt) && HoldsEarlier(s, rec.applied) ==> rec.attempting.value.AsKey() !in rec.markers
      modifies this`rec, this`stored, this`trail, this`moments
      ensures Sound() && Onward()
      ensures d.Pass? ==> InHand() && stored == rec
      ensures d.Pass? ==> rec == Dropped(old(rec)).(state := if HoldsEarlier(s, old(rec).applied) then Held else Reverting)
    {
      hide Kept, Holds, Trusted, Evidence, AllProtected, Transition, CtxOf, HoldsEarlier, Clean, GoesOn;
      GoesOnAlong();
      UntakenMayBeDropped(s, rec, world, doubt, if HoldsEarlier(s, rec.applied) then Held else Reverting);
      rec := rec.(attempting := None, attemptingPre := map[]);
      FromApplying(s, rec);
      var told := Step(Refuse);
      return if told.Ok? then Done.Pass else Done.Fail;
    }

    // --- crashes and whole runs -----------------------------------------------------------

    /** The engine dies in some state it has been in, before the next: memory is lost, store and
        world stay. */
    method Crash(at: nat, ghost upto: nat)
      requires Sound() && at < |trail| && |moments[at].acts| <= upto <= |if at + 1 < |trail| then moments[at + 1].acts else acts|
      modifies this
      ensures Sound() && trail == old(trail)[..at + 1] && moments == old(moments)[..at + 1]
      ensures Point(stored, world) == old(trail)[at] && doubt == old(moments)[at].doubt
      ensures upto <= |old(acts)| && acts == old(acts)[..upto]
    {
      hide Kept, Holds, Settled, Trusted, Evidence, AllProtected;
      KeptEverywhere(s, through, trail, moments, at);
      if at + 1 < |trail| { KeptEverywhere(s, through, trail, moments, at + 1); }
      KeptCut(s, through, trail, moments, acts, at, upto);
      rec, stored, world := trail[at].rec, trail[at].rec, trail[at].world;
      doubt := moments[at].doubt;
      trail, moments, acts := trail[..at + 1], moments[..at + 1], acts[..upto];
    }

    /** Somebody else writes a fact an applied step may write. */
    method OthersWrite(i: nat, k: nat, v: Option<Bytes>)
      requires Sound() && i < |stored.applied|
      requires k < |Entries(s, stored.applied[i].AsKey())| && Writable(Entries(s, stored.applied[i].AsKey())[k])
      modifies this`world, this`trail, this`moments
      ensures Sound() && Lengthens() && world == Put(old(world), FactAt(s, stored.applied[i].AsKey(), k), v)
    {
      hide Kept, Holds, Trusted, Evidence, AllProtected;
      var f := FactAt(s, stored.applied[i].AsKey(), k);
      assert Touches(s, stored.applied[i].AsKey(), f);
      OthersMayWrite(s, stored, world, doubt, i, f, v);
      world := Put(world, f, v);
      Remember();
    }

    /** Any run at all: verbs, reap passes, restarts and other people's writes, in any order and in
        any state, with any answers, each of which ends, fails, or is cut short by a crash. Where
        it stops, an instance closed by its undo, with nothing applied, has every reserved fact
        at its initial value but those a step writes and does not observe, if the steps numbered up
        to `through` are honest and the run met none of the doubts its own history would hold the
        evidence of; one that met none of the states they come from is in no doubt. */
    method Operate(rounds: nat)
      requires Sound()
      modifies this
      ensures Sound() && Evidence(s, through, trail, acts, doubt)
      ensures Untroubled(s, through, trail, acts) ==> doubt == Certain(through)
      ensures stored.state.Closed? && stored.applied == [] && HonestThrough(s, through) && doubt.Certain? ==>
        Restored(s, through, world)
    {
      hide Kept, Holds, Trusted, Evidence, AllProtected, HonestThrough, Restored, Untroubled;
      var n := 0;
      while n < rounds
        invariant Sound()
      {
        var start := |trail| - 1;
        Anything();
        var at: nat := *;
        if start <= at < |trail| { CutShort(at); }
        n := n + 1;
      }
      Everywhere(|trail| - 1);
      if Untroubled(s, through, trail, acts) { UntroubledIsCertain(s, through, trail, acts, doubt); }
    }

    /** A crash, at any moment before the next state. */
    method CutShort(at: nat)
      requires Sound() && at < |trail|
      modifies this
      ensures Sound() && trail == old(trail)[..at + 1]
    {
      hide Holds, Trusted, Evidence, AllProtected;
      ghost var most := if at + 1 < |trail| then moments[at + 1].acts else acts;
      assert moments[at].acts <= most by {
        KeptEverywhere(s, through, trail, moments, at);
        if at + 1 < |trail| { ActsLeadOn(s, through, trail, moments, at); }
      }
      ghost var upto: nat :| |moments[at].acts| <= upto <= |most|;
      Crash(at, upto);
    }

    /** Some verb, whatever state the instance is in. */
    method Anything()
      requires Sound()
      modifies this
      ensures Sound()
    {
      hide Kept, Holds, Trusted, Evidence, AllProtected, Snapped;
      var verb: int := *;
      var now: nat := *;
      var flag: bool := *;
      now := if now >= 0 then now else 0;
      match verb
      case 0 => if stored.state.Pending? { var _ := Approve(now); }
      case 1 => var _ := Resume();
      case 2 => var _ := HandoffDone(now);
      case 3 => var _ := Recant(flag);
      case 4 => var _ := ConfirmVerb();
      case 5 => var _ := Finish(CommitVerb);
      case 6 => var _ := Finish(Cancel);
      case 7 => var _ := Finish(Abandon);
      case 8 => var _ := WaitEnds();
      case 9 => var _ := Reap(now, flag);
      case 10 => var _ := Advance();
      case 11 =>
        var i: nat, k: nat, v: Option<Bytes> := *, *, *;
        if 0 <= i < |stored.applied| && 0 <= k < |Entries(s, stored.applied[i].AsKey())| && Writable(Entries(s, stored.applied[i].AsKey())[k]) {
          OthersWrite(i, k, v);
        }
      case _ => var _, _ := Boot();
    }

    /** In every state the store and the world have been in together: what is applied is a prefix
        of the plan's unrolling with no application twice, the state is one the plan's intent
        admits, and, short of a doubt met by then, closed with nothing applied means every reserved
        fact is back but those a step writes and does not observe; so that all of them are back
        exactly when those were left as found. */
    lemma Everywhere(i: nat)
      requires Sound() && i < |trail|
      ensures Stands(s, through, trail[i], moments[i].doubt)
      ensures i == |trail| - 1 ==> Stands(s, through, trail[i], doubt)
    {
      hide Kept, Inv, Stands, Identified;
      KeptEverywhere(s, through, trail, moments, i);
      KeptIsIdentified(s, through, trail, moments);
      HoldsStands(s, through, trail[i], moments[i].doubt);
      if i == |trail| - 1 {
        HoldsOne(s, stored, world, doubt);
        HoldsStands(s, through, trail[i], doubt);
      }
    }

    /** Every act of the run was protected: a step that may sever a transport was announced under
        an armed backstop; and every `do` was begun of the next application of the unrolling,
        not applied, which the store named in flight with what was read of its facts. */
    lemma EveryAct(i: nat)
      requires Sound() && i < |acts|
      ensures acts[i].Began? ==> WrittenAhead(s, acts[i].at, acts[i].kept) && InstalledFor(s, acts[i].at.step, acts[i].kept.backstop)
      ensures acts[i].Journaled? && acts[i].ev.StepApplying? ==> Defended(s, acts[i].ev.step, acts[i].backstop)
      ensures acts[i].WalkedOut? ==> SkipsItsCommit(s, acts[i].choices)
    {
      hide Kept, Holds, Evidence;
      ProtectedEverywhere(s, acts, i);
    }
  }
}
