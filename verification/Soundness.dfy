/** Steps whose facts are apart may be undone in any order, all or some: what a clean verdict
    promises of `revert`, `undo_step` and `restore_body` in engine/src/lifecycle.rs. */
module Soundness {
  import opened Wrappers
  import opened Model
  import opened Algebra
  import opened Footprint
  import opened Unrolling
  import opened Safety
  import opened Drifting
  import opened Invariant
  import opened Checker
  import Conflicts
  import Interference
  import Siblings
  import Restoration

  // ---------------------------------------------------------------------------
  // One undo

  /** The body a `:restore` undo runs, where there is one. */
  function BodyOf(s: Setting, snaps: Snapshots, key: Key): Option<seq<Prim>> {
    RestorePrims(key, Entries(s, key), |Entries(s, key)|, snaps)
  }

  function Undone(s: Setting, snaps: Snapshots, key: Key, w: World): World {
    match BodyOf(s, snaps, key)
    case Some(body) => AfterBody(w, HostAt(s, key), body)
    case None => w
  }

  ghost predicate Restorable(s: Setting, snaps: Snapshots, key: Key) {
    HonestApp(s, key) && Snapped(s, snaps, key) && BodyOf(s, snaps, key).Some?
  }

  predicate SetsIt(host: Host, prims: seq<Prim>, f: Fact) {
    exists i :: 0 <= i < |prims| && SetsFact(prims[i]) && Fact(host, prims[i].shape) == f
  }

  lemma {:induction false} BodySetsInitial(s: Setting, host: Host, prims: seq<Prim>, w: World, f: Fact)
    requires forall i :: 0 <= i < |prims| ==> PutsInitial(s, host, prims[i])
    ensures Value(AfterBody(w, host, prims), f) == if SetsIt(host, prims, f) then Init(s, f) else Value(w, f)
  {
    if prims != [] {
      var before, last := prims[..|prims| - 1], prims[|prims| - 1];
      BodySetsInitial(s, host, before, w, f);
      assert forall i :: 0 <= i < |before| ==> before[i] == prims[i];
      assert SetsIt(host, prims, f) <==> SetsIt(host, before, f) || (SetsFact(last) && Fact(host, last.shape) == f);
      assert PutsInitial(s, host, last);
    }
  }

  /** The body sets exactly the facts the step observes. */
  lemma BodySetsWhatIsCovered(s: Setting, snaps: Snapshots, key: Key, f: Fact)
    requires Restorable(s, snaps, key) && Faithful(s, snaps)
    ensures SetsIt(HostAt(s, key), BodyOf(s, snaps, key).value, f) <==> Covers(s, key, f)
  {
    hide HonestApp, Snapped, Faithful, RestorePrims, Entries, HostAt;
    var body, host, es := BodyOf(s, snaps, key).value, HostAt(s, key), Entries(s, key);
    RestoreBodyPutsInitial(s, snaps, key, body);
    var from := RestorePrimsFromEntries(key, es, |es|, snaps);
    if SetsIt(host, body, f) {
      var i :| 0 <= i < |body| && SetsFact(body[i]) && Fact(host, body[i].shape) == f;
      var k := from[i];
      assert Observed(es[k]) && FactAt(s, key, k) == f;
    }
  }

  /** One undo puts every fact the step observes back, and leaves every other fact alone. */
  lemma UndoneIs(s: Setting, snaps: Snapshots, key: Key, w: World, f: Fact)
    requires Restorable(s, snaps, key) && Faithful(s, snaps)
    ensures Value(Undone(s, snaps, key, w), f) == if Covers(s, key, f) then Init(s, f) else Value(w, f)
  {
    hide HonestApp, Snapped, Faithful, RestorePrims, Entries, HostAt, Value, Covers, SetsIt, PutsInitial;
    var body := BodyOf(s, snaps, key).value;
    RestoreBodyPutsInitial(s, snaps, key, body);
    BodySetsInitial(s, HostAt(s, key), body, w, f);
    BodySetsWhatIsCovered(s, snaps, key, f);
  }

  // ---------------------------------------------------------------------------
  // A run, and any undo of part of it

  /** No fact one application observes is one the other may write. */
  ghost predicate Spares(s: Setting, a: Key, b: Key) {
    forall f :: !(Covers(s, a, f) && Touches(s, b, f))
  }

  ghost predicate AllApart(s: Setting, keys: seq<Key>) {
    forall i, j :: 0 <= i < |keys| && 0 <= j < |keys| && i != j ==> Spares(s, keys[i], keys[j])
  }

  lemma SparesTheCovered(s: Setting, a: Key, b: Key, f: Fact)
    requires Spares(s, a, b) && Covers(s, a, f)
    ensures !Touches(s, b, f) && !Covers(s, b, f)
  {
    hide Covers, Touches;
    if Covers(s, b, f) { CoveredIsTouched(s, b, f); }
  }

  /** From the world the request found, each step's `do` changed facts of its own footprint only,
      observed or not. */
  ghost predicate RanThrough(s: Setting, keys: seq<Key>, ws: seq<World>) {
    && |ws| == |keys| + 1 && ws[0] == s.initial
    && forall i :: 0 <= i < |keys| ==> Within(s, keys[i], ws[i], ws[i + 1])
  }

  /** Undoing the steps at some positions, first to last of the list. */
  function UndoneAll(s: Setting, snaps: Snapshots, keys: seq<Key>, order: seq<nat>, w: World): World
    requires forall t :: 0 <= t < |order| ==> order[t] < |keys|
  {
    if order == [] then w
    else Undone(s, snaps, keys[order[|order| - 1]], UndoneAll(s, snaps, keys, order[..|order| - 1], w))
  }

  ghost predicate CoversSome(s: Setting, keys: seq<Key>, order: seq<nat>, f: Fact)
    requires forall t :: 0 <= t < |order| ==> order[t] < |keys|
  {
    exists t :: 0 <= t < |order| && Covers(s, keys[order[t]], f)
  }

  /** Undoing any steps in any order puts back exactly the facts they observe. */
  lemma {:induction false} AnySubsetRestoresItsFacts(s: Setting, snaps: Snapshots, keys: seq<Key>, order: seq<nat>, w: World, f: Fact)
    requires forall t :: 0 <= t < |order| ==> order[t] < |keys|
    requires Faithful(s, snaps) && forall i :: 0 <= i < |keys| ==> Restorable(s, snaps, keys[i])
    ensures Value(UndoneAll(s, snaps, keys, order, w), f)
         == if CoversSome(s, keys, order, f) then Init(s, f) else Value(w, f)
  {
    hide Restorable, Undone, Covers, Faithful;
    if order != [] {
      var before, last := order[..|order| - 1], order[|order| - 1];
      AnySubsetRestoresItsFacts(s, snaps, keys, before, w, f);
      UndoneIs(s, snaps, keys[last], UndoneAll(s, snaps, keys, before, w), f);
      assert forall t :: 0 <= t < |before| ==> before[t] == order[t];
      assert CoversSome(s, keys, order, f) <==> CoversSome(s, keys, before, f) || Covers(s, keys[last], f);
    }
  }

  /** What a step's `do` left its facts at is still there when the run ends. */
  lemma {:induction false} LaterStepsLeaveIt(s: Setting, keys: seq<Key>, ws: seq<World>, i: nat, j: nat, f: Fact)
    requires AllApart(s, keys) && RanThrough(s, keys, ws) && i < j <= |keys| && Covers(s, keys[i], f)
    ensures Value(ws[j], f) == Value(ws[i + 1], f)
    decreases j
  {
    hide Covers, Touches, Spares, Value;
    if j > i + 1 {
      LaterStepsLeaveIt(s, keys, ws, i, j - 1, f);
      SparesTheCovered(s, keys[i], keys[j - 1], f);
      assert Within(s, keys[j - 1], ws[j - 1], ws[j]);
    }
  }

  /** After some steps were undone, the `i`-th finds neither drift to go over nor drift to hold
      for, against the markers its own `do` left. */
  predicate NoDrift(s: Setting, snaps: Snapshots, keys: seq<Key>, ws: seq<World>, before: seq<nat>, i: nat, policy: Model.Drift, force: bool)
    requires i < |keys| && |ws| == |keys| + 1 && forall t :: 0 <= t < |before| ==> before[t] < |keys|
  {
    var es, host := Entries(s, keys[i]), HostAt(s, keys[i]);
    var w := UndoneAll(s, snaps, keys, before, ws[|keys|]);
    Judged(s, w, host, MarkersOf(s, ws[i + 1], host, es, |es|), policy, force, es, |es|) == Judgement([], [])
  }

  /** Whatever was undone before it, a step's undo finds every fact as its own `do` left it. */
  lemma {:induction false} NoStepFindsDrift(s: Setting, snaps: Snapshots, keys: seq<Key>, ws: seq<World>, before: seq<nat>, i: nat, policy: Model.Drift, force: bool)
    requires AllApart(s, keys) && RanThrough(s, keys, ws) && i < |keys| && i !in before
    requires forall t :: 0 <= t < |before| ==> before[t] < |keys|
    requires Faithful(s, snaps) && forall j :: 0 <= j < |keys| ==> Restorable(s, snaps, keys[j])
    requires AddressesApart(Entries(s, keys[i]))
    ensures NoDrift(s, snaps, keys, ws, before, i, policy, force)
  {
    hide HonestApp, Faithful, Snapped, RestorePrims, Judged, MarkersOf, Entries, HostAt, Value, Drifted;
    var key := keys[i];
    var es, host := Entries(s, key), HostAt(s, key);
    var w := UndoneAll(s, snaps, keys, before, ws[|keys|]);
    assert Restorable(s, snaps, key);
    NoRegions(s, key);
    forall k | 0 <= k < |es| && Observed(es[k])
      ensures !Drifted(s, w, host, MarkersOf(s, ws[i + 1], host, es, |es|), es[k].shape)
    {
      var f := FactAt(s, key, k);
      assert Covers(s, key, f);
      NotUndoneIsLeft(s, snaps, keys, ws, before, i, f);
      DriftedMeansMoved(s, ws[i + 1], w, host, es, k);
    }
    UndriftedIsUndone(s, w, host, MarkersOf(s, ws[i + 1], host, es, |es|), policy, force, es);
  }

  lemma {:induction false} NotUndoneIsLeft(s: Setting, snaps: Snapshots, keys: seq<Key>, ws: seq<World>, order: seq<nat>, i: nat, f: Fact)
    requires AllApart(s, keys) && RanThrough(s, keys, ws) && i < |keys| && Covers(s, keys[i], f) && i !in order
    requires forall t :: 0 <= t < |order| ==> order[t] < |keys|
    requires Faithful(s, snaps) && forall j :: 0 <= j < |keys| ==> Restorable(s, snaps, keys[j])
    ensures Value(UndoneAll(s, snaps, keys, order, ws[|keys|]), f) == Value(ws[i + 1], f)
  {
    hide Restorable, Covers, Faithful, Value;
    AnySubsetRestoresItsFacts(s, snaps, keys, order, ws[|keys|], f);
    LaterStepsLeaveIt(s, keys, ws, i, |keys|, f);
    forall t | 0 <= t < |order| ensures !Covers(s, keys[order[t]], f) {
      assert order[t] in order;
      SparesTheCovered(s, keys[i], keys[order[t]], f);
    }
  }

  /** Undoing some steps of a run, in any order, restores exactly those steps' facts: theirs are
      as the request found them, every other step's are as its `do` left them. */
  lemma {:induction false} AnySubsetInAnyOrder(s: Setting, snaps: Snapshots, keys: seq<Key>, ws: seq<World>, order: seq<nat>)
    requires AllApart(s, keys) && RanThrough(s, keys, ws)
    requires forall t :: 0 <= t < |order| ==> order[t] < |keys|
    requires Faithful(s, snaps) && forall i :: 0 <= i < |keys| ==> Restorable(s, snaps, keys[i])
    ensures var w := UndoneAll(s, snaps, keys, order, ws[|keys|]);
      forall i, f :: 0 <= i < |keys| && Covers(s, keys[i], f) ==>
        Value(w, f) == if i in order then Init(s, f) else Value(ws[i + 1], f)
  {
    hide Restorable, Covers, Faithful, Value, Undone;
    forall i, f | 0 <= i < |keys| && Covers(s, keys[i], f)
      ensures Value(UndoneAll(s, snaps, keys, order, ws[|keys|]), f) == if i in order then Init(s, f) else Value(ws[i + 1], f)
    {
      if i in order {
        AnySubsetRestoresItsFacts(s, snaps, keys, order, ws[|keys|], f);
        var t :| 0 <= t < |order| && order[t] == i;
        assert CoversSome(s, keys, order, f);
      } else {
        NotUndoneIsLeft(s, snaps, keys, ws, order, i, f);
      }
    }
  }

  ghost predicate CoveredBySome(s: Setting, keys: seq<Key>, f: Fact) {
    exists i :: 0 <= i < |keys| && Covers(s, keys[i], f)
  }

  /** Undoing every step, in any order, puts back every fact some step observes and leaves every
      other as the run left it: the world is the one the request found exactly when every fact no
      step observes was left as found. */
  lemma {:induction false} UndoingAllRestoresTheWorld(s: Setting, snaps: Snapshots, keys: seq<Key>, ws: seq<World>, order: seq<nat>)
    requires RanThrough(s, keys, ws)
    requires forall t :: 0 <= t < |order| ==> order[t] < |keys|
    requires forall i :: 0 <= i < |keys| ==> i in order
    requires Faithful(s, snaps) && forall i :: 0 <= i < |keys| ==> Restorable(s, snaps, keys[i])
    ensures var w := UndoneAll(s, snaps, keys, order, ws[|keys|]);
      && (forall f :: Value(w, f) == if CoveredBySome(s, keys, f) then Init(s, f) else Value(ws[|keys|], f))
      && (w == s.initial <==> forall f :: !CoveredBySome(s, keys, f) ==> Value(ws[|keys|], f) == Init(s, f))
  {
    hide Restorable, Covers, Faithful, Undone;
    var w := UndoneAll(s, snaps, keys, order, ws[|keys|]);
    forall f ensures Value(w, f) == if CoveredBySome(s, keys, f) then Init(s, f) else Value(ws[|keys|], f) {
      AnySubsetRestoresItsFacts(s, snaps, keys, order, ws[|keys|], f);
      if CoveredBySome(s, keys, f) {
        var i :| 0 <= i < |keys| && Covers(s, keys[i], f);
        assert i in order;
        var t :| 0 <= t < |order| && order[t] == i;
        assert CoversSome(s, keys, order, f);
      }
    }
    if forall f :: !CoveredBySome(s, keys, f) ==> Value(ws[|keys|], f) == Init(s, f) { SameValuesSameWorld(w, s.initial); }
  }

  /** Every entry a `do` may write is observed, or on a shape another entry has observed: none is
      append-only or a held resource that nothing else of the step restores. */
  predicate Retractable(es: seq<FootprintEntry>) {
    forall k :: 0 <= k < |es| && Writable(es[k]) ==> exists j :: 0 <= j < |es| && Observed(es[j]) && es[j].shape == es[k].shape
  }

  lemma RetractableMeans(s: Setting, key: Key)
    ensures Retractable(Entries(s, key)) <==> forall f :: Touches(s, key, f) ==> Covers(s, key, f)
  {
    hide Entries, HostAt;
    var es := Entries(s, key);
    if Retractable(es) {
      forall f | Touches(s, key, f) ensures Covers(s, key, f) {
        var k :| 0 <= k < |es| && Writable(es[k]) && FactAt(s, key, k) == f;
        var j :| 0 <= j < |es| && Observed(es[j]) && es[j].shape == es[k].shape;
        assert FactAt(s, key, j) == f;
      }
    }
    if forall f :: Touches(s, key, f) ==> Covers(s, key, f) {
      forall k | 0 <= k < |es| && Writable(es[k])
        ensures exists j :: 0 <= j < |es| && Observed(es[j]) && es[j].shape == es[k].shape
      {
        var f := FactAt(s, key, k);
        assert Touches(s, key, f) && Covers(s, key, f);
        var j :| 0 <= j < |es| && Observed(es[j]) && FactAt(s, key, j) == f;
      }
    }
  }

  /** No fact is written past every undo exactly when each planned step numbered at most `n` is so. */
  lemma NothingIsLooseIff(s: Setting, n: nat)
    ensures (forall f :: !Loose(s, n, f)) <==> (forall key :: IsPlanned(s, key) && Upto(s, n, key.step) ==> Retractable(Entries(s, key)))
  {
    hide Touches, Covers, Retractable, IsPlanned, Entries;
    forall key ensures Retractable(Entries(s, key)) <==> forall f :: Touches(s, key, f) ==> Covers(s, key, f) { RetractableMeans(s, key); }
    forall key, f | IsPlanned(s, key) && Upto(s, n, key.step) && Touches(s, key, f) && !Covers(s, key, f) ensures Loose(s, n, f) {}
  }

  /** A run in which one step changed one fact of its footprint, and nothing else was changed. */
  function OneWrite(s: Setting, keys: seq<Key>, i: nat, f: Fact, v: Option<Bytes>): (ws: seq<World>)
    ensures |ws| == |keys| + 1 && forall t :: 0 <= t <= |keys| ==> ws[t] == if t <= i then s.initial else Put(s.initial, f, v)
  {
    seq(|keys| + 1, t => if t <= i then s.initial else Put(s.initial, f, v))
  }

  lemma OneWriteRuns(s: Setting, keys: seq<Key>, i: nat, f: Fact, v: Option<Bytes>)
    requires i < |keys| && Touches(s, keys[i], f)
    ensures RanThrough(s, keys, OneWrite(s, keys, i, f, v))
  {
    hide Touches;
    var ws := OneWrite(s, keys, i, f, v);
    forall t | 0 <= t < |keys| ensures Within(s, keys[t], ws[t], ws[t + 1]) {
      assert forall g :: g != f ==> Value(ws[t + 1], g) == Value(ws[t], g);
    }
  }

  /** The undo of everything restores the world whatever the `do`s wrote exactly when no step's
      footprint has an entry it may write and nothing of it restores. */
  lemma {:induction false} AlwaysRestoredIff(s: Setting, snaps: Snapshots, keys: seq<Key>, order: seq<nat>)
    requires AllApart(s, keys)
    requires forall t :: 0 <= t < |order| ==> order[t] < |keys|
    requires forall i :: 0 <= i < |keys| ==> i in order
    requires Faithful(s, snaps) && forall i :: 0 <= i < |keys| ==> Restorable(s, snaps, keys[i])
    ensures (forall ws :: RanThrough(s, keys, ws) ==> UndoneAll(s, snaps, keys, order, ws[|keys|]) == s.initial)
       <==> (forall i :: 0 <= i < |keys| ==> Retractable(Entries(s, keys[i])))
  {
    hide Restorable, Covers, Touches, Faithful, Undone, UndoneAll, Within, Retractable, Entries, Spares;
    if forall i :: 0 <= i < |keys| ==> Retractable(Entries(s, keys[i])) {
      forall ws | RanThrough(s, keys, ws) ensures UndoneAll(s, snaps, keys, order, ws[|keys|]) == s.initial {
        UndoingAllRestoresTheWorld(s, snaps, keys, ws, order);
        forall f | !CoveredBySome(s, keys, f) ensures Value(ws[|keys|], f) == Init(s, f) {
          forall i | 0 <= i < |keys| ensures !Touches(s, keys[i], f) { RetractableMeans(s, keys[i]); }
          UntouchedStays(s, keys, ws, |keys|, f);
        }
      }
    }
    forall i | 0 <= i < |keys| && !Retractable(Entries(s, keys[i]))
      ensures exists ws :: RanThrough(s, keys, ws) && UndoneAll(s, snaps, keys, order, ws[|keys|]) != s.initial
    {
      RetractableMeans(s, keys[i]);
      var f :| Touches(s, keys[i], f) && !Covers(s, keys[i], f);
      SpilledIsKept(s, snaps, keys, order, i, f);
    }
  }

  lemma {:induction false} UntouchedStays(s: Setting, keys: seq<Key>, ws: seq<World>, j: nat, f: Fact)
    requires RanThrough(s, keys, ws) && j <= |keys| && forall i :: 0 <= i < |keys| ==> !Touches(s, keys[i], f)
    ensures Value(ws[j], f) == Init(s, f)
  {
    hide Touches;
    if j > 0 {
      UntouchedStays(s, keys, ws, j - 1, f);
      assert Within(s, keys[j - 1], ws[j - 1], ws[j]);
    }
  }

  lemma {:induction false} SpilledIsKept(s: Setting, snaps: Snapshots, keys: seq<Key>, order: seq<nat>, i: nat, f: Fact)
    requires AllApart(s, keys) && i < |keys| && Touches(s, keys[i], f) && !Covers(s, keys[i], f)
    requires forall t :: 0 <= t < |order| ==> order[t] < |keys|
    requires Faithful(s, snaps) && forall j :: 0 <= j < |keys| ==> Restorable(s, snaps, keys[j])
    ensures exists ws :: RanThrough(s, keys, ws) && UndoneAll(s, snaps, keys, order, ws[|keys|]) != s.initial
  {
    hide Restorable, Covers, Touches, Faithful, Undone, UndoneAll, RanThrough, Value, Put;
    var v: Option<Bytes> := if Init(s, f).None? then Some([]) else None;
    var ws := OneWrite(s, keys, i, f, v);
    OneWriteRuns(s, keys, i, f, v);
    forall t | 0 <= t < |order| ensures !Covers(s, keys[order[t]], f) {
      if order[t] != i { assert Spares(s, keys[order[t]], keys[i]); }
    }
    AnySubsetRestoresItsFacts(s, snaps, keys, order, ws[|keys|], f);
    assert Value(ws[|keys|], f) == v != Init(s, f);
  }

  lemma SameValuesSameWorld(a: World, b: World)
    requires forall f :: Value(a, f) == Value(b, f)
    ensures a == b
  {
    forall f ensures f in a <==> f in b { assert Value(a, f) == Value(b, f); }
    forall f | f in a ensures a[f] == b[f] { assert Value(a, f) == Value(b, f); }
  }

  /** No step past number `n` is among them. */
  predicate AllUpto(s: Setting, n: nat, ran: seq<AppliedStep>) {
    forall i :: 0 <= i < |ran| ==> Upto(s, n, ran[i].step)
  }

  /** The steps an honest plan ran are apart, and each can be undone. */
  lemma HonestRunsApart(s: Setting, n: nat, ch: Choices, ran: seq<AppliedStep>, snaps: Snapshots)
    requires HonestThrough(s, n) && ran <= Planned(s, ch) && AllUpto(s, n, ran)
    requires forall i :: 0 <= i < |ran| ==> Snapped(s, snaps, ran[i].AsKey()) && BodyOf(s, snaps, ran[i].AsKey()).Some?
    ensures AllApart(s, KeysOf(ran))
    ensures forall i :: 0 <= i < |ran| ==> Restorable(s, snaps, KeysOf(ran)[i])
  {
    hide RestorePrims, Snapped, HonestApp, ApartAt, BodyOf, Fast;
    var keys, u := KeysOf(ran), Planned(s, ch);
    assert forall i :: 0 <= i < |ran| ==> ran[i] == u[i] && Upto(s, n, ran[i].step);
    forall i | 0 <= i < |keys| ensures Restorable(s, snaps, keys[i]) { assert HonestApp(s, u[i].AsKey()); }
    forall i, j | 0 <= i < |keys| && 0 <= j < |keys| && i != j ensures Spares(s, keys[i], keys[j]) {
      assert Fast(s, n, u[i].AsKey()) && IsPlanned(s, u[j].AsKey());
      if i < j { assert BothUpto(s, n, u[i], u[j]); } else { assert BothUpto(s, n, u[j], u[i]); }
      FastSpares(s, n, keys[i], keys[j]);
    }
  }

  lemma FastSpares(s: Setting, n: nat, a: Key, b: Key)
    requires Fast(s, n, a) && IsPlanned(s, b) && Upto(s, n, b.step) && (ApartAt(s, a, b) || ApartAt(s, b, a))
    ensures Spares(s, a, b)
  {
    hide Covers, Touches, IsPlanned;
    forall f | Covers(s, a, f) ensures !Touches(s, b, f) {
      assert !Loose(s, n, f) && !Covers(s, b, f);
    }
  }

  /** What ran of a plan, under some arms, to a point at which no step past number `n` had run, and
      an order in which all of it is undone. */
  ghost predicate Ran(s: Setting, n: nat, ch: Choices, ran: seq<AppliedStep>, snaps: Snapshots, order: seq<nat>) {
    && ran <= Planned(s, ch) && AllUpto(s, n, ran) && Faithful(s, snaps)
    && (forall i :: 0 <= i < |ran| ==> Snapped(s, snaps, ran[i].AsKey()) && BodyOf(s, snaps, ran[i].AsKey()).Some?)
    && (forall t :: 0 <= t < |order| ==> order[t] < |ran|) && (forall i :: 0 <= i < |ran| ==> i in order)
  }

  /** A repeat-free plan that clears E0301, E0303 and E0305, its steps up to number `n` plain and
      honestly declared. */
  ghost predicate Cleared(s: Setting, n: nat) {
    && CleanQuery(s.plan.owner, s.plan.body) && PlainSteps(s.plan.owner, s.plan.body, n)
    && RepeatFree(s.plan.body) && Declared(s, n)
  }

  /** The checker's promise: of a cleared plan, the undo in any order of everything that ran puts
      back every fact the steps observe and leaves every other as the run left it, so it restores
      the world the request found exactly when those were left as found. */
  lemma {:induction false} CleanVerdictIsCorrect(s: Setting, n: nat, ch: Choices, ran: seq<AppliedStep>, snaps: Snapshots, ws: seq<World>, order: seq<nat>)
    requires Cleared(s, n) && Ran(s, n, ch, ran, snaps, order) && RanThrough(s, KeysOf(ran), ws)
    ensures var w := UndoneAll(s, snaps, KeysOf(ran), order, ws[|ran|]);
      && (forall f :: Value(w, f) == if CoveredBySome(s, KeysOf(ran), f) then Init(s, f) else Value(ws[|ran|], f))
      && (w == s.initial <==> forall f :: !CoveredBySome(s, KeysOf(ran), f) ==> Value(ws[|ran|], f) == Init(s, f))
  {
    hide RestorePrims, AllApart, RanThrough, HonestThrough, AllUpto, CleanQuery, PlainSteps, RepeatFree, Declared, Undone, UndoneAll, Entries, Faithful, Snapped, Planned, HonestApp, Value, CoveredBySome;
    CleanQueryIsHonest(s, n);
    HonestRunsApart(s, n, ch, ran, snaps);
    UndoingAllRestoresTheWorld(s, snaps, KeysOf(ran), ws, order);
  }

  /** So the undo of a cleared plan restores the world whatever its `do`s wrote exactly when no step
      that ran has an entry, append-only or held, that it may write and nothing of it restores. */
  lemma {:induction false} CleanVerdictRestoresIff(s: Setting, n: nat, ch: Choices, ran: seq<AppliedStep>, snaps: Snapshots, order: seq<nat>)
    requires Cleared(s, n) && Ran(s, n, ch, ran, snaps, order)
    ensures (forall ws :: RanThrough(s, KeysOf(ran), ws) ==> UndoneAll(s, snaps, KeysOf(ran), order, ws[|ran|]) == s.initial)
       <==> (forall i :: 0 <= i < |ran| ==> Retractable(Entries(s, ran[i].AsKey())))
  {
    hide RestorePrims, AllApart, RanThrough, HonestThrough, AllUpto, CleanQuery, PlainSteps, RepeatFree, Declared, Undone, UndoneAll, Entries, Faithful, Snapped, Planned, HonestApp, Retractable;
    CleanQueryIsHonest(s, n);
    HonestRunsApart(s, n, ch, ran, snaps);
    AlwaysRestoredIff(s, snaps, KeysOf(ran), order);
    assert forall i :: 0 <= i < |ran| ==> KeysOf(ran)[i] == ran[i].AsKey();
  }

  /** And no step of it finds drift, whichever steps were undone before it: none is held back and
      none goes over anything. */
  lemma {:induction false} CleanVerdictMeetsNoDrift(s: Setting, n: nat, ch: Choices, ran: seq<AppliedStep>, snaps: Snapshots, ws: seq<World>, before: seq<nat>, i: nat, policy: Model.Drift, force: bool)
    requires CleanQuery(s.plan.owner, s.plan.body) && PlainSteps(s.plan.owner, s.plan.body, n)
    requires RepeatFree(s.plan.body) && Declared(s, n) && AllUpto(s, n, ran)
    requires ran <= Planned(s, ch) && RanThrough(s, KeysOf(ran), ws) && Faithful(s, snaps)
    requires forall i :: 0 <= i < |ran| ==> Snapped(s, snaps, ran[i].AsKey()) && BodyOf(s, snaps, ran[i].AsKey()).Some?
    requires i < |ran| && i !in before && AddressesApart(Entries(s, ran[i].AsKey()))
    requires forall t :: 0 <= t < |before| ==> before[t] < |ran|
    ensures NoDrift(s, snaps, KeysOf(ran), ws, before, i, policy, force)
  {
    hide RestorePrims, AllApart, HonestThrough, AllUpto, CleanQuery, PlainSteps, RepeatFree, Declared, NoDrift, Undone, UndoneAll, Entries, Faithful, Snapped, Planned, HonestApp;
    CleanQueryIsHonest(s, n);
    HonestRunsApart(s, n, ch, ran, snaps);
    NoStepFindsDrift(s, snaps, KeysOf(ran), ws, before, i, policy, force);
  }

  /** A plan of one step that appends is cleared: nothing the checker refuses is in it. */
  lemma AppendStepIsCleared()
    ensures Cleared(Restoration.AppendStep(), 1)
    ensures !Retractable(Entries(Restoration.AppendStep(), Restoration.FIRST.AsKey()))
    ensures Interference.Fact(Restoration.SHAPE, None) in Interference.Writes(Restoration.OwnerOf(Restoration.AppendedFile(), Revert))
  {
    hide CleanQuery;
    var s, es := Restoration.AppendStep(), Restoration.AppendedFile();
    OneStepIsClean(s.plan.body[0]);
    Restoration.AppendStepIsHonest();
    assert es[1..] == [];
    forall k: nat, vars | k <= 1 && OpAt(s.plan.body, k).Some? ensures HonestDeclarations(s, Key(k, vars)) {
      assert k == 1;
      assert Entries(s, Key(k, vars)) == es;
    }
  }

  lemma OneStepIsClean(it: Item)
    requires it.Step?
    ensures CleanQuery("h", [it])
  {
    var body := [it];
    assert body[1..] == [];
    var l := Interference.StepsOf("h", [], it, 1)[0];
    assert Interference.StepsFrom("h", [], body[1..], 1 + LeafCountOf(it)) == [];
    assert Interference.StepFacts("h", body) == [l] && [l][1..] == [];
    assert Siblings.Pars([l], body[1..], 1 + LeafCountOf(it)) == [];
    assert Siblings.ParsOf("h", body) == [];
    assert Conflicts.OrderedPairs([], Siblings.ParSiblings("h", body)) == [] && Conflicts.OrderedPairs([], []) == [];
    assert Conflicts.StepPairs("h", body) == [] && Conflicts.EveryPair("h", body) == [];
  }

  function KeysOf(ran: seq<AppliedStep>): seq<Key> {
    seq(|ran|, i requires 0 <= i < |ran| => ran[i].AsKey())
  }
}
