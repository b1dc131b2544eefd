/** Drift: what the undo of one step decides over the facts it observes, from the markers its
    `do` left. engine/src/lifecycle.rs, `undo_step`. */
module Drifting {
  import opened Wrappers
  import opened Model
  import opened Footprint
  import opened Safety

  /** The shapes an undo goes over, and the shapes that hold it back. */
  datatype Judgement = Judgement(clobbered: seq<string>, held: seq<string>)

  predicate NoRegion(es: seq<FootprintEntry>) {
    forall k :: 0 <= k < |es| ==> !es[k].kind.Region?
  }

  function PolicyOf(op: Op, es: seq<FootprintEntry>): Model.Drift {
    match EffectiveDrift(op.(footprint := es))
    case Some(drift) => drift
    case None => Clobber
  }

  function MarkersAt(markers: map<Key, seq<Marker>>, key: Key): seq<Marker> {
    if key in markers then markers[key] else []
  }

  function FindMarker(ms: seq<Marker>, address: string): Option<Digest> {
    if ms == [] then None
    else if ms[0].address == address then Some(ms[0].digest)
    else FindMarker(ms[1..], address)
  }

  /** The address a fact is known by: its path where it is a file, its shape where it is not. */
  function AddressOf(shape: string): string { if IsFile(shape) then shape[5..] else shape }

  /** The markers of the facts the first `n` entries observe, as they read. */
  function MarkersOf(s: Setting, w: World, host: Host, es: seq<FootprintEntry>, n: nat): seq<Marker>
    requires n <= |es|
  {
    if n == 0 then []
    else
      var before := MarkersOf(s, w, host, es, n - 1);
      var e := es[n - 1];
      if Observed(e) then before + [Marker(AddressOf(e.shape), DigestOf(s.sha, Value(w, Fact(host, e.shape))))] else before
  }

  /** A fact was marked, and does not read as it was marked. */
  predicate Drifted(s: Setting, w: World, host: Host, ms: seq<Marker>, shape: string) {
    var recorded := FindMarker(ms, AddressOf(shape));
    recorded.Some? && recorded.value != DigestOf(s.sha, Value(w, Fact(host, shape)))
  }

  /** The judgement over the first `n` entries of a footprint without regions. */
  function Judged(s: Setting, w: World, host: Host, ms: seq<Marker>, policy: Model.Drift, force: bool, es: seq<FootprintEntry>, n: nat): Judgement
    requires n <= |es|
  {
    if n == 0 then Judgement([], [])
    else
      var before := Judged(s, w, host, ms, policy, force, es, n - 1);
      var e := es[n - 1];
      if !Observed(e) then before
      else
        match Forced(force, Decide(e.kind, policy, Drifted(s, w, host, ms, e.shape), None, false))
        case Undo => before
        case Clobbering | RestoreWhole => Judgement(before.clobbered + [e.shape], before.held)
        case Deferring | DeferForeign => Judgement(before.clobbered, before.held + [e.shape])
  }

  /** One of the first `n` entries observes the shape, and it drifted. */
  predicate DriftedBelow(s: Setting, w: World, host: Host, ms: seq<Marker>, es: seq<FootprintEntry>, n: nat, shape: string)
    requires n <= |es|
  {
    exists k :: 0 <= k < n && Observed(es[k]) && es[k].shape == shape && Drifted(s, w, host, ms, shape)
  }

  /** A shape is held back exactly when it drifted, the policy defers, and nothing forces it;
      it is gone over exactly when it drifted and is not held back. */
  lemma {:induction false} JudgedMeans(s: Setting, w: World, host: Host, ms: seq<Marker>, policy: Model.Drift, force: bool, es: seq<FootprintEntry>, n: nat, shape: string)
    requires n <= |es| && NoRegion(es)
    ensures var j := Judged(s, w, host, ms, policy, force, es, n);
      && (shape in j.held <==> policy.Defer? && !force && DriftedBelow(s, w, host, ms, es, n, shape))
      && (shape in j.clobbered <==> (policy.Clobber? || force) && DriftedBelow(s, w, host, ms, es, n, shape))
  {
    hide Drifted;
    if n > 0 {
      JudgedMeans(s, w, host, ms, policy, force, es, n - 1, shape);
      assert DriftedBelow(s, w, host, ms, es, n, shape)
        <==> DriftedBelow(s, w, host, ms, es, n - 1, shape)
             || (Observed(es[n - 1]) && es[n - 1].shape == shape && Drifted(s, w, host, ms, shape));
      hide DriftedBelow;
    }
  }

  /** Nothing is held back or gone over where every marked fact reads as it was marked. */
  lemma UndriftedIsUndone(s: Setting, w: World, host: Host, ms: seq<Marker>, policy: Model.Drift, force: bool, es: seq<FootprintEntry>)
    requires NoRegion(es)
    ensures Judged(s, w, host, ms, policy, force, es, |es|) == Judgement([], [])
       <==> forall k :: 0 <= k < |es| && Observed(es[k]) ==> !Drifted(s, w, host, ms, es[k].shape)
  {
    hide Drifted, Judged;
    var j := Judged(s, w, host, ms, policy, force, es, |es|);
    forall k | 0 <= k < |es| && Observed(es[k]) && Drifted(s, w, host, ms, es[k].shape)
      ensures j != Judgement([], [])
    {
      JudgedMeans(s, w, host, ms, policy, force, es, |es|, es[k].shape);
      assert DriftedBelow(s, w, host, ms, es, |es|, es[k].shape);
    }
    if j.held != [] {
      JudgedMeans(s, w, host, ms, policy, force, es, |es|, j.held[0]);
    } else if j.clobbered != [] {
      JudgedMeans(s, w, host, ms, policy, force, es, |es|, j.clobbered[0]);
    }
  }

  // ---------------------------------------------------------------------------
  // Regions

  /** What is read of a region's strip: whether it is intact, where that is known, and whether
      others hold regions beside it. */
  datatype Strip = Strip(intact: Option<bool>, foreign: bool)

  function DecisionAt(s: Setting, w: World, host: Host, ms: seq<Marker>, policy: Model.Drift, force: bool, e: FootprintEntry, strip: Strip): Decision {
    Forced(force, Decide(e.kind, policy, Drifted(s, w, host, ms, e.shape), if e.kind.Region? then strip.intact else None, e.kind.Region? && strip.foreign))
  }

  /** The judgement over the first `n` entries of any footprint, given what was read of its strips. */
  function JudgedWith(s: Setting, w: World, host: Host, ms: seq<Marker>, policy: Model.Drift, force: bool, es: seq<FootprintEntry>, strips: seq<Strip>, n: nat): Judgement
    requires n <= |es| && n <= |strips|
  {
    if n == 0 then Judgement([], [])
    else
      var before := JudgedWith(s, w, host, ms, policy, force, es, strips, n - 1);
      var e := es[n - 1];
      if !Observed(e) then before
      else
        match DecisionAt(s, w, host, ms, policy, force, e, strips[n - 1])
        case Undo => before
        case Clobbering | RestoreWhole => Judgement(before.clobbered + [e.shape], before.held)
        case Deferring | DeferForeign => Judgement(before.clobbered, before.held + [e.shape])
  }

  /** Strips read later change nothing judged before. */
  lemma {:induction false} MoreStrips(s: Setting, w: World, host: Host, ms: seq<Marker>, policy: Model.Drift, force: bool, es: seq<FootprintEntry>, strips: seq<Strip>, more: seq<Strip>, n: nat)
    requires n <= |es| && n <= |strips| && strips <= more
    ensures JudgedWith(s, w, host, ms, policy, force, es, more, n) == JudgedWith(s, w, host, ms, policy, force, es, strips, n)
  {
    hide DecisionAt;
    if n > 0 {
      MoreStrips(s, w, host, ms, policy, force, es, strips, more, n - 1);
      assert more[n - 1] == strips[n - 1];
    }
  }

  /** Without regions, what is read of strips does not matter. */
  lemma {:induction false} StripsDoNotMatter(s: Setting, w: World, host: Host, ms: seq<Marker>, policy: Model.Drift, force: bool, es: seq<FootprintEntry>, strips: seq<Strip>, n: nat)
    requires n <= |es| && n <= |strips| && NoRegion(es)
    ensures JudgedWith(s, w, host, ms, policy, force, es, strips, n) == Judged(s, w, host, ms, policy, force, es, n)
  {
    hide Drifted;
    if n > 0 { StripsDoNotMatter(s, w, host, ms, policy, force, es, strips, n - 1); }
  }

  /** A fact has come away from what `do` left: a region when its strip is not intact, any other
      when it drifted. */
  predicate CameAway(s: Setting, w: World, host: Host, ms: seq<Marker>, e: FootprintEntry, strip: Strip) {
    if e.kind.Region? then strip.intact == Some(false) else Drifted(s, w, host, ms, e.shape)
  }

  /** Nothing overrides it, and the policy defers, or it is a region others hold theirs beside. */
  predicate Defers(policy: Model.Drift, force: bool, e: FootprintEntry, strip: Strip) {
    !force && (policy.Defer? || (e.kind.Region? && strip.foreign))
  }

  predicate SomeAway(s: Setting, w: World, host: Host, ms: seq<Marker>, policy: Model.Drift, force: bool, es: seq<FootprintEntry>, strips: seq<Strip>, n: nat, shape: string, deferred: bool)
    requires n <= |es| && n <= |strips|
  {
    exists k :: 0 <= k < n && Observed(es[k]) && es[k].shape == shape
      && CameAway(s, w, host, ms, es[k], strips[k]) && Defers(policy, force, es[k], strips[k]) == deferred
  }

  /** What holds an undo back is exactly what came away and defers; what it goes over is exactly
      what came away and does not: regions and all. */
  lemma {:induction false} JudgedWithMeans(s: Setting, w: World, host: Host, ms: seq<Marker>, policy: Model.Drift, force: bool, es: seq<FootprintEntry>, strips: seq<Strip>, n: nat, shape: string)
    requires n <= |es| && n <= |strips|
    ensures var j := JudgedWith(s, w, host, ms, policy, force, es, strips, n);
      && (shape in j.held <==> SomeAway(s, w, host, ms, policy, force, es, strips, n, shape, true))
      && (shape in j.clobbered <==> SomeAway(s, w, host, ms, policy, force, es, strips, n, shape, false))
  {
    hide Drifted;
    if n > 0 {
      JudgedWithMeans(s, w, host, ms, policy, force, es, strips, n - 1, shape);
      OneMoreAway(s, w, host, ms, policy, force, es, strips, n, shape, true);
      OneMoreAway(s, w, host, ms, policy, force, es, strips, n, shape, false);
    }
    hide SomeAway;
  }

  lemma OneMoreAway(s: Setting, w: World, host: Host, ms: seq<Marker>, policy: Model.Drift, force: bool, es: seq<FootprintEntry>, strips: seq<Strip>, n: nat, shape: string, deferred: bool)
    requires 0 < n <= |es| && n <= |strips|
    ensures SomeAway(s, w, host, ms, policy, force, es, strips, n, shape, deferred)
      <==> SomeAway(s, w, host, ms, policy, force, es, strips, n - 1, shape, deferred)
           || (Observed(es[n - 1]) && es[n - 1].shape == shape && CameAway(s, w, host, ms, es[n - 1], strips[n - 1])
               && Defers(policy, force, es[n - 1], strips[n - 1]) == deferred)
  {
    hide CameAway, Defers;
  }

  /** A step with no marker is never held back. */
  lemma HeldNeedsAMarker(s: Setting, w: World, host: Host, ms: seq<Marker>, policy: Model.Drift, force: bool, es: seq<FootprintEntry>, n: nat)
    requires n <= |es| && NoRegion(es)
    ensures Judged(s, w, host, ms, policy, force, es, n).held != [] ==> ms != []
  {
    var j := Judged(s, w, host, ms, policy, force, es, n);
    if j.held != [] {
      JudgedMeans(s, w, host, ms, policy, force, es, n, j.held[0]);
    }
  }

  /** No two observed shapes of a footprint are known by one address. */
  predicate AddressesApart(es: seq<FootprintEntry>) {
    forall i, j :: 0 <= i < |es| && 0 <= j < |es| && Observed(es[i]) && Observed(es[j]) ==>
      (AddressOf(es[i].shape) == AddressOf(es[j].shape) ==> es[i].shape == es[j].shape)
  }

  lemma {:induction false} FindInFront(ms: seq<Marker>, m: Marker, address: string)
    ensures FindMarker(ms + [m], address)
         == if FindMarker(ms, address).Some? then FindMarker(ms, address)
            else if m.address == address then Some(m.digest) else None
  {
    if ms == [] {
      assert ms + [m] == [m] && [m][1..] == [];
    } else {
      assert (ms + [m])[1..] == ms[1..] + [m] && (ms + [m])[0] == ms[0];
      FindInFront(ms[1..], m, address);
    }
  }

  lemma {:induction false} MarkersFound(s: Setting, w: World, host: Host, es: seq<FootprintEntry>, n: nat, k: nat)
    requires n <= |es| && AddressesApart(es) && k < |es| && Observed(es[k])
    ensures var found := FindMarker(MarkersOf(s, w, host, es, n), AddressOf(es[k].shape));
      && (found.Some? ==> found.value == DigestOf(s.sha, Value(w, Fact(host, es[k].shape))))
      && (k < n ==> found.Some?)
  {
    if n > 0 {
      MarkersFound(s, w, host, es, n - 1, k);
      var e := es[n - 1];
      if Observed(e) {
        FindInFront(MarkersOf(s, w, host, es, n - 1), Marker(AddressOf(e.shape), DigestOf(s.sha, Value(w, Fact(host, e.shape)))), AddressOf(es[k].shape));
      }
    }
  }

  /** Against the markers its `do` left, a fact has drifted exactly when its digest moved since. */
  lemma DriftedMeansMoved(s: Setting, marked: World, w: World, host: Host, es: seq<FootprintEntry>, k: nat)
    requires AddressesApart(es) && k < |es| && Observed(es[k])
    ensures Drifted(s, w, host, MarkersOf(s, marked, host, es, |es|), es[k].shape)
       <==> DigestOf(s.sha, Value(w, Fact(host, es[k].shape))) != DigestOf(s.sha, Value(marked, Fact(host, es[k].shape)))
  {
    MarkersFound(s, marked, host, es, |es|, k);
  }
}
