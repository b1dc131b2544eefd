/** The cross-plan ledger, core/src/ledger.rs, and the instances that hold reservations in it,
    engine/src/lifecycle.rs. */
module Ledger {
  import opened Wrappers
  import opened Model
  import States
  import Q = Interference

  datatype Reservation = Reservation(id: string, host: Host, umbra: seq<Q.Fact>, exclusivity: Option<string>, rehearsal: bool)

  datatype Ledger = Ledger(held: seq<Reservation>)

  datatype Code = R0101 | R0203

  datatype Admission = Admitted(ledger: Ledger) | Denied(code: Code, holder: string)

  /** Facts touch on equal shapes; two regions must also share an anchor. */
  predicate Touches(f: Q.Fact, g: Q.Fact) {
    f.shape == g.shape && (f.anchor.Some? && g.anchor.Some? ==> f.anchor == g.anchor)
  }

  predicate OneClass(a: Reservation, b: Reservation) { a.exclusivity.Some? && a.exclusivity == b.exclusivity }

  predicate UmbrasTouch(a: Reservation, b: Reservation) {
    exists f, g :: f in a.umbra && g in b.umbra && Touches(f, g)
  }

  /** The first holding on the host, of those that pass a test. */
  function FirstOfClass(held: seq<Reservation>, inst: Reservation): Option<Reservation> {
    if held == [] then None
    else if held[0].host == inst.host && OneClass(held[0], inst) then Some(held[0])
    else FirstOfClass(held[1..], inst)
  }

  function FirstTouching(held: seq<Reservation>, inst: Reservation): Option<Reservation> {
    if held == [] then None
    else if held[0].host == inst.host && UmbrasTouch(inst, held[0]) then Some(held[0])
    else FirstTouching(held[1..], inst)
  }

  /** `request`: a rehearsal is admitted and records nothing. */
  function Request(l: Ledger, inst: Reservation): Admission {
    if inst.rehearsal then Admitted(l)
    else if FirstOfClass(l.held, inst).Some? then Denied(R0101, FirstOfClass(l.held, inst).value.id)
    else if FirstTouching(l.held, inst).Some? then Denied(R0203, FirstTouching(l.held, inst).value.id)
    else Admitted(Ledger([inst] + l.held))
  }

  function Without(held: seq<Reservation>, id: string): seq<Reservation> {
    if held == [] then []
    else (if held[0].id != id then [held[0]] else []) + Without(held[1..], id)
  }

  /** `release`. */
  function Release(l: Ledger, id: string): Ledger { Ledger(Without(l.held, id)) }

  // ---------------------------------------------------------------------------
  // No two holdings on one host clash

  predicate Clash(a: Reservation, b: Reservation) {
    a.host == b.host && (OneClass(a, b) || UmbrasTouch(a, b))
  }

  ghost predicate Separate(held: seq<Reservation>) {
    forall i, j :: 0 <= i < j < |held| ==> !Clash(held[i], held[j])
  }

  lemma {:induction false} FirstsMean(held: seq<Reservation>, inst: Reservation)
    ensures FirstOfClass(held, inst).Some? <==> exists i :: 0 <= i < |held| && held[i].host == inst.host && OneClass(held[i], inst)
    ensures FirstTouching(held, inst).Some? <==> exists i :: 0 <= i < |held| && held[i].host == inst.host && UmbrasTouch(inst, held[i])
  {
    hide UmbrasTouch, OneClass;
    if held != [] {
      FirstsMean(held[1..], inst);
      assert forall i :: 1 <= i < |held| ==> held[1..][i - 1] == held[i];
      assert forall i :: 0 <= i < |held| - 1 ==> held[1..][i] == held[i + 1];
    }
  }

  /** A request is admitted exactly when it is a rehearsal or clashes with no holding. */
  lemma AdmittedIff(l: Ledger, inst: Reservation)
    ensures Request(l, inst).Admitted? <==> inst.rehearsal || forall i :: 0 <= i < |l.held| ==> !Clash(inst, l.held[i])
  {
    FirstsMean(l.held, inst);
    hide UmbrasTouch;
  }

  lemma RequestKeepsSeparate(l: Ledger, inst: Reservation)
    requires Separate(l.held) && Request(l, inst).Admitted?
    ensures Separate(Request(l, inst).ledger.held)
  {
    AdmittedIff(l, inst);
    hide Clash;
  }

  lemma {:induction false} WithoutMeans(held: seq<Reservation>, id: string, h: Reservation)
    ensures h in Without(held, id) <==> h in held && h.id != id
  {
    if held != [] {
      WithoutMeans(held[1..], id, h);
      assert held == [held[0]] + held[1..];
    }
  }

  lemma {:induction false} ReleaseKeepsSeparate(held: seq<Reservation>, id: string)
    requires Separate(held)
    ensures Separate(Without(held, id))
  {
    hide Clash;
    if held != [] {
      var rest := held[1..];
      ReleaseKeepsSeparate(rest, id);
      forall h | h in Without(rest, id) ensures !Clash(held[0], h) {
        WithoutMeans(rest, id, h);
        var j :| 0 <= j < |rest| && rest[j] == h;
        assert held[j + 1] == h;
      }
    }
  }

  // ---------------------------------------------------------------------------
  // The ledger read back from the store

  /** `to_ledger`: the kept reservations are admitted again, last one first. */
  function Readmitted(held: seq<Reservation>): Option<Ledger> {
    if held == [] then Some(Ledger([]))
    else
      match Readmitted(held[1..])
      case None => None
      case Some(l) => (match Request(l, held[0]) case Admitted(l') => Some(l') case Denied(_, _) => None)
  }

  /** Reading back a ledger that requests built never refuses, and gives the same ledger. */
  lemma {:induction false} ReadmissionNeverRefuses(held: seq<Reservation>)
    requires Separate(held) && forall i :: 0 <= i < |held| ==> !held[i].rehearsal
    ensures Readmitted(held) == Some(Ledger(held))
  {
    hide Clash;
    if held != [] {
      ReadmissionNeverRefuses(held[1..]);
      AdmittedIff(Ledger(held[1..]), held[0]);
      assert held == [held[0]] + held[1..];
    }
  }

  // ---------------------------------------------------------------------------
  // The ledger and the query

  /** The ledger sees fewer clashes than the query: it compares shapes whole. They agree on static
      shapes; beyond them the query also reports a shared static prefix. */
  lemma LedgerSeesEqualShapesOnly(f: Q.Fact, g: Q.Fact)
    ensures Touches(f, g) ==> Q.Touches(f, g)
    ensures Q.Touches(f, g) && !Touches(f, g) <==>
      f.shape != g.shape && (Q.RuntimeBound(f.shape) || Q.RuntimeBound(g.shape)) && Q.Touches(f, g)
  {
    Q.OverlapMeans(f.shape, g.shape);
  }

  /** Two instances whose steps the query would call overlapping are both admitted. */
  lemma {:induction false} PrefixOverlapIsAdmitted(id: string, other: string, host: Host)
    ensures var f, g := Q.Fact("file:/etc/{name}", None), Q.Fact("file:/etc/motd", None);
      && Q.Touches(f, g)
      && Request(Ledger([Reservation(id, host, [f], None, false)]), Reservation(other, host, [g], None, false)).Admitted?
  {
    var f, g := Q.Fact("file:/etc/{name}", None), Q.Fact("file:/etc/motd", None);
    var l := Ledger([Reservation(id, host, [f], None, false)]);
    AdmittedIff(l, Reservation(other, host, [g], None, false));
    assert f.shape[10] == '{';
    assert f.shape != g.shape by { assert |f.shape| == 16 && |g.shape| == 14; }
    var p := "file:/etc/";
    assert p <= f.shape && !Q.RuntimeBound(p);
    Q.StaticPartIsLongest(f.shape, p);
    Q.StaticPartStops(f.shape, 10);
    assert Q.StaticPart(f.shape) == p <= g.shape;
  }

  // ---------------------------------------------------------------------------
  // Instances and what they hold

  datatype Instance = Instance(
    state: States.State,
    rehearsal: bool,
    umbras: seq<(Host, seq<Q.Fact>)>,
    exclusivity: Option<string>,
    ledgerIds: seq<string>)

  /** A requested instance that has not ended. */
  predicate Live(st: States.State) { !States.Terminal(st) && !st.Unchecked? && !st.Checked? }

  /** An id a new instance may take: no record has it, or the one that does has ended. */
  predicate IsFree(instances: map<string, Instance>, id: string) {
    id in instances ==> States.Terminal(instances[id].state)
  }

  predicate Holds(i: Instance) { Live(i.state) && !i.rehearsal }

  function Lid(id: string, host: Host): string { id + "@" + host }

  function HoldingOf(id: string, i: Instance, k: nat): Reservation
    requires k < |i.umbras|
  {
    Reservation(Lid(id, i.umbras[k].0), i.umbras[k].0, i.umbras[k].1, i.exclusivity, false)
  }

  /** No host's name has the separator a reservation's id is written with. */
  predicate WellHosted(umbras: seq<(Host, seq<Q.Fact>)>) {
    forall k :: 0 <= k < |umbras| ==> '@' !in umbras[k].0
  }

  /** Whose reservations an id names: two pairs of instance and host share one exactly when they
      are the same, or one host's name is the other's behind a separator that the other's
      instance ends before. */
  lemma LidsCoincideIff(id: string, host: Host, id': string, host': Host)
    ensures Lid(id, host) == Lid(id', host')
       <==> (id == id' && host == host') || Behind(id, host, id', host') || Behind(id', host', id, host)
  {
    if Lid(id, host) == Lid(id', host') {
      if |id| == |id'| {
        assert id == Lid(id, host)[..|id|] == id';
        assert host == Lid(id, host)[|id| + 1..] == host';
      } else if |id| < |id'| {
        Reaches(id, host, id', host');
      } else {
        Reaches(id', host', id, host);
      }
    }
  }

  /** The second instance's id is the first's, a separator, and the start of the first's host. */
  predicate Behind(id: string, host: Host, id': string, host': Host) {
    |id| < |id'| && id + "@" <= id' && host == id'[|id| + 1..] + "@" + host'
  }

  lemma Reaches(id: string, host: Host, id': string, host': Host)
    requires |id| < |id'| && Lid(id, host) == Lid(id', host')
    ensures Behind(id, host, id', host')
  {
    var l := Lid(id, host);
    assert l[..|id| + 1] == id + "@" && l[..|id'|] == id' && l[|id'|] == '@';
    assert id'[..|id| + 1] == l[..|id| + 1];
    assert host == l[|id| + 1..];
    assert l[|id| + 1..] == id'[|id| + 1..] + "@" + host' by {
      assert l == id'[..|id| + 1] + (id'[|id| + 1..] + "@" + host') by { assert id' == id'[..|id| + 1] + id'[|id| + 1..]; }
    }
  }

  lemma LidInjective(id: string, host: Host, id': string, host': Host)
    requires '@' !in host && '@' !in host' && Lid(id, host) == Lid(id', host')
    ensures id == id' && host == host'
  {
    var l := Lid(id, host);
    assert l[|id|] == '@' && l[|id'|] == '@';
    forall p | |id| < p < |l| ensures l[p] != '@' { assert l[p] == host[p - |id| - 1]; }
    forall p | |id'| < p < |l| ensures l[p] != '@' { assert l[p] == host'[p - |id'| - 1]; }
    assert !(|id| < |id'|) && !(|id'| < |id|);
    assert id == l[..|id|] == id';
    assert host == l[|id| + 1..] == host';
  }

  function RequestAll(l: Ledger, hs: seq<Reservation>): Admission {
    if hs == [] then Admitted(l)
    else
      match RequestAll(l, hs[..|hs| - 1])
      case Denied(c, holder) => Denied(c, holder)
      case Admitted(l') => Request(l', hs[|hs| - 1])
  }

  lemma {:induction false} RequestAllMeans(l: Ledger, hs: seq<Reservation>)
    requires Separate(l.held) && RequestAll(l, hs).Admitted? && forall i :: 0 <= i < |hs| ==> !hs[i].rehearsal
    ensures Separate(RequestAll(l, hs).ledger.held)
    ensures forall h :: h in RequestAll(l, hs).ledger.held <==> h in l.held || h in hs
  {
    hide FirstOfClass, FirstTouching;
    if hs != [] {
      var before, last := hs[..|hs| - 1], hs[|hs| - 1];
      RequestAllMeans(l, before);
      RequestKeepsSeparate(RequestAll(l, before).ledger, last);
      assert hs == before + [last];
    }
  }

  lemma {:induction false} DeniedStaysDenied(l: Ledger, hs: seq<Reservation>, n: nat)
    requires n <= |hs| && RequestAll(l, hs[..n]).Denied?
    ensures RequestAll(l, hs).Denied?
    decreases |hs|
  {
    if n == |hs| {
      assert hs[..n] == hs;
    } else {
      assert hs[..|hs| - 1][..n] == hs[..n];
      DeniedStaysDenied(l, hs[..|hs| - 1], n);
    }
  }

  /** The engine's instances and the ledger they reserve in, at verb boundaries of a run without
      crashes or refused writes. */
  class Registry {
    var ledger: Ledger
    var instances: map<string, Instance>

    /** No two holdings clash, and each instance keeps the ids it reserved under. */
    ghost predicate Kept()
      reads this
    {
      && Separate(ledger.held)
      && (forall id :: id in instances ==> instances[id].ledgerIds == if Holds(instances[id]) then LidsOf(id, instances[id]) else [])
    }

    /** And the ledger holds exactly what live instances reserved. */
    ghost predicate Valid()
      reads this
    {
      Kept() && forall h :: h in ledger.held <==> Reserved(instances, h)
    }

    constructor ()
      ensures Valid() && instances == map[] && ledger.held == []
    {
      ledger, instances := Ledger([]), map[];
    }

    /** `apply`, up to the request: every host's umbra is reserved, or none is. The record is kept
        as Checked before the ledger is asked, and a refusal leaves it there: no verb ends a
        Checked instance, so its id is never free again. */
    method Apply(id: string, umbras: seq<(Host, seq<Q.Fact>)>, exclusivity: Option<string>, rehearsal: bool) returns (ok: bool)
      requires Kept()
      requires id in instances ==> instances[id].rehearsal == rehearsal
      modifies this
      ensures Kept() && (old(Valid()) ==> Valid())
      ensures ok <==> rehearsal || (IsFree(old(instances), id)
                                    && RequestAll(old(ledger), HoldingsFor(id, umbras, exclusivity)).Admitted?)
      ensures !ok ==> ledger == old(ledger)
                      && instances == if IsFree(old(instances), id)
                                      then old(instances)[id := Instance(States.Checked, rehearsal, umbras, exclusivity, [])]
                                      else old(instances)
      ensures ok ==> id in instances && instances == old(instances)[id := instances[id]]
                     && instances[id] == Instance(States.Pending, rehearsal, umbras, exclusivity, instances[id].ledgerIds)
    {
      hide Separate, HoldingsFor, LidsFor, RequestAll, Reserved;
      if !rehearsal && !IsFree(instances, id) { return false; }
      Keep(id, Instance(States.Checked, rehearsal, umbras, exclusivity, []));
      var trial, lids := Admitted(ledger), [];
      if !rehearsal { trial, lids := Reserve(id, umbras, exclusivity); }
      if trial.Denied? { return false; }
      Admit(id, Instance(States.Pending, rehearsal, umbras, exclusivity, lids), trial.ledger);
      return true;
    }

    /** Each host's umbra is requested of a copy of the ledger. */
    method Reserve(id: string, umbras: seq<(Host, seq<Q.Fact>)>, exclusivity: Option<string>) returns (trial: Admission, lids: seq<string>)
      requires Separate(ledger.held)
      ensures var hs := HoldingsFor(id, umbras, exclusivity);
        && (trial.Admitted? <==> RequestAll(ledger, hs).Admitted?)
        && (trial.Admitted? ==> lids == LidsFor(id, umbras) && Separate(trial.ledger.held)
                                && forall h :: h in trial.ledger.held <==> h in ledger.held || h in hs)
    {
      hide Separate, Request;
      ghost var hs := HoldingsFor(id, umbras, exclusivity);
      trial, lids := Admitted(ledger), [];
      for k := 0 to |umbras|
        invariant trial.Admitted? && RequestAll(ledger, hs[..k]) == trial
        invariant lids == LidsFor(id, umbras[..k])
      {
        assert hs[..k + 1][..k] == hs[..k] && umbras[..k + 1] == umbras[..k] + [umbras[k]];
        assert hs[..k + 1][k] == hs[k];
        trial := Request(trial.ledger, Reservation(Lid(id, umbras[k].0), umbras[k].0, umbras[k].1, exclusivity, false));
        if trial.Denied? {
          DeniedStaysDenied(ledger, hs, k + 1);
          return;
        }
        lids := lids + [Lid(id, umbras[k].0)];
      }
      assert hs[..|umbras|] == hs && umbras[..|umbras|] == umbras;
      RequestAllMeans(ledger, hs);
    }

    /** A checked instance is recorded; it holds nothing yet. */
    method Keep(id: string, i: Instance)
      requires Kept() && i.state.Checked? && i.ledgerIds == []
      requires id in instances ==> !Holds(instances[id])
      modifies this`instances
      ensures Kept() && (old(Valid()) ==> Valid()) && instances == old(instances)[id := i]
    {
      hide Separate;
      ghost var before := instances;
      instances := instances[id := i];
      forall h ensures Reserved(instances, h) <==> Reserved(before, h) {
        KeptReserves(before, id, i, h);
      }
    }

    /** A new instance is recorded with the ledger its requests gave. */
    method Admit(id: string, i: Instance, trial: Ledger)
      requires Kept() && i.state.Pending?
      requires id in instances ==> !Holds(instances[id])
      requires i.ledgerIds == if i.rehearsal then [] else LidsOf(id, i)
      requires Separate(trial.held)
      requires forall h :: h in trial.held <==> h in ledger.held || (!i.rehearsal && h in HoldingsFor(id, i.umbras, i.exclusivity))
      modifies this
      ensures Kept() && (old(Valid()) ==> Valid()) && instances == old(instances)[id := i]
    {
      hide Separate, Clash;
      ghost var before := instances;
      ledger, instances := trial, instances[id := i];
      forall h ensures Reserved(instances, h) <==> Reserved(before, h) || (!i.rehearsal && h in HoldingsFor(id, i.umbras, i.exclusivity)) {
        AdmittedReserves(before, id, i, h);
      }
    }

    /** A change of state that neither ends the instance nor begins it. */
    method Move(id: string, st: States.State)
      requires Kept() && id in instances && Live(instances[id].state) && Live(st)
      modifies this
      ensures Kept() && (old(Valid()) ==> Valid())
      ensures ledger == old(ledger) && instances == old(instances)[id := old(instances)[id].(state := st)]
    {
      hide Separate;
      ghost var before := instances;
      instances := instances[id := instances[id].(state := st)];
      forall h ensures Reserved(instances, h) <==> Reserved(before, h) {
        MovedReserves(before, id, st, h);
      }
    }

    /** `release`, as every terminal state does it: each of the instance's reservations goes, and
        nothing else. The ledger is still what live instances reserved exactly when no other live
        instance reserved under one of its ids. */
    method Finish(id: string, st: States.State)
      requires Kept() && id in instances && Live(instances[id].state) && States.Terminal(st)
      modifies this
      ensures Kept() && (old(Valid()) ==> (Valid() <==> ApartFrom(old(instances), id)))
      ensures instances == old(instances)[id := old(instances)[id].(state := st, ledgerIds := [])]
      ensures forall h :: h in ledger.held <==> h in old(ledger).held && h.id !in old(instances)[id].ledgerIds
    {
      hide Separate, Holds, Reserved, ApartFrom;
      var i := instances[id];
      ghost var before := instances;
      ReleaseAll(i.ledgerIds);
      instances := instances[id := i.(state := st, ledgerIds := [])];
      FinishedIds(before, id, st);
      FinishedReservesIff(before, id, st);
    }

    method ReleaseAll(ids: seq<string>)
      requires Separate(ledger.held)
      modifies this`ledger
      ensures Separate(ledger.held)
      ensures forall h :: h in ledger.held <==> h in old(ledger).held && h.id !in ids
    {
      hide Separate;
      for n := 0 to |ids|
        invariant Separate(ledger.held)
        invariant forall h :: h in ledger.held <==> h in old(ledger).held && h.id !in ids[..n]
      {
        ReleaseKeepsSeparate(ledger.held, ids[n]);
        forall h ensures h in Without(ledger.held, ids[n]) <==> h in ledger.held && h.id != ids[n] {
          WithoutMeans(ledger.held, ids[n], h);
        }
        ledger := Release(ledger, ids[n]);
        assert ids[..n + 1] == ids[..n] + [ids[n]];
      }
      assert ids[..|ids|] == ids;
    }
  }

  lemma FinishedIds(before: map<string, Instance>, id: string, st: States.State)
    requires id in before && States.Terminal(st)
    ensures !Holds(before[id].(state := st, ledgerIds := []))
  {
  }

  function LidsFor(id: string, umbras: seq<(Host, seq<Q.Fact>)>): seq<string> {
    seq(|umbras|, k requires 0 <= k < |umbras| => Lid(id, umbras[k].0))
  }

  function LidsOf(id: string, i: Instance): seq<string> { LidsFor(id, i.umbras) }

  function HoldingsFor(id: string, umbras: seq<(Host, seq<Q.Fact>)>, exclusivity: Option<string>): seq<Reservation> {
    seq(|umbras|, k requires 0 <= k < |umbras| => Reservation(Lid(id, umbras[k].0), umbras[k].0, umbras[k].1, exclusivity, false))
  }

  /** Some live instance that is no rehearsal touches the holding's host, and holds it there. */
  ghost predicate Reserved(instances: map<string, Instance>, h: Reservation) {
    exists id, k :: id in instances && Holds(instances[id]) && 0 <= k < |instances[id].umbras| && h == HoldingOf(id, instances[id], k)
  }

  ghost predicate ReservedBy(instances: map<string, Instance>, id: string, h: Reservation) {
    id in instances && Holds(instances[id]) && h in HoldingsFor(id, instances[id].umbras, instances[id].exclusivity)
  }

  lemma ReservedMeans(instances: map<string, Instance>, h: Reservation)
    ensures Reserved(instances, h) <==> exists id :: ReservedBy(instances, id, h)
  {
    hide Holds;
    if id, k :| id in instances && Holds(instances[id]) && 0 <= k < |instances[id].umbras| && h == HoldingOf(id, instances[id], k) {
      assert HoldingsFor(id, instances[id].umbras, instances[id].exclusivity)[k] == h;
      assert ReservedBy(instances, id, h);
    }
    if id :| ReservedBy(instances, id, h) {
      var hs := HoldingsFor(id, instances[id].umbras, instances[id].exclusivity);
      var k :| 0 <= k < |hs| && hs[k] == h;
      assert h == HoldingOf(id, instances[id], k);
    }
  }

  lemma AdmittedReserves(before: map<string, Instance>, id: string, i: Instance, h: Reservation)
    requires id in before ==> !Holds(before[id])
    requires i.state.Pending?
    ensures Reserved(before[id := i], h) <==> Reserved(before, h) || (!i.rehearsal && h in HoldingsFor(id, i.umbras, i.exclusivity))
  {
    var after := before[id := i];
    ReservedMeans(before, h);
    ReservedMeans(after, h);
    hide HoldingsFor, Reserved;
    forall other | other != id ensures ReservedBy(after, other, h) <==> ReservedBy(before, other, h) {}
    assert ReservedBy(after, id, h) <==> !i.rehearsal && h in HoldingsFor(id, i.umbras, i.exclusivity);
    assert !ReservedBy(before, id, h);
  }

  lemma KeptReserves(before: map<string, Instance>, id: string, i: Instance, h: Reservation)
    requires i.state.Checked? && (id in before ==> !Holds(before[id]))
    ensures Reserved(before[id := i], h) <==> Reserved(before, h)
  {
    var after := before[id := i];
    ReservedMeans(before, h);
    ReservedMeans(after, h);
    hide HoldingsFor, Reserved;
    forall other ensures ReservedBy(after, other, h) <==> ReservedBy(before, other, h) {}
  }

  lemma MovedReserves(before: map<string, Instance>, id: string, st: States.State, h: Reservation)
    requires id in before && Live(before[id].state) && Live(st)
    ensures Reserved(before[id := before[id].(state := st)], h) <==> Reserved(before, h)
  {
    var after := before[id := before[id].(state := st)];
    ReservedMeans(before, h);
    ReservedMeans(after, h);
    hide HoldingsFor, Reserved;
    forall other ensures ReservedBy(after, other, h) <==> ReservedBy(before, other, h) {}
  }

  /** No other live instance holds a reservation under one of an instance's ids. */
  ghost predicate ApartFrom(instances: map<string, Instance>, id: string)
    requires id in instances
  {
    forall other, h :: other != id && ReservedBy(instances, other, h) ==> h.id !in instances[id].ledgerIds
  }

  /** Taking an instance's ids out of the ledger takes its own reservations alone exactly when the
      instance is apart from the others. */
  lemma FinishedReservesIff(before: map<string, Instance>, id: string, st: States.State)
    requires id in before && Live(before[id].state) && States.Terminal(st)
    requires forall o :: o in before ==> before[o].ledgerIds == if Holds(before[o]) then LidsOf(o, before[o]) else []
    ensures (forall h :: Reserved(before[id := before[id].(state := st, ledgerIds := [])], h) <==> Reserved(before, h) && h.id !in before[id].ledgerIds)
       <==> ApartFrom(before, id)
  {
    var after := before[id := before[id].(state := st, ledgerIds := [])];
    hide Reserved, HoldingsFor;
    forall h ensures Reserved(after, h) <==> exists other :: other != id && ReservedBy(before, other, h) {
      ReservedMeans(after, h);
      forall other ensures ReservedBy(after, other, h) <==> other != id && ReservedBy(before, other, h) {}
    }
    forall h ensures Reserved(before, h) <==> exists other :: ReservedBy(before, other, h) { ReservedMeans(before, h); }
    forall h | ReservedBy(before, id, h) ensures h.id in before[id].ledgerIds { OwnIds(before, id, h); }
  }

  lemma OwnIds(instances: map<string, Instance>, id: string, h: Reservation)
    requires ReservedBy(instances, id, h) && instances[id].ledgerIds == LidsOf(id, instances[id])
    ensures h.id in instances[id].ledgerIds
  {
    var hs := HoldingsFor(id, instances[id].umbras, instances[id].exclusivity);
    var k :| 0 <= k < |hs| && hs[k] == h;
    assert LidsOf(id, instances[id])[k] == h.id;
  }

  /** Where no host's name holds the separator, every instance is apart from the others. */
  lemma WellHostedIsApart(instances: map<string, Instance>, id: string)
    requires id in instances && forall o :: o in instances ==> WellHosted(instances[o].umbras)
    requires forall o :: o in instances ==> instances[o].ledgerIds == if Holds(instances[o]) then LidsOf(o, instances[o]) else []
    ensures ApartFrom(instances, id)
  {
    hide Holds;
    forall other, h | other != id && ReservedBy(instances, other, h) ensures h.id !in instances[id].ledgerIds {
      var hs := HoldingsFor(other, instances[other].umbras, instances[other].exclusivity);
      var k :| 0 <= k < |hs| && hs[k] == h;
      if h.id in instances[id].ledgerIds {
        var j :| 0 <= j < |instances[id].ledgerIds| && instances[id].ledgerIds[j] == h.id;
        LidInjective(other, instances[other].umbras[k].0, id, instances[id].umbras[j].0);
      }
    }
  }

  /** Any verb of the registry, over any instance it may be used on. What is Checked stays so. */
  method AnyVerb(r: Registry)
    requires r.Kept()
    modifies r
    ensures r.Kept()
    ensures forall id :: id in old(r.instances) && LeftChecked(old(r.instances)[id]) ==>
      id in r.instances && r.instances[id] == old(r.instances)[id]
  {
    hide Separate, Reserved;
    var verb: int, id: string, st: States.State := *, *, *;
    var umbras: seq<(Host, seq<Q.Fact>)>, exclusivity: Option<string>, rehearsal: bool := *, *, *;
    if verb == 0 {
      if id in r.instances ==> r.instances[id].rehearsal == rehearsal {
        var _ := r.Apply(id, umbras, exclusivity, rehearsal);
      }
    } else if id in r.instances && Live(r.instances[id].state) {
      if verb == 1 && Live(st) {
        r.Move(id, st);
      } else if States.Terminal(st) {
        r.Finish(id, st);
      }
    }
  }

  predicate LeftChecked(i: Instance) { i.state.Checked? && !i.rehearsal }

  /** What a refused request costs: after any other verbs, with whatever the ledger then holds, the
      same plan is refused, for the record its first request left. */
  method RefusedRequestKeepsItsId(r: Registry, id: string, umbras: seq<(Host, seq<Q.Fact>)>, exclusivity: Option<string>, rounds: nat) returns (ok: bool)
    requires r.Kept() && IsFree(r.instances, id)
    requires id in r.instances ==> !r.instances[id].rehearsal
    requires RequestAll(r.ledger, HoldingsFor(id, umbras, exclusivity)).Denied?
    modifies r
    ensures r.Kept() && !ok
    ensures id in r.instances && LeftChecked(r.instances[id])
  {
    hide Separate, Reserved, HoldingsFor, RequestAll;
    ok := r.Apply(id, umbras, exclusivity, false);
    for n := 0 to rounds
      invariant r.Kept() && id in r.instances && LeftChecked(r.instances[id])
    {
      AnyVerb(r);
    }
    ok := r.Apply(id, umbras, exclusivity, false);
  }
}
