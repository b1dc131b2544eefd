/** What the checker reports of a gate: `report` of core/src/gates.rs. */
module GateReport {
  import opened Wrappers
  import opened Model
  import opened Gates

  datatype Report = Report(satisfiable: bool, minDistinctHumans: Option<nat>, zeroHumanPath: bool, waitAloneAt: Option<Seconds>)

  function LeastHumans(ps: seq<Path>): Option<nat> {
    if ps == [] then None
    else
      var rest := LeastHumans(ps[1..]);
      if rest.Some? && rest.value < |ps[0].humans| then rest else Some(|ps[0].humans|)
  }

  /** The shortest wait of a path with no human; a path that waits for nothing gives none. */
  function LeastHumanlessWait(ps: seq<Path>): Option<Seconds> {
    if ps == [] then None
    else
      var rest := LeastHumanlessWait(ps[1..]);
      if ps[0].humans != [] || ps[0].wait.None? then rest
      else if rest.Some? && rest.value < ps[0].wait.value then rest
      else ps[0].wait
  }

  function ReportOf(auths: seq<Authenticator>, g: GateExpr): Report {
    var ps := SatisfyingPaths(auths, g);
    Report(ps != [], LeastHumans(ps), exists i :: 0 <= i < |ps| && ps[i].humans == [], LeastHumanlessWait(ps))
  }

  // ---------------------------------------------------------------------------
  // What a path knows of its humans

  predicate DistinctIds(auths: seq<Authenticator>) {
    forall i, j :: 0 <= i < j < |auths| ==> auths[i].id != auths[j].id
  }

  predicate IsHuman(auths: seq<Authenticator>, id: string) { exists a :: a in auths && a.id == id && a.human }

  predicate IsMachine(auths: seq<Authenticator>, id: string) { exists a :: a in auths && a.id == id && !a.human }

  predicate NoRepeats(ids: seq<string>) { forall i, j :: 0 <= i < j < |ids| ==> ids[i] != ids[j] }

  /** A path lists each human it uses once, and every other authenticator it uses is a machine. */
  ghost predicate Accurate(auths: seq<Authenticator>, p: Path) {
    && NoRepeats(p.humans)
    && (forall id :: id in p.humans <==> id in p.auths && IsHuman(auths, id))
    && (forall id :: id in p.auths ==> IsHuman(auths, id) || IsMachine(auths, id))
  }

  ghost predicate AllAccurate(auths: seq<Authenticator>, ps: seq<Path>) {
    forall p :: p in ps ==> Accurate(auths, p)
  }

  lemma MergeAccurate(auths: seq<Authenticator>, p: Path, q: Path)
    requires Accurate(auths, p) && Accurate(auths, q)
    ensures Accurate(auths, Merge(p, q))
  {
    hide IsHuman, IsMachine;
  }

  lemma OneIdentity(auths: seq<Authenticator>, a: Authenticator)
    requires DistinctIds(auths) && a in auths
    ensures IsHuman(auths, a.id) <==> a.human
  {
    var i :| 0 <= i < |auths| && auths[i] == a;
    if b :| b in auths && b.id == a.id {
      var j :| 0 <= j < |auths| && auths[j] == b;
      assert i == j;
    }
  }

  lemma {:induction false} PathsAccurate(auths: seq<Authenticator>, g: GateExpr)
    requires DistinctIds(auths)
    ensures AllAccurate(auths, SatisfyingPaths(auths, g))
    decreases g, 0, 0
  {
    match g
    case Single(f) => FactorPathsAccurate(auths, f);
    case Thresh(n, factors) =>
      forall p | p in SatisfyingPaths(auths, g) ensures Accurate(auths, p) {
        EverySubsetIsTried(auths, n, factors, p);
        var choice: seq<bool> :| |choice| == |factors| && Counts(n, factors, choice) && p in Product(auths, factors, choice);
        ProductAccurate(auths, factors, choice);
      }
  }

  lemma {:induction false} ProductAccurate(auths: seq<Authenticator>, factors: seq<Factor>, choice: seq<bool>)
    requires DistinctIds(auths) && |choice| == |factors|
    ensures AllAccurate(auths, Product(auths, factors, choice))
    decreases factors, 0, 0
  {
    hide Accurate, FactorPaths, MergeEach, Merge;
    if factors == [] {
      FreeIsAccurate(auths);
    } else {
      ProductAccurate(auths, factors[1..], choice[1..]);
      FactorPathsAccurate(auths, factors[0]);
      var ps, qs := FactorPaths(auths, factors[0]), Product(auths, factors[1..], choice[1..]);
      forall m | m in MergeEach(ps, qs) ensures Accurate(auths, m) {
        MergeEachMeans(ps, qs, m);
        var p, q :| p in ps && q in qs && m == Merge(p, q);
        MergeAccurate(auths, p, q);
      }
    }
  }

  lemma FreeIsAccurate(auths: seq<Authenticator>)
    ensures Accurate(auths, FREE)
  {
  }

  lemma {:induction false} FactorPathsAccurate(auths: seq<Authenticator>, f: Factor)
    requires DistinctIds(auths)
    ensures AllAccurate(auths, FactorPaths(auths, f))
    decreases f, 0, 0
  {
    match f
    case Auth(id, _) =>
      FindMeans(auths, id);
      match Find(auths, id) {
        case Some(a) => OneIdentity(auths, a);
        case None =>
      }
    case Humans(_) => HumanPathsAccurate(auths, auths);
    case Group(expr, _) => PathsAccurate(auths, expr);
    case Wait(_, _) =>
  }

  lemma {:induction false} HumanPathsAccurate(auths: seq<Authenticator>, some: seq<Authenticator>)
    requires forall a :: a in some ==> a in auths
    ensures AllAccurate(auths, HumanPaths(some))
    decreases some
  {
    if some != [] {
      HumanPathsAccurate(auths, some[1..]);
      assert some[0] in some;
      if some[0].human { assert IsHuman(auths, some[0].id); }
    }
  }

  lemma NoneListed(ids: seq<string>)
    ensures ids == [] <==> forall id :: id !in ids
  {
    if ids != [] { assert ids[0] in ids; }
  }

  // ---------------------------------------------------------------------------
  // The report is exact

  /** The humans among some proofs. */
  ghost function HumansIn(auths: seq<Authenticator>, proofs: set<string>): set<string> {
    set id | id in proofs && IsHuman(auths, id)
  }

  lemma {:induction false} LeastHumansMeans(ps: seq<Path>)
    ensures LeastHumans(ps).Some? <==> ps != []
    ensures forall p :: p in ps ==> LeastHumans(ps).Some? && LeastHumans(ps).value <= |p.humans|
    ensures LeastHumans(ps).Some? ==> exists p :: p in ps && |p.humans| == LeastHumans(ps).value
  {
    if ps != [] {
      LeastHumansMeans(ps[1..]);
      assert ps == [ps[0]] + ps[1..] && ps[0] in ps;
      if LeastHumans(ps[1..]).Some? {
        var p :| p in ps[1..] && |p.humans| == LeastHumans(ps[1..]).value;
        assert p in ps;
      }
    }
  }

  lemma {:induction false} CountOf(ids: seq<string>)
    requires NoRepeats(ids)
    ensures |set id | id in ids| == |ids|
  {
    if ids != [] {
      CountOf(ids[1..]);
      assert (set id | id in ids) == {ids[0]} + (set id | id in ids[1..]);
    }
  }

  lemma SmallerSet(a: set<string>, b: set<string>)
    requires a <= b
    ensures |a| <= |b|
  {
    assert |b - a| == |b| - |a|;
  }

  /** `min_distinct_humans` is none exactly when nothing satisfies the gate; else every satisfying
      set of proofs, at any time, holds at least that many humans, and one holds exactly as many. */
  lemma MinDistinctHumansIsExact(auths: seq<Authenticator>, g: GateExpr)
    requires DistinctIds(auths)
    ensures var m := ReportOf(auths, g).minDistinctHumans;
      && (m.Some? <==> exists proofs, t :: Satisfied(auths, g, proofs, t))
      && (m.Some? ==> forall proofs, t :: Satisfied(auths, g, proofs, t) ==> |HumansIn(auths, proofs)| >= m.value)
      && (m.Some? ==> exists proofs, t :: Satisfied(auths, g, proofs, t) && |HumansIn(auths, proofs)| == m.value)
  {
    var ps := SatisfyingPaths(auths, g);
    LeastHumansMeans(ps);
    PathsAccurate(auths, g);
    forall proofs, t | Satisfied(auths, g, proofs, t)
      ensures LeastHumans(ps).Some? && |HumansIn(auths, proofs)| >= LeastHumans(ps).value
    {
      var p :| p in ps && Open(p, proofs, t);
      CountOf(p.humans);
      SmallerSet((set id | id in p.humans), HumansIn(auths, proofs));
    }
    if LeastHumans(ps).Some? {
      var p :| p in ps && |p.humans| == LeastHumans(ps).value;
      var proofs := set id | id in p.auths;
      assert Open(p, proofs, WaitOf(p));
      assert Satisfied(auths, g, proofs, WaitOf(p));
      CountOf(p.humans);
      assert HumansIn(auths, proofs) == set id | id in p.humans;
    }
  }

  ghost predicate Machines(auths: seq<Authenticator>, proofs: set<string>) {
    forall id :: id in proofs ==> !IsHuman(auths, id)
  }

  /** `zero_human_path` holds exactly when proofs no human gave, and time enough, satisfy the gate. */
  lemma ZeroHumanPathIsExact(auths: seq<Authenticator>, g: GateExpr)
    requires DistinctIds(auths)
    ensures ReportOf(auths, g).zeroHumanPath
       <==> exists proofs, t :: Machines(auths, proofs) && Satisfied(auths, g, proofs, t)
  {
    var ps := SatisfyingPaths(auths, g);
    PathsAccurate(auths, g);
    if i :| 0 <= i < |ps| && ps[i].humans == [] {
      var proofs := set id | id in ps[i].auths;
      assert Accurate(auths, ps[i]);
      assert Open(ps[i], proofs, WaitOf(ps[i]));
      assert Machines(auths, proofs) && Satisfied(auths, g, proofs, WaitOf(ps[i]));
    }
    if proofs, t :| Machines(auths, proofs) && Satisfied(auths, g, proofs, t) {
      var p :| p in ps && Open(p, proofs, t);
      var i :| 0 <= i < |ps| && ps[i] == p;
      assert Accurate(auths, p);
      NoneListed(p.humans);
    }
  }

  // ---------------------------------------------------------------------------
  // Wait alone

  lemma {:induction false} LeastHumanlessWaitMeans(ps: seq<Path>)
    ensures var w := LeastHumanlessWait(ps);
      && (w.Some? ==> exists p :: p in ps && p.humans == [] && p.wait == w)
      && (forall p :: p in ps && p.humans == [] && p.wait.Some? ==> w.Some? && w.value <= p.wait.value)
  {
    if ps != [] {
      LeastHumanlessWaitMeans(ps[1..]);
      assert ps == [ps[0]] + ps[1..] && ps[0] in ps;
      if LeastHumanlessWait(ps[1..]).Some? {
        var p :| p in ps[1..] && p.humans == [] && p.wait == LeastHumanlessWait(ps[1..]);
        assert p in ps;
      }
    }
  }

  /** `wait_alone_at` looks for paths with no human, not with no authenticator: a machine may still
      have to prove. This gate is reported to open by waiting alone, and never does. */
  lemma WaitAloneMayNeedAMachine(t: Seconds)
    ensures var auths := [Authenticator("ci", false)];
            var g := Thresh(2, [Auth("ci", 1), Factor.Wait(10, 1)]);
      ReportOf(auths, g).waitAloneAt.Some? && !Satisfied(auths, g, {}, t)
  {
    var auths := [Authenticator("ci", false)];
    var factors := [Auth("ci", 1), Factor.Wait(10, 1)];
    var g := Thresh(2, factors);
    assert !Eval(auths, g, {}, t) by {
      assert factors[1..] == [Factor.Wait(10, 1)] && factors[1..][1..] == [];
      assert Weighed(auths, factors[1..][1..], {}, t) == 0;
      assert Weighed(auths, factors[1..], {}, t) <= 1;
      assert !HoldsNow(auths, factors[0], {}, t);
      assert Weighed(auths, factors, {}, t) <= 1;
    }
    SatisfiedMeansTheThreshold(auths, g, {}, t);
    var ps := SatisfyingPaths(auths, g);
    var both := [true, true];
    var p := Path(["ci"], [], Some(10));
    assert p in Product(auths, factors, both) by {
      assert factors[1..] == [Factor.Wait(10, 1)] && both[1..] == [true];
      assert factors[1..][1..] == [] && both[1..][1..] == [];
      var last := Path([], [], Some(10));
      assert Merge(last, FREE) == last;
      MergeEachMeans([last], [FREE], last);
      assert FactorPaths(auths, factors[1]) == [last];
      var first := Path(["ci"], [], None);
      assert FactorPaths(auths, factors[0]) == [first];
      assert Nub(["ci"] + []) == ["ci"] by { assert ["ci"][..0] == []; assert Nub(["ci"][..0]) == []; }
      assert Merge(first, last) == p;
      MergeEachMeans([first], Product(auths, factors[1..], both[1..]), p);
    }
    assert Counts(2, factors, both) by {
      assert factors[1..] == [Factor.Wait(10, 1)] && both[1..] == [true];
      assert factors[1..][1..] == [] && both[1..][1..] == [];
      assert Total(factors, both) == 2;
    }
    EverySubsetIsTried(auths, 2, factors, p);
    LeastHumanlessWaitMeans(ps);
  }

  /** A gate by its elapsed waits alone: nobody proves anything. */
  predicate ByWaits(g: GateExpr, t: Seconds) {
    match g
    case Single(f) => Waited(f, t)
    case Thresh(n, factors) => WaitedWeight(factors, t) >= n
  }

  predicate Waited(f: Factor, t: Seconds) {
    match f
    case Wait(d, _) => d <= t
    case Group(expr, _) => ByWaits(expr, t)
    case _ => false
  }

  function WaitedWeight(factors: seq<Factor>, t: Seconds): nat {
    if factors == [] then 0
    else (if Waited(factors[0], t) then WeightOf(factors[0]) else 0) + WaitedWeight(factors[1..], t)
  }

  /** With no proof at all a gate is satisfied exactly by its waits. */
  lemma {:induction false} UnprovedIsByWaits(auths: seq<Authenticator>, g: GateExpr, t: Seconds)
    ensures Eval(auths, g, {}, t) <==> ByWaits(g, t)
    decreases g, 0
  {
    match g
    case Single(f) => UnprovedFactor(auths, f, t);
    case Thresh(_, factors) => UnprovedWeight(auths, factors, t);
  }

  lemma {:induction false} UnprovedFactor(auths: seq<Authenticator>, f: Factor, t: Seconds)
    ensures HoldsNow(auths, f, {}, t) <==> Waited(f, t)
    decreases f, 0
  {
    if f.Group? { UnprovedIsByWaits(auths, f.expr, t); }
  }

  lemma {:induction false} UnprovedWeight(auths: seq<Authenticator>, factors: seq<Factor>, t: Seconds)
    ensures Weighed(auths, factors, {}, t) == WaitedWeight(factors, t)
    decreases factors, 0
  {
    if factors != [] {
      UnprovedFactor(auths, factors[0], t);
      UnprovedWeight(auths, factors[1..], t);
    }
  }

  /** The first instant a gate opens by waiting. */
  ghost predicate OpensAt(g: GateExpr, t: Seconds) { ByWaits(g, t) && forall u :: ByWaits(g, u) ==> t <= u }

  /** What the reported instant is worth. It is never late: a gate that opens by its waits alone, and
      not at once, has one reported, no later than any instant it is open at. And it is the instant
      the gate opens exactly when the waits over by then reach the threshold with nobody proving. */
  lemma WaitAloneOpensIff(auths: seq<Authenticator>, g: GateExpr)
    requires DistinctIds(auths)
    ensures var w := ReportOf(auths, g).waitAloneAt;
      && (forall t :: Satisfied(auths, g, {}, t) <==> ByWaits(g, t))
      && (forall t :: ByWaits(g, t) && !ByWaits(g, 0) ==> w.Some? && w.value <= t)
      && (w.Some? && !ByWaits(g, 0) ==> (OpensAt(g, w.value) <==> ByWaits(g, w.value)))
  {
    var ps := SatisfyingPaths(auths, g);
    var w := ReportOf(auths, g).waitAloneAt;
    LeastHumanlessWaitMeans(ps);
    PathsAccurate(auths, g);
    forall t ensures Satisfied(auths, g, {}, t) <==> ByWaits(g, t) {
      SatisfiedMeansTheThreshold(auths, g, {}, t);
      UnprovedIsByWaits(auths, g, t);
    }
    forall t | ByWaits(g, t) && !ByWaits(g, 0) ensures w.Some? && w.value <= t {
      assert Satisfied(auths, g, {}, t) && !Satisfied(auths, g, {}, 0);
      var p :| p in ps && Open(p, {}, t);
      assert Accurate(auths, p) && !Open(p, {}, 0);
      NoneListed(p.humans);
    }
  }

  /** Where the binding publishes no machine, the report is right: at that instant the gate opens
      on no proof at all, and no earlier unless it opens at once. */
  lemma WaitAloneIsExactAmongHumans(auths: seq<Authenticator>, g: GateExpr)
    requires DistinctIds(auths) && forall a :: a in auths ==> a.human
    ensures var w := ReportOf(auths, g).waitAloneAt;
      && (w.Some? ==> Satisfied(auths, g, {}, w.value))
      && (forall t :: Satisfied(auths, g, {}, t) && !Satisfied(auths, g, {}, 0) ==> w.Some? && w.value <= t)
  {
    var ps := SatisfyingPaths(auths, g);
    var w := ReportOf(auths, g).waitAloneAt;
    LeastHumanlessWaitMeans(ps);
    PathsAccurate(auths, g);
    forall p | p in ps ensures p.humans == [] <==> Proved(p, {}) {
      assert Accurate(auths, p);
      forall id | id in p.auths ensures id in p.humans { assert !IsMachine(auths, id); }
      NoneListed(p.humans);
      NoneListed(p.auths);
    }
    if w.Some? {
      var p :| p in ps && p.humans == [] && p.wait == w;
      assert Open(p, {}, w.value);
    }
    forall t | Satisfied(auths, g, {}, t) && !Satisfied(auths, g, {}, 0) ensures w.Some? && w.value <= t {
      var p :| p in ps && Open(p, {}, t);
      assert !Open(p, {}, 0);
    }
  }
}
