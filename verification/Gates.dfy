/** Gates: core/src/gates.rs. A gate is a weighted threshold over factors; the checker enumerates
    its satisfying paths, and the engine asks whether the proofs it has complete one. */
module Gates {
  import opened Wrappers
  import opened Model

  /** One way of satisfying a gate. */
  datatype Path = Path(auths: seq<string>, humans: seq<string>, wait: Option<Seconds>)

  const FREE := Path([], [], None)

  function WeightOf(f: Factor): nat { f.weight }

  // ---------------------------------------------------------------------------
  // Subsets of factors

  function Pow2(k: nat): (p: nat)
    ensures p > 0
  {
    if k == 0 then 1 else 2 * Pow2(k - 1)
  }

  /** The lowest `k` bits of a mask, least first. */
  function Bits(mask: nat, k: nat): (c: seq<bool>)
    ensures |c| == k
  {
    if k == 0 then [] else [mask % 2 == 1] + Bits(mask / 2, k - 1)
  }

  function MaskOf(choice: seq<bool>): nat {
    if choice == [] then 0 else (if choice[0] then 1 else 0) + 2 * MaskOf(choice[1..])
  }

  lemma {:induction false} EveryChoiceHasAMask(choice: seq<bool>)
    ensures MaskOf(choice) < Pow2(|choice|) && Bits(MaskOf(choice), |choice|) == choice
  {
    if choice != [] {
      EveryChoiceHasAMask(choice[1..]);
      assert MaskOf(choice) / 2 == MaskOf(choice[1..]) && (MaskOf(choice) % 2 == 1 <==> choice[0]);
      assert choice == [choice[0]] + choice[1..];
    }
  }

  function Total(factors: seq<Factor>, choice: seq<bool>): nat
    requires |choice| == |factors|
  {
    if factors == [] then 0
    else (if choice[0] then WeightOf(factors[0]) else 0) + Total(factors[1..], choice[1..])
  }

  predicate Empty(choice: seq<bool>) { forall i :: 0 <= i < |choice| ==> !choice[i] }

  /** Every chosen factor is needed for the sum. */
  predicate Minimal(n: nat, factors: seq<Factor>, choice: seq<bool>)
    requires |choice| == |factors|
  {
    Empty(choice)
    || forall i :: 0 <= i < |factors| && choice[i] ==> Total(factors, choice) - WeightOf(factors[i]) < n
  }

  predicate Counts(n: nat, factors: seq<Factor>, choice: seq<bool>)
    requires |choice| == |factors|
  {
    Total(factors, choice) >= n && Minimal(n, factors, choice)
  }

  // ---------------------------------------------------------------------------
  // Paths

  function Later(a: Option<Seconds>, b: Option<Seconds>): Option<Seconds> {
    if a.None? then b
    else if b.None? then a
    else Some(if a.value >= b.value then a.value else b.value)
  }

  function Merge(p: Path, q: Path): Path {
    Path(Nub(p.auths + q.auths), Nub(p.humans + q.humans), Later(p.wait, q.wait))
  }

  function MergeOne(p: Path, qs: seq<Path>): seq<Path> {
    seq(|qs|, j requires 0 <= j < |qs| => Merge(p, qs[j]))
  }

  function MergeEach(ps: seq<Path>, qs: seq<Path>): seq<Path> {
    if ps == [] then [] else MergeOne(ps[0], qs) + MergeEach(ps[1..], qs)
  }

  function Find(auths: seq<Authenticator>, id: string): Option<Authenticator> {
    if auths == [] then None
    else if auths[0].id == id then Some(auths[0])
    else Find(auths[1..], id)
  }

  function HumanPaths(auths: seq<Authenticator>): seq<Path> {
    if auths == [] then []
    else (if auths[0].human then [Path([auths[0].id], [auths[0].id], None)] else []) + HumanPaths(auths[1..])
  }

  function FactorPaths(auths: seq<Authenticator>, f: Factor): seq<Path>
    decreases f, 0, 0
  {
    match f
    case Auth(id, _) =>
      (match Find(auths, id)
       case Some(a) => [Path([id], if a.human then [id] else [], None)]
       case None => [])
    case Humans(_) => HumanPaths(auths)
    case Group(expr, _) => SatisfyingPaths(auths, expr)
    case Wait(d, _) => [Path([], [], Some(d))]
  }

  function SatisfyingPaths(auths: seq<Authenticator>, g: GateExpr): seq<Path>
    decreases g, 0, 0
  {
    match g
    case Single(f) => FactorPaths(auths, f)
    case Thresh(n, factors) => UpTo(auths, n, factors, Pow2(|factors|))
  }

  /** The paths of the subsets whose masks are below a bound. */
  function UpTo(auths: seq<Authenticator>, n: nat, factors: seq<Factor>, bound: nat): seq<Path>
    decreases factors, 1, bound
  {
    if bound == 0 then []
    else UpTo(auths, n, factors, bound - 1) + OfChoice(auths, n, factors, Bits(bound - 1, |factors|))
  }

  function OfChoice(auths: seq<Authenticator>, n: nat, factors: seq<Factor>, choice: seq<bool>): seq<Path>
    requires |choice| == |factors|
    decreases factors, 0, 1
  {
    if Counts(n, factors, choice) then Product(auths, factors, choice) else []
  }

  /** A path per choice of one satisfying path for each chosen factor. */
  function Product(auths: seq<Authenticator>, factors: seq<Factor>, choice: seq<bool>): seq<Path>
    requires |choice| == |factors|
    decreases factors, 0, 0
  {
    if factors == [] then [FREE]
    else if choice[0] then MergeEach(FactorPaths(auths, factors[0]), Product(auths, factors[1..], choice[1..]))
    else Product(auths, factors[1..], choice[1..])
  }

  // ---------------------------------------------------------------------------
  // The enumeration as it runs

  const U32: nat := 0x1_0000_0000

  /** Every level has fewer factors than a mask has bits, and weights whose sum fits. */
  predicate WellSized(g: GateExpr) {
    match g
    case Single(f) => WellSizedFactor(f)
    case Thresh(_, factors) =>
      && |factors| < 64 && WeightSum(factors) < U32
      && forall i :: 0 <= i < |factors| ==> WellSizedFactor(factors[i])
  }

  predicate WellSizedFactor(f: Factor) { f.Group? ==> WellSized(f.expr) }

  function WeightSum(factors: seq<Factor>): nat {
    if factors == [] then 0 else WeightOf(factors[0]) + WeightSum(factors[1..])
  }

  lemma {:induction false} TotalFits(factors: seq<Factor>, choice: seq<bool>)
    requires |choice| == |factors|
    ensures Total(factors, choice) <= WeightSum(factors)
  {
    if factors != [] { TotalFits(factors[1..], choice[1..]); }
  }

  /** `satisfying_paths`: every subset of the factors by bitmask. Neither the mask nor the sum of
      weights wraps. */
  method EnumeratePaths(auths: seq<Authenticator>, g: GateExpr) returns (out: seq<Path>)
    requires WellSized(g)
    ensures out == SatisfyingPaths(auths, g)
    decreases g, 0
  {
    match g {
      case Single(f) => out := EnumerateFactor(auths, f);
      case Thresh(n, factors) =>
        MaskFits(|factors|, 64);
        var masks := Pow2(|factors|);
        assert masks <= Pow2(63);
        out := [];
        for mask := 0 to masks
          invariant out == UpTo(auths, n, factors, mask)
        {
          var choice := Bits(mask, |factors|);
          var total := SumChosen(factors, choice);
          if total >= n && Minimal(n, factors, choice) {
            var acc := EnumerateProduct(auths, factors, choice);
            out := out + acc;
          }
        }
    }
  }

  lemma {:induction false} MaskFits(k: nat, bits: nat)
    requires k < bits
    ensures Pow2(k) <= Pow2(bits - 1)
    decreases bits
  {
    if k < bits - 1 { MaskFits(k, bits - 1); }
  }

  method SumChosen(factors: seq<Factor>, choice: seq<bool>) returns (total: nat)
    requires |choice| == |factors| && WeightSum(factors) < U32
    ensures total == Total(factors, choice) && total < U32
  {
    total := 0;
    TotalFits(factors, choice);
    for i := 0 to |factors|
      invariant total + Total(factors[i..], choice[i..]) == Total(factors, choice)
    {
      assert factors[i..][1..] == factors[i + 1..] && choice[i..][1..] == choice[i + 1..];
      if choice[i] { total := total + WeightOf(factors[i]); }
    }
  }

  /** The product is taken from the last chosen factor to the first. */
  method EnumerateProduct(auths: seq<Authenticator>, factors: seq<Factor>, choice: seq<bool>) returns (acc: seq<Path>)
    requires |choice| == |factors| && forall i :: 0 <= i < |factors| ==> WellSizedFactor(factors[i])
    ensures acc == Product(auths, factors, choice)
    decreases factors, 1
  {
    hide WellSizedFactor, FactorPaths, MergeEach;
    acc := [FREE];
    var i := |factors|;
    while i > 0
      invariant 0 <= i <= |factors|
      invariant acc == Product(auths, factors[i..], choice[i..])
    {
      i := i - 1;
      assert factors[i..][1..] == factors[i + 1..] && choice[i..][1..] == choice[i + 1..];
      if choice[i] {
        var fps := EnumerateFactor(auths, factors[i]);
        acc := EnumerateMerge(fps, acc);
      }
    }
  }

  method EnumerateMerge(fps: seq<Path>, acc: seq<Path>) returns (next: seq<Path>)
    ensures next == MergeEach(fps, acc)
  {
    hide MergeOne, MergeEach;
    next := [];
    MergeEachEnds(fps, acc);
    for i := 0 to |fps|
      invariant next + MergeEach(fps[i..], acc) == MergeEach(fps, acc)
    {
      ghost var before := next;
      next := PushMerged(fps[i], acc, next);
      MergeEachStep(fps, acc, i);
      Associate(before, MergeOne(fps[i], acc), MergeEach(fps[i + 1..], acc));
    }
  }

  lemma MergeEachEnds(fps: seq<Path>, acc: seq<Path>)
    ensures fps[0..] == fps && MergeEach(fps[|fps|..], acc) == []
  {
  }

  lemma MergeEachStep(fps: seq<Path>, acc: seq<Path>, i: nat)
    requires i < |fps|
    ensures MergeEach(fps[i..], acc) == MergeOne(fps[i], acc) + MergeEach(fps[i + 1..], acc)
  {
    assert fps[i..][1..] == fps[i + 1..];
  }

  method PushMerged(p: Path, acc: seq<Path>, pushed: seq<Path>) returns (next: seq<Path>)
    ensures next == pushed + MergeOne(p, acc)
  {
    hide Merge;
    next := pushed;
    for j := 0 to |acc|
      invariant next == pushed + MergeOne(p, acc)[..j]
    {
      next := next + [Merge(p, acc[j])];
    }
    assert MergeOne(p, acc)[..|acc|] == MergeOne(p, acc);
  }

  method EnumerateFactor(auths: seq<Authenticator>, f: Factor) returns (out: seq<Path>)
    requires WellSizedFactor(f)
    ensures out == FactorPaths(auths, f)
    decreases f, 0
  {
    match f {
      case Group(expr, _) => out := EnumeratePaths(auths, expr);
      case _ => out := FactorPaths(auths, f);
    }
  }

  // ---------------------------------------------------------------------------
  // Asking

  predicate Proved(p: Path, proofs: set<string>) { forall id :: id in p.auths ==> id in proofs }

  predicate Elapsed(p: Path, t: Seconds) { p.wait.None? || p.wait.value <= t }

  predicate Open(p: Path, proofs: set<string>, t: Seconds) { Proved(p, proofs) && Elapsed(p, t) }

  /** `satisfied`: some path every one of whose authenticators has a proof and whose wait is over. */
  predicate Satisfied(auths: seq<Authenticator>, g: GateExpr, proofs: set<string>, t: Seconds) {
    exists p :: p in SatisfyingPaths(auths, g) && Open(p, proofs, t)
  }

  function WaitOf(p: Path): Seconds { if p.wait.Some? then p.wait.value else 0 }

  /** The least wait over some paths, of those that pass a test. */
  function LeastWait(ps: seq<Path>, proofs: set<string>): Option<Seconds> {
    if ps == [] then None
    else
      var rest := LeastWait(ps[1..], proofs);
      if !Proved(ps[0], proofs) then rest
      else if rest.Some? && rest.value < WaitOf(ps[0]) then rest
      else Some(WaitOf(ps[0]))
  }

  /** `satisfiable_at`: the earliest a gate could be satisfied given the proofs it already has. */
  function SatisfiableAt(auths: seq<Authenticator>, g: GateExpr, proofs: set<string>): Option<Seconds> {
    LeastWait(SatisfyingPaths(auths, g), proofs)
  }

  /** The gate by its meaning: a factor counts when it holds, and the counted weights reach `n`. */
  predicate Eval(auths: seq<Authenticator>, g: GateExpr, proofs: set<string>, t: Seconds) {
    match g
    case Single(f) => HoldsNow(auths, f, proofs, t)
    case Thresh(n, factors) => Weighed(auths, factors, proofs, t) >= n
  }

  predicate HoldsNow(auths: seq<Authenticator>, f: Factor, proofs: set<string>, t: Seconds) {
    match f
    case Auth(id, _) => (exists a :: a in auths && a.id == id) && id in proofs
    case Humans(_) => exists a :: a in auths && a.human && a.id in proofs
    case Group(expr, _) => Eval(auths, expr, proofs, t)
    case Wait(d, _) => d <= t
  }

  function Weighed(auths: seq<Authenticator>, factors: seq<Factor>, proofs: set<string>, t: Seconds): nat {
    if factors == [] then 0
    else (if HoldsNow(auths, factors[0], proofs, t) then WeightOf(factors[0]) else 0) + Weighed(auths, factors[1..], proofs, t)
  }

  // ---------------------------------------------------------------------------
  // The enumeration means the threshold

  lemma MergeOpens(p: Path, q: Path, proofs: set<string>, t: Seconds)
    ensures Open(Merge(p, q), proofs, t) <==> Open(p, proofs, t) && Open(q, proofs, t)
  {
    assert forall id :: id in Merge(p, q).auths <==> id in p.auths || id in q.auths;
  }

  ghost predicate SomeOpen(ps: seq<Path>, proofs: set<string>, t: Seconds) {
    exists p :: p in ps && Open(p, proofs, t)
  }

  lemma {:induction false} MergeEachMeans(ps: seq<Path>, qs: seq<Path>, m: Path)
    ensures m in MergeEach(ps, qs) <==> exists p, q :: p in ps && q in qs && m == Merge(p, q)
  {
    hide Merge;
    if ps != [] {
      MergeEachMeans(ps[1..], qs, m);
      assert ps == [ps[0]] + ps[1..];
      forall q | q in qs ensures Merge(ps[0], q) in MergeOne(ps[0], qs) {
        var j :| 0 <= j < |qs| && qs[j] == q;
        assert MergeOne(ps[0], qs)[j] == Merge(ps[0], q);
      }
    }
  }

  lemma MergeEachOpens(ps: seq<Path>, qs: seq<Path>, proofs: set<string>, t: Seconds)
    ensures SomeOpen(MergeEach(ps, qs), proofs, t) <==> SomeOpen(ps, proofs, t) && SomeOpen(qs, proofs, t)
  {
    hide Merge, Open, MergeEach;
    if SomeOpen(MergeEach(ps, qs), proofs, t) {
      var m :| m in MergeEach(ps, qs) && Open(m, proofs, t);
      MergeEachMeans(ps, qs, m);
      var p, q :| p in ps && q in qs && m == Merge(p, q);
      MergeOpens(p, q, proofs, t);
    }
    if SomeOpen(ps, proofs, t) && SomeOpen(qs, proofs, t) {
      var p :| p in ps && Open(p, proofs, t);
      var q :| q in qs && Open(q, proofs, t);
      MergeOpens(p, q, proofs, t);
      MergeEachMeans(ps, qs, Merge(p, q));
    }
  }

  predicate TriedBelow(auths: seq<Authenticator>, n: nat, factors: seq<Factor>, bound: nat, p: Path) {
    exists mask: nat :: mask < bound && p in OfChoice(auths, n, factors, Bits(mask, |factors|))
  }

  lemma {:induction false} UpToMeans(auths: seq<Authenticator>, n: nat, factors: seq<Factor>, bound: nat, p: Path)
    ensures p in UpTo(auths, n, factors, bound) <==> TriedBelow(auths, n, factors, bound, p)
    decreases bound
  {
    hide OfChoice, Bits;
    if bound > 0 {
      UpToMeans(auths, n, factors, bound - 1, p);
      assert TriedBelow(auths, n, factors, bound, p)
        <==> TriedBelow(auths, n, factors, bound - 1, p) || p in OfChoice(auths, n, factors, Bits(bound - 1, |factors|));
    }
  }

  /** Every subset that counts is enumerated, and no other. */
  lemma EverySubsetIsTried(auths: seq<Authenticator>, n: nat, factors: seq<Factor>, p: Path)
    ensures p in SatisfyingPaths(auths, Thresh(n, factors))
       <==> exists choice: seq<bool> :: |choice| == |factors| && Counts(n, factors, choice) && p in Product(auths, factors, choice)
  {
    hide Bits, Counts, Product;
    UpToMeans(auths, n, factors, Pow2(|factors|), p);
    if choice: seq<bool> :| |choice| == |factors| && Counts(n, factors, choice) && p in Product(auths, factors, choice) {
      EveryChoiceHasAMask(choice);
      assert p in OfChoice(auths, n, factors, Bits(MaskOf(choice), |factors|));
    }
  }

  /** The chosen factors all hold. */
  predicate Among(auths: seq<Authenticator>, factors: seq<Factor>, choice: seq<bool>, proofs: set<string>, t: Seconds)
    requires |choice| == |factors|
  {
    forall i :: 0 <= i < |factors| && choice[i] ==> HoldsNow(auths, factors[i], proofs, t)
  }

  lemma {:induction false} AmongWeighs(auths: seq<Authenticator>, factors: seq<Factor>, choice: seq<bool>, proofs: set<string>, t: Seconds)
    requires |choice| == |factors| && Among(auths, factors, choice, proofs, t)
    ensures Total(factors, choice) <= Weighed(auths, factors, proofs, t)
  {
    hide HoldsNow;
    if factors != [] {
      assert forall i :: 0 <= i < |factors| - 1 ==> factors[1..][i] == factors[i + 1] && choice[1..][i] == choice[i + 1];
      AmongWeighs(auths, factors[1..], choice[1..], proofs, t);
    }
  }

  function Holding(auths: seq<Authenticator>, factors: seq<Factor>, proofs: set<string>, t: Seconds): (choice: seq<bool>)
    ensures |choice| == |factors|
    ensures forall i :: 0 <= i < |factors| ==> choice[i] == HoldsNow(auths, factors[i], proofs, t)
  {
    seq(|factors|, i requires 0 <= i < |factors| => HoldsNow(auths, factors[i], proofs, t))
  }

  lemma {:induction false} HoldingWeighs(auths: seq<Authenticator>, factors: seq<Factor>, proofs: set<string>, t: Seconds)
    ensures Total(factors, Holding(auths, factors, proofs, t)) == Weighed(auths, factors, proofs, t)
  {
    if factors != [] {
      HoldingWeighs(auths, factors[1..], proofs, t);
      assert Holding(auths, factors, proofs, t)[1..] == Holding(auths, factors[1..], proofs, t);
    }
  }

  predicate Within(small: seq<bool>, big: seq<bool>) {
    |small| == |big| && forall i :: 0 <= i < |small| && small[i] ==> big[i]
  }

  function Chosen(choice: seq<bool>): nat {
    if choice == [] then 0 else (if choice[0] then 1 else 0) + Chosen(choice[1..])
  }

  lemma {:induction false} DropOne(factors: seq<Factor>, choice: seq<bool>, i: nat)
    requires |choice| == |factors| && i < |factors| && choice[i]
    ensures Total(factors, choice[i := false]) == Total(factors, choice) - WeightOf(factors[i])
    ensures Chosen(choice[i := false]) == Chosen(choice) - 1
  {
    if i == 0 {
      assert choice[0 := false][1..] == choice[1..];
    } else {
      DropOne(factors[1..], choice[1..], i - 1);
      assert choice[i := false][1..] == choice[1..][i - 1 := false];
    }
  }

  /** Any subset that reaches the threshold has one inside it that counts. */
  lemma {:induction false} SomeSubsetCounts(n: nat, factors: seq<Factor>, choice: seq<bool>) returns (small: seq<bool>)
    requires |choice| == |factors| && Total(factors, choice) >= n
    ensures Within(small, choice) && Counts(n, factors, small)
    decreases Chosen(choice)
  {
    if Minimal(n, factors, choice) {
      small := choice;
    } else {
      var i :| 0 <= i < |factors| && choice[i] && Total(factors, choice) - WeightOf(factors[i]) >= n;
      DropOne(factors, choice, i);
      small := SomeSubsetCounts(n, factors, choice[i := false]);
    }
  }

  /** `satisfied` holds exactly when the gate's threshold is met. */
  lemma {:induction false} PathsMeanTheThreshold(auths: seq<Authenticator>, g: GateExpr, proofs: set<string>, t: Seconds)
    ensures SomeOpen(SatisfyingPaths(auths, g), proofs, t) <==> Eval(auths, g, proofs, t)
    decreases g, 0, 0
  {
    match g
    case Single(f) => FactorPathsMean(auths, f, proofs, t);
    case Thresh(n, factors) => ThresholdMeans(auths, n, factors, proofs, t);
  }

  lemma {:induction false} ThresholdMeans(auths: seq<Authenticator>, n: nat, factors: seq<Factor>, proofs: set<string>, t: Seconds)
    ensures SomeOpen(SatisfyingPaths(auths, Thresh(n, factors)), proofs, t) <==> Weighed(auths, factors, proofs, t) >= n
    decreases factors, 1, 0
  {
    hide Open, HoldsNow, Product, Counts, Weighed, Total, SatisfyingPaths;
    if SomeOpen(SatisfyingPaths(auths, Thresh(n, factors)), proofs, t) {
      var p :| p in SatisfyingPaths(auths, Thresh(n, factors)) && Open(p, proofs, t);
      EverySubsetIsTried(auths, n, factors, p);
      var choice: seq<bool> :| |choice| == |factors| && Counts(n, factors, choice) && p in Product(auths, factors, choice);
      ProductMeans(auths, factors, choice, proofs, t);
      AmongWeighs(auths, factors, choice, proofs, t);
      CountsReaches(n, factors, choice);
    }
    if Weighed(auths, factors, proofs, t) >= n {
      var all := Holding(auths, factors, proofs, t);
      HoldingWeighs(auths, factors, proofs, t);
      var small := SomeSubsetCounts(n, factors, all);
      ProductMeans(auths, factors, small, proofs, t);
      var p :| p in Product(auths, factors, small) && Open(p, proofs, t);
      EverySubsetIsTried(auths, n, factors, p);
    }
  }

  lemma CountsReaches(n: nat, factors: seq<Factor>, choice: seq<bool>)
    requires |choice| == |factors| && Counts(n, factors, choice)
    ensures Total(factors, choice) >= n
  {
  }

  lemma {:induction false} ProductMeans(auths: seq<Authenticator>, factors: seq<Factor>, choice: seq<bool>, proofs: set<string>, t: Seconds)
    requires |choice| == |factors|
    ensures SomeOpen(Product(auths, factors, choice), proofs, t) <==> Among(auths, factors, choice, proofs, t)
    decreases factors, 0, 0
  {
    hide Open, HoldsNow, FactorPaths, MergeEach;
    if factors == [] {
      assert FREE in Product(auths, factors, choice);
      FreeIsOpen(proofs, t);
    } else {
      var rest, others := Product(auths, factors[1..], choice[1..]), choice[1..];
      ProductMeans(auths, factors[1..], others, proofs, t);
      FactorPathsMean(auths, factors[0], proofs, t);
      MergeEachOpens(FactorPaths(auths, factors[0]), rest, proofs, t);
      assert forall i :: 0 <= i < |factors| - 1 ==> factors[1..][i] == factors[i + 1] && others[i] == choice[i + 1];
      assert Among(auths, factors, choice, proofs, t)
        <==> (choice[0] ==> HoldsNow(auths, factors[0], proofs, t)) && Among(auths, factors[1..], others, proofs, t);
    }
  }

  lemma FreeIsOpen(proofs: set<string>, t: Seconds)
    ensures Open(FREE, proofs, t)
  {
  }

  lemma {:induction false} FactorPathsMean(auths: seq<Authenticator>, f: Factor, proofs: set<string>, t: Seconds)
    ensures SomeOpen(FactorPaths(auths, f), proofs, t) <==> HoldsNow(auths, f, proofs, t)
    decreases f, 0, 0
  {
    match f
    case Auth(id, _) =>
      FindMeans(auths, id);
      match Find(auths, id) {
        case Some(a) => OneOpen(Path([id], if a.human then [id] else [], None), proofs, t);
        case None =>
      }
    case Humans(_) => HumanPathsMean(auths, proofs, t);
    case Group(expr, _) => PathsMeanTheThreshold(auths, expr, proofs, t);
    case Wait(d, _) => OneOpen(Path([], [], Some(d)), proofs, t);
  }

  lemma OneOpen(p: Path, proofs: set<string>, t: Seconds)
    ensures SomeOpen([p], proofs, t) <==> Open(p, proofs, t)
  {
    assert [p][0] in [p];
  }

  lemma EitherOpen(a: seq<Path>, b: seq<Path>, proofs: set<string>, t: Seconds)
    ensures SomeOpen(a + b, proofs, t) <==> SomeOpen(a, proofs, t) || SomeOpen(b, proofs, t)
  {
    hide Open;
  }

  lemma {:induction false} FindMeans(auths: seq<Authenticator>, id: string)
    ensures Find(auths, id).Some? <==> exists a :: a in auths && a.id == id
    ensures Find(auths, id).Some? ==> Find(auths, id).value in auths && Find(auths, id).value.id == id
  {
    if auths != [] {
      FindMeans(auths[1..], id);
      assert auths == [auths[0]] + auths[1..];
    }
  }

  lemma {:induction false} HumanPathsMean(auths: seq<Authenticator>, proofs: set<string>, t: Seconds)
    ensures SomeOpen(HumanPaths(auths), proofs, t) <==> exists a :: a in auths && a.human && a.id in proofs
  {
    if auths != [] {
      HumanPathsMean(auths[1..], proofs, t);
      assert auths == [auths[0]] + auths[1..];
      var p := Path([auths[0].id], [auths[0].id], None);
      OneOpen(p, proofs, t);
      EitherOpen([p], HumanPaths(auths[1..]), proofs, t);
      assert Open(p, proofs, t) <==> auths[0].id in proofs;
      hide SomeOpen, Open;
    }
  }

  lemma SatisfiedMeansTheThreshold(auths: seq<Authenticator>, g: GateExpr, proofs: set<string>, t: Seconds)
    ensures Satisfied(auths, g, proofs, t) <==> Eval(auths, g, proofs, t)
  {
    PathsMeanTheThreshold(auths, g, proofs, t);
  }

  /** More proofs and more time never close a gate. */
  lemma {:induction false} EvalGrows(auths: seq<Authenticator>, g: GateExpr, proofs: set<string>, more: set<string>, t: Seconds, later: Seconds)
    requires proofs <= more && t <= later
    ensures Eval(auths, g, proofs, t) ==> Eval(auths, g, more, later)
    decreases g, 0
  {
    match g
    case Single(f) => HoldsGrows(auths, f, proofs, more, t, later);
    case Thresh(_, factors) => WeighedGrows(auths, factors, proofs, more, t, later);
  }

  lemma {:induction false} HoldsGrows(auths: seq<Authenticator>, f: Factor, proofs: set<string>, more: set<string>, t: Seconds, later: Seconds)
    requires proofs <= more && t <= later
    ensures HoldsNow(auths, f, proofs, t) ==> HoldsNow(auths, f, more, later)
    decreases f, 0
  {
    if f.Group? { EvalGrows(auths, f.expr, proofs, more, t, later); }
  }

  lemma {:induction false} WeighedGrows(auths: seq<Authenticator>, factors: seq<Factor>, proofs: set<string>, more: set<string>, t: Seconds, later: Seconds)
    requires proofs <= more && t <= later
    ensures Weighed(auths, factors, proofs, t) <= Weighed(auths, factors, more, later)
    decreases factors, 0
  {
    if factors != [] {
      HoldsGrows(auths, factors[0], proofs, more, t, later);
      WeighedGrows(auths, factors[1..], proofs, more, t, later);
    }
  }

  lemma SatisfiedGrows(auths: seq<Authenticator>, g: GateExpr, proofs: set<string>, more: set<string>, t: Seconds, later: Seconds)
    requires proofs <= more && t <= later && Satisfied(auths, g, proofs, t)
    ensures Satisfied(auths, g, more, later)
  {
    SatisfiedMeansTheThreshold(auths, g, proofs, t);
    SatisfiedMeansTheThreshold(auths, g, more, later);
    EvalGrows(auths, g, proofs, more, t, later);
  }

  lemma {:induction false} LeastWaitMeans(ps: seq<Path>, proofs: set<string>, t: Seconds)
    ensures SomeOpen(ps, proofs, t) <==> LeastWait(ps, proofs).Some? && LeastWait(ps, proofs).value <= t
  {
    if ps != [] {
      LeastWaitMeans(ps[1..], proofs, t);
      OneOpen(ps[0], proofs, t);
      assert ps == [ps[0]] + ps[1..];
      EitherOpen([ps[0]], ps[1..], proofs, t);
      hide SomeOpen, Proved;
    }
  }

  /** A gate is satisfied at an instant exactly when `satisfiable_at` gave one no later. */
  lemma SatisfiedFromItsInstant(auths: seq<Authenticator>, g: GateExpr, proofs: set<string>, t: Seconds)
    ensures Satisfied(auths, g, proofs, t)
       <==> SatisfiableAt(auths, g, proofs).Some? && SatisfiableAt(auths, g, proofs).value <= t
  {
    LeastWaitMeans(SatisfyingPaths(auths, g), proofs, t);
  }

  // ---------------------------------------------------------------------------
  // The requester

  predicate CountsRequester(auths: seq<Authenticator>, requester: string, g: GateExpr) {
    match g
    case Single(f) => CountsIn(auths, requester, f)
    case Thresh(_, factors) => exists i :: 0 <= i < |factors| && CountsIn(auths, requester, factors[i])
  }

  predicate CountsIn(auths: seq<Authenticator>, requester: string, f: Factor) {
    match f
    case Auth(id, _) => id == requester
    case Humans(_) => exists a :: a in auths && a.id == requester && a.human
    case Group(expr, _) => CountsRequester(auths, requester, expr)
    case Wait(_, _) => false
  }

  lemma {:induction false} EvalWithoutRequester(auths: seq<Authenticator>, requester: string, g: GateExpr, proofs: set<string>, t: Seconds)
    requires !CountsRequester(auths, requester, g)
    ensures Eval(auths, g, proofs + {requester}, t) <==> Eval(auths, g, proofs, t)
    decreases g, 0
  {
    match g
    case Single(f) => HoldsWithoutRequester(auths, requester, f, proofs, t);
    case Thresh(_, factors) => WeighedWithoutRequester(auths, requester, factors, proofs, t);
  }

  lemma {:induction false} HoldsWithoutRequester(auths: seq<Authenticator>, requester: string, f: Factor, proofs: set<string>, t: Seconds)
    requires !CountsIn(auths, requester, f)
    ensures HoldsNow(auths, f, proofs + {requester}, t) <==> HoldsNow(auths, f, proofs, t)
    decreases f, 0
  {
    if f.Group? { EvalWithoutRequester(auths, requester, f.expr, proofs, t); }
  }

  lemma {:induction false} WeighedWithoutRequester(auths: seq<Authenticator>, requester: string, factors: seq<Factor>, proofs: set<string>, t: Seconds)
    requires forall i :: 0 <= i < |factors| ==> !CountsIn(auths, requester, factors[i])
    ensures Weighed(auths, factors, proofs + {requester}, t) == Weighed(auths, factors, proofs, t)
    decreases factors, 0
  {
    if factors != [] {
      HoldsWithoutRequester(auths, requester, factors[0], proofs, t);
      WeighedWithoutRequester(auths, requester, factors[1..], proofs, t);
    }
  }

  /** Where the requester is not counted, the requester's own proof changes nothing. */
  lemma UncountedRequesterAddsNothing(auths: seq<Authenticator>, requester: string, g: GateExpr, proofs: set<string>, t: Seconds)
    requires !CountsRequester(auths, requester, g)
    ensures Satisfied(auths, g, proofs + {requester}, t) <==> Satisfied(auths, g, proofs, t)
  {
    EvalWithoutRequester(auths, requester, g, proofs, t);
    SatisfiedMeansTheThreshold(auths, g, proofs, t);
    SatisfiedMeansTheThreshold(auths, g, proofs + {requester}, t);
  }
}
