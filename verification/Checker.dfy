/** What a clean verdict is worth: core/src/check.rs over core/src/interference.rs, and the engine
    the verdict is about. */
module Checker {
  import opened Wrappers
  import opened Model
  import opened Algebra
  import opened Footprint
  import opened Unrolling
  import opened Safety
  import opened Drifting
  import opened Invariant
  import Q = Interference
  import Siblings
  import Conflicts

  // ---------------------------------------------------------------------------
  // Steps that leave each other's facts alone

  /** A step the query knows everything of: `:restore`, on a static host, over static shapes, and
      anchored only where it is a region. */
  predicate PlainOp(owner: Host, op: Op) {
    && op.undo.Restore?
    && StepHost(owner, op).Some? && !Q.RuntimeBound(StepHost(owner, op).value)
    && forall i :: 0 <= i < |op.footprint| ==> PlainEntry(op.footprint[i])
  }

  predicate PlainEntry(e: FootprintEntry) {
    !Q.RuntimeBound(e.shape) && (!e.kind.Region? ==> e.anchor.None?)
  }

  /** The steps numbered at most `n` are plain. */
  predicate PlainSteps(owner: Host, items: seq<Item>, n: nat) {
    forall k :: 1 <= k <= |Leaves(items)| && k <= n && OpAt(items, k).Some? ==> PlainOp(owner, OpAt(items, k).value)
  }

  /** A conflict over an anchor declared twice is reported as E0305 and not also as E0301. */
  function NotDuplicated(cs: seq<Q.Conflict>, duplicates: seq<Q.Conflict>): seq<Q.Conflict> {
    if cs == [] then []
    else (if cs[0] in duplicates then [] else [cs[0]]) + NotDuplicated(cs[1..], duplicates)
  }

  /** The definite rules the checker refuses a plan by: E0301 as it is reported, E0303, E0305. */
  predicate CleanQuery(owner: Host, items: seq<Item>) {
    && NotDuplicated(Conflicts.ConflictsOf(owner, items), Conflicts.AnchorDuplicates(owner, items)) == []
    && Conflicts.AnchorDuplicates(owner, items) == []
    && Siblings.ParOverlaps(owner, items) == []
  }

  /** What E0301 leaves out is exactly what E0305 reports: clear of both, nothing conflicts. */
  lemma {:induction false} ReportedConflictsMean(cs: seq<Q.Conflict>, duplicates: seq<Q.Conflict>, c: Q.Conflict)
    ensures c in NotDuplicated(cs, duplicates) <==> c in cs && c !in duplicates
  {
    if cs != [] {
      ReportedConflictsMean(cs[1..], duplicates, c);
      assert cs == [cs[0]] + cs[1..];
    }
  }

  lemma LeafOfStep(owner: Host, items: seq<Item>, n: nat) returns (l: Q.Leaf)
    requires OpAt(items, n).Some?
    ensures l in Q.StepFacts(owner, items) && l.n == n && l.op == OpAt(items, n).value && l.host == Q.HostText(owner, l.op)
  {
    Q.QueryNumbersAsThePlan(owner, items, n);
    Q.HostsAreRead(owner, [], items, 1);
    var i :| 0 <= i < |Q.StepFacts(owner, items)| && Q.StepFacts(owner, items)[i].n == n;
    l := Q.StepFacts(owner, items)[i];
  }

  lemma BracedIsBound(s: string, v: string)
    requires Conflicts.Contains(s, "{" + v + "}")
    ensures Q.RuntimeBound(s)
  {
    var part := "{" + v + "}";
    var k :| 0 <= k <= |s| && part <= s[k..];
    assert s[k..][0] == part[0] == '{' && s[k] == '{';
  }

  /** A fact a plain step writes is never counted as an iteration's own. */
  lemma StaticIsNotPerIteration(x: Q.Leaf, y: Q.Leaf, f: Q.Fact)
    ensures Conflicts.PerIteration(x, y, f) ==> Q.RuntimeBound(f.shape)
  {
    if Conflicts.IndexedBy(x.vars, f) {
      var i :| 0 <= i < |x.vars| && Conflicts.Contains(f.shape, "{" + x.vars[i] + "}");
      BracedIsBound(f.shape, x.vars[i]);
    }
  }

  lemma CleanMeansNoConflict(owner: Host, items: seq<Item>, c: Q.Conflict)
    requires CleanQuery(owner, items)
    ensures c !in Conflicts.ConflictsOf(owner, items)
  {
    ReportedConflictsMean(Conflicts.ConflictsOf(owner, items), Conflicts.AnchorDuplicates(owner, items), c);
  }

  /** Ordered steps of a clean plan write facts that do not touch. */
  lemma OrderedDoNotTouch(owner: Host, items: seq<Item>, x: Q.Leaf, y: Q.Leaf, f: Q.Fact, g: Q.Fact)
    requires CleanQuery(owner, items) && (x, y) in Conflicts.StepPairs(owner, items) && Conflicts.OneStaticHost(x, y)
    requires x.op.undo.Restore? && f in Q.Writes(x.op) && g in Q.Writes(y.op)
    ensures !Q.Touches(f, g)
  {
    var c := Q.Conflict(x.n, y.n, f);
    Conflicts.WritesAreStatic(x.op, f);
    StaticIsNotPerIteration(x, y, f);
    hide CleanQuery, Q.Touches, Q.Writes, Conflicts.PerIteration, Conflicts.StepPairs, Conflicts.ConflictsOf;
    if Q.Touches(f, g) {
      assert Conflicts.IsConflict(x, y, c);
      CleanMeansNoConflict(owner, items, c);
      Conflicts.ConflictsMean(owner, items, c);
    }
  }

  /** Steps of a clean plan under different children of one `par` write facts that do not touch. */
  lemma SiblingsDoNotTouch(owner: Host, items: seq<Item>, m: nat, n: nat, f: Q.Fact, g: Q.Fact)
    requires CleanQuery(owner, items) && (m, n) in Siblings.ParSiblings(owner, items)
    requires OpAt(items, m).Some? && OpAt(items, n).Some?
    requires Q.HostText(owner, OpAt(items, m).value) == Q.HostText(owner, OpAt(items, n).value)
    requires f in Q.Writes(OpAt(items, m).value) && g in Q.Writes(OpAt(items, n).value)
    ensures !Q.Touches(f, g)
  {
    hide OpAt, Q.Touches, Q.Writes, Siblings.ParSiblings, Siblings.ParOverlaps, Conflicts.ConflictsOf, Conflicts.AnchorDuplicates;
    Siblings.OverlapsAreSiblings(owner, items, m, n);
  }

  /** Any two steps of a plan that clears E0301, E0303 and E0305 write facts that do not touch,
      regions by their anchors, whether ordered or under one `par`. */
  lemma CleanStepsDoNotTouch(owner: Host, items: seq<Item>, m: nat, n: nat, f: Q.Fact, g: Q.Fact)
    requires CleanQuery(owner, items) && m < n
    requires OpAt(items, m).Some? && OpAt(items, n).Some?
    requires PlainOp(owner, OpAt(items, m).value) && PlainOp(owner, OpAt(items, n).value)
    requires Q.HostText(owner, OpAt(items, m).value) == Q.HostText(owner, OpAt(items, n).value)
    requires f in Q.Writes(OpAt(items, m).value) && g in Q.Writes(OpAt(items, n).value)
    ensures !Q.Touches(f, g)
  {
    var x := LeafOfStep(owner, items, m);
    var y := LeafOfStep(owner, items, n);
    assert Conflicts.OneStaticHost(x, y) && x.op.undo.Restore?;
    hide OpAt, CleanQuery, PlainOp, Q.StepFacts, Q.Touches, Q.Writes, Conflicts.StepPairs, Siblings.ParSiblings;
    if (m, n) in Siblings.ParSiblings(owner, items) {
      SiblingsDoNotTouch(owner, items, m, n, f, g);
    } else {
      InOrder(owner, items, x, y);
      OrderedDoNotTouch(owner, items, x, y, f, g);
    }
  }

  lemma InOrder(owner: Host, items: seq<Item>, x: Q.Leaf, y: Q.Leaf)
    requires x in Q.StepFacts(owner, items) && y in Q.StepFacts(owner, items) && x.n < y.n
    requires (x.n, y.n) !in Siblings.ParSiblings(owner, items)
    ensures (x, y) in Conflicts.StepPairs(owner, items)
  {
    var leaves := Q.StepFacts(owner, items);
    Q.QueryNumbersAsThePlan(owner, items, 0);
    Conflicts.OrderedPairsMean(leaves, Siblings.ParSiblings(owner, items), x, y);
    hide Q.StepFacts, Siblings.ParSiblings, Conflicts.OrderedPairs;
    var i :| 0 <= i < |leaves| && leaves[i] == x;
    var j :| 0 <= j < |leaves| && leaves[j] == y;
    assert !(j < i) && i != j;
  }

  // ---------------------------------------------------------------------------
  // From the verdict to the engine

  predicate RepeatFree(items: seq<Item>)
    decreases items, 0
  {
    items == [] || (RepeatFreeItem(items[0]) && RepeatFree(items[1..]))
  }

  predicate RepeatFreeItem(it: Item)
    decreases it, 0
  {
    match it
    case Par(children) => RepeatFree(children)
    case Repeat(_, _, _) => false
    case When(_, _, _, then_, else_) => RepeatFree(then_) && RepeatFree(else_)
    case _ => true
  }

  ghost predicate StepsRise(apps: seq<AppliedStep>, lo: nat, hi: nat) {
    && (forall i :: 0 <= i < |apps| ==> lo <= apps[i].step < hi)
    && (forall i, j :: 0 <= i < j < |apps| ==> apps[i].step < apps[j].step)
  }

  lemma {:induction false} RepeatFreeRises(lists: Lists, items: seq<Item>, iteration: nat, leaf: nat, vars: Vars, ch: Choices)
    requires RepeatFree(items)
    ensures StepsRise(Unroll(lists, items, iteration, leaf, vars, ch).apps, leaf, leaf + LeafCount(items))
    decreases items, 0
  {
    hide UnrollItem, LeafCountOf, RepeatFreeItem, StepsRise;
    if items == [] {
      NothingRises(leaf);
    } else {
      var next := leaf + LeafCountOf(items[0]);
      RepeatFreeItemRises(lists, items[0], iteration, leaf, vars, ch);
      RepeatFreeRises(lists, items[1..], iteration, next, vars, ch);
      RiseAppend(UnrollItem(lists, items[0], iteration, leaf, vars, ch).apps,
                 Unroll(lists, items[1..], iteration, next, vars, ch).apps, leaf, next, leaf + LeafCount(items));
    }
  }

  lemma NothingRises(leaf: nat)
    ensures StepsRise([], leaf, leaf)
  {
  }

  lemma RiseAppend(a: seq<AppliedStep>, b: seq<AppliedStep>, lo: nat, mid: nat, hi: nat)
    requires StepsRise(a, lo, mid) && StepsRise(b, mid, hi) && lo <= mid <= hi
    ensures StepsRise(a, lo, hi) && StepsRise(a + b, lo, hi)
  {
  }

  lemma {:induction false} RepeatFreeItemRises(lists: Lists, it: Item, iteration: nat, leaf: nat, vars: Vars, ch: Choices)
    requires RepeatFreeItem(it)
    ensures StepsRise(UnrollItem(lists, it, iteration, leaf, vars, ch).apps, leaf, leaf + LeafCountOf(it))
    decreases it, 0
  {
    hide Unroll, LeafCount, RepeatFree;
    match it
    case Par(children) => RepeatFreeRises(lists, children, iteration, leaf, vars, ch);
    case When(_, _, _, then_, else_) =>
      RepeatFreeRises(lists, then_, iteration, leaf, vars, ch);
      RepeatFreeRises(lists, else_, iteration, leaf + LeafCount(then_), vars, ch);
    case _ =>
  }

  /** What the plan's author declares of the steps numbered at most `n`, and the checker cannot
      see. */
  ghost predicate Declared(s: Setting, n: nat) {
    && (forall op, vars :: s.concrete(op, vars) == Some(op.footprint))
    && (forall k: nat, vars :: k <= n && OpAt(s.plan.body, k).Some? ==> HonestDeclarations(s, Key(k, vars)))
  }

  /** A step has no region, its observed facts are reserved, what it owns was absent, and what it
      modifies is text. */
  ghost predicate HonestDeclarations(s: Setting, key: Key) {
    && NoRegion(Entries(s, key))
    && forall k :: 0 <= k < |Entries(s, key)| && Observed(Entries(s, key)[k]) ==> HonestEntry(s, key, k)
  }

  /** A fact a step observes is one it may write. */
  lemma CoveredIsTouched(s: Setting, key: Key, f: Fact)
    requires Covers(s, key, f)
    ensures Touches(s, key, f)
  {
    hide Entries;
    var k :| 0 <= k < |Entries(s, key)| && Observed(Entries(s, key)[k]) && FactAt(s, key, k) == f;
    assert Writable(Entries(s, key)[k]);
  }

  /** A fact a plain step may write is one the query has it write. */
  lemma TouchedIsWritten(s: Setting, n: nat, key: Key, f: Fact) returns (g: Q.Fact)
    requires PlainSteps(s.plan.owner, s.plan.body, n) && Upto(s, n, key.step) && Touches(s, key, f)
    requires forall op, vars :: s.concrete(op, vars) == Some(op.footprint)
    ensures OpAt(s.plan.body, key.step).Some?
    ensures var op := OpAt(s.plan.body, key.step).value;
      && PlainOp(s.plan.owner, op) && Q.HostText(s.plan.owner, op) == f.host
      && g in Q.Writes(op) && g.shape == f.shape && !Q.RuntimeBound(g.shape)
    ensures NoRegion(Entries(s, key)) ==> g.anchor.None?
  {
    var i :| 0 <= i < |Entries(s, key)| && Writable(Entries(s, key)[i]) && FactAt(s, key, i) == f;
    var op := OpAt(s.plan.body, key.step).value;
    assert PlainOp(s.plan.owner, op) && PlainEntry(op.footprint[i]);
    g := Q.FactOf(op.footprint[i]);
    Q.WrittenMeans(op.footprint, false, g);
  }

  /** Two plain steps of a clean plan write no fact in common, observed or not. */
  lemma CleanStepsShareNoFact(s: Setting, n: nat, a: Key, b: Key, f: Fact)
    requires CleanQuery(s.plan.owner, s.plan.body) && PlainSteps(s.plan.owner, s.plan.body, n) && a.step < b.step
    requires Upto(s, n, a.step) && Upto(s, n, b.step)
    requires forall op, vars :: s.concrete(op, vars) == Some(op.footprint)
    requires NoRegion(Entries(s, a))
    ensures !(Touches(s, a, f) && Touches(s, b, f))
  {
    hide OpAt, Entries, HostAt, PlainOp, CleanQuery, Touches, PlainSteps, NoRegion, Upto;
    if Touches(s, a, f) && Touches(s, b, f) {
      var fx := TouchedIsWritten(s, n, a, f);
      var fy := TouchedIsWritten(s, n, b, f);
      assert Q.Touches(fx, fy);
      CleanStepsDoNotTouch(s.plan.owner, s.plan.body, a.step, b.step, fx, fy);
    }
  }

  /** What one plain step of a clean plan observes no other writes, nor itself as a fact it does not
      observe. */
  lemma CleanStepsAreFast(s: Setting, n: nat, key: Key, f: Fact)
    requires CleanQuery(s.plan.owner, s.plan.body) && PlainSteps(s.plan.owner, s.plan.body, n)
    requires Declared(s, n) && Upto(s, n, key.step) && Covers(s, key, f)
    ensures !Loose(s, n, f)
  {
    hide CleanQuery, PlainSteps, OpAt, Upto, IsPlanned, HonestApp;
    if Loose(s, n, f) {
      var other: Key :| IsPlanned(s, other) && Upto(s, n, other.step) && Touches(s, other, f) && !Covers(s, other, f);
      CoveredIsTouched(s, key, f);
      PlainIsHonest(s, n, key);
      NoRegions(s, key);
      PlainIsHonest(s, n, other);
      NoRegions(s, other);
      hide Touches, Covers, NoRegion;
      if key.step < other.step {
        CleanStepsShareNoFact(s, n, key, other, f);
      } else if other.step < key.step {
        CleanStepsShareNoFact(s, n, other, key, f);
      } else {
        SameStepCoversTheSame(s, key, other, f);
      }
    }
  }

  lemma SameStepCoversTheSame(s: Setting, a: Key, b: Key, f: Fact)
    requires a.step == b.step && Covers(s, a, f) && forall op, vars :: s.concrete(op, vars) == Some(op.footprint)
    ensures Covers(s, b, f)
  {
    hide OpAt;
    assert Entries(s, a) == Entries(s, b) && HostAt(s, a) == HostAt(s, b);
    var k :| 0 <= k < |Entries(s, a)| && Observed(Entries(s, a)[k]) && FactAt(s, a, k) == f;
    assert FactAt(s, b, k) == f;
  }

  /** The link: where a repeat-free plan clears E0301, E0303 and E0305, and its steps numbered at
      most `n` are plain and honestly declared, those steps are ones the engine restores. */
  lemma CleanQueryIsHonest(s: Setting, n: nat)
    requires CleanQuery(s.plan.owner, s.plan.body) && PlainSteps(s.plan.owner, s.plan.body, n)
    requires RepeatFree(s.plan.body) && Declared(s, n)
    ensures HonestThrough(s, n)
  {
    hide CleanQuery, PlainSteps, RepeatFree, Declared, Planned, HonestApp, ApartAt, Upto, Loose, Covers;
    forall ch: Choices, i | 0 <= i < |Planned(s, ch)| && Upto(s, n, Planned(s, ch)[i].step)
      ensures HonestApp(s, Planned(s, ch)[i].AsKey()) && Fast(s, n, Planned(s, ch)[i].AsKey())
    {
      PlainIsHonest(s, n, Planned(s, ch)[i].AsKey());
      forall f | Covers(s, Planned(s, ch)[i].AsKey(), f) ensures !Loose(s, n, f) {
        CleanStepsAreFast(s, n, Planned(s, ch)[i].AsKey(), f);
      }
    }
    forall ch: Choices, i, j | 0 <= i < j < |Planned(s, ch)| && BothUpto(s, n, Planned(s, ch)[i], Planned(s, ch)[j])
      ensures ApartAt(s, Planned(s, ch)[i].AsKey(), Planned(s, ch)[j].AsKey())
    {
      CleanApplicationsApart(s, n, ch, i, j);
    }
  }

  lemma CleanApplicationsApart(s: Setting, n: nat, ch: Choices, i: nat, j: nat)
    requires CleanQuery(s.plan.owner, s.plan.body) && PlainSteps(s.plan.owner, s.plan.body, n)
    requires RepeatFree(s.plan.body) && Declared(s, n) && i < j < |Planned(s, ch)|
    requires BothUpto(s, n, Planned(s, ch)[i], Planned(s, ch)[j])
    ensures ApartAt(s, Planned(s, ch)[i].AsKey(), Planned(s, ch)[j].AsKey())
  {
    RepeatFreeRises(s.lists, s.plan.body, 0, 1, map[], ch);
    hide CleanQuery, PlainSteps, Unroll, RepeatFree, Covers, Touches, HonestApp, Entries, Upto;
    var a, b := Planned(s, ch)[i].AsKey(), Planned(s, ch)[j].AsKey();
    PlainIsHonest(s, n, a);
    NoRegions(s, a);
    forall f ensures !(Covers(s, a, f) && Covers(s, b, f)) {
      CleanStepsShareNoFact(s, n, a, b, f);
      if Covers(s, a, f) && Covers(s, b, f) {
        CoveredIsTouched(s, a, f);
        CoveredIsTouched(s, b, f);
      }
    }
  }

  lemma PlainIsHonest(s: Setting, n: nat, key: Key)
    requires PlainSteps(s.plan.owner, s.plan.body, n) && Declared(s, n) && Upto(s, n, key.step)
    ensures HonestApp(s, key)
  {
    var op := OpAt(s.plan.body, key.step);
    if op.Some? {
      assert PlainOp(s.plan.owner, op.value);
      assert key == Key(key.step, key.vars);
      assert HonestDeclarations(s, key);
    }
  }

  // ---------------------------------------------------------------------------
  // The number the verdict reports

  /** `reversible_through` as the verdict reports it: 0 where E0301 is reported at all. */
  function ReportedThrough(owner: Host, items: seq<Item>): nat {
    ReversibleThrough(items, NotDuplicated(Conflicts.ConflictsOf(owner, items), Conflicts.AnchorDuplicates(owner, items)) != [])
  }

  /** In a plan without repeats no application is in an unrolling twice. */
  lemma RepeatFreeIsIdentified(s: Setting)
    requires RepeatFree(s.plan.body)
    ensures Identified(s)
  {
    forall ch: Choices, i, j | 0 <= i < j < |Planned(s, ch)|
      ensures Planned(s, ch)[i] != Planned(s, ch)[j]
    {
      RepeatFreeRises(s.lists, s.plan.body, 0, 1, map[], ch);
      hide Unroll, RepeatFree;
      assert Planned(s, ch)[i].step < Planned(s, ch)[j].step;
    }
  }

  /** The number the verdict reports is one honesty reaches through: with a knell or without one,
      whether or not E0301 is clean. */
  lemma ReportedThroughIsHonest(s: Setting)
    requires RepeatFree(s.plan.body)
    requires Conflicts.AnchorDuplicates(s.plan.owner, s.plan.body) == [] && Siblings.ParOverlaps(s.plan.owner, s.plan.body) == []
    requires var n := ReportedThrough(s.plan.owner, s.plan.body);
      PlainSteps(s.plan.owner, s.plan.body, n) && Declared(s, n)
    ensures HonestThrough(s, ReportedThrough(s.plan.owner, s.plan.body))
  {
    var n := ReportedThrough(s.plan.owner, s.plan.body);
    hide PlainSteps, Declared, HonestThrough, FirstKnell, LastStep, RepeatFree, Conflicts.ConflictsOf, Conflicts.AnchorDuplicates, Siblings.ParOverlaps;
    if CleanQuery(s.plan.owner, s.plan.body) {
      CleanQueryIsHonest(s, n);
    } else {
      NothingThroughZero(s);
    }
  }

  lemma NothingThroughZero(s: Setting)
    requires RepeatFree(s.plan.body)
    ensures HonestThrough(s, 0)
  {
    hide Unroll, RepeatFree;
    forall ch: Choices, i | 0 <= i < |Planned(s, ch)| && Upto(s, 0, Planned(s, ch)[i].step)
      ensures HonestApp(s, Planned(s, ch)[i].AsKey()) && forall f :: !Covers(s, Planned(s, ch)[i].AsKey(), f)
    {
      assert OpAt(s.plan.body, Planned(s, ch)[i].step).None? && Entries(s, Planned(s, ch)[i].AsKey()) == [];
    }
    forall ch: Choices, i, j | 0 <= i < j < |Planned(s, ch)| && BothUpto(s, 0, Planned(s, ch)[i], Planned(s, ch)[j])
      ensures ApartAt(s, Planned(s, ch)[i].AsKey(), Planned(s, ch)[j].AsKey())
    {
      RepeatFreeRises(s.lists, s.plan.body, 0, 1, map[], ch);
    }
  }

  /** A step past the number a clean verdict reports is the first knell or comes after it: a plan
      without a knell has none. */
  lemma PastIsFromTheKnell(owner: Host, items: seq<Item>, n: nat)
    requires CleanQuery(owner, items) && n > ReportedThrough(owner, items) && OpAt(items, n).Some?
    ensures FirstKnell(items).Some? && FirstKnell(items).value <= n
  {
    LastStepIsLast(Leaves(items), n);
  }

  lemma {:induction false} LastStepIsLast(ls: seq<Item>, n: nat)
    requires 1 <= n <= |ls| && OpOf(ls[n - 1]).Some?
    ensures n <= LastStep(ls)
  {
    if OpOf(ls[|ls| - 1]).None? { LastStepIsLast(ls[..|ls| - 1], n); }
  }
}
