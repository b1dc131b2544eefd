/** The interference query: core/src/interference.rs. A fact is a footprint shape on a host; a
    shape or a host written with `{` is bound only at runtime, and counts as whatever its
    static prefix may name. */
module Interference {
  import opened Wrappers
  import opened Model
  import opened Algebra

  datatype Fact = Fact(shape: string, anchor: Option<string>)

  datatype Conflict = Conflict(earlier: nat, later: nat, fact: Fact)

  /** A numbered step as the query sees it. */
  datatype Leaf = Leaf(n: nat, op: Op, host: string, vars: seq<string>)

  predicate RuntimeBound(s: string) { '{' in s }

  predicate KindWrites(k: Kind) { !k.Derived? }

  function FactOf(e: FootprintEntry): Fact { Fact(e.shape, e.anchor) }

  /** The facts of the written entries whose shape is, or is not, bound at runtime. */
  function Written(es: seq<FootprintEntry>, bound: bool): seq<Fact> {
    if es == [] then []
    else
      var rest := Written(es[1..], bound);
      if KindWrites(es[0].kind) && RuntimeBound(es[0].shape) == bound then [FactOf(es[0])] + rest else rest
  }

  function Writes(o: Op): seq<Fact> { Written(o.footprint, false) }

  function MayWrite(o: Op): seq<Fact> { Written(o.footprint, true) }

  function Unanchored(shapes: seq<string>): seq<Fact> {
    seq(|shapes|, i requires 0 <= i < |shapes| => Fact(shapes[i], None))
  }

  /** What an op's undo needs unchanged. */
  function Needs(o: Op): seq<Fact> {
    match o.undo
    case Restore => Writes(o) + MayWrite(o)
    case Computed(pre) => Unanchored(pre)
    case Compensate(pre) => Unanchored(pre)
    case NoUndo => []
  }

  lemma {:induction false} WrittenMeans(es: seq<FootprintEntry>, bound: bool, f: Fact)
    ensures f in Written(es, bound)
       <==> exists i :: 0 <= i < |es| && KindWrites(es[i].kind) && RuntimeBound(es[i].shape) == bound && FactOf(es[i]) == f
  {
    if es != [] {
      WrittenMeans(es[1..], bound, f);
      assert forall i :: 1 <= i < |es| ==> es[1..][i - 1] == es[i];
      assert forall i :: 0 <= i < |es| - 1 ==> es[1..][i] == es[i + 1];
    }
  }

  // ---------------------------------------------------------------------------
  // Overlap

  /** A shape up to its first runtime-bound part. */
  function StaticPart(s: string): (r: string)
    ensures r <= s && !RuntimeBound(r)
    ensures RuntimeBound(s) <==> r != s
  {
    if s == "" || s[0] == '{' then ""
    else
      assert s == [s[0]] + s[1..];
      [s[0]] + StaticPart(s[1..])
  }

  predicate OverlapShape(s1: string, s2: string) {
    if !RuntimeBound(s1) && !RuntimeBound(s2) then s1 == s2
    else StaticPart(s1) <= s2 || StaticPart(s2) <= s1
  }

  predicate Touches(f: Fact, g: Fact) {
    OverlapShape(f.shape, g.shape)
    && (f.anchor.Some? && g.anchor.Some? ==> f.anchor == g.anchor)
  }

  predicate OverlapHost(h1: string, h2: string) {
    h1 == h2 || RuntimeBound(h1) || RuntimeBound(h2)
  }

  /** What a shape may turn out to name: itself, or anything with its static part in front. */
  predicate MayName(shape: string, name: string) {
    if RuntimeBound(shape) then StaticPart(shape) <= name else name == shape
  }

  lemma {:induction false} StaticPartIsLongest(s: string, p: string)
    requires p <= s && !RuntimeBound(p)
    ensures p <= StaticPart(s)
  {
    if p != "" {
      assert p[0] == s[0] && p[1..] <= s[1..];
      assert forall c :: c in p[1..] ==> c in p;
      StaticPartIsLongest(s[1..], p[1..]);
    }
  }

  lemma {:induction false} StaticPartStops(s: string, i: nat)
    requires i < |s| && s[i] == '{'
    ensures |StaticPart(s)| <= i
  {
    if i > 0 && s[0] != '{' { StaticPartStops(s[1..], i - 1); }
  }

  /** Overlap compares static parts, each way, and nothing else. */
  lemma OverlapMeans(s1: string, s2: string)
    ensures OverlapShape(s1, s2) <==>
      if !RuntimeBound(s1) && !RuntimeBound(s2) then s1 == s2
      else StaticPart(s1) <= StaticPart(s2) || StaticPart(s2) <= StaticPart(s1)
    ensures OverlapShape(s1, s2) == OverlapShape(s2, s1)
  {
    if StaticPart(s1) <= s2 { StaticPartIsLongest(s2, StaticPart(s1)); }
    if StaticPart(s2) <= s1 { StaticPartIsLongest(s1, StaticPart(s2)); }
  }

  /** Two shapes that may name one thing overlap. */
  lemma OverlapMissesNothing(s1: string, s2: string, name: string)
    requires MayName(s1, name) && MayName(s2, name)
    ensures OverlapShape(s1, s2)
  {
    var a, b := StaticPart(s1), StaticPart(s2);
    assert a <= name && b <= name;
    if |a| <= |b| {
      assert a == name[..|a|] == b[..|a|];
      assert a <= b <= s2;
    } else {
      assert b == name[..|b|] == a[..|b|];
      assert b <= a <= s1;
    }
  }

  // ---------------------------------------------------------------------------
  // Steps and their numbers

  /** The host a step's locus names; a bound one is written so that it counts as bound. */
  function HostText(owner: string, o: Op): string {
    match o.locus
    case Controller => "controller"
    case Target => owner
    case AtHost(Static(h)) => h
    case AtHost(Bound(b)) => "{" + b + "}"
  }

  function LeafOf(owner: string, vars: seq<string>, n: nat, o: Op): Leaf {
    Leaf(n, o, HostText(owner, o), vars)
  }

  function StepsFrom(owner: string, vars: seq<string>, items: seq<Item>, start: nat): seq<Leaf>
    decreases items, 0
  {
    if items == [] then []
    else StepsOf(owner, vars, items[0], start) + StepsFrom(owner, vars, items[1..], start + LeafCountOf(items[0]))
  }

  function StepsOf(owner: string, vars: seq<string>, it: Item, start: nat): seq<Leaf>
    decreases it, 0
  {
    match it
    case Par(children) => StepsFrom(owner, vars, children, start)
    case Repeat(Over(_, _), v, body) => StepsFrom(owner, [v] + vars, body, start)
    case Repeat(Count(_), _, body) => StepsFrom(owner, vars, body, start)
    case When(_, _, _, then_, else_) =>
      StepsFrom(owner, vars, then_, start) + StepsFrom(owner, vars, else_, start + LeafCount(then_))
    case Step(s) => [LeafOf(owner, vars, start, s.op)]
    case Knell(s) => [LeafOf(owner, vars, start, s.op)]
    case _ => []
  }

  function StepFacts(owner: string, items: seq<Item>): seq<Leaf> { StepsFrom(owner, [], items, 1) }

  /** `step_facts`: a counter advances over the items and each step is pushed with its number. */
  method CollectSteps(owner: string, vars: seq<string>, items: seq<Item>, start: nat, pushed: seq<Leaf>) returns (out: seq<Leaf>)
    ensures out == pushed + StepsFrom(owner, vars, items, start)
    decreases items, 0
  {
    out := pushed;
    var n: nat := start;
    var i := 0;
    while i < |items|
      invariant 0 <= i <= |items|
      invariant out + StepsFrom(owner, vars, items[i..], n) == pushed + StepsFrom(owner, vars, items, start)
    {
      ghost var before := out;
      ghost var at: nat := n;
      out := CollectStepsOf(owner, vars, items[i], n, out);
      n := n + LeafCountOf(items[i]);
      assert items[i..][1..] == items[i + 1..];
      assert before + StepsFrom(owner, vars, items[i..], at) == out + StepsFrom(owner, vars, items[i + 1..], n);
      i := i + 1;
    }
  }

  method CollectStepsOf(owner: string, vars: seq<string>, it: Item, n: nat, pushed: seq<Leaf>) returns (out: seq<Leaf>)
    ensures out == pushed + StepsOf(owner, vars, it, n)
    decreases it, 0
  {
    match it {
      case Par(children) => out := CollectSteps(owner, vars, children, n, pushed);
      case Repeat(Over(_, _), v, body) => out := CollectSteps(owner, [v] + vars, body, n, pushed);
      case Repeat(Count(_), _, body) => out := CollectSteps(owner, vars, body, n, pushed);
      case When(_, _, _, then_, else_) =>
        out := CollectSteps(owner, vars, then_, n, pushed);
        out := CollectSteps(owner, vars, else_, n + LeafCount(then_), out);
        assert pushed + StepsFrom(owner, vars, then_, n) + StepsFrom(owner, vars, else_, n + LeafCount(then_))
            == pushed + StepsOf(owner, vars, it, n);
      case Step(s) => out := pushed + [LeafOf(owner, vars, n, s.op)];
      case Knell(s) => out := pushed + [LeafOf(owner, vars, n, s.op)];
      case _ => out := pushed;
    }
  }

  /** A leaf of the query is the step its number names in a stretch of leaves. */
  predicate StandsAt(l: Leaf, ls: seq<Item>, start: nat) {
    start <= l.n < start + |ls| && OpOf(ls[l.n - start]) == Some(l.op)
  }

  predicate Rising(leaves: seq<Leaf>) {
    forall i, j :: 0 <= i < j < |leaves| ==> leaves[i].n < leaves[j].n
  }

  predicate HasNumber(leaves: seq<Leaf>, n: nat) {
    exists i :: 0 <= i < |leaves| && leaves[i].n == n
  }

  ghost predicate NoneMissed(leaves: seq<Leaf>, ls: seq<Item>, start: nat) {
    forall k :: 0 <= k < |ls| && OpOf(ls[k]).Some? ==> HasNumber(leaves, start + k)
  }

  /** The steps of a stretch of leaves, in order, with the numbers `numbered` gives them. */
  ghost predicate Numbers(leaves: seq<Leaf>, ls: seq<Item>, start: nat) {
    && (forall i :: 0 <= i < |leaves| ==> StandsAt(leaves[i], ls, start))
    && Rising(leaves)
    && NoneMissed(leaves, ls, start)
  }

  lemma NumbersAppend(a: seq<Leaf>, la: seq<Item>, b: seq<Leaf>, lb: seq<Item>, start: nat)
    requires Numbers(a, la, start) && Numbers(b, lb, start + |la|)
    ensures Numbers(a + b, la + lb, start)
  {
    var leaves := a + b;
    forall i | 0 <= i < |leaves|
      ensures StandsAt(leaves[i], la + lb, start)
    {
      if i < |a| { assert StandsAt(a[i], la, start); } else { assert StandsAt(b[i - |a|], lb, start + |la|); }
    }
    assert forall i :: 0 <= i < |a| ==> StandsAt(a[i], la, start);
    assert forall i :: 0 <= i < |b| ==> StandsAt(b[i], lb, start + |la|);
    assert Rising(leaves) by { hide NoneMissed; }
    hide Rising, StandsAt;
    NoneMissedAppend(a, la, b, lb, start);
  }

  lemma NoneMissedAppend(a: seq<Leaf>, la: seq<Item>, b: seq<Leaf>, lb: seq<Item>, start: nat)
    requires NoneMissed(a, la, start) && NoneMissed(b, lb, start + |la|)
    ensures NoneMissed(a + b, la + lb, start)
  {
    forall k | 0 <= k < |la + lb| && OpOf((la + lb)[k]).Some?
      ensures HasNumber(a + b, start + k)
    {
      if k < |la| {
        assert HasNumber(a, start + k);
        var i :| 0 <= i < |a| && a[i].n == start + k;
        assert (a + b)[i].n == start + k;
      } else {
        assert HasNumber(b, start + |la| + (k - |la|));
        var i :| 0 <= i < |b| && b[i].n == start + k;
        assert (a + b)[|a| + i].n == start + k;
      }
    }
  }

  /** The query numbers every step as `numbered` does, misses none and orders them by number. */
  lemma {:induction false} StepsAreNumbered(owner: string, vars: seq<string>, items: seq<Item>, start: nat)
    ensures Numbers(StepsFrom(owner, vars, items, start), Leaves(items), start)
    decreases items, 0
  {
    hide LeafCountOf, StepsOf, LeavesOf;
    if items != [] {
      StepsOfAreNumbered(owner, vars, items[0], start);
      LeafCountOfIsLeavesOf(items[0]);
      StepsAreNumbered(owner, vars, items[1..], start + LeafCountOf(items[0]));
      hide Numbers;
      NumbersAppend(StepsOf(owner, vars, items[0], start), LeavesOf(items[0]),
                    StepsFrom(owner, vars, items[1..], start + LeafCountOf(items[0])), Leaves(items[1..]), start);
    }
  }

  lemma {:induction false} StepsOfAreNumbered(owner: string, vars: seq<string>, it: Item, start: nat)
    ensures Numbers(StepsOf(owner, vars, it, start), LeavesOf(it), start)
    decreases it, 0
  {
    hide Leaves, StepsFrom, LeafCount, Numbers;
    match it
    case Par(children) => StepsAreNumbered(owner, vars, children, start);
    case Repeat(Over(_, _), v, body) => StepsAreNumbered(owner, [v] + vars, body, start);
    case Repeat(Count(_), _, body) => StepsAreNumbered(owner, vars, body, start);
    case When(_, _, _, then_, else_) =>
      StepsAreNumbered(owner, vars, then_, start);
      LeafCountIsLeaves(then_);
      StepsAreNumbered(owner, vars, else_, start + LeafCount(then_));
      NumbersAppend(StepsFrom(owner, vars, then_, start), Leaves(then_),
                    StepsFrom(owner, vars, else_, start + LeafCount(then_)), Leaves(else_), start);
    case _ => OneIsNumbered(owner, vars, it, start);
  }

  lemma OneIsNumbered(owner: string, vars: seq<string>, it: Item, start: nat)
    requires !Container(it)
    ensures Numbers(StepsOf(owner, vars, it, start), [it], start)
  {
    var leaves := StepsOf(owner, vars, it, start);
    if OpOf(it).Some? {
      assert leaves == [LeafOf(owner, vars, start, OpOf(it).value)];
      assert leaves[0].n == start + 0;
    } else {
      assert leaves == [];
    }
  }

  /** Every step of a plan is one leaf of the query, under its own number and op. */
  lemma QueryNumbersAsThePlan(owner: string, items: seq<Item>, n: nat)
    ensures HasNumber(StepFacts(owner, items), n) <==> OpAt(items, n).Some?
    ensures forall l :: l in StepFacts(owner, items) && l.n == n ==> OpAt(items, n) == Some(l.op)
    ensures Rising(StepFacts(owner, items))
  {
    StepsAreNumbered(owner, [], items, 1);
    hide OpOf, Leaves, Rising;
    var leaves, ls := StepFacts(owner, items), Leaves(items);
    if OpAt(items, n).Some? {
      assert OpOf(ls[n - 1]).Some?;
    }
    forall i | 0 <= i < |leaves| && leaves[i].n == n
      ensures OpAt(items, n) == Some(leaves[i].op)
    {
      assert StandsAt(leaves[i], ls, 1);
    }
  }

  /** A step's host, as the query reads it off the owner and the locus. */
  lemma {:induction false} HostsAreRead(owner: string, vars: seq<string>, items: seq<Item>, start: nat)
    ensures forall l :: l in StepsFrom(owner, vars, items, start) ==> l.host == HostText(owner, l.op)
    decreases items, 0
  {
    if items != [] {
      HostsOfAreRead(owner, vars, items[0], start);
      HostsAreRead(owner, vars, items[1..], start + LeafCountOf(items[0]));
    }
  }

  lemma {:induction false} HostsOfAreRead(owner: string, vars: seq<string>, it: Item, start: nat)
    ensures forall l :: l in StepsOf(owner, vars, it, start) ==> l.host == HostText(owner, l.op)
    decreases it, 0
  {
    match it
    case Par(children) => HostsAreRead(owner, vars, children, start);
    case Repeat(Over(_, _), v, body) => HostsAreRead(owner, [v] + vars, body, start);
    case Repeat(Count(_), _, body) => HostsAreRead(owner, vars, body, start);
    case When(_, _, _, then_, else_) =>
      HostsAreRead(owner, vars, then_, start);
      HostsAreRead(owner, vars, else_, start + LeafCount(then_));
    case _ =>
  }
}
