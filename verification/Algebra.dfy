/** Leaves, their numbers, and reversal: core/src/algebra.rs. */
module Algebra {
  import opened Wrappers
  import opened Model

  // ---------------------------------------------------------------------------
  // Leaves and their numbers

  /** The leaves of a plan in execution order; a container contributes its children's. */
  function Leaves(items: seq<Item>): seq<Item>
    decreases items, 0
  {
    if items == [] then [] else LeavesOf(items[0]) + Leaves(items[1..])
  }

  function LeavesOf(it: Item): seq<Item>
    decreases it, 0
  {
    match it
    case Par(children) => Leaves(children)
    case Repeat(_, _, body) => Leaves(body)
    case When(_, _, _, then_, else_) => Leaves(then_) + Leaves(else_)
    case _ => [it]
  }

  /** `leaves`: each leaf is pushed onto one shared vector. */
  method CollectLeaves(items: seq<Item>, start: seq<Item>) returns (out: seq<Item>)
    ensures out == start + Leaves(items)
    decreases items, 0
  {
    out := start;
    var i := 0;
    while i < |items|
      invariant 0 <= i <= |items|
      invariant out + Leaves(items[i..]) == start + Leaves(items)
    {
      ghost var before := out;
      out := CollectLeavesOf(items[i], out);
      assert items[i..][1..] == items[i + 1..];
      assert before + Leaves(items[i..]) == out + Leaves(items[i + 1..]);
      i := i + 1;
    }
  }

  method CollectLeavesOf(it: Item, start: seq<Item>) returns (out: seq<Item>)
    ensures out == start + LeavesOf(it)
    decreases it, 0
  {
    match it {
      case Par(children) => out := CollectLeaves(children, start);
      case Repeat(_, _, body) => out := CollectLeaves(body, start);
      case When(_, _, _, then_, else_) =>
        out := CollectLeaves(then_, start);
        out := CollectLeaves(else_, out);
        assert start + Leaves(then_) + Leaves(else_) == start + (Leaves(then_) + Leaves(else_));
      case _ => out := start + [it];
    }
  }

  function StepOf(it: Item): Option<StepI> {
    match it
    case Step(s) => Some(s)
    case Knell(s) => Some(s)
    case _ => None
  }

  function OpOf(it: Item): Option<Op> {
    match StepOf(it)
    case Some(s) => Some(s.op)
    case None => None
  }

  /** The leaf with a number, and the op it carries. */
  function LeafAt(items: seq<Item>, n: nat): Option<Item> {
    var ls := Leaves(items);
    if 1 <= n <= |ls| then Some(ls[n - 1]) else None
  }

  function OpAt(items: seq<Item>, n: nat): Option<Op> {
    match LeafAt(items, n)
    case Some(it) => OpOf(it)
    case None => None
  }

  function StepAt(items: seq<Item>, n: nat): Option<StepI> {
    match LeafAt(items, n)
    case Some(it) => StepOf(it)
    case None => None
  }

  /** `leaf_count` as the interference query computes it, by its own recursion. */
  function LeafCount(items: seq<Item>): nat
    decreases items, 0
  {
    if items == [] then 0 else LeafCountOf(items[0]) + LeafCount(items[1..])
  }

  function LeafCountOf(it: Item): nat
    decreases it, 0
  {
    match it
    case Par(children) => LeafCount(children)
    case Repeat(_, _, body) => LeafCount(body)
    case When(_, _, _, then_, else_) => LeafCount(then_) + LeafCount(else_)
    case _ => 1
  }

  lemma {:induction false} LeafCountIsLeaves(items: seq<Item>)
    ensures LeafCount(items) == |Leaves(items)|
    decreases items, 0
  {
    if items != [] {
      LeafCountOfIsLeavesOf(items[0]);
      LeafCountIsLeaves(items[1..]);
    }
  }

  lemma {:induction false} LeafCountOfIsLeavesOf(it: Item)
    ensures LeafCountOf(it) == |LeavesOf(it)|
    decreases it, 0
  {
    match it
    case Par(children) => LeafCountIsLeaves(children);
    case Repeat(_, _, body) => LeafCountIsLeaves(body);
    case When(_, _, _, then_, else_) => LeafCountIsLeaves(then_); LeafCountIsLeaves(else_);
    case _ =>
  }

  lemma {:induction false} LeavesAppend(a: seq<Item>, b: seq<Item>)
    ensures Leaves(a + b) == Leaves(a) + Leaves(b)
  {
    if a == [] {
      assert a + b == b;
    } else {
      assert (a + b)[1..] == a[1..] + b;
      LeavesAppend(a[1..], b);
    }
  }

  lemma {:induction false} LeafCountAppend(a: seq<Item>, b: seq<Item>)
    ensures LeafCount(a + b) == LeafCount(a) + LeafCount(b)
  {
    LeavesAppend(a, b);
    LeafCountIsLeaves(a);
    LeafCountIsLeaves(b);
    LeafCountIsLeaves(a + b);
  }

  /** `part` stands in `all` from an index on. */
  predicate Slice<T(==)>(all: seq<T>, from: nat, part: seq<T>) {
    from + |part| <= |all| && all[from..from + |part|] == part
  }

  lemma SliceSplits<T>(all: seq<T>, from: nat, a: seq<T>, b: seq<T>)
    requires Slice(all, from, a + b)
    ensures Slice(all, from, a) && Slice(all, from + |a|, b)
  {
    var both := all[from..from + |a + b|];
    assert all[from..from + |a|] == both[..|a|] == a;
    assert all[from + |a|..from + |a| + |b|] == both[|a|..] == b;
  }

  lemma SliceHead<T>(all: seq<T>, from: nat, x: T)
    requires Slice(all, from, [x])
    ensures from < |all| && all[from] == x
  {
    assert all[from] == all[from..from + 1][0];
  }

  // ---------------------------------------------------------------------------
  // Reversal

  /** A reversal, or the knell that refuses it. */
  datatype Reversal<+T> = Turned(value: T) | Refused(at: Item)

  function Flip(d: Direction): Direction {
    if d == Forward then Inverse else Forward
  }

  function FlipStep(s: StepI): StepI { s.(direction := Flip(s.direction)) }

  function ReverseItem(it: Item): Reversal<Item>
    decreases it, 0
  {
    match it
    case Step(s) => Turned(Item.Step(FlipStep(s)))
    case Knell(_) => Refused(it)
    case Par(children) =>
      (match ReverseEach(children)
       case Turned(cs) => Turned(Par(cs))
       case Refused(at) => Refused(at))
    case Repeat(form, v, body) =>
      (match ReverseItems(body)
       case Turned(b) => Turned(Repeat(form, v, b))
       case Refused(at) => Refused(at))
    case When(g, w, l, then_, else_) =>
      (match ReverseItems(then_)
       case Refused(at) => Refused(at)
       case Turned(t) =>
         match ReverseItems(else_)
         case Refused(at) => Refused(at)
         case Turned(e) => Turned(When(g, w, l, t, e)))
    case _ => Turned(it)
  }

  /** A `par` reverses each child in place. */
  function ReverseEach(items: seq<Item>): Reversal<seq<Item>>
    decreases items, 0
  {
    if items == [] then Turned([])
    else
      match ReverseItem(items[0])
      case Refused(at) => Refused(at)
      case Turned(x) =>
        match ReverseEach(items[1..])
        case Refused(at) => Refused(at)
        case Turned(xs) => Turned([x] + xs)
  }

  /** A sequence reverses last in, first out, and refuses at the last knell it meets. */
  function ReverseItems(items: seq<Item>): Reversal<seq<Item>>
    decreases items, 0
  {
    if items == [] then Turned([])
    else
      var last := |items| - 1;
      match ReverseItem(items[last])
      case Refused(at) => Refused(at)
      case Turned(x) =>
        match ReverseItems(items[..last])
        case Refused(at) => Refused(at)
        case Turned(xs) => Turned([x] + xs)
  }

  /** Undo the applied prefix: the first `k` leaves, reversed. */
  function ReverseFrom(k: nat, items: seq<Item>): Reversal<seq<Item>> {
    var ls := Leaves(items);
    ReverseItems(if k < |ls| then ls[..k] else ls)
  }

  predicate KnellFree(items: seq<Item>)
    decreases items, 0
  {
    items == [] || (KnellFreeItem(items[0]) && KnellFree(items[1..]))
  }

  predicate KnellFreeItem(it: Item)
    decreases it, 0
  {
    match it
    case Knell(_) => false
    case Par(children) => KnellFree(children)
    case Repeat(_, _, body) => KnellFree(body)
    case When(_, _, _, then_, else_) => KnellFree(then_) && KnellFree(else_)
    case _ => true
  }

  lemma {:induction false} KnellFreeAppend(a: seq<Item>, b: seq<Item>)
    ensures KnellFree(a + b) <==> KnellFree(a) && KnellFree(b)
  {
    if a == [] {
      assert a + b == b;
    } else {
      assert (a + b)[1..] == a[1..] + b;
      KnellFreeAppend(a[1..], b);
    }
  }

  /** Reversal refuses exactly the plans with a knell in them, and what it refuses at is one. */
  lemma {:induction false} ReverseRefusesExactlyKnells(items: seq<Item>)
    ensures ReverseItems(items).Turned? <==> KnellFree(items)
    ensures ReverseItems(items).Refused? ==> ReverseItems(items).at.Knell?
    decreases items, 0
  {
    if items != [] {
      var last := |items| - 1;
      assert items == items[..last] + [items[last]];
      KnellFreeAppend(items[..last], [items[last]]);
      assert KnellFree([items[last]]) <==> KnellFreeItem(items[last]);
      ReverseItemRefusesExactlyKnells(items[last]);
      ReverseRefusesExactlyKnells(items[..last]);
    }
  }

  lemma {:induction false} ReverseItemRefusesExactlyKnells(it: Item)
    ensures ReverseItem(it).Turned? <==> KnellFreeItem(it)
    ensures ReverseItem(it).Refused? ==> ReverseItem(it).at.Knell?
    decreases it, 0
  {
    match it
    case Par(children) => ReverseEachRefusesExactlyKnells(children);
    case Repeat(_, _, body) => ReverseRefusesExactlyKnells(body);
    case When(_, _, _, then_, else_) =>
      ReverseRefusesExactlyKnells(then_);
      ReverseRefusesExactlyKnells(else_);
    case _ =>
  }

  lemma {:induction false} ReverseEachRefusesExactlyKnells(items: seq<Item>)
    ensures ReverseEach(items).Turned? <==> KnellFree(items)
    ensures ReverseEach(items).Refused? ==> ReverseEach(items).at.Knell?
    decreases items, 0
  {
    if items != [] {
      ReverseItemRefusesExactlyKnells(items[0]);
      ReverseEachRefusesExactlyKnells(items[1..]);
    }
  }

  lemma ReverseSnoc(a: seq<Item>, x: Item)
    requires ReverseItem(x).Turned? && ReverseItems(a).Turned?
    ensures ReverseItems(a + [x]) == Turned([ReverseItem(x).value] + ReverseItems(a).value)
  {
    var all := a + [x];
    assert all[|all| - 1] == x && all[..|all| - 1] == a;
  }

  /** reverse (a then b) = (reverse b) then (reverse a), on knell-free plans. */
  lemma {:induction false} ReverseAntiDistributes(a: seq<Item>, b: seq<Item>)
    requires KnellFree(a) && KnellFree(b)
    ensures ReverseItems(a).Turned? && ReverseItems(b).Turned?
    ensures ReverseItems(a + b) == Turned(ReverseItems(b).value + ReverseItems(a).value)
    decreases |b|
  {
    ReverseRefusesExactlyKnells(a);
    ReverseRefusesExactlyKnells(b);
    hide KnellFree, KnellFreeItem, ReverseItem;
    if b == [] {
      assert a + b == a;
      assert [] + ReverseItems(a).value == ReverseItems(a).value;
    } else {
      var init, x := b[..|b| - 1], b[|b| - 1];
      assert b == init + [x];
      KnellFreeAppend(init, [x]);
      ReverseAntiDistributes(a, init);
      assert a + b == (a + init) + [x];
      assert ReverseItem(x).Turned?;
      ReverseSnoc(a + init, x);
      ReverseSnoc(init, x);
      var rx := [ReverseItem(x).value];
      assert rx + (ReverseItems(init).value + ReverseItems(a).value)
          == (rx + ReverseItems(init).value) + ReverseItems(a).value;
    }
  }

  /** reverse . reverse = id on knell-free plans; the reversal is knell-free again. */
  lemma {:induction false} ReverseIsAnInvolution(items: seq<Item>)
    requires KnellFree(items)
    ensures ReverseItems(items).Turned? && KnellFree(ReverseItems(items).value)
    ensures ReverseItems(ReverseItems(items).value) == Turned(items)
    decreases items, 1
  {
    ReverseRefusesExactlyKnells(items);
    if items != [] {
      var last := |items| - 1;
      assert items == items[..last] + [items[last]];
      KnellFreeAppend(items[..last], [items[last]]);
      assert KnellFree([items[last]]);
      ReverseItemIsAnInvolution(items[last]);
      ReverseIsAnInvolution(items[..last]);
      var x := ReverseItem(items[last]).value;
      var xs := ReverseItems(items[..last]).value;
      assert ReverseItems([]) == Turned([]);
      assert [x][..0] == [];
      assert ReverseItems([x]) == Turned([items[last]] + []);
      assert [items[last]] + [] == [items[last]];
      KnellFreeAppend([x], xs);
      ReverseAntiDistributes([x], xs);
    }
  }

  lemma {:induction false} ReverseItemIsAnInvolution(it: Item)
    requires KnellFreeItem(it)
    ensures ReverseItem(it).Turned? && KnellFreeItem(ReverseItem(it).value)
    ensures ReverseItem(ReverseItem(it).value) == Turned(it)
    decreases it, 1
  {
    match it
    case Par(children) => ReverseEachIsAnInvolution(children);
    case Repeat(_, _, body) => ReverseIsAnInvolution(body);
    case When(_, _, _, then_, else_) =>
      ReverseIsAnInvolution(then_);
      ReverseIsAnInvolution(else_);
    case _ =>
  }

  lemma {:induction false} ReverseEachIsAnInvolution(items: seq<Item>)
    requires KnellFree(items)
    ensures ReverseEach(items).Turned? && KnellFree(ReverseEach(items).value)
    ensures ReverseEach(ReverseEach(items).value) == Turned(items)
    decreases items, 1
  {
    if items != [] {
      ReverseItemIsAnInvolution(items[0]);
      ReverseEachIsAnInvolution(items[1..]);
      var x := ReverseItem(items[0]).value;
      var xs := ReverseEach(items[1..]).value;
      assert ReverseEach(items).value == [x] + xs;
      assert ([x] + xs)[1..] == xs;
      assert [items[0]] + items[1..] == items;
    }
  }

  // ---------------------------------------------------------------------------
  // Partial reversal

  /** The number of the first knell, if the plan has one. */
  function FirstKnell(items: seq<Item>): (r: Option<nat>)
    ensures r.None? ==> forall i :: 0 <= i < |Leaves(items)| ==> !Leaves(items)[i].Knell?
    ensures r.Some? ==> 1 <= r.value <= |Leaves(items)| && Leaves(items)[r.value - 1].Knell?
                        && forall i :: 0 <= i < r.value - 1 ==> !Leaves(items)[i].Knell?
  {
    FirstKnellFrom(Leaves(items), 0)
  }

  function FirstKnellFrom(ls: seq<Item>, i: nat): (r: Option<nat>)
    requires i <= |ls|
    ensures r.None? ==> forall j :: i <= j < |ls| ==> !ls[j].Knell?
    ensures r.Some? ==> i < r.value <= |ls| && ls[r.value - 1].Knell?
                        && forall j :: i <= j < r.value - 1 ==> !ls[j].Knell?
    decreases |ls| - i
  {
    if i == |ls| then None
    else if ls[i].Knell? then Some(i + 1)
    else FirstKnellFrom(ls, i + 1)
  }

  predicate AllLeaves(ls: seq<Item>) {
    forall i :: 0 <= i < |ls| ==> !Container(ls[i])
  }

  lemma {:induction false} LeavesAreLeaves(items: seq<Item>)
    ensures AllLeaves(Leaves(items))
    decreases items, 0
  {
    if items != [] {
      LeavesOfAreLeaves(items[0]);
      LeavesAreLeaves(items[1..]);
    }
  }

  lemma {:induction false} LeavesOfAreLeaves(it: Item)
    ensures AllLeaves(LeavesOf(it))
    decreases it, 0
  {
    match it
    case Par(children) => LeavesAreLeaves(children);
    case Repeat(_, _, body) => LeavesAreLeaves(body);
    case When(_, _, _, then_, else_) => LeavesAreLeaves(then_); LeavesAreLeaves(else_);
    case _ =>
  }

  lemma {:induction false} KnellFreeLeaves(ls: seq<Item>)
    requires AllLeaves(ls)
    ensures KnellFree(ls) <==> forall i :: 0 <= i < |ls| ==> !ls[i].Knell?
  {
    if ls != [] {
      KnellFreeLeaves(ls[1..]);
      assert forall i :: 1 <= i < |ls| ==> ls[i] == ls[1..][i - 1];
    }
  }

  /** `reverse_from(k)` succeeds exactly when `k` is below the first knell's number. */
  lemma ReverseFromStopsAtTheFirstKnell(k: nat, items: seq<Item>)
    ensures ReverseFrom(k, items).Turned? <==> FirstKnell(items).None? || k < FirstKnell(items).value
  {
    var ls := Leaves(items);
    var prefix := if k < |ls| then ls[..k] else ls;
    LeavesAreLeaves(items);
    KnellFreeLeaves(prefix);
    ReverseRefusesExactlyKnells(prefix);
    var first := FirstKnell(items);
    if first.Some? && first.value <= k {
      assert prefix[first.value - 1].Knell?;
    }
  }

  /** The last mutating leaf's number, 0 when there is none. */
  function LastStep(ls: seq<Item>): (n: nat)
    ensures n <= |ls|
  {
    if ls == [] then 0
    else if OpOf(ls[|ls| - 1]).Some? then |ls|
    else LastStep(ls[..|ls| - 1])
  }

  /** The verdict's `reversible_through`, given whether the query found a conflict. */
  function ReversibleThrough(items: seq<Item>, conflicts: bool): nat {
    if conflicts then 0
    else
      match FirstKnell(items)
      case Some(k) => k - 1
      case None => LastStep(Leaves(items))
  }

  /** The step number the verdict states is one a reversal reaches back from. */
  lemma ReversibleThroughIsReversible(items: seq<Item>, conflicts: bool)
    ensures ReverseFrom(ReversibleThrough(items, conflicts), items).Turned?
  {
    ReverseFromStopsAtTheFirstKnell(ReversibleThrough(items, conflicts), items);
  }
}
