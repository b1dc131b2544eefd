/** Where a walk stands in the plan's unrolling, and what every walk of an interrupted run
    keeps: it visits the unrolling in order, and what is applied is a prefix of it. */
module Course {
  import opened Wrappers
  import opened Model
  import opened Algebra
  import opened Footprint
  import opened Unrolling
  import opened Safety

  /** What was walked, followed by these items, is the start of the plan's unrolling, however
      the arms still open are decided. */
  ghost predicate FitsItems(s: Setting, ch: Choices, walked: seq<AppliedStep>, items: seq<Item>, iteration: nat, leaf: nat, vars: Vars) {
    forall more: Choices :: Extends(ch, more) ==>
      walked + Unroll(s.lists, items, iteration, leaf, vars, more).apps <= Planned(s, more)
  }

  ghost predicate FitsItem(s: Setting, ch: Choices, walked: seq<AppliedStep>, it: Item, iteration: nat, leaf: nat, vars: Vars) {
    forall more: Choices :: Extends(ch, more) ==>
      walked + UnrollItem(s.lists, it, iteration, leaf, vars, more).apps <= Planned(s, more)
  }

  /** The first `i` items contributed `done`, and the rest start at `leaf`. */
  ghost predicate Reached(s: Setting, ch: Choices, items: seq<Item>, iteration: nat, start: nat, vars: Vars, done: seq<AppliedStep>, i: nat, leaf: nat)
    requires i <= |items|
  {
    forall more: Choices :: Extends(ch, more) ==>
      Unroll(s.lists, items, iteration, start, vars, more)
      == Then(Unrolled(done, true), Unroll(s.lists, items[i..], iteration, leaf, vars, more))
  }

  /** The first `i` iterations of a repeat contributed `done`. */
  ghost predicate Iterated(s: Setting, ch: Choices, values: seq<string>, v: string, body: seq<Item>, leaf: nat, vars: Vars, done: seq<AppliedStep>, i: nat)
    requires i <= |values|
  {
    forall more: Choices :: Extends(ch, more) ==>
      UnrollRepeat(s.lists, values, 0, v, body, leaf, vars, more)
      == Then(Unrolled(done, true), UnrollRepeat(s.lists, values, i, v, body, leaf, vars, more))
  }

  lemma PrefixOfPrefix<T>(a: seq<T>, b: seq<T>, c: seq<T>)
    requires a <= b <= c
    ensures a <= c
  {
  }

  lemma StartReached(s: Setting, ch: Choices, items: seq<Item>, iteration: nat, start: nat, vars: Vars)
    ensures Reached(s, ch, items, iteration, start, vars, [], 0, start)
  {
    hide Unroll;
    assert items[0..] == items;
  }

  /** The item a walk has reached fits where the walk stands. */
  lemma ReachedFits(s: Setting, ch: Choices, walked: seq<AppliedStep>, items: seq<Item>, iteration: nat, start: nat, vars: Vars, done: seq<AppliedStep>, i: nat, leaf: nat)
    requires i < |items|
    requires FitsItems(s, ch, walked, items, iteration, start, vars)
    requires Reached(s, ch, items, iteration, start, vars, done, i, leaf)
    ensures FitsItem(s, ch, walked + done, items[i], iteration, leaf, vars)
  {
    forall more: Choices | Extends(ch, more)
      ensures walked + done + UnrollItem(s.lists, items[i], iteration, leaf, vars, more).apps <= Planned(s, more)
    {
      hide UnrollItem, Planned;
      var here := UnrollItem(s.lists, items[i], iteration, leaf, vars, more);
      var rest := Unroll(s.lists, items[i..], iteration, leaf, vars, more);
      var all := Unroll(s.lists, items, iteration, start, vars, more);
      assert here.apps <= rest.apps;
      assert all.apps == done + rest.apps;
      PrefixOfPrefix(walked + done + here.apps, walked + all.apps, Planned(s, more));
    }
  }

  /** Going past an item whose arms are all decided. */
  lemma ReachedNext(s: Setting, ch: Choices, ch': Choices, items: seq<Item>, iteration: nat, start: nat, vars: Vars, done: seq<AppliedStep>, i: nat, leaf: nat)
    requires i < |items| && Extends(ch, ch')
    requires Reached(s, ch, items, iteration, start, vars, done, i, leaf)
    requires UnrollItem(s.lists, items[i], iteration, leaf, vars, ch').whole
    ensures Reached(s, ch', items, iteration, start, vars,
                    done + UnrollItem(s.lists, items[i], iteration, leaf, vars, ch').apps, i + 1, leaf + LeafCountOf(items[i]))
  {
    var here := UnrollItem(s.lists, items[i], iteration, leaf, vars, ch');
    forall more: Choices | Extends(ch', more)
      ensures Unroll(s.lists, items, iteration, start, vars, more)
           == Then(Unrolled(done + here.apps, true), Unroll(s.lists, items[i + 1..], iteration, leaf + LeafCountOf(items[i]), vars, more))
    {
      UnrollItemContinues(s.lists, items[i], iteration, leaf, vars, ch', more);
      hide UnrollItem, LeafCountOf;
      var rest := Unroll(s.lists, items[i + 1..], iteration, leaf + LeafCountOf(items[i]), vars, more);
      assert items[i..][1..] == items[i + 1..];
      assert Unroll(s.lists, items[i..], iteration, leaf, vars, more) == Then(here, rest);
      assert done + (here.apps + rest.apps) == (done + here.apps) + rest.apps;
    }
  }

  lemma ReachedEnd(s: Setting, ch: Choices, items: seq<Item>, iteration: nat, start: nat, vars: Vars, done: seq<AppliedStep>, leaf: nat)
    requires Reached(s, ch, items, iteration, start, vars, done, |items|, leaf)
    ensures Unroll(s.lists, items, iteration, start, vars, ch) == Unrolled(done, true)
  {
    assert Extends(ch, ch);
    assert items[|items|..] == [];
    assert Unroll(s.lists, [], iteration, leaf, vars, ch) == Unrolled([], true);
    assert done + [] == done;
  }

  lemma StartIterated(s: Setting, ch: Choices, values: seq<string>, v: string, body: seq<Item>, leaf: nat, vars: Vars)
    ensures Iterated(s, ch, values, v, body, leaf, vars, [], 0)
  {
    hide UnrollRepeat;
  }

  lemma IteratedFits(s: Setting, ch: Choices, walked: seq<AppliedStep>, it: Item, iteration: nat, leaf: nat, vars: Vars, values: seq<string>, done: seq<AppliedStep>, i: nat)
    requires it.Repeat? && values == ValuesOf(s.lists, it.form, vars) && i < |values|
    requires FitsItem(s, ch, walked, it, iteration, leaf, vars)
    requires Iterated(s, ch, values, it.variable, it.body, leaf, vars, done, i)
    ensures FitsItems(s, ch, walked + done, it.body, i, leaf, vars[it.variable := values[i]])
  {
    var inner := vars[it.variable := values[i]];
    forall more: Choices | Extends(ch, more)
      ensures walked + done + Unroll(s.lists, it.body, i, leaf, inner, more).apps <= Planned(s, more)
    {
      hide Unroll, Planned;
      var here := Unroll(s.lists, it.body, i, leaf, inner, more);
      var rest := UnrollRepeat(s.lists, values, i, it.variable, it.body, leaf, vars, more);
      var all := UnrollItem(s.lists, it, iteration, leaf, vars, more);
      assert here.apps <= rest.apps;
      assert all.apps == done + rest.apps;
      PrefixOfPrefix(walked + done + here.apps, walked + all.apps, Planned(s, more));
    }
  }

  lemma IteratedNext(s: Setting, ch: Choices, ch': Choices, values: seq<string>, v: string, body: seq<Item>, leaf: nat, vars: Vars, done: seq<AppliedStep>, i: nat)
    requires i < |values| && Extends(ch, ch')
    requires Iterated(s, ch, values, v, body, leaf, vars, done, i)
    requires Unroll(s.lists, body, i, leaf, vars[v := values[i]], ch').whole
    ensures Iterated(s, ch', values, v, body, leaf, vars, done + Unroll(s.lists, body, i, leaf, vars[v := values[i]], ch').apps, i + 1)
  {
    var inner := vars[v := values[i]];
    var here := Unroll(s.lists, body, i, leaf, inner, ch');
    forall more: Choices | Extends(ch', more)
      ensures UnrollRepeat(s.lists, values, 0, v, body, leaf, vars, more)
           == Then(Unrolled(done + here.apps, true), UnrollRepeat(s.lists, values, i + 1, v, body, leaf, vars, more))
    {
      UnrollContinues(s.lists, body, i, leaf, inner, ch', more);
      hide Unroll;
      var rest := UnrollRepeat(s.lists, values, i + 1, v, body, leaf, vars, more);
      assert UnrollRepeat(s.lists, values, i, v, body, leaf, vars, more) == Then(here, rest);
      assert done + (here.apps + rest.apps) == (done + here.apps) + rest.apps;
    }
  }

  lemma IteratedEnd(s: Setting, ch: Choices, values: seq<string>, v: string, body: seq<Item>, leaf: nat, vars: Vars, done: seq<AppliedStep>)
    requires Iterated(s, ch, values, v, body, leaf, vars, done, |values|)
    ensures UnrollRepeat(s.lists, values, 0, v, body, leaf, vars, ch) == Unrolled(done, true)
  {
    assert Extends(ch, ch);
    assert done + [] == done;
  }

  /** Going into the arm a `when` chose, or a `par`'s children. */
  lemma ArmFits(s: Setting, ch: Choices, walked: seq<AppliedStep>, it: Item, iteration: nat, leaf: nat, vars: Vars)
    requires FitsItem(s, ch, walked, it, iteration, leaf, vars)
    ensures it.Par? ==> FitsItems(s, ch, walked, it.children, iteration, leaf, vars)
    ensures it.When? && leaf in ch && ch[leaf] ==> FitsItems(s, ch, walked, it.then_, iteration, leaf, vars)
    ensures it.When? && leaf in ch && !ch[leaf] ==> FitsItems(s, ch, walked, it.else_, iteration, leaf + LeafCount(it.then_), vars)
  {
    hide Unroll, Planned;
  }

  /** Deciding an arm keeps what fits. */
  lemma FitsLater(s: Setting, ch: Choices, ch': Choices, walked: seq<AppliedStep>, it: Item, iteration: nat, leaf: nat, vars: Vars)
    requires FitsItem(s, ch, walked, it, iteration, leaf, vars) && Extends(ch, ch')
    ensures FitsItem(s, ch', walked, it, iteration, leaf, vars)
  {
    hide UnrollItem, Planned;
    assert forall more: Choices :: Extends(ch', more) ==> Extends(ch, more);
  }

  lemma WholePlanFits(s: Setting, ch: Choices)
    ensures FitsItems(s, ch, [], s.plan.body, 0, 1, map[])
  {
    hide Unroll;
    forall more: Choices | Extends(ch, more)
      ensures [] + Unroll(s.lists, s.plan.body, 0, 1, map[], more).apps <= Planned(s, more)
    {
      assert [] + Planned(s, more) == Planned(s, more);
    }
  }

  // ---------------------------------------------------------------------------
  // Skipping and running

  /** No two positions of the unrolling hold one application. */
  lemma NoRepeats(s: Setting, ch: Choices, i: nat, j: nat)
    requires Identified(s) && i < |Planned(s, ch)| && j < |Planned(s, ch)|
    requires Planned(s, ch)[i] == Planned(s, ch)[j]
    ensures i == j
  {
  }

  /** A leaf the walk comes to is either already applied, and then skipped in step with the
      applied prefix, or it is the next one. */
  lemma SkippedOrNext(s: Setting, r: Record, walked: seq<AppliedStep>, a: AppliedStep)
    requires Identified(s) && r.applied <= Planned(s, r.choices)
    requires walked <= r.applied && walked + [a] <= Planned(s, r.choices)
    ensures a in r.applied ==> walked + [a] <= r.applied
    ensures a !in r.applied ==> walked == r.applied && Next(s, r, a)
  {
    var u := Planned(s, r.choices);
    var n := |walked|;
    assert u[n] == (walked + [a])[n] == a;
    assert forall i :: 0 <= i < |r.applied| ==> r.applied[i] == u[i];
    if a in r.applied {
      var i :| 0 <= i < |r.applied| && r.applied[i] == a;
      NoRepeats(s, r.choices, i, n);
    }
  }

  /** `applied` has no application twice. */
  lemma AppliedOnce(s: Setting, r: Record, i: nat, j: nat)
    requires Identified(s) && OnCourse(s, r) && i < |r.applied| && j < |r.applied| && r.applied[i] == r.applied[j]
    ensures i == j
  {
    var u := Planned(s, r.choices);
    assert r.applied[i] == u[i] && r.applied[j] == u[j];
    NoRepeats(s, r.choices, i, j);
  }

  /** Deciding one more arm keeps a record on course. */
  lemma ChoiceKeepsCourse(s: Setting, r: Record, leaf: nat, arm: bool)
    requires OnCourse(s, r) && leaf !in r.choices
    ensures OnCourse(s, r.(choices := r.choices[leaf := arm]))
  {
    var more := r.choices[leaf := arm];
    UnrollContinues(s.lists, s.plan.body, 0, 1, map[], r.choices, more);
    hide Unroll;
    PrefixOfPrefix(r.applied, Planned(s, r.choices), Planned(s, more));
    if r.attempting.Some? && Next(s, r, r.attempting.value) {
      PrefixOfPrefix(r.applied + [r.attempting.value], Planned(s, r.choices), Planned(s, more));
    }
    if r.deferred.Some? && Next(s, r, r.deferred.value) {
      PrefixOfPrefix(r.applied + [r.deferred.value], Planned(s, r.choices), Planned(s, more));
    }
  }

  // ---------------------------------------------------------------------------
  // Numbers

  /** The items' leaves are the plan's leaves from number `leaf` on. */
  ghost predicate Placed(s: Setting, items: seq<Item>, leaf: nat) {
    1 <= leaf && Slice(Leaves(s.plan.body), leaf - 1, Leaves(items))
  }

  ghost predicate PlacedItem(s: Setting, it: Item, leaf: nat) {
    1 <= leaf && Slice(Leaves(s.plan.body), leaf - 1, LeavesOf(it))
  }

  lemma PlacedAt(s: Setting, items: seq<Item>, leaf: nat, i: nat)
    requires Placed(s, items, leaf) && i < |items|
    ensures PlacedItem(s, items[i], leaf + LeafCount(items[..i]))
    ensures LeafCount(items[..i + 1]) == LeafCount(items[..i]) + LeafCountOf(items[i])
  {
    var before, after := items[..i], items[i + 1..];
    LeavesAround(items, i);
    LeafCountIsLeaves(before);
    hide Leaves, LeavesOf, LeafCount, LeafCountOf, Slice;
    SliceSplits(Leaves(s.plan.body), leaf - 1, Leaves(before), LeavesOf(items[i]) + Leaves(after));
    SliceSplits(Leaves(s.plan.body), leaf - 1 + LeafCount(before), LeavesOf(items[i]), Leaves(after));
  }

  lemma SplitsAround<T>(xs: seq<T>, i: nat)
    requires i < |xs|
    ensures xs == xs[..i] + ([xs[i]] + xs[i + 1..]) && xs[..i + 1] == xs[..i] + [xs[i]]
  {
  }

  lemma LeavesAround(items: seq<Item>, i: nat)
    requires i < |items|
    ensures Leaves(items) == Leaves(items[..i]) + (LeavesOf(items[i]) + Leaves(items[i + 1..]))
    ensures LeafCount(items[..i + 1]) == LeafCount(items[..i]) + LeafCountOf(items[i])
  {
    hide Leaves, LeavesOf, LeafCount, LeafCountOf;
    var before, one, after := items[..i], [items[i]], items[i + 1..];
    SplitsAround(items, i);
    LeavesAppend(before, one + after);
    LeafCountAppend(before, one);
    LeavesOfOne(items[i], after);
  }

  lemma LeavesOfOne(it: Item, after: seq<Item>)
    ensures Leaves([it] + after) == LeavesOf(it) + Leaves(after)
    ensures LeafCount([it]) == LeafCountOf(it)
  {
    assert ([it] + after)[1..] == after && [it][1..] == [];
  }

  lemma PlacedInside(s: Setting, it: Item, leaf: nat)
    requires PlacedItem(s, it, leaf)
    ensures it.Par? ==> Placed(s, it.children, leaf)
    ensures it.Repeat? ==> Placed(s, it.body, leaf)
    ensures it.When? ==> Placed(s, it.then_, leaf) && Placed(s, it.else_, leaf + LeafCount(it.then_))
    ensures !Container(it) ==> LeafAt(s.plan.body, leaf) == Some(it)
  {
    hide Slice, Leaves;
    if it.When? {
      LeafCountIsLeaves(it.then_);
      SliceSplits(Leaves(s.plan.body), leaf - 1, Leaves(it.then_), Leaves(it.else_));
    } else if !Container(it) {
      SliceHead(Leaves(s.plan.body), leaf - 1, it);
    }
  }
}
