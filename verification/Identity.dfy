/** Exactly when a key, a step and the variables bound around it, identifies an application among all
    those of one unrolling: engine/src/lifecycle.rs keeps snapshots and markers under it. */
module Identity {
  import opened Wrappers
  import opened Model
  import opened Algebra
  import opened Footprint
  import opened Unrolling
  import opened Completion

  // ---------------------------------------------------------------------------
  // The condition, on the values the repeats bind

  /** No repeat that is run binds one value in two iterations whose body runs a leaf. */
  predicate Parted(lists: Lists, items: seq<Item>, leaf: nat, vars: Vars, ch: Choices)
    decreases items, 1, 0
  {
    items == [] ||
    (PartedItem(lists, items[0], leaf, vars, ch)
     && (UnrollItem(lists, items[0], 0, leaf, vars, ch).whole ==> Parted(lists, items[1..], leaf + LeafCountOf(items[0]), vars, ch)))
  }

  predicate PartedItem(lists: Lists, it: Item, leaf: nat, vars: Vars, ch: Choices)
    decreases it, 2, 0
  {
    match it
    case Par(children) => Parted(lists, children, leaf, vars, ch)
    case Repeat(form, v, body) => PartedRepeat(lists, ValuesOf(lists, form, vars), 0, v, body, leaf, vars, ch)
    case When(_, _, _, then_, else_) =>
      if leaf !in ch then true
      else if ch[leaf] then Parted(lists, then_, leaf, vars, ch)
      else Parted(lists, else_, leaf + LeafCount(then_), vars, ch)
    case _ => true
  }

  predicate PartedRepeat(lists: Lists, values: seq<string>, i: nat, v: string, body: seq<Item>, leaf: nat, vars: Vars, ch: Choices)
    requires i <= |values|
    decreases body, 2, |values| - i
  {
    i == |values| ||
    var here := Unroll(lists, body, i, leaf, vars[v := values[i]], ch);
    && Parted(lists, body, leaf, vars[v := values[i]], ch)
    && (here.whole ==> PartedRepeat(lists, values, i + 1, v, body, leaf, vars, ch))
    && (here.whole && here.apps != [] ==> values[i] !in Reached(lists, values, i + 1, v, body, leaf, vars, ch))
  }

  /** The values of the iterations begun, from the `i`-th on: one that stops for an undecided `when`
      is the last. */
  function Reached(lists: Lists, values: seq<string>, i: nat, v: string, body: seq<Item>, leaf: nat, vars: Vars, ch: Choices): seq<string>
    requires i <= |values|
    decreases |values| - i
  {
    if i == |values| then []
    else [values[i]] + if Unroll(lists, body, i, leaf, vars[v := values[i]], ch).whole then Reached(lists, values, i + 1, v, body, leaf, vars, ch) else []
  }

  // ---------------------------------------------------------------------------
  // The iteration is no part of a key

  predicate SameKeys(a: Unrolled, b: Unrolled) {
    && a.whole == b.whole && |a.apps| == |b.apps|
    && forall i :: 0 <= i < |a.apps| ==> a.apps[i].AsKey() == b.apps[i].AsKey()
  }

  lemma ThenSameKeys(a: Unrolled, a': Unrolled, b: Unrolled, b': Unrolled)
    requires SameKeys(a, a') && SameKeys(b, b')
    ensures SameKeys(Then(a, b), Then(a', b'))
  {
  }

  lemma {:induction false} IterationDoesNotMatter(lists: Lists, items: seq<Item>, m: nat, n: nat, leaf: nat, vars: Vars, ch: Choices)
    ensures SameKeys(Unroll(lists, items, m, leaf, vars, ch), Unroll(lists, items, n, leaf, vars, ch))
    decreases items, 1
  {
    hide UnrollItem, SameKeys;
    if items == [] {
      NothingSameKeys();
    } else {
      var next := leaf + LeafCountOf(items[0]);
      ItemIterationDoesNotMatter(lists, items[0], m, n, leaf, vars, ch);
      IterationDoesNotMatter(lists, items[1..], m, n, next, vars, ch);
      ThenSameKeys(UnrollItem(lists, items[0], m, leaf, vars, ch), UnrollItem(lists, items[0], n, leaf, vars, ch),
                   Unroll(lists, items[1..], m, next, vars, ch), Unroll(lists, items[1..], n, next, vars, ch));
    }
  }

  lemma NothingSameKeys()
    ensures SameKeys(Unrolled([], true), Unrolled([], true))
  {
  }

  lemma {:induction false} ItemIterationDoesNotMatter(lists: Lists, it: Item, m: nat, n: nat, leaf: nat, vars: Vars, ch: Choices)
    ensures SameKeys(UnrollItem(lists, it, m, leaf, vars, ch), UnrollItem(lists, it, n, leaf, vars, ch))
    decreases it, 0
  {
    match it
    case Par(children) => IterationDoesNotMatter(lists, children, m, n, leaf, vars, ch);
    case When(_, _, _, then_, else_) =>
      IterationDoesNotMatter(lists, then_, m, n, leaf, vars, ch);
      IterationDoesNotMatter(lists, else_, m, n, leaf + LeafCount(then_), vars, ch);
    case _ =>
  }

  // ---------------------------------------------------------------------------
  // Where applications lie

  lemma {:induction false} UnrollUnder(lists: Lists, items: seq<Item>, iteration: nat, leaf: nat, vars: Vars, ch: Choices)
    requires Unshadowed(items, vars.Keys)
    ensures AllUnder(Unroll(lists, items, iteration, leaf, vars, ch).apps, leaf, leaf + LeafCount(items), vars)
    decreases items, 1, 0
  {
    if items != [] {
      var next := leaf + LeafCountOf(items[0]);
      ItemUnder(lists, items[0], iteration, leaf, vars, ch);
      UnrollUnder(lists, items[1..], iteration, next, vars, ch);
      hide UnrollItem;
    }
  }

  lemma {:induction false} ItemUnder(lists: Lists, it: Item, iteration: nat, leaf: nat, vars: Vars, ch: Choices)
    requires UnshadowedItem(it, vars.Keys)
    ensures AllUnder(UnrollItem(lists, it, iteration, leaf, vars, ch).apps, leaf, leaf + LeafCountOf(it), vars)
    decreases it, 2, 0
  {
    match it
    case Par(children) => UnrollUnder(lists, children, iteration, leaf, vars, ch);
    case Repeat(form, v, body) => RepeatUnder(lists, ValuesOf(lists, form, vars), 0, v, body, leaf, vars, ch);
    case When(_, _, _, then_, else_) =>
      UnrollUnder(lists, then_, iteration, leaf, vars, ch);
      UnrollUnder(lists, else_, iteration, leaf + LeafCount(then_), vars, ch);
    case _ =>
  }

  /** What a repeat runs from the `i`-th value on is bound to values it reached. */
  lemma {:induction false} RepeatUnder(lists: Lists, values: seq<string>, i: nat, v: string, body: seq<Item>, leaf: nat, vars: Vars, ch: Choices)
    requires i <= |values| && v !in vars && Unshadowed(body, vars.Keys + {v})
    ensures var apps := UnrollRepeat(lists, values, i, v, body, leaf, vars, ch).apps;
      && AllUnder(apps, leaf, leaf + LeafCount(body), vars)
      && forall k :: 0 <= k < |apps| ==> v in apps[k].vars && apps[k].vars[v] in Reached(lists, values, i, v, body, leaf, vars, ch)
    decreases body, 2, |values| - i
  {
    if i == |values| { return; }
    var inner := vars[v := values[i]];
    assert inner.Keys == vars.Keys + {v};
    UnrollUnder(lists, body, i, leaf, inner, ch);
    RepeatUnder(lists, values, i + 1, v, body, leaf, vars, ch);
    var here := Unroll(lists, body, i, leaf, inner, ch);
    forall k | 0 <= k < |here.apps| ensures Under(here.apps[k], leaf, leaf + LeafCount(body), vars) && here.apps[k].vars[v] == values[i] {
      assert Under(here.apps[k], leaf, leaf + LeafCount(body), inner);
    }
    hide Unroll, Unshadowed, LeafCount;
  }

  // ---------------------------------------------------------------------------
  // The condition is exact

  predicate CrossDistinct(a: seq<AppliedStep>, b: seq<AppliedStep>) {
    forall i, j :: 0 <= i < |a| && 0 <= j < |b| ==> a[i].AsKey() != b[j].AsKey()
  }

  lemma DistinctSplits(a: seq<AppliedStep>, b: seq<AppliedStep>)
    ensures KeysDistinct(a + b) <==> KeysDistinct(a) && KeysDistinct(b) && CrossDistinct(a, b)
  {
    var all := a + b;
    assert forall i :: 0 <= i < |a| ==> all[i] == a[i];
    assert forall j :: 0 <= j < |b| ==> all[|a| + j] == b[j];
    if KeysDistinct(a) && KeysDistinct(b) && CrossDistinct(a, b) { KeysDistinctAppend(a, b); }
  }

  /** Of a plan in which no repeat rebinds an outer name, under any lists and any arms, a key
      identifies an application exactly when the plan is parted. */
  lemma {:induction false} IdentifiedIff(lists: Lists, items: seq<Item>, iteration: nat, leaf: nat, vars: Vars, ch: Choices)
    requires Unshadowed(items, vars.Keys)
    ensures KeysDistinct(Unroll(lists, items, iteration, leaf, vars, ch).apps) <==> Parted(lists, items, leaf, vars, ch)
    decreases items, 1, 0
  {
    hide KeysDistinct, UnrollItem, PartedItem, UnshadowedItem, LeafCountOf;
    if items == [] {
      NoneAreDistinct();
    } else {
      var next := leaf + LeafCountOf(items[0]);
      var here := UnrollItem(lists, items[0], iteration, leaf, vars, ch);
      var rest := Unroll(lists, items[1..], iteration, next, vars, ch);
      ItemIdentifiedIff(lists, items[0], iteration, leaf, vars, ch);
      ItemIterationDoesNotMatter(lists, items[0], iteration, 0, leaf, vars, ch);
      if here.whole {
        IdentifiedIff(lists, items[1..], iteration, next, vars, ch);
        ItemUnder(lists, items[0], iteration, leaf, vars, ch);
        UnrollUnder(lists, items[1..], iteration, next, vars, ch);
        StepsApart(here.apps, rest.apps, leaf, next, leaf + LeafCount(items), vars);
        DistinctSplits(here.apps, rest.apps);
      }
    }
  }

  lemma StepsApart(a: seq<AppliedStep>, b: seq<AppliedStep>, leaf: nat, next: nat, end: nat, vars: Vars)
    requires AllUnder(a, leaf, next, vars) && AllUnder(b, next, end, vars)
    ensures CrossDistinct(a, b)
  {
    forall i, j | 0 <= i < |a| && 0 <= j < |b| ensures a[i].AsKey() != b[j].AsKey() {
      assert Under(a[i], leaf, next, vars) && Under(b[j], next, end, vars);
    }
  }

  lemma {:induction false} ItemIdentifiedIff(lists: Lists, it: Item, iteration: nat, leaf: nat, vars: Vars, ch: Choices)
    requires UnshadowedItem(it, vars.Keys)
    ensures KeysDistinct(UnrollItem(lists, it, iteration, leaf, vars, ch).apps) <==> PartedItem(lists, it, leaf, vars, ch)
    decreases it, 2, 0
  {
    hide KeysDistinct, Unroll, Parted;
    match it
    case Par(children) => IdentifiedIff(lists, children, iteration, leaf, vars, ch);
    case Repeat(form, v, body) => RepeatIdentifiedIff(lists, ValuesOf(lists, form, vars), 0, v, body, leaf, vars, ch);
    case When(_, _, _, then_, else_) =>
      IdentifiedIff(lists, then_, iteration, leaf, vars, ch);
      IdentifiedIff(lists, else_, iteration, leaf + LeafCount(then_), vars, ch);
      NoneAreDistinct();
    case _ => OneIsDistinct(AppliedStep(leaf, iteration, vars));
  }

  lemma {:induction false} RepeatIdentifiedIff(lists: Lists, values: seq<string>, i: nat, v: string, body: seq<Item>, leaf: nat, vars: Vars, ch: Choices)
    requires i <= |values| && v !in vars && Unshadowed(body, vars.Keys + {v})
    ensures KeysDistinct(UnrollRepeat(lists, values, i, v, body, leaf, vars, ch).apps)
       <==> PartedRepeat(lists, values, i, v, body, leaf, vars, ch)
    decreases body, 2, |values| - i
  {
    hide KeysDistinct, Unroll, Parted, Reached, LeafCount;
    if i == |values| {
      NoneAreDistinct();
    } else {
      var inner := vars[v := values[i]];
      assert inner.Keys == vars.Keys + {v};
      var here := Unroll(lists, body, i, leaf, inner, ch);
      IdentifiedIff(lists, body, i, leaf, inner, ch);
      if here.whole {
        var rest := UnrollRepeat(lists, values, i + 1, v, body, leaf, vars, ch);
        RepeatIdentifiedIff(lists, values, i + 1, v, body, leaf, vars, ch);
        DistinctSplits(here.apps, rest.apps);
        CrossIff(lists, values, i, v, body, leaf, vars, ch);
      }
    }
  }

  /** An iteration's applications share no key with the later ones' exactly when it runs none, or its
      value is not reached again. */
  lemma {:induction false} CrossIff(lists: Lists, values: seq<string>, i: nat, v: string, body: seq<Item>, leaf: nat, vars: Vars, ch: Choices)
    requires i < |values| && v !in vars && Unshadowed(body, vars.Keys + {v})
    ensures var here := Unroll(lists, body, i, leaf, vars[v := values[i]], ch).apps;
      CrossDistinct(here, UnrollRepeat(lists, values, i + 1, v, body, leaf, vars, ch).apps)
      <==> here == [] || values[i] !in Reached(lists, values, i + 1, v, body, leaf, vars, ch)
  {
    hide Unroll, UnrollRepeat, Reached, LeafCount;
    var inner := vars[v := values[i]];
    assert inner.Keys == vars.Keys + {v};
    var here, rest := Unroll(lists, body, i, leaf, inner, ch).apps, UnrollRepeat(lists, values, i + 1, v, body, leaf, vars, ch).apps;
    UnrollUnder(lists, body, i, leaf, inner, ch);
    RepeatUnder(lists, values, i + 1, v, body, leaf, vars, ch);
    if here != [] && values[i] in Reached(lists, values, i + 1, v, body, leaf, vars, ch) {
      ReachedRuns(lists, values, i + 1, v, body, leaf, vars, ch, values[i], i, 0);
      var l :| 0 <= l < |rest| && rest[l].AsKey() == here[0].AsKey();
    }
    forall k, l | 0 <= k < |here| && 0 <= l < |rest| && here[k].AsKey() == rest[l].AsKey()
      ensures values[i] in Reached(lists, values, i + 1, v, body, leaf, vars, ch)
    {
      assert Under(here[k], leaf, leaf + LeafCount(body), inner);
      assert here[k].vars[v] == values[i] == rest[l].vars[v];
    }
  }

  predicate HasKeyOf(apps: seq<AppliedStep>, a: AppliedStep) { exists k :: 0 <= k < |apps| && apps[k].AsKey() == a.AsKey() }

  /** A value reached has its iteration's applications run. */
  lemma {:induction false} ReachedRuns(lists: Lists, values: seq<string>, i: nat, v: string, body: seq<Item>, leaf: nat, vars: Vars, ch: Choices, x: string, m: nat, k: nat)
    requires i <= |values| && x in Reached(lists, values, i, v, body, leaf, vars, ch)
    requires k < |Unroll(lists, body, m, leaf, vars[v := x], ch).apps|
    ensures HasKeyOf(UnrollRepeat(lists, values, i, v, body, leaf, vars, ch).apps, Unroll(lists, body, m, leaf, vars[v := x], ch).apps[k])
    decreases |values| - i
  {
    hide Unroll;
    var here, rest := Unroll(lists, body, i, leaf, vars[v := values[i]], ch), UnrollRepeat(lists, values, i + 1, v, body, leaf, vars, ch);
    var all := UnrollRepeat(lists, values, i, v, body, leaf, vars, ch);
    var a := Unroll(lists, body, m, leaf, vars[v := x], ch).apps[k];
    assert all == Then(here, rest);
    if x == values[i] {
      IterationDoesNotMatter(lists, body, m, i, leaf, vars[v := x], ch);
      assert all.apps[k] == here.apps[k] && here.apps[k].AsKey() == a.AsKey();
    } else {
      ReachedRuns(lists, values, i + 1, v, body, leaf, vars, ch, x, m, k);
      var l :| 0 <= l < |rest.apps| && rest.apps[l].AsKey() == a.AsKey();
      assert all.apps[|here.apps| + l] == rest.apps[l];
    }
  }

  /** Of a whole plan: a key identifies an application exactly when no repeat that is run binds one
      value in two iterations whose body runs a leaf. */
  lemma ApplicationsIdentifiedIff(lists: Lists, items: seq<Item>, ch: Choices)
    requires Unshadowed(items, {})
    ensures KeysDistinct(Unroll(lists, items, 0, 1, map[], ch).apps) <==> Parted(lists, items, 1, map[], ch)
  {
    var none: Vars := map[];
    assert none.Keys == {};
    IdentifiedIff(lists, items, 0, 1, none, ch);
  }
}
