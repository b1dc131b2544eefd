/** Whole unrollings: what makes their applications distinct, and where a permanent plan's
    unrolling ends. */
module Completion {
  import opened Wrappers
  import opened Model
  import opened Algebra
  import opened Intent
  import opened Footprint
  import opened Unrolling

  // ---------------------------------------------------------------------------
  // Distinct applications

  predicate NoDuplicates<T(==)>(xs: seq<T>) {
    forall i, j :: 0 <= i < j < |xs| ==> xs[i] != xs[j]
  }

  /** No repeat rebinds a name an enclosing repeat binds. */
  predicate Unshadowed(items: seq<Item>, names: set<string>)
    decreases items, 0
  {
    items == [] || (UnshadowedItem(items[0], names) && Unshadowed(items[1..], names))
  }

  predicate UnshadowedItem(it: Item, names: set<string>)
    decreases it, 0
  {
    match it
    case Par(children) => Unshadowed(children, names)
    case Repeat(_, v, body) => v !in names && Unshadowed(body, names + {v})
    case When(_, _, _, then_, else_) => Unshadowed(then_, names) && Unshadowed(else_, names)
    case _ => true
  }

  ghost predicate DistinctLists(lists: Lists) {
    forall list: string, vars: Vars :: NoDuplicates(lists(list, vars))
  }

  /** The application is of a leaf in the range and keeps what is bound outside. */
  predicate Under(a: AppliedStep, leaf: nat, end: nat, vars: Vars) {
    leaf <= a.step < end && vars.Keys <= a.vars.Keys && forall x :: x in vars ==> a.vars[x] == vars[x]
  }

  ghost predicate AllUnder(apps: seq<AppliedStep>, leaf: nat, end: nat, vars: Vars) {
    forall i :: 0 <= i < |apps| ==> Under(apps[i], leaf, end, vars)
  }

  ghost predicate KeysDistinct(apps: seq<AppliedStep>) {
    forall i, j :: 0 <= i < j < |apps| ==> apps[i].AsKey() != apps[j].AsKey()
  }

  lemma KeysDistinctAppend(a: seq<AppliedStep>, b: seq<AppliedStep>)
    requires KeysDistinct(a) && KeysDistinct(b)
    requires forall i, j :: 0 <= i < |a| && 0 <= j < |b| ==> a[i].AsKey() != b[j].AsKey()
    ensures KeysDistinct(a + b)
  {
    var all := a + b;
    forall i, j | 0 <= i < j < |all|
      ensures all[i].AsKey() != all[j].AsKey()
    {
      if i < |a| <= j {
        assert all[i] == a[i] && all[j] == b[j - |a|];
      } else if j < |a| {
        assert all[i] == a[i] && all[j] == a[j];
      } else {
        assert all[i] == b[i - |a|] && all[j] == b[j - |a|];
      }
    }
  }

  lemma {:induction false} DecimalInjective(m: nat, n: nat)
    requires Decimal(m) == Decimal(n)
    ensures m == n
  {
    DecimalEnds(m);
    DecimalEnds(n);
    assert Digit(m % 10) == Digit(n % 10);
    assert m % 10 == n % 10;
    if m >= 10 && n >= 10 {
      assert Decimal(m)[..|Decimal(m)| - 1] == Decimal(m / 10);
      assert Decimal(n)[..|Decimal(n)| - 1] == Decimal(n / 10);
      DecimalInjective(m / 10, n / 10);
    }
  }

  lemma {:induction false} DecimalEnds(n: nat)
    ensures |Decimal(n)| >= 1 && Decimal(n)[|Decimal(n)| - 1] == Digit(n % 10)
    ensures |Decimal(n)| == 1 <==> n < 10
  {
    if n >= 10 { DecimalEnds(n / 10); }
  }

  lemma CountsDistinct(n: nat)
    ensures NoDuplicates(CountValues(n))
  {
    forall i, j | 0 <= i < j < n
      ensures CountValues(n)[i] != CountValues(n)[j]
    {
      if Decimal(i) == Decimal(j) { DecimalInjective(i, j); }
    }
  }

  lemma {:induction false} UnrollDistinct(lists: Lists, items: seq<Item>, iteration: nat, leaf: nat, vars: Vars, ch: Choices)
    requires DistinctLists(lists) && Unshadowed(items, vars.Keys)
    ensures AllUnder(Unroll(lists, items, iteration, leaf, vars, ch).apps, leaf, leaf + LeafCount(items), vars)
    ensures KeysDistinct(Unroll(lists, items, iteration, leaf, vars, ch).apps)
    decreases items, 1, 0
  {
    if items != [] {
      var next := leaf + LeafCountOf(items[0]);
      var here := UnrollItem(lists, items[0], iteration, leaf, vars, ch);
      var rest := Unroll(lists, items[1..], iteration, next, vars, ch);
      UnrollItemDistinct(lists, items[0], iteration, leaf, vars, ch);
      UnrollDistinct(lists, items[1..], iteration, next, vars, ch);
      hide UnrollItem, KeysDistinct;
      KeysDistinctAppend(here.apps, rest.apps);
    }
  }

  lemma {:induction false} UnrollItemDistinct(lists: Lists, it: Item, iteration: nat, leaf: nat, vars: Vars, ch: Choices)
    requires DistinctLists(lists) && UnshadowedItem(it, vars.Keys)
    ensures AllUnder(UnrollItem(lists, it, iteration, leaf, vars, ch).apps, leaf, leaf + LeafCountOf(it), vars)
    ensures KeysDistinct(UnrollItem(lists, it, iteration, leaf, vars, ch).apps)
    decreases it, 2, 0
  {
    hide KeysDistinct, DistinctLists, NoDuplicates, CountValues;
    match it
    case Par(children) => UnrollDistinct(lists, children, iteration, leaf, vars, ch);
    case Repeat(form, v, body) =>
      ValuesAreDistinct(lists, form, vars);
      UnrollRepeatDistinct(lists, ValuesOf(lists, form, vars), 0, v, body, leaf, vars, ch);
    case When(_, _, _, then_, else_) =>
      UnrollDistinct(lists, then_, iteration, leaf, vars, ch);
      UnrollDistinct(lists, else_, iteration, leaf + LeafCount(then_), vars, ch);
      NoneAreDistinct();
    case _ =>
      OneIsDistinct(AppliedStep(leaf, iteration, vars));
  }

  lemma ValuesAreDistinct(lists: Lists, form: RepeatForm, vars: Vars)
    requires DistinctLists(lists)
    ensures NoDuplicates(ValuesOf(lists, form, vars))
  {
    if form.Count? { CountsDistinct(form.n); }
  }

  lemma NoneAreDistinct()
    ensures KeysDistinct([])
  {
  }

  lemma OneIsDistinct(a: AppliedStep)
    ensures KeysDistinct([a])
  {
  }

  lemma {:induction false} UnrollRepeatDistinct(lists: Lists, values: seq<string>, i: nat, v: string, body: seq<Item>, leaf: nat, vars: Vars, ch: Choices)
    requires i <= |values| && NoDuplicates(values) && DistinctLists(lists)
    requires v !in vars && Unshadowed(body, vars.Keys + {v})
    ensures AllUnder(UnrollRepeat(lists, values, i, v, body, leaf, vars, ch).apps, leaf, leaf + LeafCount(body), vars)
    ensures KeysDistinct(UnrollRepeat(lists, values, i, v, body, leaf, vars, ch).apps)
    ensures forall k :: 0 <= k < |UnrollRepeat(lists, values, i, v, body, leaf, vars, ch).apps| ==>
      var a := UnrollRepeat(lists, values, i, v, body, leaf, vars, ch).apps[k]; v in a.vars && a.vars[v] in values[i..]
    decreases body, 2, |values| - i
  {
    if i == |values| { return; }
    var inner := vars[v := values[i]];
    assert inner.Keys == vars.Keys + {v};
    UnrollDistinct(lists, body, i, leaf, inner, ch);
    UnrollRepeatDistinct(lists, values, i + 1, v, body, leaf, vars, ch);
    var here, rest := Unroll(lists, body, i, leaf, inner, ch), UnrollRepeat(lists, values, i + 1, v, body, leaf, vars, ch);
    var all := UnrollRepeat(lists, values, i, v, body, leaf, vars, ch);
    assert all == Then(here, rest);
    hide Unroll, UnrollRepeat, KeysDistinct, DistinctLists, Unshadowed, LeafCount;
    IterationsDistinct(here.apps, rest.apps, values, i, v, leaf, leaf + LeafCount(body), vars);
  }

  /** One iteration's applications before those of the later ones. */
  lemma IterationsDistinct(here: seq<AppliedStep>, rest: seq<AppliedStep>, values: seq<string>, i: nat, v: string, leaf: nat, end: nat, vars: Vars)
    requires i < |values| && NoDuplicates(values) && v !in vars
    requires AllUnder(here, leaf, end, vars[v := values[i]]) && KeysDistinct(here)
    requires AllUnder(rest, leaf, end, vars) && KeysDistinct(rest)
    requires forall k :: 0 <= k < |rest| ==> v in rest[k].vars && rest[k].vars[v] in values[i + 1..]
    ensures AllUnder(here, leaf, end, vars) && AllUnder(here + rest, leaf, end, vars)
    ensures KeysDistinct(here + rest)
    ensures forall k :: 0 <= k < |here| ==> v in here[k].vars && here[k].vars[v] in values[i..]
    ensures forall k :: 0 <= k < |here + rest| ==> v in (here + rest)[k].vars && (here + rest)[k].vars[v] in values[i..]
  {
    hide KeysDistinct;
    assert values[i..][0] == values[i] && values[i + 1..] == values[i..][1..];
    forall k | 0 <= k < |here|
      ensures Under(here[k], leaf, end, vars) && here[k].vars[v] == values[i]
    {
      assert Under(here[k], leaf, end, vars[v := values[i]]);
    }
    forall k, l | 0 <= k < |here| && 0 <= l < |rest|
      ensures here[k].AsKey() != rest[l].AsKey()
    {
      assert rest[l].vars[v] in values[i + 1..];
    }
    KeysDistinctAppend(here, rest);
  }

  /** Where every list has distinct values and no repeat rebinds an outer name, an application's
      step and variables identify it among all the applications of one unrolling. */
  lemma ApplicationsAreIdentified(lists: Lists, items: seq<Item>, ch: Choices)
    requires DistinctLists(lists) && Unshadowed(items, {})
    ensures KeysDistinct(Unroll(lists, items, 0, 1, map[], ch).apps)
  {
    var none: Vars := map[];
    assert none.Keys == {};
    UnrollDistinct(lists, items, 0, 1, map[], ch);
  }

  lemma {:induction false} RepeatOfOneStep(lists: Lists, values: seq<string>, i: nat, v: string, st: StepI)
    requires i <= |values|
    ensures var apps := UnrollRepeat(lists, values, i, v, [Item.Step(st)], 1, map[], map[]).apps;
            |apps| == |values| - i && forall k :: 0 <= k < |apps| ==> apps[k] == AppliedStep(1, i + k, map[v := values[i + k]])
    decreases |values| - i
  {
    if i < |values| {
      var none: Vars := map[];
      assert none[v := values[i]] == map[v := values[i]];
      assert [Item.Step(st)][1..] == [];
      assert Unroll(lists, [Item.Step(st)], i, 1, none[v := values[i]], map[]) == Unrolled([AppliedStep(1, i, map[v := values[i]])], true);
      RepeatOfOneStep(lists, values, i + 1, v, st);
    }
  }

  lemma UnrollOneRepeat(lists: Lists, list: string, max: nat, v: string, body: seq<Item>)
    ensures Unroll(lists, [Repeat(Over(list, max), v, body)], 0, 1, map[], map[]).apps
         == UnrollRepeat(lists, lists(list, map[]), 0, v, body, 1, map[], map[]).apps
  {
    var items := [Repeat(Over(list, max), v, body)];
    var all := UnrollRepeat(lists, lists(list, map[]), 0, v, body, 1, map[], map[]);
    assert UnrollItem(lists, items[0], 0, 1, map[], map[]) == all;
    assert items[1..] == [];
    assert Unroll(lists, items[1..], 0, 1 + LeafCountOf(items[0]), map[], map[]) == Unrolled([], true);
    assert all.apps + [] == all.apps;
  }

  /** A list with one value twice gives two applications one key, and so one set of snapshots
      and markers: a repeated step is identified exactly when its list has no value twice. */
  lemma RepeatedStepIsIdentifiedIff(lists: Lists, list: string, max: nat, v: string, st: StepI)
    ensures KeysDistinct(Unroll(lists, [Repeat(Over(list, max), v, [Item.Step(st)])], 0, 1, map[], map[]).apps)
       <==> NoDuplicates(lists(list, map[]))
  {
    var values := lists(list, map[]);
    hide Unroll, UnrollRepeat, KeysDistinct, NoDuplicates;
    UnrollOneRepeat(lists, list, max, v, [Item.Step(st)]);
    RepeatOfOneStep(lists, values, 0, v, st);
    KeysFollowValues(UnrollRepeat(lists, values, 0, v, [Item.Step(st)], 1, map[], map[]).apps, values, v);
  }

  lemma KeysFollowValues(apps: seq<AppliedStep>, values: seq<string>, v: string)
    requires |apps| == |values|
    requires forall k :: 0 <= k < |apps| ==> apps[k] == AppliedStep(1, k, map[v := values[k]])
    ensures KeysDistinct(apps) <==> NoDuplicates(values)
  {
    forall i, j | 0 <= i < j < |apps|
      ensures apps[i].AsKey() == apps[j].AsKey() <==> values[i] == values[j]
    {
      assert apps[i].vars[v] == values[i] && apps[j].vars[v] == values[j];
    }
  }

  // ---------------------------------------------------------------------------
  // Where a permanent plan ends

  /** The path the choices take; an undecided `when` counts as its first arm. */
  function Taken(items: seq<Item>, leaf: nat, ch: Choices): seq<Item>
    decreases items, 0
  {
    if items == [] then []
    else TakenOf(items[0], leaf, ch) + Taken(items[1..], leaf + LeafCountOf(items[0]), ch)
  }

  function TakenOf(it: Item, leaf: nat, ch: Choices): seq<Item>
    decreases it, 0
  {
    match it
    case Par(children) => Taken(children, leaf, ch)
    case Repeat(_, _, body) => Taken(body, leaf, ch)
    case When(_, _, _, then_, else_) =>
      if leaf in ch && !ch[leaf] then Taken(else_, leaf + LeafCount(then_), ch) else Taken(then_, leaf, ch)
    case _ => [it]
  }

  lemma {:induction false} TakenFollows(items: seq<Item>, leaf: nat, ch: Choices)
    ensures Follows(items, Taken(items, leaf, ch))
    decreases items, 1
  {
    if items != [] {
      var here := TakenOf(items[0], leaf, ch);
      var p := Taken(items, leaf, ch);
      TakenItemFollows(items[0], leaf, ch);
      TakenFollows(items[1..], leaf + LeafCountOf(items[0]), ch);
      assert p[..|here|] == here && p[|here|..] == Taken(items[1..], leaf + LeafCountOf(items[0]), ch);
    }
  }

  lemma {:induction false} TakenItemFollows(it: Item, leaf: nat, ch: Choices)
    ensures FollowsItem(it, TakenOf(it, leaf, ch))
    decreases it, 0
  {
    match it
    case Par(children) => TakenFollows(children, leaf, ch);
    case Repeat(_, _, body) => TakenFollows(body, leaf, ch);
    case When(_, _, _, then_, else_) =>
      TakenFollows(then_, leaf, ch);
      TakenFollows(else_, leaf + LeafCount(then_), ch);
    case _ =>
  }

  /** The leaves a sequence of applications ran, read off a list of leaves. */
  function Ran(ls: seq<Item>, apps: seq<AppliedStep>): seq<Item> {
    seq(|apps|, i requires 0 <= i < |apps| =>
      if 1 <= apps[i].step <= |ls| then ls[apps[i].step - 1] else Confirm)
  }

  /** How often a whole run runs a `commit()`: once for each iteration of the repeats around it. */
  function TimesRun(lists: Lists, items: seq<Item>, leaf: nat, vars: Vars, ch: Choices): nat
    decreases items, 1, 0
  {
    if items == [] then 0
    else TimesRunOf(lists, items[0], leaf, vars, ch) + TimesRun(lists, items[1..], leaf + LeafCountOf(items[0]), vars, ch)
  }

  function TimesRunOf(lists: Lists, it: Item, leaf: nat, vars: Vars, ch: Choices): nat
    decreases it, 2, 0
  {
    match it
    case Par(children) => TimesRun(lists, children, leaf, vars, ch)
    case Repeat(form, v, body) => TimesRunIn(lists, ValuesOf(lists, form, vars), 0, v, body, leaf, vars, ch)
    case When(_, _, _, then_, else_) =>
      if leaf in ch && !ch[leaf] then TimesRun(lists, else_, leaf + LeafCount(then_), vars, ch)
      else TimesRun(lists, then_, leaf, vars, ch)
    case Commit => 1
    case _ => 0
  }

  function TimesRunIn(lists: Lists, values: seq<string>, i: nat, v: string, body: seq<Item>, leaf: nat, vars: Vars, ch: Choices): nat
    requires i <= |values|
    decreases body, 2, |values| - i
  {
    if i == |values| then 0
    else TimesRun(lists, body, leaf, vars[v := values[i]], ch) + TimesRunIn(lists, values, i + 1, v, body, leaf, vars, ch)
  }

  /** Of a path that ends in a `commit()`: the last iteration that runs anything, of every repeat
      around it, runs it too. */
  predicate EndsRun(lists: Lists, items: seq<Item>, leaf: nat, vars: Vars, ch: Choices)
    decreases items, 1, 0
  {
    items != [] &&
    var next := leaf + LeafCountOf(items[0]);
    if HasCommit(Taken(items[1..], next, ch)) then EndsRun(lists, items[1..], next, vars, ch)
    else EndsRunOf(lists, items[0], leaf, vars, ch)
  }

  predicate EndsRunOf(lists: Lists, it: Item, leaf: nat, vars: Vars, ch: Choices)
    decreases it, 2, 0
  {
    match it
    case Par(children) => EndsRun(lists, children, leaf, vars, ch)
    case Repeat(form, v, body) => EndsRunIn(lists, ValuesOf(lists, form, vars), 0, v, body, leaf, vars, ch)
    case When(_, _, _, then_, else_) =>
      if leaf in ch && !ch[leaf] then EndsRun(lists, else_, leaf + LeafCount(then_), vars, ch)
      else EndsRun(lists, then_, leaf, vars, ch)
    case Commit => true
    case _ => false
  }

  predicate EndsRunIn(lists: Lists, values: seq<string>, i: nat, v: string, body: seq<Item>, leaf: nat, vars: Vars, ch: Choices)
    requires i <= |values|
    decreases body, 2, |values| - i
  {
    i < |values| &&
    if UnrollRepeat(lists, values, i + 1, v, body, leaf, vars, ch).apps != [] then EndsRunIn(lists, values, i + 1, v, body, leaf, vars, ch)
    else EndsRun(lists, body, leaf, vars[v := values[i]], ch)
  }

  function CommitsIn(p: seq<Item>): nat {
    if p == [] then 0 else CommitsIn(p[..|p| - 1]) + if p[|p| - 1].Commit? then 1 else 0
  }

  predicate LastIsCommit(p: seq<Item>) { p != [] && p[|p| - 1].Commit? }

  lemma {:induction false} CommitsAppend(p: seq<Item>, q: seq<Item>)
    ensures CommitsIn(p + q) == CommitsIn(p) + CommitsIn(q)
  {
    if q == [] {
      assert p + q == p;
    } else {
      CommitsAppend(p, q[..|q| - 1]);
      assert (p + q)[..|p + q| - 1] == p + q[..|q| - 1];
    }
  }

  lemma {:induction false} CommitsCounted(p: seq<Item>)
    ensures CommitsIn(p) == 0 <==> !HasCommit(p)
    ensures EndsInItsOnlyCommit(p) <==> CommitsIn(p) == 1 && LastIsCommit(p)
  {
    if p != [] {
      var before := p[..|p| - 1];
      CommitsCounted(before);
      assert HasCommit(p) <==> HasCommit(before) || p[|p| - 1].Commit? by {
        if HasCommit(before) { var i :| 0 <= i < |before| && before[i].Commit?; assert p[i].Commit?; }
      }
    }
  }

  /** What was run follows the path: it has so many commits, and ends in one or not. */
  ghost predicate Echoes(path: seq<Item>, ran: seq<Item>, times: nat, ends: bool) {
    && (path == [] ==> ran == [])
    && CommitsIn(ran) == times
    && (!HasCommit(path) ==> times == 0)
    && (EndsInItsOnlyCommit(path) ==> (ends <==> LastIsCommit(ran)))
  }

  lemma EchoesAppend(p: seq<Item>, r: seq<Item>, m: nat, e: bool, q: seq<Item>, t: seq<Item>, n: nat, f: bool)
    requires Echoes(p, r, m, e) && Echoes(q, t, n, f)
    ensures Echoes(p + q, r + t, m + n, if HasCommit(q) then f else e)
  {
    CommitsAppend(r, t);
    forall i | 0 <= i < |p| && p[i].Commit? ensures HasCommit(p + q) { assert (p + q)[i].Commit?; }
    forall i | 0 <= i < |q| && q[i].Commit? ensures HasCommit(p + q) { assert (p + q)[|p| + i].Commit?; }
    if EndsInItsOnlyCommit(p + q) {
      if q == [] {
        assert p + q == p && r + t == r;
      } else {
        forall i | 0 <= i < |p| ensures !p[i].Commit? { assert (p + q)[i] == p[i]; }
        forall i | 0 <= i < |q| ensures q[i] == (p + q)[|p| + i] {}
        assert EndsInItsOnlyCommit(q) && HasCommit(q);
        CommitsCounted(r);
        if t == [] { assert r + t == r; }
      }
    }
  }

  lemma {:induction false} UnrollEchoes(lists: Lists, ls: seq<Item>, items: seq<Item>, iteration: nat, leaf: nat, vars: Vars, ch: Choices)
    requires 1 <= leaf && Slice(ls, leaf - 1, Leaves(items))
    requires Unroll(lists, items, iteration, leaf, vars, ch).whole
    ensures Echoes(Taken(items, leaf, ch), Ran(ls, Unroll(lists, items, iteration, leaf, vars, ch).apps),
                   TimesRun(lists, items, leaf, vars, ch), EndsRun(lists, items, leaf, vars, ch))
    decreases items, 1, 0
  {
    if items == [] {
      assert Echoes([], [], 0, false);
    } else {
      hide Echoes, UnrollItem, Slice, LeavesOf, TakenOf, TimesRunOf, EndsRunOf, LeafCountOf, Ran;
      var next := leaf + LeafCountOf(items[0]);
      var here := UnrollItem(lists, items[0], iteration, leaf, vars, ch);
      var rest := Unroll(lists, items[1..], iteration, next, vars, ch);
      LeafCountOfIsLeavesOf(items[0]);
      SliceSplits(ls, leaf - 1, LeavesOf(items[0]), Leaves(items[1..]));
      UnrollItemEchoes(lists, ls, items[0], iteration, leaf, vars, ch);
      UnrollEchoes(lists, ls, items[1..], iteration, next, vars, ch);
      assert Taken(items, leaf, ch) == TakenOf(items[0], leaf, ch) + Taken(items[1..], next, ch);
      assert Unroll(lists, items, iteration, leaf, vars, ch).apps == here.apps + rest.apps;
      EchoesAppend(TakenOf(items[0], leaf, ch), Ran(ls, here.apps), TimesRunOf(lists, items[0], leaf, vars, ch), EndsRunOf(lists, items[0], leaf, vars, ch),
                   Taken(items[1..], next, ch), Ran(ls, rest.apps), TimesRun(lists, items[1..], next, vars, ch), EndsRun(lists, items[1..], next, vars, ch));
      RanAppend(ls, here.apps, rest.apps);
    }
  }

  lemma RanAppend(ls: seq<Item>, a: seq<AppliedStep>, b: seq<AppliedStep>)
    ensures Ran(ls, a + b) == Ran(ls, a) + Ran(ls, b)
  {
  }

  lemma {:induction false} UnrollItemEchoes(lists: Lists, ls: seq<Item>, it: Item, iteration: nat, leaf: nat, vars: Vars, ch: Choices)
    requires 1 <= leaf && Slice(ls, leaf - 1, LeavesOf(it))
    requires UnrollItem(lists, it, iteration, leaf, vars, ch).whole
    ensures Echoes(TakenOf(it, leaf, ch), Ran(ls, UnrollItem(lists, it, iteration, leaf, vars, ch).apps),
                   TimesRunOf(lists, it, leaf, vars, ch), EndsRunOf(lists, it, leaf, vars, ch))
    decreases it, 2, 0
  {
    hide Slice, Decimal, Echoes, Ran, Leaves, LeafCount, Taken, Unroll, UnrollRepeat, TimesRun, EndsRun, TimesRunIn, EndsRunIn;
    match it
    case Par(children) => UnrollEchoes(lists, ls, children, iteration, leaf, vars, ch);
    case Repeat(form, v, body) => RepeatEchoes(lists, ls, ValuesOf(lists, form, vars), 0, v, body, leaf, vars, ch);
    case When(_, _, _, then_, else_) =>
      LeafCountIsLeaves(then_);
      SliceSplits(ls, leaf - 1, Leaves(then_), Leaves(else_));
      if ch[leaf] {
        UnrollEchoes(lists, ls, then_, iteration, leaf, vars, ch);
      } else {
        UnrollEchoes(lists, ls, else_, iteration, leaf + LeafCount(then_), vars, ch);
      }
    case _ =>
      LeafEchoes(ls, it, AppliedStep(leaf, iteration, vars));
  }

  lemma LeafEchoes(ls: seq<Item>, it: Item, a: AppliedStep)
    requires 1 <= a.step && Slice(ls, a.step - 1, [it])
    ensures Echoes([it], Ran(ls, [a]), if it.Commit? then 1 else 0, it.Commit?)
  {
    SliceHead(ls, a.step - 1, it);
    assert Ran(ls, [a]) == [it];
    assert [it][..0] == [];
    CommitsCounted([it]);
  }

  lemma {:induction false} RepeatEchoes(lists: Lists, ls: seq<Item>, values: seq<string>, i: nat, v: string, body: seq<Item>, leaf: nat, vars: Vars, ch: Choices)
    requires i <= |values| && 1 <= leaf && Slice(ls, leaf - 1, Leaves(body))
    requires UnrollRepeat(lists, values, i, v, body, leaf, vars, ch).whole
    ensures Echoes(Taken(body, leaf, ch), Ran(ls, UnrollRepeat(lists, values, i, v, body, leaf, vars, ch).apps),
                   TimesRunIn(lists, values, i, v, body, leaf, vars, ch), EndsRunIn(lists, values, i, v, body, leaf, vars, ch))
    decreases body, 2, |values| - i
  {
    hide Unroll, Taken, Leaves, LeafCount, Slice, TimesRun, EndsRun, Echoes;
    if i == |values| {
      NothingEchoes(Taken(body, leaf, ch));
    } else {
      var here := Unroll(lists, body, i, leaf, vars[v := values[i]], ch);
      var rest := UnrollRepeat(lists, values, i + 1, v, body, leaf, vars, ch);
      UnrollEchoes(lists, ls, body, i, leaf, vars[v := values[i]], ch);
      RepeatEchoes(lists, ls, values, i + 1, v, body, leaf, vars, ch);
      RanAppend(ls, here.apps, rest.apps);
      IterationEchoes(Taken(body, leaf, ch), Ran(ls, here.apps), TimesRun(lists, body, leaf, vars[v := values[i]], ch), EndsRun(lists, body, leaf, vars[v := values[i]], ch),
                      Ran(ls, rest.apps), TimesRunIn(lists, values, i + 1, v, body, leaf, vars, ch), EndsRunIn(lists, values, i + 1, v, body, leaf, vars, ch));
    }
  }

  lemma NothingEchoes(path: seq<Item>)
    ensures Echoes(path, [], 0, false)
  {
  }

  /** One iteration before the later ones, over one path. */
  lemma IterationEchoes(path: seq<Item>, r: seq<Item>, m: nat, e: bool, t: seq<Item>, n: nat, f: bool)
    requires Echoes(path, r, m, e) && Echoes(path, t, n, f)
    ensures Echoes(path, r + t, m + n, if t != [] then f else e)
  {
    CommitsAppend(r, t);
    if t == [] { assert r + t == r; }
  }

  /** E0502 and E0505 are clean: every path ends in its only `commit()`. */
  predicate CommitClean(items: seq<Item>) { !CommitNotLast(items) && PathsWithoutCommit(items) == 0 }

  /** Run to its end under any arms, a clean plan ran its `commit()` once for each iteration of
      the repeats around it: so it ran it exactly when they iterate, and ended in its only one
      exactly when that is once and nothing ran after. */
  lemma WholeRunCommits(lists: Lists, items: seq<Item>, ch: Choices)
    requires CommitClean(items) && Unroll(lists, items, 0, 1, map[], ch).whole
    ensures var ran := Ran(Leaves(items), Unroll(lists, items, 0, 1, map[], ch).apps);
      && CommitsIn(ran) == TimesRun(lists, items, 1, map[], ch)
      && (HasCommit(ran) <==> TimesRun(lists, items, 1, map[], ch) >= 1)
      && (EndsInItsOnlyCommit(ran) <==> TimesRun(lists, items, 1, map[], ch) == 1 && EndsRun(lists, items, 1, map[], ch))
  {
    TakenEnds(items, ch);
    assert Leaves(items)[0..|Leaves(items)|] == Leaves(items);
    UnrollEchoes(lists, Leaves(items), items, 0, 1, map[], ch);
    CommitsCounted(Ran(Leaves(items), Unroll(lists, items, 0, 1, map[], ch).apps));
  }

  lemma TakenEnds(items: seq<Item>, ch: Choices)
    requires CommitClean(items)
    ensures EndsInItsOnlyCommit(Taken(items, 1, ch))
  {
    CleanCommitMeans(items);
    TakenFollows(items, 1, ch);
    PathsAreTheWalks(items, Taken(items, 1, ch));
  }

  // --- repeats that count

  /** The repeats around the `commit()` a path ends in are `repeat(n)`. */
  predicate CommitCounted(items: seq<Item>, leaf: nat, ch: Choices)
    decreases items, 1
  {
    items != [] &&
    var next := leaf + LeafCountOf(items[0]);
    if HasCommit(Taken(items[1..], next, ch)) then CommitCounted(items[1..], next, ch) else CommitCountedOf(items[0], leaf, ch)
  }

  predicate CommitCountedOf(it: Item, leaf: nat, ch: Choices)
    decreases it, 2
  {
    match it
    case Par(children) => CommitCounted(children, leaf, ch)
    case Repeat(form, _, body) => form.Count? && CommitCounted(body, leaf, ch)
    case When(_, _, _, then_, else_) =>
      if leaf in ch && !ch[leaf] then CommitCounted(else_, leaf + LeafCount(then_), ch) else CommitCounted(then_, leaf, ch)
    case Commit => true
    case _ => false
  }

  /** The product of their counts. */
  function Counts(items: seq<Item>, leaf: nat, ch: Choices): nat
    decreases items, 1
  {
    if items == [] then 0
    else
      var next := leaf + LeafCountOf(items[0]);
      if HasCommit(Taken(items[1..], next, ch)) then Counts(items[1..], next, ch) else CountsOf(items[0], leaf, ch)
  }

  function CountsOf(it: Item, leaf: nat, ch: Choices): nat
    decreases it, 2
  {
    match it
    case Par(children) => Counts(children, leaf, ch)
    case Repeat(form, _, body) => if form.Count? then form.n * Counts(body, leaf, ch) else 0
    case When(_, _, _, then_, else_) =>
      if leaf in ch && !ch[leaf] then Counts(else_, leaf + LeafCount(then_), ch) else Counts(then_, leaf, ch)
    case Commit => 1
    case _ => 0
  }

  /** What repeats that count come to. */
  ghost predicate Tallies(times: nat, ends: bool, counts: nat) { times == counts && (counts > 0 ==> ends) }

  lemma {:induction false} CountedTallies(lists: Lists, ls: seq<Item>, items: seq<Item>, iteration: nat, leaf: nat, vars: Vars, ch: Choices)
    requires 1 <= leaf && Slice(ls, leaf - 1, Leaves(items)) && Unroll(lists, items, iteration, leaf, vars, ch).whole
    requires EndsInItsOnlyCommit(Taken(items, leaf, ch)) && CommitCounted(items, leaf, ch)
    ensures Tallies(TimesRun(lists, items, leaf, vars, ch), EndsRun(lists, items, leaf, vars, ch), Counts(items, leaf, ch))
    decreases items, 1, 0
  {
    hide UnrollItem, Slice, LeavesOf, TakenOf, TimesRunOf, EndsRunOf, CountsOf, CommitCountedOf, LeafCountOf, Ran;
    var next := leaf + LeafCountOf(items[0]);
    LeafCountOfIsLeavesOf(items[0]);
    SliceSplits(ls, leaf - 1, LeavesOf(items[0]), Leaves(items[1..]));
    EndsInOne(TakenOf(items[0], leaf, ch), Taken(items[1..], next, ch));
    if HasCommit(Taken(items[1..], next, ch)) {
      UnrollItemEchoes(lists, ls, items[0], iteration, leaf, vars, ch);
      CountedTallies(lists, ls, items[1..], iteration, next, vars, ch);
    } else {
      UnrollEchoes(lists, ls, items[1..], iteration, next, vars, ch);
      CountedItemTallies(lists, ls, items[0], iteration, leaf, vars, ch);
    }
  }

  /** A path that ends in its only `commit()` has it in its later part, or its later part is empty. */
  lemma EndsInOne(p: seq<Item>, q: seq<Item>)
    requires EndsInItsOnlyCommit(p + q)
    ensures HasCommit(q) ==> EndsInItsOnlyCommit(q) && !HasCommit(p)
    ensures !HasCommit(q) ==> q == [] && EndsInItsOnlyCommit(p)
  {
    forall i | 0 <= i < |p| ensures (p + q)[i] == p[i] {}
    forall i | 0 <= i < |q| ensures q[i] == (p + q)[|p| + i] {}
    if q == [] { assert p + q == p; } else { assert q[|q| - 1].Commit?; }
  }

  lemma {:induction false} CountedItemTallies(lists: Lists, ls: seq<Item>, it: Item, iteration: nat, leaf: nat, vars: Vars, ch: Choices)
    requires 1 <= leaf && Slice(ls, leaf - 1, LeavesOf(it)) && UnrollItem(lists, it, iteration, leaf, vars, ch).whole
    requires EndsInItsOnlyCommit(TakenOf(it, leaf, ch)) && CommitCountedOf(it, leaf, ch)
    ensures Tallies(TimesRunOf(lists, it, leaf, vars, ch), EndsRunOf(lists, it, leaf, vars, ch), CountsOf(it, leaf, ch))
    decreases it, 2, 0
  {
    hide Slice, Decimal, Ran, Leaves, LeafCount, Taken, Unroll, UnrollRepeat, TimesRun, EndsRun, TimesRunIn, EndsRunIn, Counts, CommitCounted;
    match it
    case Par(children) => CountedTallies(lists, ls, children, iteration, leaf, vars, ch);
    case Repeat(form, v, body) => CountedRepeatTallies(lists, ls, CountValues(form.n), 0, v, body, leaf, vars, ch);
    case When(_, _, _, then_, else_) =>
      LeafCountIsLeaves(then_);
      SliceSplits(ls, leaf - 1, Leaves(then_), Leaves(else_));
      if ch[leaf] {
        CountedTallies(lists, ls, then_, iteration, leaf, vars, ch);
      } else {
        CountedTallies(lists, ls, else_, iteration, leaf + LeafCount(then_), vars, ch);
      }
    case _ =>
  }

  lemma {:induction false} CountedRepeatTallies(lists: Lists, ls: seq<Item>, values: seq<string>, i: nat, v: string, body: seq<Item>, leaf: nat, vars: Vars, ch: Choices)
    requires i <= |values| && 1 <= leaf && Slice(ls, leaf - 1, Leaves(body)) && UnrollRepeat(lists, values, i, v, body, leaf, vars, ch).whole
    requires EndsInItsOnlyCommit(Taken(body, leaf, ch)) && CommitCounted(body, leaf, ch)
    ensures Tallies(TimesRunIn(lists, values, i, v, body, leaf, vars, ch), EndsRunIn(lists, values, i, v, body, leaf, vars, ch),
                    (|values| - i) * Counts(body, leaf, ch))
    decreases body, 2, |values| - i
  {
    hide Unroll, Taken, Leaves, LeafCount, Slice, TimesRun, EndsRun, Counts, CommitCounted, Ran;
    if i < |values| {
      CountedTallies(lists, ls, body, i, leaf, vars[v := values[i]], ch);
      CountedRepeatTallies(lists, ls, values, i + 1, v, body, leaf, vars, ch);
      RepeatEchoes(lists, ls, values, i + 1, v, body, leaf, vars, ch);
      OneMore(|values| - i - 1, Counts(body, leaf, ch));
    }
  }

  lemma OneMore(n: nat, c: nat)
    ensures (n + 1) * c == n * c + c && (n * c > 0 <==> n > 0 && c > 0)
  {
  }

  /** Where the repeats around it are `repeat(n)`, a clean plan run whole has run its `commit()`
      exactly when every count is at least one, and has ended in its only one exactly when every
      count is one. */
  lemma CountedRunCommits(lists: Lists, items: seq<Item>, ch: Choices)
    requires CommitClean(items) && Unroll(lists, items, 0, 1, map[], ch).whole && CommitCounted(items, 1, ch)
    ensures var ran := Ran(Leaves(items), Unroll(lists, items, 0, 1, map[], ch).apps);
      && (HasCommit(ran) <==> Counts(items, 1, ch) >= 1)
      && (EndsInItsOnlyCommit(ran) <==> Counts(items, 1, ch) == 1)
  {
    TakenEnds(items, ch);
    WholeRunCommits(lists, items, ch);
    assert Leaves(items)[0..|Leaves(items)|] == Leaves(items);
    CountedTallies(lists, Leaves(items), items, 0, 1, map[], ch);
  }

  /** E0502 and E0505 do not see how often a repeat runs: with no iterations the plan ends
      without the `commit()` every path has. */
  lemma RepeatMaySkipItsCommit()
    ensures var items := [Repeat(Count(0), "i", [Commit])];
      && !CommitNotLast(items) && PathsWithoutCommit(items) == 0
      && Unroll((_, _) => [], items, 0, 1, map[], map[]) == Unrolled([], true)
  {
    var items := [Repeat(Count(0), "i", [Commit])];
    forall p ensures p in Paths(items) ==> p == [Commit] {
      PathsAreTheWalks(items, p);
      FollowsOne(items[0], p);
      PathsAreTheWalks([Commit], p);
      FollowsOne(Commit, p);
    }
    assert EndsInItsOnlyCommit([Commit]);
    forall i | 0 <= i < |Paths(items)| ensures EndsInItsOnlyCommit(Paths(items)[i]) {
      assert Paths(items)[i] in Paths(items);
    }
    CleanCommitMeans(items);
    assert items[1..] == [];
  }
}
