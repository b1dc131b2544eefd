/** The `par`s of a plan and the steps they leave unordered: core/src/interference.rs,
    `collect_pars`, `par_siblings` and `par_violations`. */
module Siblings {
  import opened Wrappers
  import opened Model
  import opened Algebra
  import opened Interference

  /** A step with its number. */
  datatype Placed = Placed(n: nat, op: Op)

  type Child = seq<Placed>
  type Group = seq<Child>

  function Between(leaves: seq<Leaf>, lo: nat, hi: nat): seq<Placed> {
    if leaves == [] then []
    else
      var rest := Between(leaves[1..], lo, hi);
      if lo <= leaves[0].n < hi then [Placed(leaves[0].n, leaves[0].op)] + rest else rest
  }

  /** A `par`'s children, each as the steps its leaf numbers hold. */
  function GroupOf(leaves: seq<Leaf>, children: seq<Item>, start: nat): Group {
    if children == [] then []
    else
      var next := start + LeafCountOf(children[0]);
      [Between(leaves, start, next)] + GroupOf(leaves, children[1..], next)
  }

  function Weight(items: seq<Item>): nat
    decreases items, 0
  {
    if items == [] then 0 else WeightOf(items[0]) + Weight(items[1..])
  }

  function WeightOf(it: Item): (w: nat)
    ensures w > 0
    decreases it, 0
  {
    match it
    case Par(children) => 1 + Weight(children)
    case Repeat(_, _, body) => 1 + Weight(body)
    case When(_, _, _, then_, else_) => 1 + Weight(then_) + Weight(else_)
    case _ => 1
  }

  lemma {:induction false} WeightAt(items: seq<Item>, i: nat)
    requires i < |items|
    ensures WeightOf(items[i]) <= Weight(items)
    ensures Weight([items[i]]) == WeightOf(items[i])
    ensures Weight(items[i + 1..]) < Weight(items)
  {
    assert [items[i]][1..] == [];
    if i > 0 { WeightAt(items[1..], i - 1); assert items[1..][i..] == items[i + 1..]; }
  }

  /** At a `par`, its group, then the `par`s after it, then those inside each child. */
  function Pars(leaves: seq<Leaf>, items: seq<Item>, start: nat): seq<Group>
    decreases Weight(items), 0
  {
    if items == [] then []
    else
      WeightAt(items, 0);
      var rest := items[1..];
      var next := start + LeafCountOf(items[0]);
      match items[0]
      case Par(children) =>
        [GroupOf(leaves, children, start)] + Pars(leaves, rest, next) + ParsInside(leaves, children, start)
      case Repeat(_, _, body) => Pars(leaves, body, start) + Pars(leaves, rest, next)
      case When(_, _, _, then_, else_) =>
        Pars(leaves, then_, start) + Pars(leaves, else_, start + LeafCount(then_)) + Pars(leaves, rest, next)
      case _ => Pars(leaves, rest, next)
  }

  function ParsInside(leaves: seq<Leaf>, children: seq<Item>, start: nat): seq<Group>
    decreases Weight(children), 1
  {
    if children == [] then []
    else
      WeightAt(children, 0);
      Pars(leaves, [children[0]], start) + ParsInside(leaves, children[1..], start + LeafCountOf(children[0]))
  }

  /** `collect_pars`: the loop ends at the first `par`, which takes the rest of the items itself. */
  method CollectPars(leaves: seq<Leaf>, items: seq<Item>, start: nat) returns (out: seq<Group>)
    ensures out == Pars(leaves, items, start)
    decreases Weight(items), 2
  {
    hide Pars, ParsInside, LeafCount, LeafCountOf, Weight, WeightOf;
    out := [];
    var n: nat := start;
    var i := 0;
    NoPars(leaves, items, start);
    while i < |items|
      invariant 0 <= i <= |items|
      invariant out + Pars(leaves, items[i..], n) == Pars(leaves, items, start)
    {
      WeightAt(items, i);
      ghost var before := out;
      ghost var at: nat := n;
      ParsStep(leaves, items, i, n);
      if items[i].Par? {
        var found := CollectPar(leaves, items, i, n);
        return out + found;
      }
      var found := CollectParsOf(leaves, items[i], n);
      out := out + found;
      n := n + LeafCountOf(items[i]);
      assert before + Pars(leaves, items[i..], at) == out + Pars(leaves, items[i + 1..], n);
      i := i + 1;
    }
    NoPars(leaves, items[i..], n);
  }

  /** What one item that is no `par` contributes. */
  function ParsOfItem(leaves: seq<Leaf>, it: Item, start: nat): seq<Group>
    requires !it.Par?
    decreases WeightOf(it), 1
  {
    match it
    case Repeat(_, _, body) => Pars(leaves, body, start)
    case When(_, _, _, then_, else_) => Pars(leaves, then_, start) + Pars(leaves, else_, start + LeafCount(then_))
    case _ => []
  }

  lemma NoPars(leaves: seq<Leaf>, items: seq<Item>, start: nat)
    ensures items == [] ==> Pars(leaves, items, start) == []
    ensures items[0..] == items
  {
  }

  lemma ParsStep(leaves: seq<Leaf>, items: seq<Item>, i: nat, n: nat)
    requires i < |items|
    ensures !items[i].Par? ==>
      Pars(leaves, items[i..], n) == ParsOfItem(leaves, items[i], n) + Pars(leaves, items[i + 1..], n + LeafCountOf(items[i]))
    ensures items[i].Par? ==>
      Pars(leaves, items[i..], n)
      == [GroupOf(leaves, items[i].children, n)] + Pars(leaves, items[i + 1..], n + LeafCount(items[i].children))
         + ParsInside(leaves, items[i].children, n)
  {
    assert items[i..][0] == items[i] && items[i..][1..] == items[i + 1..];
  }

  method CollectPar(leaves: seq<Leaf>, items: seq<Item>, i: nat, n: nat) returns (out: seq<Group>)
    requires i < |items| && items[i].Par?
    ensures out == [GroupOf(leaves, items[i].children, n)] + Pars(leaves, items[i + 1..], n + LeafCount(items[i].children))
                   + ParsInside(leaves, items[i].children, n)
    decreases Weight(items), 1
  {
    WeightAt(items, i);
    var children := items[i].children;
    var group := CollectGroup(leaves, children, n);
    var after := CollectPars(leaves, items[i + 1..], n + LeafCount(children));
    var inside := CollectInside(leaves, children, n);
    out := [group] + after + inside;
  }

  method CollectParsOf(leaves: seq<Leaf>, it: Item, n: nat) returns (out: seq<Group>)
    requires !it.Par?
    ensures out == ParsOfItem(leaves, it, n)
    decreases WeightOf(it), 1
  {
    match it {
      case Repeat(_, _, body) => out := CollectPars(leaves, body, n);
      case When(_, _, _, then_, else_) =>
        out := CollectPars(leaves, then_, n);
        var found := CollectPars(leaves, else_, n + LeafCount(then_));
        out := out + found;
      case _ => out := [];
    }
  }

  method CollectGroup(leaves: seq<Leaf>, children: seq<Item>, start: nat) returns (group: Group)
    ensures group == GroupOf(leaves, children, start)
  {
    hide Between, LeafCountOf;
    group := [];
    var k: nat := start;
    for i := 0 to |children|
      invariant group + GroupOf(leaves, children[i..], k) == GroupOf(leaves, children, start)
    {
      ghost var before := group;
      ghost var at: nat := k;
      group := group + [Between(leaves, k, k + LeafCountOf(children[i]))];
      k := k + LeafCountOf(children[i]);
      assert children[i..][1..] == children[i + 1..];
      assert before + GroupOf(leaves, children[i..], at) == group + GroupOf(leaves, children[i + 1..], k);
    }
  }

  method CollectInside(leaves: seq<Leaf>, children: seq<Item>, start: nat) returns (out: seq<Group>)
    ensures out == ParsInside(leaves, children, start)
    decreases Weight(children), 3
  {
    out := [];
    var k: nat := start;
    for i := 0 to |children|
      invariant out + ParsInside(leaves, children[i..], k) == ParsInside(leaves, children, start)
    {
      ghost var before := out;
      ghost var at: nat := k;
      WeightAt(children, i);
      var found := CollectPars(leaves, [children[i]], k);
      out := out + found;
      k := k + LeafCountOf(children[i]);
      assert children[i..][1..] == children[i + 1..];
      assert before + ParsInside(leaves, children[i..], at) == out + ParsInside(leaves, children[i + 1..], k);
    }
  }

  // ---------------------------------------------------------------------------
  // Pairs across the children of one `par`

  type Pair = (Placed, Placed)

  function CrossOne(a: Placed, cb: Child): seq<Pair> {
    seq(|cb|, j requires 0 <= j < |cb| => (a, cb[j]))
  }

  function Cross(ca: Child, cb: Child): seq<Pair> {
    if ca == [] then [] else CrossOne(ca[0], cb) + Cross(ca[1..], cb)
  }

  function CrossRest(ca: Child, rest: Group): seq<Pair> {
    if rest == [] then [] else Cross(ca, rest[0]) + CrossRest(ca, rest[1..])
  }

  function PairsOf(group: Group): seq<Pair> {
    if group == [] then [] else CrossRest(group[0], group[1..]) + PairsOf(group[1..])
  }

  function AllPairs(groups: seq<Group>): seq<Pair> {
    if groups == [] then [] else PairsOf(groups[0]) + AllPairs(groups[1..])
  }

  /** What the two queries over pairs keep of each. */
  function Picked(pick: Pair -> Option<(nat, nat)>, pairs: seq<Pair>): seq<(nat, nat)> {
    if pairs == [] then []
    else (match pick(pairs[0]) case Some(p) => [p] case None => []) + Picked(pick, pairs[1..])
  }

  lemma {:induction false} PickedAppend(pick: Pair -> Option<(nat, nat)>, a: seq<Pair>, b: seq<Pair>)
    ensures Picked(pick, a + b) == Picked(pick, a) + Picked(pick, b)
  {
    if a == [] {
      assert a + b == b;
    } else {
      assert (a + b)[1..] == a[1..] + b;
      PickedAppend(pick, a[1..], b);
    }
  }

  lemma {:induction false} PickedMeans(pick: Pair -> Option<(nat, nat)>, pairs: seq<Pair>, p: (nat, nat))
    ensures p in Picked(pick, pairs) <==> exists q :: q in pairs && pick(q) == Some(p)
  {
    if pairs != [] {
      PickedMeans(pick, pairs[1..], p);
      assert pairs == [pairs[0]] + pairs[1..];
    }
  }

  /** The loops over every pair of steps in different children of a `par`. */
  method EachPair(groups: seq<Group>, pick: Pair -> Option<(nat, nat)>) returns (out: seq<(nat, nat)>)
    ensures out == Picked(pick, AllPairs(groups))
  {
    hide Picked, PairsOf;
    out := [];
    assert groups[0..] == groups;
    for g := 0 to |groups|
      invariant out + Picked(pick, AllPairs(groups[g..])) == Picked(pick, AllPairs(groups))
    {
      ghost var before := out;
      var grp := groups[g];
      out := EachPairOf(grp, pick, out);
      assert groups[g..][1..] == groups[g + 1..];
      PickedAppend(pick, PairsOf(grp), AllPairs(groups[g + 1..]));
      assert before + Picked(pick, AllPairs(groups[g..])) == out + Picked(pick, AllPairs(groups[g + 1..]));
    }
    PickedNone(pick);
  }

  lemma PickedNone(pick: Pair -> Option<(nat, nat)>)
    ensures Picked(pick, []) == []
  {
  }

  method EachPairOf(grp: Group, pick: Pair -> Option<(nat, nat)>, pushed: seq<(nat, nat)>) returns (out: seq<(nat, nat)>)
    ensures out == pushed + Picked(pick, PairsOf(grp))
  {
    hide Picked, CrossRest;
    out := pushed;
    assert grp[0..] == grp;
    for i := 0 to |grp|
      invariant out + Picked(pick, PairsOf(grp[i..])) == pushed + Picked(pick, PairsOf(grp))
    {
      ghost var before := out;
      out := EachRest(grp[i], grp[i + 1..], pick, out);
      assert grp[i..][1..] == grp[i + 1..];
      PickedAppend(pick, CrossRest(grp[i], grp[i + 1..]), PairsOf(grp[i + 1..]));
      assert before + Picked(pick, PairsOf(grp[i..])) == out + Picked(pick, PairsOf(grp[i + 1..]));
    }
    PickedNone(pick);
  }

  method EachRest(ca: Child, rest: Group, pick: Pair -> Option<(nat, nat)>, pushed: seq<(nat, nat)>) returns (out: seq<(nat, nat)>)
    ensures out == pushed + Picked(pick, CrossRest(ca, rest))
  {
    hide Picked, Cross;
    out := pushed;
    assert rest[0..] == rest;
    for i := 0 to |rest|
      invariant out + Picked(pick, CrossRest(ca, rest[i..])) == pushed + Picked(pick, CrossRest(ca, rest))
    {
      ghost var before := out;
      out := EachCross(ca, rest[i], pick, out);
      assert rest[i..][1..] == rest[i + 1..];
      PickedAppend(pick, Cross(ca, rest[i]), CrossRest(ca, rest[i + 1..]));
      assert before + Picked(pick, CrossRest(ca, rest[i..])) == out + Picked(pick, CrossRest(ca, rest[i + 1..]));
    }
    PickedNone(pick);
  }

  method EachCross(ca: Child, cb: Child, pick: Pair -> Option<(nat, nat)>, pushed: seq<(nat, nat)>) returns (out: seq<(nat, nat)>)
    ensures out == pushed + Picked(pick, Cross(ca, cb))
  {
    hide Picked, CrossOne;
    out := pushed;
    assert ca[0..] == ca;
    for i := 0 to |ca|
      invariant out + Picked(pick, Cross(ca[i..], cb)) == pushed + Picked(pick, Cross(ca, cb))
    {
      ghost var before := out;
      out := EachWith(ca[i], cb, pick, out);
      assert ca[i..][1..] == ca[i + 1..];
      PickedAppend(pick, CrossOne(ca[i], cb), Cross(ca[i + 1..], cb));
      assert before + Picked(pick, Cross(ca[i..], cb)) == out + Picked(pick, Cross(ca[i + 1..], cb));
    }
    PickedNone(pick);
  }

  method EachWith(a: Placed, cb: Child, pick: Pair -> Option<(nat, nat)>, pushed: seq<(nat, nat)>) returns (out: seq<(nat, nat)>)
    ensures out == pushed + Picked(pick, CrossOne(a, cb))
  {
    out := pushed;
    ghost var all := CrossOne(a, cb);
    for j := 0 to |cb|
      invariant out == pushed + Picked(pick, all[..j])
    {
      assert all[..j + 1] == all[..j] + [all[j]];
      PickedAppend(pick, all[..j], [all[j]]);
      assert [all[j]][1..] == [];
      match pick((a, cb[j])) {
        case Some(p) => out := out + [p];
        case None =>
      }
    }
    assert all[..|cb|] == all;
  }

  function Ordered(p: Pair): Option<(nat, nat)> {
    Some(if p.0.n <= p.1.n then (p.0.n, p.1.n) else (p.1.n, p.0.n))
  }

  /** Pairwise disjoint umbras, trivially so on distinct static hosts. */
  predicate DisjointUmbra(owner: string, x: Op, y: Op) {
    !OverlapHost(HostText(owner, x), HostText(owner, y))
    || forall f, g :: f in Writes(x) && g in Writes(y) ==> !Touches(f, g)
  }

  function Overlapping(owner: string): Pair -> Option<(nat, nat)> {
    (p: Pair) => if DisjointUmbra(owner, p.0.op, p.1.op) then None else Some((p.0.n, p.1.n))
  }

  function ParsOf(owner: string, items: seq<Item>): seq<Group> {
    Pars(StepFacts(owner, items), items, 1)
  }

  /** Pairs of steps, earlier first, in different children of one `par`. */
  function ParSiblings(owner: string, items: seq<Item>): seq<(nat, nat)> {
    Nub(Picked(Ordered, AllPairs(ParsOf(owner, items))))
  }

  /** E0303: pairs of steps in different children of one `par` whose umbras overlap. */
  function ParOverlaps(owner: string, items: seq<Item>): seq<(nat, nat)> {
    Nub(Picked(Overlapping(owner), AllPairs(ParsOf(owner, items))))
  }

  method FindParSiblings(owner: string, items: seq<Item>) returns (out: seq<(nat, nat)>)
    ensures out == ParSiblings(owner, items)
  {
    var leaves := CollectSteps(owner, [], items, 1, []);
    assert leaves == StepFacts(owner, items);
    var groups := CollectPars(leaves, items, 1);
    out := EachPair(groups, Ordered);
    out := Nub(out);
  }

  method FindParOverlaps(owner: string, items: seq<Item>) returns (out: seq<(nat, nat)>)
    ensures out == ParOverlaps(owner, items)
  {
    var leaves := CollectSteps(owner, [], items, 1, []);
    assert leaves == StepFacts(owner, items);
    var groups := CollectPars(leaves, items, 1);
    out := EachPair(groups, Overlapping(owner));
    out := Nub(out);
  }

  // ---------------------------------------------------------------------------
  // What it means to be in different children of a `par`

  /** Number `n` is a leaf of the `i`-th of some items that start at `start`. */
  predicate InChild(children: seq<Item>, start: nat, i: nat, n: nat)
    requires i < |children|
  {
    start + LeafCount(children[..i]) <= n < start + LeafCount(children[..i]) + LeafCountOf(children[i])
  }

  predicate DifferentChildren(children: seq<Item>, start: nat, a: nat, b: nat) {
    exists i, j :: 0 <= i < j < |children| && InChild(children, start, i, a) && InChild(children, start, j, b)
  }

  /** Some `par`, at any depth, has leaf `a` under one child and leaf `b` under a later one. */
  predicate ParDivides(items: seq<Item>, start: nat, a: nat, b: nat)
    decreases items, 0
  {
    items != [] &&
    (ParDividesItem(items[0], start, a, b) || ParDivides(items[1..], start + LeafCountOf(items[0]), a, b))
  }

  predicate ParDividesItem(it: Item, start: nat, a: nat, b: nat)
    decreases it, 0
  {
    match it
    case Par(children) => DifferentChildren(children, start, a, b) || ParDivides(children, start, a, b)
    case Repeat(_, _, body) => ParDivides(body, start, a, b)
    case When(_, _, _, then_, else_) => ParDivides(then_, start, a, b) || ParDivides(else_, start + LeafCount(then_), a, b)
    case _ => false
  }

  lemma {:induction false} BetweenMeans(leaves: seq<Leaf>, lo: nat, hi: nat, p: Placed)
    ensures p in Between(leaves, lo, hi)
       <==> lo <= p.n < hi && exists l :: l in leaves && l.n == p.n && l.op == p.op
  {
    if leaves != [] {
      BetweenMeans(leaves[1..], lo, hi, p);
      assert leaves == [leaves[0]] + leaves[1..];
    }
  }

  lemma {:induction false} GroupAt(leaves: seq<Leaf>, children: seq<Item>, start: nat, i: nat)
    requires i < |children|
    ensures |GroupOf(leaves, children, start)| == |children|
    ensures var lo := start + LeafCount(children[..i]);
            GroupOf(leaves, children, start)[i] == Between(leaves, lo, lo + LeafCountOf(children[i]))
  {
    hide Between, LeafCountOf;
    GroupLength(leaves, children, start);
    if i == 0 {
      assert children[..0] == [];
    } else {
      var next := start + LeafCountOf(children[0]);
      GroupAt(leaves, children[1..], next, i - 1);
      assert children[..i][1..] == children[1..][..i - 1] && children[..i][0] == children[0];
      assert GroupOf(leaves, children, start)[i] == GroupOf(leaves, children[1..], next)[i - 1];
    }
  }

  lemma {:induction false} GroupLength(leaves: seq<Leaf>, children: seq<Item>, start: nat)
    ensures |GroupOf(leaves, children, start)| == |children|
  {
    if children != [] { GroupLength(leaves, children[1..], start + LeafCountOf(children[0])); }
  }

  lemma {:induction false} CrossMeans(ca: Child, cb: Child, p: Pair)
    ensures p in Cross(ca, cb) <==> p.0 in ca && p.1 in cb
  {
    if ca != [] {
      CrossMeans(ca[1..], cb, p);
      assert ca == [ca[0]] + ca[1..];
      if p.0 == ca[0] && p.1 in cb {
        var j :| 0 <= j < |cb| && cb[j] == p.1;
        assert CrossOne(ca[0], cb)[j] == p;
      }
    }
  }

  lemma {:induction false} CrossRestMeans(ca: Child, rest: Group, p: Pair)
    ensures p in CrossRest(ca, rest) <==> p.0 in ca && exists j :: 0 <= j < |rest| && p.1 in rest[j]
  {
    if rest != [] {
      CrossMeans(ca, rest[0], p);
      CrossRestMeans(ca, rest[1..], p);
      if j :| 0 <= j < |rest[1..]| && p.1 in rest[1..][j] { assert p.1 in rest[j + 1]; }
      if j :| 0 <= j < |rest| && p.1 in rest[j] { assert j > 0 ==> p.1 in rest[1..][j - 1]; }
    }
  }

  lemma {:induction false} PairsMean(group: Group, p: Pair)
    ensures p in PairsOf(group) <==> exists i, j :: 0 <= i < j < |group| && p.0 in group[i] && p.1 in group[j]
  {
    if group != [] {
      var rest := group[1..];
      CrossRestMeans(group[0], rest, p);
      PairsMean(rest, p);
      if j :| 0 <= j < |rest| && p.1 in rest[j] { assert p.1 in group[j + 1]; }
      if i, j :| 0 <= i < j < |rest| && p.0 in rest[i] && p.1 in rest[j] {
        assert p.0 in group[i + 1] && p.1 in group[j + 1];
      }
      if i, j :| 0 <= i < j < |group| && p.0 in group[i] && p.1 in group[j] {
        assert p.1 in rest[j - 1];
        assert i > 0 ==> p.0 in rest[i - 1];
      }
    }
  }

  lemma {:induction false} AllPairsAppend(a: seq<Group>, b: seq<Group>)
    ensures AllPairs(a + b) == AllPairs(a) + AllPairs(b)
  {
    if a == [] {
      assert a + b == b;
    } else {
      assert (a + b)[1..] == a[1..] + b;
      AllPairsAppend(a[1..], b);
    }
  }

  /** A step is among the leaves of the query. */
  predicate Listed(leaves: seq<Leaf>, p: Placed) {
    exists l :: l in leaves && l.n == p.n && l.op == p.op
  }

  predicate PairIn(groups: seq<Group>, p: Pair) { p in AllPairs(groups) }

  lemma PairInAppend(p: Pair, a: seq<Group>, b: seq<Group>)
    ensures PairIn(a + b, p) <==> PairIn(a, p) || PairIn(b, p)
  {
    AllPairsAppend(a, b);
  }

  lemma GroupPairsMean(leaves: seq<Leaf>, children: seq<Item>, start: nat, p: Pair)
    ensures PairIn([GroupOf(leaves, children, start)], p)
       <==> Listed(leaves, p.0) && Listed(leaves, p.1) && DifferentChildren(children, start, p.0.n, p.1.n)
  {
    var group := GroupOf(leaves, children, start);
    var groups: seq<Group> := [group];
    assert groups[1..] == [];
    assert AllPairs(groups) == PairsOf(group) + AllPairs([]);
    assert PairIn(groups, p) <==> p in PairsOf(group);
    hide PairIn;
    hide PairsOf, GroupOf, LeafCount, LeafCountOf, Listed, InChild;
    PairsMean(group, p);
    GroupLength(leaves, children, start);
    forall i | 0 <= i < |children|
      ensures p.0 in group[i] <==> Listed(leaves, p.0) && InChild(children, start, i, p.0.n)
      ensures p.1 in group[i] <==> Listed(leaves, p.1) && InChild(children, start, i, p.1.n)
    {
      InGroup(leaves, children, start, i, p.0);
      InGroup(leaves, children, start, i, p.1);
    }
  }

  lemma InGroup(leaves: seq<Leaf>, children: seq<Item>, start: nat, i: nat, p: Placed)
    requires i < |children| && i < |GroupOf(leaves, children, start)|
    ensures p in GroupOf(leaves, children, start)[i] <==> Listed(leaves, p) && InChild(children, start, i, p.n)
  {
    hide GroupOf, LeafCount, LeafCountOf;
    var lo := start + LeafCount(children[..i]);
    GroupAt(leaves, children, start, i);
    BetweenMeans(leaves, lo, lo + LeafCountOf(children[i]), p);
  }

  lemma {:induction false} ParsMean(leaves: seq<Leaf>, items: seq<Item>, start: nat, p: Pair)
    ensures PairIn(Pars(leaves, items, start), p)
       <==> Listed(leaves, p.0) && Listed(leaves, p.1) && ParDivides(items, start, p.0.n, p.1.n)
    decreases Weight(items), 1
  {
    hide Listed, PairIn, LeafCountOf, Pars, ParDivides, Weight, WeightOf;
    if items == [] {
      NoItemsMean(leaves, start, p);
    } else {
      WeightAt(items, 0);
      ParsMean(leaves, items[1..], start + LeafCountOf(items[0]), p);
      if items[0].Par? { ParMeans(leaves, items, start, p); } else { OtherMeans(leaves, items, start, p); }
    }
  }

  lemma NoItemsMean(leaves: seq<Leaf>, start: nat, p: Pair)
    ensures !PairIn(Pars(leaves, [], start), p) && !ParDivides([], start, p.0.n, p.1.n)
  {
  }

  lemma {:induction false} OtherMeans(leaves: seq<Leaf>, items: seq<Item>, start: nat, p: Pair)
    requires items != [] && !items[0].Par?
    requires var next := start + LeafCountOf(items[0]);
      PairIn(Pars(leaves, items[1..], next), p)
      <==> Listed(leaves, p.0) && Listed(leaves, p.1) && ParDivides(items[1..], next, p.0.n, p.1.n)
    ensures PairIn(Pars(leaves, items, start), p)
       <==> Listed(leaves, p.0) && Listed(leaves, p.1) && ParDivides(items, start, p.0.n, p.1.n)
    decreases WeightOf(items[0]), 0, 1
  {
    hide Listed, PairIn, LeafCountOf, Pars, ParsOfItem, ParDividesItem;
    NoPars(leaves, items, start);
    ParsStep(leaves, items, 0, start);
    ParsOfItemMean(leaves, items[0], start, p);
    PairInAppend(p, ParsOfItem(leaves, items[0], start), Pars(leaves, items[1..], start + LeafCountOf(items[0])));
  }

  lemma {:induction false} ParMeans(leaves: seq<Leaf>, items: seq<Item>, start: nat, p: Pair)
    requires items != [] && items[0].Par?
    requires var next := start + LeafCountOf(items[0]);
      PairIn(Pars(leaves, items[1..], next), p)
      <==> Listed(leaves, p.0) && Listed(leaves, p.1) && ParDivides(items[1..], next, p.0.n, p.1.n)
    ensures PairIn(Pars(leaves, items, start), p)
       <==> Listed(leaves, p.0) && Listed(leaves, p.1) && ParDivides(items, start, p.0.n, p.1.n)
    decreases WeightOf(items[0]), 0
  {
    var children, rest := items[0].children, items[1..];
    var next := start + LeafCountOf(items[0]);
    NoPars(leaves, items, start);
    ParsStep(leaves, items, 0, start);
    hide Listed, DifferentChildren, GroupOf, PairIn, LeafCount, Pars, ParsInside, Between;
    GroupPairsMean(leaves, children, start, p);
    ParsInsideMean(leaves, children, start, p);
    PairInAppend(p, [GroupOf(leaves, children, start)], Pars(leaves, rest, next));
    PairInAppend(p, [GroupOf(leaves, children, start)] + Pars(leaves, rest, next), ParsInside(leaves, children, start));
  }

  lemma {:induction false} ParsOfItemMean(leaves: seq<Leaf>, it: Item, start: nat, p: Pair)
    requires !it.Par?
    ensures PairIn(ParsOfItem(leaves, it, start), p)
       <==> Listed(leaves, p.0) && Listed(leaves, p.1) && ParDividesItem(it, start, p.0.n, p.1.n)
    decreases WeightOf(it), 0, 0
  {
    hide Listed, LeafCount, Pars, ParDivides;
    match it
    case Repeat(_, _, body) => ParsMean(leaves, body, start, p);
    case When(_, _, _, then_, else_) =>
      ParsMean(leaves, then_, start, p);
      ParsMean(leaves, else_, start + LeafCount(then_), p);
      PairInAppend(p, Pars(leaves, then_, start), Pars(leaves, else_, start + LeafCount(then_)));
    case _ =>
  }

  lemma {:induction false} ParsInsideMean(leaves: seq<Leaf>, children: seq<Item>, start: nat, p: Pair)
    ensures PairIn(ParsInside(leaves, children, start), p)
       <==> Listed(leaves, p.0) && Listed(leaves, p.1) && ParDivides(children, start, p.0.n, p.1.n)
    decreases Weight(children), 2
  {
    hide Listed, Pars;
    if children != [] {
      WeightAt(children, 0);
      var next := start + LeafCountOf(children[0]);
      ParsMean(leaves, [children[0]], start, p);
      ParsInsideMean(leaves, children[1..], next, p);
      PairInAppend(p, Pars(leaves, [children[0]], start), ParsInside(leaves, children[1..], next));
      assert [children[0]][1..] == [];
    }
  }

  lemma {:induction false} LeafCountOfFirst(items: seq<Item>, i: nat, j: nat)
    requires i < j <= |items|
    ensures LeafCount(items[..i]) + LeafCountOf(items[i]) <= LeafCount(items[..j])
    ensures LeafCount(items[..j]) <= LeafCount(items)
  {
    var mid, last := items[i + 1..j], items[j..];
    assert items[..j] == items[..i] + ([items[i]] + mid) && items == items[..j] + last;
    assert ([items[i]] + mid)[1..] == mid;
    LeafCountAppend(items[..i], [items[i]] + mid);
    LeafCountAppend(items[..j], last);
  }

  /** A step a `par` divides from another is before it. */
  lemma {:induction false} DividedIsBefore(items: seq<Item>, start: nat, a: nat, b: nat)
    requires ParDivides(items, start, a, b)
    ensures a < b
    decreases items, 0
  {
    if ParDividesItem(items[0], start, a, b) {
      DividedItemIsBefore(items[0], start, a, b);
    } else {
      DividedIsBefore(items[1..], start + LeafCountOf(items[0]), a, b);
    }
  }

  lemma {:induction false} DividedItemIsBefore(it: Item, start: nat, a: nat, b: nat)
    requires ParDividesItem(it, start, a, b)
    ensures a < b
    decreases it, 0
  {
    match it
    case Par(children) =>
      if DifferentChildren(children, start, a, b) {
        var i, j :| 0 <= i < j < |children| && InChild(children, start, i, a) && InChild(children, start, j, b);
        LeafCountOfFirst(children, i, j);
      } else {
        DividedIsBefore(children, start, a, b);
      }
    case Repeat(_, _, body) => DividedIsBefore(body, start, a, b);
    case When(_, _, _, then_, else_) =>
      if ParDivides(then_, start, a, b) {
        DividedIsBefore(then_, start, a, b);
      } else {
        DividedIsBefore(else_, start + LeafCount(then_), a, b);
      }
    case _ =>
  }

  lemma ListedMeans(owner: string, items: seq<Item>, p: Placed)
    ensures Listed(StepFacts(owner, items), p) <==> OpAt(items, p.n) == Some(p.op)
  {
    var leaves := StepFacts(owner, items);
    QueryNumbersAsThePlan(owner, items, p.n);
    if HasNumber(leaves, p.n) {
      var i :| 0 <= i < |leaves| && leaves[i].n == p.n;
      assert leaves[i] in leaves;
    }
  }

  /** `collect_pars` misses nothing: two steps are siblings exactly when some `par` has them under
      different children, the earlier under the earlier one. */
  lemma CollectParsMissesNothing(owner: string, items: seq<Item>, a: nat, b: nat)
    ensures (a, b) in ParSiblings(owner, items)
       <==> OpAt(items, a).Some? && OpAt(items, b).Some? && ParDivides(items, 1, a, b)
    ensures (a, b) in ParSiblings(owner, items) ==> a < b
  {
    var leaves := StepFacts(owner, items);
    var pairs := AllPairs(ParsOf(owner, items));
    PickedMeans(Ordered, pairs, (a, b));
    hide StepFacts, OpAt, ParDivides, Pars;
    if (a, b) in ParSiblings(owner, items) {
      var q :| q in pairs && Ordered(q) == Some((a, b));
      ParsMean(leaves, items, 1, q);
      DividedIsBefore(items, 1, q.0.n, q.1.n);
      ListedMeans(owner, items, q.0);
      ListedMeans(owner, items, q.1);
    }
    if OpAt(items, a).Some? && OpAt(items, b).Some? && ParDivides(items, 1, a, b) {
      var q := (Placed(a, OpAt(items, a).value), Placed(b, OpAt(items, b).value));
      ListedMeans(owner, items, q.0);
      ListedMeans(owner, items, q.1);
      ParsMean(leaves, items, 1, q);
      DividedIsBefore(items, 1, a, b);
      assert Ordered(q) == Some((a, b));
    }
  }

  predicate UmbrasOverlap(owner: string, items: seq<Item>, a: nat, b: nat) {
    OpAt(items, a).Some? && OpAt(items, b).Some? && !DisjointUmbra(owner, OpAt(items, a).value, OpAt(items, b).value)
  }

  /** E0303 is exactly the siblings whose umbras overlap. */
  lemma OverlapsAreSiblings(owner: string, items: seq<Item>, a: nat, b: nat)
    ensures (a, b) in ParOverlaps(owner, items)
       <==> (a, b) in ParSiblings(owner, items) && UmbrasOverlap(owner, items, a, b)
  {
    var leaves := StepFacts(owner, items);
    var pairs := AllPairs(ParsOf(owner, items));
    var pick := Overlapping(owner);
    PickedMeans(pick, pairs, (a, b));
    CollectParsMissesNothing(owner, items, a, b);
    hide StepFacts, OpAt, ParDivides, Pars, DisjointUmbra, ParSiblings;
    if (a, b) in ParOverlaps(owner, items) {
      var q :| q in pairs && pick(q) == Some((a, b));
      ParsMean(leaves, items, 1, q);
      ListedMeans(owner, items, q.0);
      ListedMeans(owner, items, q.1);
    }
    if (a, b) in ParSiblings(owner, items) && UmbrasOverlap(owner, items, a, b) {
      var q := (Placed(a, OpAt(items, a).value), Placed(b, OpAt(items, b).value));
      ListedMeans(owner, items, q.0);
      ListedMeans(owner, items, q.1);
      ParsMean(leaves, items, 1, q);
      assert pick(q) == Some((a, b));
    }
  }
}
