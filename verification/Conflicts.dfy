/** What later steps do to the facts an earlier step's undo needs: core/src/interference.rs,
    `conflict`, `mayconflict` and `anchor_duplicates`. */
module Conflicts {
  import opened Wrappers
  import opened Model
  import opened Algebra
  import opened Interference
  import opened Siblings

  // ---------------------------------------------------------------------------
  // Loops that push what each element gives

  function Flat<A, B>(f: A -> seq<B>, xs: seq<A>): seq<B> {
    if xs == [] then [] else Flat(f, xs[..|xs| - 1]) + f(xs[|xs| - 1])
  }

  lemma FlatNext<A, B>(f: A -> seq<B>, xs: seq<A>, i: nat)
    requires i < |xs|
    ensures Flat(f, xs[..i + 1]) == Flat(f, xs[..i]) + f(xs[i])
  {
    assert xs[..i + 1][..i] == xs[..i];
  }

  lemma FlatWhole<A, B>(f: A -> seq<B>, xs: seq<A>)
    ensures xs[..|xs|] == xs && Flat(f, xs[..0]) == []
  {
  }

  lemma {:induction false} FlatMeans<A, B>(f: A -> seq<B>, xs: seq<A>, b: B)
    ensures b in Flat(f, xs) <==> exists i :: 0 <= i < |xs| && b in f(xs[i])
  {
    if xs != [] {
      var rest := xs[..|xs| - 1];
      FlatMeans(f, rest, b);
      assert forall i :: 0 <= i < |rest| ==> rest[i] == xs[i];
    }
  }

  // ---------------------------------------------------------------------------
  // Ordered pairs

  /** Leaf order, undefined between children of one `par`. */
  predicate Before(x: Leaf, y: Leaf, siblings: seq<(nat, nat)>) {
    x.n < y.n && (x.n, y.n) !in siblings
  }

  function LaterOf(x: Leaf, siblings: seq<(nat, nat)>): Leaf -> seq<(Leaf, Leaf)> {
    (y: Leaf) => if Before(x, y, siblings) then [(x, y)] else []
  }

  function OrderedPairs(leaves: seq<Leaf>, siblings: seq<(nat, nat)>): seq<(Leaf, Leaf)> {
    if leaves == [] then []
    else Flat(LaterOf(leaves[0], siblings), leaves[1..]) + OrderedPairs(leaves[1..], siblings)
  }

  method FindOrderedPairs(leaves: seq<Leaf>, siblings: seq<(nat, nat)>) returns (out: seq<(Leaf, Leaf)>)
    ensures out == OrderedPairs(leaves, siblings)
  {
    hide Flat, OrderedPairs, LaterOf;
    out := [];
    assert leaves[0..] == leaves;
    for i := 0 to |leaves|
      invariant out + OrderedPairs(leaves[i..], siblings) == OrderedPairs(leaves, siblings)
    {
      ghost var before := out;
      out := PushLater(leaves[i], leaves[i + 1..], siblings, out);
      OrderedPairsStep(leaves, siblings, i);
      Associate(before, Flat(LaterOf(leaves[i], siblings), leaves[i + 1..]), OrderedPairs(leaves[i + 1..], siblings));
    }
    assert leaves[|leaves|..] == [];
    NoOrderedPairs(siblings);
  }

  lemma OrderedPairsStep(leaves: seq<Leaf>, siblings: seq<(nat, nat)>, i: nat)
    requires i < |leaves|
    ensures OrderedPairs(leaves[i..], siblings)
         == Flat(LaterOf(leaves[i], siblings), leaves[i + 1..]) + OrderedPairs(leaves[i + 1..], siblings)
  {
    assert leaves[i..][1..] == leaves[i + 1..];
  }

  lemma NoOrderedPairs(siblings: seq<(nat, nat)>)
    ensures OrderedPairs([], siblings) == []
  {
  }

  method PushLater(x: Leaf, ys: seq<Leaf>, siblings: seq<(nat, nat)>, pushed: seq<(Leaf, Leaf)>) returns (out: seq<(Leaf, Leaf)>)
    ensures out == pushed + Flat(LaterOf(x, siblings), ys)
  {
    hide Flat, Before;
    out := pushed;
    ghost var later := LaterOf(x, siblings);
    FlatWhole(later, ys);
    for j := 0 to |ys|
      invariant out == pushed + Flat(later, ys[..j])
    {
      FlatNext(later, ys, j);
      if Before(x, ys[j], siblings) { out := out + [(x, ys[j])]; }
    }
  }

  lemma {:induction false} OrderedPairsMean(leaves: seq<Leaf>, siblings: seq<(nat, nat)>, x: Leaf, y: Leaf)
    ensures (x, y) in OrderedPairs(leaves, siblings)
       <==> Before(x, y, siblings) && exists i, j :: 0 <= i < j < |leaves| && leaves[i] == x && leaves[j] == y
  {
    hide Before;
    if leaves != [] {
      var rest := leaves[1..];
      FlatMeans(LaterOf(leaves[0], siblings), rest, (x, y));
      OrderedPairsMean(rest, siblings, x, y);
      hide Flat;
      if i, j :| 0 <= i < j < |leaves| && leaves[i] == x && leaves[j] == y {
        assert rest[j - 1] == y;
        assert i > 0 ==> rest[i - 1] == x;
      }
      if i, j :| 0 <= i < j < |rest| && rest[i] == x && rest[j] == y {
        assert leaves[i + 1] == x && leaves[j + 1] == y;
      }
      if j :| 0 <= j < |rest| && rest[j] == y { assert leaves[j + 1] == y; }
    }
  }

  // ---------------------------------------------------------------------------
  // Definite conflicts

  predicate IndexedBy(vars: seq<string>, f: Fact) {
    exists i :: 0 <= i < |vars| && Contains(f.shape, "{" + vars[i] + "}")
  }

  predicate Contains(s: string, part: string) {
    exists i :: 0 <= i <= |s| && part <= s[i..]
  }

  predicate SameLoop(x: Leaf, y: Leaf) { x.vars != [] && x.vars == y.vars }

  /** A fact of two iterations of one loop, distinct in each by construction. */
  predicate PerIteration(x: Leaf, y: Leaf, f: Fact) { SameLoop(x, y) && IndexedBy(x.vars, f) }

  function Hit(x: Leaf, y: Leaf, f: Fact): Fact -> seq<Conflict> {
    (g: Fact) => if Touches(f, g) && !PerIteration(x, y, f) then [Conflict(x.n, y.n, f)] else []
  }

  function Hits(x: Leaf, y: Leaf): Fact -> seq<Conflict> {
    (f: Fact) => if f in Needs(x.op) then Flat(Hit(x, y, f), Writes(y.op)) else []
  }

  predicate OneStaticHost(x: Leaf, y: Leaf) { !RuntimeBound(x.host) && !RuntimeBound(y.host) && x.host == y.host }

  function PairConflicts(p: (Leaf, Leaf)): seq<Conflict> {
    if OneStaticHost(p.0, p.1) then Flat(Hits(p.0, p.1), Writes(p.0.op)) else []
  }

  function StepPairs(owner: string, items: seq<Item>): seq<(Leaf, Leaf)> {
    OrderedPairs(StepFacts(owner, items), ParSiblings(owner, items))
  }

  /** E0301: an earlier step's undo needs a fact a later step also definitely writes. */
  function ConflictsOf(owner: string, items: seq<Item>): seq<Conflict> {
    Nub(Flat(PairConflicts, StepPairs(owner, items)))
  }

  method FindConflicts(owner: string, items: seq<Item>) returns (out: seq<Conflict>)
    ensures out == ConflictsOf(owner, items)
  {
    var leaves := CollectSteps(owner, [], items, 1, []);
    assert leaves == StepFacts(owner, items);
    var siblings := FindParSiblings(owner, items);
    var pairs := FindOrderedPairs(leaves, siblings);
    out := [];
    for i := 0 to |pairs|
      invariant out == Flat(PairConflicts, pairs[..i])
    {
      FlatNext(PairConflicts, pairs, i);
      if OneStaticHost(pairs[i].0, pairs[i].1) { out := PushHits(pairs[i].0, pairs[i].1, out); }
    }
    FlatWhole(PairConflicts, pairs);
    out := Nub(out);
  }

  method PushHits(x: Leaf, y: Leaf, pushed: seq<Conflict>) returns (out: seq<Conflict>)
    ensures out == pushed + Flat(Hits(x, y), Writes(x.op))
  {
    hide Flat, Needs, Writes;
    out := pushed;
    var needs, fs := Needs(x.op), Writes(x.op);
    FlatWhole(Hits(x, y), fs);
    for i := 0 to |fs|
      invariant out == pushed + Flat(Hits(x, y), fs[..i])
    {
      FlatNext(Hits(x, y), fs, i);
      if fs[i] in needs { out := PushHit(x, y, fs[i], out); }
    }
  }

  method PushHit(x: Leaf, y: Leaf, f: Fact, pushed: seq<Conflict>) returns (out: seq<Conflict>)
    ensures out == pushed + Flat(Hit(x, y, f), Writes(y.op))
  {
    hide Flat, Touches, PerIteration, Writes;
    out := pushed;
    var gs := Writes(y.op);
    ghost var hit := Hit(x, y, f);
    FlatWhole(hit, gs);
    for j := 0 to |gs|
      invariant out == pushed + Flat(hit, gs[..j])
    {
      FlatNext(hit, gs, j);
      if Touches(f, gs[j]) && !PerIteration(x, y, f) { out := out + [Conflict(x.n, y.n, f)]; }
    }
  }

  /** A conflict between two steps, said without the loops. */
  predicate IsConflict(x: Leaf, y: Leaf, c: Conflict) {
    && OneStaticHost(x, y) && c.earlier == x.n && c.later == y.n
    && c.fact in Writes(x.op) && c.fact in Needs(x.op) && !PerIteration(x, y, c.fact)
    && exists g :: g in Writes(y.op) && Touches(c.fact, g)
  }

  lemma PairConflictsMean(x: Leaf, y: Leaf, c: Conflict)
    ensures c in PairConflicts((x, y)) <==> IsConflict(x, y, c)
  {
    hide Touches, PerIteration, Needs, Writes;
    FlatMeans(Hits(x, y), Writes(x.op), c);
    forall f ensures c in Flat(Hit(x, y, f), Writes(y.op))
      <==> c == Conflict(x.n, y.n, f) && !PerIteration(x, y, f) && exists g :: g in Writes(y.op) && Touches(f, g)
    {
      FlatMeans(Hit(x, y, f), Writes(y.op), c);
    }
  }

  /** The query reports exactly the conflicts between ordered steps. */
  lemma {:induction false} ConflictsMean(owner: string, items: seq<Item>, c: Conflict)
    ensures c in ConflictsOf(owner, items)
       <==> exists x, y :: (x, y) in StepPairs(owner, items) && IsConflict(x, y, c)
  {
    hide StepPairs, IsConflict, PairConflicts;
    var pairs := StepPairs(owner, items);
    FlatMeans(PairConflicts, pairs, c);
    forall x, y ensures c in PairConflicts((x, y)) <==> IsConflict(x, y, c) { PairConflictsMean(x, y, c); }
    if x, y :| (x, y) in pairs && IsConflict(x, y, c) {
      var i :| 0 <= i < |pairs| && pairs[i] == (x, y);
      assert c in PairConflicts(pairs[i]);
    }
    if i :| 0 <= i < |pairs| && c in PairConflicts(pairs[i]) {
      assert (pairs[i].0, pairs[i].1) in pairs && IsConflict(pairs[i].0, pairs[i].1, c);
    }
  }

  // ---------------------------------------------------------------------------
  // Possible conflicts

  /** Everything an op may write, its penumbra first. */
  function AllWrites(o: Op): seq<Fact> { MayWrite(o) + Writes(o) }

  /** One side at least is bound only at runtime, by shape or by host. */
  predicate Penumbral(x: Leaf, y: Leaf, g: Fact, h: Fact) {
    h in MayWrite(y.op) || g in MayWrite(x.op) || RuntimeBound(x.host) || RuntimeBound(y.host)
  }

  function MayHitH(x: Leaf, y: Leaf, f: Fact, g: Fact): Fact -> seq<Conflict> {
    (h: Fact) => if Touches(f, h) && Penumbral(x, y, g, h) && !PerIteration(x, y, f) then [Conflict(x.n, y.n, f)] else []
  }

  function MayHitG(x: Leaf, y: Leaf, f: Fact): Fact -> seq<Conflict> {
    (g: Fact) => if Touches(f, g) then Flat(MayHitH(x, y, f, g), AllWrites(y.op)) else []
  }

  function MayHits(x: Leaf, y: Leaf): Fact -> seq<Conflict> {
    (f: Fact) => Flat(MayHitG(x, y, f), AllWrites(x.op))
  }

  function PairMayConflicts(p: (Leaf, Leaf)): seq<Conflict> {
    if OverlapHost(p.0.host, p.1.host) then Flat(MayHits(p.0, p.1), Needs(p.0.op)) else []
  }

  /** E0302: the same query where a side is penumbral. */
  function MayConflictsOf(owner: string, items: seq<Item>): seq<Conflict> {
    Nub(Flat(PairMayConflicts, StepPairs(owner, items)))
  }

  method FindMayConflicts(owner: string, items: seq<Item>) returns (out: seq<Conflict>)
    ensures out == MayConflictsOf(owner, items)
  {
    var leaves := CollectSteps(owner, [], items, 1, []);
    assert leaves == StepFacts(owner, items);
    var siblings := FindParSiblings(owner, items);
    var pairs := FindOrderedPairs(leaves, siblings);
    out := [];
    for i := 0 to |pairs|
      invariant out == Flat(PairMayConflicts, pairs[..i])
    {
      FlatNext(PairMayConflicts, pairs, i);
      if OverlapHost(pairs[i].0.host, pairs[i].1.host) { out := PushMayHits(pairs[i].0, pairs[i].1, out); }
    }
    FlatWhole(PairMayConflicts, pairs);
    out := Nub(out);
  }

  method PushMayHits(x: Leaf, y: Leaf, pushed: seq<Conflict>) returns (out: seq<Conflict>)
    ensures out == pushed + Flat(MayHits(x, y), Needs(x.op))
  {
    hide Flat, Needs, AllWrites;
    out := pushed;
    var fs := Needs(x.op);
    FlatWhole(MayHits(x, y), fs);
    for i := 0 to |fs|
      invariant out == pushed + Flat(MayHits(x, y), fs[..i])
    {
      FlatNext(MayHits(x, y), fs, i);
      out := PushMayHit(x, y, fs[i], out);
    }
  }

  method PushMayHit(x: Leaf, y: Leaf, f: Fact, pushed: seq<Conflict>) returns (out: seq<Conflict>)
    ensures out == pushed + Flat(MayHitG(x, y, f), AllWrites(x.op))
  {
    hide Flat, Touches, AllWrites;
    out := pushed;
    var gs := AllWrites(x.op);
    ghost var hit := MayHitG(x, y, f);
    FlatWhole(hit, gs);
    for j := 0 to |gs|
      invariant out == pushed + Flat(hit, gs[..j])
    {
      FlatNext(hit, gs, j);
      if Touches(f, gs[j]) { out := PushMayHitBy(x, y, f, gs[j], out); }
    }
  }

  method PushMayHitBy(x: Leaf, y: Leaf, f: Fact, g: Fact, pushed: seq<Conflict>) returns (out: seq<Conflict>)
    ensures out == pushed + Flat(MayHitH(x, y, f, g), AllWrites(y.op))
  {
    hide Flat, Touches, Penumbral, PerIteration, AllWrites;
    out := pushed;
    var hs := AllWrites(y.op);
    ghost var hit := MayHitH(x, y, f, g);
    FlatWhole(hit, hs);
    for k := 0 to |hs|
      invariant out == pushed + Flat(hit, hs[..k])
    {
      FlatNext(hit, hs, k);
      if Touches(f, hs[k]) && Penumbral(x, y, g, hs[k]) && !PerIteration(x, y, f) { out := out + [Conflict(x.n, y.n, f)]; }
    }
  }

  predicate IsMayConflict(x: Leaf, y: Leaf, c: Conflict) {
    && OverlapHost(x.host, y.host) && c.earlier == x.n && c.later == y.n
    && c.fact in Needs(x.op) && !PerIteration(x, y, c.fact)
    && exists g, h :: g in AllWrites(x.op) && h in AllWrites(y.op) && Touches(c.fact, g) && Touches(c.fact, h) && Penumbral(x, y, g, h)
  }

  lemma PairMayConflictsMean(x: Leaf, y: Leaf, c: Conflict)
    ensures c in PairMayConflicts((x, y)) <==> IsMayConflict(x, y, c)
  {
    hide Touches, PerIteration, Penumbral, Needs, AllWrites;
    FlatMeans(MayHits(x, y), Needs(x.op), c);
    forall f ensures c in MayHits(x, y)(f)
      <==> c == Conflict(x.n, y.n, f) && !PerIteration(x, y, f)
           && exists g, h :: g in AllWrites(x.op) && h in AllWrites(y.op) && Touches(f, g) && Touches(f, h) && Penumbral(x, y, g, h)
    {
      FlatMeans(MayHitG(x, y, f), AllWrites(x.op), c);
      forall g ensures c in Flat(MayHitH(x, y, f, g), AllWrites(y.op))
        <==> c == Conflict(x.n, y.n, f) && !PerIteration(x, y, f)
             && exists h :: h in AllWrites(y.op) && Touches(f, h) && Penumbral(x, y, g, h)
      {
        FlatMeans(MayHitH(x, y, f, g), AllWrites(y.op), c);
      }
    }
  }

  lemma {:induction false} MayConflictsMean(owner: string, items: seq<Item>, c: Conflict)
    ensures c in MayConflictsOf(owner, items)
       <==> exists x, y :: (x, y) in StepPairs(owner, items) && IsMayConflict(x, y, c)
  {
    hide StepPairs, IsMayConflict, PairMayConflicts;
    var pairs := StepPairs(owner, items);
    FlatMeans(PairMayConflicts, pairs, c);
    forall x, y ensures c in PairMayConflicts((x, y)) <==> IsMayConflict(x, y, c) { PairMayConflictsMean(x, y, c); }
    if x, y :| (x, y) in pairs && IsMayConflict(x, y, c) {
      var i :| 0 <= i < |pairs| && pairs[i] == (x, y);
      assert c in PairMayConflicts(pairs[i]);
    }
    if i :| 0 <= i < |pairs| && c in PairMayConflicts(pairs[i]) {
      assert (pairs[i].0, pairs[i].1) in pairs && IsMayConflict(pairs[i].0, pairs[i].1, c);
    }
  }

  lemma WritesAreStatic(o: Op, f: Fact)
    ensures f in Writes(o) ==> !RuntimeBound(f.shape)
    ensures f in MayWrite(o) ==> RuntimeBound(f.shape)
  {
    WrittenMeans(o.footprint, false, f);
    WrittenMeans(o.footprint, true, f);
  }

  /** Between them the two queries miss nothing: where a later step writes, or may write, what
      touches a fact the earlier step's `:restore` puts back, on hosts that may be one, and the
      fact is not its own iteration's, one of them reports it. */
  lemma NothingIsMissed(owner: string, items: seq<Item>, x: Leaf, y: Leaf, f: Fact, h: Fact)
    requires (x, y) in StepPairs(owner, items) && x.op.undo.Restore? && OverlapHost(x.host, y.host)
    requires f in AllWrites(x.op) && h in AllWrites(y.op) && Touches(f, h) && !PerIteration(x, y, f)
    ensures var c := Conflict(x.n, y.n, f); c in ConflictsOf(owner, items) || c in MayConflictsOf(owner, items)
  {
    var c := Conflict(x.n, y.n, f);
    ConflictsMean(owner, items, c);
    MayConflictsMean(owner, items, c);
    WritesAreStatic(x.op, f);
    OverlapMeans(f.shape, f.shape);
    assert Touches(f, f);
    assert f in Needs(x.op);
    hide Touches, PerIteration, StepPairs, Needs, ConflictsOf, MayConflictsOf;
    if OneStaticHost(x, y) && f in Writes(x.op) && h in Writes(y.op) {
      assert IsConflict(x, y, c);
    } else {
      assert Penumbral(x, y, f, h);
      assert IsMayConflict(x, y, c);
    }
  }

  /** A plan whose shapes and hosts are all static has no possible conflict that is not definite. */
  lemma StaticPlansHaveNoMaybe(owner: string, items: seq<Item>, c: Conflict)
    requires forall x :: x in StepFacts(owner, items) ==> MayWrite(x.op) == [] && !RuntimeBound(x.host)
    ensures c !in MayConflictsOf(owner, items)
  {
    MayConflictsMean(owner, items, c);
    forall x, y | (x, y) in StepPairs(owner, items)
      ensures !IsMayConflict(x, y, c)
    {
      OrderedPairsMean(StepFacts(owner, items), ParSiblings(owner, items), x, y);
      hide StepFacts, Touches, PerIteration, Needs, AllWrites;
    }
  }

  // ---------------------------------------------------------------------------
  // Anchors

  function RegionFacts(es: seq<FootprintEntry>): seq<Fact> {
    if es == [] then []
    else if es[0].kind.Region? then [FactOf(es[0])] + RegionFacts(es[1..])
    else RegionFacts(es[1..])
  }

  function SameAnchor(x: Leaf, y: Leaf, f: Fact): Fact -> seq<Conflict> {
    (g: Fact) => if f == g then [Conflict(x.n, y.n, f)] else []
  }

  function SameAnchors(x: Leaf, y: Leaf): Fact -> seq<Conflict> {
    (f: Fact) => if f.anchor.None? then [] else Flat(SameAnchor(x, y, f), RegionFacts(y.op.footprint))
  }

  function PairAnchors(p: (Leaf, Leaf)): seq<Conflict> {
    if OverlapHost(p.0.host, p.1.host) then Flat(SameAnchors(p.0, p.1), RegionFacts(p.0.op.footprint)) else []
  }

  /** Every pair of steps, ordered or not. */
  function EveryPair(owner: string, items: seq<Item>): seq<(Leaf, Leaf)> {
    OrderedPairs(StepFacts(owner, items), [])
  }

  /** E0305: one anchor declared by two steps on one fact. */
  function AnchorDuplicates(owner: string, items: seq<Item>): seq<Conflict> {
    Nub(Flat(PairAnchors, EveryPair(owner, items)))
  }

  method FindAnchorDuplicates(owner: string, items: seq<Item>) returns (out: seq<Conflict>)
    ensures out == AnchorDuplicates(owner, items)
  {
    var leaves := CollectSteps(owner, [], items, 1, []);
    assert leaves == StepFacts(owner, items);
    var pairs := FindOrderedPairs(leaves, []);
    out := [];
    for i := 0 to |pairs|
      invariant out == Flat(PairAnchors, pairs[..i])
    {
      FlatNext(PairAnchors, pairs, i);
      if OverlapHost(pairs[i].0.host, pairs[i].1.host) { out := PushAnchors(pairs[i].0, pairs[i].1, out); }
    }
    FlatWhole(PairAnchors, pairs);
    out := Nub(out);
  }

  method PushAnchors(x: Leaf, y: Leaf, pushed: seq<Conflict>) returns (out: seq<Conflict>)
    ensures out == pushed + Flat(SameAnchors(x, y), RegionFacts(x.op.footprint))
  {
    hide Flat, RegionFacts;
    out := pushed;
    var fs := RegionFacts(x.op.footprint);
    FlatWhole(SameAnchors(x, y), fs);
    for i := 0 to |fs|
      invariant out == pushed + Flat(SameAnchors(x, y), fs[..i])
    {
      FlatNext(SameAnchors(x, y), fs, i);
      if fs[i].anchor.Some? { out := PushAnchor(x, y, fs[i], out); }
    }
  }

  method PushAnchor(x: Leaf, y: Leaf, f: Fact, pushed: seq<Conflict>) returns (out: seq<Conflict>)
    ensures out == pushed + Flat(SameAnchor(x, y, f), RegionFacts(y.op.footprint))
  {
    hide Flat, RegionFacts;
    out := pushed;
    var gs := RegionFacts(y.op.footprint);
    ghost var same := SameAnchor(x, y, f);
    FlatWhole(same, gs);
    for j := 0 to |gs|
      invariant out == pushed + Flat(same, gs[..j])
    {
      FlatNext(same, gs, j);
      if f == gs[j] { out := out + [Conflict(x.n, y.n, f)]; }
    }
  }

  /** E0305 reports exactly the anchored regions two steps of one host share. */
  lemma AnchorDuplicatesMean(owner: string, items: seq<Item>, c: Conflict)
    ensures c in AnchorDuplicates(owner, items)
       <==> c.fact.anchor.Some? && exists x, y :: (x, y) in EveryPair(owner, items) && SharesRegion(x, y, c)
  {
    var pairs := EveryPair(owner, items);
    FlatMeans(PairAnchors, pairs, c);
    forall x, y ensures c in PairAnchors((x, y)) <==> c.fact.anchor.Some? && SharesRegion(x, y, c) { PairAnchorsMean(x, y, c); }
    hide EveryPair, SharesRegion, PairAnchors;
    if x, y :| (x, y) in pairs && SharesRegion(x, y, c) {
      var i :| 0 <= i < |pairs| && pairs[i] == (x, y);
      assert c.fact.anchor.Some? ==> c in PairAnchors(pairs[i]);
    }
    if i :| 0 <= i < |pairs| && c in PairAnchors(pairs[i]) {
      assert (pairs[i].0, pairs[i].1) in pairs && SharesRegion(pairs[i].0, pairs[i].1, c);
    }
  }

  predicate SharesRegion(x: Leaf, y: Leaf, c: Conflict) {
    && OverlapHost(x.host, y.host) && c.earlier == x.n && c.later == y.n
    && c.fact in RegionFacts(x.op.footprint) && c.fact in RegionFacts(y.op.footprint)
  }

  lemma PairAnchorsMean(x: Leaf, y: Leaf, c: Conflict)
    ensures c in PairAnchors((x, y)) <==> c.fact.anchor.Some? && SharesRegion(x, y, c)
  {
    FlatMeans(SameAnchors(x, y), RegionFacts(x.op.footprint), c);
    forall f ensures c in Flat(SameAnchor(x, y, f), RegionFacts(y.op.footprint))
      <==> c == Conflict(x.n, y.n, f) && f in RegionFacts(y.op.footprint)
    {
      FlatMeans(SameAnchor(x, y, f), RegionFacts(y.op.footprint), c);
    }
  }
}
