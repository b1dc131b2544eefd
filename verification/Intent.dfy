/** Paths through a plan, and what `commit()` on them means: core/src/intent.rs. */
module Intent {
  import opened Wrappers
  import opened Model
  import opened Algebra

  datatype Intent = Temporary | Permanent

  // ---------------------------------------------------------------------------
  // Paths

  /** Every prefix extended by every continuation, in order. */
  function Cross(prefixes: seq<seq<Item>>, here: seq<seq<Item>>): seq<seq<Item>> {
    if prefixes == [] then []
    else Extended(prefixes[0], here) + Cross(prefixes[1..], here)
  }

  function Extended(prefix: seq<Item>, here: seq<seq<Item>>): (r: seq<seq<Item>>)
    ensures |r| == |here|
    ensures forall i :: 0 <= i < |here| ==> r[i] == prefix + here[i]
  {
    seq(|here|, i requires 0 <= i < |here| => prefix + here[i])
  }

  /** Every path: the leaves along each choice of `when` arm; a repeat's body contributes
      once, a `par`'s children in order. */
  function Paths(items: seq<Item>): seq<seq<Item>>
    decreases items, 1
  {
    if items == [] then [[]]
    else Cross(Paths(items[..|items| - 1]), PathsOf(items[|items| - 1]))
  }

  function PathsOf(it: Item): seq<seq<Item>>
    decreases it, 0
  {
    match it
    case Par(children) => Paths(children)
    case Repeat(_, _, body) => Paths(body)
    case When(_, _, _, then_, else_) => Paths(then_) + Paths(else_)
    case _ => [[it]]
  }

  /** `paths`: `acc` is rebuilt item by item. */
  method EnumeratePaths(items: seq<Item>) returns (acc: seq<seq<Item>>)
    ensures acc == Paths(items)
    decreases items, 1
  {
    acc := [[]];
    var i := 0;
    while i < |items|
      invariant 0 <= i <= |items|
      invariant acc == Paths(items[..i])
    {
      var here := EnumeratePathsOf(items[i]);
      var next := EnumerateCross(acc, here);
      assert items[..i + 1][..i] == items[..i];
      acc := next;
      i := i + 1;
    }
    assert items[..|items|] == items;
  }

  method EnumerateCross(acc: seq<seq<Item>>, here: seq<seq<Item>>) returns (next: seq<seq<Item>>)
    ensures next == Cross(acc, here)
  {
    next := [];
    var j := 0;
    while j < |acc|
      invariant 0 <= j <= |acc|
      invariant next + Cross(acc[j..], here) == Cross(acc, here)
    {
      ghost var before := next;
      var k := 0;
      while k < |here|
        invariant 0 <= k <= |here|
        invariant next == before + Extended(acc[j], here)[..k]
      {
        next := next + [acc[j] + here[k]];
        k := k + 1;
      }
      assert Extended(acc[j], here)[..|here|] == Extended(acc[j], here);
      assert acc[j..][1..] == acc[j + 1..];
      assert before + Cross(acc[j..], here) == next + Cross(acc[j + 1..], here);
      j := j + 1;
    }
  }

  method EnumeratePathsOf(it: Item) returns (here: seq<seq<Item>>)
    ensures here == PathsOf(it)
    decreases it, 0
  {
    match it {
      case Par(children) => here := EnumeratePaths(children);
      case Repeat(_, _, body) => here := EnumeratePaths(body);
      case When(_, _, _, then_, else_) =>
        var t := EnumeratePaths(then_);
        var e := EnumeratePaths(else_);
        here := t + e;
      case _ => here := [[it]];
    }
  }

  /** What a path is, without the enumeration: a walk that takes one arm of each `when`. */
  ghost predicate Follows(items: seq<Item>, p: seq<Item>)
    decreases items, 1
  {
    if items == [] then p == []
    else exists k :: 0 <= k <= |p| && FollowsItem(items[0], p[..k]) && Follows(items[1..], p[k..])
  }

  ghost predicate FollowsItem(it: Item, p: seq<Item>)
    decreases it, 0
  {
    match it
    case Par(children) => Follows(children, p)
    case Repeat(_, _, body) => Follows(body, p)
    case When(_, _, _, then_, else_) => Follows(then_, p) || Follows(else_, p)
    case _ => p == [it]
  }

  lemma {:induction false} CrossMembers(prefixes: seq<seq<Item>>, here: seq<seq<Item>>, p: seq<Item>)
    ensures p in Cross(prefixes, here)
       <==> exists k :: 0 <= k <= |p| && p[..k] in prefixes && p[k..] in here
  {
    if prefixes != [] {
      CrossMembers(prefixes[1..], here, p);
      var first := Extended(prefixes[0], here);
      if p in first {
        var i :| 0 <= i < |first| && first[i] == p;
        var k := |prefixes[0]|;
        assert p[..k] == prefixes[0] && p[k..] == here[i];
      }
      if k :| 0 <= k <= |p| && p[..k] in prefixes && p[k..] in here {
        assert p == p[..k] + p[k..];
        if p[..k] == prefixes[0] {
          var i :| 0 <= i < |here| && here[i] == p[k..];
          assert first[i] == p;
        } else {
          assert p[..k] in prefixes[1..];
        }
      }
    }
  }

  /** The enumeration lists exactly the walks. */
  lemma {:induction false} PathsAreTheWalks(items: seq<Item>, p: seq<Item>)
    ensures p in Paths(items) <==> Follows(items, p)
    decreases items, 1
  {
    if items != [] {
      var last := |items| - 1;
      CrossMembers(Paths(items[..last]), PathsOf(items[last]), p);
      forall k | 0 <= k <= |p|
        ensures p[..k] in Paths(items[..last]) <==> Follows(items[..last], p[..k])
        ensures p[k..] in PathsOf(items[last]) <==> FollowsItem(items[last], p[k..])
      {
        PathsAreTheWalks(items[..last], p[..k]);
        PathsOfAreTheWalks(items[last], p[k..]);
      }
      assert items == items[..last] + [items[last]];
      FollowsAppend(items[..last], [items[last]], p);
      forall k | 0 <= k <= |p|
        ensures Follows([items[last]], p[k..]) <==> FollowsItem(items[last], p[k..])
      {
        FollowsOne(items[last], p[k..]);
      }
    }
  }

  lemma {:induction false} PathsOfAreTheWalks(it: Item, p: seq<Item>)
    ensures p in PathsOf(it) <==> FollowsItem(it, p)
    decreases it, 0
  {
    match it
    case Par(children) => PathsAreTheWalks(children, p);
    case Repeat(_, _, body) => PathsAreTheWalks(body, p);
    case When(_, _, _, then_, else_) =>
      PathsAreTheWalks(then_, p);
      PathsAreTheWalks(else_, p);
    case _ =>
  }

  lemma {:induction false} FollowsOne(it: Item, p: seq<Item>)
    ensures Follows([it], p) <==> FollowsItem(it, p)
  {
    assert [it][1..] == [];
    assert p[..|p|] == p && p[|p|..] == [];
    assert Follows([], p[|p|..]);
    if Follows([it], p) {
      var k :| 0 <= k <= |p| && FollowsItem([it][0], p[..k]) && Follows([it][1..], p[k..]);
      assert k == |p|;
    }
  }

  lemma {:induction false} FollowsAppend(a: seq<Item>, b: seq<Item>, p: seq<Item>)
    ensures Follows(a + b, p) <==> exists k :: 0 <= k <= |p| && Follows(a, p[..k]) && Follows(b, p[k..])
    decreases |a|
  {
    if a == [] {
      assert a + b == b;
      assert p[..0] == [] && p[0..] == p;
    } else {
      assert (a + b)[1..] == a[1..] + b;
      if Follows(a + b, p) {
        var j :| 0 <= j <= |p| && FollowsItem((a + b)[0], p[..j]) && Follows((a + b)[1..], p[j..]);
        FollowsAppend(a[1..], b, p[j..]);
        var k :| 0 <= k <= |p[j..]| && Follows(a[1..], p[j..][..k]) && Follows(b, p[j..][k..]);
        assert p[..j + k][..j] == p[..j] && p[..j + k][j..] == p[j..][..k] && p[j + k..] == p[j..][k..];
        assert Follows(a, p[..j + k]);
      }
      if k :| 0 <= k <= |p| && Follows(a, p[..k]) && Follows(b, p[k..]) {
        var q := p[..k];
        var j :| 0 <= j <= |q| && FollowsItem(a[0], q[..j]) && Follows(a[1..], q[j..]);
        assert q[..j] == p[..j] && p[j..][..k - j] == q[j..] && p[j..][k - j..] == p[k..];
        FollowsAppend(a[1..], b, p[j..]);
      }
    }
  }

  // ---------------------------------------------------------------------------
  // Reversal acts path by path

  /** A leaf with a step's direction flipped. */
  function FlipLeaf(it: Item): Item {
    if it.Step? then Item.Step(FlipStep(it.s)) else it
  }

  /** A path walked backwards, each step's direction flipped. */
  function Backwards(p: seq<Item>): (r: seq<Item>)
    ensures |r| == |p|
    ensures forall i :: 0 <= i < |p| ==> r[i] == FlipLeaf(p[|p| - 1 - i])
  {
    seq(|p|, i requires 0 <= i < |p| => FlipLeaf(p[|p| - 1 - i]))
  }

  lemma BackwardsTwice(p: seq<Item>)
    ensures Backwards(Backwards(p)) == p
  {
    forall i | 0 <= i < |p|
      ensures Backwards(Backwards(p))[i] == p[i]
    {
      assert Backwards(p)[|p| - 1 - i] == FlipLeaf(p[i]);
    }
  }

  lemma BackwardsSplit(p: seq<Item>, k: nat)
    requires k <= |p|
    ensures Backwards(p)[..|p| - k] == Backwards(p[k..])
    ensures Backwards(p)[|p| - k..] == Backwards(p[..k])
  {
  }

  predicate ParFree(items: seq<Item>)
    decreases items, 0
  {
    items == [] || (ParFreeItem(items[0]) && ParFree(items[1..]))
  }

  predicate ParFreeItem(it: Item)
    decreases it, 0
  {
    match it
    case Par(_) => false
    case Repeat(_, _, body) => ParFree(body)
    case When(_, _, _, then_, else_) => ParFree(then_) && ParFree(else_)
    case _ => true
  }

  /** A walk of the plan, taken backwards, is a walk of the reversed plan. */
  lemma {:induction false} WalksReverse(items: seq<Item>, p: seq<Item>)
    requires KnellFree(items) && ParFree(items)
    ensures ReverseItems(items).Turned?
    ensures Follows(items, p) <==> Follows(ReverseItems(items).value, Backwards(p))
    decreases items, 1
  {
    ReverseRefusesExactlyKnells(items);
    if items == [] {
    } else {
      var a, b := items[0], items[1..];
      assert items == [a] + b;
      assert KnellFree([a]);
      ReverseAntiDistributes([a], b);
      ReverseOne(a);
      var ra, rb := ReverseItem(a).value, ReverseItems(b).value;
      assert ReverseItems(items).value == rb + [ra];
      FollowsAppend(rb, [ra], Backwards(p));
      forall k | 0 <= k <= |p|
        ensures FollowsItem(a, p[..k]) && Follows(b, p[k..])
           <==> Follows(rb, Backwards(p)[..|p| - k]) && Follows([ra], Backwards(p)[|p| - k..])
      {
        BackwardsSplit(p, k);
        ItemWalksReverse(a, p[..k]);
        FollowsOne(ra, Backwards(p[..k]));
        WalksReverse(b, p[k..]);
      }
      SplitsCorrespond(a, b, ra, rb, p);
    }
  }

  /** Splitting a path after its first item is splitting it backwards before the last. */
  lemma SplitsCorrespond(a: Item, b: seq<Item>, ra: Item, rb: seq<Item>, p: seq<Item>)
    requires forall k :: 0 <= k <= |p| ==>
      (FollowsItem(a, p[..k]) && Follows(b, p[k..])
       <==> Follows(rb, Backwards(p)[..|p| - k]) && Follows([ra], Backwards(p)[|p| - k..]))
    ensures (exists k :: 0 <= k <= |p| && FollowsItem(a, p[..k]) && Follows(b, p[k..]))
       <==> exists j :: 0 <= j <= |p| && Follows(rb, Backwards(p)[..j]) && Follows([ra], Backwards(p)[j..])
  {
    if j :| 0 <= j <= |p| && Follows(rb, Backwards(p)[..j]) && Follows([ra], Backwards(p)[j..]) {
      var k := |p| - j;
      assert |p| - k == j;
      assert FollowsItem(a, p[..k]) && Follows(b, p[k..]);
    }
    if k :| 0 <= k <= |p| && FollowsItem(a, p[..k]) && Follows(b, p[k..]) {
      var j := |p| - k;
      assert Follows(rb, Backwards(p)[..j]) && Follows([ra], Backwards(p)[j..]);
    }
  }

  lemma ReverseOne(a: Item)
    requires KnellFreeItem(a)
    ensures ReverseItem(a).Turned? && ReverseItems([a]) == Turned([ReverseItem(a).value])
  {
    ReverseItemRefusesExactlyKnells(a);
    var x := ReverseItem(a).value;
    assert [a][..0] == [];
    assert ReverseItems([a]) == Turned([x] + []);
    assert [x] + [] == [x];
  }

  lemma {:induction false} ItemWalksReverse(it: Item, p: seq<Item>)
    requires KnellFreeItem(it) && ParFreeItem(it)
    ensures ReverseItem(it).Turned?
    ensures FollowsItem(it, p) <==> FollowsItem(ReverseItem(it).value, Backwards(p))
    decreases it, 0
  {
    ReverseItemRefusesExactlyKnells(it);
    match it
    case Repeat(_, _, body) => WalksReverse(body, p);
    case When(_, _, _, then_, else_) =>
      WalksReverse(then_, p);
      WalksReverse(else_, p);
    case _ =>
      BackwardsTwice(p);
  }

  /** The paths of the reversed plan are the paths of the plan, walked backwards. */
  lemma ReversalActsPathByPath(items: seq<Item>)
    requires KnellFree(items) && ParFree(items)
    ensures ReverseItems(items).Turned?
    ensures (set q | q in Paths(ReverseItems(items).value)) == (set p | p in Paths(items) :: Backwards(p))
  {
    ReverseRefusesExactlyKnells(items);
    var rev := ReverseItems(items).value;
    var lhs := set q | q in Paths(rev);
    var rhs := set p | p in Paths(items) :: Backwards(p);
    forall q
      ensures q in lhs <==> q in rhs
    {
      var p := Backwards(q);
      BackwardsTwice(q);
      WalksReverse(items, p);
      PathsAreTheWalks(items, p);
      PathsAreTheWalks(rev, q);
      if q in rhs {
        var p' :| p' in Paths(items) && Backwards(p') == q;
        BackwardsTwice(p');
      }
    }
  }

  // ---------------------------------------------------------------------------
  // Commit

  predicate CommitReachable(items: seq<Item>)
    decreases items, 0
  {
    items != [] && (CommitReachableItem(items[0]) || CommitReachable(items[1..]))
  }

  predicate CommitReachableItem(it: Item)
    decreases it, 0
  {
    match it
    case Commit => true
    case Par(children) => CommitReachable(children)
    case Repeat(_, _, body) => CommitReachable(body)
    case When(_, _, _, then_, else_) => CommitReachable(then_) || CommitReachable(else_)
    case _ => false
  }

  /** What is left of a path from its first `commit()` on. */
  function FromCommit(p: seq<Item>): seq<Item> {
    if p == [] || p[0].Commit? then p else FromCommit(p[1..])
  }

  predicate HasCommit(p: seq<Item>) {
    exists i :: 0 <= i < |p| && p[i].Commit?
  }

  /** E0502: on some path `commit()` is followed by another item. */
  predicate CommitNotLast(items: seq<Item>) {
    exists i :: 0 <= i < |Paths(items)| && |FromCommit(Paths(items)[i])| >= 2
  }

  /** E0505: how many paths never reach `commit()`. */
  function PathsWithoutCommit(items: seq<Item>): nat {
    Without(Paths(items))
  }

  function Without(ps: seq<seq<Item>>): nat {
    if ps == [] then 0 else (if HasCommit(ps[0]) then 0 else 1) + Without(ps[1..])
  }

  /** A path whose last item is `commit()`, and no other is. */
  predicate EndsInItsOnlyCommit(p: seq<Item>) {
    p != [] && p[|p| - 1].Commit? && forall i :: 0 <= i < |p| - 1 ==> !p[i].Commit?
  }

  lemma {:induction false} FromCommitMeans(p: seq<Item>)
    ensures HasCommit(p) && |FromCommit(p)| < 2 <==> EndsInItsOnlyCommit(p)
  {
    if p == [] {
    } else if p[0].Commit? {
    } else {
      FromCommitMeans(p[1..]);
      assert p[1..] != [] ==> p[1..][|p| - 2] == p[|p| - 1];
      assert forall i :: 1 <= i < |p| ==> p[1..][i - 1] == p[i];
      assert HasCommit(p[1..]) ==> HasCommit(p);
      if EndsInItsOnlyCommit(p[1..]) {
        forall i | 0 <= i < |p| - 1 ensures !p[i].Commit? { if i > 0 { assert p[1..][i - 1] == p[i]; } }
      }
      if EndsInItsOnlyCommit(p) {
        forall i | 0 <= i < |p[1..]| - 1 ensures !p[1..][i].Commit? { assert p[1..][i] == p[i + 1]; }
      }
      if HasCommit(p) {
        var i :| 0 <= i < |p| && p[i].Commit?;
        assert p[1..][i - 1].Commit?;
      }
    }
  }

  lemma {:induction false} WithoutNone(ps: seq<seq<Item>>)
    ensures Without(ps) == 0 <==> forall i :: 0 <= i < |ps| ==> HasCommit(ps[i])
  {
    if ps != [] {
      WithoutNone(ps[1..]);
      assert forall i :: 1 <= i < |ps| ==> ps[1..][i - 1] == ps[i];
      assert forall i :: 0 <= i < |ps[1..]| ==> ps[1..][i] == ps[i + 1];
    }
  }

  /** Clean E0502 and E0505 say exactly that every path ends in its only `commit()`. */
  lemma CleanCommitMeans(items: seq<Item>)
    ensures !CommitNotLast(items) && PathsWithoutCommit(items) == 0
       <==> forall i :: 0 <= i < |Paths(items)| ==> EndsInItsOnlyCommit(Paths(items)[i])
  {
    var ps := Paths(items);
    WithoutNone(ps);
    forall i | 0 <= i < |ps|
      ensures HasCommit(ps[i]) && |FromCommit(ps[i])| < 2 <==> EndsInItsOnlyCommit(ps[i])
    {
      FromCommitMeans(ps[i]);
    }
    if !CommitNotLast(items) && PathsWithoutCommit(items) == 0 {
      forall i | 0 <= i < |ps| ensures EndsInItsOnlyCommit(ps[i]) {
        assert HasCommit(ps[i]) && |FromCommit(ps[i])| < 2;
      }
    } else if CommitNotLast(items) {
      var i :| 0 <= i < |ps| && |FromCommit(ps[i])| >= 2;
      assert !EndsInItsOnlyCommit(Paths(items)[i]);
    } else {
      assert PathsWithoutCommit(items) != 0;
      var i :| 0 <= i < |ps| && !HasCommit(ps[i]);
      assert !EndsInItsOnlyCommit(Paths(items)[i]);
    }
  }

  /** Every plan has a path. */
  lemma {:induction false} SomeWalk(items: seq<Item>) returns (p: seq<Item>)
    ensures Follows(items, p)
    decreases items, 1
  {
    if items == [] {
      p := [];
    } else {
      var q := SomeItemWalk(items[0]);
      var r := SomeWalk(items[1..]);
      p := q + r;
      assert p[..|q|] == q && p[|q|..] == r;
    }
  }

  lemma {:induction false} SomeItemWalk(it: Item) returns (p: seq<Item>)
    ensures FollowsItem(it, p)
    decreases it, 0
  {
    match it
    case Par(children) => p := SomeWalk(children);
    case Repeat(_, _, body) => p := SomeWalk(body);
    case When(_, _, _, then_, _) => p := SomeWalk(then_);
    case _ => p := [it];
  }

  lemma {:induction false} WalkToCommit(items: seq<Item>) returns (p: seq<Item>)
    requires CommitReachable(items)
    ensures Follows(items, p) && HasCommit(p)
    decreases items, 1
  {
    if CommitReachableItem(items[0]) {
      var q := ItemWalkToCommit(items[0]);
      var r := SomeWalk(items[1..]);
      p := q + r;
      assert p[..|q|] == q && p[|q|..] == r;
      var i :| 0 <= i < |q| && q[i].Commit?;
      assert p[i].Commit?;
    } else {
      var q := SomeItemWalk(items[0]);
      var r := WalkToCommit(items[1..]);
      p := q + r;
      assert p[..|q|] == q && p[|q|..] == r;
      var i :| 0 <= i < |r| && r[i].Commit?;
      assert p[|q| + i].Commit?;
    }
  }

  lemma {:induction false} ItemWalkToCommit(it: Item) returns (p: seq<Item>)
    requires CommitReachableItem(it)
    ensures FollowsItem(it, p) && HasCommit(p)
    decreases it, 0
  {
    match it
    case Par(children) => p := WalkToCommit(children);
    case Repeat(_, _, body) => p := WalkToCommit(body);
    case When(_, _, _, then_, else_) =>
      if CommitReachable(then_) { p := WalkToCommit(then_); } else { p := WalkToCommit(else_); }
    case _ =>
      p := [it];
      CommitItself(it);
  }

  lemma CommitItself(it: Item)
    requires !Container(it) && CommitReachableItem(it)
    ensures HasCommit([it])
  {
    assert [it][0].Commit?;
  }

  lemma {:induction false} CommitOnAWalkIsReachable(items: seq<Item>, p: seq<Item>)
    requires Follows(items, p) && HasCommit(p)
    ensures CommitReachable(items)
    decreases items, 1
  {
    if items != [] {
      var k :| 0 <= k <= |p| && FollowsItem(items[0], p[..k]) && Follows(items[1..], p[k..]);
      var i :| 0 <= i < |p| && p[i].Commit?;
      if i < k {
        assert p[..k][i].Commit?;
        CommitOnAnItemWalkIsReachable(items[0], p[..k]);
      } else {
        assert p[k..][i - k].Commit?;
        CommitOnAWalkIsReachable(items[1..], p[k..]);
      }
    }
  }

  lemma {:induction false} CommitOnAnItemWalkIsReachable(it: Item, p: seq<Item>)
    requires FollowsItem(it, p) && HasCommit(p)
    ensures CommitReachableItem(it)
    decreases it, 0
  {
    match it
    case Par(children) => CommitOnAWalkIsReachable(children, p);
    case Repeat(_, _, body) => CommitOnAWalkIsReachable(body, p);
    case When(_, _, _, then_, else_) =>
      if Follows(then_, p) { CommitOnAWalkIsReachable(then_, p); } else { CommitOnAWalkIsReachable(else_, p); }
    case _ =>
  }

  /** `commit_reachable` holds exactly when some path has a `commit()`. */
  lemma CommitReachableMeansOnSomePath(items: seq<Item>)
    ensures CommitReachable(items) <==> exists p :: p in Paths(items) && HasCommit(p)
  {
    if CommitReachable(items) {
      var p := WalkToCommit(items);
      PathsAreTheWalks(items, p);
    }
    if p :| p in Paths(items) && HasCommit(p) {
      PathsAreTheWalks(items, p);
      CommitOnAWalkIsReachable(items, p);
    }
  }

  // ---------------------------------------------------------------------------
  // Intent

  /** The intent, or none when it cannot be determined (E0501). */
  function InferIntent(p: Plan): Option<Intent> {
    var commit := CommitReachable(p.body);
    if p.firesByConstruction then (if p.wane.Some? || commit then None else Some(Temporary))
    else if p.wane.Some? && !commit then Some(Temporary)
    else if commit && p.wane.None? then Some(Permanent)
    else None
  }

  /** The bound a temporary plan expires at. */
  function EffectiveWane(p: Plan): Option<Seconds> {
    if p.wane.Some? then p.wane
    else if p.firesByConstruction && p.backstop.Some? then FirstConfirmBound(p.backstop.value.triggers)
    else None
  }

  function FirstConfirmBound(ts: seq<Trigger>): Option<Seconds> {
    if ts == [] then None
    else if ts[0].UnlessConfirmed? then Some(ts[0].d)
    else FirstConfirmBound(ts[1..])
  }

  /** A permanent plan that clears E0502 and E0505 commits on every path, once and last; a
      temporary one never does. */
  lemma IntentDecidesCommit(p: Plan)
    requires InferIntent(p).Some?
    requires !CommitNotLast(p.body)
    requires InferIntent(p) == Some(Permanent) ==> PathsWithoutCommit(p.body) == 0
    ensures InferIntent(p) == Some(Permanent)
       ==> forall q :: q in Paths(p.body) ==> EndsInItsOnlyCommit(q)
    ensures InferIntent(p) == Some(Temporary)
       ==> forall q :: q in Paths(p.body) ==> !HasCommit(q)
  {
    CleanCommitMeans(p.body);
    CommitReachableMeansOnSomePath(p.body);
  }
}
