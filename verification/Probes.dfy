/** The probes a plan will observe, and the step each is observed at: `observed_probes` of
    core/src/check.rs. Static probes, measured before any step, are left out. */
module Probes {
  import opened Wrappers
  import opened Model
  import opened Algebra

  type Seen = (nat, string)

  function Names(gs: seq<Guard>): seq<string> {
    seq(|gs|, i requires 0 <= i < |gs| => gs[i].name)
  }

  /** What a knell asks: its guard, and its cost where a human is asked to acknowledge it. */
  function KnellProbes(r: Refusal): seq<string> {
    match r
    case PointOfNoReturn(guard, cost, ack) =>
      (if guard.Some? then [guard.value.name] else []) + (if cost.Probe? && ack.AckGate? then [cost.probe] else [])
    case _ => []
  }

  function OpProbes(o: Op): seq<string> {
    Names(o.pre) + Names(o.post) + KnellProbes(o.refusal) + (if o.handoffDone.Some? then [o.handoffDone.value] else [])
  }

  /** The probes a leaf observes, in order. */
  function LeafProbes(it: Item): seq<string> {
    match it
    case Preflight(gs) => Names(gs)
    case Assert(g, _, _) => [g.name]
    case Observe(probe, _) => [probe]
    case Step(s) => OpProbes(s.op)
    case Knell(s) => OpProbes(s.op)
    case _ => []
  }

  function At(n: nat, names: seq<string>): seq<Seen> {
    seq(|names|, i requires 0 <= i < |names| => (n, names[i]))
  }

  function ProbesFrom(items: seq<Item>, start: nat): seq<Seen>
    decreases items, 0
  {
    if items == [] then [] else ProbesOf(items[0], start) + ProbesFrom(items[1..], start + LeafCountOf(items[0]))
  }

  /** A `when`'s condition is observed where its first leaf would run. */
  function ProbesOf(it: Item, start: nat): seq<Seen>
    decreases it, 0
  {
    match it
    case Par(children) => ProbesFrom(children, start)
    case Repeat(_, _, body) => ProbesFrom(body, start)
    case When(g, _, _, then_, else_) =>
      [(start, g.name)] + ProbesFrom(then_, start) + ProbesFrom(else_, start + LeafCount(then_))
    case _ => At(start, LeafProbes(it))
  }

  /** `observed_probes`: one counter runs through the plan, moved by leaves alone. */
  method ObservedProbes(items: seq<Item>, first: nat, pushed: seq<Seen>) returns (next: nat, out: seq<Seen>)
    ensures out == pushed + ProbesFrom(items, first)
    ensures next == first + LeafCount(items)
    decreases items, 0
  {
    hide ProbesOf, LeafCountOf;
    next, out := first, pushed;
    var i := 0;
    while i < |items|
      invariant 0 <= i <= |items|
      invariant out + ProbesFrom(items[i..], next) == pushed + ProbesFrom(items, first)
      invariant next + LeafCount(items[i..]) == first + LeafCount(items)
    {
      ghost var before := out;
      ghost var at: nat := next;
      next, out := ObservedIn(items[i], next, out);
      assert items[i..][1..] == items[i + 1..];
      assert before + ProbesFrom(items[i..], at) == out + ProbesFrom(items[i + 1..], next);
      i := i + 1;
    }
  }

  method ObservedIn(it: Item, first: nat, pushed: seq<Seen>) returns (next: nat, out: seq<Seen>)
    ensures out == pushed + ProbesOf(it, first)
    ensures next == first + LeafCountOf(it)
    decreases it, 0
  {
    hide ProbesFrom, LeafCount, LeafProbes;
    match it {
      case Par(children) => next, out := ObservedProbes(children, first, pushed);
      case Repeat(_, _, body) => next, out := ObservedProbes(body, first, pushed);
      case When(g, _, _, then_, else_) =>
        next, out := ObservedProbes(then_, first, pushed + [(first, g.name)]);
        next, out := ObservedProbes(else_, next, out);
        assert out == pushed + ([(first, g.name)] + ProbesFrom(then_, first) + ProbesFrom(else_, first + LeafCount(then_)));
      case _ =>
        next, out := first + 1, pushed + At(first, LeafProbes(it));
    }
  }

  /** Some `when` whose first leaf is, or would be, number `n` asks a guard of a name. */
  predicate WhenAsks(items: seq<Item>, start: nat, n: nat, name: string)
    decreases items, 0
  {
    items != [] &&
    (WhenAsksIn(items[0], start, n, name) || WhenAsks(items[1..], start + LeafCountOf(items[0]), n, name))
  }

  predicate WhenAsksIn(it: Item, start: nat, n: nat, name: string)
    decreases it, 0
  {
    match it
    case Par(children) => WhenAsks(children, start, n, name)
    case Repeat(_, _, body) => WhenAsks(body, start, n, name)
    case When(g, _, _, then_, else_) =>
      (n == start && name == g.name) || WhenAsks(then_, start, n, name) || WhenAsks(else_, start + LeafCount(then_), n, name)
    case _ => false
  }

  /** The leaf with number `n` of a stretch that starts at `start` observes a name. */
  predicate LeafSees(ls: seq<Item>, start: nat, n: nat, name: string) {
    start <= n < start + |ls| && name in LeafProbes(ls[n - start])
  }

  lemma LeafSeesAppend(a: seq<Item>, b: seq<Item>, start: nat, n: nat, name: string)
    ensures LeafSees(a + b, start, n, name) <==> LeafSees(a, start, n, name) || LeafSees(b, start + |a|, n, name)
  {
  }

  /** A probe is reported at a step exactly when the leaf `numbered` gives that number observes
      it, or a `when` asks it there. */
  lemma {:induction false} ProbesAreNumbered(items: seq<Item>, start: nat, n: nat, name: string)
    ensures (n, name) in ProbesFrom(items, start)
       <==> LeafSees(Leaves(items), start, n, name) || WhenAsks(items, start, n, name)
    decreases items, 0
  {
    hide LeafSees, ProbesOf, LeafCountOf, LeavesOf, WhenAsksIn;
    if items == [] {
      NoneSees(start, n, name);
    } else {
      ProbesOfAreNumbered(items[0], start, n, name);
      LeafCountOfIsLeavesOf(items[0]);
      ProbesAreNumbered(items[1..], start + LeafCountOf(items[0]), n, name);
      LeafSeesAppend(LeavesOf(items[0]), Leaves(items[1..]), start, n, name);
    }
  }

  lemma NoneSees(start: nat, n: nat, name: string)
    ensures !LeafSees([], start, n, name)
  {
  }

  lemma {:induction false} ProbesOfAreNumbered(it: Item, start: nat, n: nat, name: string)
    ensures (n, name) in ProbesOf(it, start)
       <==> LeafSees(LeavesOf(it), start, n, name) || WhenAsksIn(it, start, n, name)
    decreases it, 0
  {
    hide LeafSees, ProbesFrom, LeafCount, Leaves, WhenAsks, LeafProbes;
    match it
    case Par(children) => ProbesAreNumbered(children, start, n, name);
    case Repeat(_, _, body) => ProbesAreNumbered(body, start, n, name);
    case When(_, _, _, then_, else_) =>
      ProbesAreNumbered(then_, start, n, name);
      LeafCountIsLeaves(then_);
      ProbesAreNumbered(else_, start + LeafCount(then_), n, name);
      LeafSeesAppend(Leaves(then_), Leaves(else_), start, n, name);
    case _ => LeafIsSeen(it, start, n, name);
  }

  lemma LeafIsSeen(it: Item, start: nat, n: nat, name: string)
    ensures (n, name) in At(start, LeafProbes(it)) <==> LeafSees([it], start, n, name)
  {
    var names := LeafProbes(it);
    if name in names {
      var i :| 0 <= i < |names| && names[i] == name;
      assert At(start, names)[i] == (start, name);
    }
  }
}
