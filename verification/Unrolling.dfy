/** The plan as the engine runs it: the sequence of leaf applications, given the arms the
    `when`s chose. The engine never builds it; it walks the plan from its start and skips
    what is applied. */
module Unrolling {
  import opened Wrappers
  import opened Model
  import opened Algebra
  import opened Footprint

  type Vars = map<string, string>

  /** The arm each `when` chose, by the number of its first leaf. */
  type Choices = map<nat, bool>

  /** What a `repeat over:` iterates: a fixed reading of each list under the outer variables. */
  type Lists = (string, Vars) -> seq<string>

  datatype AppliedStep = AppliedStep(step: nat, iteration: nat, vars: Vars) {
    function AsKey(): Key { Key(step, vars) }
  }

  /** The applications up to the first undecided `when`, and whether there was none. */
  datatype Unrolled = Unrolled(apps: seq<AppliedStep>, whole: bool)

  function Then(a: Unrolled, b: Unrolled): Unrolled {
    if a.whole then Unrolled(a.apps + b.apps, b.whole) else a
  }

  function Decimal(n: nat): string {
    if n < 10 then [Digit(n)] else Decimal(n / 10) + [Digit(n % 10)]
  }

  function Digit(d: nat): char
    requires d < 10
  {
    ['0', '1', '2', '3', '4', '5', '6', '7', '8', '9'][d]
  }

  function CountValues(n: nat): seq<string> {
    seq(n, i requires 0 <= i < n => Decimal(i))
  }

  function ValuesOf(lists: Lists, form: RepeatForm, vars: Vars): seq<string> {
    match form
    case Count(n) => CountValues(n)
    case Over(list, _) => lists(list, vars)
  }

  function Unroll(lists: Lists, items: seq<Item>, iteration: nat, leaf: nat, vars: Vars, ch: Choices): Unrolled
    decreases items, 1, 0
  {
    if items == [] then Unrolled([], true)
    else Then(UnrollItem(lists, items[0], iteration, leaf, vars, ch),
              Unroll(lists, items[1..], iteration, leaf + LeafCountOf(items[0]), vars, ch))
  }

  function UnrollItem(lists: Lists, it: Item, iteration: nat, leaf: nat, vars: Vars, ch: Choices): Unrolled
    decreases it, 2, 0
  {
    match it
    case Par(children) => Unroll(lists, children, iteration, leaf, vars, ch)
    case Repeat(form, v, body) => UnrollRepeat(lists, ValuesOf(lists, form, vars), 0, v, body, leaf, vars, ch)
    case When(_, _, _, then_, else_) =>
      if leaf !in ch then Unrolled([], false)
      else if ch[leaf] then Unroll(lists, then_, iteration, leaf, vars, ch)
      else Unroll(lists, else_, iteration, leaf + LeafCount(then_), vars, ch)
    case _ => Unrolled([AppliedStep(leaf, iteration, vars)], true)
  }

  /** A repeat's iterations from the `i`-th value on. */
  function UnrollRepeat(lists: Lists, values: seq<string>, i: nat, v: string, body: seq<Item>, leaf: nat, vars: Vars, ch: Choices): Unrolled
    requires i <= |values|
    decreases body, 2, |values| - i
  {
    if i == |values| then Unrolled([], true)
    else Then(Unroll(lists, body, i, leaf, vars[v := values[i]], ch),
              UnrollRepeat(lists, values, i + 1, v, body, leaf, vars, ch))
  }

  // ---------------------------------------------------------------------------
  // Deciding more arms only extends the unrolling

  predicate Extends(ch: Choices, more: Choices) {
    forall k :: k in ch ==> k in more && more[k] == ch[k]
  }

  predicate Continues(a: Unrolled, b: Unrolled) {
    a.apps <= b.apps && (a.whole ==> a == b)
  }

  lemma ThenContinues(a: Unrolled, a': Unrolled, b: Unrolled, b': Unrolled)
    requires Continues(a, a') && Continues(b, b')
    ensures Continues(Then(a, b), Then(a', b'))
  {
  }

  lemma {:induction false} UnrollContinues(lists: Lists, items: seq<Item>, iteration: nat, leaf: nat, vars: Vars, ch: Choices, more: Choices)
    requires Extends(ch, more)
    ensures Continues(Unroll(lists, items, iteration, leaf, vars, ch), Unroll(lists, items, iteration, leaf, vars, more))
    decreases items, 1, 0
  {
    if items != [] {
      var next := leaf + LeafCountOf(items[0]);
      UnrollItemContinues(lists, items[0], iteration, leaf, vars, ch, more);
      UnrollContinues(lists, items[1..], iteration, next, vars, ch, more);
      ThenContinues(
        UnrollItem(lists, items[0], iteration, leaf, vars, ch),
        UnrollItem(lists, items[0], iteration, leaf, vars, more),
        Unroll(lists, items[1..], iteration, next, vars, ch),
        Unroll(lists, items[1..], iteration, next, vars, more));
    }
  }

  lemma {:induction false} UnrollItemContinues(lists: Lists, it: Item, iteration: nat, leaf: nat, vars: Vars, ch: Choices, more: Choices)
    requires Extends(ch, more)
    ensures Continues(UnrollItem(lists, it, iteration, leaf, vars, ch), UnrollItem(lists, it, iteration, leaf, vars, more))
    decreases it, 2, 0
  {
    match it
    case Par(children) => UnrollContinues(lists, children, iteration, leaf, vars, ch, more);
    case Repeat(form, v, body) =>
      UnrollRepeatContinues(lists, ValuesOf(lists, form, vars), 0, v, body, leaf, vars, ch, more);
    case When(_, _, _, then_, else_) =>
      UnrollContinues(lists, then_, iteration, leaf, vars, ch, more);
      UnrollContinues(lists, else_, iteration, leaf + LeafCount(then_), vars, ch, more);
    case _ =>
  }

  lemma {:induction false} UnrollRepeatContinues(lists: Lists, values: seq<string>, i: nat, v: string, body: seq<Item>, leaf: nat, vars: Vars, ch: Choices, more: Choices)
    requires i <= |values| && Extends(ch, more)
    ensures Continues(UnrollRepeat(lists, values, i, v, body, leaf, vars, ch), UnrollRepeat(lists, values, i, v, body, leaf, vars, more))
    decreases body, 2, |values| - i
  {
    if i < |values| {
      var inner := vars[v := values[i]];
      UnrollContinues(lists, body, i, leaf, inner, ch, more);
      UnrollRepeatContinues(lists, values, i + 1, v, body, leaf, vars, ch, more);
      ThenContinues(
        Unroll(lists, body, i, leaf, inner, ch),
        Unroll(lists, body, i, leaf, inner, more),
        UnrollRepeat(lists, values, i + 1, v, body, leaf, vars, ch),
        UnrollRepeat(lists, values, i + 1, v, body, leaf, vars, more));
    }
  }
}
