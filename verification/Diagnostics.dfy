/** Suggestions: `distance` and `nearest` of core/src/diagnostics.rs. */
module Diagnostics {
  import opened Wrappers

  function Min3(a: nat, b: nat, c: nat): (m: nat)
    ensures m <= a && m <= b && m <= c && (m == a || m == b || m == c)
  {
    if a <= b && a <= c then a else if b <= c then b else c
  }

  function Cost(x: char, y: char): nat { if x == y then 0 else 1 }

  /** Levenshtein distance: the least number of single-character edits. */
  function Levenshtein(a: string, b: string): nat
    decreases |a| + |b|
  {
    if a == "" then |b|
    else if b == "" then |a|
    else
      var m, n := |a| - 1, |b| - 1;
      Min3(Levenshtein(a[..m], b[..n]) + Cost(a[m], b[n]), Levenshtein(a[..m], b) + 1, Levenshtein(a, b[..n]) + 1)
  }

  /** `distance`: one row of the table at a time, from the one before. */
  method Distance(a: string, b: string) returns (d: nat)
    ensures d == Levenshtein(a, b)
  {
    var prev: seq<nat> := seq(|b| + 1, j requires 0 <= j <= |b| => j);
    FirstRow(a, b);
    for i := 0 to |a|
      invariant |prev| == |b| + 1
      invariant forall j :: 0 <= j <= |b| ==> prev[j] == Levenshtein(a[..i], b[..j])
    {
      prev := NextRow(a, b, i, prev);
    }
    assert a[..|a|] == a && b[..|b|] == b;
    d := prev[|b|];
  }

  lemma FirstRow(a: string, b: string)
    ensures forall j :: 0 <= j <= |b| ==> Levenshtein(a[..0], b[..j]) == j
  {
    assert a[..0] == "";
  }

  method NextRow(a: string, b: string, i: nat, prev: seq<nat>) returns (cur: seq<nat>)
    requires i < |a| && |prev| == |b| + 1
    requires forall j :: 0 <= j <= |b| ==> prev[j] == Levenshtein(a[..i], b[..j])
    ensures |cur| == |b| + 1 && forall j :: 0 <= j <= |b| ==> cur[j] == Levenshtein(a[..i + 1], b[..j])
  {
    hide Levenshtein;
    cur := [i + 1];
    LeftColumn(a, b, i);
    for j := 0 to |b|
      invariant |cur| == j + 1
      invariant forall k :: 0 <= k <= j ==> cur[k] == Levenshtein(a[..i + 1], b[..k])
    {
      Cell(a, b, i, j);
      cur := cur + [Min3(prev[j] + Cost(a[i], b[j]), prev[j + 1] + 1, cur[j] + 1)];
    }
  }

  lemma LeftColumn(a: string, b: string, i: nat)
    requires i < |a|
    ensures Levenshtein(a[..i + 1], b[..0]) == i + 1
  {
    assert b[..0] == "";
  }

  lemma Cell(a: string, b: string, i: nat, j: nat)
    requires i < |a| && j < |b|
    ensures Levenshtein(a[..i + 1], b[..j + 1])
         == Min3(Levenshtein(a[..i], b[..j]) + Cost(a[i], b[j]), Levenshtein(a[..i], b[..j + 1]) + 1, Levenshtein(a[..i + 1], b[..j]) + 1)
  {
    assert a[..i + 1][..i] == a[..i] && b[..j + 1][..j] == b[..j];
  }

  // ---------------------------------------------------------------------------
  // It is a metric

  lemma {:induction false} ZeroOnlyOnEqual(a: string, b: string)
    ensures Levenshtein(a, b) == 0 <==> a == b
    decreases |a| + |b|
  {
    if a != "" && b != "" {
      var m, n := |a| - 1, |b| - 1;
      ZeroOnlyOnEqual(a[..m], b[..n]);
      assert a == a[..m] + [a[m]] && b == b[..n] + [b[n]];
    }
  }

  lemma {:induction false} Symmetric(a: string, b: string)
    ensures Levenshtein(a, b) == Levenshtein(b, a)
    decreases |a| + |b|
  {
    if a != "" && b != "" {
      Symmetric(a[..|a| - 1], b[..|b| - 1]);
      Symmetric(a[..|a| - 1], b);
      Symmetric(a, b[..|b| - 1]);
    }
  }

  /** Dropping a last character changes the distance by at most one. */
  lemma OneEdit(a: string, c: string)
    ensures a != "" ==> Levenshtein(a, c) <= Levenshtein(a[..|a| - 1], c) + 1
    ensures c != "" ==> Levenshtein(a, c) <= Levenshtein(a, c[..|c| - 1]) + 1
    ensures a != "" && c != "" ==>
      Levenshtein(a, c) <= Levenshtein(a[..|a| - 1], c[..|c| - 1]) + Cost(a[|a| - 1], c[|c| - 1])
  {
  }

  lemma {:induction false} LengthBounds(a: string, b: string)
    ensures |b| <= |a| + Levenshtein(a, b) && |a| <= |b| + Levenshtein(a, b) && Levenshtein(a, b) <= |a| + |b|
    decreases |a| + |b|
  {
    if a != "" && b != "" {
      LengthBounds(a[..|a| - 1], b[..|b| - 1]);
      LengthBounds(a[..|a| - 1], b);
      LengthBounds(a, b[..|b| - 1]);
    }
  }

  lemma {:induction false} Triangle(a: string, b: string, c: string)
    ensures Levenshtein(a, c) <= Levenshtein(a, b) + Levenshtein(b, c)
    decreases |a| + |b| + |c|
  {
    hide Levenshtein;
    LengthBounds(a, b);
    LengthBounds(b, c);
    LengthBounds(a, c);
    Ends(a, b);
    Ends(b, c);
    if a != "" && b != "" && c != "" {
      OneEdit(a, c);
      var a', b', c' := a[..|a| - 1], b[..|b| - 1], c[..|c| - 1];
      LastStep(a, b);
      LastStep(b, c);
      Triangle(a', b, c);
      Triangle(a, b, c');
      Triangle(a', b', c');
      Triangle(a', b', c);
      Triangle(a, b', c');
      Triangle(a, b', c);
    } else {
      Ends(a, c);
    }
  }

  lemma Ends(a: string, b: string)
    ensures a == "" ==> Levenshtein(a, b) == |b|
    ensures b == "" ==> Levenshtein(a, b) == |a|
  {
  }

  /** The last step of a least edit: a character kept or replaced, dropped, or added. */
  lemma LastStep(a: string, b: string)
    requires a != "" && b != ""
    ensures var d := Levenshtein(a, b);
      || d == Levenshtein(a[..|a| - 1], b[..|b| - 1]) + Cost(a[|a| - 1], b[|b| - 1])
      || d == Levenshtein(a[..|a| - 1], b) + 1
      || d == Levenshtein(a, b[..|b| - 1]) + 1
  {
  }

  // ---------------------------------------------------------------------------
  // The suggestion

  /** `c` is the first of the candidates at the least distance, and that is within two. */
  predicate FirstNearest(name: string, candidates: seq<string>, k: nat)
    requires k < |candidates|
  {
    var d := Levenshtein(name, candidates[k]);
    && d <= 2
    && (forall j :: 0 <= j < |candidates| ==> d <= Levenshtein(name, candidates[j]))
    && (forall j :: 0 <= j < k ==> d < Levenshtein(name, candidates[j]))
  }

  /** `nearest`. */
  method Nearest(name: string, candidates: seq<string>) returns (r: Option<string>)
    ensures r.None? <==> forall j :: 0 <= j < |candidates| ==> Levenshtein(name, candidates[j]) > 2
    ensures r.Some? ==> exists k :: 0 <= k < |candidates| && candidates[k] == r.value && FirstNearest(name, candidates, k)
  {
    hide Levenshtein;
    var best: Option<(nat, nat)> := None;
    for i := 0 to |candidates|
      invariant best.None? ==> forall j :: 0 <= j < i ==> Levenshtein(name, candidates[j]) > 2
      invariant best.Some? ==> best.value.1 < i && best.value.0 == Levenshtein(name, candidates[best.value.1]) <= 2
      invariant best.Some? ==> forall j :: 0 <= j < i ==> best.value.0 <= Levenshtein(name, candidates[j])
      invariant best.Some? ==> forall j :: 0 <= j < best.value.1 ==> best.value.0 < Levenshtein(name, candidates[j])
    {
      var d := Distance(name, candidates[i]);
      if d <= 2 && (best.None? || d < best.value.0) { best := Some((d, i)); }
    }
    match best {
      case None => r := None;
      case Some((_, k)) =>
        r := Some(candidates[k]);
        assert FirstNearest(name, candidates, k);
    }
  }
}
