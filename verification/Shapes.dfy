/** The names a probe's `reads` pattern binds: `bind_shape` of core/src/model.rs. */
module Shapes {
  import opened Wrappers

  type Bindings = map<string, string>

  /** The first place a character is, or none. */
  function FindChar(s: string, c: char): (r: Option<nat>)
    ensures r.Some? ==> r.value < |s|
  {
    if s == "" then None
    else if s[0] == c then Some(0)
    else
      match FindChar(s[1..], c)
      case None => None
      case Some(k) => Some(k + 1)
  }

  /** The first place a text is, or none. */
  function FindText(s: string, part: string): (r: Option<nat>)
    ensures r.Some? ==> r.value <= |s| && part <= s[r.value..]
  {
    if part <= s then Some(0)
    else if s == "" then None
    else
      match FindText(s[1..], part)
      case None => None
      case Some(k) => Some(k + 1)
  }

  function StripPrefix(s: string, prefix: string): (r: Option<string>)
    ensures r.Some? <==> prefix <= s
    ensures r.Some? ==> s == prefix + r.value
  {
    if prefix <= s then Some(s[|prefix|..]) else None
  }

  /** A pattern up to its first binder, the binder's name, and what follows. */
  datatype Piece = Literal(text: string) | Binder(text: string, name: string, rest: string) | Unclosed

  function Split(pat: string): (p: Piece)
    ensures p.Binder? ==> |p.rest| < |pat|
  {
    match FindChar(pat, '{')
    case None => Literal(pat)
    case Some(k) =>
      var after := pat[k + 1..];
      match FindChar(after, '}')
      case None => Unclosed
      case Some(close) => Binder(pat[..k], after[..close], after[close + 1..])
  }

  /** The literal text up to the next binder. */
  function NextLiteral(pat: string): (r: string)
    ensures r <= pat
  {
    match FindChar(pat, '{')
    case None => pat
    case Some(k) => pat[..k]
  }

  /** How much of the text a binder takes: up to the next literal, or everything at the end. */
  function Taken(pat: string, rest: string): (r: Option<nat>)
    ensures r.Some? ==> r.value <= |rest|
  {
    if NextLiteral(pat) != "" then FindText(rest, NextLiteral(pat))
    else if pat == "" then Some(|rest|)
    else None
  }

  function Bind(pat: string, rest: string, vars: Bindings): Option<Bindings>
    decreases |pat|
  {
    match Split(pat)
    case Unclosed => None
    case Literal(text) => if text == rest then Some(vars) else None
    case Binder(text, name, after) =>
      match StripPrefix(rest, text)
      case None => None
      case Some(body) =>
        match Taken(after, body)
        case None => None
        case Some(end) =>
          if end == 0 then None else Bind(after, body[end..], vars[name := body[..end]])
  }

  /** `bind_shape`: each turn of the loop takes one binder off the pattern. */
  method BindShape(pattern: string, shape: string) returns (r: Option<Bindings>)
    ensures r == Bind(pattern, shape, map[])
  {
    var pat, rest := pattern, shape;
    var vars: Bindings := map[];
    while true
      invariant Bind(pat, rest, vars) == Bind(pattern, shape, map[])
      decreases |pat|
    {
      match Split(pat) {
        case Literal(text) => return if text == rest then Some(vars) else None;
        case Unclosed => return None;
        case Binder(text, name, after) =>
          var body := StripPrefix(rest, text);
          if body.None? { return None; }
          var end := Taken(after, body.value);
          if end.None? || end.value == 0 { return None; }
          vars := vars[name := body.value[..end.value]];
          pat, rest := after, body.value[end.value..];
      }
    }
  }

  // ---------------------------------------------------------------------------
  // What the bindings mean

  /** The names a pattern binds, in order. */
  function Names(pat: string): seq<string>
    decreases |pat|
  {
    match Split(pat)
    case Binder(_, name, after) => [name] + Names(after)
    case _ => []
  }

  predicate Distinct(names: seq<string>) {
    forall i, j :: 0 <= i < j < |names| ==> names[i] != names[j]
  }

  /** The pattern with every binder replaced by what it is bound to. */
  function Filled(pat: string, vars: Bindings): Option<string>
    decreases |pat|
  {
    match Split(pat)
    case Unclosed => None
    case Literal(text) => Some(text)
    case Binder(text, name, after) =>
      match Filled(after, vars)
      case None => None
      case Some(rest) => if name in vars then Some(text + vars[name] + rest) else None
  }

  /** A binding keeps what was bound before to names the pattern does not bind, and binds every
      name of the pattern to some text. */
  lemma {:induction false} BindKeeps(pat: string, rest: string, vars: Bindings)
    requires Bind(pat, rest, vars).Some?
    ensures var out := Bind(pat, rest, vars).value;
      && (forall x :: x in vars && x !in Names(pat) ==> x in out && out[x] == vars[x])
      && (forall x :: x in out <==> x in vars || x in Names(pat))
      && ((forall x :: x in vars ==> vars[x] != "") ==> forall x :: x in out ==> out[x] != "")
    decreases |pat|
  {
    match Split(pat)
    case Binder(text, name, after) =>
      var body := StripPrefix(rest, text).value;
      var end := Taken(after, body).value;
      BindKeeps(after, body[end..], vars[name := body[..end]]);
      assert Names(pat) == [name] + Names(after);
    case _ =>
  }

  /** With distinct names, filling the bindings in rebuilds the shape exactly, and none is empty. */
  lemma {:induction false} BindingRebuildsTheShape(pat: string, rest: string, vars: Bindings)
    requires Bind(pat, rest, vars).Some? && Distinct(Names(pat))
    ensures Filled(pat, Bind(pat, rest, vars).value) == Some(rest)
    decreases |pat|
  {
    hide Bind, Taken, Filled, Names, StripPrefix;
    match Split(pat)
    case Binder(text, name, after) =>
      var body, end := BoundOne(pat, rest, vars, text, name, after);
      var inner := vars[name := body[..end]];
      NamesOne(pat, text, name, after);
      LaterNames(Names(pat), name, Names(after));
      BindKeeps(after, body[end..], inner);
      BindingRebuildsTheShape(after, body[end..], inner);
      FilledOne(pat, text, name, after, Bind(pat, rest, vars).value, body[end..]);
      assert body == body[..end] + body[end..];
      Associate(text, body[..end], body[end..]);
    case Literal(text) => EndsOne(pat, rest, vars);
    case Unclosed => EndsOne(pat, rest, vars);
  }

  lemma EndsOne(pat: string, rest: string, vars: Bindings)
    requires Bind(pat, rest, vars).Some? && !Split(pat).Binder?
    ensures Filled(pat, Bind(pat, rest, vars).value) == Some(rest)
  {
  }

  lemma BoundOne(pat: string, rest: string, vars: Bindings, text: string, name: string, after: string) returns (body: string, end: nat)
    requires Bind(pat, rest, vars).Some? && Split(pat) == Binder(text, name, after)
    ensures rest == text + body && 0 < end <= |body| && StripPrefix(rest, text) == Some(body) && Taken(after, body) == Some(end)
    ensures Bind(pat, rest, vars) == Bind(after, body[end..], vars[name := body[..end]])
  {
    body := StripPrefix(rest, text).value;
    end := Taken(after, body).value;
  }

  lemma BindsOne(pat: string, rest: string, vars: Bindings, text: string, name: string, after: string, body: string, end: nat)
    requires Split(pat) == Binder(text, name, after) && StripPrefix(rest, text) == Some(body)
    requires 0 < end <= |body| && Taken(after, body) == Some(end)
    ensures Bind(pat, rest, vars) == Bind(after, body[end..], vars[name := body[..end]])
  {
  }

  lemma NamesOne(pat: string, text: string, name: string, after: string)
    requires Split(pat) == Binder(text, name, after)
    ensures Names(pat) == [name] + Names(after)
  {
  }

  lemma FilledOne(pat: string, text: string, name: string, after: string, vars: Bindings, rest: string)
    requires Split(pat) == Binder(text, name, after) && name in vars && Filled(after, vars) == Some(rest)
    ensures Filled(pat, vars) == Some(text + vars[name] + rest)
  {
  }

  lemma LaterNames(names: seq<string>, name: string, later: seq<string>)
    requires names == [name] + later && Distinct(names)
    ensures Distinct(later) && name !in later
  {
    assert forall i :: 0 <= i < |later| ==> later[i] == names[i + 1];
    assert names[0] == name;
  }

  /** `bind_shape` binds a pattern of distinct names only to the very shape they rebuild. */
  lemma {:induction false} BoundShapeIsRebuilt(pattern: string, shape: string)
    requires Bind(pattern, shape, map[]).Some? && Distinct(Names(pattern))
    ensures var vars := Bind(pattern, shape, map[]).value;
      && Filled(pattern, vars) == Some(shape)
      && (forall x :: x in vars <==> x in Names(pattern))
      && (forall x :: x in vars ==> vars[x] != "")
  {
    BindKeeps(pattern, shape, map[]);
    BindingRebuildsTheShape(pattern, shape, map[]);
  }

  /** A name bound again later keeps the later text: where the pattern's first binder is that name,
      the shape is rebuilt exactly when both are the same. */
  lemma {:induction false} FirstIsRebuiltIff(pat: string, rest: string, vars: Bindings, text: string, name: string, after: string) returns (first: string)
    requires Bind(pat, rest, vars).Some? && Split(pat) == Binder(text, name, after)
    requires Distinct(Names(after)) && name in Names(after)
    ensures text + first <= rest && name in Bind(pat, rest, vars).value
    ensures first == TextFor(pat, rest, name)
    ensures Filled(pat, Bind(pat, rest, vars).value) == Some(rest) <==> Bind(pat, rest, vars).value[name] == first
  {
    hide Bind, Taken, Filled, Names, StripPrefix, Distinct, TextFor;
    var body, end := BoundOne(pat, rest, vars, text, name, after);
    first := body[..end];
    TextForOne(pat, rest, text, name, after, body, end, name);
    var inner, last := vars[name := first], body[end..];
    BindKeeps(after, last, inner);
    BindingRebuildsTheShape(after, last, inner);
    FilledOne(pat, text, name, after, Bind(pat, rest, vars).value, last);
    Between(text, Bind(pat, rest, vars).value[name], first, last);
    TakenInFront(text, body, end);
  }

  /** The text the first binder of a name takes. */
  function TextFor(pat: string, rest: string, name: string): string
    decreases |pat|
  {
    match Split(pat)
    case Binder(text, x, after) =>
      (match StripPrefix(rest, text)
       case None => ""
       case Some(body) =>
         match Taken(after, body)
         case None => ""
         case Some(end) => if x == name then body[..end] else TextFor(after, body[end..], name))
    case _ => ""
  }

  lemma TextForOne(pat: string, rest: string, text: string, x: string, after: string, body: string, end: nat, name: string)
    requires Split(pat) == Binder(text, x, after) && StripPrefix(rest, text) == Some(body) && Taken(after, body) == Some(end)
    ensures TextFor(pat, rest, name) == if x == name then body[..end] else TextFor(after, body[end..], name)
  {
    hide Taken, StripPrefix;
  }

  /** One name is bound twice, and every other at most once. */
  predicate OneTwice(names: seq<string>, name: string) {
    names != [] &&
    if names[0] == name then Distinct(names[1..]) && name in names[1..]
    else names[0] !in names[1..] && OneTwice(names[1..], name)
  }

  /** Where one name is bound twice, the shape is rebuilt exactly when both texts are the same. */
  lemma {:induction false} RepeatedNameIsRebuiltIff(pat: string, rest: string, vars: Bindings, name: string)
    requires Bind(pat, rest, vars).Some? && OneTwice(Names(pat), name)
    ensures name in Bind(pat, rest, vars).value
    ensures Filled(pat, Bind(pat, rest, vars).value) == Some(rest) <==> Bind(pat, rest, vars).value[name] == TextFor(pat, rest, name)
    decreases |pat|
  {
    hide Bind, Filled, Distinct, TextFor, Taken, StripPrefix;
    var p := Split(pat);
    var text, x, after := p.text, p.name, p.rest;
    NamesOne(pat, text, x, after);
    if x == name {
      var _ := FirstIsRebuiltIff(pat, rest, vars, text, name, after);
    } else {
      var body, end := BoundOne(pat, rest, vars, text, x, after);
      var inner := vars[x := body[..end]];
      RepeatedNameIsRebuiltIff(after, body[end..], inner, name);
      BindKeeps(after, body[end..], inner);
      OneNameBefore(pat, rest, vars, text, x, after, body, end);
      TextForOne(pat, rest, text, x, after, body, end, name);
    }
  }

  /** A name bound once in front does not matter. */
  lemma OneNameBefore(pat: string, rest: string, vars: Bindings, text: string, x: string, after: string, body: string, end: nat)
    requires Bind(pat, rest, vars).Some? && Split(pat) == Binder(text, x, after) && rest == text + body && end <= |body|
    requires x in Bind(pat, rest, vars).value && Bind(pat, rest, vars).value[x] == body[..end]
    ensures Filled(pat, Bind(pat, rest, vars).value) == Some(rest) <==> Filled(after, Bind(pat, rest, vars).value) == Some(body[end..])
  {
    hide Bind, Taken;
    var out := Bind(pat, rest, vars).value;
    if Filled(after, out).Some? {
      var later := Filled(after, out).value;
      assert body == body[..end] + body[end..];
      Associate(text, body[..end], later);
      Associate(text, body[..end], body[end..]);
      SameTail(text + body[..end], later, body[end..]);
    }
  }

  lemma SameTail(a: string, x: string, y: string)
    ensures a + x == a + y <==> x == y
  {
    if a + x == a + y { assert x == (a + x)[|a|..] == (a + y)[|a|..] == y; }
  }

  lemma TakenInFront(text: string, body: string, end: nat)
    requires end <= |body|
    ensures body == body[..end] + body[end..] && text + body[..end] <= text + body
  {
    assert text + body == (text + body[..end]) + body[end..];
  }

  lemma Between(a: string, x: string, y: string, b: string)
    ensures a + x + b == a + (y + b) <==> x == y
  {
    if a + x + b == a + (y + b) {
      assert |x| == |y|;
      assert x == (a + x + b)[|a|..|a| + |x|] == (a + (y + b))[|a|..|a| + |x|] == y;
    }
  }

  // ---------------------------------------------------------------------------
  // Exactly which shapes a pattern binds

  /** The pattern with its binders replaced, in order, by these texts. */
  function FilledWith(pat: string, texts: seq<string>): Option<string>
    decreases |pat|
  {
    match Split(pat)
    case Unclosed => None
    case Literal(text) => if texts == [] then Some(text) else None
    case Binder(text, _, after) =>
      if texts == [] then None
      else
        match FilledWith(after, texts[1..])
        case None => None
        case Some(rest) => Some(text + texts[0] + rest)
  }

  /** The literal fits somewhere before the end of the text it follows. */
  predicate FitsEarlier(text: string, literal: string) {
    exists p :: 0 <= p < |text| && literal <= (text + literal)[p..]
  }

  /** No binder is empty, none is followed at once by another, and none holds an earlier fit of the
      literal that follows it. */
  predicate FirstFits(pat: string, texts: seq<string>)
    decreases |pat|
  {
    match Split(pat)
    case Binder(_, _, after) =>
      && texts != [] && texts[0] != ""
      && (after != "" ==> NextLiteral(after) != "" && !FitsEarlier(texts[0], NextLiteral(after)))
      && FirstFits(after, texts[1..])
    case _ => true
  }

  /** `bind_shape` binds a shape exactly when some texts, put in for the binders, rebuild it, none
      of them empty, none next to another, and none holding an earlier fit of what follows it. */
  lemma {:induction false} BindsIff(pat: string, rest: string, vars: Bindings)
    ensures Bind(pat, rest, vars).Some? <==> exists texts :: FilledWith(pat, texts) == Some(rest) && FirstFits(pat, texts)
  {
    if Bind(pat, rest, vars).Some? {
      var texts := BoundFits(pat, rest, vars);
    }
    if texts :| FilledWith(pat, texts) == Some(rest) && FirstFits(pat, texts) {
      FitsBind(pat, rest, vars, texts);
    }
  }

  lemma {:induction false} BoundFits(pat: string, rest: string, vars: Bindings) returns (texts: seq<string>)
    requires Bind(pat, rest, vars).Some?
    ensures FilledWith(pat, texts) == Some(rest) && FirstFits(pat, texts)
    decreases |pat|
  {
    hide Bind, Taken, StripPrefix, FilledWith, FirstFits;
    match Split(pat)
    case Binder(text, name, after) =>
      var body, end := BoundOne(pat, rest, vars, text, name, after);
      var later := BoundFits(after, body[end..], vars[name := body[..end]]);
      texts := [body[..end]] + later;
      OneMoreFits(pat, rest, text, name, after, body, end, later);
    case _ =>
      texts := [];
      NoneFits(pat, rest, vars);
  }

  lemma NoneFits(pat: string, rest: string, vars: Bindings)
    requires Bind(pat, rest, vars).Some? && !Split(pat).Binder?
    ensures FilledWith(pat, []) == Some(rest) && FirstFits(pat, [])
  {
  }

  lemma OneMoreFits(pat: string, rest: string, text: string, name: string, after: string, body: string, end: nat, later: seq<string>)
    requires Split(pat) == Binder(text, name, after) && rest == text + body && 0 < end <= |body| && Taken(after, body) == Some(end)
    requires FilledWith(after, later) == Some(body[end..]) && FirstFits(after, later)
    ensures FilledWith(pat, [body[..end]] + later) == Some(rest) && FirstFits(pat, [body[..end]] + later)
  {
    var texts := [body[..end]] + later;
    assert texts[1..] == later;
    assert body == body[..end] + body[end..];
    Associate(text, body[..end], body[end..]);
    if after != "" {
      StartsWithItsLiteral(after, later, body[end..]);
      FirstTextIsFirst(body, NextLiteral(after));
      NothingEarlier(body, end, NextLiteral(after));
    }
    hide FitsEarlier;
  }

  /** What follows a binder begins with the literal that follows it. */
  lemma StartsWithItsLiteral(pat: string, texts: seq<string>, rest: string)
    requires FilledWith(pat, texts) == Some(rest)
    ensures NextLiteral(pat) <= rest
  {
  }

  lemma {:induction false} FirstTextIsFirst(s: string, part: string)
    ensures FindText(s, part).Some? ==> forall p :: 0 <= p < FindText(s, part).value ==> !(part <= s[p..])
    ensures FindText(s, part).None? ==> forall p :: 0 <= p <= |s| ==> !(part <= s[p..])
  {
    if part <= s || s == "" { return; }
    FirstTextIsFirst(s[1..], part);
    forall p | 1 <= p <= |s| ensures s[p..] == s[1..][p - 1..] {}
  }

  lemma NothingEarlier(body: string, end: nat, literal: string)
    requires end <= |body| && literal <= body[end..]
    ensures FitsEarlier(body[..end], literal) <==> exists p :: 0 <= p < end && literal <= body[p..]
  {
    forall p | 0 <= p < end
      ensures literal <= (body[..end] + literal)[p..] <==> literal <= body[p..]
    {
      var whole := body[..end] + literal;
      assert whole <= body by { assert body[..end + |literal|] == whole; }
      assert whole[p..] <= body[p..];
      assert |whole[p..]| >= |literal|;
    }
    if p :| 0 <= p < end && literal <= body[p..] {
      assert 0 <= p < |body[..end]| && literal <= (body[..end] + literal)[p..];
    }
  }

  lemma {:induction false} FitsBind(pat: string, rest: string, vars: Bindings, texts: seq<string>)
    requires FilledWith(pat, texts) == Some(rest) && FirstFits(pat, texts)
    ensures Bind(pat, rest, vars).Some?
    decreases |pat|
  {
    match Split(pat)
    case Binder(text, name, after) =>
      var later := FilledWith(after, texts[1..]).value;
      var body := texts[0] + later;
      Associate(text, texts[0], later);
      assert rest == text + body && rest[|text|..] == body;
      assert body[..|texts[0]|] == texts[0] && body[|texts[0]|..] == later;
      if after != "" {
        StartsWithItsLiteral(after, texts[1..], later);
        NothingEarlier(body, |texts[0]|, NextLiteral(after));
        FirstTextIsFirst(body, NextLiteral(after));
        assert NextLiteral(after) <= body[|texts[0]|..];
      } else {
        assert later == "";
      }
      assert Taken(after, body) == Some(|texts[0]|);
      FitsBind(after, later, vars[name := texts[0]], texts[1..]);
    case _ =>
  }

  lemma EndsWithX()
    ensures Split("x") == Literal("x") && Taken("x", "pxqx") == Some(1)
  {
    assert FindChar("x", '{').None? && NextLiteral("x") == "x";
    assert "pxqx"[1..] == "xqx" && FindText("xqx", "x") == Some(0) && FindText("pxqx", "x") == Some(1);
  }

  /** A binder stops at the first place the next literal fits, and a later place is not tried: a
      shape the pattern rebuilds may be refused. */
  lemma LaterFitIsNotTried()
    ensures var vars: Bindings := map["a" := "pxq"];
            Bind("{a}x", "pxqx", map[]).None? && Filled("{a}x", vars) == Some("pxqx")
  {
    var none: Bindings, first: Bindings, vars: Bindings := map[], map["a" := "p"], map["a" := "pxq"];
    SplitsAs("{a}x", "", "a", "x");
    EndsWithX();
    assert StripPrefix("pxqx", "") == Some("pxqx");
    assert Bind("x", "xqx", first) == None && Filled("x", vars) == Some("x");
    hide Split, Taken, Bind, Filled;
    assert "pxqx"[..1] == "p" && "pxqx"[1..] == "xqx" && none["a" := "p"] == first;
    BindsOne("{a}x", "pxqx", none, "", "a", "x", "pxqx", 1);
    assert "" + "pxq" + "x" == "pxqx";
    FilledOne("{a}x", "", "a", "x", vars, "x");
  }

  lemma {:induction false} FirstBrace(text: string, rest: string)
    requires '{' !in text && rest != "" && rest[0] == '{'
    ensures FindChar(text + rest, '{') == Some(|text|)
    ensures (text + rest)[..|text|] == text
  {
    if text == "" {
      assert text + rest == rest;
    } else {
      assert (text + rest)[1..] == text[1..] + rest;
      FirstBrace(text[1..], rest);
    }
  }

  lemma {:induction false} FirstClose(name: string, rest: string)
    requires '}' !in name
    ensures FindChar(name + "}" + rest, '}') == Some(|name|)
  {
    if name == "" {
      assert name + "}" + rest == "}" + rest;
    } else {
      assert (name + "}" + rest)[1..] == name[1..] + "}" + rest;
      FirstClose(name[1..], rest);
    }
  }

  lemma SplitsAs(pat: string, text: string, name: string, rest: string)
    requires pat == text + "{" + name + "}" + rest && '{' !in text && '}' !in name
    ensures Split(pat) == Binder(text, name, rest)
  {
    var from := "{" + name + "}" + rest;
    assert pat == text + from;
    FirstBrace(text, from);
    var after := name + "}" + rest;
    assert pat[|text| + 1..] == after;
    FirstClose(name, rest);
    assert after[..|name|] == name && after[|name| + 1..] == rest;
  }
}
