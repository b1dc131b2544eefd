/** The canonical encoding: core/src/canon.rs. Every value starts with a tag, every length and
    count is written before what it counts, and a text is its UTF-8 bytes. */
module Canon {
  import opened Wrappers

  newtype byte = x: int | 0 <= x < 256

  type Bytes = seq<byte>

  const U64: nat := 0x1_0000_0000_0000_0000

  /** What can be encoded. An enum is its variant's name and its fields. */
  datatype Value =
    | Nothing
    | Just(value: Value)
    | Bool(b: bool)
    | Num(n: nat)
    | Octets(bytes: Bytes)
    | List(elements: seq<Value>)
    | Fields(fields: seq<Value>)
    | Enum(name: Bytes, payload: seq<Value>)

  /** The Rust types values are encoded at; an enum's variants are looked up by name. */
  datatype Type =
    | TNum
    | TBool
    | TOctets
    | TOption(of: Type)
    | TList(of: Type)
    | TRecord(fields: seq<Type>)
    | TEnum(variants: seq<Variant>)

  datatype Variant = Variant(name: Bytes, fields: seq<Type>)

  function Ascii(s: string): Bytes {
    seq(|s|, i requires 0 <= i < |s| => (s[i] as int % 256) as byte)
  }

  /** The last `k` base-256 digits of a number, first digit first. */
  function BigEndian(n: nat, k: nat): (r: Bytes)
    ensures |r| == k
  {
    if k == 0 then [] else BigEndian(n / 256, k - 1) + [(n % 256) as byte]
  }

  function Encode(v: Value): Bytes
    decreases v, 0
  {
    match v
    case Nothing => [0]
    case Just(x) => [1] + Encode(x)
    case Bool(b) => [2, if b then 1 else 0]
    case Num(n) => [3] + BigEndian(n, 8)
    case Octets(bytes) => EncodeOctets(bytes)
    case List(vs) => [6] + BigEndian(|vs|, 8) + EncodeAll(vs)
    case Fields(vs) => EncodeFields(vs)
    case Enum(name, vs) => EncodeOctets(name) + EncodeFields(vs)
  }

  function EncodeOctets(bytes: Bytes): Bytes { [5] + BigEndian(|bytes|, 8) + bytes }

  function EncodeFields(vs: seq<Value>): Bytes
    decreases vs, 1
  {
    [7] + BigEndian(|vs|, 8) + EncodeAll(vs)
  }

  function EncodeAll(vs: seq<Value>): Bytes
    decreases vs, 0
  {
    if vs == [] then [] else Encode(vs[0]) + EncodeAll(vs[1..])
  }

  /** A domain-separated message. */
  function Message(domain: Bytes, v: Value): Bytes { EncodeOctets(domain) + Encode(v) }

  // ---------------------------------------------------------------------------
  // The encoder

  /** `Encoder`: every method appends to one buffer. */
  class Encoder {
    var buf: Bytes

    constructor ()
      ensures buf == []
    {
      buf := [];
    }

    method Push(bytes: Bytes)
      modifies this`buf
      ensures buf == old(buf) + bytes
    {
      buf := buf + bytes;
    }

    method WriteNum(n: nat)
      modifies this`buf
      ensures buf == old(buf) + Encode(Num(n))
    {
      Push([3]);
      Push(BigEndian(n, 8));
      Associate(old(buf), [3], BigEndian(n, 8));
    }

    method WriteOctets(bytes: Bytes)
      modifies this`buf
      ensures buf == old(buf) + EncodeOctets(bytes)
    {
      Push([5]);
      Push(BigEndian(|bytes|, 8));
      Push(bytes);
      Associate(old(buf), [5], BigEndian(|bytes|, 8));
      Associate(old(buf), [5] + BigEndian(|bytes|, 8), bytes);
    }

    method WriteHeader(tag: byte, count: nat)
      modifies this`buf
      ensures buf == old(buf) + ([tag] + BigEndian(count, 8))
    {
      Push([tag]);
      Push(BigEndian(count, 8));
      Associate(old(buf), [tag], BigEndian(count, 8));
    }

    /** `canon`: a value writes itself, field by field, in declared order. */
    method Write(v: Value)
      modifies this`buf
      ensures buf == old(buf) + Encode(v)
      decreases v, 0
    {
      match v {
        case Nothing => Push([0]);
        case Just(x) =>
          Push([1]);
          Write(x);
          Associate(old(buf), [1], Encode(x));
        case Bool(b) =>
          Push([2]);
          Push([if b then 1 else 0]);
        case Num(n) => WriteNum(n);
        case Octets(bytes) => WriteOctets(bytes);
        case List(vs) =>
          WriteHeader(6, |vs|);
          WriteAll(vs);
          Associate(old(buf), [6] + BigEndian(|vs|, 8), EncodeAll(vs));
        case Fields(vs) => WriteRecord(vs);
        case Enum(name, vs) =>
          WriteOctets(name);
          WriteRecord(vs);
          Associate(old(buf), EncodeOctets(name), EncodeFields(vs));
      }
    }

    method WriteRecord(vs: seq<Value>)
      modifies this`buf
      ensures buf == old(buf) + EncodeFields(vs)
      decreases vs, 1
    {
      WriteHeader(7, |vs|);
      WriteAll(vs);
      Associate(old(buf), [7] + BigEndian(|vs|, 8), EncodeAll(vs));
    }

    method WriteAll(vs: seq<Value>)
      modifies this`buf
      ensures buf == old(buf) + EncodeAll(vs)
      decreases vs, 0
    {
      hide Encode, EncodeAll;
      EncodeAllEnds(vs);
      for i := 0 to |vs|
        invariant buf + EncodeAll(vs[i..]) == old(buf) + EncodeAll(vs)
      {
        ghost var before := buf;
        Write(vs[i]);
        EncodeAllStep(vs, i);
        Associate(before, Encode(vs[i]), EncodeAll(vs[i + 1..]));
      }
    }
  }

  lemma EncodeAllEnds(vs: seq<Value>)
    ensures vs[0..] == vs && EncodeAll(vs[|vs|..]) == []
  {
  }

  lemma EncodeAllStep(vs: seq<Value>, i: nat)
    requires i < |vs|
    ensures EncodeAll(vs[i..]) == Encode(vs[i]) + EncodeAll(vs[i + 1..])
  {
    assert vs[i..][1..] == vs[i + 1..];
  }

  /** `message`. */
  method WriteMessage(domain: Bytes, v: Value) returns (bytes: Bytes)
    ensures bytes == Message(domain, v)
  {
    var e := new Encoder();
    e.WriteOctets(domain);
    e.Write(v);
    bytes := e.buf;
  }

  // ---------------------------------------------------------------------------
  // Typed values

  function Lookup(variants: seq<Variant>, name: Bytes): Option<seq<Type>> {
    if variants == [] then None
    else if variants[0].name == name then Some(variants[0].fields)
    else Lookup(variants[1..], name)
  }

  /** The value is one of a type, its numbers and lengths fit 64 bits. */
  predicate HasType(v: Value, ty: Type)
    decreases v, 0
  {
    match ty
    case TNum => v.Num? && v.n < U64
    case TBool => v.Bool?
    case TOctets => v.Octets? && |v.bytes| < U64
    case TOption(of) => v.Nothing? || (v.Just? && HasType(v.value, of))
    case TList(of) => v.List? && |v.elements| < U64 && AllHave(v.elements, of)
    case TRecord(tys) => v.Fields? && FieldsHave(v.fields, tys)
    case TEnum(variants) =>
      v.Enum? && |v.name| < U64 && Lookup(variants, v.name).Some? && FieldsHave(v.payload, Lookup(variants, v.name).value)
  }

  predicate AllHave(vs: seq<Value>, ty: Type)
    decreases vs, 0
  {
    vs == [] || (HasType(vs[0], ty) && AllHave(vs[1..], ty))
  }

  predicate FieldsHave(vs: seq<Value>, tys: seq<Type>)
    decreases vs, 0
  {
    |vs| == |tys| < U64 && (vs == [] || (HasType(vs[0], tys[0]) && FieldsHave(vs[1..], tys[1..])))
  }

  // ---------------------------------------------------------------------------
  // Prefix freedom

  function Pow256(k: nat): (p: nat)
    ensures p > 0
  {
    if k == 0 then 1 else 256 * Pow256(k - 1)
  }

  lemma Pow256Of8()
    ensures Pow256(8) == U64
  {
    assert Pow256(4) == 0x1_0000_0000;
  }

  lemma {:induction false} BigEndianInjective(m: nat, n: nat, k: nat)
    requires m < Pow256(k) && n < Pow256(k) && BigEndian(m, k) == BigEndian(n, k)
    ensures m == n
  {
    if k > 0 {
      var a, b := BigEndian(m, k), BigEndian(n, k);
      assert a[k - 1] == (m % 256) as byte && b[k - 1] == (n % 256) as byte;
      assert a[..k - 1] == BigEndian(m / 256, k - 1) && b[..k - 1] == BigEndian(n / 256, k - 1);
      BigEndianInjective(m / 256, n / 256, k - 1);
    }
  }

  /** Two sequences that start with pieces of one length split alike. */
  lemma SplitAlike(a: Bytes, s: Bytes, b: Bytes, t: Bytes)
    requires a + s == b + t && |a| == |b|
    ensures a == b && s == t
  {
    assert a == (a + s)[..|a|] && b == (b + t)[..|b|];
    assert s == (a + s)[|a|..] && t == (b + t)[|b|..];
  }

  /** A tag and a number in front decide both. */
  lemma HeadersAgree(p: byte, m: nat, s: Bytes, q: byte, n: nat, t: Bytes)
    requires m < U64 && n < U64 && [p] + BigEndian(m, 8) + s == [q] + BigEndian(n, 8) + t
    ensures p == q && m == n && s == t
  {
    SplitAlike([p] + BigEndian(m, 8), s, [q] + BigEndian(n, 8), t);
    SplitAlike([p], BigEndian(m, 8), [q], BigEndian(n, 8));
    Pow256Of8();
    BigEndianInjective(m, n, 8);
  }

  lemma OctetsPrefixFree(a: Bytes, s: Bytes, b: Bytes, t: Bytes)
    requires |a| < U64 && |b| < U64 && EncodeOctets(a) + s == EncodeOctets(b) + t
    ensures a == b && s == t
  {
    Associate([5] + BigEndian(|a|, 8), a, s);
    Associate([5] + BigEndian(|b|, 8), b, t);
    HeadersAgree(5, |a|, a + s, 5, |b|, b + t);
    SplitAlike(a, s, b, t);
  }

  /** No encoding of a value of a type is a proper prefix of another's: whatever follows, the
      bytes decide the value and where it ends. */
  lemma {:induction false} PrefixFree(ty: Type, v: Value, s: Bytes, w: Value, t: Bytes)
    requires HasType(v, ty) && HasType(w, ty) && Encode(v) + s == Encode(w) + t
    ensures v == w && s == t
    decreases v, 0
  {
    match ty
    case TNum =>
      HeadersAgree(3, v.n, s, 3, w.n, t);
    case TBool =>
      SplitAlike(Encode(v), s, Encode(w), t);
      assert Encode(v)[1] == Encode(w)[1];
    case TOctets => OctetsPrefixFree(v.bytes, s, w.bytes, t);
    case TOption(of) =>
      assert (Encode(v) + s)[0] == Encode(v)[0] && (Encode(w) + t)[0] == Encode(w)[0];
      if v.Just? {
        Associate([1], Encode(v.value), s);
        Associate([1], Encode(w.value), t);
        SplitAlike([1], Encode(v.value) + s, [1], Encode(w.value) + t);
        PrefixFree(of, v.value, s, w.value, t);
      } else {
        SplitAlike([0], s, [0], t);
      }
    case TList(of) =>
      Associate([6] + BigEndian(|v.elements|, 8), EncodeAll(v.elements), s);
      Associate([6] + BigEndian(|w.elements|, 8), EncodeAll(w.elements), t);
      HeadersAgree(6, |v.elements|, EncodeAll(v.elements) + s, 6, |w.elements|, EncodeAll(w.elements) + t);
      AllPrefixFree(of, v.elements, s, w.elements, t);
    case TRecord(tys) =>
      FieldsPrefixFree(tys, v.fields, s, tys, w.fields, t);
    case TEnum(variants) =>
      Associate(EncodeOctets(v.name), EncodeFields(v.payload), s);
      Associate(EncodeOctets(w.name), EncodeFields(w.payload), t);
      OctetsPrefixFree(v.name, EncodeFields(v.payload) + s, w.name, EncodeFields(w.payload) + t);
      FieldsPrefixFree(Lookup(variants, v.name).value, v.payload, s, Lookup(variants, v.name).value, w.payload, t);
  }

  /** Records agree on their number of fields, whatever types they are of; and on the fields where
      the types agree. */
  lemma {:induction false} FieldsPrefixFree(tys: seq<Type>, vs: seq<Value>, s: Bytes, tys': seq<Type>, ws: seq<Value>, t: Bytes)
    requires FieldsHave(vs, tys) && FieldsHave(ws, tys') && EncodeFields(vs) + s == EncodeFields(ws) + t
    ensures |vs| == |ws|
    ensures tys == tys' ==> vs == ws && s == t
    decreases vs, 1
  {
    Associate([7] + BigEndian(|vs|, 8), EncodeAll(vs), s);
    Associate([7] + BigEndian(|ws|, 8), EncodeAll(ws), t);
    HeadersAgree(7, |vs|, EncodeAll(vs) + s, 7, |ws|, EncodeAll(ws) + t);
    if tys == tys' { EachPrefixFree(tys, vs, s, ws, t); }
  }

  lemma {:induction false} EachPrefixFree(tys: seq<Type>, vs: seq<Value>, s: Bytes, ws: seq<Value>, t: Bytes)
    requires FieldsHave(vs, tys) && FieldsHave(ws, tys) && EncodeAll(vs) + s == EncodeAll(ws) + t
    ensures vs == ws && s == t
    decreases vs, 0
  {
    hide Encode, HasType;
    if vs == [] {
      assert EncodeAll(vs) + s == s && EncodeAll(ws) + t == t;
    } else {
      Associate(Encode(vs[0]), EncodeAll(vs[1..]), s);
      Associate(Encode(ws[0]), EncodeAll(ws[1..]), t);
      PrefixFree(tys[0], vs[0], EncodeAll(vs[1..]) + s, ws[0], EncodeAll(ws[1..]) + t);
      EachPrefixFree(tys[1..], vs[1..], s, ws[1..], t);
      assert vs == [vs[0]] + vs[1..] && ws == [ws[0]] + ws[1..];
    }
  }

  lemma {:induction false} AllPrefixFree(ty: Type, vs: seq<Value>, s: Bytes, ws: seq<Value>, t: Bytes)
    requires AllHave(vs, ty) && AllHave(ws, ty) && |vs| == |ws| && EncodeAll(vs) + s == EncodeAll(ws) + t
    ensures vs == ws && s == t
    decreases vs, 0
  {
    hide Encode, HasType;
    if vs == [] {
      assert EncodeAll(vs) + s == s && EncodeAll(ws) + t == t;
    } else {
      Associate(Encode(vs[0]), EncodeAll(vs[1..]), s);
      Associate(Encode(ws[0]), EncodeAll(ws[1..]), t);
      PrefixFree(ty, vs[0], EncodeAll(vs[1..]) + s, ws[0], EncodeAll(ws[1..]) + t);
      AllPrefixFree(ty, vs[1..], s, ws[1..], t);
      assert vs == [vs[0]] + vs[1..] && ws == [ws[0]] + ws[1..];
    }
  }

  /** A message decides its domain and its value. */
  lemma MessagesInjective(ty: Type, d: Bytes, v: Value, d': Bytes, w: Value)
    requires |d| < U64 && |d'| < U64 && HasType(v, ty) && HasType(w, ty)
    requires Message(d, v) == Message(d', w)
    ensures d == d' && v == w
  {
    hide Encode, HasType;
    OctetsPrefixFree(d, Encode(v), d', Encode(w));
    assert Encode(v) + [] == Encode(v) && Encode(w) + [] == Encode(w);
    PrefixFree(ty, v, [], w, []);
  }

  /** Types are what keeps encodings apart: two different values may have one encoding. An enum
      without payload and then an octet string, or an octet string, an empty record and the enum:
      three fields either way, and the same bytes. */
  lemma TwoValuesEncodeAlike(a: Bytes, b: Bytes)
    ensures var v, w := Fields([Enum(a, []), Octets(b), Fields([])]), Fields([Octets(a), Fields([]), Enum(b, [])]);
      v != w && Encode(v) == Encode(w)
  {
    var v, w := [Enum(a, []), Octets(b), Fields([])], [Octets(a), Fields([]), Enum(b, [])];
    var none := EncodeFields([]);
    ThreeEncoded(v);
    ThreeEncoded(w);
    assert Encode(Enum(a, [])) == EncodeOctets(a) + none && Encode(Enum(b, [])) == EncodeOctets(b) + none;
    assert EncodeAll(v) == EncodeOctets(a) + none + EncodeOctets(b) + none;
    assert EncodeAll(w) == EncodeOctets(a) + none + (EncodeOctets(b) + none);
    Associate(EncodeOctets(a) + none, EncodeOctets(b), none);
  }

  lemma ThreeEncoded(vs: seq<Value>)
    requires |vs| == 3
    ensures EncodeAll(vs) == Encode(vs[0]) + Encode(vs[1]) + Encode(vs[2])
  {
    var rest := vs[1..];
    var last := rest[1..];
    assert last[1..] == [] && last[0] == vs[2] && rest[0] == vs[1];
    hide Encode;
    assert EncodeAll(last) == Encode(vs[2]) + [] == Encode(vs[2]);
    assert EncodeAll(rest) == Encode(vs[1]) + Encode(vs[2]);
    Associate(Encode(vs[0]), Encode(vs[1]), Encode(vs[2]));
  }
}
