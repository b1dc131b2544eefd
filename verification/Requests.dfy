/** The request digest and its scoped forms: core/src/request.rs. */
module Requests {
  import opened Wrappers
  import opened Canon
  import opened Journal

  function RequestDomain(): Bytes { Ascii("rue-request") }

  datatype Scope = Plan | Step(n: nat) | Ack(n: nat)

  datatype Request = Request(
    nonce: Bytes,
    planId: Bytes,
    instance: Bytes,
    ownerHost: Bytes,
    paramsHash: Hash,
    hostContractHash: Hash,
    wane: Option<nat>,
    requestedAt: nat,
    gateHash: Hash,
    planContentHash: Hash)

  predicate Fits(r: Request) {
    && |r.nonce| == 32 && |r.planId| < U64 && |r.instance| < U64 && |r.ownerHost| < U64
    && (r.wane.Some? ==> r.wane.value < U64) && r.requestedAt < U64
  }

  predicate FitsScope(s: Scope) { s.Plan? || s.n < U64 }

  function RequestValue(r: Request): Value {
    Fields([Octets(r.nonce), Octets(r.planId), Octets(r.instance), Octets(r.ownerHost), Octets(r.paramsHash),
            Octets(r.hostContractHash), if r.wane.Some? then Just(Num(r.wane.value)) else Nothing, Num(r.requestedAt),
            Octets(r.gateHash), Octets(r.planContentHash)])
  }

  function RequestFields(): seq<Type> {
    [TOctets, TOctets, TOctets, TOctets, TOctets, TOctets, TOption(TNum), TNum, TOctets, TOctets]
  }

  function RequestDigest(sha: Bytes -> Hash, r: Request): Hash { sha(Message(RequestDomain(), RequestValue(r))) }

  function ScopedValue(digest: Hash, name: Bytes, n: nat): Value { Fields([Octets(name), Octets(digest), Num(n)]) }

  function ScopedFields(): seq<Type> { [TOctets, TOctets, TNum] }

  /** The bytes a scope's digest is taken over; none for the plan, whose digest is the request's. */
  function ScopedMessage(digest: Hash, s: Scope): Option<Bytes> {
    match s
    case Plan => None
    case Step(n) => Some(Message(RequestDomain(), ScopedValue(digest, Ascii("step"), n)))
    case Ack(n) => Some(Message(RequestDomain(), ScopedValue(digest, Ascii("ack"), n)))
  }

  function ScopedDigest(sha: Bytes -> Hash, digest: Hash, s: Scope): Hash {
    match ScopedMessage(digest, s)
    case None => digest
    case Some(bytes) => sha(bytes)
  }

  lemma RequestFits(r: Request)
    requires Fits(r)
    ensures FieldsHave(RequestValue(r).fields, RequestFields())
  {
    hide FieldsHave;
    FieldsFit(RequestValue(r).fields, RequestFields());
  }

  lemma ScopedFits(digest: Hash, name: Bytes, n: nat)
    requires |name| < U64 && n < U64
    ensures FieldsHave(ScopedValue(digest, name, n).fields, ScopedFields())
  {
    hide FieldsHave;
    FieldsFit(ScopedValue(digest, name, n).fields, ScopedFields());
  }

  /** The canonical bytes of a request decide every field of it. */
  lemma RequestBytesInjective(a: Request, b: Request)
    requires Fits(a) && Fits(b)
    requires Message(RequestDomain(), RequestValue(a)) == Message(RequestDomain(), RequestValue(b))
    ensures a == b
  {
    RequestFits(a);
    RequestFits(b);
    hide FieldsHave, Message, Ascii;
    assert |RequestDomain()| < U64 by { assert |RequestDomain()| == 11; }
    MessagesInjective(TRecord(RequestFields()), RequestDomain(), RequestValue(a), RequestDomain(), RequestValue(b));
    var x, y := RequestValue(a).fields, RequestValue(b).fields;
    assert x[0] == y[0] && x[1] == y[1] && x[2] == y[2] && x[3] == y[3] && x[4] == y[4];
    assert x[5] == y[5] && x[6] == y[6] && x[7] == y[7] && x[8] == y[8] && x[9] == y[9];
  }

  /** No request message is a scoped one: their records differ in size. */
  lemma RequestIsNoScope(r: Request, digest: Hash, name: Bytes, n: nat)
    requires Fits(r) && |name| < U64 && n < U64
    ensures Message(RequestDomain(), RequestValue(r)) != Message(RequestDomain(), ScopedValue(digest, name, n))
  {
    RequestFits(r);
    ScopedFits(digest, name, n);
    var x, y := RequestValue(r).fields, ScopedValue(digest, name, n).fields;
    hide FieldsHave, Ascii, EncodeFields;
    if EncodeOctets(RequestDomain()) + EncodeFields(x) == EncodeOctets(RequestDomain()) + EncodeFields(y) {
      SplitAlike(EncodeOctets(RequestDomain()), EncodeFields(x), EncodeOctets(RequestDomain()), EncodeFields(y));
      assert EncodeFields(x) + [] == EncodeFields(x) && EncodeFields(y) + [] == EncodeFields(y);
      FieldsPrefixFree(RequestFields(), x, [], ScopedFields(), y, []);
    }
  }

  lemma ScopedBytesInjective(d: Hash, s: Scope, d': Hash, s': Scope)
    requires FitsScope(s) && FitsScope(s') && !s.Plan? && !s'.Plan?
    requires ScopedMessage(d, s) == ScopedMessage(d', s')
    ensures d == d' && s == s'
  {
    var name, name' := if s.Step? then Ascii("step") else Ascii("ack"), if s'.Step? then Ascii("step") else Ascii("ack");
    assert |Ascii("step")| == 4 && |Ascii("ack")| == 3;
    ScopedFits(d, name, s.n);
    ScopedFits(d', name', s'.n);
    hide FieldsHave, Message, Ascii;
    assert |RequestDomain()| < U64 by { assert |RequestDomain()| == 11; }
    MessagesInjective(TRecord(ScopedFields()), RequestDomain(), ScopedValue(d, name, s.n), RequestDomain(), ScopedValue(d', name', s'.n));
    var x, y := ScopedValue(d, name, s.n).fields, ScopedValue(d', name', s'.n).fields;
    assert x[0] == y[0] && x[1] == y[1] && x[2] == y[2];
  }

  /** A proof binds to one request and one scope: digests of different pairs coincide only where
      the hash collides, on two byte strings this finds. */
  lemma ScopedDigestsBind(sha: Bytes -> Hash, a: Request, s: Scope, b: Request, t: Scope) returns (c: (Bytes, Bytes))
    requires Fits(a) && Fits(b) && FitsScope(s) && FitsScope(t) && (a, s) != (b, t)
    requires ScopedDigest(sha, RequestDigest(sha, a), s) == ScopedDigest(sha, RequestDigest(sha, b), t)
    ensures Collision(sha, c)
  {
    hide Message, Ascii, RequestValue;
    var x, y := Message(RequestDomain(), RequestValue(a)), Message(RequestDomain(), RequestValue(b));
    var p, q := ScopedMessage(sha(x), s), ScopedMessage(sha(y), t);
    if s.Plan? && t.Plan? {
      if x == y { RequestBytesInjective(a, b); }
      c := (x, y);
    } else if s.Plan? {
      PlanIsNoScope(a, sha(y), t);
      c := (x, q.value);
    } else if t.Plan? {
      PlanIsNoScope(b, sha(x), s);
      c := (p.value, y);
    } else if p != q {
      c := (p.value, q.value);
    } else {
      ScopedBytesInjective(sha(x), s, sha(y), t);
      if x == y { RequestBytesInjective(a, b); }
      c := (x, y);
    }
  }

  lemma PlanIsNoScope(r: Request, digest: Hash, s: Scope)
    requires Fits(r) && FitsScope(s) && !s.Plan?
    ensures ScopedMessage(digest, s) != Some(Message(RequestDomain(), RequestValue(r)))
  {
    hide Message, RequestValue;
    var name := if s.Step? then Ascii("step") else Ascii("ack");
    assert |name| < U64;
    RequestIsNoScope(r, digest, name, s.n);
  }
}
