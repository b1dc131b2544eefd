/** The journal: core/src/journal.rs, and the engine's record of it, engine/src/journal.rs. The
    hash is a parameter, and what is said of it is said with the collision at hand. */
module Journal {
  import opened Wrappers
  import opened Canon

  function Zeros(n: nat): (r: Bytes)
    ensures |r| == n
  {
    if n == 0 then [] else [0] + Zeros(n - 1)
  }

  type Hash = h: Bytes | |h| == 32 witness Zeros(32)

  /** The genesis entry's previous hash. */
  function Zero(): Hash { Zeros(32) }

  function Domain(): Bytes { Ascii("rue-journal") }

  datatype Entry = Entry(
    number: nat,
    prevHash: Hash,
    hash: Hash,
    at: nat,
    plan: Bytes,
    instance: Bytes,
    host: Bytes,
    event: Value,
    secretLabels: seq<Bytes>,
    sig: Option<Bytes>)

  /** What an entry is about. */
  datatype About = About(plan: Bytes, instance: Bytes, host: Bytes)

  function Row(name: string, fields: seq<Type>): Variant { Variant(Ascii(name), fields) }

  function ScopeType(): Type {
    TEnum([Row("plan", []), Row("step", [TNum]), Row("ack", [TNum])])
  }

  /** Every journal event, with its fields in declared order. */
  function EventType(): Type {
    TEnum([
      Row("checked", []),
      Row("requested", []),
      Row("proof_accepted", [ScopeType(), TOctets, TOctets]),
      Row("approved", [TBool]),
      Row("approval_expired", []),
      Row("cancelled", []),
      Row("applying", [TNum, TOctets]),
      Row("step_done", [TNum]),
      Row("step_failed", [TNum, TOctets]),
      Row("undo_skipped", [TNum, TOctets]),
      Row("applied", []),
      Row("renewed", []),
      Row("confirmed", []),
      Row("committed", [TOctets, TOctets]),
      Row("recant", []),
      Row("reverting", [TList(TNum)]),
      Row("reverted", []),
      Row("stuck", [TList(TNum)]),
      Row("expired", []),
      Row("closed", [TOctets]),
      Row("backstop_fired", [TNum]),
      Row("backstop_fired_after_abandon", [TOctets, TList(TNum)]),
      Row("held", [TNum]),
      Row("resumed", [TNum, TOctets]),
      Row("deferred", [TNum, TOctets]),
      Row("handoff_done", [TNum, TOctets]),
      Row("suspended", []),
      Row("reestablished", []),
      Row("waiting", [TNum, TOctets]),
      Row("wait_lapsed", [TNum, TOctets]),
      Row("step_gate_requested", [TNum, TOctets]),
      Row("step_gate_satisfied", [TNum]),
      Row("ack_requested", [TNum, TOctets]),
      Row("knell_acknowledged", [TNum, TOctets, TOctets]),
      Row("denied", [TOctets, TOctets]),
      Row("footprint_violation", [TNum, TList(TOctets)]),
      Row("drift_clobbered", [TNum, TList(TOctets)]),
      Row("drift_held", [TNum, TList(TOctets)]),
      Row("host_contract_changed", [TOctets, TOctets]),
      Row("refused", [TOctets]),
      Row("secret_revealed", [TOctets, TOctets]),
      Row("secret_undelivered", [TOctets]),
      Row("secret_dropped", [TOctets, TOctets]),
      Row("staged_removed", [TNum, TOctets]),
      Row("instance_dir_orphaned", [TOctets, TOctets, TBool]),
      Row("instance_dir_foreign", [TOctets, TOctets, TOctets]),
      Row("reclaimed", [TOctets, TOctets, TBool, TOctets]),
      Row("abandoned", [TList(TNum), TList(TOctets), TOctets, TOctets]),
      Row("inventory_listed", [TOctets, TList(TOctets)]),
      Row("hook_registered", [TOctets, TOctets, TOctets]),
      Row("hook_deregistered", [TOctets, TOctets, TOctets]),
      Row("operator_connected", [TOctets, TBool]),
      Row("operator_disconnected", [TOctets]),
      Row("key_rotated", [TOctets, TOctets]),
      Row("drill_attested", [TOctets, TOctets, TOctets, TBool, TList(TOctets)]),
      Row("migrated", [TNum, TNum, TOctets])
    ])
  }

  // ---------------------------------------------------------------------------
  // What is hashed

  function Texts(labels: seq<Bytes>): seq<Value> {
    seq(|labels|, i requires 0 <= i < |labels| => Octets(labels[i]))
  }

  /** The fields the hash covers: all but the hash itself and the signature. */
  function BodyOf(e: Entry): Value {
    Fields([Num(e.number), Octets(e.prevHash), Num(e.at), Octets(e.plan), Octets(e.instance), Octets(e.host), e.event,
            List(Texts(e.secretLabels))])
  }

  function BodyFields(): seq<Type> {
    [TNum, TOctets, TNum, TOctets, TOctets, TOctets, EventType(), TList(TOctets)]
  }

  function BodyBytes(e: Entry): Bytes { Message(Domain(), BodyOf(e)) }

  /** What the hash of an entry is taken over. */
  function Preimage(e: Entry): Bytes { e.prevHash + BodyBytes(e) }

  function HashOf(sha: Bytes -> Hash, e: Entry): Hash { sha(Preimage(e)) }

  /** Two entries whose hashed fields are the same. */
  predicate SameFields(a: Entry, b: Entry) {
    && a.number == b.number && a.prevHash == b.prevHash && a.at == b.at && a.plan == b.plan
    && a.instance == b.instance && a.host == b.host && a.event == b.event && a.secretLabels == b.secretLabels
  }

  /** An entry's numbers and lengths fit 64 bits, and its event is one of the table's. */
  predicate Fits(e: Entry) {
    && e.number < U64 && e.at < U64 && |e.plan| < U64 && |e.instance| < U64 && |e.host| < U64
    && |e.secretLabels| < U64 && (forall i :: 0 <= i < |e.secretLabels| ==> |e.secretLabels[i]| < U64)
    && HasType(e.event, EventType())
  }

  lemma {:induction false} TextsFit(labels: seq<Bytes>)
    requires forall i :: 0 <= i < |labels| ==> |labels[i]| < U64
    ensures AllHave(Texts(labels), TOctets)
  {
    if labels != [] {
      TextsFit(labels[1..]);
      assert Texts(labels)[1..] == Texts(labels[1..]);
    }
  }

  lemma TextsInjective(a: seq<Bytes>, b: seq<Bytes>)
    requires Texts(a) == Texts(b)
    ensures a == b
  {
    assert |Texts(a)| == |a| && |Texts(b)| == |b|;
    forall i | 0 <= i < |a| ensures a[i] == b[i] { assert Texts(a)[i] == Texts(b)[i]; }
  }

  lemma FieldsFit(vs: seq<Value>, tys: seq<Type>)
    requires |vs| == |tys| < U64 && forall i :: 0 <= i < |vs| ==> HasType(vs[i], tys[i])
    ensures FieldsHave(vs, tys)
    decreases vs
  {
    hide HasType;
    if vs != [] { FieldsFit(vs[1..], tys[1..]); }
  }

  lemma BodyFits(e: Entry)
    requires Fits(e)
    ensures HasType(BodyOf(e), TRecord(BodyFields()))
  {
    hide EventType, FieldsHave;
    TextsFit(e.secretLabels);
    FieldsFit(BodyOf(e).fields, BodyFields());
  }

  /** The canonical bytes of an entry decide every field they cover. */
  lemma BodyBytesInjective(a: Entry, b: Entry)
    requires Fits(a) && Fits(b) && BodyBytes(a) == BodyBytes(b)
    ensures SameFields(a, b)
  {
    BodyFits(a);
    BodyFits(b);
    hide HasType, Message, EventType, Ascii;
    assert |Domain()| < U64 by { assert |Domain()| == 11; }
    MessagesInjective(TRecord(BodyFields()), Domain(), BodyOf(a), Domain(), BodyOf(b));
    var x, y := BodyOf(a).fields, BodyOf(b).fields;
    assert x == y;
    assert x[0] == y[0] && x[1] == y[1] && x[2] == y[2] && x[3] == y[3];
    assert x[4] == y[4] && x[5] == y[5] && x[6] == y[6] && x[7] == y[7];
    TextsInjective(a.secretLabels, b.secretLabels);
  }

  // ---------------------------------------------------------------------------
  // The chain

  function LastHash(chain: seq<Entry>): Hash { if chain == [] then Zero() else chain[|chain| - 1].hash }

  /** The next entry before it is hashed: it follows from the last one, or from genesis. */
  function Unhashed(last: Option<Entry>, at: nat, about: About, event: Value, labels: seq<Bytes>): Entry {
    match last
    case Some(l) => Entry(l.number + 1, l.hash, Zero(), at, about.plan, about.instance, about.host, event, labels, None)
    case None => Entry(1, Zero(), Zero(), at, about.plan, about.instance, about.host, event, labels, None)
  }

  function Hashed(sha: Bytes -> Hash, e: Entry): Entry { e.(hash := HashOf(sha, e)) }

  /** `append`. */
  function Append(sha: Bytes -> Hash, last: Option<Entry>, at: nat, about: About, event: Value, labels: seq<Bytes>): Entry {
    Hashed(sha, Unhashed(last, at, about, event, labels))
  }

  function LastOf(chain: seq<Entry>): Option<Entry> { if chain == [] then None else Some(chain[|chain| - 1]) }

  datatype ChainError = Genesis | Seq(at: nat, expected: nat) | PrevHash(at: nat) | BadHash(at: nat)

  /** The chain from genesis on: consecutive numbers, each hash over the one before. */
  ghost predicate Chained(sha: Bytes -> Hash, chain: seq<Entry>) {
    forall i :: 0 <= i < |chain| ==> Linked(sha, chain, i)
  }

  predicate Linked(sha: Bytes -> Hash, chain: seq<Entry>, i: nat)
    requires i < |chain|
  {
    && chain[i].number == i + 1
    && chain[i].prevHash == LastHash(chain[..i])
    && chain[i].hash == HashOf(sha, chain[i])
  }

  /** What is wrong with the `i`-th entry, given the entries before it verify. */
  function Fault(sha: Bytes -> Hash, chain: seq<Entry>, i: nat): Option<ChainError>
    requires i < |chain|
  {
    var e := chain[i];
    if i == 0 && (e.number != 1 || e.prevHash != Zero()) then Some(Genesis)
    else if i > 0 && e.number != chain[i - 1].number + 1 then Some(Seq(e.number, chain[i - 1].number + 1))
    else if i > 0 && e.prevHash != chain[i - 1].hash then Some(PrevHash(e.number))
    else if HashOf(sha, e) != e.hash then Some(BadHash(e.number))
    else None
  }

  /** `verify`: the chain is read once, carrying the entry before; the first fault is reported. */
  method Verify(sha: Bytes -> Hash, chain: seq<Entry>) returns (fault: Option<ChainError>)
    ensures fault.None? <==> Chained(sha, chain)
    ensures fault.Some? ==> exists i :: 0 <= i < |chain| && Chained(sha, chain[..i]) && Fault(sha, chain, i) == fault
  {
    hide HashOf;
    var prev: Option<Entry> := None;
    var i := 0;
    while i < |chain|
      invariant 0 <= i <= |chain|
      invariant prev == if i == 0 then None else Some(chain[i - 1])
      invariant forall j :: 0 <= j < i ==> Linked(sha, chain, j)
    {
      var e := chain[i];
      PrefixChained(sha, chain, i);
      FaultMeansUnlinked(sha, chain, i);
      match prev {
        case None =>
          if e.number != 1 || e.prevHash != Zero() { return Some(Genesis); }
        case Some(p) =>
          if e.number != p.number + 1 { return Some(Seq(e.number, p.number + 1)); }
          if e.prevHash != p.hash { return Some(PrevHash(e.number)); }
      }
      if HashOf(sha, e) != e.hash { return Some(BadHash(e.number)); }
      prev := Some(e);
      i := i + 1;
    }
    return None;
  }

  /** An entry after a verifying chain is at fault exactly when it does not link to it. */
  lemma FaultMeansUnlinked(sha: Bytes -> Hash, chain: seq<Entry>, i: nat)
    requires i < |chain| && forall j :: 0 <= j < i ==> Linked(sha, chain, j)
    ensures Fault(sha, chain, i).None? <==> Linked(sha, chain, i)
  {
    hide HashOf;
    PrefixChained(sha, chain, i);
    assert i > 0 ==> Linked(sha, chain, i - 1);
  }

  lemma PrefixChained(sha: Bytes -> Hash, chain: seq<Entry>, i: nat)
    requires i <= |chain| && forall j :: 0 <= j < i ==> Linked(sha, chain, j)
    ensures Chained(sha, chain[..i])
    ensures i > 0 ==> LastHash(chain[..i]) == chain[i - 1].hash
  {
    forall j | 0 <= j < i ensures Linked(sha, chain[..i], j) {
      assert Linked(sha, chain, j);
      assert chain[..i][..j] == chain[..j];
    }
  }

  /** Appending keeps a chain verifying, whatever signature is put in the slot. */
  lemma AppendKeepsTheChain(sha: Bytes -> Hash, chain: seq<Entry>, at: nat, about: About, event: Value, labels: seq<Bytes>, sig: Option<Bytes>)
    requires Chained(sha, chain)
    ensures Chained(sha, chain + [Append(sha, LastOf(chain), at, about, event, labels).(sig := sig)])
  {
    var e := Append(sha, LastOf(chain), at, about, event, labels).(sig := sig);
    var longer := chain + [e];
    assert chain != [] ==> Linked(sha, chain, |chain| - 1);
    forall i | 0 <= i < |longer| ensures Linked(sha, longer, i) {
      if i < |chain| {
        assert Linked(sha, chain, i) && longer[..i] == chain[..i];
      } else {
        assert longer[..i] == chain;
        assert BodyOf(e) == BodyOf(Unhashed(LastOf(chain), at, about, event, labels));
      }
    }
  }

  /** Two byte strings with one hash. */
  predicate Collision(sha: Bytes -> Hash, c: (Bytes, Bytes)) { c.0 != c.1 && sha(c.0) == sha(c.1) }

  /** Same head, same history: two chains that verify and end in one hash are one chain, field by
      field, or the hash collides on two byte strings this finds. */
  lemma {:induction false} SameHeadSameHistory(sha: Bytes -> Hash, a: seq<Entry>, b: seq<Entry>) returns (c: Option<(Bytes, Bytes)>)
    requires Chained(sha, a) && Chained(sha, b) && a != [] && b != []
    requires (forall i :: 0 <= i < |a| ==> Fits(a[i])) && forall i :: 0 <= i < |b| ==> Fits(b[i])
    requires a[|a| - 1].hash == b[|b| - 1].hash
    ensures c.Some? ==> Collision(sha, c.value)
    ensures c.None? ==> |a| == |b| && forall i :: 0 <= i < |a| ==> SameFields(a[i], b[i]) && a[i].hash == b[i].hash
    decreases |a|
  {
    hide Preimage, SameFields, Fits;
    var m, n := |a| - 1, |b| - 1;
    var x, y := a[m], b[n];
    assert Linked(sha, a, m) && Linked(sha, b, n);
    if Preimage(x) != Preimage(y) { return Some((Preimage(x), Preimage(y))); }
    PreimageDecides(x, y);
    assert m == n;
    if m == 0 { return None; }
    assert forall i :: 0 <= i < m ==> Linked(sha, a, i) && Linked(sha, b, i);
    PrefixChained(sha, a, m);
    PrefixChained(sha, b, m);
    c := SameHeadSameHistory(sha, a[..m], b[..m]);
    if c.None? {
      forall i | 0 <= i < |a| ensures SameFields(a[i], b[i]) && a[i].hash == b[i].hash {
        if i < m { assert a[..m][i] == a[i] && b[..m][i] == b[i]; }
      }
    }
  }

  lemma PreimageDecides(a: Entry, b: Entry)
    requires Fits(a) && Fits(b) && Preimage(a) == Preimage(b)
    ensures SameFields(a, b) && a.number == b.number && a.prevHash == b.prevHash
  {
    hide Fits, BodyBytes, SameFields;
    SplitAlike(a.prevHash, BodyBytes(a), b.prevHash, BodyBytes(b));
    BodyBytesInjective(a, b);
    SameIsSame(a, b);
  }

  lemma SameIsSame(a: Entry, b: Entry)
    requires SameFields(a, b)
    ensures a.number == b.number && a.prevHash == b.prevHash
  {
  }

  // ---------------------------------------------------------------------------
  // The engine's journal

  function Refused(reason: Bytes): (v: Value)
    ensures IsRefusal(v)
  {
    Enum(Ascii("refused"), [Octets(reason)])
  }

  predicate IsRefusal(v: Value) { v.Enum? && v.name == Ascii("refused") && |v.payload| == 1 && v.payload[0].Octets? }

  /** `Journal` over its store: the store's own copy, and what each sink acknowledged since the
      journal was opened. Signers, stores and sinks may refuse at any call. */
  class Journal {
    const sha: Bytes -> Hash
    const since: nat
    var store: seq<Entry>
    var tail: Option<Entry>
    var acked: seq<seq<Entry>>
    var refused: seq<bool>

    /** The store's chain verifies and the tail is its last entry; a sink that never refused holds
        everything recorded since the journal was opened. */
    ghost predicate Valid()
      reads this
    {
      && Chained(sha, store) && since <= |store|
      && tail == LastOf(store)
      && |refused| == |acked|
      && forall k :: 0 <= k < |acked| && !refused[k] ==> acked[k] == store[since..]
    }

    constructor (sha: Bytes -> Hash, kept: seq<Entry>, sinks: nat)
      requires Chained(sha, kept)
      ensures Valid() && store == kept && this.sha == sha && |acked| == sinks
    {
      this.sha := sha;
      since := |kept|;
      store := kept;
      tail := LastOf(kept);
      acked := seq(sinks, i => []);
      refused := seq(sinks, i => false);
    }

    /** Chain the next entry and sign it; the signer may fail. */
    method Next(at: nat, about: About, event: Value, labels: seq<Bytes>) returns (e: Res<Entry>)
      requires Valid()
      ensures e.Ok? ==> e.value.event == event && Chained(sha, store + [e.value])
    {
      hide Chained;
      var sig: Option<Bytes> := *;
      if * { return Err; }
      AppendKeepsTheChain(sha, store, at, about, event, labels, sig);
      return Ok(Append(sha, tail, at, about, event, labels).(sig := sig));
    }

    /** Keep an entry, then hand it to every sink; the number that refused it, or that the store
        did. */
    method Keep(e: Entry) returns (refusals: Res<nat>)
      requires Valid() && Chained(sha, store + [e])
      modifies this`store, this`tail, this`acked, this`refused
      ensures Valid() && |acked| == old(|acked|)
      ensures store == if refusals.Ok? then old(store) + [e] else old(store)
      ensures refusals == Ok(0) ==> forall k :: 0 <= k < |acked| ==> acked[k] == old(acked)[k] + [e]
    {
      hide Chained;
      refusals := Err;
      if * { return; }
      store := store + [e];
      tail := Some(e);
      var n := DeliverAll(e);
      refusals := Ok(n);
    }

    /** `deliver_all`: every sink is asked, whatever the others answered. */
    method DeliverAll(e: Entry) returns (n: nat)
      requires |refused| == |acked| && since < |store| && store[|store| - 1] == e
      requires forall k :: 0 <= k < |acked| && !refused[k] ==> acked[k] == store[since..|store| - 1]
      modifies this`acked, this`refused
      ensures |refused| == |acked| == old(|acked|)
      ensures forall k :: 0 <= k < |acked| && !refused[k] ==> acked[k] == store[since..]
      ensures n == 0 ==> forall k :: 0 <= k < |acked| ==> acked[k] == old(acked)[k] + [e]
    {
      n := 0;
      assert store[since..|store| - 1] + [e] == store[since..];
      for k := 0 to |acked|
        invariant |refused| == |acked| == old(|acked|)
        invariant forall j :: 0 <= j < k && !refused[j] ==> acked[j] == store[since..]
        invariant forall j :: k <= j < |acked| ==> acked[j] == old(acked)[j] && refused[j] == old(refused)[j]
        invariant n == 0 ==> forall j :: 0 <= j < k ==> acked[j] == old(acked)[j] + [e]
      {
        var acknowledged: bool := *;
        if acknowledged {
          acked := acked[k := acked[k] + [e]];
        } else {
          refused := refused[k := true];
          n := n + 1;
        }
      }
    }

    /** Chain, sign, keep, deliver. All sinks must acknowledge; where one refuses, a refusal is
        chained after the entry, and the call fails. The store's chain verifies either way. */
    method Record(at: nat, about: About, event: Value, labels: seq<Bytes>) returns (r: Res<Entry>)
      requires Valid()
      modifies this`store, this`tail, this`acked, this`refused
      ensures Valid() && |acked| == old(|acked|)
      ensures r.Ok? ==> store == old(store) + [r.value] && r.value.event == event
                        && forall k :: 0 <= k < |acked| ==> acked[k] == old(acked)[k] + [r.value]
      ensures r.Err? ==> old(store) <= store && |store| <= |old(store)| + 2
                         && (|store| > |old(store)| ==> store[|old(store)|].event == event)
                         && (|store| == |old(store)| + 2 ==> IsRefusal(store[|store| - 1].event))
    {
      hide Chained, Refused, IsRefusal;
      var e :- Next(at, about, event, labels);
      var refusals :- Keep(e);
      if refusals == 0 { return Ok(e); }
      var reason: Bytes := *;
      var note :- Next(at, about, Refused(reason), []);
      var _ :- Keep(note);
      return Err;
    }
  }
}
