/** What a step's footprint means on a host: cells, digests, drift decisions and the body a
    `:restore` undo runs. engine/src/footprint.rs and `restore_body` of engine/src/lifecycle.rs. */
module Footprint {
  import opened Wrappers
  import opened Model

  type Bytes = seq<bv8>

  /** A hash value; the hash itself is a parameter of every definition that uses it. */
  type Hash = seq<bv8>

  /** The digest a marker keeps: `missing`, or the hash of the fact's bytes. */
  datatype Digest = Missing | Sha(hash: Hash)

  function DigestOf(sha: Bytes -> Hash, bytes: Option<Bytes>): Digest {
    match bytes
    case None => Missing
    case Some(b) => Sha(sha(b))
  }

  /** A fact: a shape on a host. */
  datatype Fact = Fact(host: Host, shape: string)

  /** The world the engine acts on; a fact not in the map is not there. */
  type World = map<Fact, Bytes>

  function Value(w: World, f: Fact): Option<Bytes> {
    if f in w then Some(w[f]) else None
  }

  function Put(w: World, f: Fact, v: Option<Bytes>): (w': World)
    ensures Value(w', f) == v
    ensures forall g :: g != f ==> Value(w', g) == Value(w, g)
  {
    match v
    case Some(b) => w[f := b]
    case None => map g | g in w && g != f :: w[g]
  }

  predicate IsFile(shape: string) { "file:" <= shape }

  /** The facts the engine reads back and compares; a region is one in a file only. */
  predicate Observed(e: FootprintEntry) { e.kind.Owned? || e.kind.Modified? || (e.kind.Region? && IsFile(e.shape)) }

  /** The facts a `do` may write: all but the derived ones, which are only read. */
  predicate Writable(e: FootprintEntry) { !e.kind.Derived? }

  // ---------------------------------------------------------------------------
  // Drift

  datatype Decision = Undo | Clobbering | Deferring | RestoreWhole | DeferForeign

  function Decide(kind: Kind, policy: Drift, changed: bool, intact: Option<bool>, foreign: bool): Decision {
    if kind.Region? then
      match intact
      case Some(false) =>
        (match policy
         case Clobber => if foreign then DeferForeign else RestoreWhole
         case Defer => Deferring)
      case _ => Undo
    else if !changed then Undo
    else match policy case Clobber => Clobbering case Defer => Deferring
  }

  /** `recant --force=drift` overrides a deferral, and nothing else. */
  function Forced(force: bool, d: Decision): Decision {
    if !force then d
    else match d
      case Deferring => Clobbering
      case DeferForeign => RestoreWhole
      case _ => d
  }

  // ---------------------------------------------------------------------------
  // The restore body

  /** A key's snapshots are kept under a key: which application, which footprint entry. */
  datatype Key = Key(step: nat, vars: map<string, string>)
  datatype SnapshotKey = SnapshotKey(key: Key, entry: nat)
  type Snapshots = map<SnapshotKey, Bytes>

  datatype Prim =
    | Remove(shape: string)
    | Write(shape: string, content: Bytes)
    | RegionClear(shape: string, anchor: Option<string>)
    | Release(name: string)

  /** What the undo of one entry is: a primitive, nothing, or no way to do it. */
  datatype EntryUndo = Does(prim: Prim) | Nothing | Impossible

  function UndoOfEntry(key: Key, k: nat, e: FootprintEntry, snapshots: Snapshots): EntryUndo {
    match e.kind
    case Owned => Does(Remove(e.shape))
    case Region => Does(RegionClear(e.shape, e.anchor))
    case Modified =>
      if SnapshotKey(key, k) in snapshots then Does(Write(e.shape, snapshots[SnapshotKey(key, k)]))
      else if IsFile(e.shape) then Does(Remove(e.shape))
      else Impossible
    case Holding => Does(Release(e.shape))
    case Derived | AppendOnly => Nothing
  }

  /** The body for the first `n` entries, or none when one of them cannot be restored. */
  function RestorePrims(key: Key, es: seq<FootprintEntry>, n: nat, snapshots: Snapshots): Option<seq<Prim>>
    requires n <= |es|
  {
    if n == 0 then Some([])
    else
      match RestorePrims(key, es, n - 1, snapshots)
      case None => None
      case Some(ps) =>
        match UndoOfEntry(key, n - 1, es[n - 1], snapshots)
        case Does(p) => Some(ps + [p])
        case Nothing => Some(ps)
        case Impossible => None
  }

  /** `restore_body`. */
  method RestoreBody(key: Key, es: seq<FootprintEntry>, snapshots: Snapshots) returns (body: Option<seq<Prim>>)
    ensures body == RestorePrims(key, es, |es|, snapshots)
  {
    var prims: seq<Prim> := [];
    var k := 0;
    while k < |es|
      invariant 0 <= k <= |es|
      invariant RestorePrims(key, es, k, snapshots) == Some(prims)
    {
      match UndoOfEntry(key, k, es[k], snapshots) {
        case Does(p) => prims := prims + [p];
        case Nothing =>
        case Impossible =>
          RestoreStaysImpossible(key, es, k + 1, |es|, snapshots);
          return None;
      }
      k := k + 1;
    }
    return Some(prims);
  }

  lemma {:induction false} RestoreStaysImpossible(key: Key, es: seq<FootprintEntry>, m: nat, n: nat, snapshots: Snapshots)
    requires m <= n <= |es| && RestorePrims(key, es, m, snapshots).None?
    ensures RestorePrims(key, es, n, snapshots).None?
    decreases n
  {
    if m < n {
      RestoreStaysImpossible(key, es, m, n - 1, snapshots);
    }
  }

  /** The world after a body has run on a host to its end. */
  function AfterBody(w: World, host: Host, body: seq<Prim>): World {
    if body == [] then w
    else AfterPrim(AfterBody(w, host, body[..|body| - 1]), host, body[|body| - 1])
  }

  function AfterPrim(w: World, host: Host, p: Prim): World {
    match p
    case Remove(shape) => Put(w, Fact(host, shape), None)
    case Write(shape, content) => Put(w, Fact(host, shape), Some(content))
    case RegionClear(_, _) => w
    case Release(_) => w
  }

  /** The value a body's last word on a shape leaves, when it has one. */
  predicate Targets(p: Prim, shape: string) {
    (p.Remove? && p.shape == shape) || (p.Write? && p.shape == shape)
  }

  function TargetOf(p: Prim): Option<Bytes>
    requires p.Remove? || p.Write?
  {
    if p.Write? then Some(p.content) else None
  }

  /** In order, exactly the entries among the first `n` that have an undo, each with its primitive. */
  ghost predicate ComeFrom(key: Key, es: seq<FootprintEntry>, n: nat, snapshots: Snapshots, prims: seq<Prim>, from: seq<nat>)
    requires n <= |es|
  {
    && |from| == |prims| && (forall i, j :: 0 <= i < j < |from| ==> from[i] < from[j])
    && (forall i :: 0 <= i < |from| ==> from[i] < n && UndoOfEntry(key, from[i], es[from[i]], snapshots) == Does(prims[i]))
    && (forall k :: 0 <= k < n && UndoOfEntry(key, k, es[k], snapshots).Does? ==> k in from)
  }

  /** Where each primitive of a restore body comes from: each entry that has an undo gives one, in
      order, and no entry is without a way to restore it. */
  lemma {:induction false} RestorePrimsFromEntries(key: Key, es: seq<FootprintEntry>, n: nat, snapshots: Snapshots) returns (from: seq<nat>)
    requires n <= |es| && RestorePrims(key, es, n, snapshots).Some?
    ensures ComeFrom(key, es, n, snapshots, RestorePrims(key, es, n, snapshots).value, from)
    ensures forall k :: 0 <= k < n ==> !UndoOfEntry(key, k, es[k], snapshots).Impossible?
  {
    hide ComeFrom, UndoOfEntry;
    from := [];
    if n == 0 {
      NoEntries(key, es, snapshots);
    } else {
      var before := RestorePrimsFromEntries(key, es, n - 1, snapshots);
      from := if UndoOfEntry(key, n - 1, es[n - 1], snapshots).Does? then before + [n - 1] else before;
      OneMoreEntry(key, es, n, snapshots, RestorePrims(key, es, n - 1, snapshots).value, before);
    }
  }

  lemma NoEntries(key: Key, es: seq<FootprintEntry>, snapshots: Snapshots)
    ensures ComeFrom(key, es, 0, snapshots, [], [])
  {
  }

  lemma OneMoreEntry(key: Key, es: seq<FootprintEntry>, n: nat, snapshots: Snapshots, prims: seq<Prim>, from: seq<nat>)
    requires 0 < n <= |es| && ComeFrom(key, es, n - 1, snapshots, prims, from)
    ensures var u := UndoOfEntry(key, n - 1, es[n - 1], snapshots);
      if u.Does? then ComeFrom(key, es, n, snapshots, prims + [u.prim], from + [n - 1]) else ComeFrom(key, es, n, snapshots, prims, from)
  {
    hide UndoOfEntry;
    var u := UndoOfEntry(key, n - 1, es[n - 1], snapshots);
    forall k | 0 <= k < n && UndoOfEntry(key, k, es[k], snapshots).Does? ensures k in from + [n - 1] {
      if k < n - 1 { assert k in from; }
    }
    if !u.Does? {
      forall k | 0 <= k < n && UndoOfEntry(key, k, es[k], snapshots).Does? ensures k in from { assert k < n - 1; }
    }
  }
}
