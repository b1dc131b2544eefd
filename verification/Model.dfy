/** The plan as the checker and the engine read it: facts, ops, items, gates and triggers.
    Fields no modelled function reads (bodies, outputs, arguments) are left out. */
module Model {
  import opened Wrappers

  type Host = string

  /** Whole seconds, and seconds since the epoch. */
  type Seconds = nat

  datatype Tri = Yes | No | Unknown

  datatype Kind = Owned | Region | Modified | Derived | AppendOnly | Holding

  datatype Drift = Clobber | Defer

  function DefaultDrift(k: Kind): Option<Drift> {
    match k
    case Owned | Region => Some(Clobber)
    case Modified => Some(Defer)
    case _ => None
  }

  datatype FootprintEntry = FootprintEntry(kind: Kind, shape: string, anchor: Option<string>)

  datatype Guard = Guard(name: string, value: Tri, forceNever: bool)

  datatype HostRef = Static(host: Host) | Bound(output: string)

  datatype Locus = Controller | Target | AtHost(ref: HostRef)

  datatype UndoLocus = OnTarget | OnController | NoLocus

  datatype Undo = Restore | Computed(undoPre: seq<string>) | Compensate(undoPre: seq<string>) | NoUndo

  datatype Cost = Probe(probe: string) | NoCost(reason: string)

  datatype Ack = AckGate(gate: GateExpr) | NoAck(reason: string)

  datatype Refusal = Revert | Hold(via: Option<string>) | PointOfNoReturn(guard: Option<Guard>, cost: Cost, ack: Ack)

  datatype Op = Op(
    id: string,
    footprint: seq<FootprintEntry>,
    pre: seq<Guard>,
    undo: Undo,
    post: seq<Guard>,
    undoLocus: UndoLocus,
    refusal: Refusal,
    drift: Option<Drift>,
    reach: seq<string>,
    locus: Locus,
    handoffDone: Option<string>)

  /** The drift policy in force: the declared one, else the first default a kind supplies. */
  function EffectiveDrift(o: Op): Option<Drift> {
    if o.drift.Some? then o.drift else FirstDefault(o.footprint)
  }

  function FirstDefault(es: seq<FootprintEntry>): Option<Drift> {
    if es == [] then None
    else if DefaultDrift(es[0].kind).Some? then DefaultDrift(es[0].kind)
    else FirstDefault(es[1..])
  }

  datatype Authenticator = Authenticator(id: string, human: bool)

  datatype GateExpr = Thresh(n: nat, factors: seq<Factor>) | Single(factor: Factor)

  datatype Factor =
    | Auth(id: string, weight: nat)
    | Humans(weight: nat)
    | Group(expr: GateExpr, weight: nat)
    | Wait(duration: Seconds, weight: nat)

  datatype Direction = Forward | Inverse

  datatype OnLapse = LapseReverts | LapseHolds

  datatype StepI = StepI(op: Op, direction: Direction, gate: Option<GateExpr>, window: Option<Seconds>, onLapse: OnLapse)

  datatype RepeatForm = Count(n: nat) | Over(list: string, max: nat)

  datatype Item =
    | Step(s: StepI)
    | Knell(s: StepI)
    | Par(children: seq<Item>)
    | Slot(name: string)
    | Confirm
    | Commit
    | Preflight(guards: seq<Guard>)
    | Observe(probe: string, alias: string)
    | Assert(guard: Guard, window: Option<Seconds>, onLapse: OnLapse)
    | Repeat(form: RepeatForm, variable: string, body: seq<Item>)
    | When(guard: Guard, window: Option<Seconds>, onLapse: OnLapse, then_: seq<Item>, else_: seq<Item>)

  predicate Container(it: Item) { it.Par? || it.Repeat? || it.When? }

  datatype Trigger =
    | After(d: Seconds)
    | UnlessConfirmed(d: Seconds)
    | UnlessHeartbeat(deadline: Seconds, interval: Option<Seconds>)

  datatype Backstop = Backstop(triggers: seq<Trigger>, armBefore: nat)

  datatype Mode = Manual | Auto

  datatype Plan = Plan(
    owner: Host,
    wane: Option<Seconds>,
    backstop: Option<Backstop>,
    firesByConstruction: bool,
    mode: Mode,
    body: seq<Item>)
}
