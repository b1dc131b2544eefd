/** The runtime state machine: core/src/states.rs. */
module States {
  import opened Wrappers
  import opened Model
  import opened Intent

  datatype State =
    | Unchecked | Checked | Pending | ApprovalExpired | Applying | Waiting | Deferred | Held
    | Applied | Suspended | Expired | Reverting | Stuck | DriftHeld | Committed | Closed

  datatype Event =
    | Check | Request | Approve | ApprovalWindowLapses | Cancel | HostContractChanged
    | AllStepsDone | CommitItem | Refuse | WaitAtStep | WaitSatisfied | DeferAtStep | HandoffDone
    | Recant | Suspend | Reestablish | Renew | ConfirmEvent | CommitVerb | Resume | BoundLapses
    | WaneElapses | UndoClean | UndoFailed | Retry | DriftOnDefer | ForceDrift | Abandon

  datatype RCode = R0102 | R0103

  datatype Outcome = To(state: State) | Stay | RefuseWith(code: RCode) | NotApplicable

  /** What a transition depends on besides the state and the event. */
  datatype Ctx = Ctx(intent: Intent, mode: Mode, earlierHold: bool, onLapse: OnLapse)

  predicate Terminal(s: State) { s.Closed? || s.Committed? }

  function Transition(ctx: Ctx, s: State, ev: Event): Outcome {
    var permanent := ctx.intent.Permanent?;
    if Terminal(s) then NotApplicable
    else if permanent && (s.Applied? || s.Suspended?) then NotApplicable
    else if ev.WaneElapses? then
      if permanent then NotApplicable
      else if s.DriftHeld? || s.Stuck? then Stay
      else if s.Pending? || s.Unchecked? || s.Checked? || s.ApprovalExpired? then NotApplicable
      else if s.Expired? then Stay
      else To(Expired)
    else if ev.Abandon? then
      if s.Stuck? || s.DriftHeld? then To(Closed) else NotApplicable
    else TransitionBySource(ctx, s, ev)
  }

  function TransitionBySource(ctx: Ctx, s: State, ev: Event): Outcome {
    var permanent := ctx.intent.Permanent?;
    var permanentOnly := (o: Outcome) => if permanent then o else RefuseWith(R0102);
    var temporaryOnly := (o: Outcome) => if permanent then RefuseWith(R0102) else o;
    match s
    case Unchecked => if ev.Check? then To(Checked) else NotApplicable
    case Checked => if ev.Request? then To(Pending) else NotApplicable
    case Pending =>
      (match ev
       case Approve => To(Applying)
       case ApprovalWindowLapses => To(ApprovalExpired)
       case Cancel | HostContractChanged => To(Closed)
       case _ => NotApplicable)
    case ApprovalExpired => if ev.Cancel? then To(Closed) else NotApplicable
    case Applying =>
      (match ev
       case AllStepsDone => if permanent then NotApplicable else To(Applied)
       case CommitItem => permanentOnly(To(Committed))
       case Refuse => To(if ctx.earlierHold then Held else Reverting)
       case WaitAtStep => To(Waiting)
       case DeferAtStep => To(Deferred)
       case ConfirmEvent => permanentOnly(Stay)
       case Renew => temporaryOnly(Stay)
       case _ => NotApplicable)
    case Waiting =>
      (match ev
       case WaitSatisfied => To(Applying)
       case Recant => To(Reverting)
       case BoundLapses => To(if ctx.mode.Manual? && ctx.onLapse.LapseHolds? then Held else Reverting)
       case _ => NotApplicable)
    case Deferred =>
      (match ev
       case HandoffDone => To(Applying)
       case Recant => To(Reverting)
       case CommitVerb => permanentOnly(To(Committed))
       case _ => NotApplicable)
    case Held =>
      (match ev
       case Resume => To(Applying)
       case Recant => To(Reverting)
       case CommitVerb => permanentOnly(To(Committed))
       case _ => NotApplicable)
    case Applied =>
      (match ev
       case Recant => To(Reverting)
       case Suspend => To(Suspended)
       case Renew => temporaryOnly(Stay)
       case ConfirmEvent => permanentOnly(Stay)
       case _ => NotApplicable)
    case Suspended =>
      (match ev
       case Reestablish => To(Applied)
       case Recant => To(Reverting)
       case _ => NotApplicable)
    case Expired | Reverting =>
      (match ev
       case UndoClean => To(Closed)
       case UndoFailed => To(Stuck)
       case DriftOnDefer => To(DriftHeld)
       case _ => NotApplicable)
    case Stuck => if ev.Retry? then To(Reverting) else NotApplicable
    case DriftHeld =>
      (match ev
       case ForceDrift => To(Reverting)
       case Recant => RefuseWith(R0103)
       case _ => NotApplicable)
    case _ => NotApplicable
  }

  /** The states a plan of an intent can be in at all. */
  predicate Admits(intent: Intent, s: State) {
    match intent
    case Permanent => !s.Applied? && !s.Suspended? && !s.Expired?
    case Temporary => !s.Committed?
  }

  /** No event takes a temporary plan to Committed, nor a permanent one to Applied, Suspended
      or Expired. */
  lemma TransitionKeepsIntent(ctx: Ctx, s: State, ev: Event)
    requires Admits(ctx.intent, s)
    requires Transition(ctx, s, ev).To?
    ensures Admits(ctx.intent, Transition(ctx, s, ev).state)
  {
  }

  /** Whether a bound has been reached; the instant itself is expired. */
  predicate IsExpired(now: Seconds, deadline: Seconds) { now >= deadline }
}
