# rescind, modelled

rescind checks a plan of reversible steps, runs it, and undoes it. Its claim is that given honest
declarations the verdict is correct: a plan the checker passes can be taken back, wherever it
stopped. This project models the parts of rescind that claim rests on and proves it of the model.

- **The engine** (`Engine`, over `Invariant`, `Safety`, `Course`, `Unrolling`, `Completion`,
  `Identity`, `Drifting`, `Footprint`, `Backstops`, `States`) is a class with the stored record, the record in
  hand and the world. A world maps facts to bytes. A verb loads the record, writes ahead,
  snapshots, runs `do`, marks, waits, holds, defers, reverts and persists as the source does, and
  any journal entry or store write may be refused. What an executor writes to the facts a step's
  footprint declares, observed or not, where it stops, and what guards, gates, probes and
  schedulers answer is arbitrary; derived facts alone, which are only read, no `do` writes. A
  crash puts memory back to the stored record, at any point store and world have been at
  together, and every such point is kept in a trail the invariant ranges over, with what had
  been done and doubted by then.
- **The interference query** (`Interference`, `Siblings`, `Conflicts`, `Probes`, `Algebra`,
  `Intent`): the separate traversals that number, pair, reverse and enumerate a plan's items, each
  loop proved against a recursive meaning, and the meanings against each other.
- **The bridge** (`Checker`, `Soundness`, `Verdict`, `Restoration`): a clean query makes a plan's
  steps honest in the engine's sense, through the number the verdict reports; the engine run on
  such a plan; and exactly when one undo is a restoration.
- **Gates** (`Gates`, `GateReport`, `Approvals`): the enumeration of subsets by bitmask against the
  weighted threshold it stands for, and the proofs an instance accumulates.
- **The journal** (`Canon`, `Journal`, `Requests`): the typed canonical encoding, the hash chain
  and the digests proofs are bound to. The hash is a parameter, and results that would need it to
  be injective hand back the two byte strings that collide instead.
- **Small cores** (`Ledger`, `Diagnostics`, `Shapes`): reservations, edit distance, pattern binding.

`dafny verify dfyconfig.toml` checks everything.

## How the engine's theorem is put

Two things are kept at every write to store or world (`Engine.Engine.Sound`), through any
interleaving of verbs, reap passes, partial `do`s, failed undos, retries, waits, holds, handoffs,
crashes, restarts and writes of others to the facts of applied steps (`Engine.Engine.Operate`),
from whatever state a failed verb left.

`Safety.OnCourse` asks nothing of a plan's undos: what is applied is a prefix of the plan's
unrolling, an attempt is at the next application, the state is one the intent admits, and every
act was protected (`Engine.Engine.EveryAct`). All it needs is `Safety.Identified`, that no
application is in an unrolling twice: so in every plan without repeats
(`Checker.RepeatFreeIsIdentified`), and with repeats where list values are distinct and no loop
rebinds an outer name (`Verdict.DistinctListsIdentify`).

`Safety.Safe` is about facts: every reserved fact is at its initial value, or answered for by an
application that is applied or in flight, or `Safety.Loose`, one that a step writes and does not
observe, which no undo puts back; whatever an undo would write back is the initial value, and no
step past a number was begun. It holds where the steps through that number are
`Safety.HonestThrough` it: the undo is `:restore`, observed facts are reserved, none is a region,
owned facts were absent, modified bytes are text, no two of their applications share a key or an
observed fact, and none of them writes as a loose fact what another observes. Steps past the
number, a knell say, may be anything. The number is any the run is held to;
`Checker.ReportedThroughIsHonest` supplies it as the `reversible_through` of the verdict, for
repeat-free plans of static shapes and hosts, and `Verdict.Run` is the engine run on one.

What `Safe` does not survive is a doubt, `Safety.Doubt`, and a run in doubt holds the evidence in
its own history (`Invariant.Evidence`): a step past the number that it announced or was handed; a
point of its trail at which a reserved fact held other bytes than the request found with one
digest; or the point of its trail at which it entered a verb in one of the states below. A run
whose history holds none of these is in no doubt (`Invariant.UntroubledIsCertain`). Short of a
doubt, an instance closed with nothing applied has every reserved fact back but the loose ones
(`Engine.Engine.Everywhere`), and all of them where no footprint has a loose entry (`Verdict.Run`,
`Soundness.NothingIsLooseIff`). Each contract says which doubts its verb can raise, and at what
point of the run.

## Where the code does less than it says

The model follows the code. Where the code and its own comments or documentation part, a lemma
says exactly when it does what is promised.

- The record says which step is in flight before its snapshot is taken
  (`engine/src/lifecycle.rs:1738-1739`, `2392-2393`). If the engine dies in between, or the
  snapshot is refused for its size (R0204, `2371-2377`, an error that leaves the instance Applying),
  boot undoes a step that never ran, and an undo with no snapshot removes the file. A restore body
  restores if and only if the step was snapshotted (`RestoresExactlyWhenSnapped`,
  `InFlightMayJoinIff`). `TheWindowIsReached`, `BootUndoesWhatNeverRan` and
  `CrashBeforeTheSnapshotLosesTheFile` follow such a record through boot to the file missing.
- A verb whose journal entry or store write is refused after `do` leaves the instance Applying with
  the step in flight. If wane then elapses in the same process, the reap pass reverts without that
  step. `ExpiringIsSafeIff` gives the exact condition, and `ExpiringLosesAHalfDoneStep` a record and
  a world that lose a file so.
- `advance` is described as continuing a walk after boot or a satisfied wait, and walks any instance
  that is Applying (`2964-2970`), one left with a step half done included; the next attempt at that
  step snapshots what the first one wrote (`SnapshotAgainIsRightIff`). `Engine.Engine.Advance` raises
  a doubt exactly there.
- The ledger reserves every fact a footprint writes, append-only ones included
  (`core/src/interference.rs:75`, `engine/src/lifecycle.rs:3564-3572`), and `docs/ROADMAP.md:412`
  has an append-only fact undone by a compensating append. A `:restore` body runs nothing for it
  (`engine/src/lifecycle.rs:3612`): the undo succeeds and the instance is closed with the reserved
  fact changed. `AppendIsNotTakenBack` is such a run, of a plan the checker passes
  (`AppendStepIsCleared`). Undoing everything restores the world whatever was written if and only
  if no footprint has an entry it may write and does not observe: `AlwaysRestoredIff`,
  `CleanVerdictRestoresIff`.
- Snapshots are kept as text with replacement characters, so bytes that are not UTF-8 do not come
  back: `SnapshotIsExactWhenTextIs`.
- An engine that dies after markers were written for a `do` that changed nothing, under an earlier
  `:hold`, leaves a marker behind; a later attempt at that step is then judged against it, and its
  undo after a failure can be held for its own drift, which `undo_failed` takes for success.
  `LettingGoIsSafeIff` gives the condition; `BootLeavesTheMarker` and `LeftoverMarkerLosesAFailedStep`
  the record, the world and the run.
- A step done by hand has no snapshot, so its undo may remove an existing file it modified;
  `HandoffMayJoinIff` says exactly when it would not.
- A repeated step's applications share snapshots and markers when a list has one value twice:
  `ApplicationsIdentifiedIff` says exactly when, for any plan, and `RepeatedStepIsIdentifiedIff` for
  one repeated step.
- E0502 and E0505 count a repeat's body as run once: `RepeatMaySkipItsCommit`. `WholeRunCommits` and
  `CountedRunCommits` say, in iteration counts, exactly when a clean plan run whole has run its
  `commit()`, and when it ended in its only one.
- `wait_alone_at` is described as satisfiable by waits only and filters on no human, so a machine's
  proof may still be needed: `WaitAloneMayNeedAMachine`. `WaitAloneOpensIff` says when it is right,
  and `WaitAloneIsExactAmongHumans` that it is wherever no machine is published.
- A request the ledger refuses leaves its record Checked, which no verb ends, and the same plan is
  refused ever after as already Checked: `RefusedRequestKeepsItsId`.
- The ledger compares shapes whole, so it admits what the query would call overlapping:
  `LedgerSeesEqualShapesOnly`, `PrefixOverlapIsAdmitted`.
- `bind_shape` keeps the later text of a name bound twice, and does not try a later fit of a
  literal: `RepeatedNameIsRebuiltIff`, `LaterFitIsNotTried`; `BindsIff` says exactly what it binds.
- The encoding is described as one where two values encode alike only when they are the same. It is
  prefix-free at each type, and across types two values may encode alike: `PrefixFree`,
  `TwoValuesEncodeAlike`.
- A reservation's id joins instance and host with a separator a host's name may hold, so ending one
  instance may release another's reservation: `LidsCoincideIff`, and `FinishedReservesIff` for when
  it does not.

## Model

| member | source | states |
|---|---|---|
| Engine.Engine.Operate | engine/src/lifecycle.rs:2964-3523 | Over any run at all, of verbs, reap passes, restarts and other people's writes, in any order and from any state, each ended, failed or cut short by a crash wherever the engine has been: with honest steps through the number it is held to, an instance closed with nothing applied has every reserved fact at its initial value but those a step writes and does not observe, short of a doubt the run's own history holds the evidence of; and one whose history met none of the states doubts come from is in none. |
| Engine.Engine.Everywhere | engine/src/lifecycle.rs:1204-1312 | In every state store and world were in together, whatever the steps' undos are: what is applied is a prefix of the plan's unrolling, no application is in it twice, and the state is one the plan's intent admits; short of a doubt met by then, closed with nothing applied means every reserved fact is back but those a step writes and does not observe. |
| Engine.Engine.EveryAct | engine/src/lifecycle.rs:1725-1783 | Every act of a run was protected: a step that may sever a transport was announced under an armed backstop; and every `do` was begun of the next application of the unrolling, not applied, named in flight by the store with what was read of its facts kept, its backstop installed. |
| Engine.Engine.constructor | engine/src/lifecycle.rs:3648-3692 | A fresh instance of any plan whose unrollings repeat no application is sound, held to any number: pending, nothing applied, not approved, the world as the request found it. |
| Engine.Engine.Crash | engine/src/lifecycle.rs:750-754 | The run goes back to some state store and world were in together: memory is lost, the history ends there, with some of what was done before the next state, and the doubt is the one of that moment. |
| Engine.Engine.Persist | engine/src/lifecycle.rs:756-758 | A store write either makes the stored record the one in hand or leaves it; the new pair of record and world joins the history. |
| Engine.Engine.Log | engine/src/lifecycle.rs:760-765 | An entry is logged with the backstop as it is; a step that may sever a transport is announced only where the backstop defends it. |
| Engine.Engine.Step | engine/src/lifecycle.rs:1168-1198 | The machine's verdict is obeyed: a move is persisted, a stay changes nothing, anything else is an error. |
| Engine.Engine.RunUndo | engine/src/lifecycle.rs:2671-2675 | Stopped at any primitive, an undo body has only moved facts toward their initial values; run to its end, every fact it sets has its initial value. |
| Engine.Engine.RunDo | engine/src/lifecycle.rs:3525-3542 | `do` runs only for a step written ahead and snapshotted, and stopped anywhere has written facts of its own footprint alone: any of them, observed or not, but the derived ones. |
| Engine.Engine.Untouched | engine/src/lifecycle.rs:1950-1958 | A step found untouched has every fact it observes at its initial value, or a hash collision is in hand. |
| Engine.Engine.Judge | engine/src/lifecycle.rs:2603-2644 | What an undo goes over and what holds it back are exactly what came away from what `do` left, split by policy, force and who else holds regions in the file: files by their digests, regions by their strips. |
| Engine.Engine.UndoStep | engine/src/lifecycle.rs:2556-2680 | Undone means every fact of the step is at its initial value; held back means nothing was changed and the drift was judged so; failed means facts only moved toward their initial values. |
| Engine.Engine.Revert | engine/src/lifecycle.rs:2462-2548 | Ended Closed, every applied step was undone, last first, and nothing is applied; else Stuck or DriftHeld; persisted either way, and sound at every write in between. |
| Engine.Engine.UndoLast | engine/src/lifecycle.rs:2470-2529 | One turn undoes and pops the last applied step once its facts are back; or stops with the applied as they were, Stuck exactly when its undo failed and DriftHeld when it was held back. |
| Engine.Engine.Pop | engine/src/lifecycle.rs:2505-2507 | Exactly the last application leaves the applied, in hand and in the store, and only when its facts are clean. |
| Engine.Engine.StopReverting | engine/src/lifecycle.rs:2481-2527 | A revert that stops is Stuck or DriftHeld, in hand and in the store. |
| Engine.Engine.RefuseApplied | engine/src/lifecycle.rs:2446-2456 | A refusal leaves the instance Held at the step, with its applied and the world as they were, exactly when an earlier applied step holds; else wherever the undo ended. |
| Engine.Engine.Refused | engine/src/lifecycle.rs:2446-2456 | Held, it is held at the step and persisted; Reverting, it is Closed with nothing applied, Stuck or DriftHeld. |
| Engine.Engine.RefuseStep | engine/src/lifecycle.rs:2428-2442 | A step refused before its `do` leaves nothing half done, and the instance where a refusal takes it. |
| Engine.Engine.WaitFor | engine/src/lifecycle.rs:1579-1604 | A wait is taken between steps only, at that step, bounded exactly where a bound is given, and nothing else of the record changes. |
| Engine.Engine.Defer | engine/src/lifecycle.rs:2397-2425 | A deferred step is the next application; the record in hand and in the store keeps it, Deferred, and nothing else changes. |
| Engine.Engine.GuardBlocks | engine/src/lifecycle.rs:1537-1577 | The guard is asked; a pass changes nothing, an unknown that nobody forces waits on it, and any other answer is refused. |
| Engine.Engine.GuardsBlock | engine/src/lifecycle.rs:1526-1535 | Passed, every guard was asked in order and each passed; blocked, all before one passed and that one did not. |
| Engine.Engine.Snapshot | engine/src/lifecycle.rs:2332-2395 | Persisted together before `do`: what was read of every fact the step observes and every existing fact it does not own; and of an honest step, what the request found. |
| Engine.Engine.SnapshotEntry | engine/src/lifecycle.rs:2352-2389 | One entry: its fact read and kept, so that what is recorded and snapshotted reaches one entry further. |
| Engine.Engine.SnapshotFact | engine/src/lifecycle.rs:2358-2388 | One fact read keeps its bytes, through their text encoding, under its application and entry. |
| Engine.Engine.UndoOfFailed | engine/src/lifecycle.rs:1915-1946 | A failed step is undone at once or, untouched, not at all; it joins the applied or is dropped with its facts clean, in the store too. |
| Engine.Engine.UntouchedAttempt | engine/src/lifecycle.rs:1950-1958 | The failed step's facts compare clean, or a collision is recorded. |
| Engine.Engine.UndoAttempt | engine/src/lifecycle.rs:1935-1946 | A failed step joins the applied exactly when its undo fails too; dropped, its facts are clean. |
| Engine.Engine.FailAfterDo | engine/src/lifecycle.rs:1882-1901 | A step that failed after `do` is journaled, undone, and refused, over the applied with or without it. |
| Engine.Engine.WriteMarkers | engine/src/lifecycle.rs:2167-2227 | The markers kept are the digests of the step's facts as `do` left them; an unreadable fact keeps none. |
| Engine.Engine.AfterDo | engine/src/lifecycle.rs:1784-1877 | Only a `do` that ran to its end is marked applied, with its markers, and nothing else of record or world changes. |
| Engine.Engine.FinishStep | engine/src/lifecycle.rs:1961-1979 | Marked applied, the record differs by that application and the attempt it ends, and nothing is half done. |
| Engine.Engine.Attempt | engine/src/lifecycle.rs:1725-1753 | Announced before anything else; on success its `do` was begun and it and nothing else joined the applied; else the instance is where a stop leaves it. |
| Engine.Engine.WriteAhead | engine/src/lifecycle.rs:1725-1739 | The step is announced, then named in flight by the store; nothing of it is touched, or the run is in doubt of its number. |
| Engine.Engine.AttemptOn | engine/src/lifecycle.rs:1756-1783 | On success `do` was begun; a step not begun is refused with the applied as they were. |
| Engine.Engine.RunAttempt | engine/src/lifecycle.rs:1774-1877 | `do` is begun with the very record the store keeps; continuing means the step alone joined the applied. |
| Engine.Engine.RunStep | engine/src/lifecycle.rs:1606-1877 | Going on means every guard passed, in order, a knell's guard, cost and acknowledgement too, and then `do` began; a stop leaves it waiting, deferred, or refused, with the applied as they were or grown by this step. |
| Engine.Engine.StepBlocks | engine/src/lifecycle.rs:1606-1659 | A step on a host no transport reaches, or bound at runtime, is deferred; one whose host cannot undo it is refused; one whose gate is not open waits; else nothing changed. |
| Engine.Engine.AckBlocks | engine/src/lifecycle.rs:1666-1724 | An acknowledgement is asked for only with the cost measured, and the knell goes on only once it is given. |
| Engine.Engine.KnellBlocks | engine/src/lifecycle.rs:1666-1724 | A knell goes on, with nothing changed, only past its guard, its measured cost and its acknowledgement. |
| Engine.Engine.BackstopHost | engine/src/backstop.rs:124-145 | The host found is the one host of every covered step. |
| Engine.Engine.KeepBackstop | engine/src/backstop.rs:299-301 | The backstop changes in hand and in the store together, and nothing else does. |
| Engine.Engine.BackstopInstall | engine/src/backstop.rs:195-303 | On success the record's backstop is installed. |
| Engine.Engine.BackstopArm | engine/src/backstop.rs:307-411 | On success an installed backstop is armed. |
| Engine.Engine.BackstopDisarm | engine/src/backstop.rs:460-520 | Disarmed, an installed backstop is confirmed, and gone unless a heartbeat is still to be served; nothing else changes. |
| Engine.Engine.BackstopBeforeLeaf | engine/src/lifecycle.rs:1396-1418 | Passed, the step about to run is protected, whatever its undo: installed if covered, and armed too if it may sever a transport under a clean reach rule; else it is refused. |
| Engine.Engine.BackstopAfterWalk | engine/src/lifecycle.rs:1423-1437 | A covered plan that ran every leaf is armed. |
| Engine.Engine.MarkLeaf | engine/src/lifecycle.rs:1513-1522 | A leaf that changes nothing is marked as the next application. |
| Engine.Engine.RunLeaf | engine/src/lifecycle.rs:1439-1511 | Every call is on the next element of the unrolling; continuing means exactly it was applied, past every guard it asks, and a step's `do` began; a stop is Committed at a `commit()`, or waiting, deferred or refused. |
| Engine.Engine.GuardedLeaf | engine/src/lifecycle.rs:1487-1503 | A preflight or an assertion is marked exactly past all its guards; stopped, one of them did not pass and all before it did. |
| Engine.Engine.ConfirmLeaf | engine/src/lifecycle.rs:1453-1461 | `confirm()`, in a permanent plan only, is marked with the backstop disarmed, or refused. |
| Engine.Engine.CommitLeaf | engine/src/lifecycle.rs:1462-1475 | `commit()`, in a permanent plan only, ends the walk Committed, in hand and in the store; it is never marked applied. |
| Engine.Engine.WalkItems | engine/src/lifecycle.rs:1227-1312 | A walk that continues through some items has applied their whole unrolling under the arms now chosen, in order, and ends at their first number plus their leaf count. |
| Engine.Engine.WalkItem | engine/src/lifecycle.rs:1231-1306 | The same for one item of any kind, nested to any depth. |
| Engine.Engine.WalkLeaf | engine/src/lifecycle.rs:1298-1305 | A leaf already applied is skipped; any other is the next application. |
| Engine.Engine.WalkRepeat | engine/src/lifecycle.rs:1240-1257 | Every value of the list is walked in order from the same first leaf, whatever was applied before. |
| Engine.Engine.WalkWhen | engine/src/lifecycle.rs:1258-1297 | An arm is chosen once, and a walk that continues has applied that arm. |
| Engine.Engine.DecideArm | engine/src/lifecycle.rs:1264-1286 | The choice is persisted under the leaf number and nothing else changes; a guard that fails refuses. |
| Engine.Engine.WalkArm | engine/src/lifecycle.rs:1287-1296 | The chosen arm is walked and the other's numbers are passed over. |
| Engine.Engine.Choose | engine/src/lifecycle.rs:1282-1283 | One more arm is chosen, in hand and in the store. |
| Engine.Engine.Walk | engine/src/lifecycle.rs:1204-1224 | A walk from the plan's start comes to rest; approval and deadline stay; an instance not applying is left as it is. |
| Engine.Engine.EndWalk | engine/src/lifecycle.rs:1216-1224 | A walk that ran every leaf rests a temporary plan Applied, or is refused by the late arming; a plan clear of E0502 and E0505 gets there only where its repeats skip its `commit()`. |
| Engine.Engine.Admit | engine/src/lifecycle.rs:1148-1165 | Approved, the instance is applying, and a temporary plan's deadline is its wane from that instant, in hand and in the store. |
| Engine.Engine.CloseUnapproved | engine/src/gates.rs:191-250 | An instance nothing was applied for is Closed, in hand and in the store, and nothing else changes. |
| Engine.Engine.Wake | engine/src/lifecycle.rs:3057-3071 | Only a held instance is resumed: applying again, with what was applied. |
| Engine.Engine.TakeOver | engine/src/lifecycle.rs:3073-3097 | Only the deferred step of a Deferred instance is taken as done: it joins the applied, and the record in hand and in the store changes in nothing else. |
| Engine.Engine.Advance | engine/src/lifecycle.rs:2964-2970 | An instance applying is walked to rest, any other left as it is; one left with a step half done is walked all the same, and the run is then in doubt of the point it was entered at. |
| Engine.Engine.Recant | engine/src/lifecycle.rs:2972-2989 | Ends Closed with every applied step undone, last first, and nothing applied, or Stuck, or DriftHeld; one that is applying is refused. |
| Engine.Engine.Withdraw | engine/src/lifecycle.rs:2972-2989 | Only a DriftHeld instance is forced over its drift, and it is only taken back so; nothing else changes. |
| Engine.Engine.ConfirmVerb | engine/src/lifecycle.rs:3030-3039 | Confirming leaves the instance as it stood, its backstop disarmed. |
| Engine.Engine.Finish | engine/src/lifecycle.rs:3041-3055 | A terminal state without an undo, whose record else keeps everything but its backstop: cancelled only with nothing applied, committed only when permanent, never while applying. |
| Engine.Engine.Reap | engine/src/lifecycle.rs:3152-3361 | At or past its deadline, one error-free pass that is not settling leaves every approved temporary instance that had not ended Closed with nothing applied, Stuck or DriftHeld, whatever state it was in, applying with a step half done included; the doubt it may raise is of the point it was entered at. |
| Engine.Engine.ReapPending | engine/src/lifecycle.rs:3173-3226 | A pending instance is approved, left as it is, or closed for want of approval; it is never left applying. |
| Engine.Engine.ReapExpired | engine/src/lifecycle.rs:3254-3275 | Wane takes every bounded state of a temporary plan to Expired and through the revert, and leaves everything else untouched; the only doubt is of the point of the run it was entered at. |
| Engine.Engine.ReapAtRest | engine/src/lifecycle.rs:3276-3358 | A Stuck instance is retried to its end; one neither Stuck, Waiting nor Deferred is left as it is. |
| Engine.Engine.ReapWaiting | engine/src/lifecycle.rs:3283-3335 | A bound reached ends Held or undone; a wait with neither a bound reached nor a guard goes on untouched. |
| Engine.Engine.LeaveWaiting | engine/src/lifecycle.rs:3299-3329 | A satisfied wait leaves the instance ready to walk; a lapsed one, Held or Reverting. |
| Engine.Engine.Boot | engine/src/lifecycle.rs:3369-3523 | From any state: an instance found applying comes to rest refused over its applied and the step in flight, or its applied alone only where that was applied already or reads as before its `do`; from a state boot does not recover the run is in doubt of that point of its history and no other. |
| Engine.Engine.NeverTook | engine/src/lifecycle.rs:3412-3423 | Boot calls a step untaken only when what was read before its `do` reads the same, and then every fact it observes is clean. |
| Engine.Engine.BootDrops | engine/src/lifecycle.rs:3424-3451 | An untaken step is journaled and dropped, and the instance refused over its applied. |
| Engine.Engine.LetGo | engine/src/lifecycle.rs:3424-3439 | Dropping the attempt keeps the applied as they were; Held exactly when an earlier step holds. |
| Engine.Engine.OthersWrite | engine/src/lifecycle.rs:2603-2644 | Somebody else may write any fact an applied step may write; what is promised still holds. |
| Invariant.AttemptMayBegin | engine/src/lifecycle.rs:1737-1739 | The next application may be written ahead; nothing of it is touched and it has no marker. |
| Invariant.SnapshotKeeps | engine/src/lifecycle.rs:2358-2388 | A snapshot taken while the step is clean holds the value the request found. |
| Invariant.NextIsWrittenAhead | engine/src/lifecycle.rs:1737-1739 | A next application the store names in flight, with what was read of it kept, is not applied: its `do` may begin. |
| Invariant.DoKeepsInv | engine/src/lifecycle.rs:3525-3542 | A `do` stopped anywhere keeps every changed fact accounted for. |
| Invariant.AttemptMayBeMarked | engine/src/lifecycle.rs:1961-1979 | A step that ran, or whose undo failed, joins the applied with nothing half done. |
| Invariant.AttemptMayBeDropped | engine/src/lifecycle.rs:1915-1946 | A failed step whose facts are clean again leaves no trace. |
| Invariant.NotHeldBack | engine/src/lifecycle.rs:1915-1946 | The undo of a step that just failed is never held back for drift. |
| Invariant.PopKeeps | engine/src/lifecycle.rs:2505-2507 | Popping an application whose facts are clean keeps the invariant. |
| Invariant.HandoffMayBeMarked | engine/src/lifecycle.rs:3073-3097 | A handoff through the number honesty reaches keeps the invariant if its undo would lose nothing. |
| Invariant.InterruptedMayBeMarked | engine/src/lifecycle.rs:3432-3435 | Boot may count a snapshotted step in flight as applied. |
| Invariant.UntakenMayBeDropped | engine/src/lifecycle.rs:3424-3431 | Boot may drop a clean step in flight that left no marker. |
| Invariant.UntouchedMayExpire | engine/src/lifecycle.rs:3256-3266 | An instance left applying may expire with a step in flight that changed nothing. |
| Invariant.OthersMayWrite | engine/src/lifecycle.rs:2603-2644 | A write to a fact an applied step may write keeps every change accounted for, and the step in flight as it is known. |
| Invariant.AtRestMayStep | core/src/states.rs:178-286 | Every move the machine admits at rest keeps the invariant. |
| Invariant.RestoreBodyPutsInitial | engine/src/lifecycle.rs:3579-3616 | An honest, snapped step's restore body sets exactly its facts, each to its initial value. |
| Invariant.WalkedOutSkipsItsCommit | engine/src/lifecycle.rs:1204-1224 | A clean plan's whole unrolling is applied only where its repeats never come to its `commit()`. |
| Invariant.UntroubledIsCertain | engine/src/lifecycle.rs:2964-3523 | A history in which no verb was entered in a state the invariant does not survive, no step past the number was begun and no reserved fact changed to bytes of the same hash is in no doubt. |
| Invariant.CoveredAndDue | engine/src/lifecycle.rs:1396-1418 | Installing and arming when due protects the step. |
| Invariant.LeafIsNext | engine/src/lifecycle.rs:1298-1305 | A leaf a walk comes to is already applied, in step with the applied prefix, or it is the next. |
| Safety.FreshIsClean | engine/src/lifecycle.rs:1737-1739 | The next application of a settled record has touched nothing and left no marker. |
| Safety.UndoPutsBack | engine/src/lifecycle.rs:3579-3616 | Each entry's undo writes the value the request found. |
| Safety.NothingAppliedMeansRestored | engine/src/lifecycle.rs:2529-2547 | A safe record with nothing applied or in flight means every reserved fact is back. |
| Course.SkippedOrNext | engine/src/lifecycle.rs:271-275 | A leaf is skipped exactly when the applied prefix has it where the walk stands; else it is the next. |
| Course.AppliedOnce | engine/src/lifecycle.rs:271-275 | No application is applied twice. |
| Course.ChoiceKeepsCourse | engine/src/lifecycle.rs:1264-1286 | Choosing one more arm keeps what is applied a prefix of the unrolling. |
| Unrolling.UnrollContinues | engine/src/lifecycle.rs:1227-1312 | Deciding more arms only extends the unrolling. |
| Completion.ApplicationsAreIdentified | engine/src/lifecycle.rs:106-131 | With distinct list values and no rebound loop names, step and variables identify an application. |
| Completion.RepeatedStepIsIdentifiedIff | engine/src/lifecycle.rs:118-131 | Of a plan that is one repeated step: its applications have distinct keys exactly when the list has no value twice. |
| Identity.ApplicationsIdentifiedIff | engine/src/lifecycle.rs:118-131 | In any plan in which no loop rebinds an outer name, under any lists and arms, a key identifies an application exactly when no repeat that is run binds one value in two iterations whose body runs a leaf. |
| Completion.WholeRunCommits | core/src/intent.rs:99-118 | Run whole under any arms, a plan clear of E0502 and E0505 ran its `commit()` once for each iteration of the repeats around it: at all exactly when they iterate, last and only exactly when that is once and nothing ran after. |
| Completion.CountedRunCommits | core/src/intent.rs:99-118 | Where those repeats are `repeat(n)`, or there are none: it ran it exactly when every count is at least one, and ended in its only one exactly when every count is one. |
| Completion.RepeatMaySkipItsCommit | core/src/intent.rs:72-96 | With a `commit()` in a repeat that runs no iteration, E0502 and E0505 are clean and the plan ends without it. |
| Restoration.RestoresExactlyWhenSnapped | engine/src/lifecycle.rs:3579-3616 | From any world, a restore body brings back every fact the step observes if and only if each existing file it modifies was snapshotted. |
| Restoration.BootUndoesWhatNeverRan | engine/src/lifecycle.rs:3403-3451 | The engine dies with a step written ahead and not snapshotted: boot can only take it as applied, and where no earlier step holds it reverts, that step first. |
| Restoration.CrashBeforeTheSnapshotLosesTheFile | engine/src/lifecycle.rs:3599-3601 | The undo of such a step finds no drift to hold it, and removes every existing file the step modifies. |
| Restoration.TheWindowIsReached | engine/src/lifecycle.rs:1737-1739 | That state is one the invariant admits, over the world the request found, and one boot does not recover. |
| Restoration.SnapshotIsExactWhenTextIs | engine/src/lifecycle.rs:2384-2387 | A modified fact comes back as its bytes if and only if they survive the snapshot's text encoding. |
| Restoration.InFlightMayJoinIff | engine/src/lifecycle.rs:3432-3435 | Counting the step in flight as applied is safe if and only if it was snapshotted. |
| Restoration.SnapshotAgainIsRightIff | engine/src/lifecycle.rs:2352-2389 | A snapshot taken again holds what the request found if and only if the fact still reads so through its text encoding. |
| Restoration.HandoffMayJoinIff | engine/src/lifecycle.rs:3073-3097 | Taking a step done by hand as applied is safe if and only if its undo would lose nothing. |
| Restoration.ExpiringIsSafeIff | engine/src/lifecycle.rs:3256-3266 | Letting an instance left Applying expire is safe if and only if no step is in flight, it was applied already, or its facts read as the request found them. |
| Restoration.ExpiringLosesAHalfDoneStep | engine/src/lifecycle.rs:3256-3266 | One step that wrote its file and whose journal entry was refused, then wane: Expired, nothing to undo, Closed, the file still there. |
| Restoration.LettingGoIsSafeIff | engine/src/lifecycle.rs:3424-3431 | Letting the step in flight go is safe on the way to a revert if and only if its facts are clean, and into a hold if and only if it left no marker besides. |
| Restoration.BootLeavesTheMarker | engine/src/lifecycle.rs:3412-3451 | A step that changed nothing dies after its markers, under a hold: boot drops it, holds, and the marker stays. |
| Restoration.LeftoverMarkerLosesAFailedStep | engine/src/lifecycle.rs:1935-1946 | Resumed, its `do` writes the file and fails; its undo is held back by the old marker, which counts as undone, and no step answers for the file. |
| Restoration.AppendIsNotTakenBack | engine/src/lifecycle.rs:3611-3613 | One honest step appends to a reserved fact: its undo runs no primitive, meets no drift and succeeds, it is popped, the instance is closed, and the fact is not as found. |
| Footprint.RestoreBody | engine/src/lifecycle.rs:3579-3616 | The loop over the footprint builds the body entry by entry, or none when an entry cannot be restored. |
| Footprint.RestorePrimsFromEntries | engine/src/lifecycle.rs:3579-3616 | A restore body is, in order, one primitive for each entry that has an undo, and exists only if no entry is without a way to restore it. |
| Drifting.JudgedMeans | engine/src/footprint.rs:167-195 | A shape is held back exactly when it drifted, the policy defers and nothing forces it; gone over exactly when it drifted otherwise. |
| Drifting.JudgedWithMeans | engine/src/footprint.rs:167-195 | With regions: what holds an undo back is exactly what came away and defers, by policy or because others hold regions beside it; what it goes over is the rest of what came away. |
| Drifting.UndriftedIsUndone | engine/src/footprint.rs:167-195 | The judgement is empty exactly when no marked fact reads otherwise than it was marked. |
| Drifting.DriftedMeansMoved | engine/src/lifecycle.rs:2607-2613 | Against the markers its `do` left, a fact has drifted exactly when its digest moved since. |
| States.TransitionKeepsIntent | core/src/states.rs:178-286 | No event takes a temporary plan to Committed, nor a permanent one to Applied, Suspended or Expired. |
| Backstops.CleanReachMeans | core/src/backstop.rs:47-63 | Under a clean reach rule, a step that may sever a transport is numbered past where the backstop is installed and armed. |
| Backstops.CoveredMeans | core/src/backstop.rs:33-43 | A covered step is numbered at or past the first covered one. |
| Backstops.FillSchedule | engine/src/backstop.rs:66-83 | The loop over the triggers fills the schedule they define. |
| Backstops.ScheduleMeans | engine/src/backstop.rs:66-83 | The schedule has a deadline exactly when a trigger sets one. |
| Backstops.ThreeBeatsPerDeadline | core/src/backstop.rs:138-148 | A heartbeat rule that is clean leaves room for three beats before its deadline. |
| Interference.WrittenMeans | core/src/interference.rs:79-88 | Umbra and penumbra are exactly the written entries whose shape is static, or bound at runtime. |
| Interference.OverlapMeans | core/src/interference.rs:134-140 | Shapes overlap exactly when equal if both static, else when one static part begins the other; and symmetrically. |
| Interference.OverlapMissesNothing | core/src/interference.rs:134-140 | Two shapes that may name one thing overlap. |
| Interference.CollectSteps | core/src/interference.rs:179-233 | The traversal with a counter pushes exactly the steps, with their numbers and loop variables. |
| Interference.QueryNumbersAsThePlan | core/src/interference.rs:179-233 | Each step is one leaf of the query under the number and op `numbered` gives it; none is missed and they rise. |
| Siblings.CollectPars | core/src/interference.rs:413-462 | The loop that ends at the first `par` collects every group the recursion does. |
| Siblings.EachPair | core/src/interference.rs:386-400 | The nested loops visit every pair across two children of a group. |
| Siblings.FindParSiblings | core/src/interference.rs:386-400 | Computes the sibling pairs. |
| Siblings.FindParOverlaps | core/src/interference.rs:350-375 | Computes the overlapping pairs. |
| Siblings.CollectParsMissesNothing | core/src/interference.rs:386-400 | A pair is a sibling pair if and only if both are steps and some `par`, at any depth, has them under different children; the earlier one first. |
| Siblings.OverlapsAreSiblings | core/src/interference.rs:350-375 | E0303 is exactly the sibling pairs whose umbras overlap. |
| Conflicts.FindOrderedPairs | core/src/interference.rs:251-264 | The two loops push every pair that is ordered, in leaf order. |
| Conflicts.OrderedPairsMean | core/src/interference.rs:251-264 | A pair is ordered exactly when one leaf comes before the other and they are no siblings. |
| Conflicts.FindConflicts | core/src/interference.rs:269-294 | The nested loops push the conflicts in order, first occurrence kept. |
| Conflicts.ConflictsMean | core/src/interference.rs:269-294 | E0301 is exactly the facts an earlier step writes and its undo needs that a later one, ordered after it on the same static host, touches. |
| Conflicts.FindMayConflicts | core/src/interference.rs:298-337 | The nested loops push the possible conflicts in order, first occurrence kept. |
| Conflicts.MayConflictsMean | core/src/interference.rs:298-337 | E0302 is exactly the same with a side bound at runtime, by shape or by host. |
| Conflicts.NothingIsMissed | core/src/interference.rs:269-337 | Whatever a later step may write that touches a fact an earlier `:restore` puts back is reported by one query or the other. |
| Conflicts.StaticPlansHaveNoMaybe | core/src/interference.rs:298-337 | A plan of static shapes and hosts has no possible conflict that is not definite. |
| Conflicts.FindAnchorDuplicates | core/src/interference.rs:466-501 | The nested loops push the duplicates in order, first occurrence kept. |
| Conflicts.AnchorDuplicatesMean | core/src/interference.rs:466-501 | E0305 is exactly the anchored regions two steps of overlapping hosts share. |
| Probes.ObservedProbes | core/src/check.rs:88-145 | One counter, moved by leaves alone, numbers every probe and ends past the last leaf. |
| Probes.ProbesAreNumbered | core/src/check.rs:88-145 | A probe is reported at a step exactly when the leaf `numbered` gives that number observes it, or a `when` asks it there. |
| Checker.OrderedDoNotTouch | core/src/interference.rs:269-294 | Ordered plain steps of a clean plan write facts that do not touch. |
| Checker.SiblingsDoNotTouch | core/src/interference.rs:341-346 | Nor do steps under different children of one `par`. |
| Checker.CleanStepsDoNotTouch | core/src/check.rs:292-298 | Any two plain steps of a plan clear of E0301, E0303 and E0305 write facts that do not touch, ordered or under one `par`, regions by anchor. |
| Checker.ReportedConflictsMean | core/src/check.rs:292-298 | What E0301 reports is exactly the conflicts E0305 does not. |
| Checker.CleanQueryIsHonest | core/src/check.rs:292-298 | Where a repeat-free plan clears E0301, E0303 and E0305, its plain, honestly declared steps up to a number are ones the engine's theorem holds for, whatever comes after: what one observes no other writes, nor itself as a fact it does not observe. |
| Checker.ReportedThroughIsHonest | core/src/check.rs:300-310 | The `reversible_through` the verdict reports, with a knell or without, conflicts or none, is a number the engine's theorem holds through. |
| Checker.RepeatFreeIsIdentified | engine/src/lifecycle.rs:271-275 | A plan without repeats has no application twice in an unrolling. |
| Checker.PastIsFromTheKnell | core/src/check.rs:300-310 | A step past a clean verdict's number is the first knell or comes after it: without a knell there is none. |
| Verdict.Run | core/src/check.rs:292-310 | A repeat-free plan the checker passes, its steps through the reported number plain and honestly declared, run in any way: closed with nothing applied, every reserved fact is back but those a step writes and does not observe, and every one where no step's footprint has such an entry, unless the run's own history holds the evidence of a doubt; a step past the number was announced only at the first knell or after it. |
| Verdict.DistinctListsIdentify | engine/src/lifecycle.rs:118-131 | With distinct list values and no rebound loop names, no application is twice in an unrolling, whatever the plan's undos are. |
| Soundness.UndoneIs | engine/src/lifecycle.rs:3579-3616 | One undo puts every fact the step observes back and leaves every other fact alone. |
| Soundness.AnySubsetInAnyOrder | engine/src/lifecycle.rs:2462-2548 | Undoing some steps of a run in any order restores exactly their facts and leaves the others' as `do` left them. |
| Soundness.NoStepFindsDrift | engine/src/lifecycle.rs:2556-2680 | Whatever was undone before it, a step's undo judges no fact drifted, under any policy. |
| Soundness.UndoingAllRestoresTheWorld | engine/src/lifecycle.rs:2462-2548 | Undoing every step, in any order, puts back every fact some step observes and leaves every other as it was; so it restores the world exactly when every fact no step observes was left as found. |
| Soundness.AlwaysRestoredIff | engine/src/lifecycle.rs:3611-3613 | The undo of everything restores the world whatever the `do`s wrote if and only if no step that ran has an entry it may write, append-only or held, that no entry of its footprint observes. |
| Soundness.RetractableMeans | core/src/interference.rs:72-77 | A footprint has no such entry exactly when every fact it may write is one it observes. |
| Soundness.NothingIsLooseIff | core/src/interference.rs:72-77 | Nothing is written past every undo exactly when each planned step up to a number has such a footprint. |
| Soundness.CleanVerdictIsCorrect | core/src/check.rs:292-298 | Of a clean, repeat-free plan run under any arms to any point before the steps past a number, those up to it plain and honestly declared, each `do` having written any of its declared facts, the undo in any order of everything that ran puts back every fact the steps observe and leaves every other as the run left it: the world is as the request found it exactly when those were left as found. |
| Soundness.CleanVerdictRestoresIff | engine/src/lifecycle.rs:3611-3613 | So the undo of a clean plan restores the world whatever its `do`s wrote if and only if no step that ran has such an entry. |
| Soundness.AppendStepIsCleared | core/src/check.rs:292-310 | A plan of one step that appends to a file the ledger reserves is one the checker passes. |
| Soundness.CleanVerdictMeetsNoDrift | engine/src/lifecycle.rs:2556-2680 | And no step of it finds drift, whichever steps were undone before it. |
| Algebra.CollectLeaves | core/src/algebra.rs:112-127 | The shared vector is extended by the leaves in execution order. |
| Algebra.LeafCountIsLeaves | core/src/interference.rs:166-176 | The query's own count is the number of leaves. |
| Algebra.ReverseRefusesExactlyKnells | core/src/algebra.rs:89-91 | Reversal succeeds exactly on knell-free plans, and keeps them knell-free. |
| Algebra.ReverseAntiDistributes | core/src/algebra.rs:89-91 | Reversal anti-distributes over append. |
| Algebra.ReverseIsAnInvolution | core/src/algebra.rs:89-91 | Reversing twice gives the plan back. |
| Algebra.ReverseFromStopsAtTheFirstKnell | core/src/algebra.rs:94-97 | `reverse_from(k)` succeeds exactly when no knell is among the first k leaves. |
| Algebra.ReversibleThroughIsReversible | core/src/check.rs:300-310 | The number the verdict reports as reversible through is one `reverse_from` succeeds at. |
| Intent.EnumeratePaths | core/src/intent.rs:72-96 | The loop that rebuilds the accumulator enumerates the paths. |
| Intent.PathsAreTheWalks | core/src/intent.rs:72-96 | The enumerated paths are exactly the walks through the plan, one arm of each `when`. |
| Intent.ReversalActsPathByPath | core/src/intent.rs:72-96 | The paths of a reversed knell-free, par-free plan are the reversed, flipped paths of the plan. |
| Intent.CleanCommitMeans | core/src/intent.rs:99-118 | E0502 and E0505 are clean exactly when every path ends in its only `commit()`. |
| Intent.CommitReachableMeansOnSomePath | core/src/intent.rs:51-59 | `commit()` is reachable exactly when some path has it. |
| Intent.IntentDecidesCommit | core/src/intent.rs:18-34 | A clean permanent plan commits on every path, once and last; a temporary one on none. |
| Gates.EnumeratePaths | core/src/gates.rs:91-137 | The loop over bitmasks enumerates the paths of every subset that counts; neither mask nor weight sum wraps. |
| Gates.EnumerateProduct | core/src/gates.rs:113-130 | The product over the chosen factors, last to first. |
| Gates.EverySubsetIsTried | core/src/gates.rs:91-137 | A path is enumerated exactly when some subset that reaches the threshold with nothing to spare has it. |
| Gates.SomeSubsetCounts | core/src/gates.rs:100-112 | Any subset that reaches the threshold has one inside it that the enumeration keeps. |
| Gates.SatisfiedMeansTheThreshold | core/src/gates.rs:157-167 | `satisfied` holds exactly when the recursive weighted threshold is met. |
| Gates.SatisfiedGrows | core/src/gates.rs:157-167 | More proofs and more time never close a gate. |
| Gates.SatisfiedFromItsInstant | core/src/gates.rs:173-183 | A gate is satisfied at an instant exactly when `satisfiable_at` gave one no later. |
| Gates.UncountedRequesterAddsNothing | core/src/gates.rs:211-227 | Where the requester is not counted, the requester's own proof never changes the answer. |
| GateReport.MinDistinctHumansIsExact | core/src/gates.rs:139-151 | With distinct ids: none exactly when nothing satisfies the gate, else every satisfying set has that many humans and one has exactly as many. |
| GateReport.ZeroHumanPathIsExact | core/src/gates.rs:139-151 | With distinct ids: reported exactly when proofs no human gave, and time enough, satisfy the gate. |
| GateReport.WaitAloneMayNeedAMachine | core/src/gates.rs:145-149 | A gate reported to open by waiting alone that never does: a machine still has to prove. |
| GateReport.WaitAloneOpensIff | core/src/gates.rs:145-149 | The instant reported is never late, and is the instant the gate opens by waiting alone exactly when the waits over by then reach the threshold with nobody proving, by a recursion over the gate that enumerates nothing. |
| GateReport.UnprovedIsByWaits | core/src/gates.rs:95-137 | With no proof at all the threshold is met exactly by elapsed waits. |
| GateReport.WaitAloneIsExactAmongHumans | core/src/gates.rs:145-149 | Where no machine is published the report is right, and no earlier unless the gate opens at once. |
| Approvals.Approvals.Accept | engine/src/gates.rs:412-428 | A verified proof is recorded once a scope and authenticator. |
| Approvals.Approvals.ContractChanged | engine/src/gates.rs:191-250 | A changed host contract takes every proof of a pending or applying instance with it, closes the first and refuses the second; elsewhere nothing is kept of it. |
| Approvals.Approvals.GateOpen | engine/src/gates.rs:314-336 | Open exactly when the threshold is met by authenticators whose proofs verified in that very scope since the contract last changed, or the binding approves everything. |
| Approvals.Approvals.ApproveProof | engine/src/gates.rs:368-442 | The contract is looked at first; then an instance goes forward exactly when the gate of the proof's own scope, in its own standing, is now open; a refused proof changes nothing. |
| Approvals.OtherScopesAddNothing | engine/src/gates.rs:304-310 | A proof in one scope opens nothing in another. |
| Canon.Encoder.Write | core/src/canon.rs:22-97 | Every value appends its canonical bytes to the one buffer, whatever was there. |
| Canon.Encoder.WriteOctets | core/src/canon.rs:66-71 | Tag, length, bytes, appended. |
| Canon.Encoder.WriteAll | core/src/canon.rs:77-84 | Elements are appended in order. |
| Canon.WriteMessage | core/src/canon.rs:143-148 | Domain, then value. |
| Canon.PrefixFree | core/src/canon.rs:1-20 | Two values of one type whose bytes agree up to whatever follows are one value, and end in one place. |
| Canon.FieldsPrefixFree | core/src/canon.rs:88-91 | Records agree on how many fields they have, whatever their types, and on the fields where the types agree. |
| Canon.MessagesInjective | core/src/canon.rs:143-148 | A message's bytes decide its domain and its value. |
| Canon.TwoValuesEncodeAlike | core/src/canon.rs:1-20 | Without types two different values of three fields have one encoding. |
| Journal.BodyBytesInjective | core/src/journal.rs:221-238 | An entry's canonical bytes decide every field they cover. |
| Journal.Verify | core/src/journal.rs:317-344 | The one pass accepts exactly the chains that link from genesis, and reports the first fault of any other. |
| Journal.AppendKeepsTheChain | core/src/journal.rs:250-277 | Appending keeps a chain verifying, whatever signature fills the slot. |
| Journal.SameHeadSameHistory | core/src/journal.rs:317-344 | Two chains that verify and end in one hash agree in length and in every hashed field at every position, or two byte strings with one hash are found. |
| Journal.Journal.Record | engine/src/journal.rs:140-175 | Acknowledged by every sink, the entry is the one thing added; refused, the entry and at most the refusal after it; the chain verifies either way. |
| Journal.Journal.Next | engine/src/journal.rs:112-133 | The next entry extends the chain. |
| Journal.Journal.Keep | engine/src/journal.rs:150-153 | The store has the entry before any sink does; a refused store changes nothing. |
| Journal.Journal.DeliverAll | engine/src/journal.rs:177-185 | Every sink is asked; one that never refused holds everything recorded since the journal was opened. |
| Requests.RequestBytesInjective | core/src/request.rs:56-58 | A request's canonical bytes decide every field of it. |
| Requests.ScopedDigestsBind | core/src/request.rs:64-79 | Digests of two different pairs of request and scope coincide only where the hash collides, on byte strings this finds. |
| Ledger.AdmittedIff | core/src/ledger.rs:50-74 | Admitted exactly when a rehearsal, or clashing with no holding on its host by class or umbra. |
| Ledger.RequestKeepsSeparate | core/src/ledger.rs:50-74 | No two holdings on one host clash, after a request. |
| Ledger.ReleaseKeepsSeparate | core/src/ledger.rs:77-81 | Nor after a release. |
| Ledger.WithoutMeans | core/src/ledger.rs:77-81 | A release removes exactly the reservations under its id. |
| Ledger.ReadmissionNeverRefuses | engine/src/store.rs:234-252 | Reading a ledger back from the store never refuses and gives the same ledger. |
| Ledger.LedgerSeesEqualShapesOnly | core/src/ledger.rs:34-42 | What the ledger calls touching the query does too; the query sees more exactly where a shape is bound at runtime. |
| Ledger.PrefixOverlapIsAdmitted | core/src/ledger.rs:34-42 | Two instances the query would call overlapping, both admitted. |
| Ledger.Registry.Apply | engine/src/lifecycle.rs:1083-1127 | Every host's umbra is reserved or none is; a ledger that held exactly what live instances reserved still does; a refusal leaves its record Checked. |
| Ledger.Registry.Reserve | engine/src/lifecycle.rs:1101-1118 | The requests of a copy of the ledger all go through, or nothing comes of them. |
| Ledger.Registry.Move | engine/src/lifecycle.rs:1168-1198 | A change of state short of the end changes no reservation. |
| Ledger.Registry.Finish | engine/src/lifecycle.rs:2682-2687 | Ending a live instance releases exactly what stands under its ids; the ledger is then still what live instances reserved if and only if no other live instance reserved under one of them. |
| Ledger.LidsCoincideIff | engine/src/lifecycle.rs:1104 | Two pairs of instance and host share a reservation's id exactly when they are the same, or one host's name ends in the separator and the other's. |
| Ledger.FinishedReservesIff | engine/src/lifecycle.rs:1104 | Taking an instance's ids out takes its own reservations alone exactly when it is apart from the others. |
| Ledger.RefusedRequestKeepsItsId | engine/src/lifecycle.rs:1088-1098 | After a request the ledger refused, and any verbs since on any instances, the same plan is refused again, for the Checked record the first left. |
| Diagnostics.Distance | core/src/diagnostics.rs:233-246 | The two-row loop computes the recursive Levenshtein distance. |
| Diagnostics.ZeroOnlyOnEqual | core/src/diagnostics.rs:233-246 | Zero exactly on equal strings. |
| Diagnostics.Symmetric | core/src/diagnostics.rs:233-246 | Symmetric. |
| Diagnostics.Triangle | core/src/diagnostics.rs:233-246 | The triangle inequality. |
| Diagnostics.Nearest | core/src/diagnostics.rs:250-259 | The first candidate at the least distance, exactly when one is within two. |
| Shapes.BindShape | core/src/model.rs:665-700 | The loop takes one binder a turn and ends, with what the recursion binds. |
| Shapes.BoundShapeIsRebuilt | core/src/model.rs:665-700 | With distinct names, what is bound is exactly the pattern's names, each to some text, and filling them in rebuilds the shape. |
| Shapes.RepeatedNameIsRebuiltIff | core/src/model.rs:665-700 | Where one name is bound twice the later text is kept: the shape is rebuilt exactly when both are the same. |
| Shapes.BindsIff | core/src/model.rs:665-700 | A shape is bound exactly when some texts in place of the binders rebuild it, none empty, none next to another, and none holding an earlier fit of the literal after it. |
| Shapes.LaterFitIsNotTried | core/src/model.rs:665-700 | A shape the pattern rebuilds may be refused: a later fit of a literal is not tried. |

## Left out

- Regions in the engine's theorem: a region's strip, whether it is intact and who else holds a region beside it are arbitrary answers in `Engine.Engine.Judge`, and `Safety.HonestThrough` admits no observed region among the steps whose facts are promised. The query's results do cover regions, by anchor.
- Computed and compensating undo bodies: an undo body that is not `:restore` is arbitrary, and `Safety.HonestThrough` admits none among the steps whose facts are promised.
- Held resources: what a release undoes is the executor's, and a fact named by a held entry alone is one the theorem does not say is back. `suspend` and `reestablish`, `renew` and `backstop_rearm` are not modelled.
- Compensating appends: an append-only fact is left as `do` left it, as the source's restore body leaves it.
- Writes outside what a footprint declares, and to its derived facts: a `do` that makes them breaks its declaration.
- `backstop_read_fired` and the artifact that fires on its target: it removes steps from the middle of the applied, so the prefix results do not hold across it.
- What the target's clock, scheduler and files answer while the backstop is installed, armed or disarmed: arbitrary.
- The facts watched outside a step's footprint (`watched`, `changed_facts`): whether one changed or could not be read is arbitrary.
- Hosts and shapes bound at runtime in the engine: a step on such a host is deferred, and has no facts in the model.
- Lists read from probes or outputs: a list is a function of the outer variables, as a parameter is.
- Secrets, staged files, outputs, instance directories, notification, settling's own bookkeeping and the journal's texts inside the engine: left out, or an arbitrary refusal where the source may refuse.
- Rehearsals in the engine: a rehearsal calls no executor; the ledger's treatment of them is modelled.
- Several instances at once: the engine is over one instance; the ledger's registry is over many, without crashes or refused writes. A crash between a terminal state and its release keeps the reservation.
- Integer widths: the engine's instants, counters and leaf numbers are unbounded. The gate enumeration asks for what keeps its mask and sum from wrapping, and the encoding carries its 64-bit bounds.
- Texts in the encoding are their UTF-8 bytes, and a literal name's bytes are its ASCII codes.
- JSON, SHA-256, signatures and nonces: parameters, or part of the bytes a caller gives.
- Transports, shells, sockets, the command line, `doctor`, `drill`, `canary`, reconcile and reclaim.
- The rest of `check`: verdict text, explanations, hooks, segments and the rules over guards and sites would add only easy members.
- Engine.Engine.OthersWrite: others write between verbs only, never inside one, and only facts an applied step may write; a write to any other reserved fact is theirs to answer for.
- Engine.Engine.HandoffDone: what the hand wrote is whatever others write to the step's facts once it is applied; what a hand leaves of a step it never reports done is not modelled.
- Checker.CleanQueryIsHonest: is for repeat-free plans of static shapes and hosts, since iterations of one loop and runtime-bound names are apart only by what is bound at runtime.
- Completion.RepeatedStepIsIdentifiedIff: is of one repeated step alone; Identity.ApplicationsIdentifiedIff is of whole plans.
- Shapes.RepeatedNameIsRebuiltIff: is where one name is bound twice; bound three times, different texts may still rebuild the shape, as `p`, `p-p-p` and `p-p` do for `{a}-{a}+{a}`.
