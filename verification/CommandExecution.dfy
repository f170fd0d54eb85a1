/**
 Any number of concurrent executors over one project log: the idempotency lookup, the version
 check, the commit under the writer lock, the rescan after losing, and recovery, one file-system
 observation at a time. A directory scan is not atomic: it may return any set of files between
 what existed when it began and what exists when it ends.
 */
module CommandExecution {
  import opened Wrappers
  import opened ProjectTypes
  import opened ProjectLog

  datatype Goal = Execute(request: Request) | Recover(command_id: Id)

  /** Where a call stands; `floor` is what existed when its latest directory scan began. */
  datatype Call =
    | Looking(goal: Goal, floor: set<Transaction>)
    | Built(request: Request, seen: set<Transaction>, built: Transaction)
    | Holding(request: Request, seen: set<Transaction>, built: Transaction)
    | Checked(request: Request, seen: set<Transaction>, built: Transaction)
    | Published(request: Request, seen: set<Transaction>, built: Transaction)
    | Lost(request: Request, floor: set<Transaction>)
    | Returning(goal: Goal, answer: Transaction, floor: set<Transaction>)
    | Returned(goal: Goal, answer: Transaction)
    | Failed
    | Dead

  type Caller = nat

  datatype State = State(files: set<Transaction>, lock: Option<Caller>, calls: map<Caller, Call>)

  datatype Step =
    | Begin(caller: Caller, goal: Goal)
    | Look(caller: Caller, seen: set<Transaction>, recorded_at: Millis, events: seq<Event>)
    | Acquire(caller: Caller)
    | GiveUp(caller: Caller)
    | Check(caller: Caller)
    | Publish(caller: Caller)
    | Confirm(caller: Caller)
    | Rescan(caller: Caller, seen: set<Transaction>)
    | Materialize(caller: Caller, seen: set<Transaction>)
    | Fault(caller: Caller)
    | Crash(caller: Caller)
    | Reap(caller: Caller)

  function ScopeOf(t: Transaction): Scope {
    Scope(t.project_id, t.principal_id, t.command_name, t.idempotency_key)
  }

  function Build(r: Request, recorded_at: Millis, events: seq<Event>): Transaction {
    Transaction(r.command_id, r.command_version, r.scope.command_name, r.scope.principal_id, r.scope.project_id,
                r.scope.idempotency_key, r.input_digest, r.expected, recorded_at, events)
  }

  // ---------- Decisions ----------

  datatype Lookup = Missing | Found(transaction: Transaction) | Duplicate

  ghost function Sole(matches: set<Transaction>): Lookup {
    if matches == {} then Missing
    else
      var t :| t in matches;
      if matches == {t} then Found(t) else Duplicate
  }

  ghost function FindIdempotent(files: set<Transaction>, scope: Scope): Lookup {
    Sole(set t | t in files && ScopeOf(t) == scope)
  }

  predicate SameInput(t: Transaction, r: Request) {
    t.input_digest == r.input_digest && t.command_version == r.command_version
  }

  ghost predicate Complete(address: Addressing, files: set<Transaction>) {
    Reduce(address, ProjectLog.Scan(files, {})).complete
  }

  ghost function Watermark(address: Addressing, files: set<Transaction>): Option<Digest> {
    Reduce(address, ProjectLog.Scan(files, {})).watermark
  }

  ghost function Decide(address: Addressing, r: Request, files: set<Transaction>, step: Step): Call
    requires step.Look?
  {
    match FindIdempotent(step.seen, r.scope)
    case Duplicate => Failed
    case Found(t) => if SameInput(t, r) then Returning(Execute(r), t, files) else Failed
    case Missing =>
      if Complete(address, step.seen) && Watermark(address, step.seen) == r.expected
      then Built(r, step.seen, Build(r, step.recorded_at, step.events))
      else Failed
  }

  ghost function DecideRecovery(command_id: Id, files: set<Transaction>, seen: set<Transaction>): Call {
    match Sole(set t | t in seen && t.command_id == command_id)
    case Found(t) => Returning(Recover(command_id), t, files)
    case _ => Failed
  }

  /** After a conflict: the winner of the request's own scope, or the conflict itself. */
  ghost function DecideLost(r: Request, files: set<Transaction>, seen: set<Transaction>): Call {
    match FindIdempotent(seen, r.scope)
    case Found(t) => if SameInput(t, r) then Returning(Execute(r), t, files) else Failed
    case _ => Failed
  }

  ghost predicate CanMaterialize(address: Addressing, seen: set<Transaction>, t: Transaction) {
    Complete(address, seen) && ProjectionAtTransaction(address, ProjectLog.Scan(seen, {}), t).Some?
  }

  // ---------- Steps ----------

  function Move(s: State, c: Caller, call: Call): State {
    s.(calls := s.calls[c := call])
  }

  function Unlock(s: State, c: Caller): State {
    if s.lock == Some(c) then s.(lock := None) else s
  }

  ghost function CheckStep(address: Addressing, s: State, c: Caller, call: Call): State
    requires call.Holding?
  {
    var observed := Watermark(address, s.files);
    if Complete(address, s.files) && (observed == Some(address(call.built)) || observed == call.request.expected)
    then Move(s, c, Checked(call.request, call.seen, call.built))
    else Move(Unlock(s, c), c, Lost(call.request, s.files))
  }

  ghost function ConfirmStep(address: Addressing, s: State, c: Caller, call: Call): State
    requires call.Published?
  {
    if !Complete(address, s.files) then Move(Unlock(s, c), c, Lost(call.request, s.files))
    else if Watermark(address, s.files) != Some(address(call.built)) then Move(Unlock(s, c), c, Failed)
    else Move(Unlock(s, c), c, Returning(Execute(call.request), call.built, s.files))
  }

  ghost predicate Between(floor: set<Transaction>, seen: set<Transaction>, files: set<Transaction>) {
    floor <= seen && seen <= files
  }

  /** One step of one call; a step that is not enabled changes nothing. */
  ghost function Next(address: Addressing, s: State, step: Step): State {
    var c := step.caller;
    if step.Begin? then
      if c in s.calls then s else Move(s, c, Looking(step.goal, s.files))
    else if c !in s.calls then s
    else
      var call := s.calls[c];
      match step
      case Look(_, seen, _, _) =>
        if call.Looking? && Between(call.floor, seen, s.files) then
          match call.goal
          case Execute(r) => Move(s, c, Decide(address, r, s.files, step))
          case Recover(id) => Move(s, c, DecideRecovery(id, s.files, seen))
        else s
      case Acquire(_) =>
        if call.Built? && s.lock.None? then Move(s.(lock := Some(c)), c, Holding(call.request, call.seen, call.built))
          else s
      case GiveUp(_) => if call.Built? then Move(s, c, Lost(call.request, s.files)) else s
      case Check(_) => if call.Holding? then CheckStep(address, s, c, call) else s
      case Publish(_) =>
        if call.Checked?
        then Move(s.(files := s.files + {call.built}), c, Published(call.request, call.seen, call.built))
        else s
      case Confirm(_) => if call.Published? then ConfirmStep(address, s, c, call) else s
      case Rescan(_, seen) =>
        if call.Lost? && Between(call.floor, seen, s.files) then Move(s, c, DecideLost(call.request, s.files, seen))
          else s
      case Materialize(_, seen) =>
        if call.Returning? && Between(call.floor, seen, s.files)
        then Move(s, c, if CanMaterialize(address, seen, call.answer) then Returned(call.goal, call.answer) else Failed)
        else s
      case Fault(_) => if call.Returned? || call.Dead? then s else Move(Unlock(s, c), c, Failed)
      case Crash(_) => if call.Returned? || call.Failed? then s else Move(s, c, Dead)
      case Reap(_) => if call.Dead? then Unlock(s, c) else s
  }

  ghost function Run(address: Addressing, s: State, steps: seq<Step>): State
    decreases |steps|
  {
    if steps == [] then s else Run(address, Next(address, s, steps[0]), steps[1..])
  }

  ghost function Start(log: seq<Transaction>): State {
    State(Files(log), None, map[])
  }
}
