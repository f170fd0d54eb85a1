/**
 The executors of `CommandExecution` taken apart at the boundaries at which a process can be made
 to die: what stands on disk besides the published files, and what has been handed to the outbox.
 Every act is one step of the executors or none at all, so all that holds of them holds here.
 */
module CrashMachine {
  import opened Wrappers
  import opened ProjectTypes
  import ProjectLog
  import opened CommandExecution
  import CommandBuild
  import CommandOutcome

  datatype Boundary =
    | BeforeAuthorization | AfterValidation | BeforeCommit
    | AfterLockAcquired | AfterSnapshot | BeforeTempWrite | AfterTempWrite | AfterFileSync | AfterPublish
    | AfterDirectorySync | AfterTransactionPublish | AfterProjection | AfterCommit
    | BeforeEffect(k: nat) | AfterEffect(k: nat) | BeforeReceipt

  /** A staging file; it is empty until its bytes are written. */
  datatype Temp = Temp(owner: Caller, transaction: Transaction, whole: bool)

  /** The latest boundary a running call has passed, and what it saw when it validated. */
  datatype Place = Place(boundary: Boundary, scanned: set<Transaction>)

  /** Some call has handed an effect to the outbox, whatever came of it. */
  datatype Offer = Offer(caller: Caller, key: string)

  datatype Machine = Machine(
    core: State, at: map<Caller, Place>, temps: set<Temp>, synced: set<Transaction>,
    linked_by: map<Transaction, Caller>, ledger: CommandOutcome.Ledger, offers: set<Offer>)

  datatype Act =
    | Enter(caller: Caller, goal: Goal)
    | Settle(caller: Caller, seen: set<Transaction>)
    | Validate(caller: Caller, seen: set<Transaction>)
    | Plan(caller: Caller, recorded_at: Millis, events: seq<Event>)
    | TakeLock(caller: Caller)
    | Abandon(caller: Caller)
    | Snapshot(caller: Caller)
    | Compare(caller: Caller)
    | OpenTemp(caller: Caller)
    | WriteTemp(caller: Caller)
    | SyncTemp(caller: Caller)
    | Link(caller: Caller)
    | SyncFolder(caller: Caller)
    | CleanUp(caller: Caller)
    | Project(caller: Caller)
    | Conclude(caller: Caller)
    | LookAgain(caller: Caller, seen: set<Transaction>)
    | Load(caller: Caller, seen: set<Transaction>)
    | Dispatch(caller: Caller, weather: CommandOutcome.Weather)
    | NextEffect(caller: Caller)
    | Finish(caller: Caller)
    | Throw(caller: Caller)
    | Die(caller: Caller)
    | ReapLock(caller: Caller)

  // ---------- Reading the state ----------

  predicate Standing(m: Machine, c: Caller, b: Boundary) {
    c in m.at && c in m.core.calls && m.at[c].boundary == b
  }

  predicate Reading(m: Machine, c: Caller, b: Boundary) {
    Standing(m, c, b) && m.core.calls[c].Looking?
  }

  predicate Committing(m: Machine, c: Caller, b: Boundary) {
    Standing(m, c, b) && m.core.calls[c].Checked?
  }

  predicate Confirming(m: Machine, c: Caller, b: Boundary) {
    Standing(m, c, b) && m.core.calls[c].Published?
  }

  predicate Delivering(m: Machine, c: Caller) {
    c in m.at && c in m.core.calls && m.core.calls[c].Returned?
  }

  function EffectsOf(t: Transaction): seq<Effect> {
    match CommandBuild.ExtractEffects(t)
    case Ok(effects) => effects
    case Err(_) => []
  }

  /** Its lifecycle and effects can be read back, without which nothing of it is dispatched. */
  predicate Readable(t: Transaction) {
    CommandBuild.LifecycleOf(t).Ok? && CommandBuild.ExtractEffects(t).Ok?
  }

  /** Files whose digests begin with the same byte share a directory. */
  function Folder(digest: Digest): string {
    var prefix := |"sha256:"|;
    if |digest| < prefix + 2 then digest else digest[prefix..prefix + 2]
  }

  // ---------- Guards ----------

  /** A scan that settles the call at once: a replay, a refusal, or a recovery. */
  ghost predicate Settles(address: Addressing, goal: Goal, seen: set<Transaction>) {
    match goal
    case Execute(r) => FindIdempotent(seen, r.scope) != Missing || !Complete(address, seen)
    case Recover(_) => true
  }

  ghost predicate Validates(address: Addressing, m: Machine, c: Caller, seen: set<Transaction>) {
    && Reading(m, c, BeforeAuthorization) && Between(m.core.calls[c].floor, seen, m.core.files)
    && !Settles(address, m.core.calls[c].goal, seen)
  }

  ghost predicate Projects(address: Addressing, m: Machine, c: Caller) {
    && Confirming(m, c, AfterTransactionPublish) && Complete(address, m.core.files)
    && Watermark(address, m.core.files) == Some(address(m.core.calls[c].built))
  }

  /** The step of the executors an act takes, if it takes one. */
  ghost function CoreStep(address: Addressing, m: Machine, act: Act): Option<Step> {
    var c := act.caller;
    match act
    case Enter(_, goal) => if c in m.core.calls then None else Some(Begin(c, goal))
    case Settle(_, seen) =>
      if Reading(m, c, BeforeAuthorization) && Settles(address, m.core.calls[c].goal, seen)
        then Some(Look(c, seen, 0, [])) else None
    case Plan(_, recorded_at, events) =>
      if Reading(m, c, AfterValidation) then Some(Look(c, m.at[c].scanned, recorded_at, events)) else None
    case TakeLock(_) => if Standing(m, c, BeforeCommit) then Some(Acquire(c)) else None
    case Abandon(_) => if Standing(m, c, BeforeCommit) then Some(GiveUp(c)) else None
    case Compare(_) =>
      if Standing(m, c, AfterSnapshot) || (Standing(m, c, AfterLockAcquired) && !Complete(address, m.core.files))
      then Some(Check(c)) else None
    case Link(_) => if Committing(m, c, AfterFileSync) then Some(Publish(c)) else None
    case Conclude(_) =>
      if Confirming(m, c, AfterProjection) || (Confirming(m, c, AfterTransactionPublish) && !Projects(address, m, c))
      then Some(Confirm(c)) else None
    case LookAgain(_, seen) => if c in m.at then Some(Rescan(c, seen)) else None
    case Load(_, seen) =>
      if c in m.at && c in m.core.calls && m.core.calls[c].Returning?
      then Some(if Readable(m.core.calls[c].answer) then Materialize(c, seen) else Fault(c)) else None
    case Throw(_) => if c in m.at then Some(Fault(c)) else None
    case Die(_) => if c in m.at then Some(Crash(c)) else None
    case ReapLock(_) => Some(Reap(c))
    case _ => None
  }

  ghost function CoreAfter(address: Addressing, m: Machine, act: Act): State {
    match CoreStep(address, m, act)
    case Some(step) => Next(address, m.core, step)
    case None => m.core
  }

  // ---------- Acts ----------

  function Pass(m: Machine, c: Caller, b: Boundary): Machine {
    m.(at := m.at[c := Place(b, {})])
  }

  /** A call that failed is not running any more. */
  function Settled(m: Machine, core: State, c: Caller): Machine {
    if c in core.calls && core.calls[c].Failed? then m.(core := core, at := m.at - {c}) else m.(core := core)
  }

  /** Past a boundary if the executors' step got there, otherwise where it was or no longer running. */
  function Stepped(m: Machine, core: State, c: Caller, arrived: bool, b: Boundary): Machine {
    if arrived then Pass(m.(core := core), c, b) else Settled(m, core, c)
  }

  function LinkBy(m: Machine, c: Caller, t: Transaction): Machine {
    if t in m.core.files then m else m.(linked_by := m.linked_by[t := c])
  }

  function Flushed(address: Addressing, files: set<Transaction>, t: Transaction): set<Transaction> {
    set u | u in files && Folder(address(u)) == Folder(address(t))
  }

  /** Clearing the staging directory of every whole copy of a transaction, whoever left it. */
  function Cleared(temps: set<Temp>, t: Transaction): set<Temp> {
    set p | p in temps && !(p.transaction == t && p.whole)
  }

  function BoundaryBefore(t: Transaction, k: nat): Boundary {
    if k < |EffectsOf(t)| then BeforeEffect(k) else BeforeReceipt
  }

  function Dispatched(m: Machine, c: Caller, e: Effect, weather: CommandOutcome.Weather): Machine {
    m.(ledger := CommandOutcome.AfterDispatch(m.ledger, e, weather), offers := m.offers + {Offer(c, e.effect_key)})
  }

  function DispatchOne(m: Machine, c: Caller, weather: CommandOutcome.Weather): Machine {
    if Delivering(m, c) && m.at[c].boundary.BeforeEffect?
      && m.at[c].boundary.k < |EffectsOf(m.core.calls[c].answer)| then
      var k := m.at[c].boundary.k;
      Pass(Dispatched(m, c, EffectsOf(m.core.calls[c].answer)[k], weather), c, AfterEffect(k))
    else m
  }

  /** Acts that change nothing but the executors' own state. */
  predicate Quiet(act: Act) {
    act.Settle? || act.Abandon? || act.Compare? || act.LookAgain? || act.ReapLock?
  }

  /** Acts up to the check under the lock. */
  predicate Early(act: Act) {
    act.Enter? || act.Validate? || act.Plan? || act.TakeLock? || act.Snapshot?
  }

  ghost function AfterEarly(address: Addressing, m: Machine, act: Act, core: State): Machine {
    var c := act.caller;
    match act
    case Enter(_, _) => if c in m.core.calls then m else Pass(m.(core := core), c, BeforeAuthorization)
    case Validate(_, seen) =>
      if Validates(address, m, c, seen) then m.(at := m.at[c := Place(AfterValidation, seen)]) else m
    case Plan(_, _, _) =>
      Stepped(m, core, c, Reading(m, c, AfterValidation) && c in core.calls && core.calls[c].Built?, BeforeCommit)
    case TakeLock(_) =>
      Stepped(m, core, c, Standing(m, c, BeforeCommit) && c in core.calls && core.calls[c].Holding?, AfterLockAcquired)
    case Snapshot(_) =>
      if Standing(m, c, AfterLockAcquired) && m.core.calls[c].Holding? && Complete(address, m.core.files)
      then Pass(m, c, AfterSnapshot) else m
    case _ => m
  }

  /** Acts on the disk: the staging file, the link, its directory, and the staging directory. */
  predicate OnDisk(act: Act) {
    act.OpenTemp? || act.WriteTemp? || act.SyncTemp? || act.Link? || act.SyncFolder? || act.CleanUp?
  }

  function Stage(m: Machine, c: Caller): Machine
    requires c in m.core.calls && m.core.calls[c].Checked?
  {
    Pass(m.(temps := m.temps + {Temp(c, m.core.calls[c].built, false)}), c, BeforeTempWrite)
  }

  function Write(m: Machine, c: Caller): Machine
    requires c in m.core.calls && m.core.calls[c].Checked?
  {
    var t := m.core.calls[c].built;
    Pass(m.(temps := m.temps - {Temp(c, t, false)} + {Temp(c, t, true)}), c, AfterTempWrite)
  }

  function Flush(address: Addressing, m: Machine, c: Caller): Machine
    requires c in m.core.calls && m.core.calls[c].Published?
  {
    Pass(m.(synced := m.synced + Flushed(address, m.core.files, m.core.calls[c].built)), c, AfterDirectorySync)
  }

  function Clear(m: Machine, c: Caller): Machine
    requires c in m.core.calls && m.core.calls[c].Published?
  {
    Pass(m.(temps := Cleared(m.temps, m.core.calls[c].built)), c, AfterTransactionPublish)
  }

  function AfterOnDisk(address: Addressing, m: Machine, act: Act, core: State): Machine {
    var c := act.caller;
    match act
    case OpenTemp(_) => if Committing(m, c, AfterSnapshot) then Stage(m, c) else m
    case WriteTemp(_) => if Committing(m, c, BeforeTempWrite) then Write(m, c) else m
    case SyncTemp(_) => if Committing(m, c, AfterTempWrite) then Pass(m, c, AfterFileSync) else m
    case Link(_) =>
      if Committing(m, c, AfterFileSync)
      then Pass(LinkBy(m, c, m.core.calls[c].built).(core := core), c, AfterPublish) else m
    case SyncFolder(_) => if Confirming(m, c, AfterPublish) then Flush(address, m, c) else m
    case CleanUp(_) => if Confirming(m, c, AfterDirectorySync) then Clear(m, c) else m
    case _ => m
  }

  ghost function AfterLate(address: Addressing, m: Machine, act: Act, core: State): Machine {
    var c := act.caller;
    match act
    case Project(_) => if Projects(address, m, c) then Pass(m, c, AfterProjection) else m
    case Conclude(_) =>
      Stepped(m, core, c, Confirming(m, c, AfterProjection) && c in core.calls && core.calls[c].Returning?, AfterCommit)
    case Load(_, _) =>
      if c in m.at && c in m.core.calls && m.core.calls[c].Returning?
      then Stepped(m, core, c, c in core.calls && core.calls[c].Returned?, BoundaryBefore(m.core.calls[c].answer, 0))
        else m
    case Dispatch(_, weather) => DispatchOne(m, c, weather)
    case NextEffect(_) =>
      if Delivering(m, c) && m.at[c].boundary.AfterEffect?
      then Pass(m, c, BoundaryBefore(m.core.calls[c].answer, m.at[c].boundary.k + 1)) else m
    case Finish(_) => if Delivering(m, c) && m.at[c].boundary.BeforeReceipt? then m.(at := m.at - {c}) else m
    case _ => m.(core := core, at := m.at - {c})
  }

  /** One act of one call; an act that is not possible changes nothing. */
  ghost function After(address: Addressing, m: Machine, act: Act): Machine {
    var core := CoreAfter(address, m, act);
    if Quiet(act) then Settled(m, core, act.caller)
    else if Early(act) then AfterEarly(address, m, act, core)
    else if OnDisk(act) then AfterOnDisk(address, m, act, core)
    else AfterLate(address, m, act, core)
  }

  ghost function Acting(address: Addressing, m: Machine, acts: seq<Act>): Machine
    decreases |acts|
  {
    if acts == [] then m else Acting(address, After(address, m, acts[0]), acts[1..])
  }

  /** A project whose files are all durable, and an outbox with whatever it has answered before. */
  ghost function Opening(log: seq<Transaction>, ledger: CommandOutcome.Ledger): Machine {
    Machine(Start(log), map[], {}, ProjectLog.Files(log), map[], ledger, {})
  }

  // ---------- Refinement ----------

  lemma ActRefines(address: Addressing, m: Machine, act: Act)
    ensures After(address, m, act).core == CoreAfter(address, m, act)
  {
    hide Next, Complete, Watermark, Settles;
  }

  /** The steps of the executors a run of acts amounts to. */
  ghost function StepsOf(address: Addressing, m: Machine, acts: seq<Act>): seq<Step>
    decreases |acts|
  {
    if acts == [] then []
    else
      var rest := StepsOf(address, After(address, m, acts[0]), acts[1..]);
      match CoreStep(address, m, acts[0])
      case Some(step) => [step] + rest
      case None => rest
  }

  /** Taking the executors apart adds no behaviour to them: staging, flushing and delivering decide nothing. */
  lemma {:induction false} RunRefines(address: Addressing, m: Machine, acts: seq<Act>)
    ensures Acting(address, m, acts).core == Run(address, m.core, StepsOf(address, m, acts))
    decreases |acts|
  {
    hide Next, After, CoreStep;
    if acts != [] {
      ActRefines(address, m, acts[0]);
      RunRefines(address, After(address, m, acts[0]), acts[1..]);
      var rest := StepsOf(address, After(address, m, acts[0]), acts[1..]);
      match CoreStep(address, m, acts[0])
      case Some(step) => assert ([step] + rest)[1..] == rest;
      case None =>
    }
  }
}
