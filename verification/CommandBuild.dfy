/** Turning a command's plan into one transaction, and reading the lifecycle and effects back out of it. */
module CommandBuild {
  import opened Wrappers
  import opened ProjectTypes

  datatype EffectInput = EffectInput(
    effect_id: Id, effect_key: string, effect_type: string, declared_at: Millis, required: bool, payload: string)

  datatype Plan = Plan(events: seq<Event>, effects: seq<EffectInput>, repair: Option<RepairReceipt>)

  datatype Kind = Mutation | Repair

  /** The clock's three readings and the identities drawn while building. */
  datatype Supply = Supply(
    now: nat -> Millis, accepted_id: Id, executing_id: Id, committed_id: Id, repair_id: Id,
    completed_receipt: Id, pending_receipt: Id, needs_repair_receipt: Id)

  datatype Problem = Reserved | DuplicateEffect | RepairRequired | RepairMismatch | RepairNotPermitted | BadTime
    | DuplicateEvent | Inconsistent

  datatype Lifecycle = Lifecycle(accepted: Event, executing: Event, committed: Event, governed: int,
    repair_receipt_id: Option<Id>)

  // ---------- Plans ----------

  predicate KeysDistinct(effects: seq<EffectInput>) {
    forall i, j :: 0 <= i < j < |effects| ==>
      effects[i].effect_key != effects[j].effect_key && effects[i].effect_id != effects[j].effect_id
  }

  predicate RepairMatches(r: Request, repair: RepairReceipt) {
    && repair.repair_command_id == r.command_id && repair.project_id == r.scope.project_id
    && repair.actor_principal_id == r.scope.principal_id && repair.command_name == r.scope.command_name
    && repair.input_digest == r.input_digest
  }

  function NormalizePlan(p: Plan, kind: Kind, r: Request): Result<Plan, Problem> {
    if exists i :: 0 <= i < |p.events| && !CanonicalTime(p.events[i].occurred_at) then Err(BadTime)
    else if exists i :: 0 <= i < |p.events| && !p.events[i].payload.Domain? then Err(Reserved)
    else if !KeysDistinct(p.effects) then Err(DuplicateEffect)
    else if kind.Repair? then
      if p.repair.None? then Err(RepairRequired)
      else if !CanonicalTime(p.repair.value.issued_at) then Err(BadTime)
      else if !RepairMatches(r, p.repair.value) then Err(RepairMismatch)
      else Ok(p)
    else if p.repair.Some? then Err(RepairNotPermitted)
    else Ok(p)
  }

  // ---------- Clocks ----------

  function Max(a: int, b: int): int {
    if a >= b then a else b
  }

  function Latest(times: seq<Millis>): Millis
    requires times != []
  {
    if |times| == 1 then times[0] else Max(Latest(times[..|times| - 1]), times[|times| - 1])
  }

  /** Hands out strictly increasing times whatever the wall clock does. */
  class MonotonicClock {
    var previous: int

    constructor ()
      ensures previous == -1
    {
      previous := -1;
    }

    method Next(now: Millis) returns (stamp: Millis)
      modifies this
      ensures stamp == previous == Max(now, old(previous) + 1)
    {
      previous := Max(now, previous + 1);
      return previous;
    }
  }

  // ---------- Building ----------

  function BuiltEffect(r: Request, e: EffectInput): Effect {
    Effect(e.effect_id, e.effect_key, r.command_id, r.scope.project_id, e.effect_type, e.declared_at, e.required,
      e.payload)
  }

  function BuiltEffects(r: Request, effects: seq<EffectInput>): (built: seq<Effect>)
    ensures |built| == |effects|
  {
    seq(|effects|, i requires 0 <= i < |effects| => BuiltEffect(r, effects[i]))
  }

  function OutboxEvents(r: Request, effects: seq<Effect>): (events: seq<Event>)
    ensures |events| == |effects|
  {
    seq(|effects|, i requires 0 <= i < |effects| =>
      Event(effects[i].effect_id, r.command_id, effects[i].declared_at, OutboxDeclared(effects[i])))
  }

  function RepairEvents(s: Supply, repair: Option<RepairReceipt>): seq<Event> {
    if repair.None? then []
    else [Event(s.repair_id, repair.value.receipt_id, repair.value.issued_at, RepairRecorded(repair.value))]
  }

  function Required(effects: seq<Effect>): nat {
    if effects == [] then 0
    else Required(effects[..|effects| - 1]) + (if effects[|effects| - 1].required then 1 else 0)
  }

  function Times(events: seq<Event>): (times: seq<Millis>)
    ensures |times| == |events|
  {
    seq(|events|, i requires 0 <= i < |events| => events[i].occurred_at)
  }

  function AcceptedAt(s: Supply): Millis {
    Max(s.now(0), 0)
  }

  function ExecutingAt(s: Supply): Millis {
    Max(s.now(1), AcceptedAt(s) + 1)
  }

  /** What a plan contributes between the executing and the committed event. */
  function Middle(s: Supply, r: Request, p: Plan): seq<Event> {
    p.events + OutboxEvents(r, BuiltEffects(r, p.effects)) + RepairEvents(s, p.repair)
  }

  function CommittedAt(s: Supply, r: Request, p: Plan): Millis {
    Max(s.now(2), Latest([ExecutingAt(s)] + Times(Middle(s, r, p))) + 1)
  }

  function AcceptedEvent(s: Supply, r: Request): Event {
    Event(s.accepted_id, r.command_id, AcceptedAt(s),
      Accepted(r.scope.command_name, r.command_version, r.expected, r.input_digest))
  }

  function ExecutingEvent(s: Supply, r: Request): Event {
    Event(s.executing_id, r.command_id, ExecutingAt(s), Executing(1))
  }

  function CommittedEvent(s: Supply, r: Request, p: Plan): Event {
    Event(s.committed_id, r.command_id, CommittedAt(s, r, p),
      Committed(s.completed_receipt, s.pending_receipt, s.needs_repair_receipt, Required(BuiltEffects(r, p.effects)),
        if p.repair.Some? then Some(p.repair.value.receipt_id) else None))
  }

  function Assembled(s: Supply, r: Request, p: Plan): Transaction {
    Transaction(
      r.command_id, r.command_version, r.scope.command_name, r.scope.principal_id, r.scope.project_id,
        r.scope.idempotency_key,
      r.input_digest, r.expected, CommittedAt(s, r, p),
      [AcceptedEvent(s, r), ExecutingEvent(s, r)] + Middle(s, r, p) + [CommittedEvent(s, r, p)])
  }

  predicate TimesCanonical(t: Transaction) {
    CanonicalTime(t.recorded_at) && forall i :: 0 <= i < |t.events| ==> CanonicalTime(t.events[i].occurred_at)
  }

  predicate EventIdsDistinct(t: Transaction) {
    forall i, j :: 0 <= i < j < |t.events| ==> t.events[i].event_id != t.events[j].event_id
  }

  predicate NoEventAfterRecord(t: Transaction) {
    forall i :: 0 <= i < |t.events| ==> t.events[i].occurred_at <= t.recorded_at
  }

  /** What the transaction builder itself insists on. */
  function Checked(t: Transaction): Result<Transaction, Problem> {
    if !TimesCanonical(t) then Err(BadTime)
    else if t.events == [] then Err(Inconsistent)
    else if !EventIdsDistinct(t) then Err(DuplicateEvent)
    else if !NoEventAfterRecord(t) then Err(BadTime)
    else Ok(t)
  }

  method BuildTransaction(s: Supply, r: Request, p: Plan) returns (t: Result<Transaction, Problem>)
    ensures t == Checked(Assembled(s, r, p))
  {
    var clock := new MonotonicClock();
    var acceptedAt := clock.Next(s.now(0));
    var executingAt := clock.Next(s.now(1));
    var accepted := Event(s.accepted_id, r.command_id, acceptedAt,
      Accepted(r.scope.command_name, r.command_version, r.expected, r.input_digest));
    var executing := Event(s.executing_id, r.command_id, executingAt, Executing(1));
    var effects := BuiltEffects(r, p.effects);
    var middle := p.events + OutboxEvents(r, effects) + RepairEvents(s, p.repair);
    var committedAt := Max(s.now(2), Latest([executingAt] + Times(middle)) + 1);
    var committed := Event(s.committed_id, r.command_id, committedAt,
      Committed(s.completed_receipt, s.pending_receipt, s.needs_repair_receipt, Required(effects),
        if p.repair.Some? then Some(p.repair.value.receipt_id) else None));
    t := Checked(Transaction(
      r.command_id, r.command_version, r.scope.command_name, r.scope.principal_id, r.scope.project_id,
        r.scope.idempotency_key,
      r.input_digest, r.expected, committedAt, [accepted, executing] + middle + [committed]));
  }

  // ---------- Reading back ----------

  datatype Type = IsAccepted | IsExecuting | IsCommitted | IsOutbox | IsRepair | IsDomain

  function TypeOf(p: Payload): Type {
    match p
    case Accepted(_, _, _, _) => IsAccepted
    case Executing(_) => IsExecuting
    case Committed(_, _, _, _, _) => IsCommitted
    case OutboxDeclared(_) => IsOutbox
    case RepairRecorded(_) => IsRepair
    case Domain(_, _) => IsDomain
  }

  function Select(events: seq<Event>, kind: Type): (selected: seq<Event>)
    ensures forall i :: 0 <= i < |selected| ==> TypeOf(selected[i].payload) == kind
  {
    if events == [] then []
    else
      var front := Select(events[..|events| - 1], kind);
      var last := events[|events| - 1];
      if TypeOf(last.payload) == kind then front + [last] else front
  }

  predicate RepairBound(t: Transaction, id: Option<Id>, repairs: seq<Event>)
    requires forall i :: 0 <= i < |repairs| ==> repairs[i].payload.RepairRecorded?
  {
    && (id.None? <==> repairs == []) && |repairs| <= 1
    && (id.Some? ==>
         var receipt := repairs[0].payload.receipt;
         && receipt.receipt_id == id.value && repairs[0].subject_id == id.value
         && receipt.repair_command_id == t.command_id && receipt.project_id == t.project_id
         && receipt.actor_principal_id == t.principal_id)
  }

  function LifecycleOf(t: Transaction): Result<Lifecycle, Problem> {
    var a, x, c := Select(t.events, IsAccepted), Select(t.events, IsExecuting), Select(t.events, IsCommitted);
    if |a| != 1 || |x| != 1 || |c| != 1 then Err(Inconsistent)
    else if a[0].subject_id != t.command_id || x[0].subject_id != t.command_id || c[0].subject_id != t.command_id
      || !(a[0].occurred_at < x[0].occurred_at < c[0].occurred_at) then Err(Inconsistent)
    else if a[0].payload != Accepted(t.command_name, t.command_version, t.previous, t.input_digest)
      then Err(Inconsistent)
    else if x[0].payload.attempt != 1 then Err(Inconsistent)
    else if c[0].payload.governed < 0 then Err(Inconsistent)
    else if !RepairBound(t, c[0].payload.repair_receipt_id, Select(t.events, IsRepair)) then Err(Inconsistent)
    else Ok(Lifecycle(a[0], x[0], c[0], c[0].payload.governed, c[0].payload.repair_receipt_id))
  }

  predicate EnvelopeMatches(t: Transaction, e: Event)
    requires e.payload.OutboxDeclared?
  {
    var f := e.payload.effect;
    && f.effect_id == e.event_id && f.command_id == t.command_id
    && f.project_id == t.project_id && f.declared_at == e.occurred_at
  }

  function ExtractEffects(t: Transaction): Result<seq<Effect>, Problem> {
    var declared := Select(t.events, IsOutbox);
    if exists i :: 0 <= i < |declared| && !EnvelopeMatches(t, declared[i]) then Err(Inconsistent)
    else
      var effects := seq(|declared|, i requires 0 <= i < |declared| => declared[i].payload.effect);
      if exists i, j :: 0 <= i < j < |effects| && effects[i].effect_key == effects[j].effect_key then Err(Inconsistent)
      else Ok(effects)
  }
}
