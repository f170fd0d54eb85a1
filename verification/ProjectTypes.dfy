/** The canonical project transaction, its events, and its content address. */
module ProjectTypes {
  import opened Wrappers

  type Digest = string
  type Id = string

  /** Milliseconds since 1970; canonical stored timestamps have four-digit years. */
  type Millis = int

  /** The instants whose ISO form has a four-digit year, the only ones stored records may carry. */
  predicate CanonicalTime(t: Millis) {
    -62167219200000 <= t <= 253402300799999
  }

  datatype Effect = Effect(
    effect_id: Id, effect_key: string, command_id: Id, project_id: Id, effect_type: string,
    declared_at: Millis, required: bool, payload: string)

  datatype RepairReceipt = RepairReceipt(
    receipt_id: Id, repair_command_id: Id, project_id: Id, actor_principal_id: Id,
    command_name: string, input_digest: Digest, issued_at: Millis)

  /** The constructor is the event type; `Domain` carries every type the kernel does not reserve. */
  datatype Payload =
    | Accepted(command_name: string, command_version: string, expected: Option<Digest>, input_digest: Digest)
    | Executing(attempt: int)
    | Committed(completed_id: Id, effects_pending_id: Id, needs_repair_id: Id, governed: int,
      repair_receipt_id: Option<Id>)
    | OutboxDeclared(effect: Effect)
    | RepairRecorded(receipt: RepairReceipt)
    | Domain(event_type: string, body: string)

  datatype Event = Event(event_id: Id, subject_id: Id, occurred_at: Millis, payload: Payload)

  datatype Transaction = Transaction(
    command_id: Id, command_version: string, command_name: string, principal_id: Id, project_id: Id,
    idempotency_key: string, input_digest: Digest, previous: Option<Digest>, recorded_at: Millis, events: seq<Event>)

  /** What an idempotency key is unique within. */
  datatype Scope = Scope(project_id: Id, principal_id: Id, command_name: string, idempotency_key: string)

  datatype Request = Request(
    command_id: Id, command_version: string, scope: Scope, expected: Option<Digest>, input_digest: Digest)

  type Addressing = Transaction -> Digest

  ghost predicate Injective(address: Addressing) {
    forall t, u :: address(t) == address(u) ==> t == u
  }

  function EventIds(t: Transaction): set<Id> {
    set e | e in t.events :: e.event_id
  }
}
