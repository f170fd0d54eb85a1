/** Every transaction built from an accepted plan reads back as it was built, whatever the clock did. */
module CommandReadBack {
  import opened Wrappers
  import opened ProjectTypes
  import opened CommandBuild

  lemma {:induction false} SelectConcat(a: seq<Event>, b: seq<Event>, kind: Type)
    ensures Select(a + b, kind) == Select(a, kind) + Select(b, kind)
    decreases |b|
  {
    if b == [] {
      assert a + b == a;
    } else {
      assert (a + b)[..|a + b| - 1] == a + b[..|b| - 1];
      SelectConcat(a, b[..|b| - 1], kind);
    }
  }

  lemma {:induction false} SelectUniform(events: seq<Event>, of: Type, kind: Type)
    requires forall i :: 0 <= i < |events| ==> TypeOf(events[i].payload) == of
    ensures Select(events, kind) == if of == kind then events else []
  {
    if events != [] {
      SelectUniform(events[..|events| - 1], of, kind);
      assert events == events[..|events| - 1] + [events[|events| - 1]];
    }
  }

  lemma SelectThree(a: seq<Event>, b: seq<Event>, c: seq<Event>, kind: Type)
    ensures Select(a + b + c, kind) == Select(a, kind) + Select(b, kind) + Select(c, kind)
  {
    hide Select;
    SelectConcat(a + b, c, kind);
    SelectConcat(a, b, kind);
  }

  lemma SelectMiddle(s: Supply, r: Request, p: Plan, kind: Type)
    requires forall i :: 0 <= i < |p.events| ==> p.events[i].payload.Domain?
    ensures Select(Middle(s, r, p), kind) ==
      match kind
      case IsOutbox => OutboxEvents(r, BuiltEffects(r, p.effects))
      case IsRepair => RepairEvents(s, p.repair)
      case IsDomain => p.events
      case _ => []
  {
    hide BuiltEffects, Select;
    var outbox, repairs := OutboxEvents(r, BuiltEffects(r, p.effects)), RepairEvents(s, p.repair);
    SelectThree(p.events, outbox, repairs, kind);
    SelectUniform(p.events, IsDomain, kind);
    SelectUniform(outbox, IsOutbox, kind);
    SelectUniform(repairs, IsRepair, kind);
  }

  lemma SelectFront(a: Event, x: Event, kind: Type)
    requires a.payload.Accepted? && x.payload.Executing?
    ensures Select([a, x], kind) == if kind.IsAccepted? then [a] else if kind.IsExecuting? then [x] else []
  {
    assert [a, x] == [a] + [x];
    SelectConcat([a], [x], kind);
    SelectUniform([a], IsAccepted, kind);
    SelectUniform([x], IsExecuting, kind);
  }

  /** Each kind of event is read back from exactly the part of the transaction it was put in. */
  lemma SelectAssembled(s: Supply, r: Request, p: Plan, kind: Type)
    requires forall i :: 0 <= i < |p.events| ==> p.events[i].payload.Domain?
    ensures Select(Assembled(s, r, p).events, kind) ==
      match kind
      case IsAccepted => [AcceptedEvent(s, r)]
      case IsExecuting => [ExecutingEvent(s, r)]
      case IsCommitted => [CommittedEvent(s, r, p)]
      case IsOutbox => OutboxEvents(r, BuiltEffects(r, p.effects))
      case IsRepair => RepairEvents(s, p.repair)
      case IsDomain => p.events
  {
    hide AcceptedAt, ExecutingAt, CommittedAt, Required, BuiltEffects, Select, Middle, OutboxEvents, RepairEvents;
    SelectThree([AcceptedEvent(s, r), ExecutingEvent(s, r)], Middle(s, r, p), [CommittedEvent(s, r, p)], kind);
    SelectFront(AcceptedEvent(s, r), ExecutingEvent(s, r), kind);
    SelectMiddle(s, r, p, kind);
    SelectUniform([CommittedEvent(s, r, p)], IsCommitted, kind);
  }

  lemma {:induction false} LatestBounds(times: seq<Millis>, i: nat)
    requires i < |times|
    ensures times[i] <= Latest(times)
  {
    if |times| > 1 && i < |times| - 1 {
      LatestBounds(times[..|times| - 1], i);
    }
  }

  lemma CommittedIsLast(s: Supply, r: Request, p: Plan)
    ensures 0 <= AcceptedAt(s) < ExecutingAt(s) < CommittedAt(s, r, p)
    ensures forall e :: e in Middle(s, r, p) ==> e.occurred_at < CommittedAt(s, r, p)
  {
    var middle := Middle(s, r, p);
    var times := [ExecutingAt(s)] + Times(middle);
    LatestBounds(times, 0);
    forall i | 0 <= i < |middle| ensures middle[i].occurred_at < CommittedAt(s, r, p) {
      LatestBounds(times, i + 1);
      assert times[i + 1] == middle[i].occurred_at;
    }
  }

  lemma PlanIsNormal(p: Plan, kind: Kind, r: Request)
    requires NormalizePlan(p, kind, r).Ok?
    ensures forall i :: 0 <= i < |p.events| ==> p.events[i].payload.Domain? && CanonicalTime(p.events[i].occurred_at)
    ensures KeysDistinct(p.effects)
    ensures p.repair.Some? ==> RepairMatches(r, p.repair.value) && CanonicalTime(p.repair.value.issued_at)
  {
  }

  /** The times of the plan's effects, and the last stamp, are all that can be out of range. */
  lemma TimesFitExactly(s: Supply, r: Request, p: Plan, kind: Kind)
    requires NormalizePlan(p, kind, r).Ok?
    ensures TimesCanonical(Assembled(s, r, p)) <==>
      (forall i :: 0 <= i < |p.effects| ==> CanonicalTime(p.effects[i].declared_at))
        && CanonicalTime(CommittedAt(s, r, p))
  {
    hide CommittedAt, AcceptedAt, ExecutingAt, Required, NormalizePlan;
    PlanIsNormal(p, kind, r);
    CommittedIsLast(s, r, p);
    var t := Assembled(s, r, p);
    var outbox := OutboxEvents(r, BuiltEffects(r, p.effects));
    if TimesCanonical(t) {
      forall i | 0 <= i < |p.effects| ensures CanonicalTime(p.effects[i].declared_at) {
        assert t.events[2 + |p.events| + i] == outbox[i];
      }
    }
    if (forall i :: 0 <= i < |p.effects| ==> CanonicalTime(p.effects[i].declared_at))
      && CanonicalTime(CommittedAt(s, r, p)) {
      forall e | e in t.events ensures CanonicalTime(e.occurred_at) {
        assert e == AcceptedEvent(s, r) || e == ExecutingEvent(s, r) || e in Middle(s, r, p)
          || e == CommittedEvent(s, r, p);
        assert e in Middle(s, r, p) ==> e in p.events || e in outbox || e in RepairEvents(s, p.repair);
      }
    }
  }

  /**
   Building from an accepted plan fails for two reasons only: an event identity drawn twice, or a stamp
   past the last four-digit year. A clock running backwards is not one of them.
   */
  lemma BuildFailsExactly(s: Supply, r: Request, p: Plan, kind: Kind)
    requires NormalizePlan(p, kind, r).Ok?
    ensures Checked(Assembled(s, r, p)).Ok? <==>
      && EventIdsDistinct(Assembled(s, r, p))
      && (forall i :: 0 <= i < |p.effects| ==> CanonicalTime(p.effects[i].declared_at))
      && CanonicalTime(CommittedAt(s, r, p))
  {
    hide CommittedAt, AcceptedAt, ExecutingAt, NormalizePlan, TimesCanonical, EventIdsDistinct;
    TimesFitExactly(s, r, p, kind);
    CommittedIsLast(s, r, p);
    var t := Assembled(s, r, p);
    forall e | e in t.events ensures e.occurred_at <= t.recorded_at {
      assert e == AcceptedEvent(s, r) || e == ExecutingEvent(s, r) || e in Middle(s, r, p)
        || e == CommittedEvent(s, r, p);
    }
  }

  /** What the reader makes of a transaction is what the builder put into it. */
  lemma BuiltLifecycleReadsBack(s: Supply, r: Request, p: Plan, kind: Kind)
    requires NormalizePlan(p, kind, r).Ok?
    ensures LifecycleOf(Assembled(s, r, p)) == Ok(Lifecycle(
      AcceptedEvent(s, r), ExecutingEvent(s, r), CommittedEvent(s, r, p), Required(BuiltEffects(r, p.effects)),
      if p.repair.Some? then Some(p.repair.value.receipt_id) else None))
  {
    hide CommittedAt, AcceptedAt, ExecutingAt, NormalizePlan, Select, Middle, Required;
    PlanIsNormal(p, kind, r);
    CommittedIsLast(s, r, p);
    SelectAssembled(s, r, p, IsAccepted);
    SelectAssembled(s, r, p, IsExecuting);
    SelectAssembled(s, r, p, IsCommitted);
    SelectAssembled(s, r, p, IsRepair);
  }

  lemma BuiltEffectsReadBack(s: Supply, r: Request, p: Plan, kind: Kind)
    requires NormalizePlan(p, kind, r).Ok?
    ensures ExtractEffects(Assembled(s, r, p)) == Ok(BuiltEffects(r, p.effects))
  {
    hide CommittedAt, AcceptedAt, ExecutingAt, NormalizePlan, Select, Middle, Required;
    PlanIsNormal(p, kind, r);
    SelectAssembled(s, r, p, IsOutbox);
    var t := Assembled(s, r, p);
    var effects := BuiltEffects(r, p.effects);
    var declared := Select(t.events, IsOutbox);
    assert forall i :: 0 <= i < |declared| ==> EnvelopeMatches(t, declared[i]);
    assert seq(|declared|, i requires 0 <= i < |declared| => declared[i].payload.effect) == effects;
    assert forall i, j :: 0 <= i < j < |effects| ==> effects[i].effect_key != effects[j].effect_key;
  }

  /** Build and read-back agree: the lifecycle is in strict time order and its count is that of the effects read. */
  lemma BuildReadBackAgree(s: Supply, r: Request, p: Plan, kind: Kind)
    requires NormalizePlan(p, kind, r).Ok?
    ensures LifecycleOf(Assembled(s, r, p)).Ok? && ExtractEffects(Assembled(s, r, p)).Ok?
    ensures var m := LifecycleOf(Assembled(s, r, p)).value;
            && m.governed == Required(ExtractEffects(Assembled(s, r, p)).value)
            && m.accepted.occurred_at < m.executing.occurred_at < m.committed.occurred_at
            && m.committed.occurred_at == Assembled(s, r, p).recorded_at
  {
    hide CommittedAt, AcceptedAt, ExecutingAt, NormalizePlan, LifecycleOf, ExtractEffects, Middle, Required;
    CommittedIsLast(s, r, p);
    BuiltLifecycleReadsBack(s, r, p, kind);
    BuiltEffectsReadBack(s, r, p, kind);
  }

  // ---------- What the transaction says of the plan and the request ----------

  /** The events of a plan are its own kinds, at times that can be stored. */
  predicate OrdinaryEvents(p: Plan) {
    forall e :: e in p.events ==> CanonicalTime(e.occurred_at) && e.payload.Domain?
  }

  predicate EffectsDiffer(p: Plan) {
    forall i, j :: 0 <= i < |p.effects| && 0 <= j < |p.effects| && i != j ==>
      p.effects[i].effect_key != p.effects[j].effect_key && p.effects[i].effect_id != p.effects[j].effect_id
  }

  /** A repair receipt is that of the request itself, field by field. */
  predicate OwnReceipt(r: Request, receipt: RepairReceipt) {
    && receipt.repair_command_id == r.command_id && receipt.command_name == r.scope.command_name
    && receipt.project_id == r.scope.project_id && receipt.actor_principal_id == r.scope.principal_id
    && receipt.input_digest == r.input_digest
  }

  /** A plan is accepted, unchanged, exactly if this holds; and each refusal has its own condition. */
  lemma NormalExactly(p: Plan, kind: Kind, r: Request)
    ensures NormalizePlan(p, kind, r).Ok? <==>
      && OrdinaryEvents(p) && EffectsDiffer(p)
      && (kind == Mutation ==> p.repair == None)
      && (kind == Repair ==> p.repair.Some? && CanonicalTime(p.repair.value.issued_at) && OwnReceipt(r, p.repair.value))
    ensures NormalizePlan(p, kind, r).Ok? ==> NormalizePlan(p, kind, r).value == p
    ensures NormalizePlan(p, kind, r) == Err(Reserved) <==>
      (forall e :: e in p.events ==> CanonicalTime(e.occurred_at)) && exists e :: e in p.events && !e.payload.Domain?
    ensures NormalizePlan(p, kind, r) == Err(BadTime) <==>
      || (exists e :: e in p.events && !CanonicalTime(e.occurred_at))
      || (&& OrdinaryEvents(p) && EffectsDiffer(p) && kind == Repair
          && p.repair.Some? && !CanonicalTime(p.repair.value.issued_at))
    ensures NormalizePlan(p, kind, r) == Err(DuplicateEffect) <==> OrdinaryEvents(p) && !EffectsDiffer(p)
    ensures NormalizePlan(p, kind, r) == Err(RepairNotPermitted) <==>
      OrdinaryEvents(p) && EffectsDiffer(p) && kind == Mutation && p.repair.Some?
    ensures NormalizePlan(p, kind, r) == Err(RepairRequired) <==>
      OrdinaryEvents(p) && EffectsDiffer(p) && kind == Repair && p.repair == None
    ensures NormalizePlan(p, kind, r) == Err(RepairMismatch) <==>
      && OrdinaryEvents(p) && EffectsDiffer(p) && kind == Repair
      && p.repair.Some? && CanonicalTime(p.repair.value.issued_at) && !OwnReceipt(r, p.repair.value)
  {
    assert (forall i :: 0 <= i < |p.events| ==> CanonicalTime(p.events[i].occurred_at)) <==>
      forall e :: e in p.events ==> CanonicalTime(e.occurred_at);
    assert OrdinaryEvents(p) <==>
      forall i :: 0 <= i < |p.events| ==> CanonicalTime(p.events[i].occurred_at) && p.events[i].payload.Domain?;
    assert EffectsDiffer(p) <==> KeysDistinct(p.effects);
  }

  /** The effects read back say what the plan said, one by one and in order. */
  lemma EffectsKeepTheirMeaning(s: Supply, r: Request, p: Plan, kind: Kind)
    requires NormalizePlan(p, kind, r).Ok?
    ensures var read := ExtractEffects(Assembled(s, r, p));
            && read.Ok? && |read.value| == |p.effects|
            && forall i :: 0 <= i < |p.effects| ==>
                 && read.value[i].effect_id == p.effects[i].effect_id
                 && read.value[i].effect_key == p.effects[i].effect_key
                 && read.value[i].effect_type == p.effects[i].effect_type
                 && read.value[i].declared_at == p.effects[i].declared_at
                 && read.value[i].required == p.effects[i].required
                 && read.value[i].payload == p.effects[i].payload
                 && read.value[i].command_id == r.command_id && read.value[i].project_id == r.scope.project_id
  {
    hide NormalizePlan, ExtractEffects, Assembled;
    BuiltEffectsReadBack(s, r, p, kind);
  }

  lemma {:induction false} RequiredCounts(effects: seq<Effect>)
    ensures Required(effects) == |set i | 0 <= i < |effects| && effects[i].required|
  {
    if effects != [] {
      var k := |effects| - 1;
      RequiredCounts(effects[..k]);
      var front := set i | 0 <= i < k && effects[..k][i].required;
      var all := set i | 0 <= i < |effects| && effects[i].required;
      assert all == if effects[k].required then front + {k} else front;
    }
  }

  predicate IsEvent(e: Event, id: Id, subject: Id, payload: Payload) {
    e.event_id == id && e.subject_id == subject && e.payload == payload
  }

  /** What a plan's own events, its effects and its repair receipt make of it, in this order. */
  predicate SaysPlan(s: Supply, r: Request, p: Plan, middle: seq<Event>) {
    && |middle| == |p.events| + |p.effects| + (if p.repair.Some? then 1 else 0)
    && middle[..|p.events|] == p.events
    && (forall i :: 0 <= i < |p.effects| ==>
          && middle[|p.events| + i].event_id == p.effects[i].effect_id
          && middle[|p.events| + i].subject_id == r.command_id
          && middle[|p.events| + i].occurred_at == p.effects[i].declared_at
          && middle[|p.events| + i].payload.OutboxDeclared?)
    && (p.repair.Some? ==>
          var event := middle[|middle| - 1];
          && IsEvent(event, s.repair_id, p.repair.value.receipt_id, RepairRecorded(p.repair.value))
          && event.occurred_at == p.repair.value.issued_at)
  }

  lemma MiddleSaysPlan(s: Supply, r: Request, p: Plan)
    ensures SaysPlan(s, r, p, Middle(s, r, p))
  {
  }

  /**
   The transaction is that of the request and holds everything the plan said, and last the count of the
   required effects.
   */
  lemma TransactionSaysAll(s: Supply, r: Request, p: Plan)
    ensures var t := Assembled(s, r, p);
            var last := |t.events| - 1;
            && t.command_id == r.command_id && t.command_version == r.command_version
            && t.command_name == r.scope.command_name && t.principal_id == r.scope.principal_id
            && t.project_id == r.scope.project_id && t.idempotency_key == r.scope.idempotency_key
            && t.input_digest == r.input_digest && t.previous == r.expected
            && last >= 2
            && IsEvent(t.events[0], s.accepted_id, r.command_id,
                 Accepted(r.scope.command_name, r.command_version, r.expected, r.input_digest))
            && IsEvent(t.events[1], s.executing_id, r.command_id, Executing(1))
            && SaysPlan(s, r, p, t.events[2..last])
            && IsEvent(t.events[last], s.committed_id, r.command_id, Committed(
                 s.completed_receipt, s.pending_receipt, s.needs_repair_receipt,
                 |set i | 0 <= i < |p.effects| && p.effects[i].required|,
                 if p.repair.Some? then Some(p.repair.value.receipt_id) else None))
            && t.recorded_at == t.events[last].occurred_at
  {
    hide AcceptedAt, ExecutingAt, CommittedAt, Required, Middle, SaysPlan;
    var built, t := BuiltEffects(r, p.effects), Assembled(s, r, p);
    MiddleSaysPlan(s, r, p);
    assert t.events[2..|t.events| - 1] == Middle(s, r, p);
    RequiredCounts(built);
    assert (set i | 0 <= i < |built| && built[i].required) == set i | 0 <= i < |p.effects| && p.effects[i].required;
  }

  // ---------- Which transactions are read at all ----------

  predicate OnlyAt(events: seq<Event>, kind: Type, i: nat) {
    && i < |events| && TypeOf(events[i].payload) == kind
    && forall j :: 0 <= j < |events| && TypeOf(events[j].payload) == kind ==> j == i
  }

  /** The one event of its kind. */
  ghost predicate OnlyEvent(events: seq<Event>, kind: Type, e: Event) {
    exists i: nat :: OnlyAt(events, kind, i) && events[i] == e
  }

  predicate NoneOf(events: seq<Event>, kind: Type) {
    forall i :: 0 <= i < |events| ==> TypeOf(events[i].payload) != kind
  }

  lemma {:induction false} SelectsNone(events: seq<Event>, kind: Type)
    ensures Select(events, kind) == [] <==> NoneOf(events, kind)
  {
    if events != [] {
      SelectsNone(events[..|events| - 1], kind);
    }
  }

  lemma OnlyEventIsLast(events: seq<Event>, kind: Type, e: Event)
    requires events != [] && TypeOf(events[|events| - 1].payload) == kind
    ensures OnlyEvent(events, kind, e) <==>
      events[|events| - 1] == e && NoneOf(events[..|events| - 1], kind)
  {
    hide TypeOf;
    var k := |events| - 1;
    if events[k] == e && NoneOf(events[..k], kind) {
      assert forall j :: 0 <= j < k ==> events[..k][j] == events[j];
      assert OnlyAt(events, kind, k);
    }
  }

  lemma OnlyEventIsBefore(events: seq<Event>, kind: Type, e: Event)
    requires events != [] && TypeOf(events[|events| - 1].payload) != kind
    ensures OnlyEvent(events, kind, e) <==> OnlyEvent(events[..|events| - 1], kind, e)
  {
    hide TypeOf;
    var k := |events| - 1;
    var front := events[..k];
    assert forall j :: 0 <= j < k ==> front[j] == events[j];
    if OnlyEvent(front, kind, e) {
      var i: nat :| OnlyAt(front, kind, i) && front[i] == e;
      assert OnlyAt(events, kind, i) && events[i] == e;
    }
    if OnlyEvent(events, kind, e) {
      var i: nat :| OnlyAt(events, kind, i) && events[i] == e;
      assert OnlyAt(front, kind, i) && front[i] == e;
    }
  }

  lemma {:induction false} SelectsOne(events: seq<Event>, kind: Type, e: Event)
    ensures Select(events, kind) == [e] <==> OnlyEvent(events, kind, e)
  {
    if events == [] {
      assert Select(events, kind) == [];
    } else {
      hide OnlyEvent, NoneOf;
      var front, last := events[..|events| - 1], events[|events| - 1];
      SelectsOne(front, kind, e);
      SelectsNone(front, kind);
      if TypeOf(last.payload) == kind {
        OnlyEventIsLast(events, kind, e);
        assert Select(events, kind)[|Select(front, kind)|] == last;
      } else {
        OnlyEventIsBefore(events, kind, e);
      }
    }
  }

  /** No repair is mentioned or recorded, or the one recorded is the one mentioned, for this very command. */
  ghost predicate RepairAgrees(t: Transaction, mentioned: Option<Id>) {
    match mentioned
    case None => NoneOf(t.events, IsRepair)
    case Some(id) =>
      exists e :: OnlyEvent(t.events, IsRepair, e) && e.subject_id == id && e.payload.receipt.receipt_id == id
        && e.payload.receipt.repair_command_id == t.command_id && e.payload.receipt.project_id == t.project_id
        && e.payload.receipt.actor_principal_id == t.principal_id
  }

  /** A transaction whose lifecycle is `m`: one event of each kind, about its own command, in strict time order. */
  ghost predicate ReadsAs(t: Transaction, m: Lifecycle) {
    && OnlyEvent(t.events, IsAccepted, m.accepted) && m.accepted.subject_id == t.command_id
    && OnlyEvent(t.events, IsExecuting, m.executing) && m.executing.subject_id == t.command_id
    && OnlyEvent(t.events, IsCommitted, m.committed) && m.committed.subject_id == t.command_id
    && m.accepted.occurred_at < m.executing.occurred_at && m.executing.occurred_at < m.committed.occurred_at
    && m.accepted.payload.command_name == t.command_name && m.accepted.payload.command_version == t.command_version
    && m.accepted.payload.expected == t.previous && m.accepted.payload.input_digest == t.input_digest
    && m.executing.payload.attempt == 1
    && m.committed.payload.governed >= 0 && m.governed == m.committed.payload.governed
    && m.repair_receipt_id == m.committed.payload.repair_receipt_id && RepairAgrees(t, m.repair_receipt_id)
  }

  lemma RepairBoundExactly(t: Transaction, id: Option<Id>)
    ensures RepairBound(t, id, Select(t.events, IsRepair)) <==> RepairAgrees(t, id)
  {
    hide OnlyEvent, NoneOf, Select;
    var repairs := Select(t.events, IsRepair);
    SelectsNone(t.events, IsRepair);
    forall e ensures repairs == [e] <==> OnlyEvent(t.events, IsRepair, e) {
      SelectsOne(t.events, IsRepair, e);
    }
    if |repairs| == 1 {
      assert repairs == [repairs[0]];
    }
  }

  /** A lifecycle is read exactly from such transactions; anything else is refused. */
  lemma LifecycleReadExactly(t: Transaction, m: Lifecycle)
    ensures LifecycleOf(t) == Ok(m) <==> ReadsAs(t, m)
  {
    hide OnlyEvent, RepairAgrees, RepairBound, Select;
    SelectsOne(t.events, IsAccepted, m.accepted);
    SelectsOne(t.events, IsExecuting, m.executing);
    SelectsOne(t.events, IsCommitted, m.committed);
    RepairBoundExactly(t, m.repair_receipt_id);
    if LifecycleOf(t) == Ok(m) {
      assert Select(t.events, IsAccepted) == [m.accepted];
      assert Select(t.events, IsExecuting) == [m.executing];
      assert Select(t.events, IsCommitted) == [m.committed];
    }
  }

  /** The declaration agrees with the event that carries it. */
  predicate Declares(t: Transaction, e: Event) {
    && e.payload.OutboxDeclared?
    && e.payload.effect.effect_id == e.event_id && e.payload.effect.declared_at == e.occurred_at
    && e.payload.effect.command_id == t.command_id && e.payload.effect.project_id == t.project_id
  }

  lemma {:induction false} SelectedAreEvents(events: seq<Event>, kind: Type, e: Event)
    ensures e in Select(events, kind) <==> e in events && TypeOf(e.payload) == kind
  {
    if events != [] {
      SelectedAreEvents(events[..|events| - 1], kind, e);
      assert events == events[..|events| - 1] + [events[|events| - 1]];
    }
  }

  ghost predicate AllDeclare(t: Transaction) {
    forall e :: e in t.events && e.payload.OutboxDeclared? ==> Declares(t, e)
  }

  predicate OneKeyEach(declared: seq<Event>)
    requires forall e :: e in declared ==> e.payload.OutboxDeclared?
  {
    forall i, j :: 0 <= i < j < |declared| ==>
      declared[i].payload.effect.effect_key != declared[j].payload.effect.effect_key
  }

  lemma AllDeclareExactly(t: Transaction)
    ensures AllDeclare(t) <==> forall e :: e in Select(t.events, IsOutbox) ==> EnvelopeMatches(t, e)
  {
    hide Select;
    forall e ensures e in Select(t.events, IsOutbox) <==> e in t.events && e.payload.OutboxDeclared? {
      SelectedAreEvents(t.events, IsOutbox, e);
    }
  }

  lemma KeysOfDeclared(declared: seq<Event>, effects: seq<Effect>)
    requires forall e :: e in declared ==> e.payload.OutboxDeclared?
    requires |effects| == |declared| && forall i :: 0 <= i < |effects| ==> effects[i] == declared[i].payload.effect
    ensures OneKeyEach(declared) <==>
      forall i, j :: 0 <= i < j < |effects| ==> effects[i].effect_key != effects[j].effect_key
  {
    if !OneKeyEach(declared) {
      var i, j :| 0 <= i < j < |declared|
        && declared[i].payload.effect.effect_key == declared[j].payload.effect.effect_key;
      assert effects[i].effect_key == effects[j].effect_key;
    }
  }

  /** Effects are read exactly if every declaration agrees with its event and no two are under one key. */
  lemma EffectsReadExactly(t: Transaction)
    ensures ExtractEffects(t).Ok? <==> AllDeclare(t) && OneKeyEach(Select(t.events, IsOutbox))
    ensures ExtractEffects(t).Ok? ==> |ExtractEffects(t).value| == |Select(t.events, IsOutbox)|
    ensures ExtractEffects(t).Ok? ==> forall i :: 0 <= i < |ExtractEffects(t).value| ==>
      ExtractEffects(t).value[i] == Select(t.events, IsOutbox)[i].payload.effect
  {
    hide Select, EnvelopeMatches, AllDeclare, OneKeyEach;
    AllDeclareExactly(t);
    var declared := Select(t.events, IsOutbox);
    assert (forall i :: 0 <= i < |declared| ==> EnvelopeMatches(t, declared[i])) <==>
      forall e :: e in declared ==> EnvelopeMatches(t, e);
    if AllDeclare(t) {
      var effects := seq(|declared|, i requires 0 <= i < |declared| => declared[i].payload.effect);
      KeysOfDeclared(declared, effects);
    }
  }

  /** What the builder insists on of any transaction, and that it changes nothing of it. */
  lemma CheckedExactly(t: Transaction)
    ensures Checked(t).Ok? <==>
      && t.events != [] && CanonicalTime(t.recorded_at)
      && (forall e :: e in t.events ==> CanonicalTime(e.occurred_at) && e.occurred_at <= t.recorded_at)
      && forall i, j :: 0 <= i < |t.events| && 0 <= j < |t.events| && t.events[i].event_id == t.events[j].event_id ==>
        i == j
    ensures Checked(t).Ok? ==> Checked(t).value == t
  {
    assert (forall e :: e in t.events ==> CanonicalTime(e.occurred_at) && e.occurred_at <= t.recorded_at) <==>
      forall i :: 0 <= i < |t.events| ==>
        CanonicalTime(t.events[i].occurred_at) && t.events[i].occurred_at <= t.recorded_at;
  }
}
