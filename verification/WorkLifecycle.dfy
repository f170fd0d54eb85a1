/**
 Native work: the commands that open, finish, expire and correct work, as the events they plan, and
 the reducer that replays a project's events from the start. Text fields are left out.
 */
module WorkLifecycle {
  import opened Wrappers
  import opened ProjectTypes

  datatype IntentState = IQueued | IActive | IPaused | IBlocked | IReportedComplete | IAbandoned
  datatype EpisodeState = EActive | EPaused | EBlocked | EReportedComplete | EFailed | EAbandoned
  datatype LeaseState = LActive | LReleased | LExpired | LRevoked

  datatype Intent = Intent(state: IntentState, state_event_id: Id, created_by: Id, corrections: seq<Id>)
  datatype Episode = Episode(intent_id: Id, state: EpisodeState, state_event_id: Id, started_by: Id,
    corrections: seq<Id>)
  datatype LeaseRecord = LeaseRecord(target: string, holder: Id, intent_id: Id, episode_id: Id, acquired_at: Millis,
    expires_at: Millis)
  datatype Lease = Lease(record: LeaseRecord, state: LeaseState, state_event_id: Id)

  datatype ClaimKind = ScopeClaim | OutcomeClaim | CorrectionClaim
  datatype Claim = Claim(kind: ClaimKind, intent_id: Id, episode_id: Option<Id>, corrects: Option<Id>)

  datatype ReceiptKind = EpisodeStartedReceipt | EpisodeFinishedReceipt | LeaseExpiredReceipt | CorrectionAppliedReceipt
  datatype Receipt = Receipt(kind: ReceiptKind, command_id: Id, principal_id: Id, subject_id: Id)

  datatype Work = Work(
    intents: map<Id, Intent>, episodes: map<Id, Episode>, claims: map<Id, Claim>,
    receipts: map<Id, Receipt>, leases: map<Id, Lease>)

  const NO_WORK := Work(map[], map[], map[], map[], map[])

  datatype Change =
    | IntentCreated(intent_id: Id, created_by: Id)
    | IntentTransitioned(intent_id: Id, ifrom: IntentState, ito: IntentState)
    | IntentCorrected(intent_id: Id, corrects: Id, ifrom: IntentState)
    | EpisodeStarted(episode_id: Id, of_intent: Id, started_by: Id)
    | EpisodeTransitioned(episode_id: Id, efrom: EpisodeState, eto: EpisodeState)
    | EpisodeCorrected(episode_id: Id, corrects: Id, efrom: EpisodeState)
    | ClaimRecorded(claim_id: Id, claim: Claim)
    | ReceiptRecorded(receipt_id: Id, receipt: Receipt)
    | LeaseAcquired(lease_id: Id, record: LeaseRecord)
    | LeaseMoved(lease_id: Id, lto: LeaseState, recorded_at: Millis)

  /** A work event inside the transaction of `command_id` by `principal_id`. */
  datatype WorkEvent = WorkEvent(event_id: Id, command_id: Id, principal_id: Id, change: Change)

  datatype Refusal =
    | Invalid | Duplicate | NotFound | StateMismatch | TargetLeased | LeaseNotActive | LeaseNotExpired
    | IdentityMismatch | NotActive | NotTerminal | HolderMismatch | Stale

  // ---------- The lifecycles ----------

  predicate IntentMay(f: IntentState, t: IntentState) {
    match f
    case IQueued => t in {IActive, IPaused, IBlocked, IAbandoned}
    case IActive => t in {IPaused, IBlocked, IReportedComplete, IAbandoned}
    case IPaused => t in {IActive, IBlocked, IAbandoned}
    case IBlocked => t in {IActive, IPaused, IAbandoned}
    case _ => false
  }

  predicate EpisodeMay(f: EpisodeState, t: EpisodeState) {
    match f
    case EActive => t in {EPaused, EBlocked, EReportedComplete, EFailed, EAbandoned}
    case EPaused => t in {EActive, EBlocked, EFailed, EAbandoned}
    case EBlocked => t in {EActive, EPaused, EFailed, EAbandoned}
    case _ => false
  }

  predicate IntentTerminal(s: IntentState) {
    s.IReportedComplete? || s.IAbandoned?
  }

  predicate EpisodeTerminal(s: EpisodeState) {
    s.EReportedComplete? || s.EFailed? || s.EAbandoned?
  }

  /** The shape checks an event passes before the reducer looks at any state. */
  predicate WellFormed(c: Change) {
    match c
    case IntentTransitioned(_, f, t) => IntentMay(f, t)
    case IntentCorrected(_, _, f) => IntentTerminal(f)
    case EpisodeTransitioned(_, f, t) => EpisodeMay(f, t)
    case EpisodeCorrected(_, _, f) => EpisodeTerminal(f)
    case LeaseAcquired(_, r) => r.acquired_at < r.expires_at
    case LeaseMoved(_, t, _) => !t.LActive?
    case _ => true
  }

  // ---------- The reducer ----------

  predicate TargetTaken(leases: map<Id, Lease>, target: string) {
    exists l :: l in leases && leases[l].state.LActive? && leases[l].record.target == target
  }

  function ApplyIntent(w: Work, e: WorkEvent): Result<Work, Refusal>
    requires e.change.IntentCreated? || e.change.IntentTransitioned? || e.change.IntentCorrected?
  {
    match e.change
    case IntentCreated(id, creator) =>
      if id in w.intents then Err(Duplicate)
      else Ok(w.(intents := w.intents[id := Intent(IQueued, e.event_id, creator, [])]))
    case IntentTransitioned(id, f, t) =>
      if id !in w.intents then Err(NotFound)
      else if w.intents[id].state != f then Err(StateMismatch)
      else Ok(w.(intents := w.intents[id := w.intents[id].(state := t, state_event_id := e.event_id)]))
    case IntentCorrected(id, corrects, f) =>
      if id !in w.intents then Err(NotFound)
      else if w.intents[id].state != f || w.intents[id].state_event_id != corrects then Err(Stale)
      else
        var i := w.intents[id];
        Ok(w.(intents := w.intents[id :=
          i.(state := IActive, state_event_id := e.event_id, corrections := i.corrections + [e.event_id])]))
  }

  function ApplyEpisode(w: Work, e: WorkEvent): Result<Work, Refusal>
    requires e.change.EpisodeStarted? || e.change.EpisodeTransitioned? || e.change.EpisodeCorrected?
  {
    match e.change
    case EpisodeStarted(id, intent, starter) =>
      if intent !in w.intents then Err(NotFound)
      else if id in w.episodes then Err(Duplicate)
      else Ok(w.(episodes := w.episodes[id := Episode(intent, EActive, e.event_id, starter, [])]))
    case EpisodeTransitioned(id, f, t) =>
      if id !in w.episodes then Err(NotFound)
      else if w.episodes[id].state != f then Err(StateMismatch)
      else Ok(w.(episodes := w.episodes[id := w.episodes[id].(state := t, state_event_id := e.event_id)]))
    case EpisodeCorrected(id, corrects, f) =>
      if id !in w.episodes then Err(NotFound)
      else if w.episodes[id].state != f || w.episodes[id].state_event_id != corrects then Err(Stale)
      else
        var p := w.episodes[id];
        Ok(w.(episodes := w.episodes[id :=
          p.(state := EActive, state_event_id := e.event_id, corrections := p.corrections + [e.event_id])]))
  }

  function ApplyRecord(w: Work, e: WorkEvent): Result<Work, Refusal>
    requires e.change.ClaimRecorded? || e.change.ReceiptRecorded?
  {
    match e.change
    case ClaimRecorded(id, c) =>
      if c.intent_id !in w.intents then Err(NotFound)
      else if c.episode_id.Some? && c.episode_id.value !in w.episodes then Err(NotFound)
      else if c.corrects.Some? && c.corrects.value !in w.claims then Err(NotFound)
      else if id in w.claims then Err(Duplicate)
      else Ok(w.(claims := w.claims[id := c]))
    case ReceiptRecorded(id, r) =>
      if r.command_id != e.command_id || r.principal_id != e.principal_id then Err(IdentityMismatch)
      else if (r.kind.EpisodeStartedReceipt? || r.kind.EpisodeFinishedReceipt?) && r.subject_id !in w.episodes
        then Err(NotFound)
      else if r.kind.LeaseExpiredReceipt? && r.subject_id !in w.leases then Err(NotFound)
      else if r.kind.CorrectionAppliedReceipt? && r.subject_id !in w.intents && r.subject_id !in w.episodes
        then Err(NotFound)
      else if id in w.receipts then Err(Duplicate)
      else Ok(w.(receipts := w.receipts[id := r]))
  }

  function ApplyLease(w: Work, e: WorkEvent): Result<Work, Refusal>
    requires e.change.LeaseAcquired? || e.change.LeaseMoved?
  {
    match e.change
    case LeaseAcquired(id, r) =>
      if r.intent_id !in w.intents || r.episode_id !in w.episodes then Err(NotFound)
      else if id in w.leases then Err(Duplicate)
      else if TargetTaken(w.leases, r.target) then Err(TargetLeased)
      else Ok(w.(leases := w.leases[id := Lease(r, LActive, e.event_id)]))
    case LeaseMoved(id, t, at) =>
      if id !in w.leases then Err(NotFound)
      else if !w.leases[id].state.LActive? then Err(LeaseNotActive)
      else if t.LExpired? && at < w.leases[id].record.expires_at then Err(LeaseNotExpired)
      else Ok(w.(leases := w.leases[id := w.leases[id].(state := t, state_event_id := e.event_id)]))
  }

  function Apply(w: Work, e: WorkEvent): Result<Work, Refusal> {
    if !WellFormed(e.change) then Err(Invalid)
    else match e.change
      case IntentCreated(_, _) => ApplyIntent(w, e)
      case IntentTransitioned(_, _, _) => ApplyIntent(w, e)
      case IntentCorrected(_, _, _) => ApplyIntent(w, e)
      case EpisodeStarted(_, _, _) => ApplyEpisode(w, e)
      case EpisodeTransitioned(_, _, _) => ApplyEpisode(w, e)
      case EpisodeCorrected(_, _, _) => ApplyEpisode(w, e)
      case ClaimRecorded(_, _) => ApplyRecord(w, e)
      case ReceiptRecorded(_, _) => ApplyRecord(w, e)
      case LeaseAcquired(_, _) => ApplyLease(w, e)
      case LeaseMoved(_, _, _) => ApplyLease(w, e)
  }

  function ApplyAll(w: Work, events: seq<WorkEvent>): Result<Work, Refusal>
    decreases |events|
  {
    if events == [] then Ok(w)
    else match Apply(w, events[0])
      case Err(r) => Err(r)
      case Ok(next) => ApplyAll(next, events[1..])
  }

  /** Reduction always starts over from an empty state. */
  function ReduceWork(events: seq<WorkEvent>): Result<Work, Refusal> {
    ApplyAll(NO_WORK, events)
  }

  lemma {:induction false} ApplyOneMore(w: Work, events: seq<WorkEvent>, e: WorkEvent)
    ensures ApplyAll(w, events + [e]) == (match ApplyAll(w, events) case Err(r) => Err(r) case Ok(x) => Apply(x, e))
    decreases |events|
  {
    hide Apply;
    if events == [] {
      assert events + [e] == [e] && [e][1..] == [];
      assert ApplyAll(w, [e]) == Apply(w, e) by { ApplyOne(w, e); }
    } else {
      assert (events + [e])[1..] == events[1..] + [e];
      if Apply(w, events[0]).Ok? {
        ApplyOneMore(Apply(w, events[0]).value, events[1..], e);
      }
    }
  }

  lemma ApplyOne(w: Work, e: WorkEvent)
    ensures ApplyAll(w, [e]) == Apply(w, e)
  {
    hide Apply;
    assert [e][1..] == [];
  }

  /** The reducer's loop over the log, which stops at the first event it refuses. */
  method ReduceWorkProjection(events: seq<WorkEvent>) returns (r: Result<Work, Refusal>)
    ensures r == ReduceWork(events)
  {
    hide Apply;
    var work := NO_WORK;
    for i := 0 to |events|
      invariant ApplyAll(NO_WORK, events[..i]) == Ok(work)
    {
      ApplyOneMore(NO_WORK, events[..i], events[i]);
      assert events[..i + 1] == events[..i] + [events[i]];
      var next := Apply(work, events[i]);
      if next.Err? {
        RefusalStops(NO_WORK, events, i + 1);
        return Err(next.error);
      }
      work := next.value;
    }
    assert events[..|events|] == events;
    return Ok(work);
  }

  lemma {:induction false} RefusalStops(w: Work, events: seq<WorkEvent>, k: nat)
    requires k <= |events| && ApplyAll(w, events[..k]).Err?
    ensures ApplyAll(w, events) == ApplyAll(w, events[..k])
    decreases k
  {
    hide Apply;
    if k > 0 && Apply(w, events[0]).Ok? {
      assert events[..k][1..] == events[1..][..k - 1];
      RefusalStops(Apply(w, events[0]).value, events[1..], k - 1);
    }
  }

  // ---------- The commands ----------

  datatype WorkRequest =
    | Open(intent_id: Id, episode_id: Id, claim_id: Id, receipt_id: Id, lease_id: Id, target: string,
      expires_at: Millis)
    | Finish(intent_id: Id, episode_id: Id, lease_id: Id, claim_id: Id, receipt_id: Id)
    | Expire(lease_id: Id, receipt_id: Id, observed_at: Millis)
    | Correct(
        intent_id: Id, episode_id: Id, intent_event_id: Id, episode_event_id: Id, claim_id: Id,
        receipt_id: Id, lease_id: Id, target: string, expires_at: Millis)

  /** Who asks, when, and the event identities the command will draw. */
  datatype Context = Context(principal_id: Id, command_id: Id, now: Millis, ids: nat -> Id)

  function Emit(x: Context, k: nat, change: Change): WorkEvent {
    WorkEvent(x.ids(k), x.command_id, x.principal_id, change)
  }

  function ReceiptFor(x: Context, kind: ReceiptKind, subject: Id): Receipt {
    Receipt(kind, x.command_id, x.principal_id, subject)
  }

  function PlanOpen(w: Work, x: Context, r: WorkRequest): Result<seq<WorkEvent>, Refusal>
    requires r.Open?
  {
    if r.intent_id in w.intents || r.episode_id in w.episodes || r.claim_id in w.claims
       || r.receipt_id in w.receipts || r.lease_id in w.leases then Err(Duplicate)
    else if TargetTaken(w.leases, r.target) then Err(TargetLeased)
    else if r.expires_at <= x.now then Err(Invalid)
    else Ok([
      Emit(x, 0, IntentCreated(r.intent_id, x.principal_id)),
      Emit(x, 1, IntentTransitioned(r.intent_id, IQueued, IActive)),
      Emit(x, 2, EpisodeStarted(r.episode_id, r.intent_id, x.principal_id)),
      Emit(x, 3, ClaimRecorded(r.claim_id, Claim(ScopeClaim, r.intent_id, Some(r.episode_id), None))),
      Emit(x, 4, LeaseAcquired(r.lease_id,
        LeaseRecord(r.target, x.principal_id, r.intent_id, r.episode_id, x.now, r.expires_at))),
      Emit(x, 5, ReceiptRecorded(r.receipt_id, ReceiptFor(x, EpisodeStartedReceipt, r.episode_id)))])
  }

  function PlanFinish(w: Work, x: Context, r: WorkRequest): Result<seq<WorkEvent>, Refusal>
    requires r.Finish?
  {
    if r.intent_id !in w.intents || r.episode_id !in w.episodes || r.lease_id !in w.leases then Err(NotFound)
    else if r.claim_id in w.claims || r.receipt_id in w.receipts then Err(Duplicate)
    else
      var episode := w.episodes[r.episode_id];
      var lease := w.leases[r.lease_id];
      if episode.intent_id != r.intent_id || lease.record.intent_id != r.intent_id
        || lease.record.episode_id != r.episode_id
      then Err(IdentityMismatch)
      else if !w.intents[r.intent_id].state.IActive? || !episode.state.EActive? then Err(NotActive)
      else if !lease.state.LActive? then Err(LeaseNotActive)
      else if lease.record.holder != x.principal_id then Err(HolderMismatch)
      else Ok([
        Emit(x, 0, EpisodeTransitioned(r.episode_id, EActive, EReportedComplete)),
        Emit(x, 1, IntentTransitioned(r.intent_id, IActive, IReportedComplete)),
        Emit(x, 2, ClaimRecorded(r.claim_id, Claim(OutcomeClaim, r.intent_id, Some(r.episode_id), None))),
        Emit(x, 3, LeaseMoved(r.lease_id, LReleased, x.now)),
        Emit(x, 4, ReceiptRecorded(r.receipt_id, ReceiptFor(x, EpisodeFinishedReceipt, r.episode_id)))])
  }

  function PlanExpiry(w: Work, x: Context, r: WorkRequest): Result<seq<WorkEvent>, Refusal>
    requires r.Expire?
  {
    if r.lease_id !in w.leases then Err(NotFound)
    else if r.receipt_id in w.receipts then Err(Duplicate)
    else if !w.leases[r.lease_id].state.LActive? then Err(LeaseNotActive)
    else if r.observed_at < w.leases[r.lease_id].record.expires_at then Err(LeaseNotExpired)
    else Ok([
      Emit(x, 0, LeaseMoved(r.lease_id, LExpired, r.observed_at)),
      Emit(x, 1, ReceiptRecorded(r.receipt_id, ReceiptFor(x, LeaseExpiredReceipt, r.lease_id)))])
  }

  function PlanCorrection(w: Work, x: Context, r: WorkRequest): Result<seq<WorkEvent>, Refusal>
    requires r.Correct?
  {
    if r.intent_id !in w.intents || r.episode_id !in w.episodes then Err(NotFound)
    else if r.claim_id in w.claims || r.receipt_id in w.receipts || r.lease_id in w.leases then Err(Duplicate)
    else
      var intent := w.intents[r.intent_id];
      var episode := w.episodes[r.episode_id];
      if episode.intent_id != r.intent_id then Err(IdentityMismatch)
      else if intent.state_event_id != r.intent_event_id || episode.state_event_id != r.episode_event_id then Err(Stale)
      else if !IntentTerminal(intent.state) || !EpisodeTerminal(episode.state) then Err(NotTerminal)
      else if TargetTaken(w.leases, r.target) then Err(TargetLeased)
      else if r.expires_at <= x.now then Err(Invalid)
      else Ok([
        Emit(x, 0, IntentCorrected(r.intent_id, r.intent_event_id, intent.state)),
        Emit(x, 1, EpisodeCorrected(r.episode_id, r.episode_event_id, episode.state)),
        Emit(x, 2, ClaimRecorded(r.claim_id, Claim(CorrectionClaim, r.intent_id, Some(r.episode_id), None))),
        Emit(x, 3, LeaseAcquired(r.lease_id,
          LeaseRecord(r.target, x.principal_id, r.intent_id, r.episode_id, x.now, r.expires_at))),
        Emit(x, 4, ReceiptRecorded(r.receipt_id, ReceiptFor(x, CorrectionAppliedReceipt, r.episode_id)))])
  }

  function Plan(w: Work, x: Context, r: WorkRequest): Result<seq<WorkEvent>, Refusal> {
    match r
    case Open(_, _, _, _, _, _, _) => PlanOpen(w, x, r)
    case Finish(_, _, _, _, _) => PlanFinish(w, x, r)
    case Expire(_, _, _) => PlanExpiry(w, x, r)
    case Correct(_, _, _, _, _, _, _, _, _) => PlanCorrection(w, x, r)
  }
}
