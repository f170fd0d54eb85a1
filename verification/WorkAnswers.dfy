/**
 When a native work command takes effect and why it is refused, told by the state and the request alone;
 who may finish work; and how an accepted event may move an intent or an episode.
 */
module WorkAnswers {
  import opened Wrappers
  import opened ProjectTypes
  import opened WorkLifecycle
  import opened WorkSafety

  // ---------- Conditions on the state and the request ----------

  ghost predicate TargetFree(w: Work, target: string) {
    forall l :: l in w.leases && w.leases[l].state == LActive ==> w.leases[l].record.target != target
  }

  predicate Unused(w: Work, claim: Id, receipt: Id) {
    claim !in w.claims && receipt !in w.receipts
  }

  /** Nothing the opening names exists yet. */
  predicate AllNew(w: Work, r: WorkRequest)
    requires r.Open?
  {
    r.intent_id !in w.intents && r.episode_id !in w.episodes && r.lease_id !in w.leases
    && Unused(w, r.claim_id, r.receipt_id)
  }

  predicate AllThere(w: Work, r: WorkRequest)
    requires r.Finish?
  {
    r.intent_id in w.intents && r.episode_id in w.episodes && r.lease_id in w.leases
  }

  /** The episode is of the intent, and the lease was taken for both. */
  predicate OfOneWork(w: Work, r: WorkRequest)
    requires r.Finish? && AllThere(w, r)
  {
    && w.episodes[r.episode_id].intent_id == r.intent_id
    && w.leases[r.lease_id].record.intent_id == r.intent_id
    && w.leases[r.lease_id].record.episode_id == r.episode_id
  }

  predicate BothActive(w: Work, r: WorkRequest)
    requires r.Finish? && AllThere(w, r)
  {
    w.intents[r.intent_id].state == IActive && w.episodes[r.episode_id].state == EActive
  }

  predicate PairThere(w: Work, r: WorkRequest)
    requires r.Correct?
  {
    r.intent_id in w.intents && r.episode_id in w.episodes
  }

  /** The events to be corrected are the last ones that moved the intent and the episode. */
  predicate NamesLastEvents(w: Work, r: WorkRequest)
    requires r.Correct? && PairThere(w, r)
  {
    w.intents[r.intent_id].state_event_id == r.intent_event_id
    && w.episodes[r.episode_id].state_event_id == r.episode_event_id
  }

  predicate BothEnded(w: Work, r: WorkRequest)
    requires r.Correct? && PairThere(w, r)
  {
    && w.intents[r.intent_id].state in {IReportedComplete, IAbandoned}
    && w.episodes[r.episode_id].state in {EReportedComplete, EFailed, EAbandoned}
  }

  /** What each command needs; only finishing asks who asks. */
  ghost predicate May(w: Work, c: Command) {
    var r, asks, now := c.request, c.context.principal_id, c.context.now;
    match r
    case Open(_, _, _, _, _, target, expires) => AllNew(w, r) && TargetFree(w, target) && now < expires
    case Finish(_, _, lease, claim, receipt) =>
      && AllThere(w, r) && Unused(w, claim, receipt) && OfOneWork(w, r) && BothActive(w, r)
      && w.leases[lease].state == LActive && w.leases[lease].record.holder == asks
    case Expire(lease, receipt, observed) =>
      && lease in w.leases && receipt !in w.receipts
      && w.leases[lease].state == LActive && w.leases[lease].record.expires_at <= observed
    case Correct(intent, episode, _, _, claim, receipt, lease, target, expires) =>
      && PairThere(w, r) && Unused(w, claim, receipt) && lease !in w.leases
      && w.episodes[episode].intent_id == intent && NamesLastEvents(w, r) && BothEnded(w, r)
      && TargetFree(w, target) && now < expires
  }

  lemma FreeExactly(w: Work, target: string)
    ensures TargetFree(w, target) <==> !TargetTaken(w.leases, target)
  {
  }

  // ---------- When each command takes effect, and why not ----------

  /** Every refusal of an opening, in the order the conditions are looked at. */
  lemma OpenRefusedExactly(w: Work, x: Context, r: WorkRequest)
    requires r.Open?
    ensures Plan(w, x, r).Ok? <==> May(w, Command(x, r))
    ensures Plan(w, x, r) == Err(Duplicate) <==> !AllNew(w, r)
    ensures Plan(w, x, r) == Err(TargetLeased) <==> AllNew(w, r) && !TargetFree(w, r.target)
    ensures Plan(w, x, r) == Err(Invalid) <==> AllNew(w, r) && TargetFree(w, r.target) && r.expires_at <= x.now
  {
    hide TargetFree, TargetTaken;
    FreeExactly(w, r.target);
  }

  /** Every refusal of finishing: another principal than the holder is turned away though all else is in order. */
  lemma FinishRefusedExactly(w: Work, x: Context, r: WorkRequest)
    requires r.Finish?
    ensures Plan(w, x, r).Ok? <==> May(w, Command(x, r))
    ensures Plan(w, x, r) == Err(NotFound) <==> !AllThere(w, r)
    ensures Plan(w, x, r) == Err(Duplicate) <==> AllThere(w, r) && !Unused(w, r.claim_id, r.receipt_id)
    ensures AllThere(w, r) && Unused(w, r.claim_id, r.receipt_id) ==>
              var lease := w.leases[r.lease_id];
              && (Plan(w, x, r) == Err(IdentityMismatch) <==> !OfOneWork(w, r))
              && (Plan(w, x, r) == Err(NotActive) <==> OfOneWork(w, r) && !BothActive(w, r))
              && (Plan(w, x, r) == Err(LeaseNotActive) <==>
                  OfOneWork(w, r) && BothActive(w, r) && lease.state != LActive)
              && (Plan(w, x, r) == Err(HolderMismatch) <==>
                  OfOneWork(w, r) && BothActive(w, r) && lease.state == LActive
                    && lease.record.holder != x.principal_id)
  {
  }

  lemma ExpiryRefusedExactly(w: Work, x: Context, r: WorkRequest)
    requires r.Expire?
    ensures Plan(w, x, r).Ok? <==> May(w, Command(x, r))
    ensures Plan(w, x, r) == Err(NotFound) <==> r.lease_id !in w.leases
    ensures Plan(w, x, r) == Err(Duplicate) <==> r.lease_id in w.leases && r.receipt_id in w.receipts
    ensures r.lease_id in w.leases && r.receipt_id !in w.receipts ==>
              var lease := w.leases[r.lease_id];
              && (Plan(w, x, r) == Err(LeaseNotActive) <==> lease.state != LActive)
              && (Plan(w, x, r) == Err(LeaseNotExpired) <==>
                  lease.state == LActive && r.observed_at < lease.record.expires_at)
  {
  }

  lemma CorrectionRefusedExactly(w: Work, x: Context, r: WorkRequest)
    requires r.Correct?
    ensures Plan(w, x, r).Ok? <==> May(w, Command(x, r))
    ensures Plan(w, x, r) == Err(NotFound) <==> !PairThere(w, r)
    ensures Plan(w, x, r) == Err(Duplicate) <==>
              PairThere(w, r) && !(Unused(w, r.claim_id, r.receipt_id) && r.lease_id !in w.leases)
    ensures PairThere(w, r) && Unused(w, r.claim_id, r.receipt_id) && r.lease_id !in w.leases ==>
              var own := w.episodes[r.episode_id].intent_id == r.intent_id;
              && (Plan(w, x, r) == Err(IdentityMismatch) <==> !own)
              && (Plan(w, x, r) == Err(Stale) <==> own && !NamesLastEvents(w, r))
              && (Plan(w, x, r) == Err(NotTerminal) <==> own && NamesLastEvents(w, r) && !BothEnded(w, r))
              && (Plan(w, x, r) == Err(TargetLeased) <==>
                  own && NamesLastEvents(w, r) && BothEnded(w, r) && !TargetFree(w, r.target))
              && (Plan(w, x, r) == Err(Invalid) <==>
                  && own && NamesLastEvents(w, r) && BothEnded(w, r)
                  && TargetFree(w, r.target) && r.expires_at <= x.now)
  {
    hide TargetFree, TargetTaken;
    FreeExactly(w, r.target);
  }

  // ---------- What it leaves ----------

  /** The lease a command takes: the asking principal's, from now until the time asked for. */
  predicate TakenBy(x: Context, r: WorkRequest, lease: Lease)
    requires r.Open? || r.Correct?
  {
    && lease.state == LActive && lease.record.holder == x.principal_id && lease.record.target == r.target
    && lease.record.intent_id == r.intent_id && lease.record.episode_id == r.episode_id
    && lease.record.acquired_at == x.now && lease.record.expires_at == r.expires_at
  }

  predicate OnlyAt<T(==)>(before: map<Id, T>, after: map<Id, T>, k: Id) {
    after.Keys == before.Keys + {k} && forall i :: i in before && i != k ==> after[i] == before[i]
  }

  predicate Receipted(w: Work, v: Work, x: Context, id: Id, kind: ReceiptKind, subject: Id) {
    && OnlyAt(w.receipts, v.receipts, id)
    && v.receipts[id].kind == kind && v.receipts[id].subject_id == subject
    && v.receipts[id].command_id == x.command_id && v.receipts[id].principal_id == x.principal_id
  }

  /** One intent, episode, claim, receipt and lease each, and nothing else, is new or changed. */
  predicate Touches(
    w: Work, v: Work, x: Context, r: WorkRequest, intent: IntentState, episode: EpisodeState, claim: ClaimKind,
      receipt: ReceiptKind)
    requires !r.Expire?
  {
    && OnlyAt(w.intents, v.intents, r.intent_id) && v.intents[r.intent_id].state == intent
    && OnlyAt(w.episodes, v.episodes, r.episode_id) && v.episodes[r.episode_id].state == episode
    && v.episodes[r.episode_id].intent_id == r.intent_id
    && OnlyAt(w.claims, v.claims, r.claim_id)
    && v.claims[r.claim_id] == Claim(claim, r.intent_id, Some(r.episode_id), None)
    && Receipted(w, v, x, r.receipt_id, receipt, r.episode_id)
    && OnlyAt(w.leases, v.leases, r.lease_id)
  }

  /** The state after a command that takes effect. */
  predicate Leaves(w: Work, c: Command, v: Work) {
    var x, r := c.context, c.request;
    match r
    case Open(intent, episode, _, _, lease, _, _) =>
      && Touches(w, v, x, r, IActive, EActive, ScopeClaim, EpisodeStartedReceipt) && TakenBy(x, r, v.leases[lease])
      && v.intents[intent].created_by == x.principal_id && v.episodes[episode].started_by == x.principal_id
      && v.intents[intent].corrections == [] && v.episodes[episode].corrections == []
    case Finish(intent, episode, lease, _, _) =>
      && Touches(w, v, x, r, IReportedComplete, EReportedComplete, OutcomeClaim, EpisodeFinishedReceipt)
      && AllThere(w, r) && v.leases[lease].state == LReleased && v.leases[lease].record == w.leases[lease].record
      && v.intents[intent].created_by == w.intents[intent].created_by
      && v.episodes[episode].started_by == w.episodes[episode].started_by
      && v.intents[intent].corrections == w.intents[intent].corrections
      && v.episodes[episode].corrections == w.episodes[episode].corrections
    case Expire(lease, receipt, _) =>
      && v.intents == w.intents && v.episodes == w.episodes && v.claims == w.claims
      && Receipted(w, v, x, receipt, LeaseExpiredReceipt, lease)
      && lease in w.leases && OnlyAt(w.leases, v.leases, lease)
      && v.leases[lease].state == LExpired && v.leases[lease].record == w.leases[lease].record
    case Correct(intent, episode, _, _, _, _, lease, _, _) =>
      && Touches(w, v, x, r, IActive, EActive, CorrectionClaim, CorrectionAppliedReceipt)
      && TakenBy(x, r, v.leases[lease])
      && PairThere(w, r) && v.intents[intent].created_by == w.intents[intent].created_by
      && v.episodes[episode].started_by == w.episodes[episode].started_by
      && w.intents[intent].corrections + [v.intents[intent].state_event_id] == v.intents[intent].corrections
      && w.episodes[episode].corrections + [v.episodes[episode].state_event_id] == v.episodes[episode].corrections
  }

  lemma MayExactly(w: Work, c: Command)
    ensures Plan(w, c.context, c.request).Ok? <==> May(w, c)
  {
    hide May, Plan;
    var x, r := c.context, c.request;
    match r
    case Open(_, _, _, _, _, _, _) => OpenRefusedExactly(w, x, r);
    case Finish(_, _, _, _, _) => FinishRefusedExactly(w, x, r);
    case Expire(_, _, _) => ExpiryRefusedExactly(w, x, r);
    case Correct(_, _, _, _, _, _, _, _, _) => CorrectionRefusedExactly(w, x, r);
  }

  lemma OpenLeaves(w: Work, x: Context, r: WorkRequest)
    requires r.Open? && AllNew(w, r)
    ensures Leaves(w, Command(x, r), Opened(w, x, r))
  {
  }

  lemma FinishLeaves(w: Work, x: Context, r: WorkRequest)
    requires r.Finish? && AllThere(w, r) && OfOneWork(w, r)
    ensures Leaves(w, Command(x, r), Finished(w, x, r))
  {
  }

  lemma ExpiryLeaves(w: Work, x: Context, r: WorkRequest)
    requires r.Expire? && r.lease_id in w.leases
    ensures Leaves(w, Command(x, r), Expired(w, x, r))
  {
  }

  lemma CorrectionLeaves(w: Work, x: Context, r: WorkRequest)
    requires r.Correct? && PairThere(w, r) && w.episodes[r.episode_id].intent_id == r.intent_id
    ensures Leaves(w, Command(x, r), Corrected(w, x, r))
  {
  }

  /** A command takes effect exactly when it may, and then leaves exactly this; otherwise nothing changes. */
  lemma TakesEffectExactly(w: Work, c: Command)
    ensures May(w, c) ==> Leaves(w, c, Perform(w, c))
    ensures !May(w, c) ==> Perform(w, c) == w
    ensures May(w, c) <==> Perform(w, c) != w
  {
    hide ApplyAll, Leaves, TargetFree, TargetTaken, Opened, Finished, Expired, Corrected;
    MayExactly(w, c);
    var x, r := c.context, c.request;
    if May(w, c) {
      match r {
        case Open(_, _, _, _, _, _, _) => OpenApplies(w, x, r); OpenLeaves(w, x, r);
        case Finish(_, _, _, _, _) => FinishApplies(w, x, r); FinishLeaves(w, x, r);
        case Expire(_, _, _) => ExpiryApplies(w, x, r); ExpiryLeaves(w, x, r);
        case Correct(_, _, _, _, _, _, _, _, _) => CorrectionApplies(w, x, r); CorrectionLeaves(w, x, r);
      }
      NewReceipt(w, c, Perform(w, c));
    } else {
      NothingToApply(w);
    }
  }

  lemma NewReceipt(w: Work, c: Command, v: Work)
    requires May(w, c) && Leaves(w, c, v)
    ensures v != w
  {
    assert c.request.receipt_id in v.receipts && c.request.receipt_id !in w.receipts;
  }

  // ---------- Who may finish work ----------

  /** What closes an active lease: its holder's finish, or an expiry once it has run out. */
  predicate Closes(c: Command, l: Id, lease: Lease, after: LeaseState) {
    match after
    case LReleased => c.request.Finish? && c.request.lease_id == l && c.context.principal_id == lease.record.holder
    case LExpired => c.request.Expire? && c.request.lease_id == l && lease.record.expires_at <= c.request.observed_at
    case _ => false
  }

  /** Of the leases that exist, a command that takes effect touches at most the active one it names. */
  lemma LeasesAfter(w: Work, c: Command, v: Work, l: Id)
    requires May(w, c) && Leaves(w, c, v) && l in w.leases
    ensures l in v.leases && v.leases[l].record == w.leases[l].record
    ensures v.leases[l] == w.leases[l] || (Active(w.leases, l) && Closes(c, l, w.leases[l], v.leases[l].state))
  {
    hide TargetFree, BothActive, OfOneWork, BothEnded, NamesLastEvents, TakenBy, Receipted;
  }

  /** In any state: a command that turns an active lease into another state may do so. */
  lemma OnlyHolderReleases(w: Work, c: Command, l: Id)
    requires Active(w.leases, l)
    ensures var v := Perform(w, c);
      && l in v.leases && v.leases[l].record == w.leases[l].record
      && (Active(v.leases, l) ==> v.leases[l] == w.leases[l])
      && (!Active(v.leases, l) ==> Closes(c, l, w.leases[l], v.leases[l].state))
  {
    hide Perform, May, Leaves;
    TakesEffectExactly(w, c);
    if May(w, c) {
      LeasesAfter(w, c, Perform(w, c), l);
    }
  }

  /** Over any run: a lease that is no longer active was closed by one command of the run that had the right to. */
  lemma {:induction false} ClosedRightfully(w: Work, commands: seq<Command>, l: Id)
    requires Active(w.leases, l)
    ensures var v := Performed(w, commands);
      && l in v.leases && v.leases[l].record == w.leases[l].record
      && (!Active(v.leases, l) ==>
            exists i :: 0 <= i < |commands| && Closes(commands[i], l, w.leases[l], v.leases[l].state))
    decreases |commands|
  {
    hide Perform, Closes;
    if commands != [] {
      var c, rest := commands[0], commands[1..];
      var next := Perform(w, c);
      OnlyHolderReleases(w, c, l);
      if Active(next.leases, l) {
        ClosedRightfully(next, rest, l);
        if !Active(Performed(next, rest).leases, l) {
          var i :| 0 <= i < |rest| && Closes(rest[i], l, next.leases[l], Performed(next, rest).leases[l].state);
          assert commands[i + 1] == rest[i];
        }
      } else {
        ClosedStaysClosed(next, rest, l);
      }
    }
  }

  lemma {:induction false} ClosedStaysClosed(w: Work, commands: seq<Command>, l: Id)
    requires l in w.leases && !w.leases[l].state.LActive?
    ensures var v := Performed(w, commands); l in v.leases && v.leases[l] == w.leases[l]
    decreases |commands|
  {
    hide Perform;
    if commands != [] {
      ClosedByNone(w, commands[0], l);
      ClosedStaysClosed(Perform(w, commands[0]), commands[1..], l);
    }
  }

  lemma ClosedByNone(w: Work, c: Command, l: Id)
    requires l in w.leases && !w.leases[l].state.LActive?
    ensures var v := Perform(w, c); l in v.leases && v.leases[l] == w.leases[l]
  {
    hide Perform, May, Leaves;
    TakesEffectExactly(w, c);
    if May(w, c) {
      LeasesAfter(w, c, Perform(w, c), l);
    }
  }

  /** Anna's work, and Ben who asks to finish it. */
  lemma HolderMismatchIsRefused(opening: Context, finishing: Context)
    requires opening.principal_id != finishing.principal_id && opening.now < 10
    ensures var w := Perform(NO_WORK, Command(opening, Open("i", "e", "c", "r", "l", "target", 10)));
      var finish := Finish("i", "e", "l", "c2", "r2");
      && Active(w.leases, "l") && w.leases["l"].record.holder == opening.principal_id
      && Plan(w, finishing, finish) == Err(HolderMismatch) && Perform(w, Command(finishing, finish)) == w
      && Plan(w, opening, finish).Ok?
  {
    hide Perform, Plan;
    var open := Open("i", "e", "c", "r", "l", "target", 10);
    var finish := Finish("i", "e", "l", "c2", "r2");
    var w := Perform(NO_WORK, Command(opening, open));
    TakesEffectExactly(NO_WORK, Command(opening, open));
    assert May(NO_WORK, Command(opening, open));
    FinishRefusedExactly(w, finishing, finish);
    FinishRefusedExactly(w, opening, finish);
    TakesEffectExactly(w, Command(finishing, finish));
  }

  // ---------- How any accepted event moves intents and episodes ----------

  /** The edges of the two lifecycles, as lists. */
  const INTENT_EDGES := {
    (IQueued, IActive), (IQueued, IPaused), (IQueued, IBlocked), (IQueued, IAbandoned),
    (IActive, IPaused), (IActive, IBlocked), (IActive, IReportedComplete), (IActive, IAbandoned),
    (IPaused, IActive), (IPaused, IBlocked), (IPaused, IAbandoned),
    (IBlocked, IActive), (IBlocked, IPaused), (IBlocked, IAbandoned)}

  const EPISODE_EDGES := {
    (EActive, EPaused), (EActive, EBlocked), (EActive, EReportedComplete), (EActive, EFailed), (EActive, EAbandoned),
    (EPaused, EActive), (EPaused, EBlocked), (EPaused, EFailed), (EPaused, EAbandoned),
    (EBlocked, EActive), (EBlocked, EPaused), (EBlocked, EFailed), (EBlocked, EAbandoned)}

  /** An intent keeps its state, follows an edge, or is reopened by a correction of the very event that ended it. */
  predicate IntentMoves(i: Intent, j: Intent, e: WorkEvent) {
    || j == i
    || (&& j.state_event_id == e.event_id && j.created_by == i.created_by
        && if (i.state, j.state) in INTENT_EDGES then j.corrections == i.corrections
           else
             && i.state in {IReportedComplete, IAbandoned} && j.state == IActive
             && e.change.IntentCorrected? && e.change.corrects == i.state_event_id
             && j.corrections == i.corrections + [e.event_id])
  }

  predicate EpisodeMoves(p: Episode, q: Episode, e: WorkEvent) {
    || q == p
    || (&& q.state_event_id == e.event_id && q.started_by == p.started_by && q.intent_id == p.intent_id
        && if (p.state, q.state) in EPISODE_EDGES then q.corrections == p.corrections
           else
             && p.state in {EReportedComplete, EFailed, EAbandoned} && q.state == EActive
             && e.change.EpisodeCorrected? && e.change.corrects == p.state_event_id
             && q.corrections == p.corrections + [e.event_id])
  }

  predicate IntentsMove(w: Work, v: Work, e: WorkEvent) {
    && (forall i :: i in w.intents ==> i in v.intents && IntentMoves(w.intents[i], v.intents[i], e))
    && (forall i :: i in v.intents && i !in w.intents ==> v.intents[i].state == IQueued)
  }

  predicate EpisodesMove(w: Work, v: Work, e: WorkEvent) {
    && (forall p :: p in w.episodes ==> p in v.episodes && EpisodeMoves(w.episodes[p], v.episodes[p], e))
    && (forall p :: p in v.episodes && p !in w.episodes ==>
          v.episodes[p].intent_id in w.intents && v.episodes[p].state == EActive)
  }

  predicate ClaimsGrow(w: Work, v: Work) {
    && (forall c :: c in w.claims ==> c in v.claims && v.claims[c] == w.claims[c])
    && (forall c :: c in v.claims && c !in w.claims ==>
          && v.claims[c].intent_id in w.intents
          && (v.claims[c].episode_id == None || v.claims[c].episode_id.value in w.episodes)
          && (v.claims[c].corrects == None || v.claims[c].corrects.value in w.claims))
  }

  predicate ReceiptsGrow(w: Work, v: Work, e: WorkEvent) {
    && (forall r :: r in w.receipts ==> r in v.receipts && v.receipts[r] == w.receipts[r])
    && (forall r :: r in v.receipts && r !in w.receipts ==> ReceiptRefers(w, e, v.receipts[r]))
  }

  predicate ReceiptRefers(w: Work, e: WorkEvent, r: Receipt) {
    && r.command_id == e.command_id && r.principal_id == e.principal_id
    && match r.kind
       case EpisodeStartedReceipt => r.subject_id in w.episodes
       case EpisodeFinishedReceipt => r.subject_id in w.episodes
       case LeaseExpiredReceipt => r.subject_id in w.leases
       case CorrectionAppliedReceipt => r.subject_id in w.intents || r.subject_id in w.episodes
  }

  predicate LeasesRefer(w: Work, v: Work) {
    forall l :: l in v.leases && l !in w.leases ==>
      && v.leases[l].state == LActive && v.leases[l].record.acquired_at < v.leases[l].record.expires_at
      && v.leases[l].record.intent_id in w.intents && v.leases[l].record.episode_id in w.episodes
  }

  predicate Lawful(w: Work, v: Work, e: WorkEvent) {
    IntentsMove(w, v, e) && EpisodesMove(w, v, e) && ClaimsGrow(w, v) && ReceiptsGrow(w, v, e) && LeasesRefer(w, v)
  }

  lemma IntentEventIsLawful(w: Work, e: WorkEvent)
    requires (e.change.IntentCreated? || e.change.IntentTransitioned? || e.change.IntentCorrected?)
    requires WellFormed(e.change) && ApplyIntent(w, e).Ok?
    ensures Lawful(w, ApplyIntent(w, e).value, e)
  {
  }

  lemma EpisodeEventIsLawful(w: Work, e: WorkEvent)
    requires (e.change.EpisodeStarted? || e.change.EpisodeTransitioned? || e.change.EpisodeCorrected?)
    requires WellFormed(e.change) && ApplyEpisode(w, e).Ok?
    ensures Lawful(w, ApplyEpisode(w, e).value, e)
  {
  }

  lemma RecordEventIsLawful(w: Work, e: WorkEvent)
    requires (e.change.ClaimRecorded? || e.change.ReceiptRecorded?) && ApplyRecord(w, e).Ok?
    ensures Lawful(w, ApplyRecord(w, e).value, e)
  {
  }

  lemma LeaseEventIsLawful(w: Work, e: WorkEvent)
    requires (e.change.LeaseAcquired? || e.change.LeaseMoved?) && WellFormed(e.change) && ApplyLease(w, e).Ok?
    ensures Lawful(w, ApplyLease(w, e).value, e)
  {
  }

  /**
   In any log: what has ended comes back only by a correction that names the event it ended with; what is
   added refers only to what is there, and a receipt is of the command that carries it.
   */
  lemma LifecyclesAreKept(w: Work, e: WorkEvent)
    requires Apply(w, e).Ok?
    ensures Lawful(w, Apply(w, e).value, e)
  {
    hide WellFormed, ApplyIntent, ApplyEpisode, ApplyRecord, ApplyLease, Lawful;
    match e.change
    case IntentCreated(_, _) => IntentEventIsLawful(w, e);
    case IntentTransitioned(_, _, _) => IntentEventIsLawful(w, e);
    case IntentCorrected(_, _, _) => IntentEventIsLawful(w, e);
    case EpisodeStarted(_, _, _) => EpisodeEventIsLawful(w, e);
    case EpisodeTransitioned(_, _, _) => EpisodeEventIsLawful(w, e);
    case EpisodeCorrected(_, _, _) => EpisodeEventIsLawful(w, e);
    case ClaimRecorded(_, _) => RecordEventIsLawful(w, e);
    case ReceiptRecorded(_, _) => RecordEventIsLawful(w, e);
    case LeaseAcquired(_, _) => LeaseEventIsLawful(w, e);
    case LeaseMoved(_, _, _) => LeaseEventIsLawful(w, e);
  }

  /** Conversely every edge, and every correction of the last event of what has ended, is accepted. */
  lemma LifecyclesAreOpen(w: Work, e: WorkEvent)
    ensures e.change.IntentTransitioned? && e.change.intent_id in w.intents ==>
              (Apply(w, e).Ok? <==> w.intents[e.change.intent_id].state == e.change.ifrom
                                    && (e.change.ifrom, e.change.ito) in INTENT_EDGES)
    ensures e.change.EpisodeTransitioned? && e.change.episode_id in w.episodes ==>
              (Apply(w, e).Ok? <==> w.episodes[e.change.episode_id].state == e.change.efrom
                                    && (e.change.efrom, e.change.eto) in EPISODE_EDGES)
    ensures e.change.IntentCorrected? && e.change.intent_id in w.intents ==>
              (Apply(w, e).Ok? <==> var i := w.intents[e.change.intent_id];
                i.state == e.change.ifrom && i.state in {IReportedComplete, IAbandoned}
                && i.state_event_id == e.change.corrects)
    ensures e.change.EpisodeCorrected? && e.change.episode_id in w.episodes ==>
              (Apply(w, e).Ok? <==> var p := w.episodes[e.change.episode_id];
                p.state == e.change.efrom && p.state in {EReportedComplete, EFailed, EAbandoned}
                && p.state_event_id == e.change.corrects)
  {
  }
}
