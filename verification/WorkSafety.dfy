/** What holds in every state that native work commands can reach, and what the reducer alone guarantees. */
module WorkSafety {
  import opened Wrappers
  import opened ProjectTypes
  import opened WorkLifecycle

  // ---------- What each command does, as one change of state ----------

  function Opened(w: Work, x: Context, r: WorkRequest): Work
    requires r.Open?
  {
    Work(
      w.intents[r.intent_id := Intent(IActive, x.ids(1), x.principal_id, [])],
      w.episodes[r.episode_id := Episode(r.intent_id, EActive, x.ids(2), x.principal_id, [])],
      w.claims[r.claim_id := Claim(ScopeClaim, r.intent_id, Some(r.episode_id), None)],
      w.receipts[r.receipt_id := ReceiptFor(x, EpisodeStartedReceipt, r.episode_id)],
      w.leases[r.lease_id := Lease(
        LeaseRecord(r.target, x.principal_id, r.intent_id, r.episode_id, x.now, r.expires_at), LActive, x.ids(4))])
  }

  predicate Finds(w: Work, intent: Id, episode: Id) {
    intent in w.intents && episode in w.episodes
  }

  function Finished(w: Work, x: Context, r: WorkRequest): Work
    requires r.Finish? && Finds(w, r.intent_id, r.episode_id) && r.lease_id in w.leases
  {
    Work(
      w.intents[r.intent_id := w.intents[r.intent_id].(state := IReportedComplete, state_event_id := x.ids(1))],
      w.episodes[r.episode_id := w.episodes[r.episode_id].(state := EReportedComplete, state_event_id := x.ids(0))],
      w.claims[r.claim_id := Claim(OutcomeClaim, r.intent_id, Some(r.episode_id), None)],
      w.receipts[r.receipt_id := ReceiptFor(x, EpisodeFinishedReceipt, r.episode_id)],
      w.leases[r.lease_id := w.leases[r.lease_id].(state := LReleased, state_event_id := x.ids(3))])
  }

  function Expired(w: Work, x: Context, r: WorkRequest): Work
    requires r.Expire? && r.lease_id in w.leases
  {
    w.(leases := w.leases[r.lease_id := w.leases[r.lease_id].(state := LExpired, state_event_id := x.ids(0))],
       receipts := w.receipts[r.receipt_id := ReceiptFor(x, LeaseExpiredReceipt, r.lease_id)])
  }

  function Corrected(w: Work, x: Context, r: WorkRequest): Work
    requires r.Correct? && Finds(w, r.intent_id, r.episode_id)
  {
    var i := w.intents[r.intent_id];
    var p := w.episodes[r.episode_id];
    Work(
      w.intents[r.intent_id :=
        i.(state := IActive, state_event_id := x.ids(0), corrections := i.corrections + [x.ids(0)])],
      w.episodes[r.episode_id :=
        p.(state := EActive, state_event_id := x.ids(1), corrections := p.corrections + [x.ids(1)])],
      w.claims[r.claim_id := Claim(CorrectionClaim, r.intent_id, Some(r.episode_id), None)],
      w.receipts[r.receipt_id := ReceiptFor(x, CorrectionAppliedReceipt, r.episode_id)],
      w.leases[r.lease_id := Lease(
        LeaseRecord(r.target, x.principal_id, r.intent_id, r.episode_id, x.now, r.expires_at), LActive, x.ids(3))])
  }

  lemma {:induction false} ApplyTrace(events: seq<WorkEvent>, trace: seq<Work>)
    requires |trace| == |events| + 1
    requires forall i :: 0 <= i < |events| ==> Apply(trace[i], events[i]) == Ok(trace[i + 1])
    ensures ApplyAll(trace[0], events) == Ok(trace[|events|])
    decreases |events|
  {
    hide Apply;
    if events != [] {
      ApplyTrace(events[1..], trace[1..]);
    }
  }

  /** The state once the intent and the episode of an opening are there. */
  function PairOpened(w: Work, x: Context, r: WorkRequest): Work
    requires r.Open?
  {
    w.(intents := Opened(w, x, r).intents, episodes := Opened(w, x, r).episodes)
  }

  lemma OpenStarts(w: Work, x: Context, r: WorkRequest)
    requires r.Open? && PlanOpen(w, x, r).Ok?
    ensures ApplyAll(w, PlanOpen(w, x, r).value[..3]) == Ok(PairOpened(w, x, r))
  {
    hide ApplyAll, TargetTaken;
    var events := PlanOpen(w, x, r).value;
    var w1 := w.(intents := w.intents[r.intent_id := Intent(IQueued, x.ids(0), x.principal_id, [])]);
    var w2 := w.(intents := Opened(w, x, r).intents);
    assert w1.intents[r.intent_id := Intent(IActive, x.ids(1), x.principal_id, [])] == w2.intents;
    assert Apply(w, events[0]) == Ok(w1);
    assert Apply(w1, events[1]) == Ok(w2);
    assert Apply(w2, events[2]) == Ok(PairOpened(w, x, r));
    ApplyTrace(events[..3], [w, w1, w2, PairOpened(w, x, r)]);
  }

  lemma OpenEnds(w: Work, x: Context, r: WorkRequest)
    requires r.Open? && PlanOpen(w, x, r).Ok?
    ensures ApplyAll(PairOpened(w, x, r), PlanOpen(w, x, r).value[3..]) == Ok(Opened(w, x, r))
  {
    hide ApplyAll, TargetTaken;
    var events := PlanOpen(w, x, r).value;
    var w3 := PairOpened(w, x, r);
    var w4 := w3.(claims := Opened(w, x, r).claims);
    var w5 := w4.(leases := Opened(w, x, r).leases);
    assert Apply(w3, events[3]) == Ok(w4);
    assert Apply(w4, events[4]) == Ok(w5);
    assert Apply(w5, events[5]) == Ok(Opened(w, x, r));
    ApplyTrace(events[3..], [w3, w4, w5, Opened(w, x, r)]);
  }

  lemma OpenApplies(w: Work, x: Context, r: WorkRequest)
    requires r.Open? && PlanOpen(w, x, r).Ok?
    ensures ApplyAll(w, PlanOpen(w, x, r).value) == Ok(Opened(w, x, r))
  {
    OpenStarts(w, x, r);
    OpenEnds(w, x, r);
    hide ApplyAll, PlanOpen, Opened, PairOpened;
    var events := PlanOpen(w, x, r).value;
    assert |events| >= 3 by { PlannedOpening(w, x, r); }
    ApplyInTwoParts(w, events[..3], events[3..]);
    assert events == events[..3] + events[3..];
  }

  lemma PlannedOpening(w: Work, x: Context, r: WorkRequest)
    requires r.Open? && PlanOpen(w, x, r).Ok?
    ensures |PlanOpen(w, x, r).value| == 6
  {
  }

  lemma FinishApplies(w: Work, x: Context, r: WorkRequest)
    requires r.Finish? && PlanFinish(w, x, r).Ok?
    ensures ApplyAll(w, PlanFinish(w, x, r).value) == Ok(Finished(w, x, r))
  {
    hide ApplyAll;
    var events := PlanFinish(w, x, r).value;
    var done := Finished(w, x, r);
    var w1 := w.(episodes := done.episodes);
    var w2 := w1.(intents := done.intents);
    var w3 := w2.(claims := done.claims);
    var w4 := w3.(leases := done.leases);
    assert Apply(w, events[0]) == Ok(w1);
    assert Apply(w1, events[1]) == Ok(w2);
    assert Apply(w2, events[2]) == Ok(w3);
    assert Apply(w3, events[3]) == Ok(w4);
    assert Apply(w4, events[4]) == Ok(done);
    ApplyTrace(events, [w, w1, w2, w3, w4, done]);
  }

  lemma ExpiryApplies(w: Work, x: Context, r: WorkRequest)
    requires r.Expire? && PlanExpiry(w, x, r).Ok?
    ensures ApplyAll(w, PlanExpiry(w, x, r).value) == Ok(Expired(w, x, r))
  {
    hide ApplyAll;
    var events := PlanExpiry(w, x, r).value;
    var w1 := w.(leases := Expired(w, x, r).leases);
    assert Apply(w, events[0]) == Ok(w1);
    assert Apply(w1, events[1]) == Ok(Expired(w, x, r));
    ApplyTrace(events, [w, w1, Expired(w, x, r)]);
  }

  lemma CorrectionApplies(w: Work, x: Context, r: WorkRequest)
    requires r.Correct? && PlanCorrection(w, x, r).Ok?
    ensures ApplyAll(w, PlanCorrection(w, x, r).value) == Ok(Corrected(w, x, r))
  {
    hide ApplyAll, TargetTaken;
    var events := PlanCorrection(w, x, r).value;
    var done := Corrected(w, x, r);
    var w1 := w.(intents := done.intents);
    var w2 := w1.(episodes := done.episodes);
    var w3 := w2.(claims := done.claims);
    var w4 := w3.(leases := done.leases);
    assert Apply(w, events[0]) == Ok(w1);
    assert Apply(w1, events[1]) == Ok(w2);
    assert Apply(w2, events[2]) == Ok(w3);
    assert Apply(w3, events[3]) == Ok(w4);
    assert Apply(w4, events[4]) == Ok(done);
    ApplyTrace(events, [w, w1, w2, w3, w4, done]);
  }

  /** The reducer accepts every event list a planner produces from the state it planned against. */
  lemma PlannedEventsApply(w: Work, x: Context, r: WorkRequest)
    requires Plan(w, x, r).Ok?
    ensures ApplyAll(w, Plan(w, x, r).value).Ok?
  {
    hide ApplyAll, PlanOpen, PlanFinish, PlanExpiry, PlanCorrection;
    match r
    case Open(_, _, _, _, _, _, _) => OpenApplies(w, x, r);
    case Finish(_, _, _, _, _) => FinishApplies(w, x, r);
    case Expire(_, _, _) => ExpiryApplies(w, x, r);
    case Correct(_, _, _, _, _, _, _, _, _) => CorrectionApplies(w, x, r);
  }

  // ---------- Safety ----------

  predicate Active(leases: map<Id, Lease>, l: Id) {
    l in leases && leases[l].state.LActive?
  }

  predicate ActivePair(w: Work, intent: Id, episode: Id) {
    && Finds(w, intent, episode) && w.episodes[episode].intent_id == intent
    && w.intents[intent].state.IActive? && w.episodes[episode].state.EActive?
  }

  ghost predicate LeasesBelong(w: Work) {
    forall l :: Active(w.leases, l) ==> ActivePair(w, w.leases[l].record.intent_id, w.leases[l].record.episode_id)
  }

  ghost predicate OneLeasePerTarget(leases: map<Id, Lease>) {
    forall l, m | Active(leases, l) && Active(leases, m) ::
      leases[l].record.target == leases[m].record.target ==> l == m
  }

  ghost predicate OneLeasePerEpisode(leases: map<Id, Lease>) {
    forall l, m | Active(leases, l) && Active(leases, m) ::
      leases[l].record.episode_id == leases[m].record.episode_id ==> l == m
  }

  predicate SamePhase(i: IntentState, e: EpisodeState) {
    (i.IActive? && e.EActive?) || (i.IReportedComplete? && e.EReportedComplete?)
  }

  ghost predicate PairsMoveTogether(intents: map<Id, Intent>, episodes: map<Id, Episode>) {
    forall e :: e in episodes ==>
      episodes[e].intent_id in intents && SamePhase(intents[episodes[e].intent_id].state, episodes[e].state)
  }

  ghost predicate HasEpisode(episodes: map<Id, Episode>, intent: Id) {
    exists e :: e in episodes && episodes[e].intent_id == intent
  }

  ghost predicate OneEpisodePerIntent(intents: map<Id, Intent>, episodes: map<Id, Episode>) {
    && (forall d, e :: d in episodes && e in episodes && episodes[d].intent_id == episodes[e].intent_id ==> d == e)
    && (forall i :: i in intents ==> HasEpisode(episodes, i))
  }

  ghost predicate LeasesExclusive(leases: map<Id, Lease>) {
    OneLeasePerTarget(leases) && OneLeasePerEpisode(leases)
  }

  ghost predicate PairsSound(intents: map<Id, Intent>, episodes: map<Id, Episode>) {
    PairsMoveTogether(intents, episodes) && OneEpisodePerIntent(intents, episodes)
  }

  ghost predicate Safe(w: Work) {
    LeasesBelong(w) && LeasesExclusive(w.leases) && PairsSound(w.intents, w.episodes)
  }

  lemma NewLeaseStaysExclusive(leases: map<Id, Lease>, l: Id, lease: Lease)
    requires LeasesExclusive(leases) && l !in leases && !TargetTaken(leases, lease.record.target)
    requires forall m :: Active(leases, m) ==> leases[m].record.episode_id != lease.record.episode_id
    ensures LeasesExclusive(leases[l := lease])
  {
    var after := leases[l := lease];
    forall m | Active(after, m) && m != l ensures after[m].record.target != lease.record.target {
      assert Active(leases, m);
    }
    assert forall m :: Active(after, m) && m != l ==> Active(leases, m);
  }

  lemma ClosedLeaseStaysExclusive(leases: map<Id, Lease>, l: Id, lease: Lease)
    requires LeasesExclusive(leases) && !lease.state.LActive?
    ensures LeasesExclusive(leases[l := lease])
  {
    var after := leases[l := lease];
    forall m | Active(after, m) ensures Active(leases, m) && m != l && after[m] == leases[m] {
      assert m != l;
    }
  }

  lemma NewPairIsSound(
    intents: map<Id, Intent>, episodes: map<Id, Episode>, i: Id, intent: Intent, e: Id, episode: Episode)
    requires PairsSound(intents, episodes) && i !in intents && e !in episodes
    requires episode.intent_id == i && SamePhase(intent.state, episode.state)
    ensures PairsSound(intents[i := intent], episodes[e := episode])
  {
    var after := episodes[e := episode];
    forall j | j in intents[i := intent] ensures HasEpisode(after, j) {
      if j == i {
        assert after[e].intent_id == i;
      } else {
        var d :| d in episodes && episodes[d].intent_id == j;
        assert after[d].intent_id == j;
      }
    }
  }

  lemma MovedPairIsSound(
    intents: map<Id, Intent>, episodes: map<Id, Episode>, i: Id, intent: Intent, e: Id, episode: Episode)
    requires PairsSound(intents, episodes) && i in intents && e in episodes && episodes[e].intent_id == i
    requires episode.intent_id == i && SamePhase(intent.state, episode.state)
    ensures PairsSound(intents[i := intent], episodes[e := episode])
  {
    var after := episodes[e := episode];
    forall j | j in intents[i := intent] ensures HasEpisode(after, j) {
      var d :| d in episodes && episodes[d].intent_id == j;
      assert after[d].intent_id == j;
    }
  }

  lemma DistinctPairs(intents: map<Id, Intent>, episodes: map<Id, Episode>, d: Id, e: Id)
    requires PairsSound(intents, episodes) && d in episodes && e in episodes && d != e
    ensures episodes[d].intent_id != episodes[e].intent_id
  {
  }

  /** A pair that is terminal, or not there yet, holds no active lease. */
  lemma NoLeaseOffAnActivePair(w: Work, episode: Id, l: Id)
    requires LeasesBelong(w) && Active(w.leases, l)
    requires episode in w.episodes ==> !w.episodes[episode].state.EActive?
    ensures w.leases[l].record.episode_id != episode
  {
  }

  lemma OpenKeepsSafe(w: Work, x: Context, r: WorkRequest)
    requires Safe(w) && r.Open? && PlanOpen(w, x, r).Ok?
    ensures Safe(Opened(w, x, r))
  {
    hide LeasesExclusive, PairsSound, TargetTaken;
    var v := Opened(w, x, r);
    forall l | Active(w.leases, l) ensures w.leases[l].record.episode_id != r.episode_id {
      NoLeaseOffAnActivePair(w, r.episode_id, l);
    }
    NewLeaseStaysExclusive(w.leases, r.lease_id, v.leases[r.lease_id]);
    NewPairIsSound(w.intents, w.episodes, r.intent_id, v.intents[r.intent_id], r.episode_id, v.episodes[r.episode_id]);
    forall l | Active(v.leases, l) ensures ActivePair(v, v.leases[l].record.intent_id, v.leases[l].record.episode_id) {
      assert l != r.lease_id ==> Active(w.leases, l);
    }
  }

  lemma FinishKeepsSafe(w: Work, x: Context, r: WorkRequest)
    requires Safe(w) && r.Finish? && PlanFinish(w, x, r).Ok?
    ensures Safe(Finished(w, x, r))
  {
    hide PairsSound;
    var v := Finished(w, x, r);
    forall l | Active(v.leases, l) ensures ActivePair(v, v.leases[l].record.intent_id, v.leases[l].record.episode_id) {
      assert Active(w.leases, l) && Active(w.leases, r.lease_id);
      DistinctPairs(w.intents, w.episodes, w.leases[l].record.episode_id, r.episode_id);
    }
    FinishClosesLease(w, x, r);
    MovedPairIsSound(w.intents, w.episodes, r.intent_id, v.intents[r.intent_id], r.episode_id,
      v.episodes[r.episode_id]);
  }

  lemma FinishClosesLease(w: Work, x: Context, r: WorkRequest)
    requires LeasesExclusive(w.leases) && r.Finish? && PlanFinish(w, x, r).Ok?
    ensures LeasesExclusive(Finished(w, x, r).leases)
  {
    hide LeasesExclusive;
    ClosedLeaseStaysExclusive(w.leases, r.lease_id, Finished(w, x, r).leases[r.lease_id]);
  }

  lemma ExpiryKeepsSafe(w: Work, x: Context, r: WorkRequest)
    requires Safe(w) && r.Expire? && PlanExpiry(w, x, r).Ok?
    ensures Safe(Expired(w, x, r))
  {
    hide LeasesExclusive, PairsSound;
    var v := Expired(w, x, r);
    ClosedLeaseStaysExclusive(w.leases, r.lease_id, v.leases[r.lease_id]);
    forall l | Active(v.leases, l) ensures ActivePair(v, v.leases[l].record.intent_id, v.leases[l].record.episode_id) {
      assert Active(w.leases, l);
    }
  }

  lemma CorrectionKeepsSafe(w: Work, x: Context, r: WorkRequest)
    requires Safe(w) && r.Correct? && PlanCorrection(w, x, r).Ok?
    ensures Safe(Corrected(w, x, r))
  {
    hide LeasesExclusive, PairsSound, TargetTaken;
    var v := Corrected(w, x, r);
    forall l | Active(w.leases, l) ensures w.leases[l].record.episode_id != r.episode_id {
      NoLeaseOffAnActivePair(w, r.episode_id, l);
    }
    NewLeaseStaysExclusive(w.leases, r.lease_id, v.leases[r.lease_id]);
    MovedPairIsSound(w.intents, w.episodes, r.intent_id, v.intents[r.intent_id], r.episode_id,
      v.episodes[r.episode_id]);
    forall l | Active(v.leases, l) ensures ActivePair(v, v.leases[l].record.intent_id, v.leases[l].record.episode_id) {
      assert l != r.lease_id ==> Active(w.leases, l);
    }
  }

  // ---------- Runs ----------

  datatype Command = Command(context: Context, request: WorkRequest)

  /** A refused command appends nothing; a planned one appends its events to the log. */
  ghost function Perform(w: Work, c: Command): Work {
    match ApplyAll(w, Emitted(w, c))
    case Err(_) => w
    case Ok(next) => next
  }

  ghost function Emitted(w: Work, c: Command): seq<WorkEvent> {
    match Plan(w, c.context, c.request)
    case Err(_) => []
    case Ok(events) => events
  }

  lemma NothingToApply(w: Work)
    ensures ApplyAll(w, []) == Ok(w)
  {
  }

  lemma PerformKeepsSafe(w: Work, c: Command)
    requires Safe(w)
    ensures Safe(Perform(w, c))
  {
    hide Safe, ApplyAll, PlanOpen, PlanFinish, PlanExpiry, PlanCorrection;
    var x, r := c.context, c.request;
    if Plan(w, x, r).Ok? {
      match r
      case Open(_, _, _, _, _, _, _) => OpenApplies(w, x, r); OpenKeepsSafe(w, x, r);
      case Finish(_, _, _, _, _) => FinishApplies(w, x, r); FinishKeepsSafe(w, x, r);
      case Expire(_, _, _) => ExpiryApplies(w, x, r); ExpiryKeepsSafe(w, x, r);
      case Correct(_, _, _, _, _, _, _, _, _) => CorrectionApplies(w, x, r); CorrectionKeepsSafe(w, x, r);
    } else {
      NothingToApply(w);
    }
  }

  ghost function Performed(w: Work, commands: seq<Command>): Work
    decreases |commands|
  {
    if commands == [] then w else Performed(Perform(w, commands[0]), commands[1..])
  }

  ghost function EventLog(w: Work, commands: seq<Command>): seq<WorkEvent>
    decreases |commands|
  {
    if commands == [] then [] else Emitted(w, commands[0]) + EventLog(Perform(w, commands[0]), commands[1..])
  }

  lemma {:induction false} RunKeepsSafe(w: Work, commands: seq<Command>)
    requires Safe(w)
    ensures Safe(Performed(w, commands))
    decreases |commands|
  {
    hide Safe, Perform;
    if commands != [] {
      PerformKeepsSafe(w, commands[0]);
      RunKeepsSafe(Perform(w, commands[0]), commands[1..]);
    }
  }

  lemma {:induction false} ApplyInTwoParts(w: Work, a: seq<WorkEvent>, b: seq<WorkEvent>)
    requires ApplyAll(w, a).Ok?
    ensures ApplyAll(w, a + b) == ApplyAll(ApplyAll(w, a).value, b)
    decreases |a|
  {
    hide Apply;
    if a == [] {
      assert a + b == b;
    } else {
      assert (a + b)[1..] == a[1..] + b;
      ApplyInTwoParts(Apply(w, a[0]).value, a[1..], b);
    }
  }

  lemma PerformIsApply(w: Work, c: Command)
    ensures ApplyAll(w, Emitted(w, c)) == Ok(Perform(w, c))
  {
    hide ApplyAll, Plan;
    if Plan(w, c.context, c.request).Ok? {
      PlannedEventsApply(w, c.context, c.request);
    } else {
      NothingToApply(w);
    }
  }

  lemma {:induction false} ReplayMatches(w: Work, commands: seq<Command>)
    ensures ApplyAll(w, EventLog(w, commands)) == Ok(Performed(w, commands))
    decreases |commands|
  {
    hide Perform, Emitted, ApplyAll;
    if commands == [] {
      NothingToApply(w);
    } else {
      PerformIsApply(w, commands[0]);
      ReplayMatches(Perform(w, commands[0]), commands[1..]);
      ApplyInTwoParts(w, Emitted(w, commands[0]), EventLog(Perform(w, commands[0]), commands[1..]));
    }
  }

  /**
   Over every run of native commands from an empty project: reducing the whole event log from the start
   is never refused, gives the state the last command left, and that state is safe.
   */
  lemma WorkIsAlwaysSafe(commands: seq<Command>)
    ensures ReduceWork(EventLog(NO_WORK, commands)) == Ok(Performed(NO_WORK, commands))
    ensures Safe(Performed(NO_WORK, commands))
  {
    ReplayMatches(NO_WORK, commands);
    RunKeepsSafe(NO_WORK, commands);
  }

  // ---------- What expiry leaves behind ----------

  /** An active pair without an active lease. */
  ghost predicate Stranded(w: Work, intent: Id, episode: Id) {
    && ActivePair(w, intent, episode)
    && forall l :: Active(w.leases, l) ==> w.leases[l].record.episode_id != episode
  }

  lemma StrandedAfterOpen(w: Work, x: Context, r: WorkRequest, intent: Id, episode: Id)
    requires r.Open? && PlanOpen(w, x, r).Ok? && Stranded(w, intent, episode)
    ensures Stranded(Opened(w, x, r), intent, episode)
  {
    hide TargetTaken;
    var v := Opened(w, x, r);
    forall l | Active(v.leases, l) ensures v.leases[l].record.episode_id != episode {
      assert l != r.lease_id ==> Active(w.leases, l);
    }
  }

  lemma StrandedAfterFinish(w: Work, x: Context, r: WorkRequest, intent: Id, episode: Id)
    requires Safe(w) && r.Finish? && PlanFinish(w, x, r).Ok? && Stranded(w, intent, episode)
    ensures Stranded(Finished(w, x, r), intent, episode)
  {
    hide LeasesExclusive, LeasesBelong;
    var v := Finished(w, x, r);
    assert Active(w.leases, r.lease_id);
    DistinctPairs(w.intents, w.episodes, r.episode_id, episode);
    forall l | Active(v.leases, l) ensures v.leases[l].record.episode_id != episode {
      assert Active(w.leases, l);
    }
  }

  lemma StrandedAfterExpiry(w: Work, x: Context, r: WorkRequest, intent: Id, episode: Id)
    requires r.Expire? && PlanExpiry(w, x, r).Ok? && Stranded(w, intent, episode)
    ensures Stranded(Expired(w, x, r), intent, episode)
  {
    var v := Expired(w, x, r);
    forall l | Active(v.leases, l) ensures v.leases[l].record.episode_id != episode {
      assert Active(w.leases, l);
    }
  }

  lemma StrandedAfterCorrection(w: Work, x: Context, r: WorkRequest, intent: Id, episode: Id)
    requires r.Correct? && PlanCorrection(w, x, r).Ok? && Stranded(w, intent, episode)
    ensures Stranded(Corrected(w, x, r), intent, episode)
  {
    hide TargetTaken;
    var v := Corrected(w, x, r);
    forall l | Active(v.leases, l) ensures v.leases[l].record.episode_id != episode {
      assert l != r.lease_id ==> Active(w.leases, l);
    }
  }

  lemma PerformKeepsStranded(w: Work, c: Command, intent: Id, episode: Id)
    requires Safe(w) && Stranded(w, intent, episode)
    ensures Stranded(Perform(w, c), intent, episode)
  {
    hide Safe, Stranded, ApplyAll, PlanOpen, PlanFinish, PlanExpiry, PlanCorrection;
    var x, r := c.context, c.request;
    if Plan(w, x, r).Ok? {
      match r
      case Open(_, _, _, _, _, _, _) => OpenApplies(w, x, r); StrandedAfterOpen(w, x, r, intent, episode);
      case Finish(_, _, _, _, _) => FinishApplies(w, x, r); StrandedAfterFinish(w, x, r, intent, episode);
      case Expire(_, _, _) => ExpiryApplies(w, x, r); StrandedAfterExpiry(w, x, r, intent, episode);
      case Correct(_, _, _, _, _, _, _, _, _) => CorrectionApplies(w, x, r);
        StrandedAfterCorrection(w, x, r, intent, episode);
    } else {
      NothingToApply(w);
    }
  }

  lemma {:induction false} StrandedForever(w: Work, commands: seq<Command>, intent: Id, episode: Id)
    requires Safe(w) && Stranded(w, intent, episode)
    ensures Stranded(Performed(w, commands), intent, episode)
    decreases |commands|
  {
    hide Safe, Stranded, Perform;
    if commands != [] {
      PerformKeepsSafe(w, commands[0]);
      PerformKeepsStranded(w, commands[0], intent, episode);
      StrandedForever(Perform(w, commands[0]), commands[1..], intent, episode);
    }
  }

  /**
   Expiring the lease of a pair leaves the pair active for good: no later run of native commands
   finishes it, corrects it, or gives it another lease.
   */
  lemma ExpiryStrandsItsPair(w: Work, x: Context, r: WorkRequest, later: seq<Command>)
    requires Safe(w) && r.Expire? && PlanExpiry(w, x, r).Ok?
    ensures var record := w.leases[r.lease_id].record;
            var after := Performed(Perform(w, Command(x, r)), later);
            Stranded(after, record.intent_id, record.episode_id)
  {
    hide Safe, ApplyAll, Stranded;
    var c := Command(x, r);
    var record := w.leases[r.lease_id].record;
    ExpiryApplies(w, x, r);
    assert Perform(w, c) == Expired(w, x, r);
    ExpiryLeavesStranded(w, x, r);
    PerformKeepsSafe(w, c);
    StrandedForever(Perform(w, c), later, record.intent_id, record.episode_id);
  }

  lemma ExpiryLeavesStranded(w: Work, x: Context, r: WorkRequest)
    requires Safe(w) && r.Expire? && PlanExpiry(w, x, r).Ok?
    ensures Stranded(Expired(w, x, r), w.leases[r.lease_id].record.intent_id, w.leases[r.lease_id].record.episode_id)
  {
    hide PairsSound;
    var v := Expired(w, x, r);
    assert Active(w.leases, r.lease_id);
    forall l | Active(v.leases, l) ensures v.leases[l].record.episode_id != w.leases[r.lease_id].record.episode_id {
      assert Active(w.leases, l);
    }
  }

  // ---------- Exactly when every pair stays leased ----------

  ghost predicate Leased(w: Work, episode: Id) {
    exists l :: Active(w.leases, l) && w.leases[l].record.episode_id == episode
  }

  /** Every active pair has an active lease. */
  ghost predicate PairsLeased(w: Work) {
    forall e :: e in w.episodes && w.episodes[e].state.EActive? ==> Leased(w, e)
  }

  lemma OpenKeepsLeased(w: Work, x: Context, r: WorkRequest)
    requires PairsLeased(w) && r.Open? && PlanOpen(w, x, r).Ok?
    ensures PairsLeased(Opened(w, x, r))
  {
    hide TargetTaken;
    var v := Opened(w, x, r);
    assert Active(v.leases, r.lease_id);
    forall e | e in v.episodes && v.episodes[e].state.EActive? && e != r.episode_id ensures Leased(v, e) {
      var l :| Active(w.leases, l) && w.leases[l].record.episode_id == e;
      assert Active(v.leases, l);
    }
  }

  lemma FinishKeepsLeased(w: Work, x: Context, r: WorkRequest)
    requires PairsLeased(w) && r.Finish? && PlanFinish(w, x, r).Ok?
    ensures PairsLeased(Finished(w, x, r))
  {
    var v := Finished(w, x, r);
    forall e | e in v.episodes && v.episodes[e].state.EActive? ensures Leased(v, e) {
      var l :| Active(w.leases, l) && w.leases[l].record.episode_id == e;
      assert Active(v.leases, l);
    }
  }

  lemma CorrectionKeepsLeased(w: Work, x: Context, r: WorkRequest)
    requires PairsLeased(w) && r.Correct? && PlanCorrection(w, x, r).Ok?
    ensures PairsLeased(Corrected(w, x, r))
  {
    hide TargetTaken;
    var v := Corrected(w, x, r);
    assert Active(v.leases, r.lease_id);
    forall e | e in v.episodes && v.episodes[e].state.EActive? && e != r.episode_id ensures Leased(v, e) {
      var l :| Active(w.leases, l) && w.leases[l].record.episode_id == e;
      assert Active(v.leases, l);
    }
  }

  /** The command is an expiry the planner accepts: of an active lease that has run out, under a new receipt. */
  predicate Expires(w: Work, c: Command) {
    c.request.Expire? && PlanExpiry(w, c.context, c.request).Ok?
  }

  lemma PerformKeepsLeased(w: Work, c: Command)
    requires PairsLeased(w) && !Expires(w, c)
    ensures PairsLeased(Perform(w, c))
  {
    hide PairsLeased, ApplyAll, PlanOpen, PlanFinish, PlanExpiry, PlanCorrection;
    var x, r := c.context, c.request;
    if Plan(w, x, r).Ok? {
      match r
      case Open(_, _, _, _, _, _, _) => OpenApplies(w, x, r); OpenKeepsLeased(w, x, r);
      case Finish(_, _, _, _, _) => FinishApplies(w, x, r); FinishKeepsLeased(w, x, r);
      case Correct(_, _, _, _, _, _, _, _, _) => CorrectionApplies(w, x, r); CorrectionKeepsLeased(w, x, r);
    } else {
      NothingToApply(w);
    }
  }

  lemma StrandedIsUnleased(w: Work, intent: Id, episode: Id)
    requires Stranded(w, intent, episode)
    ensures !PairsLeased(w)
  {
  }

  /** None of the commands expires a lease when its turn comes. */
  ghost predicate ExpiresNothing(w: Work, commands: seq<Command>)
    decreases |commands|
  {
    commands == [] || (!Expires(w, commands[0]) && ExpiresNothing(Perform(w, commands[0]), commands[1..]))
  }

  lemma {:induction false} RunKeepsLeasedExactly(w: Work, commands: seq<Command>)
    requires Safe(w) && PairsLeased(w)
    ensures PairsLeased(Performed(w, commands)) <==> ExpiresNothing(w, commands)
    decreases |commands|
  {
    hide Safe, PairsLeased, Perform, PlanExpiry, Stranded;
    if commands != [] {
      var c := commands[0];
      PerformKeepsSafe(w, c);
      if Expires(w, c) {
        assert c == Command(c.context, c.request);
        ExpiryStrandsItsPair(w, c.context, c.request, commands[1..]);
        var record := ExpiredRecord(w, c);
        StrandedIsUnleased(Performed(w, commands), record.intent_id, record.episode_id);
      } else {
        PerformKeepsLeased(w, c);
        RunKeepsLeasedExactly(Perform(w, c), commands[1..]);
      }
    }
  }

  lemma ExpiredRecord(w: Work, c: Command) returns (record: LeaseRecord)
    requires Expires(w, c)
    ensures c.request.lease_id in w.leases && record == w.leases[c.request.lease_id].record
  {
    record := w.leases[c.request.lease_id].record;
  }

  /**
   Over every run of native commands from an empty project: at the end every active pair has an active
   lease if and only if no expiry took effect on the way.
   */
  lemma PairsLeasedExactly(commands: seq<Command>)
    ensures PairsLeased(Performed(NO_WORK, commands)) <==> ExpiresNothing(NO_WORK, commands)
  {
    RunKeepsLeasedExactly(NO_WORK, commands);
  }

  /** An opening whose lease runs out and is expired: the pair is left active, without a lease. */
  lemma OpenThenExpire(x: Context)
    ensures var opening := Command(x, Open("intent", "episode", "claim", "opened", "lease", "target", x.now + 1));
            var expiry := Command(x, Expire("lease", "expired", x.now + 1));
            Stranded(Performed(NO_WORK, [opening, expiry]), "intent", "episode")
  {
    hide ApplyAll;
    var opening := Command(x, Open("intent", "episode", "claim", "opened", "lease", "target", x.now + 1));
    var expiry := Command(x, Expire("lease", "expired", x.now + 1));
    OpenApplies(NO_WORK, x, opening.request);
    var w := Opened(NO_WORK, x, opening.request);
    assert Perform(NO_WORK, opening) == w;
    ExpiryApplies(w, x, expiry.request);
    assert Perform(w, expiry) == Expired(w, x, expiry.request);
    assert [opening, expiry][1..] == [expiry] && [expiry][1..] == [];
    assert Performed(w, [expiry]) == Perform(w, expiry);
    assert Performed(NO_WORK, [opening, expiry]) == Performed(w, [expiry]);
  }

  // ---------- What the reducer alone guarantees ----------

  /** A lease keeps its record, and once it has left the active state it never changes again. */
  ghost predicate LeasesOnlyClose(before: map<Id, Lease>, after: map<Id, Lease>) {
    forall l :: l in before ==>
      && l in after && after[l].record == before[l].record
      && (!before[l].state.LActive? ==> after[l] == before[l])
  }

  lemma ApplyLeaseOnlyCloses(w: Work, e: WorkEvent)
    requires (e.change.LeaseAcquired? || e.change.LeaseMoved?) && ApplyLease(w, e).Ok?
    requires OneLeasePerTarget(w.leases) && WellFormed(e.change)
    ensures LeasesOnlyClose(w.leases, ApplyLease(w, e).value.leases)
    ensures OneLeasePerTarget(ApplyLease(w, e).value.leases)
  {
    var after := ApplyLease(w, e).value.leases;
    forall l, m | Active(after, l) && Active(after, m)
      && after[l].record.target == after[m].record.target ensures l == m {
      assert l != e.change.lease_id ==> Active(w.leases, l);
      assert m != e.change.lease_id ==> Active(w.leases, m);
    }
  }

  lemma OtherEventsLeaveLeases(w: Work, e: WorkEvent)
    requires !e.change.LeaseAcquired? && !e.change.LeaseMoved? && Apply(w, e).Ok?
    ensures Apply(w, e).value.leases == w.leases
  {
  }

  lemma ApplyOnlyClosesLeases(w: Work, e: WorkEvent)
    requires OneLeasePerTarget(w.leases) && Apply(w, e).Ok?
    ensures LeasesOnlyClose(w.leases, Apply(w, e).value.leases)
    ensures OneLeasePerTarget(Apply(w, e).value.leases)
  {
    hide Apply, ApplyLease, OneLeasePerTarget, WellFormed;
    if e.change.LeaseAcquired? || e.change.LeaseMoved? {
      LeaseApplies(w, e);
      ApplyLeaseOnlyCloses(w, e);
    } else {
      OtherEventsLeaveLeases(w, e);
    }
  }

  lemma LeaseApplies(w: Work, e: WorkEvent)
    requires e.change.LeaseAcquired? || e.change.LeaseMoved?
    ensures Apply(w, e).Ok? ==> ApplyLease(w, e) == Apply(w, e) && WellFormed(e.change)
  {
  }

  /**
   Whatever events a log holds, if the reducer accepts it then no target has two active leases, and along
   the way no lease changed its record or came back from a terminal state.
   */
  lemma {:induction false} ReducerGuardsTargets(w: Work, events: seq<WorkEvent>)
    requires OneLeasePerTarget(w.leases) && ApplyAll(w, events).Ok?
    ensures OneLeasePerTarget(ApplyAll(w, events).value.leases)
    ensures LeasesOnlyClose(w.leases, ApplyAll(w, events).value.leases)
    decreases |events|
  {
    hide Apply, OneLeasePerTarget;
    if events != [] {
      ApplyOnlyClosesLeases(w, events[0]);
      ReducerGuardsTargets(Apply(w, events[0]).value, events[1..]);
    }
  }

  /** In every accepted log, a lease reported expired had run out by the time recorded in the report. */
  lemma {:induction false} NoEarlyExpiry(w: Work, events: seq<WorkEvent>, i: nat)
    requires ApplyAll(w, events).Ok? && i < |events|
    requires OneLeasePerTarget(w.leases)
    requires events[i].change.LeaseMoved? && events[i].change.lto.LExpired?
    ensures var end := ApplyAll(w, events).value.leases;
      events[i].change.lease_id in end
      && end[events[i].change.lease_id].state.LExpired?
      && end[events[i].change.lease_id].record.expires_at <= events[i].change.recorded_at
    decreases i
  {
    var next := Apply(w, events[0]).value;
    ApplyOnlyClosesLeases(w, events[0]);
    if i == 0 {
      LeaseApplies(w, events[0]);
      ReducerGuardsTargets(next, events[1..]);
    } else {
      NoEarlyExpiry(next, events[1..], i - 1);
    }
  }
}
