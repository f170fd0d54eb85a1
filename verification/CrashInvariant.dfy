/** What holds of disk and outbox at every boundary a call can stand at. */
module CrashInvariant {
  import opened Wrappers
  import opened ProjectTypes
  import opened CommandExecution
  import opened CommandInvariant
  import CommandOutcome
  import CommandSafety
  import opened CrashMachine

  // ---------- Parts of an execution ----------

  predicate BeforeStaging(b: Boundary) {
    b.BeforeAuthorization? || b.AfterValidation? || b.BeforeCommit? || b.AfterLockAcquired? || b.AfterSnapshot?
  }

  predicate Staging(b: Boundary) {
    b.BeforeTempWrite? || b.AfterTempWrite? || b.AfterFileSync?
  }

  predicate BeforeLink(b: Boundary) {
    BeforeStaging(b) || Staging(b)
  }

  predicate Effecting(b: Boundary) {
    b.BeforeEffect? || b.AfterEffect? || b.BeforeReceipt?
  }

  predicate PastFlush(b: Boundary) {
    !BeforeLink(b) && !b.AfterPublish?
  }

  function GoalOf(call: Call): Option<Goal> {
    match call
    case Looking(goal, _) => Some(goal)
    case Built(r, _, _) => Some(Execute(r))
    case Holding(r, _, _) => Some(Execute(r))
    case Checked(r, _, _) => Some(Execute(r))
    case Published(r, _, _) => Some(Execute(r))
    case Lost(r, _) => Some(Execute(r))
    case Returning(goal, _, _) => Some(goal)
    case Returned(goal, _) => Some(goal)
    case Failed => None
    case Dead => None
  }

  // ---------- The invariant ----------

  /** How far a call has come with its effects. */
  function Reached(t: Transaction, b: Boundary): nat
    requires Effecting(b)
  {
    match b
    case BeforeEffect(k) => k
    case AfterEffect(k) => k + 1
    case BeforeReceipt => |EffectsOf(t)|
  }

  ghost predicate KeyAmong(effects: seq<Effect>, n: nat, key: string) {
    exists i :: 0 <= i < n && i < |effects| && effects[i].effect_key == key
  }

  ghost predicate OffersAre(offers: set<Offer>, c: Caller, effects: seq<Effect>, n: nat) {
    forall key :: Offer(c, key) in offers <==> KeyAmong(effects, n, key)
  }

  /** Where a call of the executors can be, at each boundary. */
  predicate CallFits(call: Call, b: Boundary) {
    match b
    case BeforeAuthorization => call.Looking? || call.Returning?
    case AfterValidation => call.Looking?
    case BeforeCommit => call.Built? || call.Lost? || call.Returning?
    case AfterLockAcquired => call.Holding? || call.Lost? || call.Returning?
    case AfterSnapshot => call.Holding? || call.Checked? || call.Lost? || call.Returning?
    case BeforeTempWrite => call.Checked?
    case AfterTempWrite => call.Checked?
    case AfterFileSync => call.Checked?
    case AfterPublish => call.Published?
    case AfterDirectorySync => call.Published?
    case AfterTransactionPublish => call.Published? || call.Lost? || call.Returning?
    case AfterProjection => call.Published? || call.Lost? || call.Returning?
    case AfterCommit => call.Returning?
    case BeforeEffect(k) => call.Returned? && k < |EffectsOf(call.answer)|
    case AfterEffect(k) => call.Returned? && k < |EffectsOf(call.answer)|
    case BeforeReceipt => call.Returned?
  }

  ghost predicate Answered(files: set<Transaction>, goal: Option<Goal>) {
    exists t :: t in files && goal.Some? && Answers(goal.value, t)
  }

  predicate LinksFlushed(m: Machine, c: Caller, b: Boundary) {
    forall t :: t in m.linked_by && m.linked_by[t] == c ==>
      && (b.AfterPublish? ==> t !in m.synced)
      && (PastFlush(b) ==> t in m.synced)
  }

  /** What a call links is the command it executes. */
  predicate LinkedFor(linked_by: map<Transaction, Caller>, c: Caller, goal: Option<Goal>) {
    forall t :: t in linked_by && linked_by[t] == c ==>
      goal.Some? && goal.value.Execute? && t.command_id == goal.value.request.command_id
  }

  predicate LinkedOnly(m: Machine, c: Caller, t: Transaction) {
    forall u :: u in m.linked_by && m.linked_by[u] == c ==> u == t
  }

  ghost predicate Unclaimed(seen: set<Transaction>, goal: Goal) {
    goal.Execute? && FindIdempotent(seen, goal.request.scope) == Missing
  }

  ghost predicate PlaceOk(m: Machine, c: Caller)
    requires c in m.at
  {
    && c in m.core.calls
    && var call, b := m.core.calls[c], m.at[c].boundary;
    && CallFits(call, b)
    && (b.AfterValidation? ==> Unclaimed(m.at[c].scanned, call.goal))
    && (Staging(b) ==> Temp(c, call.built, !b.BeforeTempWrite?) in m.temps)
    && LinksFlushed(m, c, b)
    && (b.AfterPublish? ==> LinkedOnly(m, c, call.built))
    && (!BeforeLink(b) ==> Answered(m.core.files, GoalOf(call)) && LinkedFor(m.linked_by, c, GoalOf(call)))
    && (Effecting(b) ==> OffersAre(m.offers, c, EffectsOf(call.answer), Reached(call.answer, b)))
  }

  /** Who has linked, staged or offered anything has been there to do it. */
  predicate Attributed(m: Machine) {
    && (forall t :: t in m.linked_by ==>
         t in m.core.files && m.linked_by[t] in m.core.calls
         && (m.linked_by[t] in m.at ==> !BeforeLink(m.at[m.linked_by[t]].boundary)))
    && (forall t, u :: t in m.linked_by && u in m.linked_by && m.linked_by[t] == m.linked_by[u] ==> t == u)
    && (forall p :: p in m.temps ==>
      p.owner in m.core.calls && (p.owner in m.at ==> !BeforeStaging(m.at[p.owner].boundary)))
    && (forall o :: o in m.offers ==>
      o.caller in m.core.calls && (o.caller in m.at ==> Effecting(m.at[o.caller].boundary)))
    && m.synced <= m.core.files
  }

  ghost predicate PlacesOk(m: Machine) {
    forall c :: c in m.at ==> PlaceOk(m, c)
  }

  ghost predicate Sound(address: Addressing, m: Machine) {
    Inv(address, m.core) && Attributed(m) && PlacesOk(m)
  }

  // ---------- Bystanders ----------

  /** What one act may change without touching where another call stands. */
  ghost predicate LeavesAlone(m: Machine, n: Machine, d: Caller) {
    && (d in n.at <==> d in m.at) && (d in m.at ==> n.at[d] == m.at[d])
    && d in m.core.calls && d in n.core.calls && n.core.calls[d] == m.core.calls[d]
    && m.core.files <= n.core.files && m.synced <= n.synced
    && (forall t :: t in n.linked_by && n.linked_by[t] == d ==> t in m.linked_by && m.linked_by[t] == d)
    && (d in m.at && m.at[d].boundary.AfterPublish? ==> n.synced == m.synced)
    && (d in m.at && Staging(m.at[d].boundary) ==> forall p :: p in m.temps && p.owner == d ==> p in n.temps)
    && (forall key :: Offer(d, key) in n.offers <==> Offer(d, key) in m.offers)
  }

  lemma BystanderKeepsPlace(m: Machine, n: Machine, d: Caller)
    requires d in m.at && PlaceOk(m, d) && LeavesAlone(m, n, d)
    ensures d in n.at && PlaceOk(n, d)
  {
    var call, b := m.core.calls[d], m.at[d].boundary;
    if !BeforeLink(b) {
      var t :| t in m.core.files && GoalOf(call).Some? && Answers(GoalOf(call).value, t);
      assert t in n.core.files;
    }
  }

  lemma CoreKeeps(address: Addressing, m: Machine, act: Act)
    requires Injective(address) && Inv(address, m.core)
    ensures Inv(address, CoreAfter(address, m, act)) && m.core.files <= CoreAfter(address, m, act).files
    ensures forall d :: d in m.core.calls && d != act.caller ==>
      d in CoreAfter(address, m, act).calls && CoreAfter(address, m, act).calls[d] == m.core.calls[d]
    ensures m.core.calls.Keys <= CoreAfter(address, m, act).calls.Keys
  {
    hide Injective, Inv, Next;
    match CoreStep(address, m, act)
    case None =>
    case Some(step) =>
      StepKeeps(address, m.core, step);
      StepKeepsCallers(address, m.core, step);
      forall d | d in m.core.calls && d != act.caller
        ensures d in CoreAfter(address, m, act).calls && CoreAfter(address, m, act).calls[d] == m.core.calls[d]
      {
        CommandSafety.BystanderStepKeepsCall(address, m.core, step, d);
      }
  }

  lemma StepKeepsCallers(address: Addressing, s: State, step: Step)
    ensures s.calls.Keys <= Next(address, s, step).calls.Keys
  {
    hide Complete, Watermark, Decide, DecideLost, DecideRecovery, CanMaterialize;
  }

  // ---------- Each act keeps it ----------

  lemma BystandersKeepPlaces(address: Addressing, m: Machine, n: Machine, c: Caller)
    requires PlacesOk(m)
    requires forall d :: d in m.at && d != c ==> LeavesAlone(m, n, d)
    requires n.at.Keys <= m.at.Keys + {c}
    requires c in n.at ==> PlaceOk(n, c)
    ensures PlacesOk(n)
  {
    hide PlaceOk, LeavesAlone;
    forall d | d in n.at ensures PlaceOk(n, d) {
      if d != c {
        BystanderKeepsPlace(m, n, d);
      }
    }
  }

  /** What a call may turn into by one step of the executors. */
  predicate Progress(was: Call, call: Call) {
    match call
    case Failed => true
    case Dead => true
    case Built(r, _, _) => was.Looking? && was.goal == Execute(r)
    case Holding(r, _, t) => was.Built? && was.request == r && was.built == t
    case Checked(r, _, t) => was.Holding? && was.request == r && was.built == t
    case Published(r, _, t) => was.Checked? && was.request == r && was.built == t
    case Lost(r, _) => (was.Built? || was.Holding? || was.Published?) && was.request == r
    case Returning(goal, _, _) => (was.Looking? || was.Published? || was.Lost?) && GoalOf(was) == Some(goal)
    case Returned(goal, t) => was.Returning? && was.goal == goal && was.answer == t
    case Looking(_, _) => false
  }

  /** Which calls a step of the executors does anything to, and what becomes of them. */
  predicate StepMoves(step: Step, was: Call, call: Call) {
    match step
    case Look(_, _, _, _) => was.Looking? && (call.Built? || call.Returning? || call.Failed?)
    case Acquire(_) => was.Built? && call.Holding?
    case GiveUp(_) => was.Built? && call.Lost?
    case Check(_) => was.Holding? && (call.Checked? || call.Lost?)
    case Publish(_) => was.Checked? && call.Published?
    case Confirm(_) => was.Published? && (call.Returning? || call.Lost? || call.Failed?)
    case Rescan(_, _) => was.Lost? && (call.Returning? || call.Failed?)
    case Materialize(_, _) => was.Returning? && (call.Returned? || call.Failed?)
    case Fault(_) => call.Failed?
    case Crash(_) => call.Dead?
    case Begin(_, _) => false
    case Reap(_) => false
  }

  lemma StepProgresses(address: Addressing, s: State, step: Step)
    requires step.caller in s.calls
    ensures var c, n := step.caller, Next(address, s, step);
      c in n.calls && (n.calls[c] == s.calls[c]
        || (Progress(s.calls[c], n.calls[c]) && StepMoves(step, s.calls[c], n.calls[c])))
  {
    hide Complete, Watermark, FindIdempotent, CanMaterialize, Sole;
  }

  // ---------- Moving on ----------

  /** A call that moves on, or leaves, with nothing but the executors' state changed. */
  ghost predicate Moves(m: Machine, n: Machine, c: Caller) {
    && n == m.(core := n.core, at := n.at)
    && m.core.files <= n.core.files && m.core.calls.Keys <= n.core.calls.Keys
    && (forall d :: d in m.core.calls && d != c ==> n.core.calls[d] == m.core.calls[d])
    && (forall d :: d != c ==> (d in n.at <==> d in m.at) && (d in m.at ==> n.at[d] == m.at[d]))
    && (c in n.at && c in m.at ==> Forward(m.at[c].boundary, n.at[c].boundary))
    && (c in n.at && c !in m.at ==> c !in m.core.calls)
  }

  predicate Forward(was: Boundary, now: Boundary) {
    && (BeforeLink(now) ==> BeforeLink(was))
    && (BeforeStaging(now) ==> BeforeStaging(was))
    && (Effecting(was) ==> Effecting(now))
  }

  lemma MovingKeepsAttributed(m: Machine, n: Machine, c: Caller)
    requires Attributed(m) && Moves(m, n, c)
    ensures Attributed(n)
  {
  }

  lemma MovingLeavesAlone(m: Machine, n: Machine, c: Caller, d: Caller)
    requires Moves(m, n, c) && PlacesOk(m) && d in m.at && d != c
    ensures LeavesAlone(m, n, d)
  {
    PlaceFits(m, d);
  }

  lemma MovingKeeps(address: Addressing, m: Machine, n: Machine, c: Caller)
    requires Sound(address, m) && Inv(address, n.core) && Moves(m, n, c)
    requires c in n.at ==> PlaceOk(n, c)
    ensures Sound(address, n)
  {
    hide Inv, Attributed, PlaceOk, LeavesAlone;
    MovingKeepsAttributed(m, n, c);
    forall d | d in m.at && d != c ensures LeavesAlone(m, n, d) {
      MovingLeavesAlone(m, n, c, d);
    }
    BystandersKeepPlaces(address, m, n, c);
  }

  lemma PlaceFits(m: Machine, c: Caller)
    requires PlacesOk(m) && c in m.at
    ensures c in m.core.calls && CallFits(m.core.calls[c], m.at[c].boundary)
    ensures m.at[c].boundary.AfterValidation? ==> Unclaimed(m.at[c].scanned, m.core.calls[c].goal)
  {
    hide Unclaimed;
    assert PlaceOk(m, c);
  }

  lemma EarlyPlaceIsOk(m: Machine, c: Caller)
    requires c in m.at && c in m.core.calls && BeforeStaging(m.at[c].boundary)
    requires CallFits(m.core.calls[c], m.at[c].boundary)
    requires m.at[c].boundary.AfterValidation? ==> Unclaimed(m.at[c].scanned, m.core.calls[c].goal)
    ensures PlaceOk(m, c)
  {
    hide Unclaimed;
  }

  /** A call that stays past the link, before any effect, under the same goal. */
  lemma LatePlaceIsOk(m: Machine, n: Machine, c: Caller)
    requires c in m.at && PlaceOk(m, c) && c in n.at && c in n.core.calls
    requires PastFlush(m.at[c].boundary) && PastFlush(n.at[c].boundary) && !Effecting(n.at[c].boundary)
    requires CallFits(n.core.calls[c], n.at[c].boundary) && GoalOf(n.core.calls[c]) == GoalOf(m.core.calls[c])
    requires m.core.files <= n.core.files && n.linked_by == m.linked_by && n.synced == m.synced
    ensures PlaceOk(n, c)
  {
    hide Answers;
    var goal := GoalOf(m.core.calls[c]);
    var t :| t in m.core.files && goal.Some? && Answers(goal.value, t);
    assert t in n.core.files;
  }

  // ---------- Each act keeps it ----------

  lemma CallProgresses(address: Addressing, m: Machine, act: Act)
    requires act.caller in m.core.calls && !act.Enter?
    ensures var c, calls, step := act.caller, CoreAfter(address, m, act).calls, CoreStep(address, m, act);
      c in calls
      && (calls[c] == m.core.calls[c]
          || (step.Some? && StepMoves(step.value, m.core.calls[c], calls[c]) && Progress(m.core.calls[c], calls[c])))
  {
    hide Next, Progress, StepMoves;
    match CoreStep(address, m, act)
    case Some(step) => StepProgresses(address, m.core, step);
    case None =>
  }

  lemma SettlingBuildsNothing(address: Addressing, m: Machine, act: Act)
    requires act.Settle? && PlacesOk(m) && act.caller in m.at
    ensures var calls := CoreAfter(address, m, act).calls;
      act.caller in calls && (calls[act.caller] == m.core.calls[act.caller] || !calls[act.caller].Built?)
  {
    hide Complete, Watermark, FindIdempotent, Sole;
    PlaceFits(m, act.caller);
  }

  lemma IncompleteLogIsRefused(address: Addressing, m: Machine, act: Act)
    requires act.Compare? && PlacesOk(m) && act.caller in m.at && Standing(m, act.caller, AfterLockAcquired)
    ensures var calls := CoreAfter(address, m, act).calls; act.caller in calls && !calls[act.caller].Checked?
  {
    hide Complete, Watermark;
    PlaceFits(m, act.caller);
  }

  /** The call is as it was, or failed, or has come on under its goal without passing a boundary. */
  predicate StillFits(was: Call, call: Call, b: Boundary) {
    || call == was
    || call.Failed?
    || (GoalOf(call) == GoalOf(was) && CallFits(call, b)
        && !Staging(b) && !Effecting(b) && !b.AfterValidation? && !b.AfterPublish?)
  }

  lemma SettlingFits(address: Addressing, m: Machine, act: Act)
    requires PlacesOk(m) && act.Settle? && act.caller in m.at
    ensures var c, core := act.caller, CoreAfter(address, m, act);
      c in core.calls && c in m.core.calls && StillFits(m.core.calls[c], core.calls[c], m.at[c].boundary)
  {
    hide CoreAfter, Settles, Unclaimed;
    PlaceFits(m, act.caller);
    CallProgresses(address, m, act);
    SettlingBuildsNothing(address, m, act);
  }

  lemma ComparingFits(address: Addressing, m: Machine, act: Act)
    requires PlacesOk(m) && act.Compare? && act.caller in m.at
    ensures var c, core := act.caller, CoreAfter(address, m, act);
      c in core.calls && c in m.core.calls && StillFits(m.core.calls[c], core.calls[c], m.at[c].boundary)
  {
    hide CoreAfter, Complete, Unclaimed;
    PlaceFits(m, act.caller);
    CallProgresses(address, m, act);
    if Standing(m, act.caller, AfterLockAcquired) {
      IncompleteLogIsRefused(address, m, act);
    }
  }

  lemma OthersFit(address: Addressing, m: Machine, act: Act)
    requires PlacesOk(m) && (act.Abandon? || act.LookAgain? || act.ReapLock?) && act.caller in m.at
    ensures var c, core := act.caller, CoreAfter(address, m, act);
      c in core.calls && c in m.core.calls && StillFits(m.core.calls[c], core.calls[c], m.at[c].boundary)
  {
    hide CoreAfter, Unclaimed;
    PlaceFits(m, act.caller);
    CallProgresses(address, m, act);
  }

  lemma QuietCallFits(address: Addressing, m: Machine, act: Act)
    requires PlacesOk(m) && Quiet(act) && act.caller in m.at
    ensures var c, core := act.caller, CoreAfter(address, m, act);
      c in core.calls && c in m.core.calls && StillFits(m.core.calls[c], core.calls[c], m.at[c].boundary)
  {
    hide PlacesOk, CoreAfter, StillFits;
    if act.Settle? {
      SettlingFits(address, m, act);
    } else if act.Compare? {
      ComparingFits(address, m, act);
    } else {
      OthersFit(address, m, act);
    }
  }

  lemma QuietActArrives(address: Addressing, m: Machine, act: Act)
    requires PlacesOk(m) && Quiet(act) && act.caller in m.at && act.caller in After(address, m, act).at
    requires m.core.files <= CoreAfter(address, m, act).files
    ensures PlaceOk(After(address, m, act), act.caller)
  {
    hide CoreAfter, CallFits, Answers, Unclaimed;
    var c, n := act.caller, After(address, m, act);
    QuietCallFits(address, m, act);
    assert PlaceOk(m, c);
    if !BeforeLink(m.at[c].boundary) {
      var goal := GoalOf(m.core.calls[c]);
      var t :| t in m.core.files && goal.Some? && Answers(goal.value, t);
      assert t in n.core.files;
    }
  }

  lemma QuietActKeeps(address: Addressing, m: Machine, act: Act)
    requires Injective(address) && Sound(address, m) && Quiet(act)
    ensures Sound(address, After(address, m, act))
  {
    hide Injective, Inv, Attributed, PlaceOk, CoreAfter;
    var c, n := act.caller, After(address, m, act);
    CoreKeeps(address, m, act);
    if c in n.at {
      QuietActArrives(address, m, act);
    }
    MovingKeeps(address, m, n, c);
  }

  /** A call that has moved on, or left, before its check under the lock. */
  ghost predicate EarlyArrival(m: Machine, n: Machine, c: Caller) {
    && (c in n.at ==> PlaceOk(n, c) && (c in m.at ==> Forward(m.at[c].boundary, n.at[c].boundary)))
    && (c in n.at && c !in m.at ==> c !in m.core.calls)
    && n == m.(core := n.core, at := n.at)
    && (forall d :: d != c ==> (d in n.at <==> d in m.at) && (d in m.at ==> n.at[d] == m.at[d]))
  }

  lemma EnteringArrives(address: Addressing, m: Machine, act: Act)
    requires PlacesOk(m) && (act.Enter? || act.Validate?)
    ensures EarlyArrival(m, After(address, m, act), act.caller)
  {
    hide Complete, Watermark, PlaceOk, FindIdempotent;
    var c, n := act.caller, After(address, m, act);
    if c in m.at {
      PlaceFits(m, c);
    }
    if n != m {
      EarlyPlaceIsOk(n, c);
    }
  }

  lemma PlanningArrives(address: Addressing, m: Machine, act: Act)
    requires PlacesOk(m) && act.Plan?
    ensures EarlyArrival(m, After(address, m, act), act.caller)
  {
    hide Complete, Watermark, PlaceOk, FindIdempotent;
    var c, n := act.caller, After(address, m, act);
    if c in m.at {
      PlaceFits(m, c);
    }
    if n != m && c in n.at {
      EarlyPlaceIsOk(n, c);
    }
  }

  lemma LockingArrives(address: Addressing, m: Machine, act: Act)
    requires PlacesOk(m) && (act.TakeLock? || act.Snapshot?)
    ensures EarlyArrival(m, After(address, m, act), act.caller)
  {
    hide Complete, PlaceOk, Unclaimed;
    var c, n := act.caller, After(address, m, act);
    if c in m.at {
      PlaceFits(m, c);
    }
    if n != m && c in n.at {
      EarlyPlaceIsOk(n, c);
    }
  }

  lemma EarlyActKeeps(address: Addressing, m: Machine, act: Act)
    requires Injective(address) && Sound(address, m) && Early(act)
    ensures Sound(address, After(address, m, act))
  {
    hide Injective, Inv, PlaceOk, PlacesOk, Attributed, After, CoreAfter;
    CoreKeeps(address, m, act);
    ActRefines(address, m, act);
    if act.Plan? {
      PlanningArrives(address, m, act);
    } else if act.Enter? || act.Validate? {
      EnteringArrives(address, m, act);
    } else {
      LockingArrives(address, m, act);
    }
    MovingKeeps(address, m, After(address, m, act), act.caller);
  }

  lemma SyncTempKeeps(address: Addressing, m: Machine, act: Act)
    requires Sound(address, m) && act.SyncTemp?
    ensures Sound(address, After(address, m, act))
  {
    hide CoreAfter, Inv, Attributed, OffersAre, Answered;
    var c, n := act.caller, After(address, m, act);
    if n != m {
      assert PlaceOk(m, c);
      assert PlaceOk(n, c);
      MovingKeeps(address, m, n, c);
    }
  }

  lemma ProjectingArrives(address: Addressing, m: Machine, act: Act)
    requires PlacesOk(m) && act.Project? && act.caller in m.at
    ensures var c, n := act.caller, After(address, m, act);
      c in n.at && PlaceOk(n, c) && Forward(m.at[c].boundary, n.at[c].boundary)
  {
    hide CoreAfter, Complete, Watermark, PlaceOk;
    var c, n := act.caller, After(address, m, act);
    PlaceFits(m, c);
    if n != m {
      LatePlaceIsOk(m, n, c);
    }
  }

  lemma ConcludingArrives(address: Addressing, m: Machine, act: Act)
    requires PlacesOk(m) && act.Conclude? && act.caller in m.at
    requires m.core.files <= CoreAfter(address, m, act).files
    ensures var c, n := act.caller, After(address, m, act);
      c in n.at ==> PlaceOk(n, c) && Forward(m.at[c].boundary, n.at[c].boundary)
  {
    hide Next, Complete, Watermark, PlaceOk, Projects;
    var c, n := act.caller, After(address, m, act);
    PlaceFits(m, c);
    CallProgresses(address, m, act);
    if n != m && c in n.at {
      LatePlaceIsOk(m, n, c);
    }
  }

  lemma ConcludingKeeps(address: Addressing, m: Machine, act: Act)
    requires Injective(address) && Sound(address, m) && (act.Project? || act.Conclude?)
    ensures Sound(address, After(address, m, act))
  {
    hide Injective, Inv, PlaceOk, PlacesOk, Attributed, CoreAfter;
    CoreKeeps(address, m, act);
    if act.caller in m.at {
      if act.Project? {
        ProjectingArrives(address, m, act);
      } else {
        ConcludingArrives(address, m, act);
      }
    }
    MovingKeeps(address, m, After(address, m, act), act.caller);
  }

  lemma LeavingKeeps(address: Addressing, m: Machine, act: Act)
    requires Injective(address) && Sound(address, m) && (act.Finish? || act.Throw? || act.Die?)
    ensures Sound(address, After(address, m, act))
  {
    hide Injective, Inv, PlaceOk, Attributed, CoreAfter;
    CoreKeeps(address, m, act);
    if After(address, m, act) != m {
      MovingKeeps(address, m, After(address, m, act), act.caller);
    }
  }

  lemma NextEffectArrives(address: Addressing, m: Machine, act: Act)
    requires PlacesOk(m) && act.NextEffect? && act.caller in m.at && After(address, m, act) != m
    ensures var c, n := act.caller, After(address, m, act);
      c in n.at && PlaceOk(n, c) && Forward(m.at[c].boundary, n.at[c].boundary)
  {
    hide CoreAfter, EffectsOf, Answered, OffersAre;
    assert PlaceOk(m, act.caller);
  }

  lemma NextEffectKeeps(address: Addressing, m: Machine, act: Act)
    requires Sound(address, m) && act.NextEffect?
    ensures Sound(address, After(address, m, act))
  {
    hide CoreAfter, Inv, PlaceOk, PlacesOk, Attributed, EffectsOf;
    if After(address, m, act) != m {
      NextEffectArrives(address, m, act);
      MovingKeeps(address, m, After(address, m, act), act.caller);
    }
  }

  /** Before its effects a call has offered nothing, and before its link it has linked nothing. */
  lemma NothingYet(m: Machine, c: Caller)
    requires Attributed(m) && c in m.at
    ensures !Effecting(m.at[c].boundary) ==> forall key :: Offer(c, key) !in m.offers
    ensures BeforeLink(m.at[c].boundary) ==> forall t :: t in m.linked_by ==> m.linked_by[t] != c
    ensures BeforeStaging(m.at[c].boundary) ==> forall p :: p in m.temps ==> p.owner != c
  {
  }

  lemma LoadArrives(address: Addressing, m: Machine, act: Act)
    requires PlacesOk(m) && Attributed(m) && act.Load? && act.caller in m.at && After(address, m, act) != m
    requires Inv(address, CoreAfter(address, m, act))
    ensures var c, n := act.caller, After(address, m, act);
      c in n.at ==> PlaceOk(n, c) && Forward(m.at[c].boundary, n.at[c].boundary)
  {
    hide Inv, Complete, Watermark, CanMaterialize, EffectsOf, Readable, PlaceOk, PlacesOk, Attributed;
    var c, n := act.caller, After(address, m, act);
    PlaceFits(m, c);
    if c in n.at {
      LoadedPlaceIsOk(address, m, n, c);
    }
  }

  lemma LoadedPlaceIsOk(address: Addressing, m: Machine, n: Machine, c: Caller)
    requires PlacesOk(m) && Attributed(m) && Inv(address, n.core) && c in m.at && !Effecting(m.at[c].boundary)
    requires !m.at[c].boundary.AfterPublish?
    requires n == m.(core := n.core, at := n.at) && c in n.core.calls && n.core.calls[c].Returned?
    requires c in m.core.calls && GoalOf(n.core.calls[c]) == GoalOf(m.core.calls[c])
    requires c in n.at && n.at[c].boundary == BoundaryBefore(n.core.calls[c].answer, 0)
    ensures PlaceOk(n, c)
  {
    hide EffectsOf, Attributed, KeyAmong, Complete, Watermark;
    assert PlaceOk(m, c);
    NothingYet(m, c);
    assert CallOk(address, n.core.files, n.core.lock, c, n.core.calls[c]);
    NoKeyAmongNone(EffectsOf(n.core.calls[c].answer));
  }

  lemma NoKeyAmongNone(effects: seq<Effect>)
    ensures forall key :: !KeyAmong(effects, 0, key)
  {
  }

  lemma LoadKeeps(address: Addressing, m: Machine, act: Act)
    requires Injective(address) && Sound(address, m) && act.Load?
    ensures Sound(address, After(address, m, act))
  {
    hide Injective, Inv, PlaceOk, PlacesOk, Attributed, CoreAfter, EffectsOf;
    CoreKeeps(address, m, act);
    if After(address, m, act) != m {
      LoadArrives(address, m, act);
      MovingKeeps(address, m, After(address, m, act), act.caller);
    }
  }

  // ---------- Acts on the outbox and the disk ----------

  lemma DispatchArrives(address: Addressing, m: Machine, act: Act)
    requires PlacesOk(m) && act.Dispatch? && act.caller in m.at && After(address, m, act) != m
    ensures act.caller in After(address, m, act).at && PlaceOk(After(address, m, act), act.caller)
  {
    hide CoreAfter, EffectsOf, CommandOutcome.AfterDispatch, Answered;
    var c, n := act.caller, After(address, m, act);
    assert PlaceOk(m, c);
    var effects, k := EffectsOf(m.core.calls[c].answer), m.at[c].boundary.k;
    forall key ensures Offer(c, key) in n.offers <==> KeyAmong(effects, k + 1, key) {
      assert Offer(c, key) in m.offers <==> KeyAmong(effects, k, key);
      assert effects[k].effect_key == key ==> KeyAmong(effects, k + 1, key);
    }
  }

  lemma DispatchingLeavesAlone(m: Machine, c: Caller, weather: CommandOutcome.Weather)
    requires PlacesOk(m) && Attributed(m) && DispatchOne(m, c, weather) != m
    ensures Undisturbing(m, DispatchOne(m, c, weather), c)
  {
    hide PlaceOk, EffectsOf, CommandOutcome.AfterDispatch;
    forall d | d in m.at ensures d in m.core.calls {
      PlaceFits(m, d);
    }
  }

  lemma DispatchKeeps(address: Addressing, m: Machine, act: Act)
    requires Sound(address, m) && act.Dispatch?
    ensures Sound(address, After(address, m, act))
  {
    hide CoreAfter, Inv, PlaceOk, PlacesOk, Attributed, Undisturbing, EffectsOf;
    if After(address, m, act) != m {
      DispatchArrives(address, m, act);
      DispatchingLeavesAlone(m, act.caller, act.weather);
      UndisturbingKeeps(address, m, After(address, m, act), act.caller);
    }
  }

  lemma StagingArrives(address: Addressing, m: Machine, act: Act)
    requires PlacesOk(m) && Attributed(m) && (act.OpenTemp? || act.WriteTemp?) && act.caller in m.at
    requires After(address, m, act) != m
    ensures act.caller in After(address, m, act).at && PlaceOk(After(address, m, act), act.caller)
  {
    hide CoreAfter, Answered, OffersAre, Attributed;
    assert PlaceOk(m, act.caller);
  }

  lemma StagingLeavesAlone(m: Machine, c: Caller)
    requires PlacesOk(m) && Attributed(m)
    ensures Committing(m, c, AfterSnapshot) ==> Undisturbing(m, Stage(m, c), c)
    ensures Committing(m, c, BeforeTempWrite) ==> Undisturbing(m, Write(m, c), c)
  {
    hide PlaceOk;
    forall d | d in m.at ensures d in m.core.calls {
      PlaceFits(m, d);
    }
  }

  /** One call has moved on and everybody else is left where they were. */
  ghost predicate Undisturbing(m: Machine, n: Machine, c: Caller) {
    && Attributed(n) && n.at.Keys <= m.at.Keys + {c} && n.core == m.core
    && forall d :: d in m.at && d != c ==> LeavesAlone(m, n, d)
  }

  lemma UndisturbingKeeps(address: Addressing, m: Machine, n: Machine, c: Caller)
    requires Sound(address, m) && Undisturbing(m, n, c) && (c in n.at ==> PlaceOk(n, c))
    ensures Sound(address, n)
  {
    hide Inv, PlaceOk, Attributed, LeavesAlone;
    BystandersKeepPlaces(address, m, n, c);
  }

  lemma StagingKeeps(address: Addressing, m: Machine, act: Act)
    requires Sound(address, m) && (act.OpenTemp? || act.WriteTemp?)
    ensures Sound(address, After(address, m, act))
  {
    hide CoreAfter, Inv, PlaceOk, Undisturbing, Stage, Write;
    var c, n := act.caller, After(address, m, act);
    if n != m {
      StagingArrives(address, m, act);
      StagingLeavesAlone(m, c);
      UndisturbingKeeps(address, m, n, c);
    }
  }

  lemma LinkingPublishes(address: Addressing, m: Machine, act: Act)
    requires Inv(address, m.core) && act.Link? && After(address, m, act) != m
    ensures var c, n := act.caller, After(address, m, act);
      && c in m.at && c in m.core.calls && m.core.calls[c].Checked?
      && var t := m.core.calls[c].built;
      && n.core.files == m.core.files + {t} && Answers(Execute(m.core.calls[c].request), t)
      && t.command_id == m.core.calls[c].request.command_id
      && c in n.core.calls && n.core.calls[c].Published? && n.core.calls[c].built == t
      && n.core.calls[c].request == m.core.calls[c].request
  {
    hide Complete, Watermark;
    assert CallOk(address, m.core.files, m.core.lock, act.caller, m.core.calls[act.caller]);
  }

  lemma LinkArrives(address: Addressing, m: Machine, act: Act)
    requires Sound(address, m) && act.Link? && After(address, m, act) != m
    ensures act.caller in After(address, m, act).at && PlaceOk(After(address, m, act), act.caller)
  {
    hide Complete, Watermark, Settles, Projects, Inv, OffersAre, Next, Answers, PlacesOk;
    LinkingPublishes(address, m, act);
    NothingYet(m, act.caller);
  }

  lemma LinkKeeps(address: Addressing, m: Machine, act: Act)
    requires Injective(address) && Sound(address, m) && act.Link?
    ensures Sound(address, After(address, m, act))
  {
    hide Complete, Watermark, Settles, Projects, Injective, Inv, PlaceOk, Next;
    var c, n := act.caller, After(address, m, act);
    CoreKeeps(address, m, act);
    if n != m {
      LinkArrives(address, m, act);
      LinkingPublishes(address, m, act);
      LinkKeepsAttributed(address, m, act);
      forall d | d in m.at && d != c ensures LeavesAlone(m, n, d) {
        PlaceFits(m, d);
      }
      BystandersKeepPlaces(address, m, n, c);
    }
  }

  lemma LinkKeepsAttributed(address: Addressing, m: Machine, act: Act)
    requires Sound(address, m) && act.Link? && After(address, m, act) != m
    requires m.core.calls.Keys <= CoreAfter(address, m, act).calls.Keys
    ensures Attributed(After(address, m, act))
  {
    hide Complete, Watermark, Settles, Projects, Inv, PlacesOk, Next;
    LinkingPublishes(address, m, act);
    NothingYet(m, act.caller);
  }

  /** Only the lock holder is between the check and the confirmation. */
  lemma HolderIsAlone(address: Addressing, m: Machine, c: Caller, d: Caller)
    requires Inv(address, m.core) && c in m.core.calls && d in m.core.calls
    requires m.core.calls[c].Published? && (m.core.calls[d].Published? || m.core.calls[d].Checked?)
    ensures c == d
  {
    assert CallOk(address, m.core.files, m.core.lock, c, m.core.calls[c]);
    assert CallOk(address, m.core.files, m.core.lock, d, m.core.calls[d]);
  }

  lemma FlushArrives(address: Addressing, m: Machine, c: Caller)
    requires Sound(address, m) && Confirming(m, c, AfterPublish)
    ensures c in Flush(address, m, c).at && PlaceOk(Flush(address, m, c), c)
  {
    hide Answered, OffersAre, Folder, Inv, Attributed;
    assert PlaceOk(m, c);
    PublishedIsThere(address, m, c);
  }

  lemma ClearArrives(m: Machine, c: Caller)
    requires PlacesOk(m) && Confirming(m, c, AfterDirectorySync)
    ensures c in Clear(m, c).at && PlaceOk(Clear(m, c), c)
  {
    hide Answered, OffersAre;
    assert PlaceOk(m, c);
  }

  lemma FolderArrives(address: Addressing, m: Machine, act: Act)
    requires Sound(address, m) && (act.SyncFolder? || act.CleanUp?) && act.caller in m.at
    requires After(address, m, act) != m
    ensures act.caller in After(address, m, act).at && PlaceOk(After(address, m, act), act.caller)
  {
    hide CoreAfter, Inv, PlaceOk, Flush, Clear, Attributed;
    if act.SyncFolder? {
      FlushArrives(address, m, act.caller);
    } else {
      ClearArrives(m, act.caller);
    }
  }

  lemma PublishedIsThere(address: Addressing, m: Machine, c: Caller)
    requires Inv(address, m.core) && c in m.core.calls && m.core.calls[c].Published?
    ensures m.core.calls[c].built in m.core.files
  {
    assert CallOk(address, m.core.files, m.core.lock, c, m.core.calls[c]);
  }

  /** While one call is between its link and its confirmation nobody else stages or links. */
  lemma OthersKeepOff(address: Addressing, m: Machine, c: Caller)
    requires Sound(address, m) && c in m.core.calls && m.core.calls[c].Published?
    ensures forall d :: d in m.at ==>
      d in m.core.calls && (d != c ==> !m.at[d].boundary.AfterPublish? && !Staging(m.at[d].boundary))
  {
    hide Inv, PlaceOk;
    forall d | d in m.at
      ensures d in m.core.calls && (d != c ==> !m.at[d].boundary.AfterPublish? && !Staging(m.at[d].boundary))
    {
      PlaceFits(m, d);
      if m.core.calls[d].Published? || m.core.calls[d].Checked? {
        HolderIsAlone(address, m, c, d);
      }
    }
  }

  lemma FlushingLeavesAlone(address: Addressing, m: Machine, c: Caller)
    requires Sound(address, m) && Confirming(m, c, AfterPublish)
    ensures Undisturbing(m, Flush(address, m, c), c)
  {
    hide Inv, PlacesOk, Folder;
    OthersKeepOff(address, m, c);
  }

  lemma ClearingLeavesAlone(address: Addressing, m: Machine, c: Caller)
    requires Sound(address, m) && Confirming(m, c, AfterDirectorySync)
    ensures Undisturbing(m, Clear(m, c), c)
  {
    hide Inv, PlacesOk;
    OthersKeepOff(address, m, c);
  }

  lemma FolderKeeps(address: Addressing, m: Machine, act: Act)
    requires Sound(address, m) && (act.SyncFolder? || act.CleanUp?)
    ensures Sound(address, After(address, m, act))
  {
    hide CoreAfter, Inv, PlaceOk, Undisturbing, Flush, Clear;
    var c, n := act.caller, After(address, m, act);
    if n != m {
      FolderArrives(address, m, act);
      if act.SyncFolder? {
        FlushingLeavesAlone(address, m, c);
      } else {
        ClearingLeavesAlone(address, m, c);
      }
      UndisturbingKeeps(address, m, n, c);
    }
  }

  // ---------- Every run keeps it ----------

  lemma ActKeeps(address: Addressing, m: Machine, act: Act)
    requires Injective(address) && Sound(address, m)
    ensures Sound(address, After(address, m, act))
  {
    hide Injective, Sound, After;
    match act
    case SyncTemp(_) => SyncTempKeeps(address, m, act);
    case OpenTemp(_) => StagingKeeps(address, m, act);
    case WriteTemp(_) => StagingKeeps(address, m, act);
    case Link(_) => LinkKeeps(address, m, act);
    case SyncFolder(_) => FolderKeeps(address, m, act);
    case CleanUp(_) => FolderKeeps(address, m, act);
    case Load(_, _) => LoadKeeps(address, m, act);
    case Dispatch(_, _) => DispatchKeeps(address, m, act);
    case NextEffect(_) => NextEffectKeeps(address, m, act);
    case Project(_) => ConcludingKeeps(address, m, act);
    case Conclude(_) => ConcludingKeeps(address, m, act);
    case _ =>
      if Quiet(act) {
        QuietActKeeps(address, m, act);
      } else if Early(act) {
        EarlyActKeeps(address, m, act);
      } else {
        LeavingKeeps(address, m, act);
      }
  }

  lemma {:induction false} ActingKeeps(address: Addressing, m: Machine, acts: seq<Act>)
    requires Injective(address) && Sound(address, m)
    ensures Sound(address, Acting(address, m, acts))
    decreases |acts|
  {
    hide Injective, Sound, After;
    if acts != [] {
      ActKeeps(address, m, acts[0]);
      ActingKeeps(address, After(address, m, acts[0]), acts[1..]);
    }
  }

  lemma OpeningIsSound(address: Addressing, log: seq<Transaction>, ledger: CommandOutcome.Ledger)
    requires CommandSafety.GoodLog(address, log)
    ensures Sound(address, Opening(log, ledger))
  {
  }
}
