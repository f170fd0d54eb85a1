/** Restarting a crashed command as the table says, on the very disk and outbox the crash left. */
module CrashRestart {
  import opened Wrappers
  import opened ProjectTypes
  import opened ProjectLog
  import opened CommandExecution
  import opened CommandInvariant
  import opened CommandSafety
  import CommandBuild
  import CommandOutcome
  import CommandReadBack
  import LogHealth
  import OutcomeRuns
  import opened CrashMachine
  import opened CrashInvariant
  import opened CrashTable

  // ---------- Runs of one call ----------

  predicate Solo(d: Caller, acts: seq<Act>) {
    forall i :: 0 <= i < |acts| ==> acts[i].caller == d || acts[i].ReapLock?
  }

  /** `d` alone, with dead holders' locks reaped, takes the machine from `m` to `n`. */
  ghost predicate Leads(address: Addressing, d: Caller, m: Machine, n: Machine) {
    exists acts :: Solo(d, acts) && Acting(address, m, acts) == n
  }

  lemma LeadsNowhere(address: Addressing, d: Caller, m: Machine)
    ensures Leads(address, d, m, m)
  {
    assert Solo(d, []) && Acting(address, m, []) == m;
  }

  lemma {:induction false} ActingTwice(address: Addressing, m: Machine, a: seq<Act>, b: seq<Act>)
    ensures Acting(address, m, a + b) == Acting(address, Acting(address, m, a), b)
    decreases |a|
  {
    hide After;
    if a == [] {
      assert a + b == b;
    } else {
      assert (a + b)[1..] == a[1..] + b;
      ActingTwice(address, After(address, m, a[0]), a[1..], b);
    }
  }

  lemma LeadsFurther(address: Addressing, d: Caller, m: Machine, n: Machine, act: Act)
    requires Leads(address, d, m, n) && (act.caller == d || act.ReapLock?)
    ensures Leads(address, d, m, After(address, n, act))
  {
    hide After;
    var acts :| Solo(d, acts) && Acting(address, m, acts) == n;
    ActingTwice(address, m, acts, [act]);
    assert Acting(address, n, [act]) == After(address, n, act) by {
      assert [act][1..] == [];
    }
    assert Solo(d, acts + [act]);
  }

  /** Where call `d` stands, over which files, under whose lock. */
  ghost predicate Scene(m: Machine, d: Caller, call: Call, b: Boundary, files: set<Transaction>, lock: Option<Caller>) {
    CallIs(m.core, d, call) && d in m.at && m.at[d].boundary == b && m.core.files == files && m.core.lock == lock
  }

  // ---------- Executing again, act by act ----------

  lemma Reaps(address: Addressing, m: Machine, c: Caller)
    requires c in m.core.calls && m.core.calls[c].Dead? && m.core.lock == Some(c)
    ensures var n := After(address, m, ReapLock(c));
      n == m.(core := n.core) && n.core == m.core.(lock := None)
  {
  }

  lemma Enters(address: Addressing, m: Machine, d: Caller, goal: Goal)
    requires d !in m.core.calls
    ensures var n := After(address, m, Enter(d, goal));
      Scene(n, d, Looking(goal, m.core.files), BeforeAuthorization, m.core.files, m.core.lock) && n.ledger == m.ledger
      && n.synced == m.synced
  {
  }

  lemma ValidatesAndPlans(
    address: Addressing, m: Machine, d: Caller, r: Request, files: set<Transaction>, at: Millis, events: seq<Event>)
    requires Scene(m, d, Looking(Execute(r), files), BeforeAuthorization, files, None)
    requires Complete(address, files) && Watermark(address, files) == r.expected && ScopeUnused(files, r.scope)
    ensures var n := After(address, After(address, m, Validate(d, files)), Plan(d, at, events));
      Scene(n, d, Built(r, files, Build(r, at, events)), BeforeCommit, files, None) && n.ledger == m.ledger
  {
    hide Complete, Watermark;
    FindIdempotentIsExact(files, r.scope);
    var v := After(address, m, Validate(d, files));
    assert v == m.(at := m.at[d := Place(AfterValidation, files)]);
  }

  lemma Locks(address: Addressing, m: Machine, d: Caller, r: Request, files: set<Transaction>, t: Transaction)
    requires Scene(m, d, Built(r, files, t), BeforeCommit, files, None)
    ensures var n := After(address, m, TakeLock(d));
      Scene(n, d, Holding(r, files, t), AfterLockAcquired, files, Some(d)) && n.ledger == m.ledger
  {
    hide Complete, Watermark;
  }

  lemma TakesSnapshot(address: Addressing, m: Machine, d: Caller, r: Request, files: set<Transaction>, t: Transaction)
    requires Scene(m, d, Holding(r, files, t), AfterLockAcquired, files, Some(d)) && Complete(address, files)
    ensures var n := After(address, m, Snapshot(d));
      Scene(n, d, Holding(r, files, t), AfterSnapshot, files, Some(d)) && n.ledger == m.ledger
  {
    hide CoreAfter, Complete, Watermark;
  }

  lemma Compares(address: Addressing, m: Machine, d: Caller, r: Request, files: set<Transaction>, t: Transaction)
    requires Scene(m, d, Holding(r, files, t), AfterSnapshot, files, Some(d))
    requires Complete(address, files) && Watermark(address, files) == r.expected
    ensures var n := After(address, m, Compare(d));
      Scene(n, d, Checked(r, files, t), AfterSnapshot, files, Some(d)) && n.ledger == m.ledger
  {
    hide Complete, Watermark;
  }

  lemma OpensAndWrites(address: Addressing, m: Machine, d: Caller, r: Request, files: set<Transaction>, t: Transaction)
    requires Scene(m, d, Checked(r, files, t), AfterSnapshot, files, Some(d))
    ensures var n := After(address, After(address, m, OpenTemp(d)), WriteTemp(d));
      Scene(n, d, Checked(r, files, t), AfterTempWrite, files, Some(d)) && n.ledger == m.ledger
  {
    hide CoreAfter;
    var a := After(address, m, OpenTemp(d));
    assert Scene(a, d, Checked(r, files, t), BeforeTempWrite, files, Some(d)) && a.ledger == m.ledger;
  }

  lemma Syncs(address: Addressing, m: Machine, d: Caller, r: Request, files: set<Transaction>, t: Transaction)
    requires Scene(m, d, Checked(r, files, t), AfterTempWrite, files, Some(d))
    ensures var n := After(address, m, SyncTemp(d));
      Scene(n, d, Checked(r, files, t), AfterFileSync, files, Some(d)) && n.ledger == m.ledger
  {
    hide CoreAfter;
  }

  lemma Links(address: Addressing, m: Machine, d: Caller, r: Request, files: set<Transaction>, t: Transaction)
    requires Scene(m, d, Checked(r, files, t), AfterFileSync, files, Some(d))
    ensures var n := After(address, m, Link(d));
      Scene(n, d, Published(r, files, t), AfterPublish, files + {t}, Some(d)) && n.ledger == m.ledger
  {
  }

  lemma FlushesAndClears(
    address: Addressing, m: Machine, d: Caller, r: Request, seen: set<Transaction>, t: Transaction,
    files: set<Transaction>)
    requires Scene(m, d, Published(r, seen, t), AfterPublish, files, Some(d))
    ensures var n := After(address, After(address, m, SyncFolder(d)), CleanUp(d));
      Scene(n, d, Published(r, seen, t), AfterTransactionPublish, files, Some(d)) && n.ledger == m.ledger
  {
    hide CoreAfter, Folder;
    var a := After(address, m, SyncFolder(d));
    assert Scene(a, d, Published(r, seen, t), AfterDirectorySync, files, Some(d)) && a.ledger == m.ledger;
  }

  lemma ProjectsAnew(
    address: Addressing, m: Machine, d: Caller, r: Request, seen: set<Transaction>, t: Transaction,
    files: set<Transaction>)
    requires Scene(m, d, Published(r, seen, t), AfterTransactionPublish, files, Some(d))
    requires Complete(address, files) && Watermark(address, files) == Some(address(t))
    ensures var n := After(address, m, Project(d));
      Scene(n, d, Published(r, seen, t), AfterProjection, files, Some(d)) && n.ledger == m.ledger
  {
    hide CoreAfter, Complete, Watermark;
  }

  lemma Concludes(
    address: Addressing, m: Machine, d: Caller, r: Request, seen: set<Transaction>, t: Transaction,
    files: set<Transaction>)
    requires Scene(m, d, Published(r, seen, t), AfterProjection, files, Some(d))
    requires Complete(address, files) && Watermark(address, files) == Some(address(t))
    ensures var n := After(address, m, Conclude(d));
      Scene(n, d, Returning(Execute(r), t, files), AfterCommit, files, None) && n.ledger == m.ledger
  {
    hide Complete, Watermark;
  }

  lemma Finds(
    address: Addressing, m: Machine, d: Caller, id: Id, t: Transaction, files: set<Transaction>, lock: Option<Caller>)
    requires Scene(m, d, Looking(Recover(id), files), BeforeAuthorization, files, lock)
    requires DecideRecovery(id, files, files) == Returning(Recover(id), t, files)
    ensures var n := After(address, m, Settle(d, files));
      Scene(n, d, Returning(Recover(id), t, files), BeforeAuthorization, files, lock)
      && n.ledger == m.ledger && n.synced == m.synced
  {
    hide DecideRecovery;
  }

  lemma Loads(
    address: Addressing, m: Machine, d: Caller, goal: Goal, t: Transaction, b: Boundary, files: set<Transaction>,
    lock: Option<Caller>)
    requires Scene(m, d, Returning(goal, t, files), b, files, lock)
    requires Readable(t) && Complete(address, files) && t in files
    ensures var n := After(address, m, Load(d, files));
      Scene(n, d, Returned(goal, t), BoundaryBefore(t, 0), files, lock) && n.ledger == m.ledger && n.synced == m.synced
  {
    hide CanMaterialize, EffectsOf, Readable, Complete;
    LogHealth.MaterializesExactly(address, files, t);
  }

  // ---------- Delivering ----------

  lemma Dispatches(
    address: Addressing, m: Machine, d: Caller, goal: Goal, t: Transaction, k: nat, files: set<Transaction>,
      lock: Option<Caller>,
    weather: CommandOutcome.Weather)
    requires Scene(m, d, Returned(goal, t), BeforeEffect(k), files, lock) && k < |EffectsOf(t)|
    ensures var n := After(address, m, Dispatch(d, weather));
      && Scene(n, d, Returned(goal, t), AfterEffect(k), files, lock)
      && n.ledger == CommandOutcome.AfterDispatch(m.ledger, EffectsOf(t)[k], weather) && n.synced == m.synced
  {
    hide CoreAfter, EffectsOf, CommandOutcome.AfterDispatch;
  }

  lemma MovesOn(
    address: Addressing, m: Machine, d: Caller, goal: Goal, t: Transaction, k: nat, files: set<Transaction>,
      lock: Option<Caller>)
    requires Scene(m, d, Returned(goal, t), AfterEffect(k), files, lock)
    ensures var n := After(address, m, NextEffect(d));
      Scene(n, d, Returned(goal, t), BoundaryBefore(t, k + 1), files, lock) && n.ledger == m.ledger
        && n.synced == m.synced
  {
    hide CoreAfter, EffectsOf;
  }

  lemma {:induction false} DeliversAll(
    address: Addressing, start: Machine, m: Machine, d: Caller, goal: Goal, t: Transaction, k: nat,
      files: set<Transaction>,
    lock: Option<Caller>, ledger: CommandOutcome.Ledger, weather: nat -> CommandOutcome.Weather)
    returns (n: Machine)
    requires Leads(address, d, start, m) && k <= |EffectsOf(t)|
    requires Scene(m, d, Returned(goal, t), BoundaryBefore(t, k), files, lock)
    requires m.ledger == CommandOutcome.AfterAll(ledger, EffectsOf(t)[..k], weather)
    ensures Leads(address, d, start, n)
    ensures Scene(n, d, Returned(goal, t), BeforeReceipt, files, lock)
    ensures n.ledger == CommandOutcome.AfterAll(ledger, EffectsOf(t), weather) && n.synced == m.synced
    decreases |EffectsOf(t)| - k
  {
    hide After, EffectsOf, Leads, CommandOutcome.AfterDispatch;
    var effects := EffectsOf(t);
    if k == |effects| {
      assert effects[..k] == effects;
      n := m;
    } else {
      assert effects[..k + 1][..k] == effects[..k];
      Dispatches(address, m, d, goal, t, k, files, lock, weather(k));
      var a := After(address, m, Dispatch(d, weather(k)));
      MovesOn(address, a, d, goal, t, k, files, lock);
      LeadsFurther(address, d, start, m, Dispatch(d, weather(k)));
      LeadsFurther(address, d, start, a, NextEffect(d));
      n := DeliversAll(address, start, After(address, a, NextEffect(d)), d, goal, t, k + 1, files, lock, ledger,
        weather);
    }
  }

  lemma Finishes(
    address: Addressing, m: Machine, d: Caller, goal: Goal, t: Transaction, files: set<Transaction>,
    lock: Option<Caller>)
    requires Scene(m, d, Returned(goal, t), BeforeReceipt, files, lock)
    ensures var n := After(address, m, Finish(d));
      n == m.(at := m.at - {d})
  {
    hide CoreAfter;
  }

  // ---------- A whole restart ----------

  predicate LockFree(m: Machine) {
    m.core.lock.None? || (m.core.lock.value in m.core.calls && m.core.calls[m.core.lock.value].Dead?)
  }

  /** The state after the reaping of a dead holder's lock, if there is one. */
  ghost function Unlocked(address: Addressing, m: Machine): Machine {
    if m.core.lock.None? then m else After(address, m, ReapLock(m.core.lock.value))
  }

  lemma FreesLock(address: Addressing, m: Machine, d: Caller)
    requires LockFree(m)
    ensures Leads(address, d, m, Unlocked(address, m))
    ensures Unlocked(address, m) == m.(core := m.core.(lock := None))
  {
    hide After, Leads;
    LeadsNowhere(address, d, m);
    if m.core.lock.Some? {
      Reaps(address, m, m.core.lock.value);
      LeadsFurther(address, d, m, m, ReapLock(m.core.lock.value));
    }
  }

  /** Everything up to the committed transaction, by a call that meets nobody. */
  lemma CommitsAlone(
    address: Addressing, m: Machine, d: Caller, r: Request, at: Millis, events: seq<Event>) returns (n: Machine)
    requires LockFree(m) && d !in m.core.calls
    requires Committable(address, m.core.files, r, Build(r, at, events))
    ensures Leads(address, d, m, n) && n.ledger == m.ledger
    ensures var t, files := Build(r, at, events), m.core.files + {Build(r, at, events)};
      Scene(n, d, Returning(Execute(r), t, files), AfterCommit, files, None) && Complete(address, files)
  {
    hide After, Leads, Complete, Watermark, Unlocked, ScopeUnused;
    var files, t := m.core.files, Build(r, at, events);
    FreesLock(address, m, d);
    n := Unlocked(address, m);
    Enters(address, n, d, Execute(r));
    LeadsFurther(address, d, m, n, Enter(d, Execute(r)));
    n := After(address, n, Enter(d, Execute(r)));
    ValidatesAndPlans(address, n, d, r, files, at, events);
    LeadsFurther(address, d, m, n, Validate(d, files));
    n := After(address, n, Validate(d, files));
    LeadsFurther(address, d, m, n, Plan(d, at, events));
    n := After(address, n, Plan(d, at, events));
    n := PublishesAlone(address, m, n, d, r, files, t);
  }

  /** The request fits the log, its scope is unused, and the transaction's identities are new. */
  ghost predicate Committable(address: Addressing, files: set<Transaction>, r: Request, t: Transaction) {
    && Complete(address, files) && Watermark(address, files) == r.expected && ScopeUnused(files, r.scope)
    && Complete(address, files + {t}) && Watermark(address, files + {t}) == Some(address(t))
  }

  lemma PublishesAlone(
    address: Addressing, start: Machine, m: Machine, d: Caller, r: Request, files: set<Transaction>, t: Transaction)
    returns (n: Machine)
    requires Leads(address, d, start, m) && Scene(m, d, Built(r, files, t), BeforeCommit, files, None)
    requires Committable(address, files, r, t)
    ensures Leads(address, d, start, n) && n.ledger == m.ledger
    ensures Scene(n, d, Returning(Execute(r), t, files + {t}), AfterCommit, files + {t}, None)
  {
    hide After, Leads, Complete, Watermark, ScopeUnused;
    Locks(address, m, d, r, files, t);
    LeadsFurther(address, d, start, m, TakeLock(d));
    n := After(address, m, TakeLock(d));
    TakesSnapshot(address, n, d, r, files, t);
    LeadsFurther(address, d, start, n, Snapshot(d));
    n := After(address, n, Snapshot(d));
    Compares(address, n, d, r, files, t);
    LeadsFurther(address, d, start, n, Compare(d));
    n := After(address, n, Compare(d));
    OpensAndWrites(address, n, d, r, files, t);
    LeadsFurther(address, d, start, n, OpenTemp(d));
    n := After(address, n, OpenTemp(d));
    LeadsFurther(address, d, start, n, WriteTemp(d));
    n := After(address, n, WriteTemp(d));
    Syncs(address, n, d, r, files, t);
    LeadsFurther(address, d, start, n, SyncTemp(d));
    n := After(address, n, SyncTemp(d));
    Links(address, n, d, r, files, t);
    LeadsFurther(address, d, start, n, Link(d));
    n := ConfirmsAlone(address, start, After(address, n, Link(d)), d, r, files, t, files + {t});
  }

  lemma ConfirmsAlone(
    address: Addressing, start: Machine, m: Machine, d: Caller, r: Request, seen: set<Transaction>, t: Transaction,
      files: set<Transaction>)
    returns (n: Machine)
    requires Leads(address, d, start, m) && Scene(m, d, Published(r, seen, t), AfterPublish, files, Some(d))
    requires Complete(address, files) && Watermark(address, files) == Some(address(t))
    ensures Leads(address, d, start, n) && n.ledger == m.ledger
    ensures Scene(n, d, Returning(Execute(r), t, files), AfterCommit, files, None)
  {
    hide After, Leads, Complete, Watermark;
    FlushesAndClears(address, m, d, r, seen, t, files);
    LeadsFurther(address, d, start, m, SyncFolder(d));
    n := After(address, m, SyncFolder(d));
    LeadsFurther(address, d, start, n, CleanUp(d));
    n := After(address, n, CleanUp(d));
    ProjectsAnew(address, n, d, r, seen, t, files);
    LeadsFurther(address, d, start, n, Project(d));
    n := After(address, n, Project(d));
    Concludes(address, n, d, r, seen, t, files);
    LeadsFurther(address, d, start, n, Conclude(d));
    n := After(address, n, Conclude(d));
  }

  /** From the answer to the receipt: every effect is offered again from the first. */
  lemma DeliversAlone(
    address: Addressing, start: Machine, m: Machine, d: Caller, goal: Goal, t: Transaction, b: Boundary,
      files: set<Transaction>,
    lock: Option<Caller>, weather: nat -> CommandOutcome.Weather) returns (n: Machine)
    requires Leads(address, d, start, m) && Scene(m, d, Returning(goal, t, files), b, files, lock)
    requires Readable(t) && Complete(address, files) && t in files
    ensures Leads(address, d, start, n) && d !in n.at && CallIs(n.core, d, Returned(goal, t)) && n.core.files == files
    ensures n.ledger == CommandOutcome.AfterAll(m.ledger, EffectsOf(t), weather) && n.synced == m.synced
  {
    hide After, Leads, Complete, EffectsOf, Readable;
    Loads(address, m, d, goal, t, b, files, lock);
    LeadsFurther(address, d, start, m, Load(d, files));
    assert EffectsOf(t)[..0] == [];
    n := DeliversAll(address, start, After(address, m, Load(d, files)), d, goal, t, 0, files, lock, m.ledger, weather);
    Finishes(address, n, d, goal, t, files, lock);
    LeadsFurther(address, d, start, n, Finish(d));
    n := After(address, n, Finish(d));
  }

  // ---------- The theorem ----------

  /** What a restart of the crashed command needs of the log, besides a lock nobody alive holds. */
  ghost predicate Restartable(address: Addressing, m: Machine, r: Request, b: Boundary, again: Transaction) {
    && LockFree(m) && Complete(address, m.core.files)
    && (BeforeLink(b) ==>
         Watermark(address, m.core.files) == r.expected && FreshIdentity(m.core.files, again) && Readable(again))
    && (!BeforeLink(b) ==> forall t :: t in m.core.files && ScopeOf(t) == r.scope ==> Readable(t))
  }

  /** The command is done: one transaction in its scope, the one returned, and every effect of it offered. */
  ghost predicate Done(m: Machine, d: Caller, r: Request, t: Transaction) {
    && t in m.core.files && ScopeOf(t) == r.scope
    && (forall u :: u in m.core.files && ScopeOf(u) == r.scope ==> u == t)
    && d !in m.at && d in m.core.calls && m.core.calls[d].Returned? && m.core.calls[d].answer == t
    && OutcomeRuns.Once(m.ledger)
  }

  lemma RecoversIt(
    address: Addressing, m: Machine, d: Caller, id: Id, t: Transaction, weather: nat -> CommandOutcome.Weather)
      returns (n: Machine)
    requires d !in m.core.calls && Complete(address, m.core.files) && Readable(t) && t in m.core.files
    requires forall u :: u in m.core.files && u.command_id == id ==> u == t
    requires t.command_id == id
    ensures Leads(address, d, m, n) && d !in n.at && CallIs(n.core, d, Returned(Recover(id), t))
      && n.core.files == m.core.files
    ensures n.ledger == CommandOutcome.AfterAll(m.ledger, EffectsOf(t), weather) && n.synced == m.synced
  {
    hide After, Leads, Complete, EffectsOf, Readable, DecideRecovery;
    var files := m.core.files;
    LeadsNowhere(address, d, m);
    Enters(address, m, d, Recover(id));
    LeadsFurther(address, d, m, m, Enter(d, Recover(id)));
    n := After(address, m, Enter(d, Recover(id)));
    LogHealth.RecoveryFindsExactly(id, files, files, t);
    Finds(address, n, d, id, t, files, m.core.lock);
    LeadsFurther(address, d, m, n, Settle(d, files));
    n := DeliversAlone(address, m, After(address, n, Settle(d, files)), d, Recover(id), t, BeforeAuthorization, files,
      m.core.lock, weather);
  }

  lemma ExecutesAgain(
    address: Addressing, m: Machine, d: Caller, r: Request, at: Millis, events: seq<Event>,
      weather: nat -> CommandOutcome.Weather)
    returns (n: Machine)
    requires Injective(address) && LockFree(m) && d !in m.core.calls && ScopeUnused(m.core.files, r.scope)
    requires Complete(address, m.core.files) && Watermark(address, m.core.files) == r.expected
    requires FreshIdentity(m.core.files, Build(r, at, events)) && Readable(Build(r, at, events))
    ensures var t := Build(r, at, events);
      && Leads(address, d, m, n) && d !in n.at && CallIs(n.core, d, Returned(Execute(r), t))
      && n.core.files == m.core.files + {t}
      && n.ledger == CommandOutcome.AfterAll(m.ledger, EffectsOf(t), weather)
  {
    hide Injective, After, Leads, Reduce, EffectsOf, Readable, FreshIdentity;
    var t := Build(r, at, events);
    assert t !in m.core.files;
    PublishKeepsComplete(address, ProjectLog.Scan(m.core.files, {}), t);
    n := CommitsAlone(address, m, d, r, at, events);
    n := DeliversAlone(address, m, n, d, Execute(r), t, AfterCommit, m.core.files + {t}, None, weather);
  }

  lemma FindsReplay(
    address: Addressing, m: Machine, d: Caller, r: Request, t: Transaction, files: set<Transaction>,
    lock: Option<Caller>)
    requires Scene(m, d, Looking(Execute(r), files), BeforeAuthorization, files, lock)
    requires FindIdempotent(files, r.scope) == Found(t) && SameInput(t, r)
    ensures var n := After(address, m, Settle(d, files));
      Scene(n, d, Returning(Execute(r), t, files), BeforeAuthorization, files, lock)
      && n.ledger == m.ledger && n.synced == m.synced
  {
    hide FindIdempotent, Complete, Watermark;
  }

  /**
   Executing again where the table asks for a recovery: the published transaction is replayed, nothing is
   planned or published, and its effects are offered again.
   */
  lemma ReplaysIt(
    address: Addressing, m: Machine, d: Caller, r: Request, t: Transaction, weather: nat -> CommandOutcome.Weather)
    returns (n: Machine)
    requires Injective(address) && Sound(address, m) && d !in m.core.calls && Complete(address, m.core.files)
    requires Readable(t) && t in m.core.files && Answers(Execute(r), t)
    ensures Leads(address, d, m, n) && d !in n.at && CallIs(n.core, d, Returned(Execute(r), t))
    ensures n.core.files == m.core.files && n.ledger == CommandOutcome.AfterAll(m.ledger, EffectsOf(t), weather)
    ensures n.synced == m.synced
  {
    hide Injective, After, Leads, Complete, EffectsOf, Readable, FindIdempotent, Attributed, PlacesOk;
    var files := m.core.files;
    LeadsNowhere(address, d, m);
    Enters(address, m, d, Execute(r));
    LeadsFurther(address, d, m, m, Enter(d, Execute(r)));
    n := After(address, m, Enter(d, Execute(r)));
    WinnerIsFound(files, files, r.scope, t);
    FindsReplay(address, n, d, r, t, files, m.core.lock);
    LeadsFurther(address, d, m, n, Settle(d, files));
    n := DeliversAlone(
      address, m, After(address, n, Settle(d, files)), d, Execute(r), t, BeforeAuthorization, files, m.core.lock,
        weather);
  }

  /**
   Let an execution nobody interfered with die at any boundary, after whatever crashes came before it, and
   restart it as that boundary's row says, on the disk and outbox the crash left. The restart comes to its
   end; the scope then holds exactly one transaction, the one returned; the outbox has been offered all of
   its effects and has carried out none of them twice. A recovery adds no file and flushes no directory.
   */
  lemma RestartsAsTheTableSays(
    address: Addressing, log: seq<Transaction>, ledger: CommandOutcome.Ledger, acts: seq<Act>, c: Caller, r: Request,
    d: Caller, at: Millis, events: seq<Event>, weather: nat -> CommandOutcome.Weather)
    returns (n: Machine, t: Transaction)
    requires Injective(address) && GoodLog(address, log) && OutcomeRuns.Once(ledger)
    requires var m := Reaching(address, log, ledger, acts);
      && Executes(m, c, r) && Undisturbed(m, c, r) && d !in m.core.calls
      && Restartable(address, After(address, m, Die(c)), r, m.at[c].boundary, Build(r, at, events))
    ensures var m := Reaching(address, log, ledger, acts);
            var crashed := After(address, m, Die(c));
      && Leads(address, d, crashed, n) && Done(n, d, r, t)
      && n.ledger == CommandOutcome.AfterAll(crashed.ledger, EffectsOf(t), weather)
      && match Matrix(m.at[c].boundary).action
         case ExecuteAgain =>
           t == Build(r, at, events) && n.core.files == crashed.core.files + {t} && n.core.calls[d].goal == Execute(r)
         case RecoverIt =>
           n.core.files == crashed.core.files && n.synced == crashed.synced
             && n.core.calls[d].goal == Recover(r.command_id)
  {
    hide Injective, Acting, After, Leads, Sound, EffectsOf, Undisturbed, Complete, Watermark, FreshIdentity, Readable,
      OutcomeRuns.Once,
      CommandOutcome.AfterAll;
    var m := Reaching(address, log, ledger, acts);
    var crashed, b := After(address, m, Die(c)), m.at[c].boundary;
    ReachedIsSound(address, log, ledger, acts);
    CrashesAreSafe(address, log, ledger, acts);
    DyingKeepsFiles(address, m, c);
    var own := OwnTransaction(address, m, c, r);
    if BeforeLink(b) {
      t := Build(r, at, events);
      assert ScopeUnused(crashed.core.files, r.scope);
      n := ExecutesAgain(address, crashed, d, r, at, events, weather);
    } else {
      t := own.value;
      n := RecoversIt(address, crashed, d, r.command_id, t, weather);
    }
    OutcomeRuns.AllKeepsOnce(crashed.ledger, EffectsOf(t), weather);
  }

  lemma DyingKeepsFiles(address: Addressing, m: Machine, c: Caller)
    ensures var crashed := After(address, m, Die(c));
      crashed.core.files == m.core.files && crashed.ledger == m.ledger && crashed.core.calls.Keys <= m.core.calls.Keys
  {
  }

  /** If the last outcome is `completed`, every required effect happened exactly once, however many restarts it took. */
  lemma CompletedOnce(m: Machine, t: Transaction, weather: nat -> CommandOutcome.Weather, n: Machine)
    requires OutcomeRuns.Once(m.ledger) && n.ledger == CommandOutcome.AfterAll(m.ledger, EffectsOf(t), weather)
    requires OutcomeRuns.OutcomeOf(m.ledger, EffectsOf(t), weather) == CommandOutcome.Completed
    ensures forall i :: 0 <= i < |EffectsOf(t)| && EffectsOf(t)[i].required ==>
      n.ledger.applied[EffectsOf(t)[i].effect_key] == 1
  {
    hide EffectsOf, OutcomeRuns.OutcomeOf, OutcomeRuns.Once, CommandOutcome.AfterAll;
    EffectKeysDistinct(t);
    OutcomeRuns.CompletedIsAbsorbing(m.ledger, EffectsOf(t), weather, [], weather);
    assert OutcomeRuns.LedgerAfter(n.ledger, EffectsOf(t), []) == n.ledger;
  }

  /**
   Recovery confirms nothing: a command that died between its link and the flush of its directory is still
   unconfirmed on disk when a restart by the table has delivered all of its effects and returned.
   */
  lemma RecoveryLeavesUnconfirmed(
    address: Addressing, log: seq<Transaction>, ledger: CommandOutcome.Ledger, acts: seq<Act>, c: Caller, r: Request,
    d: Caller, weather: nat -> CommandOutcome.Weather) returns (n: Machine, t: Transaction)
    requires Injective(address) && GoodLog(address, log) && OutcomeRuns.Once(ledger)
    requires var m := Reaching(address, log, ledger, acts);
      && Executes(m, c, r) && Undisturbed(m, c, r) && m.at[c].boundary.AfterPublish? && d !in m.core.calls
      && Restartable(address, After(address, m, Die(c)), r, AfterPublish, Build(r, 0, []))
    ensures Leads(address, d, After(address, Reaching(address, log, ledger, acts), Die(c)), n)
    ensures Done(n, d, r, t) && PersistenceOf(n, r) == PublishedUnconfirmed
  {
    hide Injective, Acting, After, Leads, Sound, EffectsOf, Undisturbed, Complete, Watermark, FreshIdentity, Readable,
      OutcomeRuns.Once,
      CommandOutcome.AfterAll;
    var m := Reaching(address, log, ledger, acts);
    n, t := RestartsAsTheTableSays(address, log, ledger, acts, c, r, d, 0, [], weather);
    ReachedIsSound(address, log, ledger, acts);
    PersistenceColumn(address, m, c, r);
    DyingChangesNothing(address, m, c, r, AfterPublish);
  }

  /** The transaction of an accepted plan can be read back, so a restart of one can deliver. */
  lemma AcceptedPlansAreReadable(s: CommandBuild.Supply, r: Request, p: CommandBuild.Plan, kind: CommandBuild.Kind)
    requires CommandBuild.NormalizePlan(p, kind, r).Ok?
    ensures var t := CommandBuild.Assembled(s, r, p); t == Build(r, t.recorded_at, t.events) && Readable(t)
  {
    hide CommandBuild.NormalizePlan, CommandBuild.LifecycleOf, CommandBuild.ExtractEffects, CommandBuild.Middle,
      CommandBuild.CommittedAt;
    CommandReadBack.BuildReadBackAgree(s, r, p, kind);
  }
}
