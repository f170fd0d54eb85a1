/**
 What holds over whole runs of commits and repairs on one passport, each of which may
 die between any two file mutations.
 */
module PassportRuns {
  import opened Wrappers
  import opened CommandMarker
  import opened PassportModel
  import opened PassportCommit

  /** One process entering the critical section: it commits or repairs, and lives for `budget` mutations. */
  datatype Op = CommitOp(req: Request, budget: nat) | RepairOp(budget: nat)

  datatype Report = CommitReport(outcome: Outcome) | RepairReport(status: RepairStatus)

  datatype Stepped = Stepped(files: Disk, report: Report)

  function Step(hash: Hasher, d: Disk, op: Op): Stepped {
    match op
    case CommitOp(req, budget) =>
      var c := AfterCommit(hash, d, req, budget); Stepped(c.files, CommitReport(c.outcome))
    case RepairOp(budget) =>
      var r := AfterRepair(hash, d, budget); Stepped(r.files, RepairReport(r.status))
  }

  function Run(hash: Hasher, d: Disk, ops: seq<Op>): Disk
    decreases |ops|
  {
    if ops == [] then d else Run(hash, Step(hash, d, ops[0]).files, ops[1..])
  }

  function Reports(hash: Hasher, d: Disk, ops: seq<Op>): seq<Report>
    decreases |ops|
  {
    if ops == [] then [] else [Step(hash, d, ops[0]).report] + Reports(hash, Step(hash, d, ops[0]).files, ops[1..])
  }

  /** The requests, in order, whose commit got as far as its journal. */
  function Taken(hash: Hasher, d: Disk, ops: seq<Op>): seq<Request>
    decreases |ops|
  {
    if ops == [] then []
    else
      var e := Step(hash, d, ops[0]).files;
      if ops[0].CommitOp? && Settle(e) != Settle(d) then [ops[0].req] + Taken(hash, e, ops[1..])
      else Taken(hash, e, ops[1..])
  }

  /** The indivisible commits of `reqs`, one after another. */
  function Applied(hash: Hasher, s: Disk, reqs: seq<Request>): Disk
    decreases |reqs|
  {
    if reqs == [] then s else Applied(hash, AtomicCommit(hash, s, reqs[0]).files, reqs[1..])
  }

  predicate AllCommit(hash: Hasher, s: Disk, reqs: seq<Request>)
    decreases |reqs|
  {
    reqs == [] ||
    (AtomicCommit(hash, s, reqs[0]).outcome.Committed?
      && AllCommit(hash, AtomicCommit(hash, s, reqs[0]).files, reqs[1..]))
  }

  /** No file disagrees with another: neither operation found damage. */
  predicate Undamaged(r: Report) {
    match r
    case CommitReport(outcome) => !outcome.NeedsRepair?
    case RepairReport(status) => !status.Conflict? && !status.Unreadable?
  }

  /**
   How one operation looks from outside: it does nothing, or one indivisible commit; a report is only given
   for what is done.
   */
  predicate Refines(hash: Hasher, s: Disk, op: Op, report: Report, t: Disk) {
    match op
    case RepairOp(_) => t == s && report.RepairReport?
    case CommitOp(req, _) =>
      report.CommitReport? &&
      var whole := AtomicCommit(hash, s, req);
      if report.outcome.Crashed? then t == s || (whole.outcome.Committed? && t == whole.files)
      else t == whole.files && report.outcome == whole.outcome
  }

  lemma {:induction false} RepairKeeps(hash: Hasher, d: Disk, budget: nat)
    requires CollisionFree(hash) && Recoverable(hash, d)
    ensures var e := Repaired(hash, d, budget); Recoverable(hash, e) && Settle(e) == Settle(d)
    decreases budget
  {
    hide CollisionFree, Recoverable, Settle, NextRepair;
    if d.journal.Some? && budget > 0 {
      RepairKeepsPromise(hash, d);
      RepairKeeps(hash, NextRepair(hash, d), budget - 1);
    }
  }

  lemma RepairStep(hash: Hasher, d: Disk, budget: nat)
    requires CollisionFree(hash) && Recoverable(hash, d)
    ensures var r := AfterRepair(hash, d, budget);
            && Recoverable(hash, r.files) && Settle(r.files) == Settle(d)
            && !r.status.Conflict? && !r.status.Unreadable?
            && (!r.status.RepairCrashed? ==> r.files == Settle(d))
            && (r.status.RepairCrashed? ==> budget < 3)
  {
    RepairKeeps(hash, d, budget);
    if d.journal.Some? {
      RecoverableAgrees(hash, d);
      RepairFinishes(hash, d, budget);
    }
  }

  /** A commit from a clean state leaves what it found, or a state that stands for the whole commit. */
  lemma SettledCommitStep(hash: Hasher, d: Disk, req: Request, budget: nat)
    requires CollisionFree(hash) && Recoverable(hash, d) && d.journal.None?
    ensures var c := AfterSettledCommit(hash, d, req, budget);
            var whole := AtomicCommit(hash, d, req);
            && Recoverable(hash, c.files)
            && !whole.outcome.NeedsRepair?
            && (c.outcome.Crashed? ==>
              whole.outcome.Committed? && Settle(c.files) == (if budget == 0 then d else whole.files))
            && (!c.outcome.Crashed? ==> c == whole)
            && (c.outcome.Crashed? <==> whole.outcome.Committed? && budget < 4)
  {
    var whole := AtomicCommit(hash, d, req);
    if whole.outcome.Committed? {
      CommitStatesKeep(hash, d, req, budget);
    }
  }

  lemma JournalPromises(hash: Hasher, d: Disk, req: Request)
    requires CollisionFree(hash) && Recoverable(hash, d) && d.journal.None?
    requires AtomicCommit(hash, d, req).outcome.Committed?
    ensures var e := Journaled(hash, d, req);
            && Recoverable(hash, e) && NewEntry(hash, d, req) !in d.audit
            && Settle(e) == AtomicCommit(hash, d, req).files
  {
    FreshEntry(d.audit, req.id, NewEntry(hash, d, req), req.text);
  }

  lemma CommitStatesAreRepairs(hash: Hasher, d: Disk, req: Request)
    requires CollisionFree(hash) && NewEntry(hash, d, req) !in d.audit
    ensures NextRepair(hash, Journaled(hash, d, req)) == CommitState(hash, d, req, 2)
    ensures var renamed := CommitState(hash, d, req, 3);
            && renamed.journal.Some? && renamed.journal.value.entry in renamed.audit
            && Version(hash, renamed.passport) == renamed.journal.value.after_hash
            && (renamed == CommitState(hash, d, req, 2) || renamed == NextRepair(hash, CommitState(hash, d, req, 2)))
  {
    var journaled := Journaled(hash, d, req);
    AppendOwed(hash, journaled);
    IndexOfLast(d.audit, NewEntry(hash, d, req));
  }

  lemma CommitStatesKeep(hash: Hasher, d: Disk, req: Request, writes: nat)
    requires CollisionFree(hash) && Recoverable(hash, d) && d.journal.None?
    requires AtomicCommit(hash, d, req).outcome.Committed?
    ensures var e := CommitState(hash, d, req, writes);
            && Recoverable(hash, e)
            && Settle(e) == (if writes == 0 then d else AtomicCommit(hash, d, req).files)
            && (writes >= 4 ==> e == AtomicCommit(hash, d, req).files)
  {
    hide CollisionFree, AtomicCommit, Recoverable, NextRepair, NewEntry;
    if writes >= 1 {
      JournalPromises(hash, d, req);
      CommitStatesAreRepairs(hash, d, req);
      RepairKeepsPromise(hash, CommitState(hash, d, req, 1));
      var renamed := CommitState(hash, d, req, 3);
      if renamed != CommitState(hash, d, req, 2) {
        RepairKeepsPromise(hash, CommitState(hash, d, req, 2));
      }
      JournalCleared(hash, renamed);
    }
  }

  lemma AtomicCommitSettles(hash: Hasher, d: Disk, req: Request)
    requires d.journal.None?
    ensures AtomicCommit(hash, d, req).files.journal.None?
  {
  }

  lemma RecoverableIsLinked(hash: Hasher, d: Disk)
    requires Recoverable(hash, d)
    ensures Linked(d.audit)
  {
  }

  lemma CommitStep(hash: Hasher, d: Disk, req: Request, budget: nat)
    requires CollisionFree(hash) && Recoverable(hash, d)
    ensures var c := AfterCommit(hash, d, req, budget);
            && Recoverable(hash, c.files) && !c.outcome.NeedsRepair?
            && Refines(hash, Settle(d), CommitOp(req, budget), CommitReport(c.outcome), Settle(c.files))
  {
    hide CollisionFree, Recoverable, Linked, AtomicCommit, AfterRepair, AfterSettledCommit;
    RepairStep(hash, d, budget);
    var repair := AfterRepair(hash, d, budget);
    RecoverableIsLinked(hash, repair.files);
    if !repair.status.RepairCrashed? {
      AtomicCommitSettles(hash, repair.files, req);
      SettledCommitStep(hash, repair.files, req, repair.left);
    }
  }

  /** The refinement, one operation at a time. */
  lemma StepRefines(hash: Hasher, d: Disk, op: Op)
    requires CollisionFree(hash) && Recoverable(hash, d)
    ensures var e := Step(hash, d, op);
            Recoverable(hash, e.files) && Undamaged(e.report) && Refines(hash, Settle(d), op, e.report, Settle(e.files))
  {
    match op
    case CommitOp(req, budget) => CommitStep(hash, d, req, budget);
    case RepairOp(budget) => RepairStep(hash, d, budget);
  }

  /**
   Crash atomicity. With crashes between any two file mutations, any number of times and inside
   repair too, no repair reports a conflict, and the files stand for exactly the commits that
   reached their journal, performed whole and in order.
   */
  lemma {:induction false} RunRefines(hash: Hasher, d: Disk, ops: seq<Op>)
    requires CollisionFree(hash) && Recoverable(hash, d)
    ensures Recoverable(hash, Run(hash, d, ops))
    ensures forall r :: r in Reports(hash, d, ops) ==> Undamaged(r)
    ensures AllCommit(hash, Settle(d), Taken(hash, d, ops))
    ensures Settle(Run(hash, d, ops)) == Applied(hash, Settle(d), Taken(hash, d, ops))
    decreases |ops|
  {
    if ops != [] {
      var e := Step(hash, d, ops[0]);
      StepRefines(hash, d, ops[0]);
      RunRefines(hash, e.files, ops[1..]);
      var rest := Taken(hash, e.files, ops[1..]);
      if ops[0].CommitOp? && Settle(e.files) != Settle(d) {
        RefinesCommit(hash, Settle(d), ops[0], e.report, Settle(e.files));
        assert ([ops[0].req] + rest)[1..] == rest;
      }
    }
  }

  lemma RefinesCommit(hash: Hasher, s: Disk, op: Op, report: Report, t: Disk)
    requires op.CommitOp? && Refines(hash, s, op, report, t) && t != s
    ensures AtomicCommit(hash, s, op.req) == Committing(t, AtomicCommit(hash, s, op.req).outcome)
    ensures AtomicCommit(hash, s, op.req).outcome.Committed?
  {
  }

  function RepairOps(budgets: seq<nat>): seq<Op> {
    seq(|budgets|, i requires 0 <= i < |budgets| => RepairOp(budgets[i]))
  }

  lemma {:induction false} RepairsOnlySettle(hash: Hasher, d: Disk, budgets: seq<nat>)
    requires CollisionFree(hash) && Recoverable(hash, d)
    ensures var e := Run(hash, d, RepairOps(budgets)); Recoverable(hash, e) && Settle(e) == Settle(d)
    decreases |budgets|
  {
    if budgets != [] {
      var ops := RepairOps(budgets);
      RepairStep(hash, d, budgets[0]);
      assert ops[1..] == RepairOps(budgets[1..]);
      RepairsOnlySettle(hash, Step(hash, d, ops[0]).files, budgets[1..]);
    }
  }

  /** What a commit that goes through leaves: the new passport, and the command's entry logged last. */
  lemma CommittedFiles(hash: Hasher, d: Disk, req: Request)
    requires AtomicCommit(hash, d, req).outcome.Committed?
    ensures var whole := AtomicCommit(hash, d, req);
            && whole.files == Disk(Some(req.after), d.audit + [whole.outcome.entry], None)
            && whole.outcome.entry.after_hash == hash(req.after)
            && (forall id :: CarriesMarker(whole.outcome.entry.notes, id) <==> id == req.id)
            && (forall e :: e in d.audit ==> !CarriesMarker(e.notes, req.id))
  {
    forall id ensures CarriesMarker(AtomicCommit(hash, d, req).outcome.entry.notes, id) <==> id == req.id {
      MarkerIdentifiesCommand(id, req.id, req.text);
    }
  }

  /**
   One commit that dies anywhere, then any number of repairs that die anywhere, then a repair that
   is let finish: the files are exactly as before the commit if it died before its first write, and
   exactly as the whole commit leaves them otherwise.
   */
  lemma BeforeOrAfter(hash: Hasher, d: Disk, req: Request, died: nat, budgets: seq<nat>, last: nat)
    requires CollisionFree(hash) && Recoverable(hash, d) && d.journal.None? && last >= 3
    ensures var crashed := AfterCommit(hash, d, req, died).files;
            var e := AfterRepair(hash, Run(hash, crashed, RepairOps(budgets)), last).files;
            e == if died > 0 then AtomicCommit(hash, d, req).files else d
  {
    hide CollisionFree, AtomicCommit, AfterCommit, AfterRepair, Recoverable;
    var crashed := AfterCommit(hash, d, req, died).files;
    CrashedCommit(hash, d, req, died);
    RepairsOnlySettle(hash, crashed, budgets);
    RepairStep(hash, Run(hash, crashed, RepairOps(budgets)), last);
  }

  lemma CrashedCommit(hash: Hasher, d: Disk, req: Request, died: nat)
    requires CollisionFree(hash) && Recoverable(hash, d) && d.journal.None?
    ensures var crashed := AfterCommit(hash, d, req, died).files;
            Recoverable(hash, crashed) && Settle(crashed) == if died > 0 then AtomicCommit(hash, d, req).files else d
  {
    SettledCommitStep(hash, d, req, died);
    assert AfterCommit(hash, d, req, died) == AfterSettledCommit(hash, d, req, died);
  }

  // ---------- What the audit log says after any run ----------

  /** Every entry but the first starts from the result of the one before it. */
  ghost predicate Chained(log: seq<AuditEntry>) {
    forall i :: 0 < i < |log| ==> ChainedAt(log, i)
  }

  predicate ChainedAt(log: seq<AuditEntry>, i: nat)
    requires 0 < i < |log|
  {
    log[i].prev_hash == Some(log[i - 1].after_hash) && log[i].before_hash == log[i - 1].after_hash
  }

  /** No command id marks two entries. */
  ghost predicate OnePerCommand(log: seq<AuditEntry>) {
    forall id, i, j {:trigger CarriesMarker(log[i].notes, id), CarriesMarker(log[j].notes, id)} ::
      0 <= i < |log| && 0 <= j < |log| && CarriesMarker(log[i].notes, id) && CarriesMarker(log[j].notes, id) ==> i == j
  }

  ghost predicate Audited(hash: Hasher, s: Disk) {
    && s.journal.None?
    && Recoverable(hash, s)
    && Chained(s.audit)
    && OnePerCommand(s.audit)
  }

  lemma OnePerCommandExtends(log: seq<AuditEntry>, entry: AuditEntry, id: CommandId, text: string)
    requires OnePerCommand(log) && PriorEntry(log, id).None? && entry.notes == Notes(id, text)
    ensures OnePerCommand(log + [entry])
  {
    var longer := log + [entry];
    forall other, i, j {:trigger CarriesMarker(longer[i].notes, other), CarriesMarker(longer[j].notes, other)} |
      && 0 <= i < |longer| && 0 <= j < |longer|
      && CarriesMarker(longer[i].notes, other) && CarriesMarker(longer[j].notes, other)
      ensures i == j
    {
      MarkerIdentifiesCommand(other, id, text);
      assert i < |log| ==> longer[i] == log[i] && log[i] in log;
      assert j < |log| ==> longer[j] == log[j] && log[j] in log;
    }
  }

  lemma ChainedExtends(log: seq<AuditEntry>, entry: AuditEntry)
    requires Chained(log)
    requires log != [] ==>
      entry.prev_hash == Some(log[|log| - 1].after_hash) && entry.before_hash == log[|log| - 1].after_hash
    ensures Chained(log + [entry])
  {
    var longer := log + [entry];
    forall i | 0 < i < |longer| ensures ChainedAt(longer, i) {
      assert i < |log| ==> ChainedAt(log, i);
    }
  }

  lemma AtomicCommitAudited(hash: Hasher, s: Disk, req: Request)
    requires CollisionFree(hash) && Audited(hash, s)
    ensures Audited(hash, AtomicCommit(hash, s, req).files)
    ensures s.audit <= AtomicCommit(hash, s, req).files.audit
  {
    hide CollisionFree, Chained, OnePerCommand, Linked, Recoverable;
    SettledCommitStep(hash, s, req, 4);
    var whole := AtomicCommit(hash, s, req);
    assert AfterSettledCommit(hash, s, req, 4) == whole;
    if whole.outcome.Committed? {
      ChainedExtends(s.audit, whole.outcome.entry);
      OnePerCommandExtends(s.audit, whole.outcome.entry, req.id, req.text);
    }
  }

  lemma {:induction false} AppliedAudited(hash: Hasher, s: Disk, reqs: seq<Request>)
    requires CollisionFree(hash) && Audited(hash, s)
    ensures Audited(hash, Applied(hash, s, reqs))
    ensures s.audit <= Applied(hash, s, reqs).audit
    decreases |reqs|
  {
    if reqs != [] {
      AtomicCommitAudited(hash, s, reqs[0]);
      AppliedAudited(hash, AtomicCommit(hash, s, reqs[0]).files, reqs[1..]);
    }
  }

  /**
   From a passport with no audit log, in every reachable state with no pending journal: the log is one
   chain, its tip is the passport on disk, no command is logged twice, and nothing logged is ever lost.
   */
  lemma AuditAgreement(hash: Hasher, passport: Option<Passport>, ops: seq<Op>, more: seq<Op>)
    requires CollisionFree(hash)
    requires Run(hash, Disk(passport, [], None), ops).journal.None?
    ensures var d := Run(hash, Disk(passport, [], None), ops);
            && Chained(d.audit) && OnePerCommand(d.audit)
            && (d.audit != [] ==> d.passport.Some? && d.audit[|d.audit| - 1].after_hash == hash(d.passport.value))
            && d.audit <= Settle(Run(hash, d, more)).audit
  {
    var start := Disk(passport, [], None);
    RunRefines(hash, start, ops);
    AppliedAudited(hash, start, Taken(hash, start, ops));
    var d := Run(hash, start, ops);
    RunRefines(hash, d, more);
    AppliedAudited(hash, d, Taken(hash, d, more));
  }

  lemma CommittedIsLogged(hash: Hasher, s: Disk, op: Op, report: Report, t: Disk)
    requires Refines(hash, s, op, report, t) && report.CommitReport? && report.outcome.Committed?
    ensures report.outcome.entry in t.audit
  {
    hide AtomicCommit;
    CommittedFiles(hash, s, op.req);
  }

  lemma LoggedStaysLogged(hash: Hasher, d: Disk, ops: seq<Op>, entry: AuditEntry)
    requires CollisionFree(hash) && Recoverable(hash, d) && Audited(hash, Settle(d)) && entry in Settle(d).audit
    ensures entry in Settle(Run(hash, d, ops)).audit
  {
    hide CollisionFree, Recoverable, Audited, Settle, Run, Taken, Applied;
    RunRefines(hash, d, ops);
    AppliedAudited(hash, Settle(d), Taken(hash, d, ops));
  }

  /** Durability: what any commit of the run was told is committed stays in the log, whatever crashes follow. */
  lemma {:induction false} AcknowledgedIsDurable(hash: Hasher, d: Disk, ops: seq<Op>, i: nat)
    requires CollisionFree(hash) && Recoverable(hash, d) && Audited(hash, Settle(d))
    requires i < |Reports(hash, d, ops)|
    requires var r := Reports(hash, d, ops)[i]; r.CommitReport? && r.outcome.Committed?
    ensures Reports(hash, d, ops)[i].outcome.entry in Settle(Run(hash, d, ops)).audit
    decreases |ops|
  {
    hide CollisionFree, Recoverable, Audited, Settle, Step, Refines;
    var e := Step(hash, d, ops[0]);
    StepRefines(hash, d, ops[0]);
    StepAudited(hash, Settle(d), ops[0], e.report, Settle(e.files));
    if i == 0 {
      CommittedIsLogged(hash, Settle(d), ops[0], e.report, Settle(e.files));
      LoggedStaysLogged(hash, e.files, ops[1..], e.report.outcome.entry);
    } else {
      AcknowledgedIsDurable(hash, e.files, ops[1..], i - 1);
    }
  }

  lemma StepAudited(hash: Hasher, s: Disk, op: Op, report: Report, t: Disk)
    requires CollisionFree(hash) && Audited(hash, s) && Refines(hash, s, op, report, t)
    ensures Audited(hash, t)
  {
    hide CollisionFree, AtomicCommit, Audited;
    if op.CommitOp? {
      AtomicCommitAudited(hash, s, op.req);
    }
  }

  lemma {:induction false} PriorEntryStable(log: seq<AuditEntry>, longer: seq<AuditEntry>, id: CommandId)
    requires log <= longer && PriorEntry(log, id).Some?
    ensures PriorEntry(longer, id) == PriorEntry(log, id)
  {
    if log != [] && !CarriesMarker(log[0].notes, id) {
      PriorEntryStable(log[1..], longer[1..], id);
    }
  }

  lemma {:induction false} PriorEntryOfAppended(log: seq<AuditEntry>, entry: AuditEntry, id: CommandId)
    requires (forall e :: e in log ==> !CarriesMarker(e.notes, id)) && CarriesMarker(entry.notes, id)
    ensures PriorEntry(log + [entry], id) == Some(entry)
  {
    var longer := log + [entry];
    if log != [] {
      assert longer[1..] == log[1..] + [entry];
      assert log[0] in log;
      PriorEntryOfAppended(log[1..], entry, id);
    }
  }

  /**
   Exactly once. After a commit has taken effect, and whatever runs and crashes after it, the same
   command id never writes again: repeated with the same result it is answered with the original
   entry, and used for anything else it is refused. Either way no file changes.
   */
  lemma RetryWritesNothing(hash: Hasher, s: Disk, req: Request, d: Disk, ops: seq<Op>, again: Request)
    requires CollisionFree(hash) && Audited(hash, s) && AtomicCommit(hash, s, req).outcome.Committed?
    requires Recoverable(hash, d) && Settle(d) == AtomicCommit(hash, s, req).files
    requires again.id == req.id
    ensures var entry := AtomicCommit(hash, s, req).outcome.entry;
            var now := Settle(Run(hash, d, ops));
            var retry := AtomicCommit(hash, now, again);
            && retry.files == now
            && entry in now.audit
            && (if hash(again.after) == entry.after_hash
              && (again.expected.None? || again.expected.value == entry.before_hash)
                then now.passport.Some? && retry.outcome == Replayed(entry, now.passport.value)
                else retry.outcome == CommandConflict)
  {
    hide CollisionFree, AtomicCommit;
    var first := AtomicCommit(hash, s, req);
    AtomicCommitAudited(hash, s, req);
    RunRefines(hash, d, ops);
    AppliedAudited(hash, first.files, Taken(hash, d, ops));
    CommittedFiles(hash, s, req);
    PriorEntryOfAppended(s.audit, first.outcome.entry, req.id);
    RetrySettled(hash, first.files, Settle(Run(hash, d, ops)), first.outcome.entry, again);
  }

  lemma RetrySettled(hash: Hasher, done: Disk, now: Disk, entry: AuditEntry, again: Request)
    requires Recoverable(hash, now) && now.journal.None? && done.audit <= now.audit
    requires PriorEntry(done.audit, again.id) == Some(entry)
    ensures var retry := AtomicCommit(hash, now, again);
            && retry.files == now
            && entry in now.audit
            && (if hash(again.after) == entry.after_hash
              && (again.expected.None? || again.expected.value == entry.before_hash)
                then now.passport.Some? && retry.outcome == Replayed(entry, now.passport.value)
                else retry.outcome == CommandConflict)
  {
    PriorEntryStable(done.audit, now.audit, again.id);
  }
}
