/**
 The write-ahead commit of one passport and its repair: journal, audit line, passport
 rename, journal removal. Each file mutation is one atomic step. A process carries a
 budget of mutations; when it runs out the process is gone and the files stay as they are,
 inside a commit or inside a repair.
 */
module PassportCommit {
  import opened Wrappers
  import opened CommandMarker
  import opened PassportModel

  datatype Record = Record(before_hash: Digest, after_hash: Digest, entry: AuditEntry, after: Passport)

  datatype Disk = Disk(passport: Option<Passport>, audit: seq<AuditEntry>, journal: Option<Record>)

  datatype Request = Request(
    id: CommandId, before: Option<Passport>, after: Passport, changes: PassportChanges,
    expected: Option<Digest>, text: string, now: string)

  datatype Outcome =
    | Committed(entry: AuditEntry)
    | Replayed(prior: AuditEntry, current: Passport)
    | CommandConflict
    | VersionConflict(expected: Digest, observed: Digest)
    | NeedsRepair
    | Crashed

  datatype RepairStatus =
    | NoPendingCommit
    | Completed(auditAppended: bool, passportWritten: bool)
    | AlreadyCompleted
    | Conflict
    | Unreadable
    | RepairCrashed

  /** The consistency every journal record is parsed against. */
  predicate RecordOk(hash: Hasher, r: Record) {
    && r.entry.before_hash == r.before_hash
    && r.entry.after_hash == r.after_hash
    && hash(r.after) == r.after_hash
  }

  function Expected(hash: Hasher, req: Request): Digest {
    req.expected.GetOr(Version(hash, req.before))
  }

  /** Position of the first equal entry, or the length of the log. */
  function IndexOf(log: seq<AuditEntry>, entry: AuditEntry): (i: nat)
    ensures i <= |log|
    ensures i < |log| ==> log[i] == entry
    ensures entry in log <==> i < |log|
    ensures forall j :: 0 <= j < i ==> log[j] != entry
  {
    if log == [] then 0
    else if log[0] == entry then 0
    else 1 + IndexOf(log[1..], entry)
  }

  /** The first entry whose notes carry the marker of `id`. */
  function PriorEntry(log: seq<AuditEntry>, id: CommandId): (e: Option<AuditEntry>)
    ensures e.Some? ==> e.value in log && CarriesMarker(e.value.notes, id)
    ensures e.None? ==> forall x :: x in log ==> !CarriesMarker(x.notes, id)
  {
    if log == [] then None
    else if CarriesMarker(log[0].notes, id) then Some(log[0])
    else PriorEntry(log[1..], id)
  }

  function NewEntry(hash: Hasher, d: Disk, req: Request): AuditEntry {
    AuditEntry(req.now, Expected(hash, req), hash(req.after), TipHash(d.audit), req.changes, Notes(req.id, req.text))
  }

  /** The last audit entry, if any, was written for the passport on disk. */
  predicate TipAgrees(hash: Hasher, d: Disk) {
    TipHash(d.audit).Some? ==> TipHash(d.audit).value == Version(hash, d.passport)
  }

  datatype Committing = Committing(files: Disk, outcome: Outcome)
  datatype Repairing = Repairing(files: Disk, status: RepairStatus, left: nat)

  /** The commit as one indivisible action on files with no pending journal: what callers are promised. */
  function AtomicCommit(hash: Hasher, d: Disk, req: Request): Committing {
    var prior := PriorEntry(d.audit, req.id);
    var observed := Version(hash, d.passport);
    if !TipAgrees(hash, d) then Committing(d, NeedsRepair)
    else if prior.Some? then
      if prior.value.after_hash != hash(req.after)
         || (req.expected.Some? && prior.value.before_hash != req.expected.value) then Committing(d, CommandConflict)
      else if d.passport.None? then Committing(d, NeedsRepair)
      else Committing(d, Replayed(prior.value, d.passport.value))
    else if observed != Expected(hash, req) then Committing(d, VersionConflict(Expected(hash, req), observed))
    else
      var entry := NewEntry(hash, d, req);
      Committing(Disk(Some(req.after), d.audit + [entry], None), Committed(entry))
  }

  /** The state a pending journal promises: its entry logged last and its passport in place. */
  function Settle(d: Disk): Disk {
    match d.journal
    case None => d
    case Some(r) => Disk(Some(r.after), if r.entry in d.audit then d.audit else d.audit + [r.entry], None)
  }

  /** What holds of the files between any two mutations, with no other writer. */
  ghost predicate Recoverable(hash: Hasher, d: Disk) {
    && Linked(d.audit)
    && TipHash(d.audit) != Some(ABSENT)
    && (d.journal.None? ==> TipAgrees(hash, d))
    && (d.journal.Some? ==> Promised(hash, d, d.journal.value))
  }

  /** A pending journal is logged last or not yet, and the passport is the one before it or the one it promises. */
  ghost predicate Promised(hash: Hasher, d: Disk, r: Record) {
    && RecordOk(hash, r)
    && if r.entry in d.audit then
         && IndexOf(d.audit, r.entry) == |d.audit| - 1
         && (Version(hash, d.passport) == r.before_hash || Version(hash, d.passport) == r.after_hash)
       else
         && r.entry.prev_hash == TipHash(d.audit)
         && Version(hash, d.passport) == r.before_hash
         && TipAgrees(hash, d)
  }

  /** When repair refuses: exactly the evidence that something else wrote the passport or the log. */
  predicate Disagrees(hash: Hasher, d: Disk)
    requires d.journal.Some?
  {
    var r := d.journal.value;
    var i := IndexOf(d.audit, r.entry);
    var v := Version(hash, d.passport);
    if i + 1 < |d.audit| then d.passport.None? || v != d.audit[|d.audit| - 1].after_hash
    else
      || (v != r.before_hash && v != r.after_hash)
      || (r.entry !in d.audit && TipHash(d.audit) != r.entry.prev_hash)
  }

  predicate Superseded(d: Disk)
    requires d.journal.Some?
  {
    IndexOf(d.audit, d.journal.value.entry) + 1 < |d.audit|
  }

  /** The next file mutation of a repair that goes ahead, read off the files themselves. */
  function NextRepair(hash: Hasher, d: Disk): Disk
    requires d.journal.Some?
  {
    var r := d.journal.value;
    if Superseded(d) then d.(journal := None)
    else if r.entry !in d.audit then d.(audit := d.audit + [r.entry])
    else if Version(hash, d.passport) != r.after_hash then d.(passport := Some(r.after))
    else d.(journal := None)
  }

  /** How many mutations are still owed. */
  function Owed(hash: Hasher, d: Disk): nat {
    if d.journal.None? then 0
    else if Superseded(d) then 1
    else
      var r := d.journal.value;
      1 + (if r.entry in d.audit then 0 else 1) + (if Version(hash, d.passport) == r.after_hash then 0 else 1)
  }

  function Repaired(hash: Hasher, d: Disk, budget: nat): Disk
    decreases budget
  {
    if d.journal.None? || budget == 0 then d else Repaired(hash, NextRepair(hash, d), budget - 1)
  }

  /** A repair that may die after `budget` mutations: the files it leaves, what it reports, what budget is left. */
  function AfterRepair(hash: Hasher, d: Disk, budget: nat): Repairing {
    if d.journal.None? then Repairing(d, NoPendingCommit, budget)
    else if !RecordOk(hash, d.journal.value) || !Linked(d.audit) then Repairing(d, Unreadable, budget)
    else if Disagrees(hash, d) then Repairing(d, Conflict, budget)
    else if budget < Owed(hash, d) then Repairing(Repaired(hash, d, budget), RepairCrashed, 0)
    else
      var r := d.journal.value;
      var appends, writes := r.entry !in d.audit, Version(hash, d.passport) != r.after_hash;
      Repairing(Repaired(hash, d, budget),
                if !Superseded(d) && (appends || writes) then Completed(appends, writes) else AlreadyCompleted,
                budget - Owed(hash, d))
  }

  /** The first write of a commit: its journal. */
  function Journaled(hash: Hasher, d: Disk, req: Request): Disk {
    var entry := NewEntry(hash, d, req);
    d.(journal := Some(Record(entry.before_hash, entry.after_hash, entry, req.after)))
  }

  /** The files after each mutation of a commit that goes ahead. */
  function CommitState(hash: Hasher, d: Disk, req: Request, writes: nat): Disk {
    var journaled := Journaled(hash, d, req);
    var logged := journaled.(audit := d.audit + [NewEntry(hash, d, req)]);
    var renamed := logged.(passport := Some(req.after));
    if writes == 0 then d
    else if writes == 1 then journaled
    else if writes == 2 then logged
    else if writes == 3 then renamed
    else renamed.(journal := None)
  }

  /** A commit on files with no pending journal that may die after `budget` mutations. */
  function AfterSettledCommit(hash: Hasher, d: Disk, req: Request, budget: nat): Committing {
    var whole := AtomicCommit(hash, d, req);
    if whole.outcome.Committed? && budget < 4 then Committing(CommitState(hash, d, req, budget), Crashed) else whole
  }

  /** A commit that may die after `budget` mutations, its own repair of a pending journal included. */
  function AfterCommit(hash: Hasher, d: Disk, req: Request, budget: nat): Committing {
    var repair := AfterRepair(hash, d, budget);
    if repair.status.RepairCrashed? then Committing(repair.files, Crashed)
    else if repair.status.Conflict? || repair.status.Unreadable? || !Linked(repair.files.audit) then
      Committing(repair.files, NeedsRepair)
    else AfterSettledCommit(hash, repair.files, req, repair.left)
  }

  lemma LinkedExtends(log: seq<AuditEntry>, entry: AuditEntry)
    requires Linked(log) && entry.prev_hash == TipHash(log)
    ensures Linked(log + [entry])
  {
    var longer := log + [entry];
    forall i {:trigger longer[i]} | 0 <= i < |longer| ensures longer[i].prev_hash == TipHash(longer[..i]) {
      if i < |log| {
        assert longer[i] == log[i] && longer[..i] == log[..i];
      } else {
        assert longer[..i] == log;
      }
    }
  }

  lemma IndexOfLast(log: seq<AuditEntry>, entry: AuditEntry)
    requires entry !in log
    ensures IndexOf(log + [entry], entry) == |log|
  {
    var longer := log + [entry];
    assert longer[|log|] == entry;
  }

  lemma AppendOwed(hash: Hasher, d: Disk)
    requires d.journal.Some? && d.journal.value.entry !in d.audit
    ensures !Superseded(d)
    ensures Owed(hash, d) == 1 + Owed(hash, NextRepair(hash, d))
  {
    IndexOfLast(d.audit, d.journal.value.entry);
  }

  /** Each mutation of a repair pays off one of those owed. */
  lemma RepairProgress(hash: Hasher, d: Disk)
    requires d.journal.Some? && RecordOk(hash, d.journal.value)
    ensures Owed(hash, d) == 1 + Owed(hash, NextRepair(hash, d))
  {
    if d.journal.value.entry !in d.audit {
      AppendOwed(hash, d);
    }
  }

  lemma RecoverableAgrees(hash: Hasher, d: Disk)
    requires Recoverable(hash, d) && d.journal.Some?
    ensures RecordOk(hash, d.journal.value) && !Disagrees(hash, d) && !Superseded(d)
  {
  }

  lemma AuditAppended(hash: Hasher, d: Disk)
    requires CollisionFree(hash) && Recoverable(hash, d) && d.journal.Some? && d.journal.value.entry !in d.audit
    ensures Recoverable(hash, NextRepair(hash, d)) && Settle(NextRepair(hash, d)) == Settle(d)
  {
    var r := d.journal.value;
    LinkedExtends(d.audit, r.entry);
    IndexOfLast(d.audit, r.entry);
    assert hash(r.after) != ABSENT;
  }

  lemma JournalCleared(hash: Hasher, d: Disk)
    requires CollisionFree(hash) && Recoverable(hash, d) && d.journal.Some? && d.journal.value.entry in d.audit
    requires Version(hash, d.passport) == d.journal.value.after_hash
    ensures d.(journal := None) == Settle(d) && Recoverable(hash, Settle(d))
  {
    var r := d.journal.value;
    assert hash(r.after) != ABSENT;
    assert d.passport == Some(r.after);
    assert d.audit[|d.audit| - 1] == r.entry;
  }

  /** Every mutation of a repair keeps the files recoverable and what they stand for. */
  lemma RepairKeepsPromise(hash: Hasher, d: Disk)
    requires CollisionFree(hash) && Recoverable(hash, d) && d.journal.Some?
    ensures Recoverable(hash, NextRepair(hash, d)) && Settle(NextRepair(hash, d)) == Settle(d)
  {
    RecoverableAgrees(hash, d);
    if d.journal.value.entry !in d.audit {
      AuditAppended(hash, d);
    } else if Version(hash, d.passport) == d.journal.value.after_hash {
      JournalCleared(hash, d);
    }
  }

  lemma {:induction false} RepairFinishes(hash: Hasher, d: Disk, budget: nat)
    requires d.journal.Some? ==> RecordOk(hash, d.journal.value)
    ensures Repaired(hash, d, budget).journal.None? <==> Owed(hash, d) <= budget
    decreases budget
  {
    if d.journal.Some? && budget > 0 {
      RepairProgress(hash, d);
      RepairFinishes(hash, NextRepair(hash, d), budget - 1);
    }
  }

  /** A journal whose entry is followed by others owes nothing but its own removal. */
  lemma SupersededIsCleared(hash: Hasher, d: Disk, budget: nat)
    requires d.journal.Some? && Superseded(d)
    ensures Owed(hash, d) == 1
    ensures Repaired(hash, d, budget) == if budget == 0 then d else d.(journal := None)
  {
    hide Superseded;
    if budget > 0 {
      assert Repaired(hash, d, budget) == Repaired(hash, d.(journal := None), budget - 1);
    }
  }

  lemma FreshEntry(log: seq<AuditEntry>, id: CommandId, entry: AuditEntry, text: string)
    requires PriorEntry(log, id).None? && entry.notes == Notes(id, text)
    ensures entry !in log
  {
    MarkerIdentifiesCommand(id, id, text);
  }

  // ---------- When a commit goes through, and what every other answer means ----------

  /** The version of the passport file as it stands, the word for a missing file written out. */
  predicate OnDisk(hash: Hasher, d: Disk, version: Digest) {
    match d.passport
    case None => version == "absent"
    case Some(p) => version == hash(p)
  }

  /** The version the caller counts on: the one it names, else that of the passport it started from. */
  predicate CountsOn(hash: Hasher, req: Request, version: Digest) {
    match req.expected
    case Some(named) => version == named
    case None =>
      match req.before
      case None => version == "absent"
      case Some(p) => version == hash(p)
  }

  /** Every log entry names the result of the one before it, and the last one names the passport on disk. */
  ghost predicate Consistent(d: Disk, observed: Digest) {
    && (d.audit != [] ==> d.audit[0].prev_hash == None && d.audit[|d.audit| - 1].after_hash == observed)
    && forall i {:trigger d.audit[i]} :: 0 < i < |d.audit| ==> d.audit[i].prev_hash == Some(d.audit[i - 1].after_hash)
  }

  ghost predicate Unmarked(log: seq<AuditEntry>, id: CommandId) {
    forall e :: e in log ==> !CarriesMarker(e.notes, id)
  }

  predicate FirstMarked(log: seq<AuditEntry>, id: CommandId, i: nat) {
    && i < |log|
    && CarriesMarker(log[i].notes, id)
    && forall j :: 0 <= j < i ==> !CarriesMarker(log[j].notes, id)
  }

  ghost predicate IsFirstMarked(log: seq<AuditEntry>, id: CommandId, entry: AuditEntry) {
    exists i: nat :: FirstMarked(log, id, i) && entry == log[i]
  }

  /** The logged entry led to the same passport, and from the version the caller names, if it names one. */
  predicate SameCommand(hash: Hasher, req: Request, entry: AuditEntry) {
    && entry.after_hash == hash(req.after)
    && (req.expected == None || req.expected == Some(entry.before_hash))
  }

  /** The earliest entry of the command is that of the same request. */
  ghost predicate Retried(hash: Hasher, d: Disk, req: Request) {
    exists i: nat :: FirstMarked(d.audit, req.id, i) && SameCommand(hash, req, d.audit[i])
  }

  /** The earliest entry of the command is that of another request. */
  ghost predicate Contradicted(hash: Hasher, d: Disk, req: Request) {
    exists i: nat :: FirstMarked(d.audit, req.id, i) && !SameCommand(hash, req, d.audit[i])
  }

  /** The entry a commit logs, field by field. */
  ghost predicate Logs(hash: Hasher, d: Disk, req: Request, entry: AuditEntry, expected: Digest) {
    && entry.timestamp == req.now
    && entry.before_hash == expected
    && entry.after_hash == hash(req.after)
    && (if d.audit == [] then entry.prev_hash == None else entry.prev_hash == Some(d.audit[|d.audit| - 1].after_hash))
    && entry.changes == req.changes
    && entry.notes == Notes(req.id, req.text)
  }

  /**
   Exactly which answer is given on files without a pending journal, for the version on disk and the
   version counted on: a first save, of no passport onto no file, goes through like any other.
   */
  ghost predicate AnsweredExactly(
    hash: Hasher, d: Disk, req: Request, budget: nat, outcome: Outcome, observed: Digest, expected: Digest) {
    && (outcome.Committed? <==>
      Consistent(d, observed) && Unmarked(d.audit, req.id) && observed == expected && budget >= 4)
    && (outcome.Crashed? <==>
      Consistent(d, observed) && Unmarked(d.audit, req.id) && observed == expected && budget < 4)
    && (outcome.VersionConflict? <==> Consistent(d, observed) && Unmarked(d.audit, req.id) && observed != expected)
    && (outcome.VersionConflict? ==> outcome.expected == expected && outcome.observed == observed)
    && (outcome.CommandConflict? <==> Consistent(d, observed) && Contradicted(hash, d, req))
    && (outcome.Replayed? <==> Consistent(d, observed) && Retried(hash, d, req) && d.passport.Some?)
    && (outcome.Replayed? ==> Some(outcome.current) == d.passport && IsFirstMarked(d.audit, req.id, outcome.prior))
    && (outcome.NeedsRepair? <==> !Consistent(d, observed) || (Retried(hash, d, req) && d.passport.None?))
  }

  /** What the files are afterwards: untouched, or as far along in the four writes as the process lived. */
  ghost predicate LeavesExactly(
    hash: Hasher, d: Disk, req: Request, budget: nat, e: Disk, outcome: Outcome, expected: Digest) {
    if outcome.Committed? then
      e.passport == Some(req.after) && e.journal == None
      && e.audit == d.audit + [outcome.entry] && Logs(hash, d, req, outcome.entry, expected)
    else if outcome.Crashed? && budget > 0 then
      && e.journal.Some? && e.journal.value.after == req.after
      && e.journal.value.before_hash == expected && e.journal.value.after_hash == hash(req.after)
      && Logs(hash, d, req, e.journal.value.entry, expected)
      && e.audit == (if budget >= 2 then d.audit + [e.journal.value.entry] else d.audit)
      && e.passport == (if budget >= 3 then Some(req.after) else d.passport)
    else e == d
  }

  lemma {:induction false} PriorIsFirst(log: seq<AuditEntry>, id: CommandId)
    ensures match PriorEntry(log, id)
            case None => Unmarked(log, id)
            case Some(e) => IsFirstMarked(log, id, e)
  {
    hide CarriesMarker;
    if log != [] {
      if CarriesMarker(log[0].notes, id) {
        assert FirstMarked(log, id, 0);
      } else {
        var rest := log[1..];
        PriorIsFirst(rest, id);
        if PriorEntry(rest, id).Some? {
          var i: nat :| FirstMarked(rest, id, i) && PriorEntry(rest, id).value == rest[i];
          assert forall j :: 0 < j < |log| ==> log[j] == rest[j - 1];
          assert FirstMarked(log, id, i + 1);
        }
      }
    }
  }

  lemma PriorDecides(hash: Hasher, d: Disk, req: Request)
    ensures match PriorEntry(d.audit, req.id)
            case None => Unmarked(d.audit, req.id) && !Retried(hash, d, req) && !Contradicted(hash, d, req)
            case Some(e) =>
              && !Unmarked(d.audit, req.id)
              && (Retried(hash, d, req) <==> SameCommand(hash, req, e))
              && (Contradicted(hash, d, req) <==> !SameCommand(hash, req, e))
  {
    hide CarriesMarker, PriorEntry, SameCommand;
    PriorIsFirst(d.audit, req.id);
    if PriorEntry(d.audit, req.id).Some? {
      var i: nat :| FirstMarked(d.audit, req.id, i) && PriorEntry(d.audit, req.id).value == d.audit[i];
      assert forall j: nat :: FirstMarked(d.audit, req.id, j) ==> j == i;
    }
  }

  lemma ConsistentExactly(hash: Hasher, d: Disk, observed: Digest)
    requires OnDisk(hash, d, observed)
    ensures Consistent(d, observed) <==> Linked(d.audit) && TipAgrees(hash, d)
  {
    if d.audit != [] {
      assert d.audit[..0] == [];
      forall i | 0 < i < |d.audit| ensures TipHash(d.audit[..i]) == Some(d.audit[i - 1].after_hash) {
        assert d.audit[..i][i - 1] == d.audit[i - 1];
      }
    }
  }

  /** The answers and the files left, on files without a pending journal. */
  lemma AnswersExactly(hash: Hasher, d: Disk, req: Request, budget: nat, observed: Digest, expected: Digest)
    requires d.journal.None? && OnDisk(hash, d, observed) && CountsOn(hash, req, expected)
    ensures var c := AfterCommit(hash, d, req, budget);
            && AnsweredExactly(hash, d, req, budget, c.outcome, observed, expected)
            && LeavesExactly(hash, d, req, budget, c.files, c.outcome, expected)
  {
    hide Linked, CarriesMarker, PriorEntry, Notes, Consistent, Unmarked, Retried, Contradicted;
    ConsistentExactly(hash, d, observed);
    PriorDecides(hash, d, req);
    PriorIsFirst(d.audit, req.id);
  }

  /** The same, whatever those two versions are: each is given by the files and the request. */
  ghost predicate Answered(hash: Hasher, d: Disk, req: Request, budget: nat, e: Disk, outcome: Outcome) {
    forall observed, expected :: OnDisk(hash, d, observed) && CountsOn(hash, req, expected) ==>
      && AnsweredExactly(hash, d, req, budget, outcome, observed, expected)
      && LeavesExactly(hash, d, req, budget, e, outcome, expected)
  }

  lemma AlwaysAnswered(hash: Hasher, d: Disk, req: Request, budget: nat)
    requires d.journal.None?
    ensures var c := AfterCommit(hash, d, req, budget); Answered(hash, d, req, budget, c.files, c.outcome)
  {
    hide AfterCommit, AnsweredExactly, LeavesExactly;
    forall observed, expected | OnDisk(hash, d, observed) && CountsOn(hash, req, expected)
      ensures var c := AfterCommit(hash, d, req, budget);
              && AnsweredExactly(hash, d, req, budget, c.outcome, observed, expected)
              && LeavesExactly(hash, d, req, budget, c.files, c.outcome, expected)
    {
      AnswersExactly(hash, d, req, budget, observed, expected);
    }
  }

  class PassportStore {
    const hash: Hasher
    var passport: Option<Passport>
    var audit: seq<AuditEntry>
    var journal: Option<Record>

    function Files(): Disk
      reads this
    {
      Disk(passport, audit, journal)
    }

    constructor (hash: Hasher, passport: Option<Passport>)
      ensures this.hash == hash && Files() == Disk(passport, [], None)
    {
      this.hash, this.passport, this.audit, this.journal := hash, passport, [], None;
    }

    /** Reads the whole log, checking that every entry names the one before it. */
    method ReadAuditLog() returns (ok: bool)
      ensures ok <==> Linked(audit)
    {
      var prior: Option<Digest> := None;
      for i := 0 to |audit|
        invariant prior == TipHash(audit[..i])
        invariant forall j {:trigger audit[j]} :: 0 <= j < i ==> audit[j].prev_hash == TipHash(audit[..j])
      {
        if audit[i].prev_hash != prior {
          return false;
        }
        assert audit[..i + 1][i] == audit[i];
        prior := Some(audit[i].after_hash);
      }
      return true;
    }

    /** Finishes a half-done commit, or refuses without touching a file. */
    method Repair(budget: nat) returns (status: RepairStatus, left: nat)
      modifies this
      ensures Repairing(Files(), status, left) == AfterRepair(hash, old(Files()), budget)
    {
      hide Linked, RecordOk, NextRepair, Owed;
      left := budget;
      if journal.None? {
        return NoPendingCommit, left;
      }
      var r := journal.value;
      var readable := ReadAuditLog();
      if !RecordOk(hash, r) || !readable {
        return Unreadable, left;
      }
      var current := Version(hash, passport);
      var index := IndexOf(audit, r.entry);
      var hasEntry := index < |audit|;
      if hasEntry && index != |audit| - 1 {
        if passport.Some? && current == audit[|audit| - 1].after_hash {
          SupersededIsCleared(hash, Files(), budget);
          if left == 0 {
            return RepairCrashed, left;
          }
          journal, left := None, left - 1;
          return AlreadyCompleted, left;
        }
        return Conflict, left;
      }
      if current != r.before_hash && current != r.after_hash {
        return Conflict, left;
      }
      if !hasEntry && TipHash(audit) != r.entry.prev_hash {
        return Conflict, left;
      }
      status, left := FinishPending(r, hasEntry, current, left);
    }

    /** The writing half of repair, once the evidence has been checked. */
    method FinishPending(
      r: Record, hasEntry: bool, current: Digest, budget: nat) returns (status: RepairStatus, left: nat)
      requires journal == Some(r) && RecordOk(hash, r) && !Superseded(Files())
      requires hasEntry == (r.entry in audit) && current == Version(hash, passport)
      modifies this
      ensures Files() == Repaired(hash, old(Files()), budget)
      ensures budget < Owed(hash, old(Files())) ==> status == RepairCrashed && left == 0
      ensures budget >= Owed(hash, old(Files())) ==>
                && status == (if !hasEntry || current != r.after_hash then Completed(!hasEntry, current != r.after_hash)
                              else AlreadyCompleted)
                && left == budget - Owed(hash, old(Files()))
    {
      hide RecordOk, IndexOf;
      ghost var d := Files();
      left := budget;
      if !hasEntry {
        if left == 0 {
          return RepairCrashed, left;
        }
        RepairProgress(hash, d);
        audit, left := audit + [r.entry], left - 1;
        d := NextRepair(hash, d);
        IndexOfLast(old(audit), r.entry);
      }
      assert Files() == d && r.entry in d.audit && !Superseded(d)
        && Repaired(hash, old(Files()), budget) == Repaired(hash, d, left);
      if current != r.after_hash {
        if left == 0 {
          return RepairCrashed, left;
        }
        RepairProgress(hash, d);
        passport, left := Some(r.after), left - 1;
        d := NextRepair(hash, d);
      }
      assert Files() == d && Owed(hash, d) == 1 && Repaired(hash, old(Files()), budget) == Repaired(hash, d, left);
      if left == 0 {
        return RepairCrashed, left;
      }
      assert NextRepair(hash, d) == d.(journal := None);
      journal, left := None, left - 1;
      assert Repaired(hash, d, left + 1) == Repaired(hash, Files(), left) == Files();
      status := if !hasEntry || current != r.after_hash then Completed(!hasEntry, current != r.after_hash)
        else AlreadyCompleted;
    }

    /** One passport transaction, taken under the lock; it first finishes whatever an earlier process left behind. */
    method Commit(req: Request, budget: nat) returns (outcome: Outcome)
      modifies this
      ensures Committing(Files(), outcome) == AfterCommit(hash, old(Files()), req, budget)
      ensures old(journal).None? ==> Answered(hash, old(Files()), req, budget, Files(), outcome)
    {
      hide Answered;
      if journal.None? {
        AlwaysAnswered(hash, Files(), req, budget);
      }
      var left := budget;
      if journal.Some? {
        var status;
        status, left := Repair(left);
        if status.RepairCrashed? {
          return Crashed;
        }
        if status.Conflict? || status.Unreadable? {
          return NeedsRepair;
        }
        assert journal.None? by { RepairFinishes(hash, old(Files()), budget); }
      }
      var readable := ReadAuditLog();
      if !readable {
        return NeedsRepair;
      }
      outcome := CommitSettled(req, left);
    }

    /** The transaction proper, on files with no pending journal. */
    method CommitSettled(req: Request, budget: nat) returns (outcome: Outcome)
      requires journal.None?
      modifies this
      ensures Committing(Files(), outcome) == AfterSettledCommit(hash, old(Files()), req, budget)
      ensures Linked(old(audit)) ==> Answered(hash, old(Files()), req, budget, Files(), outcome)
    {
      hide Answered, Linked;
      AlwaysAnswered(hash, Files(), req, budget);
      if !TipAgrees(hash, Files()) {
        return NeedsRepair;
      }
      var prior := PriorEntry(audit, req.id);
      if prior.Some? {
        if prior.value.after_hash != hash(req.after)
           || (req.expected.Some? && prior.value.before_hash != req.expected.value) {
          return CommandConflict;
        }
        if passport.None? {
          return NeedsRepair;
        }
        return Replayed(prior.value, passport.value);
      }
      var observed := Version(hash, passport);
      if observed != Expected(hash, req) {
        return VersionConflict(Expected(hash, req), observed);
      }
      var entry := NewEntry(hash, Files(), req);
      if budget == 0 {
        return Crashed;
      }
      journal := Some(Record(entry.before_hash, entry.after_hash, entry, req.after));
      if budget == 1 {
        return Crashed;
      }
      audit := audit + [entry];
      if budget == 2 {
        return Crashed;
      }
      passport := Some(req.after);
      if budget == 3 {
        return Crashed;
      }
      journal := None;
      return Committed(entry);
    }
  }
}
