/**
 What a commit and a repair answer, told by the files and the request alone: when a commit must go
 through, and that a repair never overwrites what someone else has written.
 */
module PassportAnswers {
  import opened Wrappers
  import opened CommandMarker
  import opened PassportModel
  import opened PassportCommit
  import opened PassportRuns
  import opened AuditHistory

  /**
   Where no other program has written, a commit that lives long enough goes through if and only if no entry
   carries its marker and the version the files stand for is the one counted on; it is a version conflict
   if and only if no entry carries the marker and the two differ. A pending journal is finished first.
   */
  lemma CommitsExactly(hash: Hasher, d: Disk, req: Request, budget: nat, observed: Digest, expected: Digest)
    requires CollisionFree(hash) && Recoverable(hash, d) && budget >= (if d.journal.None? then 4 else 7)
    requires OnDisk(hash, Settle(d), observed) && CountsOn(hash, req, expected)
    ensures var outcome := AfterCommit(hash, d, req, budget).outcome;
            && (outcome.Committed? <==> Unmarked(Settle(d).audit, req.id) && observed == expected)
            && (forall e, o :: outcome == VersionConflict(e, o) <==>
                  Unmarked(Settle(d).audit, req.id) && e == expected && o == observed && e != o)
            && !outcome.Crashed? && !outcome.NeedsRepair?
  {
    hide CollisionFree, Recoverable, Settle, AfterRepair, AfterSettledCommit, OnDisk, CountsOn, Unmarked, Retried,
      Contradicted, IsFirstMarked, CarriesMarker;
    CommitFromSettled(hash, d, req, budget);
    var left := AfterRepair(hash, d, budget).left;
    AnswersExactly(hash, Settle(d), req, left, observed, expected);
    CommitStep(hash, d, req, budget);
    SettledIsConsistent(hash, d, observed);
  }

  lemma CommitFromSettled(hash: Hasher, d: Disk, req: Request, budget: nat)
    requires CollisionFree(hash) && Recoverable(hash, d) && budget >= (if d.journal.None? then 0 else 3)
    ensures var left := AfterRepair(hash, d, budget).left;
            && Settle(d).journal.None? && left + (if d.journal.None? then 0 else 3) >= budget
            && AfterCommit(hash, d, req, budget) == AfterCommit(hash, Settle(d), req, left)
  {
    hide CollisionFree, Recoverable, Repaired, Disagrees, Linked, AfterSettledCommit, RecordOk;
    RepairStep(hash, d, budget);
  }

  lemma SettledIsConsistent(hash: Hasher, d: Disk, observed: Digest)
    requires CollisionFree(hash) && Recoverable(hash, d) && OnDisk(hash, Settle(d), observed)
    ensures Consistent(Settle(d), observed)
  {
    hide CollisionFree, Linked, Consistent, AfterRepair;
    RepairStep(hash, d, 3);
    ConsistentExactly(hash, Settle(d), observed);
  }

  /** The first save of an identity: no passport, no log, nothing expected. */
  lemma FirstSaveCommits(
    hash: Hasher, id: CommandId, after: Passport, changes: PassportChanges, text: string, now: string)
    ensures var first := Disk(None, [], None);
            var req := Request(id, None, after, changes, None, text, now);
            var c := AfterCommit(hash, first, req, 4);
            && c.outcome.Committed?
            && c.files == Disk(Some(after), [c.outcome.entry], None)
            && c.outcome.entry == AuditEntry(now, "absent", hash(after), None, changes, Notes(id, text))
  {
    hide AfterCommit, CarriesMarker, Retried, Contradicted, IsFirstMarked, Notes;
    AnswersExactly(hash, Disk(None, [], None), Request(id, None, after, changes, None, text, now), 4, "absent",
      "absent");
  }

  /**
   An edit of an identity held in memory, under an id not used yet: with a version supplied it goes through
   exactly if that is the one on disk, and otherwise exactly if the file holds the passport in memory or is gone.
   */
  lemma EditCommitsExactly(
    hash: Hasher, d: Disk, p: Passport, e: Edit, id: CommandId, supplied: Option<Digest>, text: string, now: string)
    requires CollisionFree(hash) && Recoverable(hash, d) && d.journal.None? && Unmarked(d.audit, id)
    ensures var req := EditRequest(hash, p, e, d.passport, id, supplied, text, now);
            AfterCommit(hash, d, req, 4).outcome.Committed? <==>
              match supplied
              case Some(version) => OnDisk(hash, d, version)
              case None => d.passport == None || d.passport == Some(p)
  {
    hide Recoverable, AfterCommit, AfterEdit, EditChanges, Unmarked, CarriesMarker;
    var req := EditRequest(hash, p, e, d.passport, id, supplied, text, now);
    var observed := match d.passport case None => "absent" case Some(q) => hash(q);
    var expected := req.expected.value;
    CommitsExactly(hash, d, req, 4, observed, expected);
  }

  // ---------- What a repair may touch, whoever else wrote the files ----------

  /** The log holds the entry, but not as its last one. */
  predicate Followed(log: seq<AuditEntry>, entry: AuditEntry) {
    exists i :: 0 <= i < |log| - 1 && log[i] == entry
  }

  predicate TipIs(log: seq<AuditEntry>, prev: Option<Digest>) {
    if log == [] then prev == None else prev == Some(log[|log| - 1].after_hash)
  }

  lemma FollowedExactly(d: Disk)
    requires d.journal.Some?
    ensures Superseded(d) <==> Followed(d.audit, d.journal.value.entry)
  {
    var entry, i := d.journal.value.entry, IndexOf(d.audit, d.journal.value.entry);
    if Superseded(d) {
      assert d.audit[i] == entry;
    }
  }

  lemma {:induction false} RepairedShape(hash: Hasher, d: Disk, budget: nat)
    requires d.journal.Some?
    ensures var e := Repaired(hash, d, budget);
            var r := d.journal.value;
            && (e.journal == d.journal || e.journal == None)
            && (e.audit == d.audit || (r.entry !in d.audit && e.audit == d.audit + [r.entry]))
            && (e.passport == d.passport ||
                  (e.passport == Some(r.after) && !Superseded(d) && Version(hash, d.passport) != r.after_hash))
    decreases budget
  {
    var next := NextRepair(hash, d);
    if budget > 0 && next.journal.Some? {
      if d.journal.value.entry !in d.audit {
        AppendOwed(hash, d);
      }
      RepairedShape(hash, next, budget - 1);
    }
  }

  /**
   For any files at all, and wherever the repair dies: the passport is only ever replaced by the one the
   journal holds, and only over the very version that commit started from; the log is only ever extended,
   by the journal's entry, and only behind the entry it was written to follow.
   */
  lemma RepairOverwritesNothing(hash: Hasher, d: Disk, budget: nat, observed: Digest)
    requires OnDisk(hash, d, observed)
    ensures var e := AfterRepair(hash, d, budget).files;
            && (e.passport != d.passport ==>
                  && d.journal.Some? && e.passport == Some(d.journal.value.after)
                  && observed == d.journal.value.before_hash)
            && (e.audit != d.audit ==>
                  && d.journal.Some? && e.audit == d.audit + [d.journal.value.entry]
                  && d.journal.value.entry !in d.audit && TipIs(d.audit, d.journal.value.entry.prev_hash)
                  && (observed == d.journal.value.before_hash || observed == d.journal.value.after_hash))
            && (e.journal == d.journal || (e.journal == None && AfterRepair(hash, d, budget).status != Conflict))
  {
    if d.journal.Some? && RecordOk(hash, d.journal.value) && Linked(d.audit) && !Disagrees(hash, d) {
      hide Linked, Owed;
      RepairedShape(hash, d, budget);
    }
  }

  /**
   Exactly when a repair refuses, the log being readable: the journal's entry is followed by others and the
   passport is not the last of them, or the passport is neither the one before nor the one after, or the
   entry is not logged and the log no longer ends where it should be added.
   */
  lemma ConflictsExactly(hash: Hasher, d: Disk, budget: nat, observed: Digest)
    requires OnDisk(hash, d, observed)
    ensures var r := AfterRepair(hash, d, budget);
            && (r.status.Unreadable? <==> d.journal.Some? && !(RecordOk(hash, d.journal.value) && Linked(d.audit)))
            && (r.status.Conflict? <==>
                  && d.journal.Some? && RecordOk(hash, d.journal.value) && Linked(d.audit)
                  && var j := d.journal.value;
                  if Followed(d.audit, j.entry) then
                    d.passport == None || observed != d.audit[|d.audit| - 1].after_hash
                  else
                    || (observed != j.before_hash && observed != j.after_hash)
                    || (j.entry !in d.audit && !TipIs(d.audit, j.entry.prev_hash)))
            && (r.status.Unreadable? || r.status.Conflict? ==> r.files == d && r.left == budget)
  {
    if d.journal.Some? {
      FollowedExactly(d);
    }
  }

  /**
   Otherwise a repair that lives for three writes removes the journal and reports just what it did: nothing
   else where the entry is followed by others, and else its entry is logged and the promised version on disk.
   */
  lemma RepairReportsExactly(hash: Hasher, d: Disk, budget: nat)
    requires d.journal.Some? && budget >= 3
    ensures var r := AfterRepair(hash, d, budget);
            var j := d.journal.value;
            r.status.Unreadable? || r.status.Conflict? ||
            (&& r.files.journal == None
             && (Followed(d.audit, j.entry) ==> r.files == d.(journal := None))
             && (!Followed(d.audit, j.entry) ==> j.entry in r.files.audit && OnDisk(hash, r.files, j.after_hash))
             && r.status == if r.files.audit == d.audit && r.files.passport == d.passport then AlreadyCompleted
                            else Completed(r.files.audit != d.audit, r.files.passport != d.passport))
  {
    FollowedExactly(d);
    if RecordOk(hash, d.journal.value) && Linked(d.audit) && !Disagrees(hash, d) {
      hide Linked, Followed;
      var r, one := d.journal.value, NextRepair(hash, d);
      RepairFinishes(hash, d, budget);
      if r.entry !in d.audit {
        AppendOwed(hash, d);
        IndexOfLast(d.audit, r.entry);
      }
      if one.journal.Some? {
        var two := NextRepair(hash, one);
        assert Repaired(hash, d, budget) == Repaired(hash, one, budget - 1) == Repaired(hash, two, budget - 2);
        if two.journal.Some? {
          assert Repaired(hash, two, budget - 2) == Repaired(hash, NextRepair(hash, two), budget - 3);
        }
      }
    }
  }
}
