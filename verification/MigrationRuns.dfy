/** Whole migrations: interrupted and resumed any number of times, they write one journal. */
module MigrationRuns {
  import opened Wrappers
  import opened ProjectTypes
  import opened Migration
  import opened MigrationSafety

  // ---------- The validator alone is not inductive ----------

  ghost function ProjectsAt(h: Hashes, a: Adapters, b: Body, i: nat): Projects
    requires i < |b.corpus| && (|b.staged| <= i ==> StageGood(h, a, b.migration_id, b.corpus, i))
  {
    if i < |b.staged| then b.staged[i].projects else ProjectsOf(h, a, b.migration_id, b.corpus, i)
  }

  ghost predicate RestStages(h: Hashes, a: Adapters, b: Body) {
    forall i :: |b.staged| <= i < |b.corpus| ==> StageGood(h, a, b.migration_id, b.corpus, i)
  }

  /** What the outside must deliver for the rest of a checkpoint's phase, whoever wrote the checkpoint. */
  ghost predicate Delivers(h: Hashes, a: Adapters, now: Millis, b: Body) {
    match b.phase
    case Snapshotting => CanonicalTime(now)
    case Staging =>
      && CanonicalTime(now) && RestStages(h, a, b)
      && forall i, j :: 0 <= i < |b.corpus| && 0 <= j < |b.corpus| ==>
        Compatible(ProjectsAt(h, a, b, i), ProjectsAt(h, a, b, j))
    case Verifying =>
      && CanonicalTime(now) && TotalRecords(b.corpus) <= MAX_SAFE
      && forall i :: |b.verified| <= i < |b.corpus| && i < |b.staged| ==>
           a.verify(Key(h, b.migration_id, Verifying, b.corpus, i)) == Some(b.staged[i].reconciliation)
    case Complete => true
  }

  lemma StepShape(h: Hashes, a: Adapters, now: Millis, c: Checkpoint)
    requires Acceptable(h, c) && Step(h, a, now, c).Ok?
    ensures var d := Step(h, a, now, c).value;
      && Acceptable(h, d) && c.body.next <= |c.body.corpus| && d.body.corpus == c.body.corpus
      && (c.body.next < |c.body.corpus| ==> d.body.phase == c.body.phase && d.body.next == c.body.next + 1)
  {
    hide BodyAcceptable, MergeProjects, Aggregate, CanonicalProjects, Conserves, ReceiptValid;
    AcceptableShape(h, c);
  }

  /** Stepping on to the end of the phase a checkpoint stands in. */
  ghost function EndPhase(h: Hashes, a: Adapters, now: Millis, c: Checkpoint): Result<Checkpoint, Failure>
    requires Acceptable(h, c)
    decreases |c.body.corpus| - c.body.next
  {
    if c.body.phase.Complete? then Ok(c)
    else
      match Step(h, a, now, c)
      case Err(e) => Err(e)
      case Ok(d) =>
        StepShape(h, a, now, c);
        if c.body.next == |c.body.corpus| then Ok(d) else EndPhase(h, a, now, d)
  }

  lemma SourceStepGoes(h: Hashes, a: Adapters, now: Millis, c: Checkpoint)
    requires Acceptable(h, c) && Delivers(h, a, now, c.body) && !c.body.phase.Complete? && c.body.next < |c.body.corpus|
    ensures Step(h, a, now, c).Ok?
    ensures var d := Step(h, a, now, c).value;
      && Delivers(h, a, now, d.body) && d.body.corpus == c.body.corpus && d.body.next == c.body.next + 1
      && d.body.phase == c.body.phase && (OnlyThisPhase(d.body) <==> OnlyThisPhase(c.body))
  {
    hide MergeProjects, Aggregate, TotalRecords, CanonicalProjects, Compatible, Conserves;
    var b := c.body;
    match b.phase
    case Snapshotting =>
      var next := SnapshotBody(h, now, c).value;
      SameItems(h, b, next);
    case Staging =>
      assert StageGood(h, a, b.migration_id, b.corpus, b.next);
      var next := StageBody(h, a, now, c).value;
      SameItems(h, b, next);
      assert StagedItem(h, next, b.next);
      forall i | 0 <= i < |b.corpus| ensures ProjectsAt(h, a, next, i) == ProjectsAt(h, a, b, i) {
      }
    case Verifying =>
      assert StagedItem(h, b, b.next);
      var next := VerifyBody(h, a, now, c).value;
      SameItems(h, b, next);
  }

  /** Lists that only grow keep their valid items. */
  lemma SameItems(h: Hashes, b: Body, next: Body)
    requires StagedPrefix(h, b) && VerifiedPrefix(h, b)
    requires next.corpus == b.corpus && next.migration_id == b.migration_id
    requires b.staged <= next.staged && b.verified <= next.verified && |next.staged| <= |b.corpus|
    ensures forall i :: 0 <= i < |b.staged| ==> StagedItem(h, next, i)
    ensures forall i :: 0 <= i < |b.verified| ==> VerifiedItem(h, next, i)
  {
    hide Conserves;
    forall i | 0 <= i < |b.staged| ensures StagedItem(h, next, i) {
      assert StagedItem(h, b, i);
    }
    forall i | 0 <= i < |b.verified| ensures VerifiedItem(h, next, i) {
      assert VerifiedItem(h, b, i);
    }
  }

  lemma CommitStepGoesExactly(h: Hashes, a: Adapters, now: Millis, c: Checkpoint)
    requires Acceptable(h, c) && Delivers(h, a, now, c.body) && !c.body.phase.Complete?
      && c.body.next == |c.body.corpus|
    ensures Step(h, a, now, c).Ok? <==> OnlyThisPhase(c.body)
    ensures Step(h, a, now, c).Ok? ==> OnlyThisPhase(Step(h, a, now, c).value.body)
  {
    hide MergeProjects, Aggregate, TotalRecords, CanonicalProjects, Compatible, Conserves;
    var b := c.body;
    match b.phase
    case Snapshotting =>
      SameItems(h, b, SnapshotBody(h, now, c).value);
    case Staging =>
      assert AllCompatible(b.staged) by {
        forall i, j | 0 <= i < |b.staged|
          && 0 <= j < |b.staged| ensures Compatible(b.staged[i].projects, b.staged[j].projects) {
          assert Compatible(ProjectsAt(h, a, b, i), ProjectsAt(h, a, b, j));
        }
      }
      MergeExactly(b.staged);
      SameItems(h, b, StageBody(h, a, now, c).value);
    case Verifying =>
      TerminalTotals(h, b);
      SameItems(h, b, VerifyBody(h, a, now, c).value);
  }

  /**
   Reachable or not: when the outside delivers, an accepted checkpoint comes to the end of its phase if and
   only if it has not begun the lists of a later one, and from then on it is as one a run could have reached.
   */
  lemma {:induction false} PhaseEndsExactly(h: Hashes, a: Adapters, now: Millis, c: Checkpoint)
    requires Acceptable(h, c) && Delivers(h, a, now, c.body)
    ensures EndPhase(h, a, now, c).Ok? <==> OnlyThisPhase(c.body)
    ensures EndPhase(h, a, now, c).Ok? ==> OnlyThisPhase(EndPhase(h, a, now, c).value.body)
    decreases |c.body.corpus| - c.body.next
  {
    hide Delivers, Step, BodyAcceptable, OnlyThisPhase;
    AcceptableShape(h, c);
    if c.body.phase.Complete? {
      CompleteIsOnlyThisPhase(c.body);
    } else if c.body.next == |c.body.corpus| {
      CommitStepGoesExactly(h, a, now, c);
    } else {
      SourceStepGoes(h, a, now, c);
      StepShape(h, a, now, c);
      PhaseEndsExactly(h, a, now, Step(h, a, now, c).value);
    }
  }

  lemma CompleteIsOnlyThisPhase(b: Body)
    requires b.phase.Complete?
    ensures OnlyThisPhase(b)
  {
  }

  /** One source without records, and what it came to. */
  const EMPTY_SOURCE: Corpus := [Source("source", "digest", 0)]
  const NOTHING := Reconciliation(0, 0, 0, 0)

  /** A checkpoint over it, with the lists of later phases begun. */
  function Hasty(h: Hashes, phase: Phase): Body {
    var snapshot := Snapshots(EMPTY_SOURCE);
    Body("migration", EMPTY_SOURCE,
         Receipt("migration", EMPTY_SOURCE, 0,
           if phase.Snapshotting? then Preview else SnapshotVerified(h.snapshot("migration", EMPTY_SOURCE, snapshot))),
         phase, 1, snapshot, StagedReceipts(h, "migration", EMPTY_SOURCE, [NOTHING]),
         if phase.Snapshotting? then [] else VerifiedReceipts(h, "migration", EMPTY_SOURCE, [NOTHING]), 1, None)
  }

  lemma HastyIsFilled(h: Hashes, phase: Phase)
    ensures Filled(h, Hasty(h, phase), [NOTHING]) && ValidCorpus(EMPTY_SOURCE)
  {
    hide Snapshots, StagedReceipts, VerifiedReceipts, Key;
    assert Conserves(NOTHING, 0);
  }

  lemma HastyIsAccepted(h: Hashes, phase: Phase)
    requires phase.Snapshotting? || phase.Staging?
    ensures BodyAcceptable(h, Hasty(h, phase)) && !OnlyThisPhase(Hasty(h, phase))
  {
    var b := Hasty(h, phase);
    HastyIsFilled(h, phase);
    hide Filled, ValidCorpus, Conserves, BodyAcceptable;
    FilledIsPrefix(h, b, [NOTHING]);
    FilledIsAccepted(h, b, [NOTHING]);
  }

  /** A source that is staged already needs nothing more of its adapter, and agrees with itself. */
  lemma StagedNeedsNothing(h: Hashes, a: Adapters, now: Millis, b: Body)
    requires b.phase.Snapshotting? || b.phase.Staging?
    requires CanonicalTime(now) && |b.staged| == |b.corpus| == 1
    ensures Delivers(h, a, now, b)
  {
    hide StageGood, ProjectsOf, TotalRecords;
  }

  /**
   Both kinds of dead end are accepted: sources staged before the snapshot is committed, and sources verified
   before the stage is.
   */
  lemma ValidatorAdmitsDeadEnds(h: Hashes, a: Adapters, now: Millis, phase: Phase)
    requires (phase.Snapshotting? || phase.Staging?) && CanonicalTime(now)
    ensures var c := Checkpoint(Hasty(h, phase), h.sign(Hasty(h, phase)));
      Acceptable(h, c) && Delivers(h, a, now, c.body) && Step(h, a, now, c).Err?
  {
    var b := Hasty(h, phase);
    var c := Checkpoint(b, h.sign(b));
    assert b.phase == phase && b.next == |b.corpus| == |b.staged| == 1;
    hide Hasty, BodyAcceptable, Delivers, Step, OnlyThisPhase;
    HastyIsAccepted(h, phase);
    StagedNeedsNothing(h, a, now, b);
    CommitStepGoesExactly(h, a, now, c);
  }

  // ---------- Time is all that can differ ----------

  /** A checkpoint body without its times and the digests made over them. */
  function Timeless(b: Body): Body {
    b.(receipt := b.receipt.(issued_at := 0), previous := None)
  }

  lemma StepIsTimeless(h: Hashes, a: Adapters, s: Millis, t: Millis, c: Checkpoint, d: Checkpoint)
    requires Acceptable(h, c) && Acceptable(h, d) && Timeless(c.body) == Timeless(d.body)
    requires Step(h, a, s, c).Ok? && Step(h, a, t, d).Ok?
    ensures Timeless(Step(h, a, s, c).value.body) == Timeless(Step(h, a, t, d).value.body)
  {
    hide BodyAcceptable, MergeProjects, Aggregate, CanonicalProjects, Key, Conserves, ReceiptValid;
    AcceptableShape(h, c);
    AcceptableShape(h, d);
  }

  // ---------- Journals ----------

  /** A journal is what a migration has written, with the time each write was made at. */
  ghost predicate Written(
    h: Hashes, a: Adapters, id: string, corpus: Corpus, journal: seq<Checkpoint>, times: seq<Millis>) {
    && |times| == |journal|
    && (journal != [] ==> Begin(h, id, corpus, times[0]) == Ok(journal[0]))
    && (forall i :: 0 <= i < |journal| ==> Acceptable(h, journal[i]))
    && (forall i :: 0 < i < |journal| ==> Step(h, a, times[i], journal[i - 1]) == Ok(journal[i]))
  }

  lemma BeginIsReachable(h: Hashes, a: Adapters, id: string, corpus: Corpus, now: Millis)
    requires Begin(h, id, corpus, now).Ok?
    ensures var c := Begin(h, id, corpus, now).value;
      Reachable(h, c) && Bound(h, a, c.body) && c.body.revision == 1 && c.body.previous == None
      && c.body.migration_id == id && c.body.corpus == corpus
  {
  }

  /** Every checkpoint of every journal is reachable, and stands at the revision its place says. */
  lemma {:induction false} JournalIsReachable(
    h: Hashes, a: Adapters, id: string, corpus: Corpus, journal: seq<Checkpoint>, times: seq<Millis>, i: nat)
    requires Written(h, a, id, corpus, journal, times) && i < |journal|
    ensures Reachable(h, journal[i]) && Bound(h, a, journal[i].body)
    ensures journal[i].body.revision == i + 1 && journal[i].body.migration_id == id && journal[i].body.corpus == corpus
    ensures journal[i].body.previous == (if i == 0 then None else Some(journal[i - 1].digest))
  {
    hide Reachable, Bound, BodyAcceptable, Sound;
    if i == 0 {
      BeginIsReachable(h, a, id, corpus, times[0]);
    } else {
      JournalIsReachable(h, a, id, corpus, journal, times, i - 1);
      AcceptableShape(h, journal[i - 1]);
      StepExactly(h, a, times[i], journal[i - 1]);
    }
  }

  /** A journal never holds two checkpoints of one revision, and never more than 3n + 4 of them. */
  lemma JournalIsBounded(
    h: Hashes, a: Adapters, id: string, corpus: Corpus, journal: seq<Checkpoint>, times: seq<Millis>)
    requires Written(h, a, id, corpus, journal, times)
    ensures forall i, j :: 0 <= i < j < |journal| ==> journal[i].body.revision != journal[j].body.revision
    ensures |journal| <= 3 * |corpus| + 4
    ensures journal != [] ==> (|journal| == 3 * |corpus| + 4 <==> journal[|journal| - 1].body.phase.Complete?)
  {
    hide BodyAcceptable, OnlyThisPhase, Bound, Step, Begin;
    forall i | 0 <= i < |journal| ensures journal[i].body.revision == i + 1 {
      JournalIsReachable(h, a, id, corpus, journal, times, i);
    }
    if journal != [] {
      JournalIsReachable(h, a, id, corpus, journal, times, |journal| - 1);
      RankIsBounded(h, journal[|journal| - 1].body);
    }
  }

  lemma RankIsBounded(h: Hashes, b: Body)
    requires Sound(h, b)
    ensures b.revision <= 3 * |b.corpus| + 4
    ensures b.revision == 3 * |b.corpus| + 4 <==> b.phase.Complete?
  {
  }

  /**
   Resume equivalence: however two migrations of one corpus were interrupted and resumed, with adapters
   that answer alike for one idempotency key, checkpoint for checkpoint they wrote the same up to time.
   */
  lemma {:induction false} JournalsAgree(
    h: Hashes, a: Adapters, id: string, corpus: Corpus,
    journal: seq<Checkpoint>, times: seq<Millis>, other: seq<Checkpoint>, otherTimes: seq<Millis>, i: nat)
    requires Written(h, a, id, corpus, journal, times) && Written(h, a, id, corpus, other, otherTimes)
    requires i < |journal| && i < |other|
    ensures Timeless(journal[i].body) == Timeless(other[i].body)
    ensures times[..i + 1] == otherTimes[..i + 1] ==> journal[i] == other[i]
  {
    hide BodyAcceptable, Acceptable, Step;
    if i > 0 {
      JournalsAgree(h, a, id, corpus, journal, times, other, otherTimes, i - 1);
      StepIsTimeless(h, a, times[i], otherTimes[i], journal[i - 1], other[i - 1]);
      if times[..i + 1] == otherTimes[..i + 1] {
        assert times[..i] == times[..i + 1][..i] && otherTimes[..i] == otherTimes[..i + 1][..i];
        assert times[i] == times[..i + 1][i] && otherTimes[i] == otherTimes[..i + 1][i];
      }
    } else if times[..i + 1] == otherTimes[..i + 1] {
      assert times[0] == times[..i + 1][0] && otherTimes[0] == otherTimes[..i + 1][0];
    }
  }

  /** A finished migration was completable, and a completable one is never stopped by its own contract. */
  lemma FinishedWasCompletable(
    h: Hashes, a: Adapters, id: string, corpus: Corpus, journal: seq<Checkpoint>, times: seq<Millis>)
    requires Written(h, a, id, corpus, journal, times) && |journal| == 3 * |corpus| + 4
    ensures Completable(h, a, id, corpus)
    ensures AccountsForEveryRecord(journal[|journal| - 1].body) && journal[|journal| - 1].body.corpus == corpus
  {
    hide Completable, Written, Sound, Bound, AccountsForEveryRecord, UnionOf;
    JournalIsBounded(h, a, id, corpus, journal, times);
    JournalIsReachable(h, a, id, corpus, journal, times, |journal| - 1);
    CompleteWasCompletable(h, a, journal[|journal| - 1].body);
  }

  // ---------- Each total by itself, and the times of the receipts ----------

  const RECORDS := (r: Reconciliation) => r.source
  const IMPORTED := (r: Reconciliation) => r.imported
  const QUARANTINED := (r: Reconciliation) => r.quarantined
  const UNRESOLVED := (r: Reconciliation) => r.unresolved

  function SumOf(outcomes: Outcomes, part: Reconciliation -> int): int {
    if outcomes == [] then 0 else SumOf(outcomes[..|outcomes| - 1], part) + part(outcomes[|outcomes| - 1])
  }

  /** What the adapter reported for each source of the corpus. */
  ghost function Reported(h: Hashes, a: Adapters, id: string, corpus: Corpus): Outcomes
    requires AllStage(h, a, id, corpus)
  {
    seq(|corpus|, i requires 0 <= i < |corpus| =>
      assert StageGood(h, a, id, corpus, i);
      a.stage(Key(h, id, Staging, corpus, i)).value.reconciliation)
  }

  lemma {:induction false} AggregateSums(verified: seq<VerifiedReceipt>, outcomes: Outcomes)
    requires |outcomes| == |verified|
    requires forall i :: 0 <= i < |verified| ==> verified[i].reconciliation == outcomes[i]
    ensures var r := Aggregate(verified);
      && r.source == SumOf(outcomes, RECORDS) && r.imported == SumOf(outcomes, IMPORTED)
      && r.quarantined == SumOf(outcomes, QUARANTINED) && r.unresolved == SumOf(outcomes, UNRESOLVED)
  {
    if verified != [] {
      AggregateSums(verified[..|verified| - 1], outcomes[..|verified| - 1]);
    }
  }

  /** Every total of the terminal receipt is, each by itself, the sum of what the adapter reported per source. */
  lemma TerminalTotalsAreSums(h: Hashes, a: Adapters, b: Body)
    requires Sound(h, b) && Bound(h, a, b) && b.phase.Complete?
    ensures AllStage(h, a, b.migration_id, b.corpus) && b.receipt.evidence.Verified?
    ensures var r, reported := b.receipt.evidence.reconciliation, Reported(h, a, b.migration_id, b.corpus);
      && r.source == SumOf(reported, RECORDS) && r.imported == SumOf(reported, IMPORTED)
      && r.quarantined == SumOf(reported, QUARANTINED) && r.unresolved == SumOf(reported, UNRESOLVED)
  {
    hide StageGood, VerifyGood, Aggregate, TotalRecords, MergeProjects, Conserves, Key, SumOf;
    forall i | 0 <= i < |b.corpus| ensures StageGood(h, a, b.migration_id, b.corpus, i) {
    }
    var reported := Reported(h, a, b.migration_id, b.corpus);
    forall i | 0 <= i < |b.verified| ensures b.verified[i].reconciliation == reported[i] {
      assert VerifiedItem(h, b, i);
    }
    AggregateSums(b.verified, reported);
  }

  /** With a hash free of collisions an idempotency key names one piece of work: migration, phase, place and source. */
  lemma KeyNamesTheWork(
    h: Hashes, id: string, phase: Phase, c: Corpus, i: nat, otherId: string, other: Phase, d: Corpus, j: nat)
    requires i < |c| && j < |d| && (forall x, y :: h.key(x) == h.key(y) ==> x == y)
    ensures Key(h, id, phase, c, i) == Key(h, otherId, other, d, j) <==>
      && id == otherId && phase == other && i == j
      && c[i].source_ref == d[j].source_ref && c[i].source_digest == d[j].source_digest
  {
  }

  /** A receipt is dated when a phase is committed, and carried on unchanged in between. */
  lemma ReceiptTimes(h: Hashes, a: Adapters, now: Millis, c: Checkpoint)
    requires Acceptable(h, c) && Step(h, a, now, c).Ok?
    ensures var d := Step(h, a, now, c).value;
      && (d.body.phase != c.body.phase ==> d.body.receipt.issued_at == now && c.body.next == |c.body.corpus|)
      && (d.body.phase == c.body.phase ==> d.body.receipt == c.body.receipt && c.body.next < |c.body.corpus|)
  {
    hide BodyAcceptable, MergeProjects, Aggregate, CanonicalProjects, Key, Conserves, ReceiptValid;
    AcceptableShape(h, c);
  }
}
