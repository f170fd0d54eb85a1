/** What every step of a migration keeps, when it ends, and what it has conserved by then. */
module MigrationSafety {
  import opened Wrappers
  import opened ProjectTypes
  import opened Migration

  /** Stronger than the validator: a phase has not begun the lists of the phases after it. */
  predicate OnlyThisPhase(b: Body) {
    && (b.phase.Snapshotting? ==> b.staged == [] && b.verified == [])
    && (b.phase.Staging? ==> b.verified == [])
  }

  /** The revision a checkpoint has when no checkpoint was skipped or written twice. */
  function Rank(b: Body): nat {
    var n := |b.corpus|;
    match b.phase
    case Snapshotting => 1 + b.next
    case Staging => n + 2 + b.next
    case Verifying => 2 * n + 3 + b.next
    case Complete => 3 * n + 4
  }

  ghost predicate Sound(h: Hashes, b: Body) {
    BodyAcceptable(h, b) && OnlyThisPhase(b) && b.revision == Rank(b)
  }

  ghost predicate Reachable(h: Hashes, c: Checkpoint) {
    c.digest == h.sign(c.body) && Sound(h, c.body)
  }

  // ---------- Totals ----------

  lemma {:induction false} AggregateIsTotal(b: Body, k: nat)
    requires ValidCorpus(b.corpus) && k <= |b.verified| && k <= |b.corpus|
    requires forall i :: 0 <= i < k ==> Conserves(b.verified[i].reconciliation, b.corpus[i].record_count)
    ensures var r := Aggregate(b.verified[..k]);
            && r.source == TotalRecords(b.corpus[..k])
            && r.imported >= 0 && r.quarantined >= 0 && r.unresolved >= 0
            && r.imported + r.quarantined + r.unresolved == r.source
  {
    if k > 0 {
      AggregateIsTotal(b, k - 1);
      assert b.verified[..k][..k - 1] == b.verified[..k - 1];
      assert b.corpus[..k][..k - 1] == b.corpus[..k - 1];
    }
  }

  /** The totals of complete verification are conserved; they are a valid count only up to MAX_SAFE. */
  lemma TerminalTotals(h: Hashes, b: Body)
    requires ValidCorpus(b.corpus) && StagedPrefix(h, b) && VerifiedPrefix(h, b) && |b.verified| == |b.corpus|
    ensures var r := Aggregate(b.verified);
            && r.source == TotalRecords(b.corpus) && r.imported + r.quarantined + r.unresolved == r.source
            && (Conserves(r, TotalRecords(b.corpus)) <==> TotalRecords(b.corpus) <= MAX_SAFE)
  {
    var n := |b.corpus|;
    forall i | 0 <= i < n ensures Conserves(b.verified[i].reconciliation, b.corpus[i].record_count) {
      assert VerifiedItem(h, b, i);
    }
    AggregateIsTotal(b, n);
    assert b.verified[..n] == b.verified && b.corpus[..n] == b.corpus;
  }

  // ---------- Merging ----------

  /** The map says of each project what the list said, and of no other project anything. */
  predicate SaysList(m: Projects, input: seq<ProjectRef>) {
    && (forall i :: 0 <= i < |input| ==> input[i].project_id in m && m[input[i].project_id] == input[i])
    && (forall p :: p in m ==> exists i :: 0 <= i < |input| && input[i].project_id == p)
  }

  predicate IdsDiffer(input: seq<ProjectRef>) {
    forall i, j :: 0 <= i < j < |input| ==> input[i].project_id != input[j].project_id
  }

  lemma ListOfLast(m: Projects, input: seq<ProjectRef>)
    requires input != [] && SaysList(m, input[..|input| - 1]) && input[|input| - 1].project_id !in m
    ensures SaysList(m[input[|input| - 1].project_id := input[|input| - 1]], input)
  {
    var k := |input| - 1;
    var front, longer := input[..k], m[input[k].project_id := input[k]];
    assert forall i :: 0 <= i < k ==> input[i] == front[i];
    forall p | p in longer ensures exists i :: 0 <= i < |input| && input[i].project_id == p {
      if p in m {
        var i :| 0 <= i < k && front[i].project_id == p;
        assert input[i].project_id == p;
      } else {
        assert input[k].project_id == p;
      }
    }
  }

  lemma DifferOfLast(m: Projects, input: seq<ProjectRef>)
    requires input != [] && SaysList(m, input[..|input| - 1])
    ensures IdsDiffer(input) <==> IdsDiffer(input[..|input| - 1]) && input[|input| - 1].project_id !in m
  {
    var k := |input| - 1;
    var front := input[..k];
    assert forall i :: 0 <= i < k ==> input[i] == front[i];
    if input[k].project_id in m {
      var i :| 0 <= i < k && front[i].project_id == input[k].project_id;
      assert input[i].project_id == input[k].project_id;
    }
  }

  lemma FrontDiffers(input: seq<ProjectRef>)
    requires input != [] && IdsDiffer(input)
    ensures IdsDiffer(input[..|input| - 1])
  {
  }

  /** A project list is accepted exactly when no project occurs twice, and then says of each what the list said. */
  lemma {:induction false} CanonicalExactly(input: seq<ProjectRef>)
    ensures CanonicalProjects(input).Some? <==> IdsDiffer(input)
    ensures CanonicalProjects(input).Some? ==> SaysList(CanonicalProjects(input).value, input)
  {
    if input != [] {
      var front := CanonicalProjects(input[..|input| - 1]);
      CanonicalExactly(input[..|input| - 1]);
      hide IdsDiffer, SaysList;
      if front.Some? {
        DifferOfLast(front.value, input);
        if input[|input| - 1].project_id !in front.value {
          ListOfLast(front.value, input);
        }
      } else if IdsDiffer(input) {
        FrontDiffers(input);
      }
    }
  }

  ghost predicate AllCompatible(staged: seq<StagedReceipt>) {
    forall i, j :: 0 <= i < |staged| && 0 <= j < |staged| ==> Compatible(staged[i].projects, staged[j].projects)
  }

  ghost predicate UnionOf(m: Projects, staged: seq<StagedReceipt>) {
    && (forall i, p :: 0 <= i < |staged| && p in staged[i].projects ==> p in m && m[p] == staged[i].projects[p])
    && (forall p :: p in m ==> exists i :: 0 <= i < |staged| && p in staged[i].projects)
  }

  /** Merging succeeds exactly when no two sources disagree about a project, and then it is the union. */
  lemma {:induction false} MergeExactly(staged: seq<StagedReceipt>)
    ensures MergeProjects(staged).Some? <==> AllCompatible(staged)
    ensures MergeProjects(staged).Some? ==> UnionOf(MergeProjects(staged).value, staged)
  {
    if staged != [] {
      var k := |staged| - 1;
      var front, last := staged[..k], staged[k].projects;
      MergeExactly(front);
      if AllCompatible(staged) {
        forall i, j | 0 <= i < k && 0 <= j < k ensures Compatible(front[i].projects, front[j].projects) {
          assert Compatible(staged[i].projects, staged[j].projects);
        }
        var m := MergeProjects(front).value;
        forall p | p in m && p in last ensures m[p] == last[p] {
          var i :| 0 <= i < k && p in front[i].projects;
          assert Compatible(staged[i].projects, staged[k].projects);
        }
      }
      if MergeProjects(staged).Some? {
        MergeOfLast(staged);
      }
    }
  }

  lemma UnionMeansCompatible(m: Projects, staged: seq<StagedReceipt>)
    requires UnionOf(m, staged)
    ensures AllCompatible(staged)
  {
    forall i, j, p | 0 <= i < |staged| && 0 <= j < |staged| && p in staged[i].projects && p in staged[j].projects
      ensures staged[i].projects[p] == staged[j].projects[p]
    {
      assert m[p] == staged[i].projects[p] && m[p] == staged[j].projects[p];
    }
  }

  lemma UnionOfOneMore(m: Projects, staged: seq<StagedReceipt>, last: StagedReceipt)
    requires UnionOf(m, staged) && Compatible(m, last.projects)
    ensures UnionOf(m + last.projects, staged + [last])
  {
    var longer := staged + [last];
    var union := m + last.projects;
    forall i, p | 0 <= i < |longer| && p in longer[i].projects ensures p in union && union[p] == longer[i].projects[p] {
      if i < |staged| {
        assert p in staged[i].projects;
      }
    }
    forall p | p in union ensures exists i :: 0 <= i < |longer| && p in longer[i].projects {
      if p in last.projects {
        assert p in longer[|staged|].projects;
      } else {
        var i :| 0 <= i < |staged| && p in staged[i].projects;
        assert p in longer[i].projects;
      }
    }
  }

  lemma MergeOfLast(staged: seq<StagedReceipt>)
    requires staged != [] && MergeProjects(staged).Some?
    requires UnionOf(MergeProjects(staged[..|staged| - 1]).value, staged[..|staged| - 1])
    ensures AllCompatible(staged) && UnionOf(MergeProjects(staged).value, staged)
  {
    hide UnionOf, AllCompatible;
    var k := |staged| - 1;
    UnionOfOneMore(MergeProjects(staged[..k]).value, staged[..k], staged[k]);
    assert staged[..k] + [staged[k]] == staged;
    UnionMeansCompatible(MergeProjects(staged).value, staged);
  }

  // ---------- What the adapters must deliver ----------

  ghost predicate StageGood(h: Hashes, a: Adapters, id: string, c: Corpus, i: nat)
    requires i < |c|
  {
    var r := a.stage(Key(h, id, Staging, c, i));
    r.Some? && Conserves(r.value.reconciliation, c[i].record_count) && CanonicalProjects(r.value.projects).Some?
  }

  ghost function ProjectsOf(h: Hashes, a: Adapters, id: string, c: Corpus, i: nat): Projects
    requires i < |c| && StageGood(h, a, id, c, i)
  {
    CanonicalProjects(a.stage(Key(h, id, Staging, c, i)).value.projects).value
  }

  ghost predicate VerifyGood(h: Hashes, a: Adapters, id: string, c: Corpus, i: nat)
    requires i < |c|
  {
    a.stage(Key(h, id, Staging, c, i)).Some?
    && a.verify(Key(h, id, Verifying, c, i)) == Some(a.stage(Key(h, id, Staging, c, i)).value.reconciliation)
  }

  ghost predicate AllStage(h: Hashes, a: Adapters, id: string, c: Corpus) {
    forall i :: 0 <= i < |c| ==> StageGood(h, a, id, c, i)
  }

  ghost predicate NoConflict(h: Hashes, a: Adapters, id: string, c: Corpus)
    requires AllStage(h, a, id, c)
  {
    forall i, j :: 0 <= i < |c| && 0 <= j < |c| ==> Compatible(ProjectsOf(h, a, id, c, i), ProjectsOf(h, a, id, c, j))
  }

  ghost predicate AllVerify(h: Hashes, a: Adapters, id: string, c: Corpus) {
    forall i :: 0 <= i < |c| ==> VerifyGood(h, a, id, c, i)
  }

  /** Everything a migration needs from outside, besides time and an unchanged corpus. */
  ghost predicate Completable(h: Hashes, a: Adapters, id: string, c: Corpus) {
    && AllStage(h, a, id, c) && NoConflict(h, a, id, c) && AllVerify(h, a, id, c)
    && TotalRecords(c) <= MAX_SAFE
  }

  /** The lists of a checkpoint hold what the adapters returned. */
  ghost predicate StagedFrom(h: Hashes, a: Adapters, b: Body) {
    && |b.staged| <= |b.corpus|
    && forall i :: 0 <= i < |b.staged| ==>
         && StageGood(h, a, b.migration_id, b.corpus, i)
         && b.staged[i].projects == ProjectsOf(h, a, b.migration_id, b.corpus, i)
         && b.staged[i].reconciliation == a.stage(Key(h, b.migration_id, Staging, b.corpus, i)).value.reconciliation
  }

  ghost predicate VerifiedFrom(h: Hashes, a: Adapters, b: Body) {
    && |b.verified| <= |b.corpus|
    && forall i :: 0 <= i < |b.verified| ==> VerifyGood(h, a, b.migration_id, b.corpus, i)
  }

  ghost predicate Bound(h: Hashes, a: Adapters, b: Body) {
    StagedFrom(h, a, b) && VerifiedFrom(h, a, b)
  }

  ghost predicate Kept(h: Hashes, a: Adapters, c: Checkpoint, b: Body) {
    Sound(h, b) && Bound(h, a, b) && b.revision == c.body.revision + 1 && b.previous == Some(c.digest)
    && b.migration_id == c.body.migration_id && b.corpus == c.body.corpus
  }

  lemma SnapshotSourceKeeps(h: Hashes, a: Adapters, now: Millis, c: Checkpoint)
    requires Reachable(h, c) && Bound(h, a, c.body) && c.body.phase.Snapshotting? && c.body.next < |c.body.corpus|
    ensures SnapshotBody(h, now, c).Ok? && Kept(h, a, c, SnapshotBody(h, now, c).value)
  {
  }

  lemma SnapshotCommitKeeps(h: Hashes, a: Adapters, now: Millis, c: Checkpoint)
    requires Reachable(h, c) && Bound(h, a, c.body) && c.body.phase.Snapshotting? && c.body.next == |c.body.corpus|
    ensures SnapshotBody(h, now, c).Ok? <==> CanonicalTime(now)
    ensures SnapshotBody(h, now, c).Ok? ==> Kept(h, a, c, SnapshotBody(h, now, c).value)
  {
  }

  lemma StageSourceKeeps(h: Hashes, a: Adapters, now: Millis, c: Checkpoint)
    requires Reachable(h, c) && Bound(h, a, c.body) && c.body.phase.Staging? && c.body.next < |c.body.corpus|
    ensures StageBody(h, a, now, c).Ok? <==> StageGood(h, a, c.body.migration_id, c.body.corpus, c.body.next)
    ensures StageBody(h, a, now, c).Ok? ==> Kept(h, a, c, StageBody(h, a, now, c).value)
  {
    hide CanonicalProjects, MergeProjects, Aggregate, TotalRecords;
    var b := c.body;
    if StageBody(h, a, now, c).Ok? {
      var next := StageBody(h, a, now, c).value;
      forall i | 0 <= i < |next.staged| ensures StagedItem(h, next, i) {
        assert i < |b.staged| ==> StagedItem(h, b, i);
      }
    }
  }

  lemma StageCommitKeeps(h: Hashes, a: Adapters, now: Millis, c: Checkpoint)
    requires Reachable(h, c) && Bound(h, a, c.body) && c.body.phase.Staging? && c.body.next == |c.body.corpus|
    ensures StageBody(h, a, now, c).Ok? <==> AllCompatible(c.body.staged) && CanonicalTime(now)
    ensures StageBody(h, a, now, c).Ok? ==> Kept(h, a, c, StageBody(h, a, now, c).value)
  {
    hide CanonicalProjects, MergeProjects, Aggregate, TotalRecords, AllCompatible;
    MergeExactly(c.body.staged);
    if StageBody(h, a, now, c).Ok? {
      var next := StageBody(h, a, now, c).value;
      forall i | 0 <= i < |next.staged| ensures StagedItem(h, next, i) {
        assert StagedItem(h, c.body, i);
      }
    }
  }

  lemma VerifySourceKeeps(h: Hashes, a: Adapters, now: Millis, c: Checkpoint)
    requires Reachable(h, c) && Bound(h, a, c.body) && c.body.phase.Verifying? && c.body.next < |c.body.corpus|
    ensures VerifyBody(h, a, now, c).Ok? <==> VerifyGood(h, a, c.body.migration_id, c.body.corpus, c.body.next)
    ensures VerifyBody(h, a, now, c).Ok? ==> Kept(h, a, c, VerifyBody(h, a, now, c).value)
  {
    hide CanonicalProjects, MergeProjects, Aggregate, TotalRecords;
    var b := c.body;
    assert StagedItem(h, b, b.next);
    if VerifyBody(h, a, now, c).Ok? {
      var next := VerifyBody(h, a, now, c).value;
      forall i | 0 <= i < |next.staged| ensures StagedItem(h, next, i) {
        assert StagedItem(h, b, i);
      }
      forall i | 0 <= i < |next.verified| ensures VerifiedItem(h, next, i) {
        assert i < |b.verified| ==> VerifiedItem(h, b, i);
      }
    }
  }

  lemma VerifyCommitKeeps(h: Hashes, a: Adapters, now: Millis, c: Checkpoint)
    requires Reachable(h, c) && Bound(h, a, c.body) && c.body.phase.Verifying? && c.body.next == |c.body.corpus|
    ensures VerifyBody(h, a, now, c).Ok? <==> TotalRecords(c.body.corpus) <= MAX_SAFE && CanonicalTime(now)
    ensures VerifyBody(h, a, now, c).Ok? ==> Kept(h, a, c, VerifyBody(h, a, now, c).value)
  {
    hide CanonicalProjects, MergeProjects, Aggregate, TotalRecords, Conserves;
    TerminalTotals(h, c.body);
    if VerifyBody(h, a, now, c).Ok? {
      var next := VerifyBody(h, a, now, c).value;
      forall i | 0 <= i < |next.staged| ensures StagedItem(h, next, i) {
        assert StagedItem(h, c.body, i);
      }
      forall i | 0 <= i < |next.verified| ensures VerifiedItem(h, next, i) {
        assert VerifiedItem(h, c.body, i);
      }
    }
  }

  // ---------- One step ----------

  /** What a step needs from outside. */
  ghost predicate CanStep(h: Hashes, a: Adapters, now: Millis, b: Body)
    requires b.next <= |b.corpus|
  {
    match b.phase
    case Snapshotting => b.next < |b.corpus| || CanonicalTime(now)
    case Staging =>
      if b.next < |b.corpus| then StageGood(h, a, b.migration_id, b.corpus, b.next)
      else AllCompatible(b.staged) && CanonicalTime(now)
    case Verifying =>
      if b.next < |b.corpus| then VerifyGood(h, a, b.migration_id, b.corpus, b.next)
      else TotalRecords(b.corpus) <= MAX_SAFE && CanonicalTime(now)
    case Complete => false
  }

  /**
   From a reachable checkpoint a step succeeds exactly when the outside delivers what it needs: no step
   builds a checkpoint its own validator refuses. The next checkpoint is reachable and one revision on.
   */
  lemma StepExactly(h: Hashes, a: Adapters, now: Millis, c: Checkpoint)
    requires Reachable(h, c) && Bound(h, a, c.body) && c.body.next <= |c.body.corpus|
    ensures Acceptable(h, c)
    ensures Step(h, a, now, c).Ok? <==> CanStep(h, a, now, c.body)
    ensures Step(h, a, now, c).Ok? ==>
      Reachable(h, Step(h, a, now, c).value) && Kept(h, a, c, Step(h, a, now, c).value.body)
  {
    hide SnapshotBody, StageBody, VerifyBody, Bound, StageGood, VerifyGood, AllCompatible, TotalRecords, OnlyThisPhase;
    hide ValidCorpus, ReceiptValid, SnapshotPrefix, StagedPrefix, VerifiedPrefix, EvidenceBound;
    if c.body.phase.Snapshotting? {
      if c.body.next < |c.body.corpus| {
        SnapshotSourceKeeps(h, a, now, c);
      } else {
        SnapshotCommitKeeps(h, a, now, c);
      }
    } else if c.body.phase.Staging? {
      if c.body.next < |c.body.corpus| {
        StageSourceKeeps(h, a, now, c);
      } else {
        StageCommitKeeps(h, a, now, c);
      }
    } else if c.body.phase.Verifying? {
      if c.body.next < |c.body.corpus| {
        VerifySourceKeeps(h, a, now, c);
      } else {
        VerifyCommitKeeps(h, a, now, c);
      }
    }
  }

  lemma StagedCompatible(h: Hashes, a: Adapters, b: Body)
    requires StagedFrom(h, a, b) && |b.staged| == |b.corpus| && AllStage(h, a, b.migration_id, b.corpus)
    ensures AllCompatible(b.staged) <==> NoConflict(h, a, b.migration_id, b.corpus)
  {
    hide StageGood, ProjectsOf, Compatible;
    if AllCompatible(b.staged) {
      forall i, j | 0 <= i < |b.corpus| && 0 <= j < |b.corpus|
        ensures Compatible(ProjectsOf(h, a, b.migration_id, b.corpus, i), ProjectsOf(h, a, b.migration_id, b.corpus, j))
      {
        assert Compatible(b.staged[i].projects, b.staged[j].projects);
      }
    }
    if NoConflict(h, a, b.migration_id, b.corpus) {
      forall i, j | 0 <= i < |b.corpus|
        && 0 <= j < |b.corpus| ensures Compatible(b.staged[i].projects, b.staged[j].projects) {
        assert Compatible(ProjectsOf(h, a, b.migration_id, b.corpus, i), ProjectsOf(h, a, b.migration_id, b.corpus, j));
      }
    }
  }

  /** A completable migration can always take its next step. */
  lemma CompletableCanStep(h: Hashes, a: Adapters, now: Millis, b: Body)
    requires Completable(h, a, b.migration_id, b.corpus) && Sound(h, b) && Bound(h, a, b)
    requires CanonicalTime(now) && !b.phase.Complete?
    ensures b.next <= |b.corpus| && CanStep(h, a, now, b)
  {
    hide StageGood, VerifyGood, NoConflict, AllCompatible, TotalRecords;
    if b.phase.Staging? && b.next == |b.corpus| {
      StagedCompatible(h, a, b);
    }
  }

  /** The terminal receipt's totals add up to the records of the corpus. */
  predicate AccountsForEveryRecord(b: Body) {
    && b.phase.Complete? && b.receipt.evidence.Verified?
    && (var r := b.receipt.evidence.reconciliation;
        && r.source == TotalRecords(b.corpus)
        && r.imported + r.quarantined + r.unresolved == TotalRecords(b.corpus))
  }

  /** And a complete one was completable: the terminal receipt accounts for every record of the corpus. */
  lemma CompleteWasCompletable(h: Hashes, a: Adapters, b: Body)
    requires Sound(h, b) && Bound(h, a, b) && b.phase.Complete?
    ensures Completable(h, a, b.migration_id, b.corpus)
    ensures b.revision == 3 * |b.corpus| + 4
    ensures AccountsForEveryRecord(b) && UnionOf(b.receipt.evidence.staged_projects, b.staged)
  {
    hide StageGood, VerifyGood, NoConflict, UnionOf, AllCompatible, TotalRecords, Aggregate;
    MergeExactly(b.staged);
    TerminalTotals(h, b);
    StagedCompatible(h, a, b);
  }

  // ---------- Bodies made to measure ----------

  /** What each source of a corpus came to. */
  type Outcomes = seq<Reconciliation>

  predicate AllConserved(corpus: Corpus, outcomes: Outcomes) {
    |outcomes| == |corpus| && forall i :: 0 <= i < |corpus| ==> Conserves(outcomes[i], corpus[i].record_count)
  }

  function Snapshots(corpus: Corpus): seq<SnapshotReceipt> {
    seq(|corpus|, i requires 0 <= i < |corpus| => SnapshotReceipt(corpus[i].source_ref, corpus[i].source_digest))
  }

  /** Receipts of sources staged without any project. */
  function StagedReceipts(h: Hashes, id: string, corpus: Corpus, outcomes: Outcomes): seq<StagedReceipt>
    requires |outcomes| == |corpus|
  {
    seq(|corpus|, i requires 0 <= i < |corpus| =>
      StagedReceipt(corpus[i].source_ref, corpus[i].source_digest, Key(h, id, Staging, corpus, i), map[], outcomes[i]))
  }

  function VerifiedReceipts(h: Hashes, id: string, corpus: Corpus, outcomes: Outcomes): seq<VerifiedReceipt>
    requires |outcomes| == |corpus|
  {
    seq(|corpus|, i requires 0 <= i < |corpus| =>
      VerifiedReceipt(corpus[i].source_ref, corpus[i].source_digest, Key(h, id, Verifying, corpus, i), outcomes[i]))
  }

  /** Everything has been snapshotted and staged, and nothing or everything verified. */
  ghost predicate Filled(h: Hashes, b: Body, outcomes: Outcomes) {
    && AllConserved(b.corpus, outcomes)
    && b.snapshot == Snapshots(b.corpus)
    && b.staged == StagedReceipts(h, b.migration_id, b.corpus, outcomes)
    && (b.verified == [] || b.verified == VerifiedReceipts(h, b.migration_id, b.corpus, outcomes))
  }

  lemma FilledIsPrefix(h: Hashes, b: Body, outcomes: Outcomes)
    requires Filled(h, b, outcomes)
    ensures |b.snapshot| == |b.staged| == |b.corpus| && (b.verified == [] || |b.verified| == |b.corpus|)
    ensures SnapshotPrefix(b) && StagedPrefix(h, b) && VerifiedPrefix(h, b)
    ensures forall i :: 0 <= i < |b.staged| ==> b.staged[i].projects == map[]
  {
    hide Conserves, Key;
    forall i | 0 <= i < |b.staged| ensures StagedItem(h, b, i) {
      assert Conserves(outcomes[i], b.corpus[i].record_count);
    }
    forall i | 0 <= i < |b.verified| ensures VerifiedItem(h, b, i) {
      assert Conserves(outcomes[i], b.corpus[i].record_count);
    }
  }

  lemma {:induction false} MergesNothing(staged: seq<StagedReceipt>)
    requires forall i :: 0 <= i < |staged| ==> staged[i].projects == map[]
    ensures MergeProjects(staged) == Some(map[])
  {
    if staged != [] {
      MergesNothing(staged[..|staged| - 1]);
    }
  }

  /** Such a body is accepted if its receipt, its cursor and its evidence are in order. */
  lemma FilledIsAccepted(h: Hashes, b: Body, outcomes: Outcomes)
    requires Filled(h, b, outcomes) && ValidCorpus(b.corpus) && b.revision > 0
    requires ReceiptValid(b.receipt) && b.receipt.migration_id == b.migration_id && b.receipt.corpus == b.corpus
    requires CursorValid(b) && !b.receipt.evidence.Verified?
    requires !b.receipt.evidence.Preview? ==>
      b.receipt.evidence.snapshot_digest == h.snapshot(b.migration_id, b.corpus, b.snapshot)
    requires b.receipt.evidence.Staged? ==> b.receipt.evidence.staged_projects == map[]
    ensures BodyAcceptable(h, b)
  {
    hide Filled, ValidCorpus, ReceiptValid, CursorValid, SnapshotPrefix, StagedPrefix, VerifiedPrefix, MergeProjects;
    FilledIsPrefix(h, b, outcomes);
    MergesNothing(b.staged);
  }

  // ---------- A corpus that cannot be completed ----------

  /** Two sources of 2^53 - 1 records each. */
  const OVERSIZED: Corpus := [Source("a", "da", MAX_SAFE), Source("b", "db", MAX_SAFE)]

  /** Every record of such a source imported. */
  const ALL_IMPORTED := Reconciliation(MAX_SAFE, MAX_SAFE, 0, 0)

  /** Everything snapshotted, staged and verified; only the terminal commit is missing. */
  function Oversized(h: Hashes): Body {
    var snapshot, outcomes := Snapshots(OVERSIZED), [ALL_IMPORTED, ALL_IMPORTED];
    Body("m", OVERSIZED, Receipt("m", OVERSIZED, 0, Staged(h.snapshot("m", OVERSIZED, snapshot), map[])), Verifying, 2,
         snapshot, StagedReceipts(h, "m", OVERSIZED, outcomes), VerifiedReceipts(h, "m", OVERSIZED, outcomes), 9, None)
  }

  /** The adapters that deliver just that. */
  function Importers(): Adapters {
    Adapters(_ => Some(StageResult([], ALL_IMPORTED)), _ => Some(ALL_IMPORTED))
  }

  lemma OversizedIsFilled(h: Hashes)
    ensures Filled(h, Oversized(h), [ALL_IMPORTED, ALL_IMPORTED]) && ValidCorpus(OVERSIZED)
  {
    hide Snapshots, StagedReceipts, VerifiedReceipts, Key;
    assert Conserves(ALL_IMPORTED, MAX_SAFE);
  }

  lemma OversizedIsSound(h: Hashes)
    ensures Sound(h, Oversized(h))
  {
    var b := Oversized(h);
    OversizedIsFilled(h);
    hide Filled, ValidCorpus, Conserves, BodyAcceptable;
    FilledIsPrefix(h, b, [ALL_IMPORTED, ALL_IMPORTED]);
    FilledIsAccepted(h, b, [ALL_IMPORTED, ALL_IMPORTED]);
  }

  lemma ImportersAgree(h: Hashes, b: Body, outcomes: Outcomes)
    requires Filled(h, b, outcomes) && forall i :: 0 <= i < |outcomes| ==> outcomes[i] == ALL_IMPORTED
    ensures Bound(h, Importers(), b)
  {
    hide Conserves, Key;
    forall i | 0 <= i < |b.staged| ensures StageGood(h, Importers(), b.migration_id, b.corpus, i) {
      assert Conserves(outcomes[i], b.corpus[i].record_count);
    }
  }

  lemma OversizedTotals()
    ensures TotalRecords(OVERSIZED) == 2 * MAX_SAFE > MAX_SAFE
  {
    assert OVERSIZED[..1] == [Source("a", "da", MAX_SAFE)] && OVERSIZED[..1][..0] == [];
    assert TotalRecords(OVERSIZED[..1]) == MAX_SAFE;
  }

  lemma OversizedCannotStep(h: Hashes, now: Millis)
    ensures var b := Oversized(h);
      b.phase.Verifying? && b.next == |b.corpus| && !CanStep(h, Importers(), now, b)
  {
    OversizedTotals();
    hide TotalRecords, StageGood, VerifyGood, Importers, Snapshots, StagedReceipts, VerifiedReceipts;
  }

  /** Each source is a valid count and is imported in full, and the terminal commit is refused at any time. */
  lemma OversizedIsRefused(h: Hashes, now: Millis)
    ensures var c := Checkpoint(Oversized(h), h.sign(Oversized(h)));
      Acceptable(h, c) && Reachable(h, c) && Bound(h, Importers(), c.body) && Step(h, Importers(), now, c).Err?
  {
    hide Oversized, Importers, Filled, Sound, Bound, Step, CanStep, BodyAcceptable, TotalRecords;
    OversizedIsFilled(h);
    OversizedIsSound(h);
    OversizedCannotStep(h, now);
    ImportersAgree(h, Oversized(h), [ALL_IMPORTED, ALL_IMPORTED]);
    StepExactly(h, Importers(), now, Checkpoint(Oversized(h), h.sign(Oversized(h))));
  }
}
