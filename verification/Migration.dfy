/**
 A shadow migration over a corpus of sources: its checkpoints, the validator every checkpoint passes
 before it is written and after it is read, and the three kinds of step that produce the next one.
 */
module Migration {
  import opened Wrappers
  import opened ProjectTypes

  /** Number.MAX_SAFE_INTEGER */
  const MAX_SAFE: int := 0x1F_FFFF_FFFF_FFFF

  datatype Source = Source(source_ref: string, source_digest: Digest, record_count: int)

  /** Sorted by reference; its totals and digest are recomputed from it. */
  type Corpus = seq<Source>

  datatype ProjectRef = ProjectRef(
    project_id: Id, projection_version: string, source_high_watermark: Option<Digest>, source_digest: Digest)

  /** A canonical project list: sorted by project and without repetition. */
  type Projects = map<Id, ProjectRef>

  datatype Reconciliation = Reconciliation(source: int, imported: int, quarantined: int, unresolved: int)

  datatype Evidence =
    | Preview
    | SnapshotVerified(snapshot_digest: Digest)
    | Staged(snapshot_digest: Digest, staged_projects: Projects)
    | Verified(snapshot_digest: Digest, staged_projects: Projects, reconciliation: Reconciliation)

  datatype Receipt = Receipt(migration_id: string, corpus: Corpus, issued_at: Millis, evidence: Evidence)

  datatype Phase = Snapshotting | Staging | Verifying | Complete

  datatype SnapshotReceipt = SnapshotReceipt(source_ref: string, source_digest: Digest)
  datatype StagedReceipt = StagedReceipt(
    source_ref: string, source_digest: Digest, idempotency_key: Digest, projects: Projects,
      reconciliation: Reconciliation)
  datatype VerifiedReceipt = VerifiedReceipt(
    source_ref: string, source_digest: Digest, idempotency_key: Digest, reconciliation: Reconciliation)

  datatype Body = Body(
    migration_id: string, corpus: Corpus, receipt: Receipt, phase: Phase, next: nat,
    snapshot: seq<SnapshotReceipt>, staged: seq<StagedReceipt>, verified: seq<VerifiedReceipt>,
    revision: nat, previous: Option<Digest>)

  datatype Checkpoint = Checkpoint(body: Body, digest: Digest)

  datatype KeyInput = KeyInput(migration_id: string, phase: Phase, index: nat, source_ref: string,
    source_digest: Digest)

  /** Digests of canonical JSON, uninterpreted. */
  datatype Hashes = Hashes(
    key: KeyInput -> Digest, snapshot: (string, Corpus, seq<SnapshotReceipt>) -> Digest, sign: Body -> Digest)

  datatype StageResult = StageResult(projects: seq<ProjectRef>, reconciliation: Reconciliation)

  /** What the adapters return for an idempotency key; none when they throw. */
  datatype Adapters = Adapters(stage: Digest -> Option<StageResult>, verify: Digest -> Option<Reconciliation>)

  datatype Failure = SourceChanged | AdapterFailed | InvalidContract | Finished

  // ---------- Validation ----------

  predicate Count(n: int) {
    0 <= n <= MAX_SAFE
  }

  predicate ValidCorpus(c: Corpus) {
    && c != []
    && (forall i :: 0 <= i < |c| ==> Count(c[i].record_count))
    && (forall i, j :: 0 <= i < j < |c| ==> c[i].source_ref != c[j].source_ref)
  }

  function TotalRecords(c: Corpus): (total: int)
    ensures (forall i :: 0 <= i < |c| ==> Count(c[i].record_count)) ==> total >= 0
  {
    if c == [] then 0 else TotalRecords(c[..|c| - 1]) + c[|c| - 1].record_count
  }

  predicate Conserves(r: Reconciliation, expected: int) {
    && Count(r.source) && Count(r.imported) && Count(r.quarantined) && Count(r.unresolved)
    && r.source == expected
    && r.imported + r.quarantined + r.unresolved == r.source
  }

  function Plus(a: Reconciliation, b: Reconciliation): Reconciliation {
    Reconciliation(a.source + b.source, a.imported + b.imported, a.quarantined + b.quarantined,
      a.unresolved + b.unresolved)
  }

  function Aggregate(verified: seq<VerifiedReceipt>): Reconciliation {
    if verified == [] then Reconciliation(0, 0, 0, 0)
    else Plus(Aggregate(verified[..|verified| - 1]), verified[|verified| - 1].reconciliation)
  }

  /** A project list from an adapter, refused when a project occurs twice. */
  function CanonicalProjects(input: seq<ProjectRef>): Option<Projects> {
    if input == [] then Some(map[])
    else
      var front := CanonicalProjects(input[..|input| - 1]);
      var last := input[|input| - 1];
      if front.None? || last.project_id in front.value then None
      else Some(front.value[last.project_id := last])
  }

  predicate Compatible(a: Projects, b: Projects) {
    forall p :: p in a && p in b ==> a[p] == b[p]
  }

  /** The union of what the sources staged, refused when two of them disagree about a project. */
  function MergeProjects(staged: seq<StagedReceipt>): Option<Projects> {
    if staged == [] then Some(map[])
    else
      var front := MergeProjects(staged[..|staged| - 1]);
      var last := staged[|staged| - 1].projects;
      if front.None? || !Compatible(front.value, last) then None else Some(front.value + last)
  }

  /** The check for repeated projects, with the set of those already seen. */
  method FreezeProjects(input: seq<ProjectRef>) returns (frozen: Option<Projects>)
    ensures frozen == CanonicalProjects(input)
  {
    var seen: set<Id> := {};
    var projects: Projects := map[];
    for i := 0 to |input|
      invariant CanonicalProjects(input[..i]) == Some(projects) && seen == projects.Keys
    {
      assert input[..i + 1][..i] == input[..i];
      var project := input[i];
      if project.project_id in seen {
        RefusedProjects(input, i + 1);
        return None;
      }
      seen := seen + {project.project_id};
      projects := projects[project.project_id := project];
    }
    assert input[..|input|] == input;
    return Some(projects);
  }

  lemma {:induction false} RefusedProjects(input: seq<ProjectRef>, k: nat)
    requires k <= |input| && CanonicalProjects(input[..k]).None?
    ensures CanonicalProjects(input).None?
  {
    if k < |input| {
      assert input[..|input| - 1][..k] == input[..k];
      RefusedProjects(input[..|input| - 1], k);
    } else {
      assert input[..k] == input;
    }
  }

  /** The loop over the staged sources, gathering their projects. */
  method MergeStaged(staged: seq<StagedReceipt>) returns (merged: Option<Projects>)
    ensures merged == MergeProjects(staged)
  {
    var projects: Projects := map[];
    for i := 0 to |staged|
      invariant MergeProjects(staged[..i]) == Some(projects)
    {
      assert staged[..i + 1][..i] == staged[..i];
      if !Compatible(projects, staged[i].projects) {
        RefusedMerge(staged, i + 1);
        return None;
      }
      projects := projects + staged[i].projects;
    }
    assert staged[..|staged|] == staged;
    return Some(projects);
  }

  lemma {:induction false} RefusedMerge(staged: seq<StagedReceipt>, k: nat)
    requires k <= |staged| && MergeProjects(staged[..k]).None?
    ensures MergeProjects(staged).None?
  {
    if k < |staged| {
      assert staged[..|staged| - 1][..k] == staged[..k];
      RefusedMerge(staged[..|staged| - 1], k);
    } else {
      assert staged[..k] == staged;
    }
  }

  function Key(h: Hashes, id: string, phase: Phase, c: Corpus, index: nat): Digest
    requires index < |c|
  {
    h.key(KeyInput(id, phase, index, c[index].source_ref, c[index].source_digest))
  }

  predicate ReceiptValid(r: Receipt) {
    && CanonicalTime(r.issued_at)
    && (r.evidence.Verified? ==> Conserves(r.evidence.reconciliation, TotalRecords(r.corpus)))
  }

  predicate SnapshotPrefix(b: Body) {
    && |b.snapshot| <= |b.corpus|
    && forall i :: 0 <= i < |b.snapshot| ==>
      b.snapshot[i] == SnapshotReceipt(b.corpus[i].source_ref, b.corpus[i].source_digest)
  }

  predicate StagedItem(h: Hashes, b: Body, i: nat)
    requires i < |b.staged| && i < |b.corpus|
  {
    var s := b.staged[i];
    && s.source_ref == b.corpus[i].source_ref && s.source_digest == b.corpus[i].source_digest
    && s.idempotency_key == Key(h, b.migration_id, Staging, b.corpus, i)
    && Conserves(s.reconciliation, b.corpus[i].record_count)
  }

  predicate StagedPrefix(h: Hashes, b: Body) {
    |b.staged| <= |b.corpus| && forall i :: 0 <= i < |b.staged| ==> StagedItem(h, b, i)
  }

  predicate VerifiedItem(h: Hashes, b: Body, i: nat)
    requires i < |b.verified| && i < |b.staged| && i < |b.corpus|
  {
    var v := b.verified[i];
    && v.source_ref == b.corpus[i].source_ref && v.source_digest == b.corpus[i].source_digest
    && v.idempotency_key == Key(h, b.migration_id, Verifying, b.corpus, i)
    && Conserves(v.reconciliation, b.corpus[i].record_count)
    && v.reconciliation == b.staged[i].reconciliation
  }

  predicate VerifiedPrefix(h: Hashes, b: Body)
    requires StagedPrefix(h, b)
  {
    |b.verified| <= |b.staged| && forall i :: 0 <= i < |b.verified| ==> VerifiedItem(h, b, i)
  }

  function PhaseFor(e: Evidence): Phase {
    match e
    case Preview => Snapshotting
    case SnapshotVerified(_) => Staging
    case Staged(_, _) => Verifying
    case Verified(_, _, _) => Complete
  }

  predicate CursorValid(b: Body) {
    && b.phase == PhaseFor(b.receipt.evidence)
    && b.next == (match b.phase
        case Snapshotting => |b.snapshot|
        case Staging => |b.staged|
        case Verifying => |b.verified|
        case Complete => |b.corpus|)
    && (!b.phase.Snapshotting? ==> |b.snapshot| == |b.corpus|)
    && (b.phase.Verifying? || b.phase.Complete? ==> |b.staged| == |b.corpus|)
    && (b.phase.Complete? ==> |b.verified| == |b.corpus|)
  }

  predicate EvidenceBound(h: Hashes, b: Body) {
    var e := b.receipt.evidence;
    && (!e.Preview? ==> e.snapshot_digest == h.snapshot(b.migration_id, b.corpus, b.snapshot))
    && (e.Staged? || e.Verified? ==> MergeProjects(b.staged) == Some(e.staged_projects))
    && (e.Verified? ==> e.reconciliation == Aggregate(b.verified))
  }

  predicate BodyAcceptable(h: Hashes, b: Body) {
    && ValidCorpus(b.corpus) && ReceiptValid(b.receipt)
    && b.receipt.migration_id == b.migration_id && b.receipt.corpus == b.corpus
    && b.revision > 0
    && SnapshotPrefix(b) && StagedPrefix(h, b) && VerifiedPrefix(h, b)
    && CursorValid(b) && EvidenceBound(h, b)
  }

  /** The validator run on every checkpoint, written or read. */
  predicate Acceptable(h: Hashes, c: Checkpoint) {
    c.digest == h.sign(c.body) && BodyAcceptable(h, c.body)
  }

  /** Signing refuses what the validator would refuse. */
  function Signed(h: Hashes, b: Body): Result<Checkpoint, Failure> {
    if BodyAcceptable(h, b) then Ok(Checkpoint(b, h.sign(b))) else Err(InvalidContract)
  }

  // ---------- Steps ----------

  function InitialBody(id: string, corpus: Corpus, now: Millis): Body {
    Body(id, corpus, Receipt(id, corpus, now, Preview), Snapshotting, 0, [], [], [], 1, None)
  }

  function Follow(c: Checkpoint, b: Body): Body {
    b.(revision := c.body.revision + 1, previous := Some(c.digest))
  }

  /** The next receipt; its own construction is what refuses a bad clock or totals that are not conserved. */
  function Advance(r: Receipt, now: Millis, e: Evidence): Option<Receipt> {
    var next := r.(issued_at := now, evidence := e);
    if ReceiptValid(next) then Some(next) else None
  }

  function SnapshotBody(h: Hashes, now: Millis, c: Checkpoint): Result<Body, Failure>
    requires c.body.next <= |c.body.corpus|
  {
    var b := c.body;
    if b.next < |b.corpus| then
      var source := b.corpus[b.next];
      Ok(Follow(c, b.(phase := Snapshotting, next := b.next + 1,
        snapshot := b.snapshot + [SnapshotReceipt(source.source_ref, source.source_digest)])))
    else
      match Advance(b.receipt, now, SnapshotVerified(h.snapshot(b.migration_id, b.corpus, b.snapshot)))
      case None => Err(InvalidContract)
      case Some(receipt) => Ok(Follow(c, b.(receipt := receipt, phase := Staging, next := 0)))
  }

  function StageBody(h: Hashes, a: Adapters, now: Millis, c: Checkpoint): Result<Body, Failure>
    requires c.body.next <= |c.body.corpus| && c.body.phase.Staging? && c.body.receipt.evidence.SnapshotVerified?
  {
    var b := c.body;
    if b.next < |b.corpus| then
      var source := b.corpus[b.next];
      var key := Key(h, b.migration_id, Staging, b.corpus, b.next);
      match a.stage(key)
      case None => Err(AdapterFailed)
      case Some(result) =>
        var projects := CanonicalProjects(result.projects);
        if !Conserves(result.reconciliation, source.record_count) || projects.None? then Err(InvalidContract)
        else Ok(Follow(c, b.(next := b.next + 1, staged := b.staged +
          [StagedReceipt(source.source_ref, source.source_digest, key, projects.value, result.reconciliation)])))
    else
      match MergeProjects(b.staged)
      case None => Err(InvalidContract)
      case Some(projects) =>
        match Advance(b.receipt, now, Staged(b.receipt.evidence.snapshot_digest, projects))
        case None => Err(InvalidContract)
        case Some(receipt) => Ok(Follow(c, b.(receipt := receipt, phase := Verifying, next := 0)))
  }

  function VerifyBody(h: Hashes, a: Adapters, now: Millis, c: Checkpoint): Result<Body, Failure>
    requires c.body.next <= |c.body.corpus| && c.body.phase.Verifying? && c.body.receipt.evidence.Staged?
    requires |c.body.staged| == |c.body.corpus|
  {
    var b := c.body;
    if b.next < |b.corpus| then
      var source := b.corpus[b.next];
      var key := Key(h, b.migration_id, Verifying, b.corpus, b.next);
      match a.verify(key)
      case None => Err(AdapterFailed)
      case Some(r) =>
        if !Conserves(r, source.record_count) || r != b.staged[b.next].reconciliation then Err(InvalidContract)
        else Ok(Follow(c, b.(next := b.next + 1, verified := b.verified +
          [VerifiedReceipt(source.source_ref, source.source_digest, key, r)])))
    else
      var e := b.receipt.evidence;
      match Advance(b.receipt, now, Verified(e.snapshot_digest, e.staged_projects, Aggregate(b.verified)))
      case None => Err(InvalidContract)
      case Some(receipt) => Ok(Follow(c, b.(receipt := receipt, phase := Complete, next := |b.corpus|)))
  }

  lemma AcceptableShape(h: Hashes, c: Checkpoint)
    requires Acceptable(h, c)
    ensures c.body.next <= |c.body.corpus|
    ensures c.body.phase.Staging? ==> c.body.receipt.evidence.SnapshotVerified?
    ensures c.body.phase.Verifying? ==> c.body.receipt.evidence.Staged? && |c.body.staged| == |c.body.corpus|
  {
  }

  /** One pass of the executor's loop while the corpus is observed unchanged. */
  function Step(h: Hashes, a: Adapters, now: Millis, c: Checkpoint): Result<Checkpoint, Failure>
    requires Acceptable(h, c)
  {
    AcceptableShape(h, c);
    var body :=
      match c.body.phase
      case Snapshotting => SnapshotBody(h, now, c)
      case Staging => StageBody(h, a, now, c)
      case Verifying => VerifyBody(h, a, now, c)
      case Complete => Err(Finished);
    match body
    case Err(e) => Err(e)
    case Ok(b) => Signed(h, b)
  }

  function Begin(h: Hashes, id: string, corpus: Corpus, now: Millis): Result<Checkpoint, Failure> {
    Signed(h, InitialBody(id, corpus, now))
  }
}
