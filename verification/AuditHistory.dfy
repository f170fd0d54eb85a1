/**
 The identity edits that record their changes, and reading earlier passports back out of
 the audit log by undoing recorded changes from the tip.
 */
module AuditHistory {
  import opened Wrappers
  import opened CommandMarker
  import opened PassportModel
  import opened PassportCommit
  import opened PassportRuns

  datatype ProjectInput = ProjectInput(id: string, root: string, role: string, current_focus: string, space: string,
    view: string)

  datatype Edit =
    | SessionEdit(requested: seq<LearnedBlock>, now: string)
    | ProjectEdit(input: ProjectInput, now: string)

  // ---------- Recording a session ----------

  function Patterns(blocks: seq<LearnedBlock>): set<string> {
    set b | b in blocks :: b.pattern
  }

  /** The requested blocks whose pattern is not known yet and was not requested earlier. */
  function FreshBlocks(known: set<string>, requested: seq<LearnedBlock>): seq<LearnedBlock>
    decreases |requested|
  {
    if requested == [] then []
    else if requested[0].pattern in known then FreshBlocks(known, requested[1..])
    else [requested[0]] + FreshBlocks(known + {requested[0].pattern}, requested[1..])
  }

  /** No pattern is ever learned twice, and every requested pattern ends up known. */
  lemma {:induction false} FreshBlocksExtend(known: set<string>, requested: seq<LearnedBlock>)
    ensures Patterns(FreshBlocks(known, requested)) !! known
    ensures known + Patterns(FreshBlocks(known, requested)) == known + Patterns(requested)
    ensures var added := FreshBlocks(known, requested);
            forall i, j :: 0 <= i < j < |added| ==> added[i].pattern != added[j].pattern
    decreases |requested|
  {
    if requested != [] {
      var first, rest := requested[0], requested[1..];
      assert Patterns(requested) == {first.pattern} + Patterns(rest) by {
        assert requested == [first] + rest;
      }
      if first.pattern in known {
        FreshBlocksExtend(known, rest);
      } else {
        var wider := known + {first.pattern};
        FreshBlocksExtend(wider, rest);
        var tail := FreshBlocks(wider, rest);
        assert Patterns([first] + tail) == {first.pattern} + Patterns(tail);
        forall j | 0 <= j < |tail| ensures tail[j].pattern != first.pattern {
          assert tail[j].pattern in Patterns(tail);
        }
      }
    }
  }

  lemma FreshBlocksSnoc(known: set<string>, requested: seq<LearnedBlock>, next: LearnedBlock)
    ensures FreshBlocks(known, requested + [next]) ==
            FreshBlocks(known, requested)
            + (if next.pattern in known + Patterns(FreshBlocks(known, requested)) then [] else [next])
    decreases |requested|
  {
    var all := requested + [next];
    if requested == [] {
      assert all[1..] == [];
    } else {
      assert all[1..] == requested[1..] + [next];
      var first := requested[0];
      if first.pattern in known {
        FreshBlocksSnoc(known, requested[1..], next);
      } else {
        var wider := known + {first.pattern};
        FreshBlocksSnoc(wider, requested[1..], next);
        var tail := FreshBlocks(wider, requested[1..]);
        assert known + Patterns([first] + tail) == wider + Patterns(tail);
      }
    }
  }

  // ---------- The passport after an edit, and the changes it records ----------

  function Chosen(text: string): Option<string> {
    if text == "" then None else Some(text)
  }

  function NewProject(input: ProjectInput, now: string): ActiveProject {
    ActiveProject(input.id, input.root, Chosen(input.role), Chosen(input.current_focus),
                  Chosen(input.space), Chosen(input.view), Some(now))
  }

  function Either<T>(next: Option<T>, existing: Option<T>): Option<T> {
    if next.Some? then next else existing
  }

  function Merge(existing: ActiveProject, next: ActiveProject): ActiveProject {
    ActiveProject(next.id, next.root, Either(next.role, existing.role),
      Either(next.current_focus, existing.current_focus),
                  Either(next.space, existing.space), Either(next.view, existing.view),
                  Either(next.last_seen_at, existing.last_seen_at))
  }

  function FirstWith(projects: seq<ActiveProject>, id: string): (r: Option<ActiveProject>)
    ensures r.Some? ==> r.value in projects && r.value.id == id
  {
    if projects == [] then None
    else if projects[0].id == id then Some(projects[0])
    else FirstWith(projects[1..], id)
  }

  function Upserted(projects: seq<ActiveProject>, next: ActiveProject): seq<ActiveProject> {
    match FirstWith(projects, next.id)
    case None => projects + [next]
    case Some(existing) =>
      seq(|projects|, i requires 0 <= i < |projects| =>
        if projects[i].id == next.id then Merge(existing, next) else projects[i])
  }

  /** An empty text does not survive a copy. */
  function Kept(text: Option<string>): Option<string> {
    if text == Some("") then None else text
  }

  function Touched(before: Option<ContinuityState>, now: string): ContinuityState {
    match before
    case None => ContinuityState(None, None, [], [], Some(now))
    case Some(c) => ContinuityState(Kept(c.current_focus), Kept(c.handoff), c.next_actions, c.open_threads, Some(now))
  }

  function AfterEdit(p: Passport, e: Edit): Passport {
    match e
    case SessionEdit(requested, now) =>
      var added := FreshBlocks(Patterns(p.learned_blocks), requested);
      p.(metadata := p.metadata.(session_count := p.metadata.session_count + 1, last_session_at := Some(now)),
         learned_blocks := p.learned_blocks + added)
    case ProjectEdit(input, now) =>
      p.(active_projects := Some(Upserted(p.active_projects.GetOr([]), NewProject(input, now))),
         continuity := Some(Touched(p.continuity, now)))
  }

  function EditChanges(p: Passport, e: Edit): PassportChanges {
    var after := AfterEdit(p, e);
    match e
    case SessionEdit(requested, now) =>
      NO_CHANGES.(session_count := Some(Change(p.metadata.session_count, after.metadata.session_count)),
                  last_session_at := Some(Change(p.metadata.last_session_at, Some(now))),
                  learned_blocks_added := FreshBlocks(Patterns(p.learned_blocks), requested))
    case ProjectEdit(input, now) =>
      NO_CHANGES.(active_projects := Some(Change(p.active_projects.GetOr([]), after.active_projects.value)),
                  continuity := Some(Change(p.continuity, after.continuity)))
  }

  /** An upsert leaves one project per id, keeps every other project in place, and holds the requested root. */
  lemma UpsertKeepsIdsDistinct(projects: seq<ActiveProject>, next: ActiveProject)
    requires forall i, j :: 0 <= i < j < |projects| ==> projects[i].id != projects[j].id
    ensures var r := Upserted(projects, next);
            && (forall i, j :: 0 <= i < j < |r| ==> r[i].id != r[j].id)
            && (forall i :: 0 <= i < |projects| && projects[i].id != next.id ==> r[i] == projects[i])
            && FirstWith(r, next.id).Some? && FirstWith(r, next.id).value.root == next.root
  {
    var r := Upserted(projects, next);
    if FirstWith(projects, next.id).Some? {
      var k :| 0 <= k < |projects| && projects[k] == FirstWith(projects, next.id).value;
      FirstWithIsAt(r, next.id, k);
    } else {
      forall i | 0 <= i < |projects| ensures projects[i].id != next.id {
        FirstWithFinds(projects, next.id, i);
      }
      FirstWithIsAt(r, next.id, |projects|);
    }
  }

  lemma {:induction false} FirstWithFinds(projects: seq<ActiveProject>, id: string, k: nat)
    requires k < |projects|
    ensures projects[k].id == id ==> FirstWith(projects, id).Some?
  {
    if k > 0 && projects[0].id != id {
      FirstWithFinds(projects[1..], id, k - 1);
    }
  }

  lemma {:induction false} FirstWithIsAt(projects: seq<ActiveProject>, id: string, k: nat)
    requires k < |projects| && projects[k].id == id
    requires forall i :: 0 <= i < |projects| && i != k ==> projects[i].id != id
    ensures FirstWith(projects, id) == Some(projects[k])
  {
    if k > 0 {
      FirstWithIsAt(projects[1..], id, k - 1);
    }
  }

  // ---------- What an edit leaves, field by field ----------

  predicate FirstRequested(requested: seq<LearnedBlock>, b: LearnedBlock) {
    exists k :: 0 <= k < |requested| && requested[k] == b && forall j :: 0 <= j < k ==>
      requested[j].pattern != b.pattern
  }

  lemma FirstOrLater(requested: seq<LearnedBlock>, b: LearnedBlock)
    requires requested != []
    ensures FirstRequested(requested, b) <==>
              requested[0] == b || (requested[0].pattern != b.pattern && FirstRequested(requested[1..], b))
  {
    var rest := requested[1..];
    if FirstRequested(requested, b) && requested[0] != b {
      var k :| 0 <= k < |requested| && requested[k] == b && forall j :: 0 <= j < k ==>
        requested[j].pattern != b.pattern;
      assert rest[k - 1] == b && forall j :: 0 <= j < k - 1 ==> rest[j] == requested[j + 1];
    }
    if FirstRequested(rest, b) && requested[0].pattern != b.pattern {
      var k :| 0 <= k < |rest| && rest[k] == b && forall j :: 0 <= j < k ==> rest[j].pattern != b.pattern;
      assert requested[k + 1] == b && forall j :: 0 < j <= k ==> requested[j] == rest[j - 1];
    }
  }

  /** A block is learned exactly if its pattern was not known and it is the first requested with it. */
  lemma {:induction false} FreshBlocksExactly(known: set<string>, requested: seq<LearnedBlock>, b: LearnedBlock)
    ensures b in FreshBlocks(known, requested) <==> b.pattern !in known && FirstRequested(requested, b)
    decreases |requested|
  {
    if requested != [] {
      hide FirstRequested;
      var first, rest := requested[0], requested[1..];
      FirstOrLater(requested, b);
      FreshBlocksExactly(if first.pattern in known then known else known + {first.pattern}, rest, b);
    }
  }

  /** A session counts once, is dated, and adds blocks behind the known ones; the rest of the passport stays. */
  lemma SessionLeaves(p: Passport, requested: seq<LearnedBlock>, now: string)
    ensures var q, c := AfterEdit(p, SessionEdit(requested, now)), EditChanges(p, SessionEdit(requested, now));
            && q.metadata.session_count == p.metadata.session_count + 1
            && q.metadata.last_session_at == Some(now) && q.metadata.created_at == p.metadata.created_at
            && p.learned_blocks <= q.learned_blocks
            && q.learned_blocks == p.learned_blocks + c.learned_blocks_added
            && q.profile == p.profile && q.active_projects == p.active_projects && q.continuity == p.continuity
            && c.session_count == Some(Change(p.metadata.session_count, q.metadata.session_count))
            && c.last_session_at == Some(Change(p.metadata.last_session_at, q.metadata.last_session_at))
            && c.active_projects == None && c.continuity == None
  {
  }

  /** A text the caller gave, else what was there. */
  predicate Wins(given: string, before: Option<string>, after: Option<string>) {
    if given != "" then after == Some(given) else after == before
  }

  /** The project as the caller describes it; what the caller leaves out is as it was. */
  predicate Describes(input: ProjectInput, now: string, before: Option<ActiveProject>, after: ActiveProject) {
    && after.id == input.id && after.root == input.root && after.last_seen_at == Some(now)
    && Wins(input.role, if before.Some? then before.value.role else None, after.role)
    && Wins(input.current_focus, if before.Some? then before.value.current_focus else None, after.current_focus)
    && Wins(input.space, if before.Some? then before.value.space else None, after.space)
    && Wins(input.view, if before.Some? then before.value.view else None, after.view)
  }

  /** A project not yet there is added last; one that is there is updated in place; all others stay. */
  lemma UpsertDescribes(projects: seq<ActiveProject>, input: ProjectInput, now: string)
    requires forall i, j :: 0 <= i < j < |projects| ==> projects[i].id != projects[j].id
    ensures var r := Upserted(projects, NewProject(input, now));
            && ((forall i :: 0 <= i < |projects| ==> projects[i].id != input.id) ==>
                  |r| == |projects| + 1 && r[..|projects|] == projects && Describes(input, now, None, r[|projects|]))
            && (forall k :: 0 <= k < |projects| && projects[k].id == input.id ==>
                  |r| == |projects| && Describes(input, now, Some(projects[k]), r[k])
                  && forall i :: 0 <= i < |projects| && i != k ==> r[i] == projects[i])
  {
    forall k | 0 <= k < |projects| && projects[k].id == input.id
      ensures FirstWith(projects, input.id) == Some(projects[k])
    {
      FirstWithIsAt(projects, input.id, k);
    }
  }

  /** A project edit dates the continuity and keeps its texts and lists; the rest of the passport stays. */
  lemma ProjectLeaves(p: Passport, input: ProjectInput, now: string)
    ensures var q, c := AfterEdit(p, ProjectEdit(input, now)), EditChanges(p, ProjectEdit(input, now));
            && q.profile == p.profile && q.learned_blocks == p.learned_blocks && q.metadata == p.metadata
            && q.active_projects == Some(Upserted(p.active_projects.GetOr([]), NewProject(input, now)))
            && q.continuity.Some? && q.continuity.value.updated_at == Some(now)
            && (p.continuity == None ==> q.continuity.value == ContinuityState(None, None, [], [], Some(now)))
            && (p.continuity.Some? ==>
                  && q.continuity.value.next_actions == p.continuity.value.next_actions
                  && q.continuity.value.open_threads == p.continuity.value.open_threads
                  && (p.continuity.value.current_focus != Some("") ==>
                        q.continuity.value.current_focus == p.continuity.value.current_focus)
                  && (p.continuity.value.handoff != Some("") ==>
                        q.continuity.value.handoff == p.continuity.value.handoff))
            && c.active_projects.Some? && Some(c.active_projects.value.after) == q.active_projects
            && c.active_projects.value.before == p.active_projects.GetOr([])
            && c.continuity == Some(Change(p.continuity, q.continuity))
            && c.session_count == None && c.last_session_at == None && c.learned_blocks_added == []
  {
    hide Upserted;
  }

  // ---------- Undoing an entry ----------

  /** `slice(0, end)` of an array: a negative end counts from the back. */
  function Slice(s: seq<LearnedBlock>, end: int): seq<LearnedBlock> {
    if 0 <= end <= |s| then s[..end]
    else if end > |s| then s
    else if |s| + end >= 0 then s[..|s| + end]
    else []
  }

  function Undo(p: Passport, c: PassportChanges): Passport {
    p.(metadata := p.metadata.(
         session_count := if c.session_count.Some? then c.session_count.value.before else p.metadata.session_count,
         last_session_at := if c.last_session_at.Some? then c.last_session_at.value.before
           else p.metadata.last_session_at),
       learned_blocks := if c.learned_blocks_added == [] then p.learned_blocks
                         else Slice(p.learned_blocks, |p.learned_blocks| - |c.learned_blocks_added|),
       active_projects := if c.active_projects.Some? then Some(c.active_projects.value.before) else p.active_projects,
       continuity := if c.continuity.Some? then c.continuity.value.before else p.continuity)
  }

  /**
   Undoing an edit's recorded changes gives back the passport it started from, except when a
   project was added to a passport whose project list was absent: the list comes back empty.
   */
  lemma UndoInvertsEdit(p: Passport, e: Edit)
    ensures Undo(AfterEdit(p, e), EditChanges(p, e)) == p <==> e.SessionEdit? || p.active_projects.Some?
  {
    var q := Undo(AfterEdit(p, e), EditChanges(p, e));
    match e
    case SessionEdit(requested, now) =>
      assert q.learned_blocks == p.learned_blocks;
    case ProjectEdit(input, now) =>
      assert p.active_projects.None? ==> q.active_projects == Some([]);
  }

  lemma AbsentProjectsComeBackEmpty()
    ensures var p := Passport("", [], None, None, Metadata("", None, 0));
            var e := ProjectEdit(ProjectInput("seedrop", "~/app", "", "", "", ""), "2026-08-09T00:00:00.000Z");
            Undo(AfterEdit(p, e), EditChanges(p, e)) == p.(active_projects := Some([])) != p
  {
  }

  /** The passport `k` entries back. */
  function Rewind(p: Passport, log: seq<AuditEntry>, k: nat): Passport
    requires k <= |log|
    decreases k
  {
    if k == 0 then p else Rewind(Undo(p, log[|log| - 1].changes), log[..|log| - 1], k - 1)
  }

  lemma {:induction false} RewindOneMore(p: Passport, log: seq<AuditEntry>, k: nat)
    requires k < |log|
    ensures Rewind(p, log, k + 1) == Undo(Rewind(p, log, k), log[|log| - 1 - k].changes)
    decreases k
  {
    if k > 0 {
      RewindOneMore(Undo(p, log[|log| - 1].changes), log[..|log| - 1], k - 1);
    }
  }

  /** The request an identity holding `p` makes for the edit. */
  predicate MadeBy(hash: Hasher, p: Passport, e: Edit, req: Request) {
    req.after == AfterEdit(p, e) && req.changes == EditChanges(p, e) && Expected(hash, req) == hash(p)
  }

  /** Each request in turn commits, and was made by the edit from the passport then on disk. */
  predicate EditRun(hash: Hasher, s: Disk, edits: seq<Edit>, reqs: seq<Request>)
    decreases |reqs|
  {
    |edits| == |reqs| &&
    (reqs == [] ||
     (s.passport.Some?
      && MadeBy(hash, s.passport.value, edits[0], reqs[0])
      && AtomicCommit(hash, s, reqs[0]).outcome.Committed?
      && EditRun(hash, AtomicCommit(hash, s, reqs[0]).files, edits[1..], reqs[1..])))
  }

  /** The passport after the first `i` requests. */
  function PassportAt(hash: Hasher, s: Disk, reqs: seq<Request>, i: nat): Option<Passport>
    requires i <= |reqs|
  {
    Applied(hash, s, reqs[..i]).passport
  }

  /**
   Undoing the last k entries from the tip of `t` gives `earlier`, whose hash the k-th entry from the end
   started from.
   */
  predicate RewindsTo(hash: Hasher, t: Disk, k: nat, earlier: Option<Passport>) {
    && t.passport.Some? && k <= |t.audit|
    && earlier == Some(Rewind(t.passport.value, t.audit, k))
    && (k > 0 ==> t.audit[|t.audit| - k].before_hash == hash(Rewind(t.passport.value, t.audit, k)))
  }

  lemma {:induction false} AppliedAppends(hash: Hasher, s: Disk, edits: seq<Edit>, reqs: seq<Request>)
    requires EditRun(hash, s, edits, reqs)
    ensures var t := Applied(hash, s, reqs);
            && |t.audit| == |s.audit| + |reqs| && s.audit <= t.audit
            && (s.passport.Some? ==> t.passport.Some?)
    decreases |reqs|
  {
    if reqs != [] {
      hide AtomicCommit, MadeBy;
      CommittedFiles(hash, s, reqs[0]);
      AppliedAppends(hash, AtomicCommit(hash, s, reqs[0]).files, edits[1..], reqs[1..]);
    }
  }

  /** One commit further back: undo the first request of the run. */
  lemma RewindToStart(hash: Hasher, s: Disk, e: Edit, req: Request, t: Disk, k: nat)
    requires HasProjects(s)
    requires MadeBy(hash, s.passport.value, e, req) && AtomicCommit(hash, s, req).outcome.Committed?
    requires AtomicCommit(hash, s, req).files.audit <= t.audit && |t.audit| == |s.audit| + 1 + k
    requires RewindsTo(hash, t, k, AtomicCommit(hash, s, req).files.passport)
    ensures RewindsTo(hash, t, k + 1, s.passport)
  {
    hide AtomicCommit, AfterEdit, EditChanges, Undo;
    CommittedFiles(hash, s, req);
    CommittedFromExpected(hash, s, req);
    RewindOneMore(t.passport.value, t.audit, k);
    assert t.audit[|s.audit|] == AtomicCommit(hash, s, req).files.audit[|s.audit|];
    UndoInvertsEdit(s.passport.value, e);
  }

  /**
   Time travel. After any run of session and project edits on a passport that has a project list,
   undoing the last k entries from the tip gives exactly the passport of k commits ago, and that
   passport has the hash the k-th entry from the end says it started from.
   */
  lemma {:induction false} TimeTravel(hash: Hasher, s: Disk, edits: seq<Edit>, reqs: seq<Request>, k: nat)
    requires EditRun(hash, s, edits, reqs) && k <= |reqs|
    requires HasProjects(s)
    ensures RewindsTo(hash, Applied(hash, s, reqs), k, PassportAt(hash, s, reqs, |reqs| - k))
    decreases |reqs|
  {
    if k == 0 {
      RewindsNowhere(hash, s, edits, reqs);
    } else {
      FirstOfRun(hash, s, edits, reqs);
      PassportAtTail(hash, s, reqs, |reqs| - k);
      AppliedTail(hash, s, reqs);
      hide AtomicCommit, MadeBy, RewindsTo, EditRun, HasProjects, Applied, PassportAt, AfterEdit;
      var next := AtomicCommit(hash, s, reqs[0]).files;
      if k < |reqs| {
        TimeTravel(hash, next, edits[1..], reqs[1..], k);
      } else {
        TimeTravel(hash, next, edits[1..], reqs[1..], k - 1);
        RewindPastFirst(hash, s, edits, reqs);
      }
    }
  }

  lemma RewindPastFirst(hash: Hasher, s: Disk, edits: seq<Edit>, reqs: seq<Request>)
    requires EditRun(hash, s, edits, reqs) && reqs != [] && HasProjects(s)
    requires var next := AtomicCommit(hash, s, reqs[0]).files;
             RewindsTo(hash, Applied(hash, next, reqs[1..]), |reqs| - 1, PassportAt(hash, next, reqs[1..], 0))
    ensures RewindsTo(hash, Applied(hash, s, reqs), |reqs|, s.passport)
  {
    FirstOfRun(hash, s, edits, reqs);
    AppliedTail(hash, s, reqs);
    hide AtomicCommit, MadeBy, RewindsTo, EditRun, HasProjects, Applied, PassportAt, AfterEdit;
    var next := AtomicCommit(hash, s, reqs[0]).files;
    AppliedAppends(hash, next, edits[1..], reqs[1..]);
    PassportAtTail(hash, next, reqs[1..], 0);
    RewindToStart(hash, s, edits[0], reqs[0], Applied(hash, next, reqs[1..]), |reqs| - 1);
  }

  predicate HasProjects(s: Disk) {
    s.passport.Some? && s.passport.value.active_projects.Some?
  }

  lemma AppliedTail(hash: Hasher, s: Disk, reqs: seq<Request>)
    requires reqs != []
    ensures Applied(hash, s, reqs) == Applied(hash, AtomicCommit(hash, s, reqs[0]).files, reqs[1..])
  {
  }

  lemma FirstOfRun(hash: Hasher, s: Disk, edits: seq<Edit>, reqs: seq<Request>)
    requires EditRun(hash, s, edits, reqs) && reqs != [] && HasProjects(s)
    ensures |edits| == |reqs| && MadeBy(hash, s.passport.value, edits[0], reqs[0])
    ensures AtomicCommit(hash, s, reqs[0]).outcome.Committed?
    ensures var next := AtomicCommit(hash, s, reqs[0]).files;
            EditRun(hash, next, edits[1..], reqs[1..]) && HasProjects(next) && |next.audit| == |s.audit| + 1
    ensures s.passport.Some?
  {
    EditKeepsProjects(hash, s, edits[0], reqs[0]);
  }

  lemma RewindsNowhere(hash: Hasher, s: Disk, edits: seq<Edit>, reqs: seq<Request>)
    requires EditRun(hash, s, edits, reqs) && s.passport.Some?
    ensures RewindsTo(hash, Applied(hash, s, reqs), 0, PassportAt(hash, s, reqs, |reqs|))
  {
    hide AtomicCommit, EditRun;
    AppliedAppends(hash, s, edits, reqs);
    assert reqs[..|reqs|] == reqs;
  }

  lemma PassportAtTail(hash: Hasher, s: Disk, reqs: seq<Request>, i: nat)
    requires i <= |reqs|
    ensures i == 0 ==> PassportAt(hash, s, reqs, i) == s.passport
    ensures i > 0 ==>
      PassportAt(hash, s, reqs, i) == PassportAt(hash, AtomicCommit(hash, s, reqs[0]).files, reqs[1..], i - 1)
  {
    hide AtomicCommit;
    if i > 0 {
      assert reqs[..i][1..] == reqs[1..][..i - 1];
    }
  }

  lemma EditKeepsProjects(hash: Hasher, s: Disk, e: Edit, req: Request)
    requires s.passport.Some? && s.passport.value.active_projects.Some?
    requires MadeBy(hash, s.passport.value, e, req) && AtomicCommit(hash, s, req).outcome.Committed?
    ensures var next := AtomicCommit(hash, s, req).files;
            next.passport.Some? && next.passport.value.active_projects.Some? && |next.audit| == |s.audit| + 1
  {
  }

  lemma CommittedFromExpected(hash: Hasher, s: Disk, req: Request)
    requires AtomicCommit(hash, s, req).outcome.Committed?
    ensures AtomicCommit(hash, s, req).outcome.entry.before_hash == Expected(hash, req) == Version(hash, s.passport)
    ensures AtomicCommit(hash, s, req).outcome.entry.changes == req.changes
  {
  }

  /** The same after a run with crashes: what the files stand for can be read back commit by commit. */
  lemma TimeTravelThroughCrashes(hash: Hasher, d: Disk, ops: seq<Op>, edits: seq<Edit>, k: nat)
    requires CollisionFree(hash) && Recoverable(hash, d)
    requires HasProjects(Settle(d))
    requires EditRun(hash, Settle(d), edits, Taken(hash, d, ops)) && k <= |Taken(hash, d, ops)|
    ensures RewindsTo(hash, Settle(Run(hash, d, ops)), k,
      PassportAt(hash, Settle(d), Taken(hash, d, ops), |Taken(hash, d, ops)| - k))
  {
    hide CollisionFree, Recoverable, Settle, RewindsTo, HasProjects, EditRun, PassportAt, Run, Taken, Applied,
      AllCommit;
    RunRefines(hash, d, ops);
    TimeTravel(hash, Settle(d), edits, Taken(hash, d, ops), k);
  }

  // ---------- The identity object ----------

  /**
   The version a commit expects: the caller's, or that of the passport in memory, or absence when there is
   no file.
   */
  function ExpectedVersion(hash: Hasher, p: Passport, onDisk: Option<Passport>, supplied: Option<Digest>): Digest {
    match supplied
    case Some(version) => version
    case None => if onDisk.Some? then hash(p) else ABSENT
  }

  lemma CommittedIsWritten(hash: Hasher, d: Disk, req: Request, budget: nat)
    ensures var done := AfterCommit(hash, d, req, budget);
      done.outcome.Committed? ==> done.files.passport == Some(req.after)
  {
    hide AfterRepair, PriorEntry;
  }

  /** The entry an edit would append: what is reported when nothing is to be written. */
  function PreviewEntry(
    hash: Hasher, p: Passport, e: Edit, supplied: Option<Digest>, tip: Option<Digest>, text: string, now: string)
    : AuditEntry
  {
    AuditEntry(now, supplied.GetOr(hash(p)), hash(AfterEdit(p, e)), tip, EditChanges(p, e), text)
  }

  /** What a preview gives for the entry before it: the log's last one, if the log's place is known. */
  function PreviewTip(log: seq<AuditEntry>, given: bool): Option<Digest> {
    if given then TipHash(log) else None
  }

  /** The request an identity holding `p` makes for an edit. */
  function EditRequest(
    hash: Hasher, p: Passport, e: Edit, onDisk: Option<Passport>, id: CommandId, supplied: Option<Digest>,
    text: string, now: string): Request
  {
    Request(id, Some(p), AfterEdit(p, e), EditChanges(p, e), Some(ExpectedVersion(hash, p, onDisk, supplied)), text,
      now)
  }

  lemma EditRequestIsMade(
    hash: Hasher, p: Passport, e: Edit, onDisk: Option<Passport>, id: CommandId, supplied: Option<Digest>,
    text: string, now: string)
    requires onDisk.Some? && supplied.None?
    ensures MadeBy(hash, p, e, EditRequest(hash, p, e, onDisk, id, supplied, text, now))
  {
  }

  /**
   A preview foretells the entry: when the edit is then committed, what is appended is what was previewed
   from the log, except that its notes carry the command's marker.
   */
  lemma PreviewForetells(
    hash: Hasher, d: Disk, p: Passport, e: Edit, id: CommandId, supplied: Option<Digest>, text: string, now: string)
    requires var req := EditRequest(hash, p, e, d.passport, id, supplied, text, now);
      d.passport.Some? && AtomicCommit(hash, d, req).outcome.Committed?
    ensures var entry := AtomicCommit(hash, d,
      EditRequest(hash, p, e, d.passport, id, supplied, text, now)).outcome.entry;
      && entry == PreviewEntry(hash, p, e, supplied, PreviewTip(d.audit, true), text, now).(notes := Notes(id, text))
      && entry.before_hash == Version(hash, d.passport)
  {
    hide AfterEdit, EditChanges, PriorEntry;
  }

  /** An identity loaded in memory, writing through to the passport's files. */
  class Identity {
    var passport: Passport

    constructor (passport: Passport)
      ensures this.passport == passport
    {
      this.passport := passport;
    }

    /** Keeps each requested block whose pattern is new, in order. */
    method NewBlocks(requested: seq<LearnedBlock>) returns (added: seq<LearnedBlock>)
      ensures added == FreshBlocks(Patterns(passport.learned_blocks), requested)
    {
      ghost var known := Patterns(passport.learned_blocks);
      var existing := set b | b in passport.learned_blocks :: b.pattern;
      added := [];
      for i := 0 to |requested|
        invariant added == FreshBlocks(known, requested[..i])
        invariant existing == known + Patterns(added)
      {
        FreshBlocksSnoc(known, requested[..i], requested[i]);
        assert requested[..i + 1] == requested[..i] + [requested[i]];
        if requested[i].pattern !in existing {
          assert Patterns(added + [requested[i]]) == Patterns(added) + {requested[i].pattern};
          added := added + [requested[i]];
          existing := existing + {requested[i].pattern};
        }
      }
      assert requested[..|requested|] == requested;
    }

    /** The passport after a session, and the changes it records. */
    method SessionChange(requested: seq<LearnedBlock>, now: string) returns (after: Passport, changes: PassportChanges)
      ensures after == AfterEdit(passport, SessionEdit(requested, now))
      ensures changes == EditChanges(passport, SessionEdit(requested, now))
    {
      var added := NewBlocks(requested);
      after := passport.(
        metadata := passport.metadata.(
          session_count := passport.metadata.session_count + 1, last_session_at := Some(now)),
        learned_blocks := passport.learned_blocks + added);
      changes := NO_CHANGES.(
        session_count := Some(Change(passport.metadata.session_count, after.metadata.session_count)),
        last_session_at := Some(Change(passport.metadata.last_session_at, Some(now))),
        learned_blocks_added := added);
    }

    /** The passport with a project added, or with the one of its id brought up to date. */
    method ProjectChange(input: ProjectInput, now: string) returns (after: Passport, changes: PassportChanges)
      ensures after == AfterEdit(passport, ProjectEdit(input, now))
      ensures changes == EditChanges(passport, ProjectEdit(input, now))
    {
      var projects := passport.active_projects.GetOr([]);
      var afterProjects := Upserted(projects, NewProject(input, now));
      var continuity := Touched(passport.continuity, now);
      after := passport.(active_projects := Some(afterProjects), continuity := Some(continuity));
      changes := NO_CHANGES.(
        active_projects := Some(Change(projects, afterProjects)),
        continuity := Some(Change(passport.continuity, Some(continuity))));
    }

    /** Commits a change; on success the identity holds the passport that is on disk. */
    method CommitPassportChange(
      store: PassportStore, id: CommandId, after: Passport, changes: PassportChanges, supplied: Option<Digest>,
      text: string, now: string, budget: nat)
      returns (outcome: Outcome)
      modifies this, store
      ensures var expected := ExpectedVersion(store.hash, old(passport), old(store.passport), supplied);
              var req := Request(id, Some(old(passport)), after, changes, Some(expected), text, now);
              Committing(store.Files(), outcome) == AfterCommit(store.hash, old(store.Files()), req, budget)
      ensures outcome.Committed? ==> store.passport == Some(passport)
      ensures outcome.Replayed? ==> passport == outcome.current
      ensures !outcome.Committed? && !outcome.Replayed? ==> passport == old(passport)
    {
      hide AfterCommit;
      var expected := ExpectedVersion(store.hash, passport, store.passport, supplied);
      var req := Request(id, Some(passport), after, changes, Some(expected), text, now);
      CommittedIsWritten(store.hash, store.Files(), req, budget);
      outcome := store.Commit(req, budget);
      if outcome.Committed? {
        passport := after;
      } else if outcome.Replayed? {
        passport := outcome.current;
      }
    }

    /**
     The entry a change would append, without writing: the log is read only if its place is given, and must
     be whole.
     */
    method PreviewPassportChange(
      store: PassportStore, logGiven: bool, after: Passport, changes: PassportChanges, supplied: Option<Digest>,
      text: string, now: string)
      returns (r: Option<AuditEntry>)
      ensures r == if logGiven && !Linked(store.audit) then None
                   else Some(AuditEntry(now, supplied.GetOr(store.hash(passport)), store.hash(after),
                                        PreviewTip(store.audit, logGiven), changes, text))
    {
      if logGiven {
        var whole := store.ReadAuditLog();
        if !whole {
          return None;
        }
      }
      return Some(AuditEntry(now, supplied.GetOr(store.hash(passport)), store.hash(after),
                             PreviewTip(store.audit, logGiven), changes, text));
    }

    /** Records a session. */
    method CommitSession(
      store: PassportStore, id: CommandId, requested: seq<LearnedBlock>, supplied: Option<Digest>, text: string,
      now: string, budget: nat)
      returns (outcome: Outcome)
      modifies this, store
      ensures var req := EditRequest(
                store.hash, old(passport), SessionEdit(requested, now), old(store.passport), id, supplied, text, now);
              Committing(store.Files(), outcome) == AfterCommit(store.hash, old(store.Files()), req, budget)
      ensures outcome.Committed? ==> store.passport == Some(passport)
      ensures outcome.Replayed? ==> passport == outcome.current
      ensures !outcome.Committed? && !outcome.Replayed? ==> passport == old(passport)
    {
      hide AfterCommit, AfterEdit, EditChanges;
      var after, changes := SessionChange(requested, now);
      outcome := CommitPassportChange(store, id, after, changes, supplied, text, now, budget);
    }

    /** The same without writing. */
    method PreviewSession(
      store: PassportStore, logGiven: bool, requested: seq<LearnedBlock>, supplied: Option<Digest>, text: string,
      now: string)
      returns (r: Option<AuditEntry>)
      ensures r == if logGiven && !Linked(store.audit) then None
                   else Some(PreviewEntry(store.hash, passport, SessionEdit(requested, now), supplied,
                                          PreviewTip(store.audit, logGiven), text, now))
    {
      var after, changes := SessionChange(requested, now);
      r := PreviewPassportChange(store, logGiven, after, changes, supplied, text, now);
    }

    /** Adds a project to the passport, or brings the one with its id up to date. */
    method UpsertActiveProject(
      store: PassportStore, id: CommandId, input: ProjectInput, supplied: Option<Digest>, text: string, now: string,
      budget: nat)
      returns (outcome: Outcome)
      modifies this, store
      ensures var req := EditRequest(
                store.hash, old(passport), ProjectEdit(input, now), old(store.passport), id, supplied, text, now);
              Committing(store.Files(), outcome) == AfterCommit(store.hash, old(store.Files()), req, budget)
      ensures outcome.Committed? ==> store.passport == Some(passport)
      ensures outcome.Replayed? ==> passport == outcome.current
      ensures !outcome.Committed? && !outcome.Replayed? ==> passport == old(passport)
    {
      hide AfterCommit, AfterEdit, EditChanges;
      var after, changes := ProjectChange(input, now);
      outcome := CommitPassportChange(store, id, after, changes, supplied, text, now, budget);
    }

    /** The same without writing. */
    method PreviewActiveProject(
      store: PassportStore, logGiven: bool, input: ProjectInput, supplied: Option<Digest>, text: string, now: string)
      returns (r: Option<AuditEntry>)
      ensures r == if logGiven && !Linked(store.audit) then None
                   else Some(PreviewEntry(store.hash, passport, ProjectEdit(input, now), supplied,
                                          PreviewTip(store.audit, logGiven), text, now))
    {
      var after, changes := ProjectChange(input, now);
      r := PreviewPassportChange(store, logGiven, after, changes, supplied, text, now);
    }
  }
}
