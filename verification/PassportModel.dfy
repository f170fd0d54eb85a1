/** The passport, the changes an edit records, and the audit entry. */
module PassportModel {
  import opened Wrappers

  type Digest = string

  /** The version reported for a passport file that does not exist. */
  const ABSENT: Digest := "absent"

  datatype LearnedBlock = LearnedBlock(pattern: string, reason: string, source_session: string)

  datatype ActiveProject = ActiveProject(
    id: string, root: string, role: Option<string>, current_focus: Option<string>,
    space: Option<string>, view: Option<string>, last_seen_at: Option<string>)

  datatype ContinuityState = ContinuityState(
    current_focus: Option<string>, handoff: Option<string>,
    next_actions: seq<string>, open_threads: seq<string>, updated_at: Option<string>)

  datatype Metadata = Metadata(created_at: string, last_session_at: Option<string>, session_count: nat)

  /** `profile` stands for the fields no modelled edit touches (name, purpose, commitments, credentials). */
  datatype Passport = Passport(
    profile: string,
    learned_blocks: seq<LearnedBlock>,
    active_projects: Option<seq<ActiveProject>>,
    continuity: Option<ContinuityState>,
    metadata: Metadata)

  datatype Change<T> = Change(before: T, after: T)

  datatype PassportChanges = PassportChanges(
    session_count: Option<Change<nat>>,
    last_session_at: Option<Change<Option<string>>>,
    learned_blocks_added: seq<LearnedBlock>,
    active_projects: Option<Change<seq<ActiveProject>>>,
    continuity: Option<Change<Option<ContinuityState>>>)

  const NO_CHANGES := PassportChanges(None, None, [], None, None)

  datatype AuditEntry = AuditEntry(
    timestamp: string, before_hash: Digest, after_hash: Digest,
    prev_hash: Option<Digest>, changes: PassportChanges, notes: string)

  type Hasher = Passport -> Digest

  /** What is assumed of the passport hash: no collisions, and never the sentinel. */
  ghost predicate CollisionFree(hash: Hasher) {
    && (forall p, q :: hash(p) == hash(q) ==> p == q)
    && (forall p :: hash(p) != ABSENT)
  }

  function Version(hash: Hasher, passport: Option<Passport>): Digest {
    match passport
    case Some(p) => hash(p)
    case None => ABSENT
  }

  function TipHash(log: seq<AuditEntry>): Option<Digest> {
    if log == [] then None else Some(log[|log| - 1].after_hash)
  }

  /** What reading the log checks: each entry names the result of the one before it. */
  predicate Linked(log: seq<AuditEntry>) {
    forall i {:trigger log[i]} :: 0 <= i < |log| ==> log[i].prev_hash == TipHash(log[..i])
  }
}
