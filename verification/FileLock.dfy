/**
 The lock file and its `.reap` companion as an interleaved protocol. Tasks of many processes
 take one file-system step at a time; a process may die between any two steps. The passport
 lock and the continuity acknowledgement lock run the same protocol.
 */
module FileLock {
  import opened Wrappers

  type Pid = nat
  datatype Task = Task(process: Pid, id: nat)

  /** What a path holds: nothing, a file just created, or a file naming its owner. */
  datatype LockFile = Missing | Empty(creator: Task) | Owned(owner: Task, token: nat, created: nat)

  datatype Pc =
    | Idle
    | Created                   // created the lock file exclusively; has not written its owner yet
    | Critical(token: nat)
    | Releasing(token: nat)     // done; about to read the file back
    | Unlinking                 // read its own token; about to remove the file
    | Reaping                   // created the `.reap` file; about to read the lock file
    | Judging(seen: LockFile)   // read the lock file; about to probe its owner
    | Condemning                // judged it stale; about to remove it
    | Reaped                    // about to remove the `.reap` file

  datatype State = State(
    lock: LockFile, reap: Option<Task>, pcs: map<Task, Pc>,
    dead: set<Pid>, reused: set<Pid>, clock: nat, nextToken: nat)

  const INITIAL := State(Missing, None, map[], {}, {}, 0, 0)

  const STALE_LOCK_MS: nat := 30_000

  /** The pairs (observer, target) for which signalling the live target is refused. */
  type Denials = set<(Pid, Pid)>

  datatype Event =
    | Create(t: Task)
    | WriteOwner(t: Task)
    | WriteFails(t: Task, removes: bool)
    | Leave(t: Task)
    | ReadOwn(t: Task)
    | Unlink(t: Task)
    | StartReap(t: Task)
    | ReadLock(t: Task)
    | Probe(t: Task)
    | RemoveStale(t: Task)
    | EndReap(t: Task)
    | Die(p: Pid)
    | Reuse(p: Pid)
    | Tick(ms: nat)

  function PcOf(s: State, t: Task): Pc {
    if t in s.pcs then s.pcs[t] else Idle
  }

  predicate Live(s: State, t: Task) {
    t.process !in s.dead
  }

  function Go(s: State, t: Task, pc: Pc): State {
    s.(pcs := s.pcs[t := pc])
  }

  /**
   The probe finds no process under the owner's id. An id that a stranger has come to use counts as in use
   from then on, even if the stranger dies too: that would only allow more verdicts on files of dead owners,
   which no safety claim here rules out.
   */
  predicate Gone(s: State, p: Pid) {
    p in s.dead && p !in s.reused
  }

  /** The owner cannot be probed and the file is old, so its age alone decides. */
  predicate ByAge(c: Denials, s: State, observer: Task, seen: LockFile)
    requires seen.Owned?
  {
    var p := seen.owner.process;
    !Gone(s, p) && observer.process != p && (observer.process, p) in c && s.clock > seen.created + STALE_LOCK_MS
  }

  /** The verdict on a lock file: its owner is gone, or cannot be probed and the file is old. */
  predicate Stale(c: Denials, s: State, observer: Task, seen: LockFile)
    requires seen.Owned?
  {
    Gone(s, seen.owner.process) || ByAge(c, s, observer, seen)
  }

  /** One step of one task; a step that is not enabled changes nothing. */
  function Step(c: Denials, s: State, e: Event): State {
    match e
    case Tick(ms) => s.(clock := s.clock + ms)
    case Die(p) => s.(dead := s.dead + {p})
    case Reuse(p) => if p in s.dead then s.(reused := s.reused + {p}) else s
    case _ => if Live(s, e.t) then Act(c, s, e) else s
  }

  /** A step of a task whose process is alive. */
  function Act(c: Denials, s: State, e: Event): State
    requires !e.Die? && !e.Reuse? && !e.Tick?
  {
    var pc := PcOf(s, e.t);
    match e
    case Create(t) =>
      if pc.Idle? && s.lock.Missing? then Go(s.(lock := Empty(t)), t, Created) else s
    case WriteOwner(t) =>
      if pc.Created? then
        Go(s.(lock := if s.lock == Empty(t) then Owned(t, s.nextToken, s.clock)
          else s.lock, nextToken := s.nextToken + 1),
           t, Critical(s.nextToken))
      else s
    case WriteFails(t, removes) =>
      if pc.Created? then Go(s.(lock := if removes then Missing else s.lock), t, Idle) else s
    case Leave(t) =>
      if pc.Critical? then Go(s, t, Releasing(pc.token)) else s
    case ReadOwn(t) =>
      if pc.Releasing? then Go(s, t, if s.lock.Owned? && s.lock.token == pc.token then Unlinking else Idle) else s
    case Unlink(t) =>
      if pc.Unlinking? then Go(s.(lock := Missing), t, Idle) else s
    case StartReap(t) =>
      if pc.Idle? && s.reap.None? then Go(s.(reap := Some(t)), t, Reaping) else s
    case ReadLock(t) =>
      if pc.Reaping? then Go(s, t, if s.lock.Owned? then Judging(s.lock) else Reaped) else s
    case Probe(t) =>
      if pc.Judging? && pc.seen.Owned? then Go(s, t, if Stale(c, s, t, pc.seen) then Condemning else Reaped) else s
    case RemoveStale(t) =>
      if pc.Condemning? then Go(s.(lock := Missing), t, Reaped) else s
    case EndReap(t) =>
      if pc.Reaped? then Go(s.(reap := None), t, Idle) else s
  }

  ghost function Run(c: Denials, s: State, events: seq<Event>): State
    decreases |events|
  {
    if events == [] then s else Run(c, Step(c, s, events[0]), events[1..])
  }

  // ---------- Mutual exclusion ----------

  predicate InCriticalSection(s: State, t: Task) {
    Live(s, t) && PcOf(s, t).Critical?
  }

  ghost predicate Exclusive(s: State) {
    forall t, u :: InCriticalSection(s, t) && InCriticalSection(s, u) ==> t == u
  }

  /** With the processes of `gone` dead, the file at the lock's path is nobody's any more: its owner or creator is
      dead, or the creator failed to write it and gave up. */
  predicate Forsaken(s: State, gone: set<Pid>) {
    match s.lock
    case Missing => false
    case Empty(t) => t.process in gone || !PcOf(s, t).Created?
    case Owned(t, _, _) => t.process in gone
  }

  /** A reaper that will outlive `p` has read a file of `p`, and has not probed it yet. */
  ghost predicate ReadFileOf(s: State, p: Pid) {
    exists t :: t in s.pcs && Live(s, t) && t.process != p && s.pcs[t].Judging? && s.pcs[t].seen.Owned?
                && s.pcs[t].seen.owner.process == p
  }

  /**
   The two moments exclusion can be lost at: a process exits while a reaper is about to probe its file and
   something else stands at the path, be it nothing or the file of a live holder; or age decides against
   a file that is not at the path any more or whose owner is alive.
   */
  ghost predicate Dangerous(c: Denials, s: State, e: Event) {
    match e
    case Die(p) => p !in s.dead && ReadFileOf(s, p) && !Forsaken(s, s.dead + {p})
    case Probe(t) =>
      && Live(s, t) && PcOf(s, t).Judging? && PcOf(s, t).seen.Owned?
      && ByAge(c, s, t, PcOf(s, t).seen) && !Forsaken(s, s.dead)
    case _ => false
  }

  ghost predicate SafeRun(c: Denials, s: State, events: seq<Event>)
    decreases |events|
  {
    events == [] || (!Dangerous(c, s, events[0]) && SafeRun(c, Step(c, s, events[0]), events[1..]))
  }

  /** A live task between creating the lock file and removing it finds its own file there. */
  ghost predicate HoldersOwnFile(s: State) {
    forall t :: Live(s, t) ==>
      match PcOf(s, t)
      case Created => s.lock == Empty(t)
      case Critical(k) => s.lock.Owned? && s.lock.owner == t && s.lock.token == k
      case Releasing(k) => s.lock.Owned? && s.lock.owner == t && s.lock.token == k
      case Unlinking => s.lock.Owned? && s.lock.owner == t
      case _ => true
  }

  /** A live task that is reaping holds the `.reap` file. */
  ghost predicate ReaperHoldsReap(s: State) {
    forall t | Live(s, t) ::
      PcOf(s, t).Reaping? || PcOf(s, t).Judging? || PcOf(s, t).Condemning? || PcOf(s, t).Reaped? ==> s.reap == Some(t)
  }

  /** A live owner of the file at the path is between writing and removing it. */
  ghost predicate OwnersHold(s: State) {
    s.lock.Owned? && Live(s, s.lock.owner) ==>
      var pc := PcOf(s, s.lock.owner); pc == Critical(s.lock.token) || pc == Releasing(s.lock.token) || pc.Unlinking?
  }

  /** A reaper that has condemned a file, or is bound to, finds one at the path that is nobody's. */
  ghost predicate VerdictsSound(s: State) {
    forall t :: Live(s, t) ==>
      match PcOf(s, t)
      case Judging(seen) => seen.Owned? && (seen.owner.process in s.dead ==> Forsaken(s, s.dead))
      case Condemning => Forsaken(s, s.dead)
      case _ => true
  }

  ghost predicate Inv(s: State) {
    && (s.lock.Owned? ==> s.lock.token < s.nextToken) && s.reused <= s.dead
    && HoldersOwnFile(s)
    && OwnersHold(s)
    && ReaperHoldsReap(s)
    && VerdictsSound(s)
  }

  predicate OfTask(e: Event) {
    !e.Die? && !e.Reuse? && !e.Tick?
  }

  lemma ActKeepsHolders(c: Denials, s: State, e: Event)
    requires Inv(s) && OfTask(e) && Live(s, e.t)
    ensures HoldersOwnFile(Act(c, s, e))
    ensures var n := Act(c, s, e); n.lock.Owned? ==> n.lock.token < n.nextToken
  {
    hide ReaperHoldsReap, Stale;
    var n := Act(c, s, e);
    assert forall t :: PcOf(n, t) == PcOf(s, t) || t == e.t;
  }

  lemma ActKeepsOwners(c: Denials, s: State, e: Event)
    requires Inv(s) && OfTask(e) && Live(s, e.t)
    ensures OwnersHold(Act(c, s, e))
  {
    hide ReaperHoldsReap, VerdictsSound, Stale;
    var n := Act(c, s, e);
    assert forall t :: PcOf(n, t) == PcOf(s, t) || t == e.t;
  }

  lemma ActKeepsReaper(c: Denials, s: State, e: Event)
    requires Inv(s) && OfTask(e) && Live(s, e.t)
    ensures ReaperHoldsReap(Act(c, s, e))
  {
    hide HoldersOwnFile, VerdictsSound, Stale;
    var n := Act(c, s, e);
    assert forall t :: PcOf(n, t) == PcOf(s, t) || t == e.t;
  }

  /** A forsaken file is only ever touched by the reaper that holds the `.reap` file. */
  lemma ActSparesForsaken(c: Denials, s: State, e: Event)
    requires Inv(s) && OfTask(e) && Live(s, e.t) && Forsaken(s, s.dead)
    ensures var n := Act(c, s, e); Forsaken(n, n.dead) || PcOf(s, e.t).Condemning?
  {
    hide ReaperHoldsReap, VerdictsSound, Stale;
    var n := Act(c, s, e);
    assert forall t :: PcOf(n, t) == PcOf(s, t) || t == e.t;
  }

  lemma ActKeepsVerdicts(c: Denials, s: State, e: Event)
    requires Inv(s) && OfTask(e) && Live(s, e.t) && !Dangerous(c, s, e)
    ensures VerdictsSound(Act(c, s, e))
  {
    hide HoldersOwnFile, OwnersHold;
    var n := Act(c, s, e);
    assert n.dead == s.dead;
    assert forall t :: PcOf(n, t) == PcOf(s, t) || t == e.t;
    if Forsaken(s, s.dead) {
      ActSparesForsaken(c, s, e);
    }
  }

  /** Processes dying, pids being reused and time passing move no task. */
  lemma SurroundingsKeepInv(c: Denials, s: State, e: Event)
    requires Inv(s) && !OfTask(e) && !Dangerous(c, s, e)
    ensures Inv(Step(c, s, e))
  {
    var n := Step(c, s, e);
    assert forall t :: PcOf(n, t) == PcOf(s, t) && (Live(n, t) ==> Live(s, t));
    assert Forsaken(s, s.dead) ==> Forsaken(n, n.dead);
    forall t | Live(n, t) && PcOf(n, t).Judging?
      && PcOf(n, t).seen.owner.process in n.dead ensures Forsaken(n, n.dead) {
      assert t in s.pcs && Live(s, t);
    }
  }

  lemma StepKeepsInv(c: Denials, s: State, e: Event)
    requires Inv(s) && !Dangerous(c, s, e)
    ensures Inv(Step(c, s, e))
  {
    if !OfTask(e) {
      SurroundingsKeepInv(c, s, e);
    } else if Live(s, e.t) {
      ActKeepsHolders(c, s, e);
      ActKeepsOwners(c, s, e);
      ActKeepsReaper(c, s, e);
      ActKeepsVerdicts(c, s, e);
      hide Act, HoldersOwnFile, OwnersHold, ReaperHoldsReap, VerdictsSound;
      assert Act(c, s, e).dead == s.dead && Act(c, s, e).reused == s.reused by {
        ActMovesNoProcess(c, s, e);
      }
    }
  }

  lemma ActMovesNoProcess(c: Denials, s: State, e: Event)
    requires OfTask(e)
    ensures Act(c, s, e).dead == s.dead && Act(c, s, e).reused == s.reused
  {
  }

  /** Without a dangerous moment every interleaving keeps the lock exclusive. */
  lemma {:induction false} RunKeepsInv(c: Denials, s: State, events: seq<Event>)
    requires Inv(s) && SafeRun(c, s, events)
    ensures Inv(Run(c, s, events)) && Exclusive(Run(c, s, events))
    decreases |events|
  {
    hide Dangerous, Step;
    if events != [] {
      StepKeepsInv(c, s, events[0]);
      RunKeepsInv(c, Step(c, s, events[0]), events[1..]);
    }
  }

  /** The file at the path is empty, and its creator is alive and about to write it. */
  predicate HeldEmpty(s: State) {
    s.lock.Empty? && Live(s, s.lock.creator) && PcOf(s, s.lock.creator).Created?
  }

  /** In such runs a live holder's file is only ever removed or replaced by the holder itself. */
  lemma OnlyOwnerRemoves(c: Denials, events: seq<Event>, e: Event)
    requires SafeRun(c, INITIAL, events)
    ensures var s := Run(c, INITIAL, events);
            && (s.lock.Owned? && Live(s, s.lock.owner) && Step(c, s, e).lock != s.lock ==> e == Unlink(s.lock.owner))
            && (HeldEmpty(s) && Step(c, s, e).lock != s.lock ==>
                  e == WriteOwner(s.lock.creator) || e == WriteFails(s.lock.creator, true))
  {
    hide Step, Run, Inv, SafeRun;
    assert Inv(INITIAL) by { InitiallySound(); }
    RunKeepsInv(c, INITIAL, events);
    StepSparesOthers(c, Run(c, INITIAL, events), e);
  }

  lemma InitiallySound()
    ensures Inv(INITIAL)
  {
  }

  lemma StepSparesOthers(c: Denials, s: State, e: Event)
    requires Inv(s)
    ensures s.lock.Owned? && Live(s, s.lock.owner) && Step(c, s, e).lock != s.lock ==> e == Unlink(s.lock.owner)
    ensures HeldEmpty(s) && Step(c, s, e).lock != s.lock ==>
      e == WriteOwner(s.lock.creator) || e == WriteFails(s.lock.creator, true)
  {
    hide Stale;
    if OfTask(e) && Live(s, e.t) {
      assert PcOf(s, e.t).Condemning? ==> Forsaken(s, s.dead);
    }
  }

  // ---------- In any run, dangerous or not ----------

  /** The token a task took with the lock and will compare when it leaves. */
  function TokenOf(pc: Pc): Option<nat> {
    match pc
    case Critical(k) => Some(k)
    case Releasing(k) => Some(k)
    case _ => None
  }

  /** No token is given out twice, and a file with a task's token is the one that task wrote. */
  ghost predicate TokensAreOwn(s: State) {
    && (s.lock.Owned? ==> s.lock.token < s.nextToken)
    && forall t :: TokenOf(PcOf(s, t)).Some? ==>
         && TokenOf(PcOf(s, t)).value < s.nextToken
         && (s.lock.Owned? && s.lock.token == TokenOf(PcOf(s, t)).value ==> s.lock.owner == t)
  }

  lemma StepKeepsTokens(c: Denials, s: State, e: Event)
    requires TokensAreOwn(s)
    ensures TokensAreOwn(Step(c, s, e))
  {
    hide Stale;
    var n := Step(c, s, e);
    forall t | TokenOf(PcOf(n, t)).Some?
      ensures TokenOf(PcOf(n, t)).value < n.nextToken
      ensures n.lock.Owned? && n.lock.token == TokenOf(PcOf(n, t)).value ==> n.lock.owner == t
    {
      assert (OfTask(e) && t == e.t) || PcOf(n, t) == PcOf(s, t);
      assert TokenOf(PcOf(s, t)).Some? ==> TokenOf(PcOf(s, t)).value < s.nextToken;
    }
  }

  lemma {:induction false} RunKeepsTokens(c: Denials, s: State, events: seq<Event>)
    requires TokensAreOwn(s)
    ensures TokensAreOwn(Run(c, s, events))
    decreases |events|
  {
    hide Step, TokensAreOwn;
    if events != [] {
      StepKeepsTokens(c, s, events[0]);
      RunKeepsTokens(c, Step(c, s, events[0]), events[1..]);
    }
  }

  /**
   Even after exclusion was lost, a task that leaves goes on to remove the file at the path exactly if that
   is the very file it wrote itself; a successor's file is left alone.
   */
  lemma LeavingSparesOthers(c: Denials, events: seq<Event>, t: Task)
    requires var s := Run(c, INITIAL, events); Live(s, t) && PcOf(s, t).Releasing?
    ensures var s := Run(c, INITIAL, events);
            var after := Step(c, s, ReadOwn(t));
            && after.lock == s.lock && (PcOf(after, t) == Unlinking || PcOf(after, t) == Idle)
            && (PcOf(after, t) == Unlinking ==> s.lock.Owned? && s.lock.owner == t)
            && (PcOf(after, t) == Unlinking <==> s.lock.Owned? && s.lock.token == PcOf(s, t).token)
  {
    assert TokensAreOwn(INITIAL);
    RunKeepsTokens(c, INITIAL, events);
    hide Run;
  }

  /**
   The verdict of a probe: the file is condemned exactly if no process has its owner's id, or the probe of a
   process other than one's own is refused and the file is older than thirty seconds.
   */
  lemma ProbeDecidesExactly(c: Denials, s: State, t: Task)
    requires Live(s, t) && PcOf(s, t).Judging? && PcOf(s, t).seen.Owned?
    ensures var file, after := PcOf(s, t).seen, Step(c, s, Probe(t));
            var owner := file.owner.process;
            && after.lock == s.lock && (PcOf(after, t) == Condemning || PcOf(after, t) == Reaped)
            && (PcOf(after, t) == Condemning <==>
                  || (owner in s.dead && owner !in s.reused)
                  || ((t.process, owner) in c && owner != t.process && s.clock > file.created + 30_000))
  {
  }

  // ---------- What breaks it ----------

  lemma {:induction false} RunTo(c: Denials, s: State, events: seq<Event>, states: seq<State>)
    requires |events| == |states| > 0
    requires states[0] == Step(c, s, events[0])
    requires forall i :: 0 < i < |states| ==> states[i] == Step(c, states[i - 1], events[i])
    ensures Run(c, s, events) == states[|states| - 1]
    decreases |events|
  {
    if |events| == 1 {
      assert events[1..] == [];
    } else {
      RunTo(c, states[0], events[1..], states[1..]);
    }
  }

  lemma {:induction false} RunAppend(c: Denials, s: State, first: seq<Event>, second: seq<Event>)
    ensures Run(c, s, first + second) == Run(c, Run(c, s, first), second)
    decreases |first|
  {
    if first == [] {
      assert first + second == second;
    } else {
      assert (first + second)[1..] == first[1..] + second;
      RunAppend(c, Step(c, s, first[0]), first[1..], second);
    }
  }

  function Taking(t: Task): seq<Event> {
    [Create(t), WriteOwner(t)]
  }

  function Leaving(t: Task): seq<Event> {
    [Leave(t), ReadOwn(t), Unlink(t)]
  }

  function Reading(t: Task): seq<Event> {
    [StartReap(t), ReadLock(t)]
  }

  function Evicting(t: Task): seq<Event> {
    [Probe(t), RemoveStale(t), EndReap(t)]
  }

  lemma Takes(c: Denials, s: State, t: Task)
    requires Live(s, t) && PcOf(s, t).Idle? && s.lock.Missing?
    ensures Run(c, s, Taking(t)) ==
            Go(s.(lock := Owned(t, s.nextToken, s.clock), nextToken := s.nextToken + 1), t, Critical(s.nextToken))
  {
    var s1 := Step(c, s, Create(t));
    var s2 := Step(c, s1, WriteOwner(t));
    RunTo(c, s, Taking(t), [s1, s2]);
    assert s2.pcs == s.pcs[t := Critical(s.nextToken)];
  }

  lemma Releases(c: Denials, s: State, t: Task)
    requires Live(s, t) && PcOf(s, t).Critical? && s.lock.Owned? && s.lock.token == PcOf(s, t).token
    ensures Run(c, s, Leaving(t)) == Go(s.(lock := Missing), t, Idle)
  {
    var s1 := Step(c, s, Leave(t));
    var s2 := Step(c, s1, ReadOwn(t));
    var s3 := Step(c, s2, Unlink(t));
    RunTo(c, s, Leaving(t), [s1, s2, s3]);
    assert s3.pcs == s.pcs[t := Idle];
  }

  lemma Reads(c: Denials, s: State, r: Task)
    requires Live(s, r) && PcOf(s, r).Idle? && s.reap.None? && s.lock.Owned?
    ensures Run(c, s, Reading(r)) == Go(s.(reap := Some(r)), r, Judging(s.lock))
  {
    var s1 := Step(c, s, StartReap(r));
    var s2 := Step(c, s1, ReadLock(r));
    RunTo(c, s, Reading(r), [s1, s2]);
    assert s2.pcs == s.pcs[r := Judging(s.lock)];
  }

  /** Whatever is at the lock's path when a stale verdict is carried out is removed. */
  lemma Evicts(c: Denials, s: State, r: Task)
    requires Live(s, r) && PcOf(s, r).Judging? && PcOf(s, r).seen.Owned? && Stale(c, s, r, PcOf(s, r).seen)
    ensures Run(c, s, Evicting(r)) == Go(s.(lock := Missing, reap := None), r, Idle)
  {
    var s1 := Step(c, s, Probe(r));
    var s2 := Step(c, s1, RemoveStale(r));
    var s3 := Step(c, s2, EndReap(r));
    RunTo(c, s, Evicting(r), [s1, s2, s3]);
    assert s3.pcs == s.pcs[r := Idle];
  }

  // ---------- Exactly when exclusion is lost ----------

  /** A task of a process nobody has heard of yet. */
  lemma Newcomer(s: State, others: set<Pid>) returns (t: Task)
    ensures Live(s, t) && PcOf(s, t).Idle? && t.process !in others && t !in s.pcs
  {
    var p := Unused(s.dead + (set u | u in s.pcs :: u.process) + others);
    t := Task(p, 0);
    assert t in s.pcs ==> t.process in (set u | u in s.pcs :: u.process);
  }

  lemma Unused(used: set<nat>) returns (n: nat)
    ensures n !in used && forall m :: m in used ==> m < n
  {
    if used == {} {
      n := 0;
    } else {
      var m :| m in used;
      var k := Unused(used - {m});
      n := if k <= m then m + 1 else k;
      assert used == used - {m} + {m};
    }
  }

  /** Neither deaths nor probes: such events are never dangerous. */
  predicate Harmless(events: seq<Event>) {
    forall i :: 0 <= i < |events| ==> !events[i].Die? && !events[i].Probe?
  }

  lemma {:induction false} HarmlessIsSafe(c: Denials, s: State, events: seq<Event>)
    requires Harmless(events)
    ensures SafeRun(c, s, events)
    decreases |events|
  {
    hide Step;
    if events != [] {
      HarmlessIsSafe(c, Step(c, s, events[0]), events[1..]);
    }
  }

  /** The live holder of the file at the path goes through to its removal. */
  lemma HolderFinishes(c: Denials, s: State) returns (events: seq<Event>)
    requires HoldersOwnFile(s) && OwnersHold(s) && !Forsaken(s, s.dead)
    ensures Harmless(events) && Run(c, s, events).lock.Missing?
    ensures var n := Run(c, s, events);
      n.dead == s.dead && forall t :: Live(s, t) && PcOf(s, t).Condemning? ==> PcOf(n, t).Condemning?
  {
    match s.lock
    case Missing => events := [];
    case Empty(t) =>
      events := [WriteFails(t, true)];
      RunTo(c, s, events, [Step(c, s, WriteFails(t, true))]);
    case Owned(t, token, _) =>
      match PcOf(s, t)
      case Critical(_) =>
        events := Leaving(t);
        Releases(c, s, t);
      case Releasing(_) =>
        events := [ReadOwn(t), Unlink(t)];
        var s1 := Step(c, s, ReadOwn(t));
        RunTo(c, s, events, [s1, Step(c, s1, Unlink(t))]);
      case Unlinking =>
        events := [Unlink(t)];
        RunTo(c, s, events, [Step(c, s, Unlink(t))]);
  }

  /** A reaper carries its verdict out against whoever has taken the lock meanwhile. */
  lemma CondemnedNewcomer(c: Denials, s: State, r: Task) returns (events: seq<Event>)
    requires Live(s, r) && PcOf(s, r).Condemning? && s.lock.Missing?
    ensures Harmless(events) && !Exclusive(Run(c, s, events))
  {
    hide Step, Act;
    var v := Newcomer(s, {r.process});
    Takes(c, s, v);
    var s1 := Run(c, s, Taking(v));
    Removes(c, s1, r);
    var s2 := Run(c, s1, [RemoveStale(r)]);
    var w := Newcomer(s2, {r.process, v.process});
    Takes(c, s2, w);
    events := Taking(v) + [RemoveStale(r)] + Taking(w);
    RunAppend(c, s, Taking(v), [RemoveStale(r)]);
    RunAppend(c, s, Taking(v) + [RemoveStale(r)], Taking(w));
    var both := Run(c, s, events);
    assert InCriticalSection(both, v) && InCriticalSection(both, w);
  }

  lemma Removes(c: Denials, s: State, r: Task)
    requires Live(s, r) && PcOf(s, r).Condemning?
    ensures Run(c, s, [RemoveStale(r)]) == Go(s.(lock := Missing), r, Reaped)
  {
    RunTo(c, s, [RemoveStale(r)], [Step(c, s, RemoveStale(r))]);
  }

  lemma CondemnedBreaks(c: Denials, s: State, r: Task) returns (events: seq<Event>)
    requires HoldersOwnFile(s) && OwnersHold(s) && !Forsaken(s, s.dead)
    requires Live(s, r) && PcOf(s, r).Condemning?
    ensures Harmless(events) && !Exclusive(Run(c, s, events))
  {
    hide HoldersOwnFile, OwnersHold, Forsaken, Step;
    var first := HolderFinishes(c, s);
    var second := CondemnedNewcomer(c, Run(c, s, first), r);
    RunAppend(c, s, first, second);
    events := first + second;
  }

  lemma DyingBreaks(c: Denials, s: State, p: Pid) returns (events: seq<Event>)
    requires Inv(s) && Dangerous(c, s, Die(p))
    ensures SafeRun(c, Step(c, s, Die(p)), events) && !Exclusive(Run(c, Step(c, s, Die(p)), events))
  {
    var r :| r in s.pcs && Live(s, r) && r.process != p && s.pcs[r].Judging? && s.pcs[r].seen.Owned?
      && s.pcs[r].seen.owner.process == p;
    var n := Step(c, s, Die(p));
    var condemned := Step(c, n, Probe(r));
    assert condemned == Go(n, r, Condemning);
    assert forall t :: PcOf(condemned, t) == PcOf(s, t) || t == r;
    assert Forsaken(condemned, condemned.dead) ==> Forsaken(s, s.dead + {p});
    var rest := CondemnedBreaks(c, condemned, r);
    events := [Probe(r)] + rest;
    assert events[1..] == rest;
    HarmlessIsSafe(c, condemned, rest);
  }

  lemma AgeBreaks(c: Denials, s: State, r: Task) returns (events: seq<Event>)
    requires Inv(s) && Dangerous(c, s, Probe(r))
    ensures SafeRun(c, Step(c, s, Probe(r)), events) && !Exclusive(Run(c, Step(c, s, Probe(r)), events))
  {
    var n := Step(c, s, Probe(r));
    assert n == Go(s, r, Condemning);
    assert forall t :: PcOf(n, t) == PcOf(s, t) || t == r;
    assert Forsaken(n, n.dead) ==> Forsaken(s, s.dead);
    events := CondemnedBreaks(c, n, r);
    HarmlessIsSafe(c, n, events);
  }

  lemma OnlyDeathsAndProbes(c: Denials, s: State, e: Event)
    requires Dangerous(c, s, e)
    ensures e.Die? || e.Probe?
  {
  }

  /**
   After any interleaving without a dangerous moment the lock is exclusive, and its next event can lead to
   two tasks inside, without any further danger, if and only if that event is a dangerous one: a process
   exits while a live reaper that has read its file is about to probe it and what stands at the path is not
   some dead process's file, or age decides against such a file.
   */
  lemma ExclusionExactly(c: Denials, before: seq<Event>, e: Event)
    requires SafeRun(c, INITIAL, before)
    ensures Exclusive(Run(c, INITIAL, before))
    ensures var n := Step(c, Run(c, INITIAL, before), e);
      Dangerous(c, Run(c, INITIAL, before), e) <==>
        exists events :: SafeRun(c, n, events) && !Exclusive(Run(c, n, events))
  {
    hide Step, Dangerous, Inv, Exclusive;
    InitiallySound();
    RunKeepsInv(c, INITIAL, before);
    var s := Run(c, INITIAL, before);
    if Dangerous(c, s, e) {
      OnlyDeathsAndProbes(c, s, e);
      var events: seq<Event>;
      if e.Die? {
        events := DyingBreaks(c, s, e.p);
      } else {
        events := AgeBreaks(c, s, e.t);
      }
    } else {
      StepKeepsInv(c, s, e);
      forall events | SafeRun(c, Step(c, s, e), events) ensures Exclusive(Run(c, Step(c, s, e), events)) {
        RunKeepsInv(c, Step(c, s, e), events);
      }
    }
  }

  // ---------- Both moments occur ----------

  /** A reaper reads the file of `u`, `u` releases and `v` takes the lock: now the exit of `u` is dangerous. */
  lemma StaleReadBreaks(c: Denials)
    ensures var u, v, r := Task(0, 0), Task(1, 0), Task(2, 0);
            var before := Taking(u) + Reading(r) + Leaving(u) + Taking(v);
            SafeRun(c, INITIAL, before) && Dangerous(c, Run(c, INITIAL, before), Die(u.process))
  {
    hide Step, Act;
    var u, v, r := Task(0, 0), Task(1, 0), Task(2, 0);
    Takes(c, INITIAL, u);
    var s1 := Run(c, INITIAL, Taking(u));
    Reads(c, s1, r);
    RunAppend(c, INITIAL, Taking(u), Reading(r));
    var s2 := Run(c, s1, Reading(r));
    Releases(c, s2, u);
    RunAppend(c, INITIAL, Taking(u) + Reading(r), Leaving(u));
    var s3 := Run(c, s2, Leaving(u));
    Takes(c, s3, v);
    var before := Taking(u) + Reading(r) + Leaving(u) + Taking(v);
    RunAppend(c, INITIAL, Taking(u) + Reading(r) + Leaving(u), Taking(v));
    HarmlessIsSafe(c, INITIAL, before);
    var s := Run(c, INITIAL, before);
    assert r in s.pcs && s.pcs[r] == Judging(Owned(u, 0, 0));
  }

  /** An observer that may not signal a live owner can condemn its lock once it is thirty seconds old. */
  lemma DeniedProbeBreaks(c: Denials, observer: Pid, target: Pid)
    requires (observer, target) in c && observer != target
    ensures var v, r := Task(target, 0), Task(observer, 0);
            var before := Taking(v) + [Tick(STALE_LOCK_MS + 1)] + Reading(r);
            SafeRun(c, INITIAL, before) && Dangerous(c, Run(c, INITIAL, before), Probe(r))
  {
    var v, r := Task(target, 0), Task(observer, 0);
    Takes(c, INITIAL, v);
    var taken := Run(c, INITIAL, Taking(v));
    var aged := Run(c, taken, [Tick(STALE_LOCK_MS + 1)]);
    RunTo(c, taken, [Tick(STALE_LOCK_MS + 1)], [Step(c, taken, Tick(STALE_LOCK_MS + 1))]);
    Reads(c, aged, r);
    var before := Taking(v) + [Tick(STALE_LOCK_MS + 1)] + Reading(r);
    RunAppend(c, INITIAL, Taking(v), [Tick(STALE_LOCK_MS + 1)]);
    RunAppend(c, INITIAL, Taking(v) + [Tick(STALE_LOCK_MS + 1)], Reading(r));
    HarmlessIsSafe(c, INITIAL, before);
  }

  // ---------- What a crash leaves behind ----------

  /**
   A lock file nobody will remove: its creator died before naming itself, and no reaper is about to carry out
   a verdict on an earlier file; or its owner died, and so did the reaper that holds the `.reap` file.
   */
  ghost predicate Orphaned(s: State) {
    || (s.lock.Empty? && !Live(s, s.lock.creator)
        && forall t :: Live(s, t) ==> !PcOf(s, t).Judging? && !PcOf(s, t).Condemning?)
    || (s.lock.Owned? && !Live(s, s.lock.owner) && s.reap.Some? && !Live(s, s.reap.value))
  }

  lemma OrphanStays(c: Denials, s: State, e: Event)
    requires Inv(s) && Orphaned(s)
    ensures var n := Step(c, s, e); n.lock == s.lock && Orphaned(n)
  {
    hide Stale;
    var n := Step(c, s, e);
    if OfTask(e) && Live(s, e.t) {
      assert forall t :: PcOf(n, t) == PcOf(s, t) || t == e.t;
    } else {
      assert forall t :: PcOf(n, t) == PcOf(s, t);
    }
  }

  /** Such leftovers only block: in every safe continuation the file stays and nobody is inside. */
  lemma {:induction false} OrphanBlocks(c: Denials, s: State, events: seq<Event>)
    requires Inv(s) && Orphaned(s) && SafeRun(c, s, events)
    ensures var n := Run(c, s, events); n.lock == s.lock && forall t :: !InCriticalSection(n, t)
    decreases |events|
  {
    if events != [] {
      OrphanStays(c, s, events[0]);
      StepKeepsInv(c, s, events[0]);
      OrphanBlocks(c, Step(c, s, events[0]), events[1..]);
    }
  }

  /** A dead owner's file does not block while no `.reap` file is in the way: any idle task can take the lock over. */
  lemma DeadOwnerIsReplaced(c: Denials, s: State, r: Task)
    requires s.lock.Owned? && s.lock.owner.process in s.dead && s.lock.owner.process !in s.reused
    requires s.reap.None? && Live(s, r) && PcOf(s, r).Idle?
    ensures exists events :: InCriticalSection(Run(c, s, events), r)
  {
    Reads(c, s, r);
    var read := Run(c, s, Reading(r));
    Evicts(c, read, r);
    var evicted := Run(c, read, Evicting(r));
    Takes(c, evicted, r);
    RunAppend(c, s, Reading(r), Evicting(r));
    RunAppend(c, s, Reading(r) + Evicting(r), Taking(r));
    assert InCriticalSection(Run(c, s, Reading(r) + Evicting(r) + Taking(r)), r);
  }
}
