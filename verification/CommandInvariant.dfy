/** What every step of every executor keeps, and why the check under the writer lock suffices. */
module CommandInvariant {
  import opened Wrappers
  import opened ProjectTypes
  import opened ProjectLog
  import opened CommandExecution

  // ---------- The invariant ----------

  ghost predicate ScopeUnique(files: set<Transaction>) {
    forall t, u :: t in files && u in files && ScopeOf(t) == ScopeOf(u) ==> t == u
  }

  ghost predicate ScopeUnused(files: set<Transaction>, scope: Scope) {
    forall t :: t in files ==> ScopeOf(t) != scope
  }

  predicate Answers(goal: Goal, t: Transaction) {
    match goal
    case Execute(r) => ScopeOf(t) == r.scope && SameInput(t, r)
    case Recover(id) => t.command_id == id
  }

  ghost predicate BuiltFrom(address: Addressing, r: Request, seen: set<Transaction>, t: Transaction) {
    && t == Build(r, t.recorded_at, t.events)
    && Complete(address, seen) && Watermark(address, seen) == r.expected
    && ScopeUnused(seen, r.scope)
  }

  ghost predicate Admitted(address: Addressing, files: set<Transaction>, r: Request, t: Transaction) {
    && Complete(address, files)
    && (Watermark(address, files) == Some(address(t)) || Watermark(address, files) == r.expected)
  }

  ghost predicate CallOk(address: Addressing, files: set<Transaction>, lock: Option<Caller>, c: Caller, call: Call) {
    match call
    case Looking(_, floor) => floor <= files
    case Built(r, seen, t) => BuiltFrom(address, r, seen, t)
    case Holding(r, seen, t) => lock == Some(c) && BuiltFrom(address, r, seen, t)
    case Checked(r, seen, t) => lock == Some(c) && BuiltFrom(address, r, seen, t) && Admitted(address, files, r, t)
    case Published(r, seen, t) => lock == Some(c) && BuiltFrom(address, r, seen, t) && t in files
    case Lost(_, floor) => floor <= files
    case Returning(goal, t, floor) => floor <= files && t in files && Answers(goal, t)
    case Returned(goal, t) => t in files && Answers(goal, t)
    case Failed => true
    case Dead => true
  }

  ghost predicate CallsOk(address: Addressing, s: State) {
    forall c :: c in s.calls ==> CallOk(address, s.files, s.lock, c, s.calls[c])
  }

  ghost predicate Inv(address: Addressing, s: State) {
    ScopeUnique(s.files) && CallsOk(address, s)
  }

  lemma SoleOfMatches(matches: set<Transaction>)
    ensures Sole(matches) == Missing <==> matches == {}
    ensures forall t :: Sole(matches) == Found(t) <==> matches == {t}
  {
    if matches != {} {
      var t :| t in matches && Sole(matches) == if matches == {t} then Found(t) else Duplicate;
    }
  }

  lemma FindIdempotentIsExact(files: set<Transaction>, scope: Scope)
    ensures FindIdempotent(files, scope) == Missing <==> ScopeUnused(files, scope)
    ensures forall t :: FindIdempotent(files, scope) == Found(t) <==>
      t in files && ScopeOf(t) == scope && forall u :: u in files && ScopeOf(u) == scope ==> u == t
  {
    var matches := set t | t in files && ScopeOf(t) == scope;
    SoleOfMatches(matches);
    assert matches == {} <==> ScopeUnused(files, scope) by {
      if !ScopeUnused(files, scope) {
        var t :| t in files && ScopeOf(t) == scope;
        assert t in matches;
      }
    }
    forall t
      ensures matches == {t} <==> t in files && ScopeOf(t) == scope && forall u :: u in files && ScopeOf(u) == scope ==>
        u == t
    {
      if t in files && ScopeOf(t) == scope && forall u :: u in files && ScopeOf(u) == scope ==> u == t {
        assert matches == {t};
      }
      if matches == {t} {
        assert t in matches;
        forall u | u in files && ScopeOf(u) == scope ensures u == t {
          assert u in matches;
        }
      }
    }
  }

  /** Only the lock holder reads or writes under the lock, so one call's step leaves the others standing. */
  lemma OthersStandStill(address: Addressing, s: State, t: State, c: Caller, call: Call)
    requires CallsOk(address, s) && t.calls == s.calls[c := call]
    requires CallOk(address, t.files, t.lock, c, call)
    requires t.lock == s.lock || s.lock == None || s.lock == Some(c)
    requires t.files == s.files || (s.lock == Some(c) && s.files <= t.files)
    ensures CallsOk(address, t)
  {
    hide BuiltFrom, Admitted, Answers;
    forall d | d in t.calls ensures CallOk(address, t.files, t.lock, d, t.calls[d]) {
      if d != c {
        assert CallOk(address, s.files, s.lock, d, s.calls[d]);
      }
    }
  }

  lemma LookKeeps(address: Addressing, s: State, step: Step)
    requires Inv(address, s) && step.Look?
    ensures Inv(address, Next(address, s, step))
  {
    hide Reduce;
    var c := step.caller;
    if c in s.calls && s.calls[c].Looking? && Between(s.calls[c].floor, step.seen, s.files) {
      var t := Next(address, s, step);
      match s.calls[c].goal
      case Execute(r) =>
        FindIdempotentIsExact(step.seen, r.scope);
      case Recover(id) =>
        SoleOfMatches(set t | t in step.seen && t.command_id == id);
        var matches := set t | t in step.seen && t.command_id == id;
        if Sole(matches).Found? {
          assert Sole(matches).transaction in matches;
        }
      OthersStandStill(address, s, t, c, t.calls[c]);
    }
  }

  lemma CheckKeeps(address: Addressing, s: State, step: Step)
    requires Inv(address, s) && step.Check?
    ensures Inv(address, Next(address, s, step))
  {
    hide Reduce, Complete, Watermark;
    var c := step.caller;
    if c in s.calls && s.calls[c].Holding? {
      var t := Next(address, s, step);
      assert CallOk(address, s.files, s.lock, c, s.calls[c]);
      OthersStandStill(address, s, t, c, t.calls[c]);
    }
  }

  lemma TipIsAFile(address: Addressing, files: set<Transaction>, t: Transaction)
    requires Injective(address) && Watermark(address, files) == Some(address(t))
    ensures t in files
  {
    AppliedIsChain(address, files);
    var log := Applied(address, files);
    assert address(log[|log| - 1]) == address(t);
    assert t in Files(log);
  }

  /**
   Why the check under the lock suffices: a log with the watermark the caller saw holds exactly
   the files the caller saw, so the lookup it made before taking the lock still stands.
   */
  lemma AdmittedIsFresh(
    address: Addressing, files: set<Transaction>, r: Request, seen: set<Transaction>, t: Transaction)
    requires Injective(address) && BuiltFrom(address, r, seen, t) && Admitted(address, files, r, t)
    ensures t in files || (files == seen && ScopeUnused(files, r.scope))
  {
    hide Reduce;
    if Watermark(address, files) == Some(address(t)) {
      TipIsAFile(address, files, t);
    } else {
      WatermarkDeterminesFiles(address, ProjectLog.Scan(files, {}), ProjectLog.Scan(seen, {}));
    }
  }

  lemma PublishKeeps(address: Addressing, s: State, step: Step)
    requires Injective(address) && Inv(address, s) && step.Publish?
    ensures Inv(address, Next(address, s, step))
  {
    hide Reduce, Complete, Watermark, Injective;
    var c := step.caller;
    if c in s.calls && s.calls[c].Checked? {
      var call := s.calls[c];
      var t := Next(address, s, step);
      assert CallOk(address, s.files, s.lock, c, call);
      AdmittedIsFresh(address, s.files, call.request, call.seen, call.built);
      OthersStandStill(address, s, t, c, t.calls[c]);
      if call.built in s.files {
        assert t.files == s.files;
      }
    }
  }

  lemma ConfirmKeeps(address: Addressing, s: State, step: Step)
    requires Inv(address, s) && step.Confirm?
    ensures Inv(address, Next(address, s, step))
  {
    hide Reduce, Complete, Watermark;
    var c := step.caller;
    if c in s.calls && s.calls[c].Published? {
      var t := Next(address, s, step);
      assert CallOk(address, s.files, s.lock, c, s.calls[c]);
      OthersStandStill(address, s, t, c, t.calls[c]);
    }
  }

  lemma RescanKeeps(address: Addressing, s: State, step: Step)
    requires Inv(address, s) && step.Rescan?
    ensures Inv(address, Next(address, s, step))
  {
    hide Reduce, Complete, Watermark;
    var c := step.caller;
    if c in s.calls && s.calls[c].Lost? && Between(s.calls[c].floor, step.seen, s.files) {
      var t := Next(address, s, step);
      FindIdempotentIsExact(step.seen, s.calls[c].request.scope);
      OthersStandStill(address, s, t, c, t.calls[c]);
    }
  }

  lemma MaterializeKeeps(address: Addressing, s: State, step: Step)
    requires Inv(address, s) && step.Materialize?
    ensures Inv(address, Next(address, s, step))
  {
    hide Reduce, CanMaterialize;
    var c := step.caller;
    if c in s.calls && s.calls[c].Returning? && Between(s.calls[c].floor, step.seen, s.files) {
      var t := Next(address, s, step);
      assert CallOk(address, s.files, s.lock, c, s.calls[c]);
      OthersStandStill(address, s, t, c, t.calls[c]);
    }
  }

  lemma QuietStepKeeps(address: Addressing, s: State, step: Step)
    requires Inv(address, s)
    requires step.Begin? || step.Acquire? || step.GiveUp? || step.Fault? || step.Crash? || step.Reap?
    ensures Inv(address, Next(address, s, step))
  {
    hide Reduce, BuiltFrom, Answers;
    var c := step.caller;
    var t := Next(address, s, step);
    if t != s {
      assert c in s.calls ==> CallOk(address, s.files, s.lock, c, s.calls[c]);
      assert t.calls == s.calls[c := t.calls[c]];
      OthersStandStill(address, s, t, c, t.calls[c]);
    }
  }

  lemma StepKeeps(address: Addressing, s: State, step: Step)
    requires Injective(address) && Inv(address, s)
    ensures Inv(address, Next(address, s, step)) && s.files <= Next(address, s, step).files
  {
    hide Inv, Injective, Reduce, Complete, Watermark;
    match step
    case Look(_, _, _, _) => LookKeeps(address, s, step);
    case Check(_) => CheckKeeps(address, s, step);
    case Publish(_) => PublishKeeps(address, s, step);
    case Confirm(_) => ConfirmKeeps(address, s, step);
    case Rescan(_, _) => RescanKeeps(address, s, step);
    case Materialize(_, _) => MaterializeKeeps(address, s, step);
    case _ => QuietStepKeeps(address, s, step);
  }

  lemma {:induction false} RunKeeps(address: Addressing, s: State, steps: seq<Step>)
    requires Injective(address) && Inv(address, s)
    ensures Inv(address, Run(address, s, steps)) && s.files <= Run(address, s, steps).files
    decreases |steps|
  {
    hide Inv, Injective, Next;
    if steps != [] {
      StepKeeps(address, s, steps[0]);
      RunKeeps(address, Next(address, s, steps[0]), steps[1..]);
    }
  }
}
