/** What holds over every run of concurrent executors: one transaction per idempotency scope, and a log's health. */
module CommandSafety {
  import opened ProjectTypes
  import opened ProjectLog
  import opened CommandExecution
  import opened CommandInvariant

  ghost predicate GoodLog(address: Addressing, log: seq<Transaction>) {
    IsChain(address, log) && ScopeUnique(Files(log))
  }

  ghost function Reach(address: Addressing, log: seq<Transaction>, steps: seq<Step>): State {
    Run(address, Start(log), steps)
  }

  /** Idempotency scope uniqueness, over every interleaving with crashes and retries. */
  lemma OneTransactionPerScope(address: Addressing, log: seq<Transaction>, steps: seq<Step>)
    requires Injective(address) && GoodLog(address, log)
    ensures Inv(address, Reach(address, log, steps))
    ensures ScopeUnique(Reach(address, log, steps).files)
  {
    assert Inv(address, Start(log));
    RunKeeps(address, Start(log), steps);
  }

  /** Two calls under one scope that both return have returned the same transaction, made for the same input. */
  lemma CallsAgree(address: Addressing, log: seq<Transaction>, steps: seq<Step>, c: Caller, d: Caller)
    requires Injective(address) && GoodLog(address, log)
    ensures var calls := Reach(address, log, steps).calls;
      c in calls && d in calls && calls[c].Returned? && calls[d].Returned?
      && calls[c].goal.Execute? && calls[d].goal.Execute?
        && calls[c].goal.request.scope == calls[d].goal.request.scope ==>
        && calls[c].answer == calls[d].answer
        && calls[c].answer in Reach(address, log, steps).files
        && calls[c].goal.request.input_digest == calls[d].goal.request.input_digest
        && calls[c].goal.request.command_version == calls[d].goal.request.command_version
  {
    hide Run, Injective;
    OneTransactionPerScope(address, log, steps);
    var s := Reach(address, log, steps);
    if c in s.calls && d in s.calls {
      assert CallOk(address, s.files, s.lock, c, s.calls[c]) && CallOk(address, s.files, s.lock, d, s.calls[d]);
    }
  }

  lemma BystanderStepKeepsCall(address: Addressing, s: State, step: Step, c: Caller)
    requires c in s.calls && step.caller != c
    ensures c in Next(address, s, step).calls && Next(address, s, step).calls[c] == s.calls[c]
  {
    hide Reduce, Complete, Watermark, Decide, DecideLost, DecideRecovery, CanMaterialize;
  }

  lemma {:induction false} BystandersKeepCall(address: Addressing, s: State, steps: seq<Step>, c: Caller)
    requires c in s.calls && forall i :: 0 <= i < |steps| ==> steps[i].caller != c
    ensures c in Run(address, s, steps).calls && Run(address, s, steps).calls[c] == s.calls[c]
    decreases |steps|
  {
    hide Next;
    if steps != [] {
      BystanderStepKeepsCall(address, s, steps[0], c);
      BystandersKeepCall(address, Next(address, s, steps[0]), steps[1..], c);
    }
  }

  ghost predicate CallIs(s: State, c: Caller, call: Call) {
    c in s.calls && s.calls[c] == call
  }

  lemma CheckRefusesLateRacer(address: Addressing, s: State, c: Caller, winner: Transaction)
    requires Injective(address) && Inv(address, s)
    requires c in s.calls && s.calls[c].Holding?
    requires winner in s.files && ScopeOf(winner) == s.calls[c].request.scope && winner != s.calls[c].built
    ensures CallIs(Next(address, s, Check(c)), c, Lost(s.calls[c].request, s.files))
    ensures Inv(address, Next(address, s, Check(c)))
  {
    hide Reduce, Injective, Complete, Watermark;
    var call := s.calls[c];
    assert CallOk(address, s.files, s.lock, c, call);
    if Admitted(address, s.files, call.request, call.built) {
      AdmittedIsFresh(address, s.files, call.request, call.seen, call.built);
    }
    CheckKeeps(address, s, Check(c));
  }

  lemma RescanFindsWinner(
    address: Addressing, s: State, c: Caller, floor: set<Transaction>, request: Request, winner: Transaction,
    seen: set<Transaction>)
    requires Inv(address, s) && CallIs(s, c, Lost(request, floor))
    requires winner in floor && Answers(Execute(request), winner) && Between(floor, seen, s.files)
    ensures CallIs(Next(address, s, Rescan(c, seen)), c, Returning(Execute(request), winner, s.files))
  {
    hide Reduce;
    WinnerIsFound(s.files, seen, request.scope, winner);
  }

  /**
   A racer that holds a transaction it built, finds its scope already taken under the lock, and asked for
   the same input and version, gets the winner back: whatever other calls do before its rescan, and
   whatever that rescan, which is not atomic, happens to see.
   */
  lemma LosingRacerGetsWinner(
    address: Addressing, s: State, c: Caller, winner: Transaction, others: seq<Step>, after: State,
      seen: set<Transaction>)
    requires Injective(address) && Inv(address, s)
    requires c in s.calls && s.calls[c].Holding?
    requires winner in s.files && winner != s.calls[c].built && Answers(Execute(s.calls[c].request), winner)
    requires forall i :: 0 <= i < |others| ==> others[i].caller != c
    requires after == Run(address, Next(address, s, Check(c)), others) && Between(s.files, seen, after.files)
    ensures CallIs(Next(address, after, Rescan(c, seen)), c,
      Returning(Execute(s.calls[c].request), winner, after.files))
  {
    hide Run, Next, Inv, Injective, Reduce, Complete, Watermark;
    var lost := Next(address, s, Check(c));
    CheckRefusesLateRacer(address, s, c, winner);
    BystandersKeepCall(address, lost, others, c);
    RunKeeps(address, lost, others);
    RescanFindsWinner(address, after, c, s.files, s.calls[c].request, winner, seen);
  }

  lemma WinnerIsFound(files: set<Transaction>, seen: set<Transaction>, scope: Scope, winner: Transaction)
    requires ScopeUnique(files) && seen <= files && winner in seen && ScopeOf(winner) == scope
    ensures FindIdempotent(seen, scope) == Found(winner)
  {
    FindIdempotentIsExact(seen, scope);
  }

  /** A retry after a crash: once a scope is published, any later call under it with the same input only replays. */
  lemma RetryReplays(address: Addressing, s: State, c: Caller, t: Transaction, step: Step)
    requires Injective(address) && Inv(address, s) && t in s.files
    requires c in s.calls && s.calls[c].Looking? && s.calls[c].goal.Execute? && Answers(s.calls[c].goal, t)
    requires step.Look? && step.caller == c && t in s.calls[c].floor && Between(s.calls[c].floor, step.seen, s.files)
    ensures Next(address, s, step) == Move(s, c, Returning(s.calls[c].goal, t, s.files))
  {
    hide Reduce, Complete, Watermark, Injective;
    WinnerIsFound(s.files, step.seen, s.calls[c].goal.request.scope, t);
  }
}
