/** When concurrent executors leave the log complete, and what happens once they do not. */
module LogHealth {
  import opened Wrappers
  import opened ProjectTypes
  import opened ProjectLog
  import opened CommandExecution
  import opened CommandInvariant
  import opened CommandSafety

  /** The published files always form one unbroken line of transactions, whatever identities they claim. */
  ghost predicate OneLine(address: Addressing, files: set<Transaction>) {
    exists log :: Linked(address, log) && Files(log) == files
  }

  ghost predicate IdentitiesUnique(files: set<Transaction>) {
    forall t, u :: t in files && u in files && t != u ==>
      t.command_id != u.command_id && EventIds(t) * EventIds(u) == {}
  }

  lemma NoRepeats(address: Addressing, log: seq<Transaction>, i: nat, j: nat)
    requires Injective(address) && Linked(address, log) && i < j < |log|
    ensures log[i] != log[j]
  {
    if log[i] == log[j] {
      TipDeterminesChain(address, log[..i + 1], log[..j + 1]);
    }
  }

  /** Over one unbroken line, complete means no two files claim one command or one event. */
  lemma LineCompleteExactlyWhenUnique(address: Addressing, files: set<Transaction>)
    requires Injective(address) && OneLine(address, files)
    ensures Complete(address, files) <==> IdentitiesUnique(files)
  {
    hide Injective;
    var log: seq<Transaction> :| Linked(address, log) && Files(log) == files;
    if IdentitiesUnique(files) {
      forall i, j | 0 <= i < j < |log|
        ensures log[i].command_id != log[j].command_id && EventIds(log[i]) * EventIds(log[j]) == {}
      {
        NoRepeats(address, log, i, j);
        assert log[i] in files && log[j] in files;
      }
      ReduceOfChain(address, log);
    }
    if Complete(address, files) {
      CompleteIsUnique(address, files);
    }
  }

  lemma CompleteIsUnique(address: Addressing, files: set<Transaction>)
    requires Complete(address, files)
    ensures IdentitiesUnique(files)
  {
    forall t, u | t in files && u in files && t != u ensures t.command_id != u.command_id
      && EventIds(t) * EventIds(u) == {} {
      assert !IdentityConflict(files, u);
    }
  }

  lemma PublishKeepsLine(address: Addressing, s: State, step: Step)
    requires Injective(address) && Inv(address, s) && OneLine(address, s.files)
    ensures OneLine(address, Next(address, s, step).files)
  {
    hide Reduce, Injective, Complete, Watermark, OneLine, Decide, DecideLost, DecideRecovery, CanMaterialize;
    var c := step.caller;
    if step.Publish? && c in s.calls && s.calls[c].Checked? {
      var call := s.calls[c];
      assert CallOk(address, s.files, s.lock, c, call);
      LineGrows(address, s.files, call.request, call.seen, call.built);
    } else {
      assert Next(address, s, step).files == s.files;
    }
  }

  lemma LineGrows(address: Addressing, files: set<Transaction>, r: Request, seen: set<Transaction>, t: Transaction)
    requires Injective(address) && BuiltFrom(address, r, seen, t) && Admitted(address, files, r, t)
      && OneLine(address, files)
    ensures OneLine(address, files + {t})
  {
    hide Injective, Reduce;
    if t in files {
      assert files + {t} == files;
    } else {
      AdmittedIsFresh(address, files, r, seen, t);
      CompleteIsItsChain(address, ProjectLog.Scan(files, {}));
      var log := Reduce(address, ProjectLog.Scan(files, {})).applied;
      WatermarkIsTip(address, ProjectLog.Scan(files, {}));
      var longer := log + [t];
      assert Files(longer) == files + {t};
      assert Linked(address, longer);
    }
  }

  lemma {:induction false} RunKeepsLine(address: Addressing, s: State, steps: seq<Step>)
    requires Injective(address) && Inv(address, s) && OneLine(address, s.files)
    ensures OneLine(address, Run(address, s, steps).files)
    decreases |steps|
  {
    hide Inv, Injective, Next, OneLine;
    if steps != [] {
      StepKeeps(address, s, steps[0]);
      PublishKeepsLine(address, s, steps[0]);
      RunKeepsLine(address, Next(address, s, steps[0]), steps[1..]);
    }
  }

  /**
   In every reachable state the log is complete exactly when no two published transactions claim one
   command id or one event id: forks, gaps and second roots never arise, repeated identities can.
   */
  lemma LogHealthExactly(address: Addressing, log: seq<Transaction>, steps: seq<Step>)
    requires Injective(address) && GoodLog(address, log)
    ensures var files := Reach(address, log, steps).files;
      Complete(address, files) <==> IdentitiesUnique(files)
  {
    hide Injective, Run, Complete;
    assert Inv(address, Start(log));
    RunKeepsLine(address, Start(log), steps);
    LineCompleteExactlyWhenUnique(address, Reach(address, log, steps).files);
  }

  // ---------- An incomplete log is frozen ----------

  ghost predicate Barred(address: Addressing, wedged: set<Transaction>, s: State, c: Caller) {
    c in s.calls ==>
      match s.calls[c]
      case Looking(_, floor) => floor == wedged
      case Lost(_, floor) => floor == wedged
      case Returning(_, _, floor) => floor == wedged
      case Failed => true
      case Dead => true
      case _ => false
  }

  lemma WedgedStep(address: Addressing, s: State, step: Step, c: Caller)
    requires Inv(address, s) && !Complete(address, s.files) && Barred(address, s.files, s, c)
    ensures Next(address, s, step).files == s.files
    ensures Barred(address, s.files, Next(address, s, step), c)
  {
    hide Reduce, Complete, Watermark;
    var d := step.caller;
    assert d in s.calls ==> CallOk(address, s.files, s.lock, d, s.calls[d]);
    if d == c && c in s.calls && (step.Look? || step.Materialize?) {
      assert Between(s.files, step.seen, s.files) ==> step.seen == s.files;
    }
  }

  /**
   Once two published transactions claim one identity, nothing is ever published again and no call
   that starts afterwards ever returns, whatever it asks for.
   */
  lemma {:induction false} WedgedForever(address: Addressing, s: State, steps: seq<Step>, c: Caller)
    requires Injective(address) && Inv(address, s) && !Complete(address, s.files) && Barred(address, s.files, s, c)
    ensures Run(address, s, steps).files == s.files
    ensures c in Run(address, s, steps).calls ==> !Run(address, s, steps).calls[c].Returned?
    decreases |steps|
  {
    hide Inv, Injective, Next, Complete;
    if steps != [] {
      StepKeeps(address, s, steps[0]);
      WedgedStep(address, s, steps[0], c);
      WedgedForever(address, Next(address, s, steps[0]), steps[1..], c);
    }
  }

  // ---------- Keeping a log healthy ----------

  /** Every command id belongs to one scope, and every event id to one call or to the log at the start. */
  datatype Ownership = Ownership(home: Id -> Scope, maker: Id -> Option<Caller>)

  ghost predicate OwnsEvents(o: Ownership, events: seq<Event>, owner: Option<Caller>) {
    forall i :: 0 <= i < |events| ==> o.maker(events[i].event_id) == owner
  }

  ghost predicate HonestStep(o: Ownership, step: Step) {
    && (step.Begin? && step.goal.Execute? ==> o.home(step.goal.request.command_id) == step.goal.request.scope)
    && (step.Look? ==> OwnsEvents(o, step.events, Some(step.caller)))
  }

  ghost predicate HomeKept(o: Ownership, files: set<Transaction>) {
    forall t :: t in files ==> o.home(t.command_id) == ScopeOf(t)
  }

  /** No published event was made by `c`. */
  ghost predicate Unpublished(o: Ownership, files: set<Transaction>, c: Caller) {
    forall t, e :: t in files && e in EventIds(t) ==> o.maker(e) != Some(c)
  }

  ghost predicate CallOwned(o: Ownership, files: set<Transaction>, c: Caller, call: Call) {
    match call
    case Looking(goal, _) =>
      && Unpublished(o, files, c)
      && (goal.Execute? ==> o.home(goal.request.command_id) == goal.request.scope)
    case Built(r, _, t) => Unpublished(o, files, c) && o.home(r.command_id) == r.scope
      && OwnsEvents(o, t.events, Some(c))
    case Holding(r, _, t) => Unpublished(o, files, c) && o.home(r.command_id) == r.scope
      && OwnsEvents(o, t.events, Some(c))
    case Checked(r, _, t) => Unpublished(o, files, c) && o.home(r.command_id) == r.scope
      && OwnsEvents(o, t.events, Some(c))
    case _ => true
  }

  ghost predicate Owned(o: Ownership, s: State) {
    && HomeKept(o, s.files)
    && (forall c :: c in s.calls ==> CallOwned(o, s.files, c, s.calls[c]))
    && (forall c :: c !in s.calls ==> Unpublished(o, s.files, c))
  }

  lemma OwnEvents(o: Ownership, t: Transaction, owner: Option<Caller>, e: Id)
    requires OwnsEvents(o, t.events, owner) && e in EventIds(t)
    ensures o.maker(e) == owner
  {
  }

  lemma PublishIsOwned(o: Ownership, files: set<Transaction>, c: Caller, t: Transaction, d: Caller)
    requires OwnsEvents(o, t.events, Some(c)) && c != d && Unpublished(o, files, d)
    ensures Unpublished(o, files + {t}, d)
  {
    forall u, e | u in files + {t} && e in EventIds(u) ensures o.maker(e) != Some(d) {
      if u == t {
        OwnEvents(o, t, Some(c), e);
      }
    }
  }

  lemma StepKeepsOwned(address: Addressing, o: Ownership, s: State, step: Step)
    requires Inv(address, s) && Owned(o, s) && HonestStep(o, step)
    ensures Owned(o, Next(address, s, step))
  {
    hide Reduce, Complete, Watermark, CanMaterialize, Unpublished, OwnsEvents;
    var c := step.caller;
    var t := Next(address, s, step);
    if step.Publish? && c in s.calls && s.calls[c].Checked? {
      var built := s.calls[c].built;
      assert CallOk(address, s.files, s.lock, c, s.calls[c]);
      forall d | d != c && Unpublished(o, s.files, d) ensures Unpublished(o, t.files, d) {
        PublishIsOwned(o, s.files, c, built, d);
      }
      forall d | d in t.calls ensures CallOwned(o, t.files, d, t.calls[d]) {
        if d != c {
          assert CallOwned(o, s.files, d, s.calls[d]);
        }
      }
      assert HomeKept(o, t.files);
    } else {
      assert t.files == s.files;
      assert c in s.calls ==> CallOwned(o, s.files, c, s.calls[c]);
    }
  }

  lemma OwnedPublishIsFresh(address: Addressing, o: Ownership, s: State, c: Caller)
    requires Injective(address) && Inv(address, s) && Owned(o, s)
    requires c in s.calls && s.calls[c].Checked? && s.calls[c].built !in s.files
    ensures FreshIdentity(s.files, s.calls[c].built)
  {
    hide Reduce, Injective, Complete, Watermark;
    var call := s.calls[c];
    assert CallOk(address, s.files, s.lock, c, call) && CallOwned(o, s.files, c, call);
    AdmittedIsFresh(address, s.files, call.request, call.seen, call.built);
    forall u | u in s.files ensures u.command_id != call.built.command_id && EventIds(u) * EventIds(call.built) == {} {
      assert ScopeOf(u) != call.request.scope;
      forall e | e in EventIds(u) && e in EventIds(call.built) ensures false {
        OwnEvents(o, call.built, Some(c), e);
      }
    }
  }

  lemma OwnedStepKeepsComplete(address: Addressing, o: Ownership, s: State, step: Step)
    requires Injective(address) && Inv(address, s) && Owned(o, s) && Complete(address, s.files)
    ensures Complete(address, Next(address, s, step).files)
  {
    hide Reduce, Injective, Owned, Decide, DecideLost, DecideRecovery, CanMaterialize, FreshIdentity;
    var c := step.caller;
    if step.Publish? && c in s.calls && s.calls[c].Checked? && s.calls[c].built !in s.files {
      var call := s.calls[c];
      assert CallOk(address, s.files, s.lock, c, call);
      OwnedPublishIsFresh(address, o, s, c);
      AdmittedIsFresh(address, s.files, call.request, call.seen, call.built);
      PublishKeepsComplete(address, ProjectLog.Scan(s.files, {}), call.built);
    } else {
      assert Next(address, s, step).files == s.files;
    }
  }

  lemma {:induction false} HonestRunKeepsComplete(address: Addressing, o: Ownership, s: State, steps: seq<Step>)
    requires Injective(address) && Inv(address, s) && Owned(o, s) && Complete(address, s.files)
    requires forall i :: 0 <= i < |steps| ==> HonestStep(o, steps[i])
    ensures Complete(address, Run(address, s, steps).files)
    decreases |steps|
  {
    hide Inv, Injective, Next, Owned, Complete, HonestStep;
    if steps != [] {
      StepKeeps(address, s, steps[0]);
      StepKeepsOwned(address, o, s, steps[0]);
      OwnedStepKeepsComplete(address, o, s, steps[0]);
      HonestRunKeepsComplete(address, o, Next(address, s, steps[0]), steps[1..]);
    }
  }

  /**
   If callers never reuse a command id under another idempotency scope, and every call draws event ids of
   its own, the log is complete in every reachable state.
   */
  lemma LogStaysComplete(address: Addressing, o: Ownership, log: seq<Transaction>, steps: seq<Step>)
    requires Injective(address) && GoodLog(address, log) && HomeKept(o, Files(log))
    requires forall t :: t in log ==> OwnsEvents(o, t.events, None)
    requires forall i :: 0 <= i < |steps| ==> HonestStep(o, steps[i])
    ensures Complete(address, Reach(address, log, steps).files)
  {
    hide Injective, Run, HonestStep, OwnsEvents;
    var s := Start(log);
    forall c: Caller ensures Unpublished(o, s.files, c) {
      forall t, e | t in s.files && e in EventIds(t) ensures o.maker(e) != Some(c) {
        OwnEvents(o, t, None, e);
      }
    }
    ReduceOfChain(address, log);
    HonestRunKeepsComplete(address, o, s, steps);
  }

  // ---------- Reusing a command id ----------

  /** One call that meets nobody else. */
  function Alone(c: Caller, r: Request, files: set<Transaction>, recorded_at: Millis, events: seq<Event>): seq<Step> {
    [Begin(c, Execute(r)), Look(c, files, recorded_at, events), Acquire(c), Check(c), Publish(c), Confirm(c)]
  }

  ghost predicate Ready(address: Addressing, s: State, c: Caller, r: Request) {
    && s.lock == None && c !in s.calls
    && Complete(address, s.files) && Watermark(address, s.files) == r.expected && ScopeUnused(s.files, r.scope)
  }

  lemma AloneBuilds(address: Addressing, s: State, c: Caller, r: Request, recorded_at: Millis, events: seq<Event>)
    requires Ready(address, s, c, r)
    ensures Next(address, Next(address, s, Begin(c, Execute(r))), Look(c, s.files, recorded_at, events)) ==
            Move(s, c, Built(r, s.files, Build(r, recorded_at, events)))
  {
    hide Reduce, Complete, Watermark;
    FindIdempotentIsExact(s.files, r.scope);
    assert s.calls[c := Looking(Execute(r), s.files)][c := Built(r, s.files, Build(r, recorded_at, events))] ==
           s.calls[c := Built(r, s.files, Build(r, recorded_at, events))];
  }

  lemma AlonePublishes(address: Addressing, s: State, c: Caller, r: Request, t: Transaction)
    requires Ready(address, s, c, r)
    ensures var built := Move(s, c, Built(r, s.files, t));
            var published := Next(address, Next(address, Next(address, built, Acquire(c)), Check(c)), Publish(c));
            && published.files == s.files + {t} && published.lock == Some(c)
              && CallIs(published, c, Published(r, s.files, t))
            && published.calls.Keys == s.calls.Keys + {c}
  {
    hide Reduce, Complete, Watermark;
  }

  lemma RunOfSix(address: Addressing, s: State, a: Step, b: Step, d: Step, e: Step, f: Step, g: Step)
    ensures Run(address, s, [a, b, d, e, f, g]) ==
      Next(address, Next(address, Next(address, Next(address, Next(address, Next(address, s, a), b), d), e), f), g)
  {
    hide Next;
    var s1 := Next(address, s, a);
    var s2 := Next(address, s1, b);
    var s3 := Next(address, s2, d);
    var s4 := Next(address, s3, e);
    var s5 := Next(address, s4, f);
    assert [a, b, d, e, f, g][1..] == [b, d, e, f, g];
    assert [b, d, e, f, g][1..] == [d, e, f, g];
    assert [d, e, f, g][1..] == [e, f, g];
    assert [e, f, g][1..] == [f, g];
    assert [f, g][1..] == [g];
    assert Run(address, s5, [g]) == Next(address, s5, g);
    assert Run(address, s4, [f, g]) == Run(address, s5, [g]);
    assert Run(address, s3, [e, f, g]) == Run(address, s4, [f, g]);
    assert Run(address, s2, [d, e, f, g]) == Run(address, s3, [e, f, g]);
    assert Run(address, s1, [b, d, e, f, g]) == Run(address, s2, [d, e, f, g]);
  }

  lemma AloneConfirms(address: Addressing, s: State, c: Caller, r: Request, seen: set<Transaction>, t: Transaction)
    requires CallIs(s, c, Published(r, seen, t)) && s.lock == Some(c)
    requires Complete(address, s.files) ==> Watermark(address, s.files) == Some(address(t))
    ensures CallIs(Next(address, s, Confirm(c)), c,
      if Complete(address, s.files) then Returning(Execute(r), t, s.files) else Lost(r, s.files))
    ensures var n := Next(address, s, Confirm(c)); n.files == s.files && n.lock == None && n.calls.Keys == s.calls.Keys
  {
    hide Reduce, Complete, Watermark;
  }

  /**
   A command id is never checked before it is used: a lone call under an unused scope always publishes,
   and succeeds exactly when its command id and event ids are new. Otherwise it has published all the
   same, and the log it leaves behind is incomplete.
   */
  lemma PublishesWhateverItsCommandId(
    address: Addressing, s: State, c: Caller, r: Request, recorded_at: Millis, events: seq<Event>)
    requires Injective(address) && Ready(address, s, c, r)
    ensures var t := Build(r, recorded_at, events);
            var after := Run(address, s, Alone(c, r, s.files, recorded_at, events));
            && after.files == s.files + {t} && after.lock == None && after.calls.Keys == s.calls.Keys + {c}
            && (Complete(address, after.files) <==> FreshIdentity(s.files, t))
            && (Complete(address, after.files) ==> Watermark(address, after.files) == Some(address(t)))
            && CallIs(after, c, if FreshIdentity(s.files, t) then Returning(Execute(r), t, after.files)
              else Lost(r, after.files))
  {
    hide Injective, Next, Run, Reduce, FreshIdentity;
    var t := Build(r, recorded_at, events);
    RunOfSix(address, s, Begin(c, Execute(r)), Look(c, s.files, recorded_at, events), Acquire(c), Check(c), Publish(c),
      Confirm(c));
    AloneBuilds(address, s, c, r, recorded_at, events);
    AlonePublishes(address, s, c, r, t);
    var built := Move(s, c, Built(r, s.files, t));
    var published := Next(address, Next(address, Next(address, built, Acquire(c)), Check(c)), Publish(c));
    assert ScopeOf(t) == r.scope;
    assert t !in s.files;
    PublishKeepsComplete(address, ProjectLog.Scan(s.files, {}), t);
    AloneConfirms(address, published, c, r, s.files, t);
  }

  /** One command id under two idempotency keys, against the log as each call finds it. */
  function FirstUse(): Request {
    Request("command", "1.0.0", Scope("project", "principal", "work.open", "first key"), None, "input")
  }

  function SecondUse(address: Addressing): Request {
    FirstUse().(scope := FirstUse().scope.(idempotency_key := "second key"),
      expected := Some(address(Build(FirstUse(), 0, []))))
  }

  lemma EmptyLogIsReady(address: Addressing)
    requires Injective(address)
    ensures Ready(address, Start([]), 0, FirstUse())
  {
    ReduceOfChain(address, []);
    assert Files([]) == {};
  }

  /** From an empty log, two lone calls with one command id: both publish, and the log is incomplete for good. */
  lemma ReusedCommandId(address: Addressing)
    requires Injective(address)
    ensures var first, second := Build(FirstUse(), 0, []), Build(SecondUse(address), 0, []);
            var between := Run(address, Start([]), Alone(0, FirstUse(), {}, 0, []));
            var after := Run(address, between, Alone(1, SecondUse(address), {first}, 0, []));
            Complete(address, between.files) && after.files == {first, second} && !Complete(address, after.files)
  {
    hide Injective, Next, Run, Reduce, Complete, Watermark;
    var first, start := Build(FirstUse(), 0, []), Start([]);
    EmptyLogIsReady(address);
    assert start.files == {};
    PublishesWhateverItsCommandId(address, start, 0, FirstUse(), 0, []);
    var between := Run(address, start, Alone(0, FirstUse(), {}, 0, []));
    assert between.files == {first} && Ready(address, between, 1, SecondUse(address));
    PublishesWhateverItsCommandId(address, between, 1, SecondUse(address), 0, []);
    assert first.command_id == Build(SecondUse(address), 0, []).command_id;
  }

  // ---------- Recovery ----------

  /** A committed command can be materialized from exactly the complete logs that hold it. */
  lemma MaterializesExactly(address: Addressing, seen: set<Transaction>, t: Transaction)
    ensures CanMaterialize(address, seen, t) <==> Complete(address, seen) && t in seen
  {
    AppliedIsChain(address, seen);
    assert Complete(address, seen) ==> Files(Applied(address, seen)) == seen;
    assert t in Applied(address, seen) <==> t in Files(Applied(address, seen));
  }

  /** Recovery finds a command exactly when one transaction, and no other, carries its id. */
  lemma RecoveryFindsExactly(command_id: Id, files: set<Transaction>, seen: set<Transaction>, t: Transaction)
    ensures DecideRecovery(command_id, files, seen) == Returning(Recover(command_id), t, files) <==>
      t in seen && t.command_id == command_id && forall u :: u in seen && u.command_id == command_id ==> u == t
  {
    var matches := set u | u in seen && u.command_id == command_id;
    SoleOfMatches(matches);
    if t in seen && t.command_id == command_id && forall u :: u in seen && u.command_id == command_id ==> u == t {
      assert matches == {t};
    }
    if matches == {t} {
      assert t in matches;
      forall u | u in seen && u.command_id == command_id ensures u == t {
        assert u in matches;
      }
    }
  }

  /**
   Recovering a published command takes up its transaction whatever its first scan, which is not atomic,
   happens to see of a healthy log; and it returns it, whatever is appended meanwhile, exactly when the last
   scan, not atomic either, is a complete log.
   */
  lemma RecoveryReturnsTheCommand(
    address: Addressing, s: State, c: Caller, t: Transaction, floor: set<Transaction>, first: set<Transaction>,
    others: seq<Step>, after: State, last: set<Transaction>)
    requires Injective(address) && Inv(address, s) && IdentitiesUnique(s.files)
    requires CallIs(s, c, Looking(Recover(t.command_id), floor)) && t in floor && Between(floor, first, s.files)
    requires forall i :: 0 <= i < |others| ==> others[i].caller != c
    requires after == Run(address, Next(address, s, Look(c, first, 0, [])), others)
      && Between(s.files, last, after.files)
    ensures CallIs(Next(address, after, Materialize(c, last)), c,
      if Complete(address, last) then Returned(Recover(t.command_id), t) else Failed)
  {
    hide Run, Inv, Injective, Reduce, Complete, Watermark;
    var found := Next(address, s, Look(c, first, 0, []));
    LookFinds(address, s, c, t, floor, first);
    StepKeeps(address, s, Look(c, first, 0, []));
    BystandersKeepCall(address, found, others, c);
    MaterializeReturnsExactly(address, after, c, Recover(t.command_id), t, s.files, last);
  }

  lemma LookFinds(
    address: Addressing, s: State, c: Caller, t: Transaction, floor: set<Transaction>, seen: set<Transaction>)
    requires IdentitiesUnique(s.files) && CallIs(s, c, Looking(Recover(t.command_id), floor))
    requires t in floor && Between(floor, seen, s.files)
    ensures CallIs(Next(address, s, Look(c, seen, 0, [])), c, Returning(Recover(t.command_id), t, s.files))
    ensures Next(address, s, Look(c, seen, 0, [])).files == s.files
  {
    hide Reduce, Complete, Watermark, DecideRecovery;
    RecoveryFindsExactly(t.command_id, s.files, seen, t);
  }

  /** The materializing scan, which is not atomic, returns the answer exactly when what it saw is a complete log. */
  lemma MaterializeReturnsExactly(
    address: Addressing, s: State, c: Caller, goal: Goal, t: Transaction, floor: set<Transaction>,
      seen: set<Transaction>)
    requires CallIs(s, c, Returning(goal, t, floor)) && t in floor && Between(floor, seen, s.files)
    ensures CallIs(Next(address, s, Materialize(c, seen)), c, if Complete(address, seen) then Returned(goal, t)
      else Failed)
  {
    hide CanMaterialize, Complete;
    MaterializesExactly(address, seen, t);
  }

  /**
   To its end: a racer that finds its scope taken under the lock, for the same input and version, rescans and
   materializes; whatever others do in between and whatever its two scans happen to see, it returns the
   winner's transaction exactly when the last scan is a complete log.
   */
  lemma LosingRacerReturnsWinner(
    address: Addressing, s: State, c: Caller, winner: Transaction, others: seq<Step>, rescanned: State,
      seen: set<Transaction>,
    more: seq<Step>, after: State, last: set<Transaction>)
    requires Injective(address) && Inv(address, s) && c in s.calls && s.calls[c].Holding?
    requires winner in s.files && winner != s.calls[c].built && Answers(Execute(s.calls[c].request), winner)
    requires forall i :: 0 <= i < |others| ==> others[i].caller != c
    requires forall i :: 0 <= i < |more| ==> more[i].caller != c
    requires rescanned == Run(address, Next(address, s, Check(c)), others) && Between(s.files, seen, rescanned.files)
    requires after == Run(address, Next(address, rescanned, Rescan(c, seen)), more)
      && Between(rescanned.files, last, after.files)
    ensures CallIs(Next(address, after, Materialize(c, last)), c,
      if Complete(address, last) then Returned(Execute(s.calls[c].request), winner) else Failed)
  {
    hide Run, Next, Inv, Injective, Reduce, Complete, Watermark;
    LosingRacerGetsWinner(address, s, c, winner, others, rescanned, seen);
    var returning := Next(address, rescanned, Rescan(c, seen));
    BystandersKeepCall(address, returning, more, c);
    assert winner in rescanned.files by {
      CheckRefusesLateRacer(address, s, c, winner);
      var lost := Next(address, s, Check(c));
      StepKeeps(address, s, Check(c));
      RunKeeps(address, lost, others);
    }
    MaterializeReturnsExactly(address, after, c, Execute(s.calls[c].request), winner, rescanned.files, last);
  }
}
