/**
 What each observation of a call decides, told by the files seen: the lookup, the check, the confirmation,
 the rescan.
 */
module CommandAnswers {
  import opened Wrappers
  import opened ProjectTypes
  import opened ProjectLog
  import opened CommandExecution
  import opened CommandInvariant

  /** `t` alone was published under the request's scope, field by field. */
  ghost predicate OnlyOneOf(seen: set<Transaction>, scope: Scope, t: Transaction) {
    && t in seen && InScope(t, scope)
    && forall u :: u in seen && InScope(u, scope) ==> u == t
  }

  predicate InScope(t: Transaction, scope: Scope) {
    && t.project_id == scope.project_id && t.principal_id == scope.principal_id
    && t.command_name == scope.command_name && t.idempotency_key == scope.idempotency_key
  }

  predicate SameAsAsked(t: Transaction, r: Request) {
    t.input_digest == r.input_digest && t.command_version == r.command_version
  }

  lemma LookupExactly(files: set<Transaction>, scope: Scope)
    ensures FindIdempotent(files, scope) == Missing <==> forall t :: t in files ==> !InScope(t, scope)
    ensures forall t :: FindIdempotent(files, scope) == Found(t) <==> OnlyOneOf(files, scope, t)
  {
    FindIdempotentIsExact(files, scope);
    assert forall t: Transaction :: InScope(t, scope) <==> ScopeOf(t) == scope;
  }

  lemma RecoveryLookupExactly(files: set<Transaction>, id: Id)
    ensures forall t :: Sole(set u | u in files && u.command_id == id) == Found(t) <==>
              t in files && t.command_id == id && forall u :: u in files && u.command_id == id ==> u == t
  {
    var matches := set u | u in files && u.command_id == id;
    SoleOfMatches(matches);
    forall t ensures matches == {t} <==>
      t in files && t.command_id == id && forall u :: u in files && u.command_id == id ==> u == t
    {
      if matches == {t} {
        assert t in matches;
        assert forall u :: u in files && u.command_id == id ==> u in matches;
      }
    }
  }

  /** Only the call itself moves; nothing is published and the lock stays as it is. */
  ghost predicate OnlyMoves(s: State, t: State, c: Caller) {
    t.files == s.files && t.lock == s.lock && c in t.calls && t.calls == s.calls[c := t.calls[c]]
  }

  /**
   Having scanned, an execution replays the one transaction of its scope if that asked for the same, builds its
   own if the scope is unused and the log is complete at the expected version, and fails otherwise.
   */
  lemma LookDecidesExactly(address: Addressing, s: State, step: Step)
    requires step.Look? && step.caller in s.calls
    requires var call := s.calls[step.caller];
             call.Looking? && call.goal.Execute? && call.floor <= step.seen && step.seen <= s.files
    ensures var r, after := s.calls[step.caller].goal.request, Next(address, s, step);
            var call := after.calls[step.caller];
            && OnlyMoves(s, after, step.caller)
            && (call.Returning? <==> exists t :: OnlyOneOf(step.seen, r.scope, t) && SameAsAsked(t, r))
            && (call.Returning? ==>
                  && call == Returning(Execute(r), call.answer, s.files)
                  && OnlyOneOf(step.seen, r.scope, call.answer))
            && (call.Built? <==>
                  && (forall t :: t in step.seen ==> !InScope(t, r.scope))
                  && Complete(address, step.seen) && Watermark(address, step.seen) == r.expected)
            && (call.Built? ==>
                  && call.request == r && call.seen == step.seen
                  && InScope(call.built, r.scope) && SameAsAsked(call.built, r)
                  && call.built.command_id == r.command_id && call.built.previous == r.expected
                  && call.built.events == step.events && call.built.recorded_at == step.recorded_at)
            && (call.Returning? || call.Built? || call.Failed?)
  {
    hide Complete, Watermark, FindIdempotent;
    LookupExactly(step.seen, s.calls[step.caller].goal.request.scope);
  }

  /** A recovery takes up the one transaction of the command, and fails if there is none or more than one. */
  lemma RecoveryDecidesExactly(address: Addressing, s: State, step: Step)
    requires step.Look? && step.caller in s.calls
    requires var call := s.calls[step.caller];
             call.Looking? && call.goal.Recover? && call.floor <= step.seen && step.seen <= s.files
    ensures var id, after := s.calls[step.caller].goal.command_id, Next(address, s, step);
            var call := after.calls[step.caller];
            && OnlyMoves(s, after, step.caller)
            && (forall t :: call == Returning(Recover(id), t, s.files) <==>
                  t in step.seen && t.command_id == id && forall u :: u in step.seen && u.command_id == id ==> u == t)
            && (call.Failed? || call == Returning(Recover(id), call.answer, s.files))
  {
    hide Sole;
    RecoveryLookupExactly(step.seen, s.calls[step.caller].goal.command_id);
  }

  /** Under the lock a call may publish exactly if the log is complete and at the expected version, or at its own. */
  lemma CheckDecidesExactly(address: Addressing, s: State, c: Caller)
    requires c in s.calls && s.calls[c].Holding?
    ensures var call, after := s.calls[c], Next(address, s, Check(c));
            var fits := Complete(address, s.files) && (Watermark(address, s.files) == call.request.expected
              || Watermark(address, s.files) == Some(address(call.built)));
            && after.files == s.files
            && after.calls == s.calls[c := if fits then Checked(call.request, call.seen, call.built)
                                           else Lost(call.request, s.files)]
            && after.lock == if !fits && s.lock == Some(c) then None else s.lock
  {
    hide Complete, Watermark;
  }

  /** Having published, a call goes on with its own transaction exactly if that is the tip of a complete log. */
  lemma ConfirmDecidesExactly(address: Addressing, s: State, c: Caller)
    requires c in s.calls && s.calls[c].Published?
    ensures var call, after := s.calls[c], Next(address, s, Confirm(c));
            && after.files == s.files && after.lock != Some(c) && (s.lock != Some(c) ==> after.lock == s.lock)
            && after.calls == s.calls[c := after.calls[c]]
            && (after.calls[c] == Returning(Execute(call.request), call.built, s.files) <==>
                  Complete(address, s.files) && Watermark(address, s.files) == Some(address(call.built)))
            && (after.calls[c] == Lost(call.request, s.files) <==> !Complete(address, s.files))
            && (after.calls[c] == Failed <==>
                  Complete(address, s.files) && Watermark(address, s.files) != Some(address(call.built)))
  {
    hide Complete, Watermark;
  }

  /** Having lost, a call takes the one transaction of its scope that asked for the same, or fails. */
  lemma RescanDecidesExactly(address: Addressing, s: State, step: Step)
    requires step.Rescan? && step.caller in s.calls
    requires var call := s.calls[step.caller];
             call.Lost? && call.floor <= step.seen && step.seen <= s.files
    ensures var r, after := s.calls[step.caller].request, Next(address, s, step);
            var call := after.calls[step.caller];
            && OnlyMoves(s, after, step.caller)
            && (forall t :: call == Returning(Execute(r), t, s.files) <==>
                  OnlyOneOf(step.seen, r.scope, t) && SameAsAsked(t, r))
            && (call.Failed? || call == Returning(Execute(r), call.answer, s.files))
  {
    hide FindIdempotent;
    LookupExactly(step.seen, s.calls[step.caller].request.scope);
  }
}
