/** When a command is completed, and what stays true of it over crashes, retries and replays. */
module OutcomeRuns {
  import opened ProjectTypes
  import opened CommandOutcome

  // ---------- Reading the collected lists ----------

  predicate Aligned(effects: seq<Effect>, responses: seq<Response>) {
    && |effects| == |responses| && KeysDistinct(effects)
    && forall i :: 0 <= i < |effects| && responses[i].Received? ==>
      responses[i].receipt.effect_key == effects[i].effect_key
  }

  lemma {:induction false} InGoverned(effects: seq<Effect>, key: string)
    ensures HasKey(Governed(effects), key) <==>
      exists i :: 0 <= i < |effects| && effects[i].required && effects[i].effect_key == key
  {
    if effects != [] {
      var k := |effects| - 1;
      InGoverned(effects[..k], key);
      var front := Governed(effects[..k]);
      if effects[k].required {
        var all := front + [effects[k]];
        assert HasKey(front, key) ==> HasKey(all, key) by {
          if HasKey(front, key) {
            var i :| 0 <= i < |front| && front[i].effect_key == key;
            assert all[i].effect_key == key;
          }
        }
        assert all[|front|] == effects[k];
      }
    }
  }

  /** A key names one effect, so the governed keys are those of the required effects. */
  lemma RequiredExactly(effects: seq<Effect>, i: nat)
    requires KeysDistinct(effects) && i < |effects|
    ensures HasKey(Governed(effects), effects[i].effect_key) <==> effects[i].required
  {
    InGoverned(effects, effects[i].effect_key);
  }

  function Good(effects: seq<Effect>, responses: seq<Response>): nat
    requires |effects| == |responses|
  {
    if effects == [] then 0
    else
      var k := |effects| - 1;
      Good(effects[..k], responses[..k])
      + (if effects[k].required && responses[k].Received? && responses[k].receipt.delivered then 1 else 0)
  }

  lemma {:induction false} DeliveredIsGood(all: seq<Effect>, effects: seq<Effect>, responses: seq<Response>)
    requires KeysDistinct(all) && effects <= all && Aligned(effects, responses)
    ensures DeliveredCount(GovernedDeliveries(Governed(all), Collect(effects, responses).deliveries)) ==
      Good(effects, responses)
  {
    hide Governed;
    if effects != [] {
      var k := |effects| - 1;
      DeliveredIsGood(all, effects[..k], responses[..k]);
      RequiredExactly(all, k);
    }
  }

  lemma {:induction false} GoodIsAllExactly(effects: seq<Effect>, responses: seq<Response>)
    requires |effects| == |responses|
    ensures Good(effects, responses) <= |Governed(effects)|
    ensures Good(effects, responses) == |Governed(effects)| <==> AllGood(effects, responses)
  {
    if effects != [] {
      GoodIsAllExactly(effects[..|effects| - 1], responses[..|effects| - 1]);
    }
  }

  /** Every required effect has been delivered. */
  predicate AllGood(effects: seq<Effect>, responses: seq<Response>)
    requires |effects| == |responses|
  {
    forall i :: 0 <= i < |effects| && effects[i].required ==> responses[i].Received? && responses[i].receipt.delivered
  }

  lemma {:induction false} InDeliveries(effects: seq<Effect>, responses: seq<Response>, d: Delivery)
    requires |effects| == |responses|
    ensures d in Collect(effects, responses).deliveries <==> Received(d) in responses
  {
    if effects != [] {
      var k := |effects| - 1;
      InDeliveries(effects[..k], responses[..k], d);
      assert responses == responses[..k] + [responses[k]];
    }
  }

  lemma {:induction false} InPending(effects: seq<Effect>, responses: seq<Response>, key: string)
    requires |effects| == |responses|
    ensures HasKey(Collect(effects, responses).pending, key) <==>
      exists i :: 0 <= i < |effects| && responses[i].Pending? && effects[i].effect_key == key
  {
    if effects != [] {
      var k := |effects| - 1;
      InPending(effects[..k], responses[..k], key);
      var front := Collect(effects[..k], responses[..k]).pending;
      var all := Collect(effects, responses).pending;
      assert forall i :: 0 <= i < |front| ==> all[i] == front[i];
      if HasKey(front, key) {
        var i :| 0 <= i < |front| && front[i].effect_key == key;
        assert all[i].effect_key == key;
      }
      if responses[k].Pending? {
        assert all[|front|] == effects[k];
      }
    }
  }

  lemma {:induction false} InFailures(effects: seq<Effect>, responses: seq<Response>, key: string)
    requires |effects| == |responses|
    ensures key in Collect(effects, responses).failures <==>
      exists i :: 0 <= i < |effects| && responses[i].Failed? && effects[i].effect_key == key
  {
    if effects != [] {
      InFailures(effects[..|effects| - 1], responses[..|effects| - 1], key);
    }
  }

  lemma {:induction false} InGovernedDeliveries(governed: seq<Effect>, deliveries: seq<Delivery>, d: Delivery)
    ensures d in GovernedDeliveries(governed, deliveries) <==> d in deliveries && HasKey(governed, d.effect_key)
  {
    if deliveries != [] {
      var k := |deliveries| - 1;
      InGovernedDeliveries(governed, deliveries[..k], d);
      assert deliveries == deliveries[..k] + [deliveries[k]];
    }
  }

  lemma GovernedIndex(effects: seq<Effect>, i: nat)
    requires i < |Governed(effects)|
    ensures exists j :: 0 <= j < |effects| && effects[j].required && effects[j] == Governed(effects)[i]
  {
    if i < |Governed(effects[..|effects| - 1])| {
      GovernedIndex(effects[..|effects| - 1], i);
    }
  }

  lemma KeyOfRequired(effects: seq<Effect>, i: nat, key: string)
    requires KeysDistinct(effects) && i < |effects| && effects[i].effect_key == key && HasKey(Governed(effects), key)
    ensures effects[i].required
  {
    RequiredExactly(effects, i);
  }

  lemma CompletedDeliversAll(effects: seq<Effect>, responses: seq<Response>, i: nat)
    requires Aligned(effects, responses) && Decide(effects, Collect(effects, responses)) == Completed
    requires i < |effects| && effects[i].required
    ensures responses[i].Received? && responses[i].receipt.delivered
  {
    hide Governed, Collect, GovernedDeliveries;
    var c, governed := Collect(effects, responses), Governed(effects);
    var deliveries := GovernedDeliveries(governed, c.deliveries);
    RequiredExactly(effects, i);
    var g :| 0 <= g < |governed| && governed[g].effect_key == effects[i].effect_key;
    assert DeliversKey(deliveries, effects[i].effect_key);
    var n :| 0 <= n < |deliveries| && deliveries[n].effect_key == effects[i].effect_key;
    InGovernedDeliveries(governed, c.deliveries, deliveries[n]);
    InDeliveries(effects, responses, deliveries[n]);
    var j :| 0 <= j < |responses| && responses[j] == Received(deliveries[n]);
    assert effects[j].effect_key == effects[i].effect_key;
  }

  lemma AllGoodHasNoDeadLetter(effects: seq<Effect>, responses: seq<Response>)
    requires Aligned(effects, responses) && AllGood(effects, responses)
    ensures !AnyDeadLetter(GovernedDeliveries(Governed(effects), Collect(effects, responses).deliveries))
  {
    hide Governed, Collect, GovernedDeliveries;
    var c, governed := Collect(effects, responses), Governed(effects);
    var deliveries := GovernedDeliveries(governed, c.deliveries);
    forall n | 0 <= n < |deliveries| ensures deliveries[n].delivered {
      InGovernedDeliveries(governed, c.deliveries, deliveries[n]);
      InDeliveries(effects, responses, deliveries[n]);
      var j :| 0 <= j < |responses| && responses[j] == Received(deliveries[n]);
      KeyOfRequired(effects, j, deliveries[n].effect_key);
    }
  }

  lemma AllGoodHasNoFailure(effects: seq<Effect>, responses: seq<Response>)
    requires Aligned(effects, responses) && AllGood(effects, responses)
    ensures !AnyFailure(Governed(effects), Collect(effects, responses).failures)
  {
    hide Governed, Collect;
    var governed := Governed(effects);
    forall g | 0 <= g < |governed| ensures governed[g].effect_key !in Collect(effects, responses).failures {
      var key := governed[g].effect_key;
      InFailures(effects, responses, key);
      forall j | 0 <= j < |effects| && effects[j].effect_key == key ensures !responses[j].Failed? {
        KeyOfRequired(effects, j, key);
      }
    }
  }

  lemma AllGoodHasNothingPending(effects: seq<Effect>, responses: seq<Response>)
    requires Aligned(effects, responses) && AllGood(effects, responses)
    ensures var c := Collect(effects, responses);
      !AnyPending(Governed(effects), c.pending, GovernedDeliveries(Governed(effects), c.deliveries))
  {
    hide Governed, Collect, GovernedDeliveries;
    var c, governed := Collect(effects, responses), Governed(effects);
    var deliveries := GovernedDeliveries(governed, c.deliveries);
    forall g | 0 <= g < |governed|
      ensures !HasKey(c.pending, governed[g].effect_key) && DeliversKey(deliveries, governed[g].effect_key)
    {
      var key := governed[g].effect_key;
      GovernedIndex(effects, g);
      var i :| 0 <= i < |effects| && effects[i].required && effects[i] == governed[g];
      var d := responses[i].receipt;
      InPending(effects, responses, key);
      InDeliveries(effects, responses, d);
      InGovernedDeliveries(governed, c.deliveries, d);
      assert d in deliveries;
    }
  }

  /**
   The outcome is `completed` exactly when every required effect was answered with a delivery, which is
   exactly when the delivered count equals the required count.
   */
  lemma CompletedExactly(effects: seq<Effect>, responses: seq<Response>)
    requires Aligned(effects, responses)
    ensures var c := Collect(effects, responses);
      && (Decide(effects, c) == Completed <==> AllGood(effects, responses))
      && (Decide(effects, c) == Completed <==> Delivered(effects, c) == |Governed(effects)|)
  {
    hide Collect, Governed, GovernedDeliveries, Decide;
    DeliveredIsGood(effects, effects, responses);
    GoodIsAllExactly(effects, responses);
    if Decide(effects, Collect(effects, responses)) == Completed {
      forall i | 0 <= i < |effects| && effects[i].required ensures responses[i].Received?
        && responses[i].receipt.delivered {
        CompletedDeliversAll(effects, responses, i);
      }
    }
    if AllGood(effects, responses) {
      AllGoodHasNoDeadLetter(effects, responses);
      AllGoodHasNoFailure(effects, responses);
      AllGoodHasNothingPending(effects, responses);
      NothingWrongIsCompleted(effects, Collect(effects, responses));
    }
  }

  lemma NothingWrongIsCompleted(effects: seq<Effect>, c: Collected)
    requires var deliveries := GovernedDeliveries(Governed(effects), c.deliveries);
      !AnyDeadLetter(deliveries) && !AnyFailure(Governed(effects), c.failures)
        && !AnyPending(Governed(effects), c.pending, deliveries)
    ensures Decide(effects, c) == Completed
  {
  }

  /** A required effect was refused for good, or answered with a receipt that says it was not delivered. */
  predicate Spoiled(effects: seq<Effect>, responses: seq<Response>)
    requires |effects| == |responses|
  {
    exists i :: 0 <= i < |effects| && effects[i].required
      && (responses[i] == Failed || (responses[i].Received? && !responses[i].receipt.delivered))
  }

  predicate Waiting(effects: seq<Effect>, responses: seq<Response>)
    requires |effects| == |responses|
  {
    exists i :: 0 <= i < |effects| && effects[i].required && responses[i] == Pending
  }

  lemma SpoiledNeedsRepair(effects: seq<Effect>, responses: seq<Response>)
    requires Aligned(effects, responses) && Spoiled(effects, responses)
    ensures Decide(effects, Collect(effects, responses)) == NeedsRepair
  {
    hide Governed, Collect, GovernedDeliveries;
    var c, governed := Collect(effects, responses), Governed(effects);
    var i :| 0 <= i < |effects| && effects[i].required
      && (responses[i] == Failed || (responses[i].Received? && !responses[i].receipt.delivered));
    RequiredExactly(effects, i);
    if responses[i] == Failed {
      InFailures(effects, responses, effects[i].effect_key);
      assert AnyFailure(governed, c.failures);
    } else {
      InDeliveries(effects, responses, responses[i].receipt);
      InGovernedDeliveries(governed, c.deliveries, responses[i].receipt);
      assert AnyDeadLetter(GovernedDeliveries(governed, c.deliveries));
    }
  }

  lemma NeedsRepairIsSpoiled(effects: seq<Effect>, responses: seq<Response>)
    requires Aligned(effects, responses) && Decide(effects, Collect(effects, responses)) == NeedsRepair
    ensures Spoiled(effects, responses)
  {
    hide Governed, Collect, GovernedDeliveries, AnyPending;
    var c, governed := Collect(effects, responses), Governed(effects);
    var deliveries := GovernedDeliveries(governed, c.deliveries);
    if AnyDeadLetter(deliveries) {
      var n :| 0 <= n < |deliveries| && !deliveries[n].delivered;
      InGovernedDeliveries(governed, c.deliveries, deliveries[n]);
      InDeliveries(effects, responses, deliveries[n]);
      var j :| 0 <= j < |responses| && responses[j] == Received(deliveries[n]);
      KeyOfRequired(effects, j, deliveries[n].effect_key);
    } else {
      var g :| 0 <= g < |governed| && governed[g].effect_key in c.failures;
      var key := governed[g].effect_key;
      InFailures(effects, responses, key);
      var j :| 0 <= j < |effects| && responses[j].Failed? && effects[j].effect_key == key;
      KeyOfRequired(effects, j, key);
    }
  }

  /**
   The other two outcomes, exactly: a required effect refused or dead-lettered needs repair, whatever else is
   pending; effects are pending when none is, and one is still unanswered.
   */
  lemma OutcomeExactly(effects: seq<Effect>, responses: seq<Response>)
    requires Aligned(effects, responses)
    ensures var outcome := Decide(effects, Collect(effects, responses));
      && (outcome == NeedsRepair <==> Spoiled(effects, responses))
      && (outcome == EffectsPending <==> !Spoiled(effects, responses) && Waiting(effects, responses))
      && (outcome == Completed <==> !Spoiled(effects, responses) && !Waiting(effects, responses))
  {
    hide Decide, Collect;
    CompletedExactly(effects, responses);
    if Spoiled(effects, responses) {
      SpoiledNeedsRepair(effects, responses);
    }
    if Decide(effects, Collect(effects, responses)) == NeedsRepair {
      NeedsRepairIsSpoiled(effects, responses);
    }
  }

  // ---------- Crashes, retries and replays ----------

  /** One attempt at the effects: how the transport behaves, and how many dispatches the process lives for. */
  datatype Attempt = Attempt(weather: nat -> Weather, life: nat)

  function Offered(effects: seq<Effect>, a: Attempt): seq<Effect> {
    if a.life < |effects| then effects[..a.life] else effects
  }

  function LedgerAfter(o: Ledger, effects: seq<Effect>, attempts: seq<Attempt>): Ledger {
    if attempts == [] then o
    else
      var k := |attempts| - 1;
      AfterAll(LedgerAfter(o, effects, attempts[..k]), Offered(effects, attempts[k]), attempts[k].weather)
  }

  /** Every key has been carried out once if it was ever answered, and never otherwise. */
  ghost predicate Once(o: Ledger) {
    forall key :: o.applied[key] == if key in o.receipts then 1 else 0
  }

  ghost predicate Keeps(before: Ledger, after: Ledger) {
    forall key :: key in before.receipts ==> key in after.receipts && after.receipts[key] == before.receipts[key]
  }

  lemma {:induction false} AllKeepsOnce(o: Ledger, effects: seq<Effect>, weather: nat -> Weather)
    requires Once(o)
    ensures Once(AfterAll(o, effects, weather)) && Keeps(o, AfterAll(o, effects, weather))
  {
    if effects != [] {
      AllKeepsOnce(o, effects[..|effects| - 1], weather);
    }
  }

  /** Over any number of attempts, crashed or not, no effect is carried out twice and no receipt ever changes. */
  lemma {:induction false} EffectsHappenAtMostOnce(o: Ledger, effects: seq<Effect>, attempts: seq<Attempt>)
    requires Once(o)
    ensures Once(LedgerAfter(o, effects, attempts)) && Keeps(o, LedgerAfter(o, effects, attempts))
  {
    hide AfterAll, Once;
    if attempts != [] {
      var k := |attempts| - 1;
      EffectsHappenAtMostOnce(o, effects, attempts[..k]);
      AllKeepsOnce(LedgerAfter(o, effects, attempts[..k]), Offered(effects, attempts[k]), attempts[k].weather);
    }
  }

  predicate Holds(o: Ledger, e: Effect, d: Delivery) {
    Matches(e, d) && e.effect_key in o.receipts && o.receipts[e.effect_key] == d
  }

  lemma AnswerIsRecorded(o: Ledger, e: Effect, w: Weather)
    requires Respond(o, e, w).Received?
    ensures Holds(AfterDispatch(o, e, w), e, Respond(o, e, w).receipt)
  {
  }

  lemma {:induction false} ReceivedIsRecorded(o: Ledger, effects: seq<Effect>, weather: nat -> Weather, i: nat)
    requires Once(o) && i < |effects| && Responses(o, effects, weather)[i].Received?
    ensures Holds(AfterAll(o, effects, weather), effects[i], Responses(o, effects, weather)[i].receipt)
  {
    hide Once, Respond, Matches;
    var k := |effects| - 1;
    var before := AfterAll(o, effects[..k], weather);
    if i < k {
      ReceivedIsRecorded(o, effects[..k], weather, i);
    } else {
      AnswerIsRecorded(before, effects[k], weather(k));
    }
  }

  lemma {:induction false} KnownKeyIsAnswered(o: Ledger, effects: seq<Effect>, weather: nat -> Weather, i: nat)
    requires Once(o) && i < |effects| && effects[i].effect_key in o.receipts
    ensures Responses(o, effects, weather)[i] == Accept(effects[i], o.receipts[effects[i].effect_key])
  {
    var k := |effects| - 1;
    AllKeepsOnce(o, effects[..k], weather);
    if i < k {
      KnownKeyIsAnswered(o, effects[..k], weather, i);
    }
  }

  lemma {:induction false} ResponsesAligned(o: Ledger, effects: seq<Effect>, weather: nat -> Weather)
    requires KeysDistinct(effects)
    ensures Aligned(effects, Responses(o, effects, weather))
  {
    if effects != [] {
      ResponsesAligned(o, effects[..|effects| - 1], weather);
    }
  }

  ghost function OutcomeOf(o: Ledger, effects: seq<Effect>, weather: nat -> Weather): Outcome {
    Decide(effects, Collect(effects, Responses(o, effects, weather)))
  }

  /** A receipt is about the effect: its identity, key, command and project, and not from before it was declared. */
  predicate About(e: Effect, d: Delivery) {
    && d.effect_id == e.effect_id && d.effect_key == e.effect_key
    && d.command_id == e.command_id && d.project_id == e.project_id && e.declared_at <= d.recorded_at
  }

  /** The effect cannot be delivered: refused for good, or its receipt, old or new, is another's or a dead letter. */
  predicate Undeliverable(o: Ledger, e: Effect, w: Weather) {
    if e.effect_key in o.receipts then
      !About(e, o.receipts[e.effect_key]) || !o.receipts[e.effect_key].delivered
    else w == ThrowsForGood || (w.Replies? && !(About(e, w.receipt) && w.receipt.delivered))
  }

  /** No receipt has arrived, though one may come. */
  predicate Unanswered(o: Ledger, e: Effect, w: Weather) {
    e.effect_key !in o.receipts && (w == Throws || w.Lost?)
  }

  predicate AnyUndeliverable(o: Ledger, effects: seq<Effect>, weather: nat -> Weather) {
    exists i :: 0 <= i < |effects| && effects[i].required && Undeliverable(o, effects[i], weather(i))
  }

  predicate AnyUnanswered(o: Ledger, effects: seq<Effect>, weather: nat -> Weather) {
    exists i :: 0 <= i < |effects| && effects[i].required && Unanswered(o, effects[i], weather(i))
  }

  lemma {:induction false} OtherKeysStay(o: Ledger, effects: seq<Effect>, weather: nat -> Weather, key: string)
    requires forall i :: 0 <= i < |effects| ==> effects[i].effect_key != key
    ensures var after := AfterAll(o, effects, weather);
      && (key in after.receipts <==> key in o.receipts)
      && (key in o.receipts ==> after.receipts[key] == o.receipts[key])
  {
    if effects != [] {
      OtherKeysStay(o, effects[..|effects| - 1], weather, key);
    }
  }

  lemma {:induction false} AnsweredAlone(o: Ledger, effects: seq<Effect>, weather: nat -> Weather, i: nat)
    requires KeysDistinct(effects) && i < |effects|
    ensures Responses(o, effects, weather)[i] == Respond(o, effects[i], weather(i))
  {
    hide Accept;
    var k := |effects| - 1;
    if i < k {
      AnsweredAlone(o, effects[..k], weather, i);
    } else {
      OtherKeysStay(o, effects[..k], weather, effects[k].effect_key);
    }
  }

  /** Each response, told by the ledger and the weather. */
  lemma ResponseExactly(o: Ledger, e: Effect, w: Weather)
    ensures var r := Respond(o, e, w);
      && (r == Failed || (r.Received? && !r.receipt.delivered) <==> Undeliverable(o, e, w))
      && (r == Pending <==> Unanswered(o, e, w))
      && (r.Received? ==> About(e, r.receipt))
  {
  }

  /** The outcome of one materialization, told by what the outbox knew and how the transport behaved. */
  lemma OutcomeOfOutside(o: Ledger, effects: seq<Effect>, weather: nat -> Weather)
    requires KeysDistinct(effects)
    ensures OutcomeOf(o, effects, weather) == NeedsRepair <==> AnyUndeliverable(o, effects, weather)
    ensures OutcomeOf(o, effects, weather) == EffectsPending <==>
              !AnyUndeliverable(o, effects, weather) && AnyUnanswered(o, effects, weather)
    ensures OutcomeOf(o, effects, weather) == Completed <==>
              !AnyUndeliverable(o, effects, weather) && !AnyUnanswered(o, effects, weather)
  {
    hide Decide, Collect, Respond, Responses, Undeliverable, Unanswered;
    ResponsesAligned(o, effects, weather);
    OutcomeExactly(effects, Responses(o, effects, weather));
    forall i | 0 <= i < |effects|
      ensures var r := Responses(o, effects, weather)[i];
        && (r == Failed || (r.Received? && !r.receipt.delivered) <==> Undeliverable(o, effects[i], weather(i)))
        && (r == Pending <==> Unanswered(o, effects[i], weather(i)))
    {
      AnsweredAlone(o, effects, weather, i);
      ResponseExactly(o, effects[i], weather(i));
    }
  }

  /**
   `completed` is absorbing: once a materialization completed, then after any further attempts and in any
   weather it completes again, every required effect answered with the very receipt it had, and each of
   them carried out exactly once.
   */
  lemma CompletedIsAbsorbing(
    o: Ledger, effects: seq<Effect>, weather: nat -> Weather, later: seq<Attempt>, again: nat -> Weather)
    requires Once(o) && KeysDistinct(effects) && OutcomeOf(o, effects, weather) == Completed
    ensures var now := LedgerAfter(AfterAll(o, effects, weather), effects, later);
            && OutcomeOf(now, effects, again) == Completed
            && forall i :: 0 <= i < |effects| && effects[i].required ==>
                 && Responses(now, effects, again)[i] == Responses(o, effects, weather)[i]
                 && now.applied[effects[i].effect_key] == 1
  {
    hide Decide, Collect, Accept, AfterAll, LedgerAfter, Responses;
    var first := AfterAll(o, effects, weather);
    var now := LedgerAfter(first, effects, later);
    AllKeepsOnce(o, effects, weather);
    EffectsHappenAtMostOnce(first, effects, later);
    ResponsesAligned(o, effects, weather);
    ResponsesAligned(now, effects, again);
    CompletedExactly(effects, Responses(o, effects, weather));
    CompletedExactly(effects, Responses(now, effects, again));
    forall i | 0 <= i < |effects| && effects[i].required
      ensures Responses(now, effects, again)[i] == Responses(o, effects, weather)[i]
        && now.applied[effects[i].effect_key] == 1
    {
      ReceivedIsRecorded(o, effects, weather, i);
      KnownKeyIsAnswered(now, effects, again, i);
      MatchingIsAccepted(effects[i], Responses(o, effects, weather)[i].receipt);
    }
  }

  lemma MatchingIsAccepted(e: Effect, d: Delivery)
    requires Matches(e, d)
    ensures Accept(e, d) == Received(d)
  {
  }
}
