/**
 Dispatching a committed command's effects and deciding its outcome. The outbox is idempotent by
 effect key: a key it has answered once is answered with the same receipt for ever.
 */
module CommandOutcome {
  import opened Wrappers
  import opened ProjectTypes

  datatype Delivery = Delivery(
    receipt_id: Id, effect_id: Id, effect_key: string, command_id: Id, project_id: Id, delivered: bool,
      recorded_at: Millis)

  /** What the outbox holds, and how often each effect key has been carried out. */
  datatype Ledger = Ledger(receipts: map<string, Delivery>, applied: multiset<string>)

  /**
   How the transport behaves on a key it has not answered yet; `Lost` carries the effect out but the reply
   never arrives.
   */
  datatype Weather = Replies(receipt: Delivery) | Lost(unseen: Delivery) | Throws | ThrowsForGood

  datatype Response = Received(receipt: Delivery) | Pending | Failed

  datatype Outcome = Completed | EffectsPending | NeedsRepair

  predicate Matches(e: Effect, d: Delivery) {
    && d.effect_id == e.effect_id && d.effect_key == e.effect_key
    && d.command_id == e.command_id && d.project_id == e.project_id && d.recorded_at >= e.declared_at
  }

  function Accept(e: Effect, d: Delivery): Response {
    if Matches(e, d) then Received(d) else Failed
  }

  function Respond(o: Ledger, e: Effect, w: Weather): Response {
    if e.effect_key in o.receipts then Accept(e, o.receipts[e.effect_key])
    else match w
      case Replies(d) => Accept(e, d)
      case Lost(_) => Pending
      case Throws => Pending
      case ThrowsForGood => Failed
  }

  function Record(o: Ledger, key: string, d: Delivery): Ledger {
    Ledger(o.receipts[key := d], o.applied + multiset{key})
  }

  function AfterDispatch(o: Ledger, e: Effect, w: Weather): Ledger {
    if e.effect_key in o.receipts then o
    else match w
      case Replies(d) => Record(o, e.effect_key, d)
      case Lost(d) => Record(o, e.effect_key, d)
      case Throws => o
      case ThrowsForGood => o
  }

  function AfterAll(o: Ledger, effects: seq<Effect>, weather: nat -> Weather): Ledger {
    if effects == [] then o
    else
      var k := |effects| - 1;
      AfterDispatch(AfterAll(o, effects[..k], weather), effects[k], weather(k))
  }

  function Responses(o: Ledger, effects: seq<Effect>, weather: nat -> Weather): (r: seq<Response>)
    ensures |r| == |effects|
  {
    if effects == [] then []
    else
      var k := |effects| - 1;
      Responses(o, effects[..k], weather) + [Respond(AfterAll(o, effects[..k], weather), effects[k], weather(k))]
  }

  predicate KeysDistinct(effects: seq<Effect>) {
    forall i, j :: 0 <= i < j < |effects| ==> effects[i].effect_key != effects[j].effect_key
  }

  // ---------- Collecting ----------

  datatype Collected = Collected(deliveries: seq<Delivery>, pending: seq<Effect>, failures: set<string>)

  function Collect(effects: seq<Effect>, responses: seq<Response>): Collected
    requires |effects| == |responses|
  {
    if effects == [] then Collected([], [], {})
    else
      var k := |effects| - 1;
      var front := Collect(effects[..k], responses[..k]);
      match responses[k]
      case Received(d) => front.(deliveries := front.deliveries + [d])
      case Pending => front.(pending := front.pending + [effects[k]])
      case Failed => front.(failures := front.failures + {effects[k].effect_key})
  }

  class Outbox {
    var ledger: Ledger

    constructor ()
      ensures ledger == Ledger(map[], multiset{})
    {
      ledger := Ledger(map[], multiset{});
    }

    method Dispatch(e: Effect, w: Weather) returns (r: Response)
      modifies this
      ensures r == Respond(old(ledger), e, w) && ledger == AfterDispatch(old(ledger), e, w)
    {
      if e.effect_key in ledger.receipts {
        return Accept(e, ledger.receipts[e.effect_key]);
      }
      match w {
        case Replies(d) =>
          ledger := Record(ledger, e.effect_key, d);
          return Accept(e, d);
        case Lost(d) =>
          ledger := Record(ledger, e.effect_key, d);
          return Pending;
        case Throws =>
          return Pending;
        case ThrowsForGood =>
          return Failed;
      }
    }
  }

  /** Offers every effect once, in order, unless the process dies after the first `life` of them. */
  method DispatchAll(
    outbox: Outbox, effects: seq<Effect>, weather: nat -> Weather, life: nat) returns (r: Option<Collected>)
    modifies outbox
    ensures life >= |effects| ==>
      && r == Some(Collect(effects, Responses(old(outbox.ledger), effects, weather)))
      && outbox.ledger == AfterAll(old(outbox.ledger), effects, weather)
    ensures life < |effects| ==> r == None && outbox.ledger == AfterAll(old(outbox.ledger), effects[..life], weather)
  {
    var deliveries: seq<Delivery>, pending: seq<Effect>, failures: set<string> := [], [], {};
    for i := 0 to |effects|
      invariant i <= life
      invariant outbox.ledger == AfterAll(old(outbox.ledger), effects[..i], weather)
      invariant Collected(deliveries, pending, failures) ==
                Collect(effects[..i], Responses(old(outbox.ledger), effects[..i], weather))
    {
      if i == life {
        return None;
      }
      assert effects[..i + 1][..i] == effects[..i];
      var response := outbox.Dispatch(effects[i], weather(i));
      assert Responses(old(outbox.ledger), effects[..i + 1], weather)[..i] ==
        Responses(old(outbox.ledger), effects[..i], weather);
      match response {
        case Received(d) => deliveries := deliveries + [d];
        case Pending => pending := pending + [effects[i]];
        case Failed => failures := failures + {effects[i].effect_key};
      }
    }
    assert effects[..|effects|] == effects;
    return Some(Collected(deliveries, pending, failures));
  }

  // ---------- The outcome ----------

  function Governed(effects: seq<Effect>): seq<Effect> {
    if effects == [] then []
    else
      var k := |effects| - 1;
      if effects[k].required then Governed(effects[..k]) + [effects[k]] else Governed(effects[..k])
  }

  predicate HasKey(effects: seq<Effect>, key: string) {
    exists i :: 0 <= i < |effects| && effects[i].effect_key == key
  }

  predicate DeliversKey(deliveries: seq<Delivery>, key: string) {
    exists i :: 0 <= i < |deliveries| && deliveries[i].effect_key == key
  }

  function GovernedDeliveries(governed: seq<Effect>, deliveries: seq<Delivery>): seq<Delivery> {
    if deliveries == [] then []
    else
      var k := |deliveries| - 1;
      var front := GovernedDeliveries(governed, deliveries[..k]);
      if HasKey(governed, deliveries[k].effect_key) then front + [deliveries[k]] else front
  }

  function DeliveredCount(deliveries: seq<Delivery>): nat {
    if deliveries == [] then 0
    else DeliveredCount(deliveries[..|deliveries| - 1]) + (if deliveries[|deliveries| - 1].delivered then 1 else 0)
  }

  predicate AnyDeadLetter(deliveries: seq<Delivery>) {
    exists i :: 0 <= i < |deliveries| && !deliveries[i].delivered
  }

  predicate AnyFailure(governed: seq<Effect>, failures: set<string>) {
    exists i :: 0 <= i < |governed| && governed[i].effect_key in failures
  }

  predicate AnyPending(governed: seq<Effect>, pending: seq<Effect>, deliveries: seq<Delivery>) {
    exists i :: 0 <= i < |governed|
      && (HasKey(pending, governed[i].effect_key) || !DeliversKey(deliveries, governed[i].effect_key))
  }

  function Decide(effects: seq<Effect>, c: Collected): Outcome {
    var governed := Governed(effects);
    var deliveries := GovernedDeliveries(governed, c.deliveries);
    if AnyDeadLetter(deliveries) || AnyFailure(governed, c.failures) then NeedsRepair
    else if AnyPending(governed, c.pending, deliveries) then EffectsPending
    else Completed
  }

  function Delivered(effects: seq<Effect>, c: Collected): nat {
    DeliveredCount(GovernedDeliveries(Governed(effects), c.deliveries))
  }
}
