/**
 * Submission against a remote broker whose acknowledgements may be lost. The gateway looks
 * an order up before submitting it, and again when the submission call fails.
 */
module AlpacaSubmission {
  import opened Prelude
  import opened AverageCost
  import opened BrokerModels

  /** An order the broker holds; `readable` says whether it normalizes into a snapshot. */
  datatype BrokerOrder = BrokerOrder(
    clientOrderId: string, symbol: string, side: Side, quantity: int, limitPrice: real, readable: bool)

  /** How the broker answers a lookup. A stale answer denies an order that exists. */
  datatype Answer = Truthful | Unavailable | StaleNotFound

  /** A submission call returns, or raises after it took effect or without taking effect. */
  datatype Delivery = Acknowledged | Lost(effective: bool)

  /** Everything the outside world decides during one attempt. */
  datatype Weather = Weather(assetAccepted: bool, first: Answer, delivery: Delivery, readable: bool, second: Answer)

  datatype Outcome = Outcome(booked: seq<BrokerOrder>, result: Attempt<BrokerOrder>)

  function Find(booked: seq<BrokerOrder>, id: string): (found: Option<BrokerOrder>)
    ensures found.Some? ==> found.value in booked && found.value.clientOrderId == id
    ensures found.None? <==> !Exists(booked, id)
  {
    if booked == [] then None
    else if booked[0].clientOrderId == id then Some(booked[0])
    else Find(booked[1..], id)
  }

  predicate Exists(booked: seq<BrokerOrder>, id: string) {
    exists o <- booked :: o.clientOrderId == id
  }

  function Snapshot(o: BrokerOrder): Attempt<BrokerOrder> {
    if o.readable then Ok(o) else Raised(UnknownBrokerStatus)
  }

  /** Only an explicit "not found" counts as absence; any other failure is an error. */
  function GetOrder(booked: seq<BrokerOrder>, id: string, answer: Answer): Attempt<Option<BrokerOrder>> {
    match answer
    case Unavailable => Raised(BrokerError)
    case StaleNotFound => Ok(None)
    case Truthful =>
      var found := Find(booked, id);
      if found.None? then Ok(None)
      else
        var order :- Snapshot(found.value);
        Ok(Some(order))
  }

  predicate TakesEffect(delivery: Delivery) {
    delivery.Acknowledged? || delivery.effective
  }

  /** The order posted for an intent; it cannot be built without a numeric limit price. */
  function RequestFor(intent: Intent, readable: bool): Attempt<BrokerOrder> {
    match intent.limitPrice
    case Some(Number(_, price)) =>
      var side := if intent.side == Canonical(Buy) then Buy else Sell;
      Ok(BrokerOrder(intent.idempotencyKey, intent.symbol, side, intent.quantity, price, readable))
    case _ => Raised(InternalError)
  }

  function Submit(booked: seq<BrokerOrder>, intent: Intent, w: Weather): Outcome {
    var id := intent.idempotencyKey;
    if !w.assetAccepted then Outcome(booked, Raised(InternalError))
    else
      var existing := GetOrder(booked, id, w.first);
      if existing.Raised? then Outcome(booked, Raised(existing.error))
      else if existing.value.Some? then Outcome(booked, Ok(existing.value.value))
      else
        var request := RequestFor(intent, w.readable);
        if request.Raised? then Outcome(booked, request) else Post(booked, request.value, w)
  }

  /** Posts an order; when the call fails, the order is looked up before anything is concluded. */
  function Post(booked: seq<BrokerOrder>, order: BrokerOrder, w: Weather): Outcome {
    var after := if TakesEffect(w.delivery) then booked + [order] else booked;
    if w.delivery.Acknowledged? then Outcome(after, Snapshot(order))
    else
      var recovered := GetOrder(after, order.clientOrderId, w.second);
      if recovered.Raised? then Outcome(after, Raised(recovered.error))
      else if recovered.value.Some? then Outcome(after, Ok(recovered.value.value))
      else Outcome(after, Raised(SubmissionUnknown))
  }

  // ----- at most one order per client order id -----

  ghost predicate Unique(booked: seq<BrokerOrder>) {
    forall i, j :: 0 <= i < j < |booked| ==> booked[i].clientOrderId != booked[j].clientOrderId
  }

  /** The broker holds no order under the identifier. */
  ghost predicate NoneUnder(booked: seq<BrokerOrder>, id: string) {
    forall i :: 0 <= i < |booked| ==> booked[i].clientOrderId != id
  }

  lemma FindsNoneExactly(booked: seq<BrokerOrder>, id: string)
    ensures Find(booked, id).None? <==> NoneUnder(booked, id)
  {
    if Find(booked, id).Some? {
      var o := Find(booked, id).value;
      var i :| 0 <= i < |booked| && booked[i] == o;
      assert booked[i].clientOrderId == id;
    }
    if Find(booked, id).None? {
      forall i | 0 <= i < |booked|
        ensures booked[i].clientOrderId != id
      {
        assert booked[i] in booked;
      }
    }
  }

  /** The attempt comes to posting an order: the asset is accepted, no order is found, and the price is a number. */
  ghost predicate Posts(booked: seq<BrokerOrder>, intent: Intent, w: Weather) {
    && w.assetAccepted && intent.limitPrice.Some? && intent.limitPrice.value.Number?
    && (w.first == StaleNotFound || (w.first == Truthful && NoneUnder(booked, intent.idempotencyKey)))
  }

  lemma PostBooks(booked: seq<BrokerOrder>, order: BrokerOrder, w: Weather)
    ensures Post(booked, order, w).booked
         == if w.delivery in {Acknowledged, Lost(true)} then booked + [order] else booked
  {}

  /**
   * An attempt leaves the broker's book alone, or appends one order with the intent's
   * identifier, symbol, side, quantity and limit price, exactly when it comes to posting and
   * the call is acknowledged or lost after taking effect.
   */
  lemma AttemptBooksTheIntent(booked: seq<BrokerOrder>, intent: Intent, w: Weather)
    ensures
      var after := Submit(booked, intent, w).booked;
      if Posts(booked, intent, w) && w.delivery in {Acknowledged, Lost(true)} then
        && |after| == |booked| + 1 && after[..|booked|] == booked
        && after[|booked|].clientOrderId == intent.idempotencyKey && after[|booked|].symbol == intent.symbol
        && (after[|booked|].side == Buy <==> intent.side == Canonical(Buy))
        && after[|booked|].quantity == intent.quantity
        && after[|booked|].limitPrice == intent.limitPrice.value.value
        && after[|booked|].readable == w.readable
      else
        after == booked
  {
    FindsNoneExactly(booked, intent.idempotencyKey);
    if Posts(booked, intent, w) {
      PostBooks(booked, RequestFor(intent, w.readable).value, w);
      assert Submit(booked, intent, w) == Post(booked, RequestFor(intent, w.readable).value, w);
    } else {
      assert Submit(booked, intent, w).booked == booked;
    }
  }

  /** What every attempt answers that does not find an order at first. */
  lemma AttemptAnswers(booked: seq<BrokerOrder>, intent: Intent, w: Weather)
    ensures
      var out := Submit(booked, intent, w);
      && (!w.assetAccepted ==> out.result == Raised(InternalError))
      && (w.assetAccepted && w.first == Unavailable ==> out.result == Raised(BrokerError))
      && (Posts(booked, intent, w) && w.delivery == Acknowledged ==>
            out.result == if w.readable then Ok(out.booked[|booked|]) else Raised(UnknownBrokerStatus))
      && (Posts(booked, intent, w) && w.delivery.Lost? && w.second == Unavailable ==> out.result == Raised(BrokerError))
      && (Posts(booked, intent, w) && w.delivery.Lost? && w.second == StaleNotFound ==>
            out.result == Raised(SubmissionUnknown))
      && (!Posts(booked, intent, w) && w.assetAccepted && w.first == Truthful && NoneUnder(booked, intent.idempotencyKey)
          ==> out.result == Raised(InternalError))
  {
    AttemptBooksTheIntent(booked, intent, w);
    FindsNoneExactly(booked, intent.idempotencyKey);
  }

  lemma {:induction false} FindsLast(booked: seq<BrokerOrder>, order: BrokerOrder)
    requires NoneUnder(booked, order.clientOrderId)
    ensures Find(booked + [order], order.clientOrderId) == Some(order)
  {
    if booked != [] {
      assert (booked + [order])[1..] == booked[1..] + [order];
      assert (booked + [order])[0].clientOrderId != order.clientOrderId;
      FindsLast(booked[1..], order);
    }
  }

  /** An order posted for a new identifier is what a later truthful lookup recovers, when readable. */
  lemma LostOrderIsRecovered(booked: seq<BrokerOrder>, intent: Intent, w: Weather)
    requires Posts(booked, intent, w) && NoneUnder(booked, intent.idempotencyKey)
    requires w.delivery == Lost(true) && w.second == Truthful
    ensures
      var out := Submit(booked, intent, w);
      && |out.booked| == |booked| + 1
      && out.result == if w.readable then Ok(out.booked[|booked|]) else Raised(UnknownBrokerStatus)
  {
    AttemptBooksTheIntent(booked, intent, w);
    FindsNoneExactly(booked, intent.idempotencyKey);
    FindsLast(booked, RequestFor(intent, w.readable).value);
  }

  /**
   * An attempt duplicates an order exactly when a lookup denied the existing one and the
   * submission then took effect; every other attempt keeps identifiers unique.
   */
  lemma AttemptKeepsUnique(booked: seq<BrokerOrder>, intent: Intent, w: Weather)
    requires Unique(booked)
    ensures Unique(Submit(booked, intent, w).booked) <==>
            !(!NoneUnder(booked, intent.idempotencyKey) && Posts(booked, intent, w) && w.first == StaleNotFound
              && w.delivery in {Acknowledged, Lost(true)})
  {
    AttemptBooksTheIntent(booked, intent, w);
    var after := Submit(booked, intent, w).booked;
    if after != booked {
      assert forall i :: 0 <= i < |booked| ==> after[i] == booked[i];
      if !NoneUnder(booked, intent.idempotencyKey) {
        var i :| 0 <= i < |booked| && booked[i].clientOrderId == intent.idempotencyKey;
        assert after[i].clientOrderId == after[|booked|].clientOrderId;
      }
    }
  }

  /** The broker may fill, cancel or otherwise change its orders, but it keeps them. */
  datatype Event = Attempted(intent: Intent, weather: Weather) | Updated(booked: seq<BrokerOrder>)

  ghost predicate SameOrders(before: seq<BrokerOrder>, after: seq<BrokerOrder>) {
    |before| == |after| && forall i :: 0 <= i < |before| ==> before[i].clientOrderId == after[i].clientOrderId
  }

  ghost predicate Honest(booked: seq<BrokerOrder>, e: Event) {
    match e
    case Attempted(_, w) => w.first != StaleNotFound && w.second != StaleNotFound
    case Updated(after) => SameOrders(booked, after)
  }

  function After(booked: seq<BrokerOrder>, e: Event): seq<BrokerOrder> {
    match e
    case Attempted(intent, w) => Submit(booked, intent, w).booked
    case Updated(after) => after
  }

  function AfterAll(booked: seq<BrokerOrder>, events: seq<Event>): seq<BrokerOrder> {
    if events == [] then booked else After(AfterAll(booked, events[..|events| - 1]), events[|events| - 1])
  }

  ghost predicate HonestRun(events: seq<Event>) {
    forall i :: 0 <= i < |events| ==> Honest(AfterAll([], events[..i]), events[i])
  }

  lemma {:induction false} AtMostOneOrderPerId(events: seq<Event>)
    requires HonestRun(events)
    ensures Unique(AfterAll([], events))
  {
    if events != [] {
      var init, last := events[..|events| - 1], events[|events| - 1];
      forall i | 0 <= i < |init|
        ensures Honest(AfterAll([], init[..i]), init[i])
      {
        assert init[..i] == events[..i];
      }
      AtMostOneOrderPerId(init);
      if last.Attempted? {
        AttemptKeepsUnique(AfterAll([], init), last.intent, last.weather);
      }
    }
  }

  /** Events never remove an order once it exists. */
  lemma OrdersPersist(booked: seq<BrokerOrder>, e: Event, id: string)
    requires Honest(booked, e) && !NoneUnder(booked, id)
    ensures !NoneUnder(After(booked, e), id)
  {
    var i :| 0 <= i < |booked| && booked[i].clientOrderId == id;
    if e.Attempted? {
      AttemptBooksTheIntent(booked, e.intent, e.weather);
      assert After(booked, e)[..|booked|][i] == booked[i];
    }
    assert After(booked, e)[i].clientOrderId == id;
  }

  // ----- what an attempt's answer is worth -----

  /**
   * Answers given by honest lookups: an order returned is one the broker holds under the
   * requested identifier; SUBMISSION_UNKNOWN means that it holds none, and is raised exactly
   * when both lookups answered, none existed and the submission was lost without effect.
   */
  lemma AnswersAreTrue(booked: seq<BrokerOrder>, intent: Intent, w: Weather)
    requires Honest(booked, Attempted(intent, w))
    ensures
      var id, out := intent.idempotencyKey, Submit(booked, intent, w);
      && (out.result.Ok? ==> out.result.value in out.booked && out.result.value.clientOrderId == id)
      && (out.result == Raised(SubmissionUnknown) <==>
            Posts(booked, intent, w) && w.second == Truthful && w.delivery == Lost(false))
      && (out.result == Raised(SubmissionUnknown) ==> NoneUnder(out.booked, id))
  {
    FindsNoneExactly(booked, intent.idempotencyKey);
    var request := RequestFor(intent, w.readable);
    if request.Ok? {
      assert (booked + [request.value])[|booked|] == request.value;
      FindsNoneExactly(booked + [request.value], intent.idempotencyKey);
    }
  }

  /**
   * After any honest run, the first attempt whose lookup answers for an order that exists
   * returns that one order, if it can be read, and submits nothing.
   */
  lemma ReplayReturnsTheOrder(events: seq<Event>, intent: Intent, w: Weather, order: BrokerOrder)
    requires HonestRun(events) && w.assetAccepted && w.first == Truthful
    requires order in AfterAll([], events) && order.clientOrderId == intent.idempotencyKey
    ensures Submit(AfterAll([], events), intent, w).booked == AfterAll([], events)
    ensures Submit(AfterAll([], events), intent, w).result
         == if order.readable then Ok(order) else Raised(UnknownBrokerStatus)
  {
    AtMostOneOrderPerId(events);
    var booked := AfterAll([], events);
    var found := Find(booked, intent.idempotencyKey);
    assert found.Some?;
    var i :| 0 <= i < |booked| && booked[i] == order;
    var j :| 0 <= j < |booked| && booked[j] == found.value;
    assert i == j;
  }

  // ----- the gateway itself -----

  class LumiBotAlpacaPaperGateway {
    /** What the remote broker holds; it changes by this gateway's calls and by the broker's own doing. */
    var booked: seq<BrokerOrder>

    constructor ()
      ensures booked == []
    {
      booked := [];
    }

    method AskForOrder(id: string, answer: Answer) returns (r: Attempt<Option<BrokerOrder>>)
      ensures r == GetOrder(booked, id, answer)
    {
      r := GetOrder(booked, id, answer);
    }

    /** The remote side of a submission: the order may be booked although the call raises. */
    method PostOrder(order: BrokerOrder, delivery: Delivery) returns (acknowledged: bool)
      modifies this
      ensures booked == if TakesEffect(delivery) then old(booked) + [order] else old(booked)
      ensures acknowledged <==> delivery.Acknowledged?
    {
      if TakesEffect(delivery) {
        booked := booked + [order];
      }
      acknowledged := delivery.Acknowledged?;
    }

    /** In any weather, the call is the specified attempt. */
    method SubmitOrder(intent: Intent, w: Weather) returns (r: Attempt<BrokerOrder>)
      modifies this
      ensures Outcome(booked, r) == Submit(old(booked), intent, w)
    {
      if !w.assetAccepted {
        return Raised(InternalError);
      }
      var id := intent.idempotencyKey;
      var existing := AskForOrder(id, w.first);
      if existing.Raised? {
        return Raised(existing.error);
      }
      if existing.value.Some? {
        return Ok(existing.value.value);
      }
      var request := RequestFor(intent, w.readable);
      if request.Raised? {
        return request;
      }
      var acknowledged := PostOrder(request.value, w.delivery);
      if acknowledged {
        return Snapshot(request.value);
      }
      var recovered := AskForOrder(id, w.second);
      if recovered.Raised? {
        return Raised(recovered.error);
      }
      if recovered.value.Some? {
        return Ok(recovered.value.value);
      }
      return Raised(SubmissionUnknown);
    }
  }
}
