/**
 * Payloads of the paper-runtime boundary and the normalization rules their construction
 * applies: every field is either brought to canonical form or the construction raises.
 */
module BrokerModels {
  import opened Prelude
  import opened AverageCost
  import Digits

  datatype ErrorCode =
    | MalformedPayload
    | ValidationFailed
    | IdempotencyConflict
    | UnknownOrder
    | UnknownBrokerStatus
    | NotPaperMode
    | BrokerError
    | SubmissionUnknown
    | InternalError

  type Attempt<+T> = Result<T, ErrorCode>

  datatype Status =
    | PendingSubmission
    | SubmissionUnknownStatus
    | Submitted
    | Accepted
    | PartiallyFilled
    | Filled
    | CancelRequested
    | Cancelled
    | Expired
    | Rejected
    | Errored

  /** A status text: `None` when it is outside the vocabulary. */
  type StatusText = Option<Status>

  /**
   * A side text. Normalization accepts any case and surrounding blanks, so a text may be
   * respelled ("sell") and still be accepted, while it is not equal to "SELL".
   */
  datatype SideText = Canonical(side: Side) | Respelled(side: Side, text: string) | Unreadable(text: string)

  /** A decimal text: blank, unparseable, or a finite number in some spelling. */
  datatype DecimalText = Blank | Malformed(text: string) | Number(text: string, value: real)

  /** `limitType` and `equity` say that the order and asset types are the only accepted ones. */
  datatype Intent = Intent(
    intentId: string, recommendationId: string, symbol: string, side: SideText, quantity: int,
    limitType: bool, limitPrice: Option<DecimalText>, referencePrice: DecimalText, expiresAt: int,
    idempotencyKey: string, equity: bool, bookId: Option<string>)

  /** The broker's own status text, as the gateway writes it or as a script supplies it. */
  datatype RawStatus = New | Canceled | Raw(text: string)

  datatype Order = Order(
    intentId: string, clientOrderId: string, status: Status, rawStatus: RawStatus, quantity: int, filled: int, averagePrice: Option<real>, bookId: Option<string>, symbol: string,
    side: Side, limitPrice: Option<real>)

  /** The outcome a test registers for an order, reported at the next lookup. */
  datatype Script = Script(status: StatusText, filled: int, averagePrice: Option<DecimalText>, rawStatus: RawStatus)

  /** What a fill identifier is made of; `FillIdText` spells it out. */
  datatype FillKey = FillKey(clientOrderId: string, filled: nat)

  datatype Fill = Fill(
    fillId: FillKey, clientOrderId: string, bookId: Option<string>, symbol: string, side: Side,
    quantity: nat, price: real)
  {
    function AsTrade(): Trade {
      Trade(symbol, side, quantity as real, price)
    }
  }

  // ----- normalization -----

  function NormalizeBrokerStatus(text: StatusText): Attempt<Status> {
    match text
    case None => Raised(UnknownBrokerStatus)
    case Some(PendingSubmission) => Raised(UnknownBrokerStatus)
    case Some(SubmissionUnknownStatus) => Raised(UnknownBrokerStatus)
    case Some(status) => Ok(status)
  }

  function NormalizeSide(text: SideText): Attempt<Side> {
    if text.Unreadable? then Raised(MalformedPayload) else Ok(text.side)
  }

  function NormalizeOptionalDecimal(text: Option<DecimalText>): Attempt<Option<real>> {
    match text
    case None => Ok(None)
    case Some(Blank) => Ok(None)
    case Some(Malformed(_)) => Raised(MalformedPayload)
    case Some(Number(_, value)) => Ok(Some(value))
  }

  /** A broker-reported quantity must be a whole number, never a truncation. */
  function ParseExactInt(x: real): Attempt<int> {
    if x.Floor as real == x then Ok(x.Floor) else Raised(MalformedPayload)
  }

  /** The checks an order snapshot makes once its fields are canonical. */
  function CheckedOrder(o: Order): Attempt<Order> {
    if o.intentId == "" || o.clientOrderId == "" then Raised(ValidationFailed)
    else if o.quantity <= 0 then Raised(ValidationFailed)
    else if !(0 <= o.filled <= o.quantity) then Raised(ValidationFailed)
    else if o.filled > 0 && o.averagePrice.None? then Raised(ValidationFailed)
    else if o.filled > 0 && o.averagePrice.value <= 0.0 then Raised(MalformedPayload)
    else Ok(o)
  }

  /** The snapshot an order becomes when the broker reports a scripted outcome. */
  function Reported(o: Order, script: Script): Attempt<Order> {
    var status :- NormalizeBrokerStatus(script.status);
    var price :- NormalizeOptionalDecimal(script.averagePrice);
    CheckedOrder(o.(status := status, rawStatus := script.rawStatus, filled := script.filled,
                    averagePrice := price))
  }

  /** The text, if it is not blank, is a readable number, and that number is the value. */
  ghost predicate Reads(text: Option<DecimalText>, value: Option<real>) {
    match text
    case None => value == None
    case Some(Blank) => value == None
    case Some(Number(_, v)) => value == Some(v)
    case Some(Malformed(_)) => false
  }

  /** A script becomes the order's snapshot exactly when each of its fields is valid; identity and size never change. */
  lemma ReportedExactly(o: Order, script: Script)
    requires CheckedOrder(o).Ok?
    ensures Reported(o, script).Ok? <==>
      && script.status.Some? && script.status.value !in {PendingSubmission, SubmissionUnknownStatus}
      && 0 <= script.filled <= o.quantity
      && exists price :: Reads(script.averagePrice, price) && (script.filled > 0 ==> price.Some? && price.value > 0.0)
    ensures Reported(o, script).Ok? ==>
      var n := Reported(o, script).value;
      && Some(n.status) == script.status && n.filled == script.filled && n.rawStatus == script.rawStatus
      && Reads(script.averagePrice, n.averagePrice)
      && n == o.(status := n.status, rawStatus := n.rawStatus, filled := n.filled, averagePrice := n.averagePrice)
  {
    var read := NormalizeOptionalDecimal(script.averagePrice);
    if read.Ok? {
      assert Reads(script.averagePrice, read.value);
    }
  }

  /** The snapshot of a freshly submitted order. */
  function Acknowledged(intent: Intent): Attempt<Order> {
    var limit :- NormalizeOptionalDecimal(intent.limitPrice);
    var side :- NormalizeSide(intent.side);
    CheckedOrder(Order(intent.intentId, intent.idempotencyKey, Accepted, New, intent.quantity, 0, None,
                       intent.bookId, intent.symbol, side, limit))
  }

  /** Which submissions are acknowledged, and as what: accepted, unfilled, with the fields asked for. */
  lemma AcknowledgedExactly(intent: Intent)
    ensures Acknowledged(intent).Ok? <==>
      && intent.intentId != "" && intent.idempotencyKey != "" && intent.quantity > 0
      && !intent.side.Unreadable? && !(intent.limitPrice.Some? && intent.limitPrice.value.Malformed?)
    ensures Acknowledged(intent).Ok? ==>
      var o := Acknowledged(intent).value;
      && o.clientOrderId == intent.idempotencyKey && o.intentId == intent.intentId && o.bookId == intent.bookId
      && o.symbol == intent.symbol && o.side == intent.side.side && o.quantity == intent.quantity
      && Reads(intent.limitPrice, o.limitPrice)
      && o.status == Accepted && o.rawStatus == New && o.filled == 0 && o.averagePrice == None
  {}

  /** Only whole numbers are share counts, and they are read as themselves. */
  lemma ParseExactIntExactly(x: real, n: int)
    ensures ParseExactInt(x) == Ok(n) <==> x == n as real
  {}

  // ----- fill identifiers -----

  function FillIdText(key: FillKey): string {
    "det-fill-" + key.clientOrderId + "-" + Digits.Text(key.filled)
  }

  lemma NoDashInSuffix(a: string, m: string, i: nat)
    requires Digits.AllDigits(m) && |a| < i < |a| + 1 + |m|
    ensures (a + "-" + m)[i] != '-'
  {
    assert (a + "-" + m)[i] == m[i - |a| - 1];
    assert m[i - |a| - 1] in m;
  }

  /** A suffix of digits after the last dash cannot be cut in two ways. */
  lemma DashedSuffixIsUnique(a: string, m: string, b: string, n: string)
    requires Digits.AllDigits(m) && Digits.AllDigits(n)
    requires a + "-" + m == b + "-" + n
    ensures a == b && m == n
  {
    var s := a + "-" + m;
    assert s == b + "-" + n && s[|a|] == '-' && s[|b|] == '-';
    assert |b| <= |a| by {
      if |a| < |b| {
        NoDashInSuffix(a, m, |b|);
      }
    }
    assert |a| <= |b| by {
      if |b| < |a| {
        NoDashInSuffix(b, n, |a|);
      }
    }
    assert s[..|a|] == a && s[..|b|] == b;
    assert s[|a| + 1..] == m && s[|b| + 1..] == n;
  }

  /** Fill identifiers tell apart both the orders and the filled quantities they carry. */
  lemma FillIdTextIsInjective(k1: FillKey, k2: FillKey)
    ensures FillIdText(k1) == FillIdText(k2) <==> k1 == k2
  {
    if FillIdText(k1) == FillIdText(k2) {
      var id1, id2 := k1.clientOrderId, k2.clientOrderId;
      DashedSuffixIsUnique("det-fill-" + id1, Digits.Text(k1.filled), "det-fill-" + id2, Digits.Text(k2.filled));
      assert ("det-fill-" + id1)[9..] == id1 && ("det-fill-" + id2)[9..] == id2;
      Digits.TextIsInjective(k1.filled, k2.filled);
    }
  }
}
