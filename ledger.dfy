/** The two endpoints that forward to the blockchain ledger service:
    `record_transaction` (main.py:187-216) and `verify_transaction`
    (main.py:219-275). The HTTP exchange itself is not modelled: its outcome,
    including whether the body parsed as JSON, is an input. */
module Ledger {

  import opened Basics
  import opened Text

  /** A JSON value stored under a key of a sale record; only strings can equal a
      transaction id. */
  datatype Value = Str(s: string) | NonString

  /** One element of a JSON document: an object (a Python dict) or anything else. */
  datatype Element = Object(fields: map<string, Value>) | NonObject

  /** A parsed body: a top-level array, or a single value of another kind. */
  datatype Document = Array(items: seq<Element>) | Single(value: Element)

  datatype Body = NotJson | Json(doc: Document)

  /** What the httpx call gave: a transport failure (httpx.RequestError, timeouts
      included), any other exception raised by the call (httpx.InvalidURL for a
      product id holding a control character, say), or a response with its status
      code, its raw text and its body. */
  datatype Upstream = TransportError | OtherFailure | Answered(status: int, text: string, body: Body)

  /** An HTTPException that reaches the client. */
  datatype HttpError = HttpError(status: int, detail: string)

  /** httpx's `is_success`; `raise_for_status` raises for every other status. */
  predicate IsSuccess(status: int)
    ensures IsSuccess(status) <==> status / 100 == 2
  {
    200 <= status < 300
  }

  const Unavailable := HttpError(503, "The blockchain service is unavailable.")
  const VerifyInternal := HttpError(500, "An internal error occurred during verification.")
  const NonJson := HttpError(500, "Received an invalid (non-JSON) response from the blockchain service.")
  const RecordInternal := HttpError(500, "An internal error occurred.")
  const InvalidFormat := HttpError(500, "Invalid response format from blockchain service.")
  const NotFound := HttpError(404, "Transaction ID not found for the given product.")

  /** The 502 of main.py:262-265: its detail ends with the upstream response text. */
  function UpstreamFailed(text: string): (e: HttpError)
    ensures e.status == 502
    ensures |e.detail| >= |text| && e.detail[|e.detail| - |text|..] == text
  {
    HttpError(502, "An error occurred in the blockchain service: " + text)
  }

  /** `sale.get("txID") == tx_id` for a dict: the key is present and holds exactly
      that string. */
  predicate Matches(e: Element, txId: string)
    requires e.Object?
    ensures "txID" !in e.fields ==> !Matches(e, txId)
  {
    "txID" in e.fields && e.fields["txID"] == Str(txId)
  }

  /** A record carries at most one transaction id. */
  lemma MatchesOneId(e: Element, txId: string, other: string)
    requires e.Object? && Matches(e, txId) && Matches(e, other)
    ensures other == txId
  {
    assert Str(other) == Str(txId);
  }

  /** How the scan of main.py:246-251 ends: at the first match, with no match, or
      at the first element that is not a dict, whose `.get` raises
      AttributeError. */
  datatype Scan = Found(index: nat) | NoMatch | NotADict(index: nat)

  /** Every element of sales[from..to] is a dict without the transaction id. */
  predicate PassedOver(sales: seq<Element>, txId: string, from: int, to: int)
    requires 0 <= from <= to <= |sales|
  {
    forall j :: from <= j < to ==> sales[j].Object? && !Matches(sales[j], txId)
  }

  /** The outcome of scanning sales[from..] in order. */
  function FirstMatch(sales: seq<Element>, txId: string, from: nat): (s: Scan)
    requires from <= |sales|
    ensures s.Found? ==> from <= s.index < |sales| && sales[s.index].Object?
                         && Matches(sales[s.index], txId) && PassedOver(sales, txId, from, s.index)
    ensures s.NotADict? ==> from <= s.index < |sales| && sales[s.index].NonObject?
                            && PassedOver(sales, txId, from, s.index)
    ensures s.NoMatch? ==> PassedOver(sales, txId, from, |sales|)
    decreases |sales| - from
  {
    if from == |sales| then NoMatch
    else if sales[from].NonObject? then NotADict(from)
    else if Matches(sales[from], txId) then Found(from)
    else FirstMatch(sales, txId, from + 1)
  }

  /** The `for sale in sales` loop with its early return (main.py:246-251). */
  method ScanSales(sales: seq<Element>, txId: string) returns (s: Scan)
    ensures s == FirstMatch(sales, txId, 0)
  {
    var i := 0;
    while i < |sales|
      invariant 0 <= i <= |sales|
      invariant FirstMatch(sales, txId, 0) == FirstMatch(sales, txId, i)
    {
      if sales[i].NonObject? {
        return NotADict(i);
      }
      if Matches(sales[i], txId) {
        return Found(i);
      }
      i := i + 1;
    }
    return NoMatch;
  }

  /** The first-match outcome is determined by the list: a found record is a dict
      carrying the transaction id, and every element before it is a dict that does
      not; an id carried by no element is never found. */
  lemma FirstMatchFindsEarliest(sales: seq<Element>, txId: string, k: nat)
    ensures FirstMatch(sales, txId, 0) == Found(k) <==>
            k < |sales| && sales[k].Object? && Matches(sales[k], txId) && PassedOver(sales, txId, 0, k)
  {
  }

  /** What `verify_transaction` answers, as the code is written: the
      HTTPExceptions raised inside the try block for a non-list body and for a
      missing transaction are caught by its last `except Exception` and turned
      into the generic 500. */
  function VerifyOutcome(u: Upstream, txId: string): (r: Result<Element, HttpError>)
    ensures u.TransportError? <==> r == Err(Unavailable)
    ensures u.OtherFailure? ==> r == Err(VerifyInternal)
    ensures u.Answered? && !IsSuccess(u.status) ==> r == Err(UpstreamFailed(u.text))
    ensures u.Answered? && IsSuccess(u.status) && u.body.NotJson? ==> r == Err(NonJson)
    ensures r.Ok? <==> u.Answered? && IsSuccess(u.status) && u.body.Json? && u.body.doc.Array?
                       && FirstMatch(u.body.doc.items, txId, 0).Found?
    ensures r.Ok? ==> r.value.Object? && Matches(r.value, txId)
    ensures r.Ok? ==> u.Answered? && u.body.Json? && u.body.doc.Array?
                      && FirstMatch(u.body.doc.items, txId, 0).Found?
                      && r.value == u.body.doc.items[FirstMatch(u.body.doc.items, txId, 0).index]
    ensures (u.Answered? && IsSuccess(u.status) && u.body.Json?
             && (u.body.doc.Single? || !FirstMatch(u.body.doc.items, txId, 0).Found?))
            ==> r == Err(VerifyInternal)
    ensures r.Err? ==> r.error.status in {500, 502, 503}
  {
    match u
    case TransportError => Err(Unavailable)
    case OtherFailure => Err(VerifyInternal)
    case Answered(status, text, body) =>
      if !IsSuccess(status) then Err(UpstreamFailed(text))
      else match body
        case NotJson => Err(NonJson)
        case Json(Single(_)) => Err(VerifyInternal)
        case Json(Array(sales)) =>
          match FirstMatch(sales, txId, 0)
          case Found(k) => Ok(sales[k])
          case NoMatch => Err(VerifyInternal)
          case NotADict(_) => Err(VerifyInternal)
  }

  /** `verify_transaction` with its scan loop. */
  method VerifyTransaction(u: Upstream, txId: string) returns (r: Result<Element, HttpError>)
    ensures r == VerifyOutcome(u, txId)
  {
    if u.TransportError? {
      return Err(Unavailable);
    }
    if u.OtherFailure? {
      return Err(VerifyInternal);
    }
    if !IsSuccess(u.status) {
      return Err(UpstreamFailed(u.text));
    }
    if u.body.NotJson? {
      return Err(NonJson);
    }
    if u.body.doc.Single? {
      return Err(VerifyInternal);
    }
    var scan := ScanSales(u.body.doc.items, txId);
    if scan.Found? {
      return Ok(u.body.doc.items[scan.index]);
    }
    return Err(VerifyInternal);
  }

  /** As written, a transaction that is not in the list is reported as the generic
      500, indistinguishable from a non-list body or a non-dict element; the
      intended answer is a 404 or the invalid-format error. */
  lemma NotFoundReportedAsInternalError(status: int, text: string, doc: Document, txId: string)
    requires IsSuccess(status)
    requires doc.Single? || FirstMatch(doc.items, txId, 0).NoMatch?
    ensures VerifyOutcome(Answered(status, text, Json(doc)), txId) == Err(VerifyInternal)
    ensures VerifyOutcomeIntended(Answered(status, text, Json(doc)), txId)
            == (if doc.Single? then Err(InvalidFormat) else Err(NotFound))
  {
  }

  /** The smallest case: an empty sales list from a healthy ledger. */
  lemma EmptyListGivesInternalError(text: string, txId: string)
    ensures VerifyOutcome(Answered(200, text, Json(Array([]))), txId) == Err(VerifyInternal)
    ensures VerifyOutcomeIntended(Answered(200, text, Json(Array([]))), txId) == Err(NotFound)
  {
    NotFoundReportedAsInternalError(200, text, Array([]), txId);
  }

  /** The answer the raise statements of main.py:243 and main.py:255 were written
      to give: an invalid format and a missing transaction reach the client as
      such. */
  function VerifyOutcomeIntended(u: Upstream, txId: string): (r: Result<Element, HttpError>)
    ensures r.Err? && r.error.status == 404 <==>
            u.Answered? && IsSuccess(u.status) && u.body.Json? && u.body.doc.Array?
            && FirstMatch(u.body.doc.items, txId, 0).NoMatch?
    ensures r == Err(InvalidFormat) <==>
            u.Answered? && IsSuccess(u.status) && u.body.Json? && u.body.doc.Single?
    ensures (r.Err? && r.error.status == 404) || r == Err(InvalidFormat) || r == VerifyOutcome(u, txId)
  {
    match u
    case TransportError => Err(Unavailable)
    case OtherFailure => Err(VerifyInternal)
    case Answered(status, text, body) =>
      if !IsSuccess(status) then Err(UpstreamFailed(text))
      else match body
        case NotJson => Err(NonJson)
        case Json(Single(_)) => Err(InvalidFormat)
        case Json(Array(sales)) =>
          match FirstMatch(sales, txId, 0)
          case Found(k) => Ok(sales[k])
          case NoMatch => Err(NotFound)
          case NotADict(_) => Err(VerifyInternal)
  }

  /** The body `record_transaction` sends: both fields as strings (main.py:195-198).
      The price is given already formatted, since str() of a float is not
      modelled. */
  function RecordPayload(productId: int, priceText: string): (m: map<string, string>)
    ensures m.Keys == {"product_id", "price"}
    ensures ParseInt(m["product_id"]) == Some(productId) && m["price"] == priceText
  {
    IntToStringRoundTrip(productId);
    map["product_id" := IntToString(productId), "price" := priceText]
  }

  /** What `record_transaction` answers: the upstream JSON body unchanged on
      success, 503 for a transport failure, and 500 for everything else, a non-2xx
      status and any other exception from the call included. */
  function RecordOutcome(u: Upstream): (r: Result<Document, HttpError>)
    ensures r.Ok? <==> u.Answered? && IsSuccess(u.status) && u.body.Json?
    ensures r.Ok? ==> r.value == u.body.doc
    ensures r.Err? ==> r.error == (if u.TransportError? then Unavailable else RecordInternal)
  {
    match u
    case TransportError => Err(Unavailable)
    case OtherFailure => Err(RecordInternal)
    case Answered(status, _, body) =>
      if !IsSuccess(status) then Err(RecordInternal)
      else match body
        case NotJson => Err(RecordInternal)
        case Json(doc) => Ok(doc)
  }

  /** The two endpoints classify upstream failures alike at the coarse level:
      both answer 503 exactly for a transport failure and both fail on a non-JSON
      body; only verification passes a non-2xx status on as 502. */
  lemma RecordAndVerifyAgree(u: Upstream, txId: string)
    ensures RecordOutcome(u) == Err(Unavailable) <==> VerifyOutcome(u, txId) == Err(Unavailable)
    ensures u.Answered? && !IsSuccess(u.status) ==>
              RecordOutcome(u).error.status == 500 && VerifyOutcome(u, txId).error.status == 502
    ensures RecordOutcome(u).Err? ==> VerifyOutcome(u, txId).Err?
  {
  }
}
