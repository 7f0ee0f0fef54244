/**
 * The decisions of the Zarinpal payment flow (orders/views.py, OrderViewSet.pay
 * and zarinpal_payment_callback): when a payment may start, the rial amount,
 * what each gateway reply does to the transaction and the order, and where the
 * customer is sent back to. The HTTP calls themselves are replaced by their
 * replies, given as inputs.
 */
module Zarinpal {
  import opened Wrappers
  import opened Text
  import opened OrderModel

  /** The answer to the payment request. */
  datatype PayReply =
    | PayAccepted(authority: string)
    | PayRefused(code: string, message: string)
    | PayNetworkError(detail: string)
    | PayUnexpected(detail: string)

  /** A payment may start only from PENDING_PAYMENT or after a failed payment. */
  predicate PayableStatus(s: Status)
  {
    s == PendingPayment || s == PaymentFailed
  }

  /** int(total * 10): tomans to rials, the fraction dropped. */
  function ToRial(total: real): (r: int)
    requires total > 0.0
    ensures r >= 0
    ensures r as real <= total * 10.0 < r as real + 1.0
  {
    (total * 10.0).Floor
  }

  /** Converting never loses more than a tenth of a toman, and a larger total never costs fewer rials. */
  lemma ToRialMonotone(a: real, b: real)
    requires 0.0 < a <= b
    ensures ToRial(a) <= ToRial(b)
  {
  }

  /** A whole-toman total converts exactly. */
  lemma ToRialWhole(t: nat)
    requires t > 0
    ensures ToRial(t as real) == 10 * t
  {
  }

  /** The gateway_response text a refused or failed payment request leaves on the transaction. */
  function PayFailureResponse(reply: PayReply): (r: Option<string>)
    ensures r.None? <==> reply.PayAccepted?
  {
    match reply
    case PayAccepted(_) => None
    case PayRefused(code, message) => Some("Error Code: " + code + " - " + message)
    case PayNetworkError(detail) => Some("Network Error: " + detail)
    case PayUnexpected(detail) => Some("Unexpected Error during Zarinpal processing: " + detail)
  }

  /** The transaction after the payment request was answered. */
  function AfterPayReply(t: Transaction, reply: PayReply): (r: Transaction)
    requires t.status == TxPending
    ensures r.orderId == t.orderId && r.amount == t.amount && r.refId == t.refId
    ensures reply.PayAccepted? ==> r == t.(gatewayReferenceId := Some(reply.authority))
    ensures !reply.PayAccepted? ==> r == t.(status := TxFailed, gatewayResponse := PayFailureResponse(reply))
  {
    match reply
    case PayAccepted(authority) => t.(gatewayReferenceId := Some(authority))
    case _ => t.(status := TxFailed, gatewayResponse := PayFailureResponse(reply))
  }

  /** The answer to the verification request. */
  datatype VerifyReply =
    | VerifyAnswered(code: Option<int>, refId: Field<Option<string>>, errorMessage: string, dataJson: string, fullJson: string)
    | VerifyTimeout
    | VerifyNetworkError(detail: string)
    | VerifyInvalidJson

  const ConfigErrorResponse: string := "Configuration Error: Cannot verify."
  const VerifiedNote: string := "پرداخت با موفقیت توسط درگاه تایید شد."
  const AlreadyVerifiedNote: string := "پرداخت قبلاً تایید شده بود، وضعیت سفارش همگام‌سازی شد."
  const TimeoutNote: string := "خطای Timeout در ارتباط با درگاه پرداخت."
  const InvalidJsonNote: string := "پاسخ دریافتی از درگاه پرداخت معتبر نبود."

  function NetworkNote(detail: string): string
  {
    "خطای شبکه در ارتباط با درگاه پرداخت: " + detail
  }

  function VerifyFailedNote(message: string): string
  {
    "تایید پرداخت ناموفق بود: " + message
  }

  function CancelledNote(status: string): string
  {
    "پرداخت توسط کاربر لغو شد یا در درگاه ناموفق بود. وضعیت بازگشتی: " + status
  }

  /**
   * What a callback does to a found PENDING transaction and its order. With
   * `viaChangeStatus` the order moves through change_status with `note`;
   * otherwise its status is assigned and saved directly.
   */
  datatype Settlement = Settlement(txn: Transaction, orderStatus: Status, viaChangeStatus: bool, note: string, paid: bool)

  predicate VerifiedCode(reply: VerifyReply)
  {
    reply.VerifyAnswered? && reply.code.Some? && (reply.code.value == 100 || reply.code.value == 101)
  }

  /** The decision of the callback once its PENDING transaction is found. */
  function Settle(t: Transaction, callbackStatus: string, configured: bool, reply: VerifyReply): (s: Settlement)
    requires t.status == TxPending
    // paid exactly when the customer came back OK, verification could run and said 100 or 101
    ensures s.paid <==> callbackStatus == "OK" && configured && VerifiedCode(reply)
    ensures s.paid ==> s.txn.status == TxSuccess && s.orderStatus == Processing
    ensures !s.paid ==> s.txn.status == TxFailed && s.orderStatus == PaymentFailed
    // the transaction keeps its order, amount and authority
    ensures s.txn.orderId == t.orderId && s.txn.amount == t.amount && s.txn.gatewayReferenceId == t.gatewayReferenceId
    // only the configuration error bypasses change_status
    ensures !s.viaChangeStatus <==> callbackStatus == "OK" && !configured
    ensures callbackStatus != "OK" ==>
      s.txn.gatewayResponse == Some("Callback Status: " + callbackStatus) && s.note == CancelledNote(callbackStatus)
    ensures s.paid ==> s.note == (if reply.code.value == 100 then VerifiedNote else AlreadyVerifiedNote)
  {
    if callbackStatus != "OK" then
      Settlement(t.(status := TxFailed, gatewayResponse := Some("Callback Status: " + callbackStatus)),
                 PaymentFailed, true, CancelledNote(callbackStatus), false)
    else if !configured then
      Settlement(t.(status := TxFailed, gatewayResponse := Some(ConfigErrorResponse)), PaymentFailed, false, "", false)
    else
      match reply
      case VerifyAnswered(code, refId, message, dataJson, fullJson) =>
        if code == Some(100) then
          Settlement(t.(status := TxSuccess, refId := if refId.Present? then refId.value else None, gatewayResponse := Some(dataJson)),
                     Processing, true, VerifiedNote, true)
        else if code == Some(101) then
          Settlement(t.(status := TxSuccess, refId := if refId.Present? then refId.value else t.refId,
                        gatewayResponse := Some(dataJson)),
                     Processing, true, AlreadyVerifiedNote, true)
        else
          Settlement(t.(status := TxFailed, gatewayResponse := Some(fullJson)), PaymentFailed, true,
                     VerifyFailedNote(message), false)
      case VerifyTimeout =>
        Settlement(t.(status := TxFailed, gatewayResponse := Some(TimeoutNote)), PaymentFailed, true, TimeoutNote, false)
      case VerifyNetworkError(detail) =>
        Settlement(t.(status := TxFailed, gatewayResponse := Some(NetworkNote(detail))), PaymentFailed, true,
                   NetworkNote(detail), false)
      case VerifyInvalidJson =>
        Settlement(t.(status := TxFailed, gatewayResponse := Some(InvalidJsonNote)), PaymentFailed, true,
                   InvalidJsonNote, false)
  }

  /**
   * The "already verified" answer: as the transaction is still PENDING when it
   * is found, code 101 settles it exactly as 100 does, keeping the stored
   * ref_id only when the gateway sends none.
   */
  lemma AlreadyVerifiedSettlesLikeVerified(t: Transaction, dataJson: string, refId: Option<string>, m: string, f: string)
    requires t.status == TxPending
    ensures var s100 := Settle(t, "OK", true, VerifyAnswered(Some(100), Present(refId), m, dataJson, f));
      var s101 := Settle(t, "OK", true, VerifyAnswered(Some(101), Present(refId), m, dataJson, f));
      s100.txn == s101.txn && s100.orderStatus == s101.orderStatus && s100.paid && s101.paid
    ensures Settle(t, "OK", true, VerifyAnswered(Some(101), Absent, m, dataJson, f)).txn.refId == t.refId
  {
  }

  /** The settled transaction is never left PENDING, so a second callback for it finds nothing to settle. */
  lemma SettledIsFinal(t: Transaction, callbackStatus: string, configured: bool, reply: VerifyReply)
    requires t.status == TxPending
    ensures Settle(t, callbackStatus, configured, reply).txn.status != TxPending
  {
  }

  /** Where the callback sends the customer. */
  function FailureUrl(frontend: string): string
  {
    frontend + "/payment/failure"
  }

  function OrderFailureUrl(frontend: string, orderId: nat): string
  {
    FailureUrl(frontend) + "?orderId=" + NatToString(orderId)
  }

  function SuccessUrl(frontend: string, orderId: nat): string
  {
    frontend + "/payment/success?orderId=" + NatToString(orderId)
  }

  /** The customer lands on the success page exactly when the payment was confirmed. */
  lemma SuccessAndFailureDiffer(frontend: string, a: nat, b: nat)
    ensures SuccessUrl(frontend, a) != OrderFailureUrl(frontend, b)
  {
    var i := |frontend| + 9;
    assert SuccessUrl(frontend, a)[i] == 's';
    assert OrderFailureUrl(frontend, b)[i] == 'f';
  }

  /** The result of looking up the transaction a callback names. */
  datatype Lookup = NoPending | OnePending(index: nat) | SeveralPending

  /** The indices of PENDING transactions carrying `authority`. */
  function PendingWith(txns: seq<Transaction>, authority: string): (r: seq<nat>)
    ensures forall i :: 0 <= i < |r| ==>
      (r[i] < |txns| && txns[r[i]].gatewayReferenceId == Some(authority) && txns[r[i]].status == TxPending)
    ensures forall k :: 0 <= k < |txns| ==>
      (txns[k].gatewayReferenceId == Some(authority) && txns[k].status == TxPending ==> k in r)
  {
    if txns == [] then []
    else
      var rest := PendingWith(txns[..|txns| - 1], authority);
      var k := |txns| - 1;
      if txns[k].gatewayReferenceId == Some(authority) && txns[k].status == TxPending then rest + [k] else rest
  }

  function LookupPending(txns: seq<Transaction>, authority: string): (r: Lookup)
    ensures r.OnePending? ==>
      r.index < |txns| && txns[r.index].gatewayReferenceId == Some(authority) && txns[r.index].status == TxPending
    ensures r.NoPending? ==> forall k :: 0 <= k < |txns| ==>
      !(txns[k].gatewayReferenceId == Some(authority) && txns[k].status == TxPending)
  {
    var p := PendingWith(txns, authority);
    if |p| == 0 then NoPending else if |p| == 1 then OnePending(p[0]) else SeveralPending
  }

  /** The first SUCCESS transaction carrying `authority`, if any. */
  function SucceededWith(txns: seq<Transaction>, authority: string): (r: Option<nat>)
    ensures r.Some? ==>
      r.value < |txns| && txns[r.value].gatewayReferenceId == Some(authority) && txns[r.value].status == TxSuccess
    ensures r.None? ==> forall k :: 0 <= k < |txns| ==>
      !(txns[k].gatewayReferenceId == Some(authority) && txns[k].status == TxSuccess)
  {
    if txns == [] then None
    else
      var k := |txns| - 1;
      match SucceededWith(txns[..k], authority)
      case Some(i) => Some(i)
      case None => if txns[k].gatewayReferenceId == Some(authority) && txns[k].status == TxSuccess then Some(k) else None
  }

  /** What a callback that finds no single PENDING transaction answers. */
  datatype Redirect = RedirectTo(url: string) | UnboundLocalCrash

  /**
   * The code as written: every way out of a failed lookup reads a name that
   * only a found transaction defines, so the request fails with an error and
   * never redirects.
   */
  function ReplayRedirectAsWritten(txns: seq<Transaction>, authority: string): (r: Redirect)
    requires !LookupPending(txns, authority).OnePending?
    ensures !r.RedirectTo?
  {
    match LookupPending(txns, authority)
    // several PENDING rows: the generic handler redirects to `final_failure_url`
    case SeveralPending => UnboundLocalCrash
    case NoPending =>
      // the success branch builds its address from `order.id`, the other one
      // redirects to `final_failure_url`; neither was assigned
      if SucceededWith(txns, authority).Some? then UnboundLocalCrash else UnboundLocalCrash
  }

  /** A replayed callback for a payment that already succeeded ends in an error instead of the success page. */
  lemma ReplayCrashes(frontend: string, authority: string, orderId: nat)
    ensures var txns := [Transaction(orderId, 10, Some(authority), None, Some("r"), None, TxSuccess)];
      !LookupPending(txns, authority).OnePending?
      && SucceededWith(txns, authority) == Some(0)
      && ReplayRedirectAsWritten(txns, authority) == UnboundLocalCrash
  {
    var txns := [Transaction(orderId, 10, Some(authority), None, Some("r"), None, TxSuccess)];
    assert PendingWith(txns[..0], authority) == [];
  }

  /**
   * The evident intent: the success page of the order that already paid, and
   * otherwise the generic failure page, as no order is known.
   */
  function ReplayRedirect(frontend: string, txns: seq<Transaction>, authority: string): (r: Redirect)
    requires !LookupPending(txns, authority).OnePending?
    ensures r.RedirectTo?
    ensures SucceededWith(txns, authority).Some? ==>
      r.url == SuccessUrl(frontend, txns[SucceededWith(txns, authority).value].orderId)
    ensures SucceededWith(txns, authority).None? ==> r.url == FailureUrl(frontend)
  {
    match SucceededWith(txns, authority)
    case Some(i) => RedirectTo(SuccessUrl(frontend, txns[i].orderId))
    case None => RedirectTo(FailureUrl(frontend))
  }
}
