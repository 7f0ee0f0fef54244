/**
 * How the admin screens label an order's payment: the order list's
 * getPaymentStatusDisplayInfo, the order card's getPaymentStatusStylesAndText
 * and the card's payment-method line. Status keys are compared after
 * upper-casing; empty display strings count as missing, as `||` treats them.
 */
module PaymentStatus {
  import opened Wrappers

  /** A transaction as the API serializes it; every field may be missing. */
  datatype Tx = Tx(status: Option<string>, statusDisplay: Option<string>, paymentMethod: Option<string>,
                   paymentMethodDisplay: Option<string>)

  /** The badge colour, which is what distinguishes the outcomes. */
  datatype Tone = Green | Yellow | Red | Orange | Gray

  datatype Badge = Badge(tone: Tone, text: string)

  const PaidText: string := "موفق"
  const GatewayPendingText: string := "در انتظار تایید درگاه"
  const CardPendingText: string := "در انتظار تایید"
  const FailedText: string := "ناموفق"
  const AwaitingPaymentText: string := "در انتظار پرداخت"
  const UnpaidText: string := "پرداخت نشده/لغو"
  const ProbablyPaidText: string := "پرداخت شده (احتمالی)"
  const UnknownText: string := "نامشخص"
  const OnlinePendingText: string := "آنلاین (در انتظار پرداخت)"

  function UpperChar(c: char): char
  {
    if 'a' <= c <= 'z' then (c as int - 32) as char else c
  }

  function Upper(s: string): (r: string)
    ensures |r| == |s| && forall i :: 0 <= i < |s| ==> r[i] == UpperChar(s[i])
  {
    if s == [] then [] else [UpperChar(s[0])] + Upper(s[1..])
  }

  /** The optional key, upper-cased, is one of `keys`. */
  predicate KeyIn(key: Option<string>, keys: set<string>)
  {
    key.Some? && Upper(key.value) in keys
  }

  /** `a || b` on an optional string. */
  function OrElse(a: Option<string>, b: string): (r: string)
    ensures r == b || (a.Some? && r == a.value && a.value != "")
  {
    if a.Some? && a.value != "" then a.value else b
  }

  /** `find`: the index of the first transaction whose status is one of `keys`. */
  function FirstWith(txs: seq<Tx>, keys: set<string>): (r: Option<nat>)
    ensures r.None? <==> forall i :: 0 <= i < |txs| ==> !KeyIn(txs[i].status, keys)
    ensures r.Some? ==> r.value < |txs| && KeyIn(txs[r.value].status, keys)
                        && forall i :: 0 <= i < r.value ==> !KeyIn(txs[i].status, keys)
  {
    if txs == [] then None
    else if KeyIn(txs[0].status, keys) then Some(0)
    else
      var rest := FirstWith(txs[1..], keys);
      if rest.None? then None else Some(rest.value + 1)
  }

  const Delivering: set<string> := {"DELIVERED", "PROCESSING", "SHIPPED"}
  const Unpaid: set<string> := {"CANCELLED", "PAYMENT_FAILED"}

  /** The badge for an order without transactions, shared by both screens (its branches are disjoint). */
  function OrderOnlyBadge(orderStatus: Option<string>): (b: Badge)
    ensures b.tone == Orange <==> KeyIn(orderStatus, {"PENDING_PAYMENT"})
    ensures b.tone == Red <==> KeyIn(orderStatus, Unpaid)
    ensures b.tone == Green <==> KeyIn(orderStatus, Delivering)
    ensures b.tone == Gray <==> !KeyIn(orderStatus, {"PENDING_PAYMENT"} + Unpaid + Delivering)
  {
    if KeyIn(orderStatus, {"PENDING_PAYMENT"}) then Badge(Orange, AwaitingPaymentText)
    else if KeyIn(orderStatus, Unpaid) then Badge(Red, UnpaidText)
    else if KeyIn(orderStatus, Delivering) then Badge(Green, ProbablyPaidText)
    else Badge(Gray, UnknownText)
  }

  /** getPaymentStatusDisplayInfo on the order list. */
  function ListBadge(txs: seq<Tx>, orderStatus: Option<string>): (b: Badge)
    ensures txs != [] ==>
      && (b == Badge(Green, PaidText) <==> exists i :: 0 <= i < |txs| && KeyIn(txs[i].status, {"SUCCESS"}))
      && (b == Badge(Yellow, GatewayPendingText) <==>
            (forall i :: 0 <= i < |txs| ==> !KeyIn(txs[i].status, {"SUCCESS"}))
            && exists i :: 0 <= i < |txs| && KeyIn(txs[i].status, {"PENDING"}))
      && (b.tone == Green || b == Badge(Yellow, GatewayPendingText) || b == Badge(Red, FailedText))
    ensures txs == [] ==> b == OrderOnlyBadge(orderStatus)
  {
    if txs != [] then
      if FirstWith(txs, {"SUCCESS"}).Some? then Badge(Green, PaidText)
      else if FirstWith(txs, {"PENDING"}).Some? then Badge(Yellow, GatewayPendingText)
      else Badge(Red, FailedText)
    else OrderOnlyBadge(orderStatus)
  }

  /**
   * getPaymentStatusStylesAndText on the order card: a SUCCESS or COMPLETED
   * transaction shows paid with its own label, else a PENDING one shows
   * pending, else the last transaction's label or "failed".
   */
  function CardBadge(txs: seq<Tx>, orderStatus: Option<string>): (b: Badge)
    ensures txs != [] ==>
      && (b.tone == Green <==> exists i :: 0 <= i < |txs| && KeyIn(txs[i].status, {"SUCCESS", "COMPLETED"}))
      && (b.tone == Yellow <==>
            (forall i :: 0 <= i < |txs| ==> !KeyIn(txs[i].status, {"SUCCESS", "COMPLETED"}))
            && exists i :: 0 <= i < |txs| && KeyIn(txs[i].status, {"PENDING"}))
      && (b.tone == Red ==> b.text == OrElse(txs[|txs| - 1].statusDisplay, FailedText))
      && b.tone in {Green, Yellow, Red}
    ensures txs == [] ==> b == OrderOnlyBadge(orderStatus)
  {
    if txs != [] then
      var paid := FirstWith(txs, {"SUCCESS", "COMPLETED"});
      if paid.Some? then Badge(Green, OrElse(txs[paid.value].statusDisplay, PaidText))
      else
        var pending := FirstWith(txs, {"PENDING"});
        if pending.Some? then Badge(Yellow, OrElse(txs[pending.value].statusDisplay, CardPendingText))
        else Badge(Red, OrElse(txs[|txs| - 1].statusDisplay, FailedText))
    else OrderOnlyBadge(orderStatus)
  }

  /**
   * The two screens agree: an order the list shows as paid is paid on the
   * card, and as long as no transaction is COMPLETED (a key only the card
   * knows) both show the same colour; without transactions they show the
   * same badge.
   */
  lemma ListAndCardAgree(txs: seq<Tx>, orderStatus: Option<string>)
    ensures ListBadge(txs, orderStatus).tone == Green ==> CardBadge(txs, orderStatus).tone == Green
    ensures (forall i :: 0 <= i < |txs| ==> !KeyIn(txs[i].status, {"COMPLETED"}))
            ==> ListBadge(txs, orderStatus).tone == CardBadge(txs, orderStatus).tone
    ensures txs == [] ==> ListBadge(txs, orderStatus) == CardBadge(txs, orderStatus)
  {
    if txs != [] {
      if exists i :: 0 <= i < |txs| && KeyIn(txs[i].status, {"SUCCESS"}) {
        var i :| 0 <= i < |txs| && KeyIn(txs[i].status, {"SUCCESS"});
        assert KeyIn(txs[i].status, {"SUCCESS", "COMPLETED"});
      } else if forall i :: 0 <= i < |txs| ==> !KeyIn(txs[i].status, {"COMPLETED"}) {
        forall i | 0 <= i < |txs|
          ensures !KeyIn(txs[i].status, {"SUCCESS", "COMPLETED"})
        {
          assert !KeyIn(txs[i].status, {"SUCCESS"}) && !KeyIn(txs[i].status, {"COMPLETED"});
        }
      }
    }
  }

  /**
   * The card's payment-method line: the paid transaction's method label, else
   * the first transaction's label, else its raw method key; "online
   * (awaiting payment)" only for an order awaiting payment with no
   * transactions; "unknown" otherwise.
   */
  function PaymentMethodText(txs: seq<Tx>, orderStatus: Option<string>): (r: string)
    ensures txs == [] ==> (r == OnlinePendingText <==> orderStatus == Some("PENDING_PAYMENT"))
    ensures txs == [] && orderStatus != Some("PENDING_PAYMENT") ==> r == UnknownText
    ensures txs != [] ==>
      || r == UnknownText
      || (exists i :: 0 <= i < |txs| && txs[i].paymentMethodDisplay == Some(r))
      || txs[0].paymentMethod == Some(r)
    ensures (txs != [] && txs[0].paymentMethodDisplay.Some? && txs[0].paymentMethodDisplay.value != ""
             && FirstWith(txs, {"SUCCESS", "COMPLETED"}).None?) ==> r == txs[0].paymentMethodDisplay.value
  {
    if txs != [] then
      var paid := FirstWith(txs, {"SUCCESS", "COMPLETED"});
      if paid.Some? && txs[paid.value].paymentMethodDisplay.Some? && txs[paid.value].paymentMethodDisplay.value != ""
      then txs[paid.value].paymentMethodDisplay.value
      else OrElse(txs[0].paymentMethodDisplay, OrElse(txs[0].paymentMethod, UnknownText))
    else if orderStatus == Some("PENDING_PAYMENT") then OnlinePendingText
    else UnknownText
  }
}
