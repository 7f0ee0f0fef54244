/**
 * The orders app's records (orders/models.py, orders/signals.py): order status
 * and its labels, the order number, order lines, payment transactions and the
 * status log rows that status changes and the post_save receiver write.
 */
module OrderModel {
  import opened Wrappers
  import opened Text
  import opened Pricing

  /** Order.OrderStatusChoices. */
  datatype Status = PendingPayment | Processing | Shipped | Delivered | Cancelled | Cart | PaymentFailed

  function StatusKey(s: Status): string
  {
    match s
    case PendingPayment => "PENDING_PAYMENT"
    case Processing => "PROCESSING"
    case Shipped => "SHIPPED"
    case Delivered => "DELIVERED"
    case Cancelled => "CANCELLED"
    case Cart => "CART"
    case PaymentFailed => "PAYMENT_FAILED"
  }

  /** The choice labels (get_status_display), untranslated. */
  function StatusLabel(s: Status): string
  {
    match s
    case PendingPayment => "Pending Payment"
    case Processing => "Processing"
    case Shipped => "Shipped"
    case Delivered => "Delivered"
    case Cancelled => "Cancelled"
    case Cart => "Cart"
    case PaymentFailed => "Payment Failed"
  }

  /** The status whose stored value is `key`, if `key` is one of the choices. */
  function ParseStatus(key: string): (r: Option<Status>)
    ensures r.Some? ==> StatusKey(r.value) == key
  {
    if key == "PENDING_PAYMENT" then Some(PendingPayment)
    else if key == "PROCESSING" then Some(Processing)
    else if key == "SHIPPED" then Some(Shipped)
    else if key == "DELIVERED" then Some(Delivered)
    else if key == "CANCELLED" then Some(Cancelled)
    else if key == "CART" then Some(Cart)
    else if key == "PAYMENT_FAILED" then Some(PaymentFailed)
    else None
  }

  /** Every status is read back from its key, so the keys are pairwise distinct. */
  lemma ParseStatusKey(s: Status)
    ensures ParseStatus(StatusKey(s)) == Some(s)
  {
  }

  /**
   * OrderStatusLogSerializer.get_new_status_display: the label of a known key,
   * the raw key otherwise.
   */
  function StatusDisplay(key: string): (r: string)
    ensures ParseStatus(key).Some? ==> r == StatusLabel(ParseStatus(key).value)
    ensures ParseStatus(key).None? ==> r == key
  {
    match ParseStatus(key)
    case Some(s) => StatusLabel(s)
    case None => key
  }

  /** One Order row. A null tracking code is the empty string here. */
  datatype Order = Order(
    userId: Option<nat>, orderNumber: Option<string>, addressId: Option<nat>, delivery: Option<int>,
    notes: Option<string>, totalPrice: real, status: Status, trackingCode: string, isDeleted: bool)

  /** A cart as get_or_create makes it: every other column at its default. */
  function NewCart(userId: nat): (o: Order)
    ensures o.status == Cart && o.userId == Some(userId) && o.totalPrice == 0.0
    ensures o.orderNumber.None? && !o.isDeleted
  {
    Order(Some(userId), None, None, None, None, 0.0, Cart, "", false)
  }

  const OrderNumberBase: nat := 2000

  /** The number Order.save gives a new order: "#BAKE-" and 2000 plus its id. */
  function OrderNumberFor(id: nat): string
  {
    "#BAKE-" + NatToString(OrderNumberBase + id)
  }

  /** Distinct orders get distinct numbers. */
  lemma OrderNumbersDistinct(a: nat, b: nat)
    requires a != b
    ensures OrderNumberFor(a) != OrderNumberFor(b)
  {
    if OrderNumberFor(a) == OrderNumberFor(b) {
      var p := "#BAKE-";
      assert NatToString(OrderNumberBase + a) == OrderNumberFor(a)[|p|..];
      assert NatToString(OrderNumberBase + b) == OrderNumberFor(b)[|p|..];
      NatToStringInjective(OrderNumberBase + a, OrderNumberBase + b);
    }
  }

  /** Order.save's numbering rule for a save of order `id`. */
  function NumberAfterSave(current: Option<string>, isNew: bool, id: nat): (r: Option<string>)
    ensures isNew && (current.None? || current.value == "") ==> r == Some(OrderNumberFor(id))
    ensures !isNew || (current.Some? && current.value != "") ==> r == current
  {
    if isNew && (current.None? || current.value == "") then Some(OrderNumberFor(id)) else current
  }

  /** A second save never renumbers an order. */
  lemma NumberAssignedOnce(current: Option<string>, id: nat, laterNew: bool)
    ensures var first := NumberAfterSave(current, true, id);
      NumberAfterSave(first, laterNew, id) == first
  {
  }

  datatype ProductKind = CakeKind | SupplyKind

  /** One OrderItem row. */
  datatype OrderItem = OrderItem(
    id: nat, orderId: nat, kind: ProductKind, objectId: nat, flavorId: Option<nat>, variantId: Option<nat>,
    quantity: nat, priceAtOrder: real, notes: Option<string>)

  /**
   * The largest `quantity` a row holds: a `PositiveIntegerField` takes the
   * database's range for a positive integer column, 0..2147483647 on
   * PostgreSQL and MySQL. Saving a larger value raises in the database.
   */
  const MaxQuantity: nat := 2147483647

  /** The lines of order `orderId`, in table order. */
  function LinesOf(items: seq<OrderItem>, orderId: nat): (r: seq<Line>)
    ensures |r| <= |items|
  {
    if items == [] then []
    else
      var rest := LinesOf(items[..|items| - 1], orderId);
      var last := items[|items| - 1];
      if last.orderId == orderId then rest + [Line(last.quantity, last.priceAtOrder)] else rest
  }

  /** The lines of an order are untouched by rows of other orders. */
  lemma {:induction false} LinesOfAppendOther(items: seq<OrderItem>, it: OrderItem, orderId: nat)
    ensures LinesOf(items + [it], orderId)
      == if it.orderId == orderId then LinesOf(items, orderId) + [Line(it.quantity, it.priceAtOrder)]
         else LinesOf(items, orderId)
  {
    assert (items + [it])[..|items|] == items;
  }

  /** Changing or removing one row of another order leaves an order's lines as they were. */
  lemma {:induction false} LinesOfOtherRows(a: seq<OrderItem>, b: seq<OrderItem>, orderId: nat)
    requires |a| == |b|
    requires forall k :: 0 <= k < |a| && (a[k].orderId == orderId || b[k].orderId == orderId) ==> a[k] == b[k]
    ensures LinesOf(a, orderId) == LinesOf(b, orderId)
    decreases |a|
  {
    if a != [] {
      LinesOfOtherRows(a[..|a| - 1], b[..|b| - 1], orderId);
    }
  }

  /** Lines of a concatenation are the concatenated lines. */
  lemma {:induction false} LinesOfConcat(a: seq<OrderItem>, b: seq<OrderItem>, orderId: nat)
    ensures LinesOf(a + b, orderId) == LinesOf(a, orderId) + LinesOf(b, orderId)
    decreases |b|
  {
    if b == [] {
      assert a + b == a;
    } else {
      var b' := b[..|b| - 1];
      assert a + b == (a + b') + [b[|b| - 1]];
      LinesOfAppendOther(a + b', b[|b| - 1], orderId);
      LinesOfConcat(a, b', orderId);
      LinesOfAppendOther(b', b[|b| - 1], orderId);
      assert b == b' + [b[|b| - 1]];
    }
  }

  /** An order no row belongs to has no lines. */
  lemma {:induction false} LinesOfNone(items: seq<OrderItem>, orderId: nat)
    requires forall k :: 0 <= k < |items| ==> items[k].orderId != orderId
    ensures LinesOf(items, orderId) == []
    decreases |items|
  {
    if items != [] {
      LinesOfNone(items[..|items| - 1], orderId);
    }
  }

  /** Removing a row of another order leaves an order's lines as they were. */
  lemma LinesOfRemoveOther(items: seq<OrderItem>, k: nat, orderId: nat)
    requires k < |items| && items[k].orderId != orderId
    ensures LinesOf(items[..k] + items[k + 1..], orderId) == LinesOf(items, orderId)
  {
    assert items == (items[..k] + [items[k]]) + items[k + 1..];
    LinesOfConcat(items[..k] + [items[k]], items[k + 1..], orderId);
    LinesOfAppendOther(items[..k], items[k], orderId);
    LinesOfConcat(items[..k], items[k + 1..], orderId);
  }

  /** The sum update_total_price stores for order `orderId`. */
  function OrderTotal(items: seq<OrderItem>, orderId: nat): real
  {
    Total(LinesOf(items, orderId))
  }

  /** Removing one line of the order takes exactly that line's total off the order's sum. */
  lemma RemoveLineTotal(items: seq<OrderItem>, k: nat)
    requires k < |items|
    ensures OrderTotal(items[..k] + items[k + 1..], items[k].orderId)
      == OrderTotal(items, items[k].orderId) - LineTotal(Line(items[k].quantity, items[k].priceAtOrder))
  {
    var o := items[k].orderId;
    assert items == items[..k] + [items[k]] + items[k + 1..];
    LinesOfConcat(items[..k] + [items[k]], items[k + 1..], o);
    LinesOfAppendOther(items[..k], items[k], o);
    LinesOfConcat(items[..k], items[k + 1..], o);
    var a, b := LinesOf(items[..k], o), LinesOf(items[k + 1..], o);
    var l := Line(items[k].quantity, items[k].priceAtOrder);
    TotalConcat(a + [l], b);
    TotalConcat(a, b);
    TotalAppend(a, l);
  }

  datatype TransactionStatus = TxPending | TxSuccess | TxFailed
  datatype PaymentMethod = OnlineGateway | CashOnDelivery | BankTransfer

  /** One Transaction row; the amount is what pay stored, in rials. */
  datatype Transaction = Transaction(
    orderId: nat, amount: int, gatewayReferenceId: Option<string>, gatewayResponse: Option<string>,
    refId: Option<string>, paymentMethod: Option<PaymentMethod>, status: TransactionStatus)

  /** One OrderStatusLog row. */
  datatype StatusLog = StatusLog(orderId: nat, newStatus: Status, changedBy: Option<nat>, notes: Option<string>)

  /** How an Order was saved, as post_save reports it. */
  datatype SaveKind = Created | UpdateFields(fields: set<string>) | FullSave

  /**
   * The rows log_order_status_change writes for one post_save, when it is
   * connected: none for fixture loading; one for a creation or for a save whose
   * update_fields name 'status'; none otherwise. A full save reaches the
   * missing change tracker, whose error is swallowed.
   */
  function SignalLogs(connected: bool, raw: bool, kind: SaveKind, orderId: nat, status: Status): (r: seq<StatusLog>)
    ensures |r| <= 1
    ensures |r| == 1 <==> connected && !raw && (kind.Created? || (kind.UpdateFields? && "status" in kind.fields))
    ensures |r| == 1 ==> r[0] == StatusLog(orderId, status, None, None)
  {
    if !connected || raw then []
    else match kind
      case Created => [StatusLog(orderId, status, None, None)]
      case UpdateFields(fields) => if "status" in fields then [StatusLog(orderId, status, None, None)] else []
      case FullSave => []
  }

  /** The note change_status writes when the caller gave none. */
  function DefaultStatusNote(prior: Status, next: Status): string
  {
    "وضعیت از '" + StatusLabel(prior) + "' به '" + StatusLabel(next) + "' تغییر کرد."
  }

  function ExplicitLog(orderId: nat, next: Status, changedBy: Option<nat>, prior: Status, notes: string): StatusLog
  {
    StatusLog(orderId, next, changedBy, Some(if notes == "" then DefaultStatusNote(prior, next) else notes))
  }

  /**
   * The rows change_status writes as the code stands: its save with
   * update_fields=['status'] reaches the post_save receiver, and then it creates
   * its own row.
   */
  function ChangeStatusLogsAsWritten(
    connected: bool, orderId: nat, prior: Status, next: Status, changedBy: Option<nat>, notes: string): (r: seq<StatusLog>)
    ensures prior == next ==> r == []
    ensures prior != next ==> |r| == (if connected then 2 else 1)
    ensures prior != next ==>
      var last := r[|r| - 1];
      last.orderId == orderId && last.newStatus == next && last.changedBy == changedBy
      && last.notes == Some(if notes == "" then DefaultStatusNote(prior, next) else notes)
    ensures prior != next && connected ==> r[0] == StatusLog(orderId, next, None, None)
  {
    if prior == next then []
    else SignalLogs(connected, false, UpdateFields({"status"}), orderId, next) + [ExplicitLog(orderId, next, changedBy, prior, notes)]
  }

  /** With the receiver connected, one status change writes two rows, one of them with no author and no note. */
  lemma ChangeStatusLogsTwice(orderId: nat, prior: Status, next: Status, changedBy: Option<nat>, notes: string)
    requires prior != next
    ensures var r := ChangeStatusLogsAsWritten(true, orderId, prior, next, changedBy, notes);
      |r| == 2 && r[0] == StatusLog(orderId, next, None, None) && r[1].changedBy == changedBy
  {
  }

  /** The intended rows: exactly one per real change, with the caller's author and note. */
  function ChangeStatusLogs(orderId: nat, prior: Status, next: Status, changedBy: Option<nat>, notes: string): (r: seq<StatusLog>)
    ensures prior == next ==> r == []
    ensures prior != next ==> |r| == 1 && r[0].orderId == orderId && r[0].newStatus == next && r[0].changedBy == changedBy
    ensures prior != next && notes != "" ==> r[0].notes == Some(notes)
    ensures prior != next && notes == "" ==> r[0].notes == Some(DefaultStatusNote(prior, next))
  {
    if prior == next then [] else [ExplicitLog(orderId, next, changedBy, prior, notes)]
  }

  /** The intended rows are the as-written ones without the receiver's duplicate. */
  lemma ChangeStatusLogsDropDuplicate(connected: bool, orderId: nat, prior: Status, next: Status, changedBy: Option<nat>, notes: string)
    ensures var w := ChangeStatusLogsAsWritten(connected, orderId, prior, next, changedBy, notes);
      ChangeStatusLogs(orderId, prior, next, changedBy, notes) == w[|w| - |ChangeStatusLogs(orderId, prior, next, changedBy, notes)|..]
    ensures !connected ==> ChangeStatusLogsAsWritten(false, orderId, prior, next, changedBy, notes)
                           == ChangeStatusLogs(orderId, prior, next, changedBy, notes)
  {
  }
}
