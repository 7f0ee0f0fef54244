/**
 * The order handlers of the shop (orders/views.py, with Order.save,
 * OrderItem.save, update_total_price and change_status from orders/models.py)
 * over in-memory tables. Order ids are positions in `orders` plus one, in
 * creation order; transactions likewise. Gateway replies, failing database
 * writes and the clock are inputs.
 */
module Orders {
  import opened Wrappers
  import opened Text
  import opened ProductsModel
  import opened Pricing
  import opened OrderModel
  import opened SmsService
  import opened OrderSerializers
  import opened Zarinpal

  /** The HTTP answers of the handlers; bodies are left out except what the client acts on. */
  datatype Reply =
    | Ok
    | ItemAdded(itemId: nat)
    | Deleted
    | PaymentUrl(url: string)
    | BulkUpdated(count: nat)
    | BulkPartial(count: nat, failedIds: seq<nat>)
    | BadRequest(keys: seq<string>)
    | NotFound
    | ServerError
    | ServiceUnavailable

  /** The catalog as pricing reads it: the serializer's view plus the sizes. */
  datatype Catalog = Catalog(view: CatalogView, sizes: map<nat, Size>)

  /** Every variant's size exists (a NOT NULL foreign key). */
  predicate CatalogWellFormed(c: Catalog)
  {
    forall v :: v in c.view.variants ==> c.view.variants[v].sizeId in c.sizes
  }

  /** The product row an item's generic relation points at, if it still exists. */
  function ProductOf(c: Catalog, kind: ProductKind, id: nat): Product
  {
    match kind
    case CakeKind => if id in c.view.cakes then CakeProduct(c.view.cakes[id]) else NoProduct
    case SupplyKind => if id in c.view.supplies then SupplyProduct(c.view.supplies[id]) else NoProduct
  }

  function ChosenOf(c: Catalog, variantId: Option<nat>): Option<Chosen>
  {
    if variantId.Some? && variantId.value in c.view.variants && c.view.variants[variantId.value].sizeId in c.sizes then
      var v := c.view.variants[variantId.value];
      Some(Chosen(v, c.sizes[v.sizeId]))
    else None
  }

  /**
   * calculate_price for a row, from the catalog as it is now, as the
   * `price_at_order` column (decimal_places=2) stores it.
   */
  function UnitPrice(c: Catalog, it: OrderItem): PriceOutcome
  {
    InCents(CalculatePrice(ProductOf(c, it.kind, it.objectId), ChosenOf(c, it.variantId)))
  }

  /**
   * The stored unit price is a whole number of cents within half a cent of
   * calculate_price, and a row is priced exactly when calculate_price returns.
   */
  lemma UnitPriceInCents(c: Catalog, it: OrderItem)
    ensures UnitPrice(c, it).Priced? <==> CalculatePrice(ProductOf(c, it.kind, it.objectId), ChosenOf(c, it.variantId)).Priced?
    ensures UnitPrice(c, it).Priced? ==>
      var exact := CalculatePrice(ProductOf(c, it.kind, it.objectId), ChosenOf(c, it.variantId)).amount;
      WholeCents(UnitPrice(c, it).amount) && exact - 0.005 <= UnitPrice(c, it).amount <= exact + 0.005
  {
  }

  predicate IsCartOf(o: Order, userId: nat)
  {
    o.userId == Some(userId) && o.status == Cart && !o.isDeleted
  }

  /** The ids of a user's live carts, as get_or_create(user, status=CART) finds them. */
  function CartsOf(os: seq<Order>, userId: nat): (r: seq<nat>)
    ensures forall i :: 0 <= i < |r| ==> 1 <= r[i] <= |os| && IsCartOf(os[r[i] - 1], userId)
    ensures forall k :: 0 <= k < |os| ==> (IsCartOf(os[k], userId) ==> k + 1 in r)
  {
    if os == [] then []
    else
      var rest := CartsOf(os[..|os| - 1], userId);
      if IsCartOf(os[|os| - 1], userId) then rest + [|os|] else rest
  }

  /** An item matches an addition when it is in the cart with the same product, flavor and size variant. */
  predicate SameLine(it: OrderItem, cart: nat, a: CartAddition)
  {
    it.orderId == cart && it.kind == a.kind && it.objectId == a.objectId
    && it.flavorId == a.flavorId && it.variantId == a.variantId
  }

  /** The positions of the rows get_or_create finds for an addition. */
  function MatchingItems(its: seq<OrderItem>, cart: nat, a: CartAddition): (r: seq<nat>)
    ensures forall i :: 0 <= i < |r| ==> r[i] < |its| && SameLine(its[r[i]], cart, a)
    ensures forall k :: 0 <= k < |its| ==> (SameLine(its[k], cart, a) ==> k in r)
  {
    if its == [] then []
    else
      var rest := MatchingItems(its[..|its| - 1], cart, a);
      if SameLine(its[|its| - 1], cart, a) then rest + [|its| - 1] else rest
  }

  /** The cart get_or_create settles on for a user with at most one: that one, or the next order id. */
  function CartFor(os: seq<Order>, userId: nat): (r: nat)
    ensures |CartsOf(os, userId)| == 1 ==> r in CartsOf(os, userId)
    ensures |CartsOf(os, userId)| != 1 ==> r == |os| + 1
  {
    var c := CartsOf(os, userId);
    if |c| == 1 then c[0] else |os| + 1
  }

  /** The position of the row with id `id`. */
  function ItemIndex(its: seq<OrderItem>, id: nat): (r: Option<nat>)
    ensures r.Some? ==> r.value < |its| && its[r.value].id == id
    ensures r.None? ==> forall k :: 0 <= k < |its| ==> its[k].id != id
  {
    if its == [] then None
    else if its[|its| - 1].id == id then Some(|its| - 1)
    else ItemIndex(its[..|its| - 1], id)
  }

  /**
   * The row with id `id` is a line of order `cart` for addition `a`, priced
   * from the catalog, holding the added quantity on top of what the row held
   * before (nothing when the row is new).
   */
  predicate LineAdded(before: seq<OrderItem>, after: seq<OrderItem>, c: Catalog, id: nat, cart: nat, a: CartAddition)
  {
    ItemIndex(after, id).Some? &&
    var it := after[ItemIndex(after, id).value];
    SameLine(it, cart, a) && UnitPrice(c, it) == Priced(it.priceAtOrder)
    && it.quantity == a.quantity + (if ItemIndex(before, id).Some? then before[ItemIndex(before, id).value].quantity else 0)
  }

  /** A row a save can store: it can be priced, and its quantity fits the column. */
  predicate Storable(c: Catalog, row: OrderItem)
  {
    UnitPrice(c, row).Priced? && row.quantity <= MaxQuantity
  }

  /** Row `id` is a line added to a live cart of `userId` for addition `a`. */
  predicate AddedToCartOf(before: seq<OrderItem>, after: seq<OrderItem>, os: seq<Order>, c: Catalog, userId: nat, id: nat, a: CartAddition)
  {
    ItemIndex(after, id).Some? &&
    var cart := after[ItemIndex(after, id).value].orderId;
    1 <= cart <= |os| && IsCartOf(os[cart - 1], userId) && LineAdded(before, after, c, id, cart, a)
  }

  /** A line added to a live cart of `userId` is a line added to that user's cart. */
  lemma LineInCart(before: seq<OrderItem>, after: seq<OrderItem>, os: seq<Order>, c: Catalog, userId: nat, id: nat,
                   cart: nat, a: CartAddition)
    requires LineAdded(before, after, c, id, cart, a) && 1 <= cart <= |os| && IsCartOf(os[cart - 1], userId)
    ensures after[ItemIndex(after, id).value].orderId == cart
    ensures AddedToCartOf(before, after, os, c, userId, id, a)
  {
  }

  /** With distinct ids, the row found for an id is the row that has it. */
  lemma {:induction false} ItemIndexOf(its: seq<OrderItem>, k: nat)
    requires k < |its| && forall i, j :: 0 <= i < j < |its| ==> its[i].id != its[j].id
    ensures ItemIndex(its, its[k].id) == Some(k)
    decreases |its|
  {
    if k < |its| - 1 {
      ItemIndexOf(its[..|its| - 1], k);
    }
  }

  /** The row a repeated addition saves, or the new row a first addition creates with id `nextId`. */
  function AddedRow(its: seq<OrderItem>, m: seq<nat>, nextId: nat, cart: nat, a: CartAddition): OrderItem
    requires |m| == 1 ==> m[0] < |its|
  {
    if |m| == 1 then its[m[0]].(quantity := its[m[0]].quantity + a.quantity)
    else OrderItem(nextId, cart, a.kind, a.objectId, a.flavorId, a.variantId, a.quantity, 0.0, a.notes)
  }

  /**
   * What OrderItem get_or_create and the save after it make of the item table
   * for addition `a` to cart `cart`: the id of the line and the new table, or
   * None when the request fails (two matching rows, or a row that cannot be
   * stored).
   */
  function AddOutcome(c: Catalog, its: seq<OrderItem>, nextId: nat, cart: nat, a: CartAddition): Option<(nat, seq<OrderItem>)>
  {
    var m := MatchingItems(its, cart, a);
    if |m| > 1 then None
    else
      var row := AddedRow(its, m, nextId, cart, a);
      if !Storable(c, row) then None
      else
        var saved := row.(priceAtOrder := UnitPrice(c, row).amount);
        Some((row.id, if |m| == 1 then its[m[0] := saved] else its + [saved]))
  }

  /** The outcome of an addition that one row matches: that row, with the quantity added, saved in place. */
  lemma MergeOutcome(c: Catalog, its: seq<OrderItem>, nextId: nat, cart: nat, a: CartAddition, k: nat)
    requires k < |its| && MatchingItems(its, cart, a) == [k]
    ensures var row := its[k].(quantity := its[k].quantity + a.quantity);
      AddOutcome(c, its, nextId, cart, a)
      == if Storable(c, row) then Some((row.id, its[k := row.(priceAtOrder := UnitPrice(c, row).amount)])) else None
  {
  }

  /** The orders differ at most in their stored totals. */
  predicate TotalsOnlyChanged(before: seq<Order>, after: seq<Order>)
  {
    |after| == |before| && forall j :: 0 <= j < |after| ==> after[j] == before[j].(totalPrice := after[j].totalPrice)
  }

  /** The reply and item table a request ends with, given its outcome. */
  predicate AnswersOutcome(o: Option<(nat, seq<OrderItem>)>, reply: Reply, before: seq<OrderItem>, after: seq<OrderItem>)
  {
    reply == (if o.Some? then ItemAdded(o.value.0) else ServerError)
    && after == (if o.Some? then o.value.1 else before)
  }

  /**
   * An addition that goes through leaves the line in the cart at a catalog
   * price holding the requested quantity on top of what it held; it appends
   * exactly one row when there was no matching row and none otherwise, and
   * every other row stays as it was, in place. It goes through exactly when
   * at most one row matches and the row to save is storable.
   */
  lemma {:induction false} AddOutcomeSound(c: Catalog, its: seq<OrderItem>, nextId: nat, cart: nat, a: CartAddition)
    requires forall j, k :: 0 <= j < k < |its| ==> its[j].id != its[k].id
    requires forall k :: 0 <= k < |its| ==> its[k].id < nextId
    ensures var m := MatchingItems(its, cart, a);
      AddOutcome(c, its, nextId, cart, a).Some?
      <==> |m| <= 1 && Storable(c, AddedRow(its, m, nextId, cart, a))
    ensures var r := AddOutcome(c, its, nextId, cart, a);
      r.Some? ==>
        LineAdded(its, r.value.1, c, r.value.0, cart, a)
        && |r.value.1| == |its| + (if MatchingItems(its, cart, a) == [] then 1 else 0)
        && (forall j :: 0 <= j < |its| && its[j].id != r.value.0 ==> r.value.1[j] == its[j])
        && (forall j, k :: 0 <= j < k < |r.value.1| ==> r.value.1[j].id != r.value.1[k].id)
  {
    var m := MatchingItems(its, cart, a);
    var r := AddOutcome(c, its, nextId, cart, a);
    if r.Some? {
      var after := r.value.1;
      if |m| == 1 {
        ItemIndexOf(its, m[0]);
        ItemIndexOf(after, m[0]);
      } else {
        assert forall j :: 0 <= j < |its| ==> after[j] == its[j];
        ItemIndexOf(after, |its|);
        assert ItemIndex(its, nextId).None?;
      }
    }
  }

  /** What send_order_status_sms is told about an order. */
  function FactsOf(customers: map<nat, Customer>, id: nat, o: Order): OrderFacts
  {
    OrderFacts(id, o.totalPrice, o.trackingCode,
      if o.userId.Some? && o.userId.value in customers then Some(customers[o.userId.value]) else None)
  }

  /**
   * The Notification rows a dispatch leaves behind. The user column is NOT
   * NULL, so for an order without a user the insert fails; change_status
   * swallows that error and nothing is stored.
   */
  function Stored(d: Dispatch): (r: seq<Notification>)
    ensures |r| <= 1
    ensures |r| == 1 <==> d.record.Some? && d.record.value.userId.Some?
    ensures |r| == 1 ==> r[0] == d.record.value
  {
    if d.record.Some? && d.record.value.userId.Some? then [d.record.value] else []
  }

  /** An order the requester may act on: it exists, is theirs and is not soft-deleted. */
  predicate OwnsActive(os: seq<Order>, userId: nat, id: int)
  {
    1 <= id <= |os| && os[id - 1].userId == Some(userId) && !os[id - 1].isDeleted
  }

  /** The orders after change_status(next) on order `id`: only that order's status differs. */
  function StatusAfter(os: seq<Order>, id: nat, next: Status): (r: seq<Order>)
    requires 1 <= id <= |os|
    ensures |r| == |os| && r[id - 1] == os[id - 1].(status := next)
    ensures forall k :: 0 <= k < |os| && k != id - 1 ==> r[k] == os[k]
  {
    os[id - 1 := os[id - 1].(status := next)]
  }

  /**
   * The notifications change_status leaves behind: none for a same-status call,
   * else what one dispatch for the new status stores.
   */
  function SmsAfter(
    templates: map<EventTrigger, SmsTemplate>, customers: map<nat, Customer>, config: SmsConfig,
    os: seq<Order>, id: nat, next: Status, reply: SmsReply, now: int): (r: seq<Notification>)
    requires 1 <= id <= |os|
    ensures os[id - 1].status == next ==> r == []
    ensures |r| <= 1
    ensures |r| == 1 ==> r[0].orderId == Some(id) && r[0].kind == SmsNotification && r[0].userId.Some?
  {
    if os[id - 1].status == next then []
    else Stored(SendOrderStatusSms(templates, FactsOf(customers, id, os[id - 1]), StatusKey(next), config, reply, now))
  }

  /** A status change to the status an order already has does nothing; a second identical change is such a call. */
  lemma ChangeStatusIdempotent(
    templates: map<EventTrigger, SmsTemplate>, customers: map<nat, Customer>, config: SmsConfig,
    os: seq<Order>, id: nat, next: Status, changedBy: Option<nat>, notes: string, reply: SmsReply, now: int)
    requires 1 <= id <= |os|
    ensures var after := StatusAfter(os, id, next);
      StatusAfter(after, id, next) == after
      && ChangeStatusLogs(id, after[id - 1].status, next, changedBy, notes) == []
      && SmsAfter(templates, customers, config, after, id, next, reply, now) == []
  {
  }

  /** The columns a checkout writes: address and delivery time, and the notes only when they were sent. */
  function ApplyCheckout(o: Order, p: CheckoutPatch): (r: Order)
    ensures r.addressId == p.addressId && r.delivery == p.delivery
    ensures r.notes == (if p.notes.Present? then p.notes.value else o.notes)
    ensures r.(addressId := o.addressId, delivery := o.delivery, notes := o.notes) == o
  {
    o.(addressId := p.addressId, delivery := p.delivery, notes := if p.notes.Present? then p.notes.value else o.notes)
  }

  /** The pay handler's answer once the gateway was asked. */
  function PayAnswer(startPayUrl: string, reply: PayReply): (r: Reply)
    ensures r.PaymentUrl? <==> reply.PayAccepted?
    ensures reply.PayAccepted? ==> r.url == startPayUrl + reply.authority
    ensures reply.PayRefused? ==> r == BadRequest(["detail"])
    ensures reply.PayNetworkError? ==> r == ServiceUnavailable
    ensures reply.PayUnexpected? ==> r == ServerError
  {
    match reply
    case PayAccepted(authority) => PaymentUrl(startPayUrl + authority)
    case PayRefused(_, _) => BadRequest(["detail"])
    case PayNetworkError(_) => ServiceUnavailable
    case PayUnexpected(_) => ServerError
  }

  /** A row the cart endpoints may touch: it exists and its order is the requester's CART. */
  predicate InUserCart(os: seq<Order>, its: seq<OrderItem>, userId: nat, itemId: nat)
  {
    ItemIndex(its, itemId).Some?
    && var it := its[ItemIndex(its, itemId).value];
    1 <= it.orderId <= |os| && os[it.orderId - 1].userId == Some(userId) && os[it.orderId - 1].status == Cart
  }

  /** Every requested id names a live order. */
  predicate AllActive(os: seq<Order>, ids: set<int>)
  {
    forall x :: x in ids ==> 1 <= x <= |os| && !os[x - 1].isDeleted
  }

  /** The bulk update saves order `id`: it was requested, its status differs and its save goes through. */
  predicate BulkSaves(os: seq<Order>, ids: set<int>, next: Status, saveFails: set<nat>, id: nat)
    requires 1 <= id <= |os|
  {
    id in ids && os[id - 1].status != next && id !in saveFails
  }

  /** The bulk update tries to save order `id` and the save fails. */
  predicate BulkFails(os: seq<Order>, ids: set<int>, next: Status, saveFails: set<nat>, id: nat)
    requires 1 <= id <= |os|
  {
    id in ids && os[id - 1].status != next && id in saveFails
  }

  /** Strictly decreasing: each id appears once, newest first. */
  predicate Descending(s: seq<nat>)
  {
    forall i, j :: 0 <= i < j < |s| ==> s[i] > s[j]
  }

  /** The orders among ids lo+1..|os| that the bulk update saves, newest first. */
  function BulkSaved(os: seq<Order>, ids: set<int>, next: Status, saveFails: set<nat>, lo: nat): seq<nat>
    requires lo <= |os|
    decreases |os| - lo
  {
    if lo == |os| then []
    else BulkSaved(os, ids, next, saveFails, lo + 1) + (if BulkSaves(os, ids, next, saveFails, lo + 1) then [lo + 1] else [])
  }

  /** The orders among ids lo+1..|os| whose save fails, newest first. */
  function BulkFailed(os: seq<Order>, ids: set<int>, next: Status, saveFails: set<nat>, lo: nat): seq<nat>
    requires lo <= |os|
    decreases |os| - lo
  {
    if lo == |os| then []
    else BulkFailed(os, ids, next, saveFails, lo + 1) + (if BulkFails(os, ids, next, saveFails, lo + 1) then [lo + 1] else [])
  }

  /** The saved list holds exactly the orders above `lo` that the update saves, newest first. */
  lemma {:induction false} BulkSavedExactly(os: seq<Order>, ids: set<int>, next: Status, saveFails: set<nat>, lo: nat)
    requires lo <= |os|
    ensures forall id: nat :: id in BulkSaved(os, ids, next, saveFails, lo) <==>
      lo < id <= |os| && BulkSaves(os, ids, next, saveFails, id)
    ensures Descending(BulkSaved(os, ids, next, saveFails, lo))
    decreases |os| - lo
  {
    if lo < |os| {
      BulkSavedExactly(os, ids, next, saveFails, lo + 1);
      var rest := BulkSaved(os, ids, next, saveFails, lo + 1);
      var r := BulkSaved(os, ids, next, saveFails, lo);
      assert r == rest + (if BulkSaves(os, ids, next, saveFails, lo + 1) then [lo + 1] else []);
      forall i | 0 <= i < |rest| ensures rest[i] > lo + 1 {
        assert rest[i] in rest;
      }
      forall i, j | 0 <= i < j < |r| ensures r[i] > r[j] {
        assert r[i] == rest[i];
        if j < |rest| {
          assert r[j] == rest[j];
        } else {
          assert r[j] == lo + 1;
        }
      }
    }
  }

  /** The failure list holds exactly the orders above `lo` whose save fails, newest first. */
  lemma {:induction false} BulkFailedExactly(os: seq<Order>, ids: set<int>, next: Status, saveFails: set<nat>, lo: nat)
    requires lo <= |os|
    ensures forall id: nat :: id in BulkFailed(os, ids, next, saveFails, lo) <==>
      lo < id <= |os| && BulkFails(os, ids, next, saveFails, id)
    ensures Descending(BulkFailed(os, ids, next, saveFails, lo))
    decreases |os| - lo
  {
    if lo < |os| {
      BulkFailedExactly(os, ids, next, saveFails, lo + 1);
      var rest := BulkFailed(os, ids, next, saveFails, lo + 1);
      var r := BulkFailed(os, ids, next, saveFails, lo);
      assert r == rest + (if BulkFails(os, ids, next, saveFails, lo + 1) then [lo + 1] else []);
      forall i | 0 <= i < |rest| ensures rest[i] > lo + 1 {
        assert rest[i] in rest;
      }
      forall i, j | 0 <= i < j < |r| ensures r[i] > r[j] {
        assert r[i] == rest[i];
        if j < |rest| {
          assert r[j] == rest[j];
        } else {
          assert r[j] == lo + 1;
        }
      }
    }
  }

  /** The row the bulk update writes itself, with the old raw key and the new label. */
  function BulkLog(id: nat, prior: Status, next: Status, adminId: nat, note: Status -> string): StatusLog
  {
    StatusLog(id, next, Some(adminId), Some(note(prior)))
  }

  function BulkNote(priorKey: string, nextLabel: string, adminName: string): string
  {
    "وضعیت از '" + priorKey + "' به '" + nextLabel + "' توسط ادمین " + adminName + " تغییر کرد."
  }

  /** The handler's note for a change to `next` by admin `adminName`, as a function of the old status. */
  function BulkNoteFor(next: Status, adminName: string): Status -> string
  {
    (prior: Status) => BulkNote(StatusKey(prior), StatusLabel(next), adminName)
  }

  /**
   * The rows the bulk update writes for one order it handles: when the save
   * goes through, the receiver's row (its update_fields name 'status') and the
   * handler's own row unless creating it fails.
   */
  function BulkRows(
    saves: bool, id: nat, prior: Status, next: Status, logFails: set<nat>,
    adminId: nat, note: Status -> string, connected: bool): seq<StatusLog>
  {
    if saves then
      SignalLogs(connected, false, UpdateFields({"status", "updated_at"}), id, next)
      + (if id in logFails then [] else [BulkLog(id, prior, next, adminId, note)])
    else []
  }

  /** The log rows of the bulk update over ids lo+1..|os|, newest first. */
  function BulkLogs(
    os: seq<Order>, ids: set<int>, next: Status, saveFails: set<nat>, logFails: set<nat>,
    adminId: nat, note: Status -> string, connected: bool, lo: nat): seq<StatusLog>
    requires lo <= |os|
    decreases |os| - lo
  {
    if lo == |os| then []
    else
      BulkLogs(os, ids, next, saveFails, logFails, adminId, note, connected, lo + 1)
      + BulkRows(BulkSaves(os, ids, next, saveFails, lo + 1), lo + 1, os[lo].status, next, logFails,
                 adminId, note, connected)
  }

  /** The orders once the bulk update has passed ids lo+1..|os|. */
  function BulkOrders(os: seq<Order>, ids: set<int>, next: Status, saveFails: set<nat>, lo: nat): (r: seq<Order>)
    requires lo <= |os|
    ensures |r| == |os|
    decreases |os| - lo
  {
    if lo == |os| then os
    else
      var rest := BulkOrders(os, ids, next, saveFails, lo + 1);
      rest[lo := if BulkSaves(os, ids, next, saveFails, lo + 1) then os[lo].(status := next) else os[lo]]
  }

  /** Exactly the saved orders above `lo` take the new status; nothing else about any order changes. */
  lemma {:induction false} BulkOrdersAt(os: seq<Order>, ids: set<int>, next: Status, saveFails: set<nat>, lo: nat)
    requires lo <= |os|
    ensures forall k :: 0 <= k < |os| ==>
      BulkOrders(os, ids, next, saveFails, lo)[k]
        == if lo <= k && BulkSaves(os, ids, next, saveFails, k + 1) then os[k].(status := next) else os[k]
    decreases |os| - lo
  {
    if lo < |os| {
      BulkOrdersAt(os, ids, next, saveFails, lo + 1);
    }
  }

  /** How the bulk update's outcome grows when the pass moves from order `i` down to order `i - 1`. */
  lemma BulkStep(
    os: seq<Order>, ids: set<int>, next: Status, saveFails: set<nat>, logFails: set<nat>,
    adminId: nat, note: Status -> string, connected: bool, i: nat)
    requires 1 <= i <= |os|
    ensures BulkSaved(os, ids, next, saveFails, i - 1)
      == BulkSaved(os, ids, next, saveFails, i) + (if BulkSaves(os, ids, next, saveFails, i) then [i] else [])
    ensures BulkFailed(os, ids, next, saveFails, i - 1)
      == BulkFailed(os, ids, next, saveFails, i) + (if BulkFails(os, ids, next, saveFails, i) then [i] else [])
    ensures BulkOrders(os, ids, next, saveFails, i)[i - 1] == os[i - 1]
    ensures BulkOrders(os, ids, next, saveFails, i - 1)
      == BulkOrders(os, ids, next, saveFails, i)[i - 1 := if BulkSaves(os, ids, next, saveFails, i) then os[i - 1].(status := next) else os[i - 1]]
    ensures BulkLogs(os, ids, next, saveFails, logFails, adminId, note, connected, i - 1)
      == BulkLogs(os, ids, next, saveFails, logFails, adminId, note, connected, i)
         + BulkRows(BulkSaves(os, ids, next, saveFails, i), i, os[i - 1].status, next, logFails, adminId, note, connected)
  {
    BulkOrdersAt(os, ids, next, saveFails, i);
  }

  /** Every log row of the bulk update is about a saved order and records the new status. */
  lemma {:induction false} BulkLogsAboutSaved(
    os: seq<Order>, ids: set<int>, next: Status, saveFails: set<nat>, logFails: set<nat>,
    adminId: nat, note: Status -> string, connected: bool, lo: nat)
    requires lo <= |os|
    ensures forall row :: row in BulkLogs(os, ids, next, saveFails, logFails, adminId, note, connected, lo) ==>
      row.orderId in BulkSaved(os, ids, next, saveFails, lo) && row.newStatus == next
    decreases |os| - lo
  {
    if lo < |os| {
      BulkLogsAboutSaved(os, ids, next, saveFails, logFails, adminId, note, connected, lo + 1);
      var rest := BulkLogs(os, ids, next, saveFails, logFails, adminId, note, connected, lo + 1);
      var saves := BulkSaves(os, ids, next, saveFails, lo + 1);
      var rows := BulkRows(saves, lo + 1, os[lo].status, next, logFails, adminId, note, connected);
      var savedRest := BulkSaved(os, ids, next, saveFails, lo + 1);
      var saved := BulkSaved(os, ids, next, saveFails, lo);
      assert saved == savedRest + (if saves then [lo + 1] else []);
      forall row | row in rows ensures row.orderId == lo + 1 && row.newStatus == next && saves {
      }
      assert rest + rows == BulkLogs(os, ids, next, saveFails, logFails, adminId, note, connected, lo);
      forall row | row in rest + rows ensures row.orderId in saved && row.newStatus == next {
        if row in rest {
          assert row.orderId in savedRest;
        }
      }
    }
  }

  /**
   * Repeating a bulk update on its outcome saves only what failed the first
   * time: every order it did save already has the new status.
   */
  lemma BulkRepeatSavesOnlyFailures(os: seq<Order>, after: seq<Order>, ids: set<int>, next: Status, saveFails: set<nat>)
    requires |after| == |os|
    requires forall k :: 0 <= k < |os| ==>
      after[k] == if BulkSaves(os, ids, next, saveFails, k + 1) then os[k].(status := next) else os[k]
    ensures forall x :: x in BulkSaved(after, ids, next, {}, 0) ==> x in BulkFailed(os, ids, next, saveFails, 0)
  {
    BulkSavedExactly(after, ids, next, {}, 0);
    BulkFailedExactly(os, ids, next, saveFails, 0);
    forall x | x in BulkSaved(after, ids, next, {}, 0)
      ensures x in BulkFailed(os, ids, next, saveFails, 0)
    {
      assert 0 < x <= |os| && BulkSaves(after, ids, next, {}, x);
      assert after[x - 1] == os[x - 1];
    }
  }

  /** The bulk update's loop over the orders, from the newest down, on the tables' values. */
  method BulkRun(prior: seq<Order>, ids: set<int>, next: Status, saveFails: set<nat>, logFails: set<nat>,
                 adminId: nat, note: Status -> string, connected: bool)
    returns (os: seq<Order>, rows: seq<StatusLog>, count: nat, failed: seq<nat>)
    ensures os == BulkOrders(prior, ids, next, saveFails, 0)
    ensures rows == BulkLogs(prior, ids, next, saveFails, logFails, adminId, note, connected, 0)
    ensures count == |BulkSaved(prior, ids, next, saveFails, 0)|
    ensures failed == BulkFailed(prior, ids, next, saveFails, 0)
  {
    os := prior;
    rows := [];
    var i := |os|;
    count := 0;
    failed := [];
    while i > 0
      invariant 0 <= i <= |prior|
      invariant os == BulkOrders(prior, ids, next, saveFails, i)
      invariant count == |BulkSaved(prior, ids, next, saveFails, i)|
      invariant failed == BulkFailed(prior, ids, next, saveFails, i)
      invariant rows == BulkLogs(prior, ids, next, saveFails, logFails, adminId, note, connected, i)
      decreases i
    {
      BulkStep(prior, ids, next, saveFails, logFails, adminId, note, connected, i);
      var o := os[i - 1];
      var saves := i in ids && o.status != next && i !in saveFails;
      if saves {
        os := os[i - 1 := o.(status := next)];
        count := count + 1;
      } else if i in ids && o.status != next {
        failed := failed + [i];
      }
      rows := rows + BulkRows(saves, i, o.status, next, logFails, adminId, note, connected);
      i := i - 1;
    }
  }

  class Shop {
    var orders: seq<Order>
    var items: seq<OrderItem>
    var nextItemId: nat
    var transactions: seq<Transaction>
    var logs: seq<StatusLog>
    var notifications: seq<Notification>
    var templates: map<EventTrigger, SmsTemplate>

    const catalog: Catalog
    const customers: map<nat, Customer>
    /** Address id to the id of the user who owns it. */
    const addressOwner: map<nat, nat>
    /** Whether orders/signals.py's receiver is registered. */
    const signalConnected: bool
    const smsConfig: SmsConfig
    /** ZARINPAL_MERCHANT_ID is set. */
    const merchantConfigured: bool
    /** Both the merchant id and ZARINPAL_VERIFY_URL are set. */
    const verifyConfigured: bool
    /** reverse('payment_callback') succeeds. */
    const callbackRoutable: bool
    const frontend: string
    const startPayUrl: string

    /** Row ids, references between tables and the catalog's foreign keys. */
    ghost predicate Wf()
      reads this`orders, this`items, this`nextItemId, this`transactions
    {
      CatalogWellFormed(catalog)
      && (forall k :: 0 <= k < |items| ==> 1 <= items[k].orderId <= |orders| && items[k].id < nextItemId)
      && (forall k :: 0 <= k < |items| ==> items[k].quantity <= MaxQuantity && WholeCents(items[k].priceAtOrder))
      && (forall j, k :: 0 <= j < k < |items| ==> items[j].id != items[k].id)
      && (forall k :: 0 <= k < |transactions| ==> 1 <= transactions[k].orderId <= |orders|)
    }

    /** Every order's total is the sum of its lines, except perhaps order `except`'s. */
    ghost predicate TotalsAgreeExcept(except: nat)
      reads this`orders, this`items, this`nextItemId, this`transactions
    {
      forall id :: 1 <= id <= |orders| && id != except ==> orders[id - 1].totalPrice == OrderTotal(items, id)
    }

    /** The shop's invariant: well-formed tables, and every stored total equal to the sum of its order's lines. */
    ghost predicate Valid()
      reads this`orders, this`items, this`nextItemId, this`transactions
    {
      Wf() && TotalsAgreeExcept(0)
    }

    constructor (catalog: Catalog, customers: map<nat, Customer>, addressOwner: map<nat, nat>,
                 signalConnected: bool, smsConfig: SmsConfig, templates: map<EventTrigger, SmsTemplate>,
                 merchantConfigured: bool, verifyConfigured: bool, callbackRoutable: bool,
                 frontend: string, startPayUrl: string)
      requires CatalogWellFormed(catalog)
      ensures Valid()
      ensures orders == [] && items == [] && transactions == [] && logs == [] && notifications == []
      ensures this.templates == templates && this.catalog == catalog && this.signalConnected == signalConnected
    {
      this.catalog := catalog;
      this.customers := customers;
      this.addressOwner := addressOwner;
      this.signalConnected := signalConnected;
      this.smsConfig := smsConfig;
      this.merchantConfigured := merchantConfigured;
      this.verifyConfigured := verifyConfigured;
      this.callbackRoutable := callbackRoutable;
      this.frontend := frontend;
      this.startPayUrl := startPayUrl;
      this.templates := templates;
      orders := [];
      items := [];
      nextItemId := 1;
      transactions := [];
      logs := [];
      notifications := [];
    }

    /** Order.update_total_price: the order's total becomes the sum over its rows; only that column is saved. */
    method UpdateTotalPrice(id: nat)
      requires Wf() && TotalsAgreeExcept(id) && 1 <= id <= |orders|
      modifies this`orders
      ensures Valid()
      ensures orders == old(orders)[id - 1 := old(orders)[id - 1].(totalPrice := OrderTotal(items, id))]
      ensures TotalsOnlyChanged(old(orders), orders)
    {
      orders := orders[id - 1 := orders[id - 1].(totalPrice := OrderTotal(items, id))];
    }

    /**
     * OrderItem.save on row `k`, which the caller has changed in memory to
     * `row`: the unit price is recomputed from the catalog, never taken from
     * the caller, and the order's total follows. A per-kg cake without a usable
     * weight raises, and so does the database for a quantity beyond the
     * column; then nothing is stored.
     */
    method SaveItem(k: nat, row: OrderItem) returns (ok: bool)
      requires Valid() && k < |items| && row.id == items[k].id && row.orderId == items[k].orderId
      modifies this`items, this`orders
      ensures Valid()
      ensures ok <==> Storable(catalog, row)
      ensures !ok ==> items == old(items) && orders == old(orders)
      ensures TotalsOnlyChanged(old(orders), orders)
      ensures ok ==>
        items == old(items)[k := row.(priceAtOrder := UnitPrice(catalog, row).amount)]
        && orders == old(orders)[row.orderId - 1 := old(orders)[row.orderId - 1].(totalPrice := OrderTotal(items, row.orderId))]
    {
      var price := UnitPrice(catalog, row);
      if price.WeightUndefined? || row.quantity > MaxQuantity {
        return false;
      }
      var before := items;
      items := items[k := row.(priceAtOrder := price.amount)];
      forall id | 1 <= id <= |orders| && id != row.orderId
        ensures orders[id - 1].totalPrice == OrderTotal(items, id)
      {
        assert orders[id - 1].totalPrice == OrderTotal(before, id);
        LinesOfOtherRows(before, items, id);
      }
      UpdateTotalPrice(row.orderId);
      return true;
    }

    /** OrderItem.objects.create: a new row with a fresh id, priced and refused like any save. */
    method CreateItem(row: OrderItem) returns (id: Option<nat>)
      requires Valid() && 1 <= row.orderId <= |orders|
      modifies this`items, this`orders, this`nextItemId
      ensures Valid()
      ensures id.Some? <==> Storable(catalog, row)
      ensures id.None? ==> items == old(items) && orders == old(orders) && nextItemId == old(nextItemId)
      ensures TotalsOnlyChanged(old(orders), orders)
      ensures id.Some? ==>
        id.value == old(nextItemId) && nextItemId == old(nextItemId) + 1
        && items == old(items) + [row.(id := old(nextItemId), priceAtOrder := UnitPrice(catalog, row).amount)]
        && orders == old(orders)[row.orderId - 1 := old(orders)[row.orderId - 1].(totalPrice := OrderTotal(items, row.orderId))]
    {
      var price := UnitPrice(catalog, row);
      if price.WeightUndefined? || row.quantity > MaxQuantity {
        return None;
      }
      var before := items;
      var added := row.(id := nextItemId, priceAtOrder := price.amount);
      assert WholeCents(added.priceAtOrder) && added.quantity <= MaxQuantity;
      items := items + [added];
      nextItemId := nextItemId + 1;
      forall id | 1 <= id <= |orders| && id != row.orderId
        ensures orders[id - 1].totalPrice == OrderTotal(items, id)
      {
        assert orders[id - 1].totalPrice == OrderTotal(before, id);
        LinesOfAppendOther(before, added, id);
      }
      UpdateTotalPrice(row.orderId);
      return Some(added.id);
    }

    /**
     * get_or_create(user=..., status=CART) over live orders: the one cart the
     * user has, or a new one (logged by the post_save receiver and numbered);
     * with two or more carts the lookup raises and nothing changes.
     */
    method GetOrCreateCart(userId: nat) returns (cart: Option<nat>)
      requires Valid()
      modifies this`orders, this`logs
      ensures Valid()
      ensures var c := CartsOf(old(orders), userId);
        (|c| == 1 ==> cart == Some(c[0]) && orders == old(orders) && logs == old(logs))
        && (|c| > 1 ==> cart.None? && orders == old(orders) && logs == old(logs))
        && (|c| == 0 ==>
              cart == Some(|old(orders)| + 1)
              && orders == old(orders) + [NewCart(userId).(orderNumber := Some(OrderNumberFor(|old(orders)| + 1)))]
              && logs == old(logs) + SignalLogs(signalConnected, false, Created, |old(orders)| + 1, Cart))
      ensures cart.Some? ==> 1 <= cart.value <= |orders| && IsCartOf(orders[cart.value - 1], userId)
      ensures cart.Some? <==> |CartsOf(old(orders), userId)| <= 1
      ensures cart.Some? ==> cart.value == CartFor(old(orders), userId)
    {
      var c := CartsOf(orders, userId);
      if |c| == 1 {
        return Some(c[0]);
      }
      if |c| > 1 {
        return None;
      }
      var id := |orders| + 1;
      var o := NewCart(userId);
      LinesOfNone(items, id);
      orders := orders + [o.(orderNumber := NumberAfterSave(o.orderNumber, true, id))];
      logs := logs + SignalLogs(signalConnected, false, Created, id, Cart);
      return Some(id);
    }

    /** A repeated addition: the matching row `k` gets `q` more and is saved again. */
    method MergeInto(cart: nat, a: CartAddition, k: nat) returns (reply: Reply)
      requires Valid() && k < |items| && MatchingItems(items, cart, a) == [k]
      modifies this`items, this`orders
      ensures Valid()
      ensures TotalsOnlyChanged(old(orders), orders)
      ensures var row := old(items)[k].(quantity := old(items)[k].quantity + a.quantity);
        (!Storable(catalog, row) ==> reply == ServerError && items == old(items) && orders == old(orders))
        && (Storable(catalog, row) ==>
              reply == ItemAdded(row.id) && items == old(items)[k := row.(priceAtOrder := UnitPrice(catalog, row).amount)])
      ensures reply.ItemAdded? ==> ItemIndex(items, reply.itemId) == Some(k) && ItemIndex(old(items), reply.itemId) == Some(k)
      ensures var o := AddOutcome(catalog, old(items), old(nextItemId), cart, a);
        AnswersOutcome(o, reply, old(items), items)
    {
      var row := items[k].(quantity := items[k].quantity + a.quantity);
      assert row == AddedRow(items, [k], nextItemId, cart, a);
      MergeOutcome(catalog, items, nextItemId, cart, a, k);
      ItemIndexOf(items, k);
      var ok := SaveItem(k, row);
      if ok {
        ItemIndexOf(items, k);
        return ItemAdded(row.id);
      }
      return ServerError;
    }

    /** A first addition: one new row in cart `cart` with the requested quantity. */
    method NewLine(cart: nat, a: CartAddition) returns (reply: Reply)
      requires Valid() && 1 <= cart <= |orders| && MatchingItems(items, cart, a) == []
      modifies this`items, this`orders, this`nextItemId
      ensures Valid()
      ensures TotalsOnlyChanged(old(orders), orders)
      ensures var row := OrderItem(old(nextItemId), cart, a.kind, a.objectId, a.flavorId, a.variantId, a.quantity, 0.0, a.notes);
        (!Storable(catalog, row) ==> reply == ServerError && items == old(items) && orders == old(orders))
        && (Storable(catalog, row) ==>
              reply == ItemAdded(old(nextItemId)) && items == old(items) + [row.(priceAtOrder := UnitPrice(catalog, row).amount)])
      ensures reply.ItemAdded? ==> ItemIndex(items, reply.itemId) == Some(|old(items)|) && ItemIndex(old(items), reply.itemId).None?
      ensures var o := AddOutcome(catalog, old(items), old(nextItemId), cart, a);
        AnswersOutcome(o, reply, old(items), items)
    {
      var row := OrderItem(nextItemId, cart, a.kind, a.objectId, a.flavorId, a.variantId, a.quantity, 0.0, a.notes);
      assert row == AddedRow(items, [], nextItemId, cart, a);
      ghost var before := items;
      var id := CreateItem(row);
      if id.Some? {
        ItemIndexOf(items, |before|);
        return ItemAdded(id.value);
      }
      return ServerError;
    }

    /**
     * OrderItem.objects.get_or_create for a validated addition to cart `cart`:
     * a matching row gets the requested quantity added and is saved again; with
     * none, one new row is created with the requested quantity; two matching
     * rows make the lookup raise. The cart is a live cart of `userId`.
     */
    method AddItem(userId: nat, cart: nat, a: CartAddition) returns (reply: Reply)
      requires Valid() && 1 <= cart <= |orders| && IsCartOf(orders[cart - 1], userId)
      modifies this`items, this`orders, this`nextItemId
      ensures Valid()
      ensures TotalsOnlyChanged(old(orders), orders)
      ensures orders[cart - 1].userId == old(orders)[cart - 1].userId && orders[cart - 1].status == old(orders)[cart - 1].status
              && orders[cart - 1].isDeleted == old(orders)[cart - 1].isDeleted
      ensures var o := AddOutcome(catalog, old(items), old(nextItemId), cart, a);
        AnswersOutcome(o, reply, old(items), items) && (o.None? ==> orders == old(orders))
      ensures reply.ItemAdded? ==> LineAdded(old(items), items, catalog, reply.itemId, cart, a)
                                   && items[ItemIndex(items, reply.itemId).value].orderId == cart
                                   && AddedToCartOf(old(items), items, orders, catalog, userId, reply.itemId, a)
    {
      AddOutcomeSound(catalog, items, nextItemId, cart, a);
      var m := MatchingItems(items, cart, a);
      if |m| > 1 {
        return ServerError;
      }
      if |m| == 1 {
        assert m == [m[0]];
        reply := MergeInto(cart, a, m[0]);
      } else {
        reply := NewLine(cart, a);
      }
      assert orders[cart - 1] == old(orders)[cart - 1].(totalPrice := orders[cart - 1].totalPrice);
      assert IsCartOf(orders[cart - 1], userId);
      if reply.ItemAdded? {
        LineInCart(old(items), items, orders, catalog, userId, reply.itemId, cart, a);
      }
    }

    /**
     * The rest of OrderViewSet.create once the addition is valid: find or make
     * the user's cart, then merge into or add the line.
     */
    method AddToUserCart(userId: nat, a: CartAddition) returns (reply: Reply)
      requires Valid()
      modifies this`orders, this`logs, this`items, this`nextItemId
      ensures Valid()
      ensures |CartsOf(old(orders), userId)| > 1 ==>
        reply == ServerError && orders == old(orders) && logs == old(logs) && items == old(items)
      // with at most one cart, the outcome is get_or_create's on that cart or on the new one
      ensures |CartsOf(old(orders), userId)| <= 1 ==>
        var o := AddOutcome(catalog, old(items), old(nextItemId), CartFor(old(orders), userId), a);
        AnswersOutcome(o, reply, old(items), items)
      ensures reply.ItemAdded? ==> AddedToCartOf(old(items), items, orders, catalog, userId, reply.itemId, a)
    {
      var cart := GetOrCreateCart(userId);
      if cart.None? {
        return ServerError;
      }
      reply := AddItem(userId, cart.value, a);
    }

    /**
     * OrderViewSet.create: validate the addition, find or make the user's
     * cart, then merge into or add the line.
     */
    method AddToCart(userId: nat, r: AddRequest) returns (reply: Reply)
      requires Valid()
      modifies this`orders, this`logs, this`items, this`nextItemId
      ensures Valid()
      ensures ValidateAddToCart(catalog.view, r).Rejected? ==>
        reply == BadRequest(ValidateAddToCart(catalog.view, r).keys)
        && orders == old(orders) && logs == old(logs) && items == old(items)
      ensures ValidateAddToCart(catalog.view, r).Accepted? && |CartsOf(old(orders), userId)| > 1 ==>
        reply == ServerError && orders == old(orders) && logs == old(logs) && items == old(items)
      ensures ValidateAddToCart(catalog.view, r).Accepted? && |CartsOf(old(orders), userId)| <= 1 ==>
        var o := AddOutcome(catalog, old(items), old(nextItemId), CartFor(old(orders), userId), ValidateAddToCart(catalog.view, r).value);
        AnswersOutcome(o, reply, old(items), items)
      ensures reply.ServerError? ==> items == old(items)
      // the line that was added sits in the user's cart with the requested options and a catalog price
      ensures reply.ItemAdded? ==>
        ValidateAddToCart(catalog.view, r).Accepted?
        && AddedToCartOf(old(items), items, orders, catalog, userId, reply.itemId, ValidateAddToCart(catalog.view, r).value)
    {
      var v := ValidateAddToCart(catalog.view, r);
      if v.Rejected? {
        return BadRequest(v.keys);
      }
      reply := AddToUserCart(userId, v.value);
    }

    /** A save of one order's status column; no total moves. */
    method SaveStatus(id: nat, next: Status)
      requires Valid() && 1 <= id <= |orders|
      modifies this`orders
      ensures Valid()
      ensures orders == StatusAfter(old(orders), id, next)
    {
      orders := StatusAfter(orders, id, next);
    }

    /**
     * Order.change_status: nothing for the current status; otherwise the status
     * is saved, one log row is written and one SMS dispatch is attempted, whose
     * failures never reach the caller.
     */
    method ChangeStatus(id: nat, next: Status, changedBy: Option<nat>, notes: string, sms: SmsReply, now: int)
      requires Valid() && 1 <= id <= |orders|
      modifies this`orders, this`logs, this`notifications
      ensures Valid()
      ensures old(orders)[id - 1].status == next ==>
        orders == old(orders) && logs == old(logs) && notifications == old(notifications)
      ensures old(orders)[id - 1].status != next ==> orders == StatusAfter(old(orders), id, next)
      ensures logs == old(logs) + ChangeStatusLogs(id, old(orders)[id - 1].status, next, changedBy, notes)
      ensures notifications == old(notifications) + SmsAfter(templates, customers, smsConfig, old(orders), id, next, sms, now)
    {
      var prior := orders[id - 1].status;
      if prior == next {
        return;
      }
      var sent := SmsAfter(templates, customers, smsConfig, orders, id, next, sms, now);
      SaveStatus(id, next);
      assert old(orders)[id - 1].status == prior && templates == old(templates);
      Record(ChangeStatusLogs(id, prior, next, changedBy, notes), sent);
    }

    /** Appends log rows and sent notifications to their tables. */
    method Record(rows: seq<StatusLog>, sent: seq<Notification>)
      modifies this`logs, this`notifications
      ensures logs == old(logs) + rows && notifications == old(notifications) + sent
    {
      logs := logs + rows;
      notifications := notifications + sent;
    }

    /**
     * OrderViewSet.partial_update: the requester's live cart takes the address,
     * delivery time and notes and moves to PENDING_PAYMENT with a save of the
     * status column alone, which the post_save receiver logs; change_status is
     * not used, so no author, note or SMS.
     */
    method CheckoutCart(userId: nat, id: int, input: CheckoutInput) returns (reply: Reply)
      requires Valid()
      modifies this`orders, this`logs
      ensures Valid()
      ensures reply != Ok ==> orders == old(orders) && logs == old(logs)
      ensures !OwnsActive(old(orders), userId, id) ==> reply == NotFound
      ensures OwnsActive(old(orders), userId, id) && old(orders)[id - 1].status != Cart ==> reply == BadRequest(["detail"])
      ensures OwnsActive(old(orders), userId, id) && old(orders)[id - 1].status == Cart
              && OrderSerializers.Checkout(addressOwner, Some(SignedIn(userId)), input).Rejected? ==>
        reply == BadRequest(OrderSerializers.Checkout(addressOwner, Some(SignedIn(userId)), input).keys)
      ensures reply == Ok <==>
        OwnsActive(old(orders), userId, id) && old(orders)[id - 1].status == Cart
        && OrderSerializers.Checkout(addressOwner, Some(SignedIn(userId)), input).Accepted?
      ensures reply == Ok ==>
        var p := OrderSerializers.Checkout(addressOwner, Some(SignedIn(userId)), input).value;
        orders == old(orders)[id - 1 := ApplyCheckout(old(orders)[id - 1], p).(status := PendingPayment)]
        && logs == old(logs) + SignalLogs(signalConnected, false, UpdateFields({"status"}), id, PendingPayment)
    {
      if !OwnsActive(orders, userId, id) {
        return NotFound;
      }
      if orders[id - 1].status != Cart {
        return BadRequest(["detail"]);
      }
      var v := OrderSerializers.Checkout(addressOwner, Some(SignedIn(userId)), input);
      if v.Rejected? {
        return BadRequest(v.keys);
      }
      // the serializer's full save: no status in update_fields, so no log
      orders := orders[id - 1 := ApplyCheckout(orders[id - 1], v.value)];
      orders := orders[id - 1 := orders[id - 1].(status := PendingPayment)];
      logs := logs + SignalLogs(signalConnected, false, UpdateFields({"status"}), id, PendingPayment);
      return Ok;
    }

    /**
     * OrderViewSet.pay: the checks in the handler's order, then one PENDING
     * transaction for int(total * 10) rials, settled by the gateway's answer.
     * The order itself is never written.
     */
    method Pay(userId: nat, id: int, gateway: PayReply) returns (reply: Reply)
      requires Valid()
      modifies this`transactions
      ensures Valid()
      ensures !OwnsActive(orders, userId, id) ==> reply == NotFound && transactions == old(transactions)
      ensures OwnsActive(orders, userId, id) && !PayableStatus(orders[id - 1].status) ==>
        reply == BadRequest(["detail"]) && transactions == old(transactions)
      ensures OwnsActive(orders, userId, id) && PayableStatus(orders[id - 1].status) && !merchantConfigured ==>
        reply == ServerError && transactions == old(transactions)
      ensures OwnsActive(orders, userId, id) && PayableStatus(orders[id - 1].status) && merchantConfigured
              && orders[id - 1].totalPrice <= 0.0 ==>
        reply == BadRequest(["detail"]) && transactions == old(transactions)
      ensures OwnsActive(orders, userId, id) && PayableStatus(orders[id - 1].status) && merchantConfigured
              && orders[id - 1].totalPrice > 0.0 && !callbackRoutable ==>
        reply == ServerError && transactions == old(transactions)
      // a transaction exists exactly when every check passed, and it carries the rial amount
      ensures transactions != old(transactions) <==>
        OwnsActive(orders, userId, id) && PayableStatus(orders[id - 1].status) && merchantConfigured
        && orders[id - 1].totalPrice > 0.0 && callbackRoutable
      ensures transactions != old(transactions) ==>
        var t := Transaction(id, ToRial(orders[id - 1].totalPrice), None, None, None, None, TxPending);
        transactions == old(transactions) + [AfterPayReply(t, gateway)] && reply == PayAnswer(startPayUrl, gateway)
    {
      if !OwnsActive(orders, userId, id) {
        return NotFound;
      }
      var o := orders[id - 1];
      if !PayableStatus(o.status) {
        return BadRequest(["detail"]);
      }
      if !merchantConfigured {
        return ServerError;
      }
      if o.totalPrice <= 0.0 {
        return BadRequest(["detail"]);
      }
      var amount := ToRial(o.totalPrice);
      if !callbackRoutable {
        return ServerError;
      }
      var t := Transaction(id, amount, None, None, None, None, TxPending);
      transactions := transactions + [AfterPayReply(t, gateway)];
      return PayAnswer(startPayUrl, gateway);
    }

    /**
     * zarinpal_payment_callback with the corrected lookup failure: missing
     * parameters go to the failure page; a callback that finds no single
     * PENDING transaction goes to the success page of an already paid order or
     * to the failure page; otherwise the transaction is settled and the order
     * follows, through change_status except on the configuration error.
     */
    method Callback(authority: string, status: string, verify: VerifyReply, sms: SmsReply, now: int) returns (r: Redirect)
      requires Valid()
      modifies this`transactions, this`orders, this`logs, this`notifications
      ensures Valid()
      ensures authority == "" || status == "" ==>
        r == RedirectTo(FailureUrl(frontend)) && transactions == old(transactions) && orders == old(orders)
        && logs == old(logs) && notifications == old(notifications)
      ensures authority != "" && status != "" && !LookupPending(old(transactions), authority).OnePending? ==>
        r == ReplayRedirect(frontend, old(transactions), authority) && transactions == old(transactions)
        && orders == old(orders) && logs == old(logs) && notifications == old(notifications)
      ensures authority != "" && status != "" && LookupPending(old(transactions), authority).OnePending? ==>
        var k := LookupPending(old(transactions), authority).index;
        var t := old(transactions)[k];
        var s := Settle(t, status, verifyConfigured, verify);
        1 <= t.orderId <= |old(orders)|
        && transactions == old(transactions)[k := s.txn]
        && r == RedirectTo(if s.paid then SuccessUrl(frontend, t.orderId) else OrderFailureUrl(frontend, t.orderId))
        && (s.viaChangeStatus ==>
              orders == (if old(orders)[t.orderId - 1].status == s.orderStatus then old(orders)
                         else StatusAfter(old(orders), t.orderId, s.orderStatus))
              && logs == old(logs) + ChangeStatusLogs(t.orderId, old(orders)[t.orderId - 1].status, s.orderStatus, None, s.note)
              && notifications == old(notifications)
                 + SmsAfter(templates, customers, smsConfig, old(orders), t.orderId, s.orderStatus, sms, now))
        && (!s.viaChangeStatus ==>
              orders == StatusAfter(old(orders), t.orderId, s.orderStatus)
              && logs == old(logs) && notifications == old(notifications))
    {
      if authority == "" || status == "" {
        return RedirectTo(FailureUrl(frontend));
      }
      var found := LookupPending(transactions, authority);
      if !found.OnePending? {
        return ReplayRedirect(frontend, transactions, authority);
      }
      var t := transactions[found.index];
      var s := Settle(t, status, verifyConfigured, verify);
      transactions := transactions[found.index := s.txn];
      ApplySettlement(t.orderId, s, sms, now);
      return RedirectTo(if s.paid then SuccessUrl(frontend, t.orderId) else OrderFailureUrl(frontend, t.orderId));
    }

    /**
     * The order side of a settled callback: change_status when the gateway
     * answered, a bare save of the status after the configuration error.
     */
    method ApplySettlement(id: nat, s: Settlement, sms: SmsReply, now: int)
      requires Valid() && 1 <= id <= |orders|
      modifies this`orders, this`logs, this`notifications
      ensures Valid()
      ensures s.viaChangeStatus ==>
        orders == (if old(orders)[id - 1].status == s.orderStatus then old(orders)
                   else StatusAfter(old(orders), id, s.orderStatus))
        && logs == old(logs) + ChangeStatusLogs(id, old(orders)[id - 1].status, s.orderStatus, None, s.note)
        && notifications == old(notifications) + SmsAfter(templates, customers, smsConfig, old(orders), id, s.orderStatus, sms, now)
      ensures !s.viaChangeStatus ==>
        orders == StatusAfter(old(orders), id, s.orderStatus) && logs == old(logs) && notifications == old(notifications)
    {
      if s.viaChangeStatus {
        ChangeStatus(id, s.orderStatus, None, s.note, sms, now);
      } else {
        // the configuration error: a full save, which the receiver does not log
        SaveStatus(id, s.orderStatus);
      }
    }

    /**
     * The pass of the bulk update over every order, newest first, with its
     * counter and failure list; each saved order is logged as it is saved.
     */
    method BulkPass(ids: set<int>, next: Status, saveFails: set<nat>, logFails: set<nat>, adminId: nat, note: Status -> string)
      returns (count: nat, failed: seq<nat>)
      requires Valid()
      modifies this`orders, this`logs
      ensures Valid()
      ensures count == |BulkSaved(old(orders), ids, next, saveFails, 0)|
      ensures failed == BulkFailed(old(orders), ids, next, saveFails, 0)
      ensures |orders| == |old(orders)|
      ensures forall k :: 0 <= k < |orders| ==>
        orders[k] == if BulkSaves(old(orders), ids, next, saveFails, k + 1) then old(orders)[k].(status := next) else old(orders)[k]
      ensures logs == old(logs) + BulkLogs(old(orders), ids, next, saveFails, logFails, adminId, note, signalConnected, 0)
    {
      var os, rows;
      os, rows, count, failed := BulkRun(orders, ids, next, saveFails, logFails, adminId, note, signalConnected);
      BulkOrdersAt(old(orders), ids, next, saveFails, 0);
      assert forall k :: 0 <= k < |os| ==> os[k].totalPrice == orders[k].totalPrice;
      orders := os;
      assert TotalsAgreeExcept(0);
      logs := logs + rows;
    }

    /**
     * AdminOrderViewSet.bulk_update_status: the request checks, the refusal of
     * the whole batch when one id is not a live order, then a pass over the
     * requested orders newest first that saves, counts and logs each one whose
     * status differs, collecting the ids whose save fails. No SMS is sent.
     */
    method BulkUpdateStatus(
      adminId: nat, adminName: string, orderIds: Option<seq<int>>, statusKey: string,
      saveFails: set<nat>, logFails: set<nat>) returns (reply: Reply)
      requires Valid()
      modifies this`orders, this`logs
      ensures Valid()
      ensures reply.BadRequest? ==> orders == old(orders) && logs == old(logs)
      ensures orderIds.None? || orderIds.value == [] || ParseStatus(statusKey).None? ==> reply == BadRequest(["detail"])
      ensures orderIds.Some? && !AllActive(old(orders), set x | x in orderIds.value) ==> reply == BadRequest(["detail"])
      ensures orderIds.Some? && orderIds.value != [] && ParseStatus(statusKey).Some?
              && AllActive(old(orders), set x | x in orderIds.value) ==>
        var ids := set x | x in orderIds.value;
        var next := ParseStatus(statusKey).value;
        var saved := BulkSaved(old(orders), ids, next, saveFails, 0);
        var failed := BulkFailed(old(orders), ids, next, saveFails, 0);
        reply == (if failed == [] then BulkUpdated(|saved|) else BulkPartial(|saved|, failed))
        && |orders| == |old(orders)|
        && (forall k :: 0 <= k < |orders| ==>
              orders[k] == if BulkSaves(old(orders), ids, next, saveFails, k + 1) then old(orders)[k].(status := next)
                           else old(orders)[k])
        && logs == old(logs)
           + BulkLogs(old(orders), ids, next, saveFails, logFails, adminId, BulkNoteFor(next, adminName), signalConnected, 0)
    {
      if orderIds.None? || orderIds.value == [] {
        return BadRequest(["detail"]);
      }
      if statusKey == "" || ParseStatus(statusKey).None? {
        return BadRequest(["detail"]);
      }
      var next := ParseStatus(statusKey).value;
      var ids := set x | x in orderIds.value;
      if !AllActive(orders, ids) {
        return BadRequest(["detail"]);
      }
      var count, failed := BulkPass(ids, next, saveFails, logFails, adminId, BulkNoteFor(next, adminName));
      return if failed == [] then BulkUpdated(count) else BulkPartial(count, failed);
    }

    /**
     * CartItemUpdateSerializer's save: a positive quantity replaces the old one,
     * sent notes replace the old notes once cleaned, and a field left out keeps
     * its value.
     */
    function EditedItem(item: OrderItem, quantity: Option<int>, notes: Field<Option<string>>): (r: OrderItem)
      ensures r.id == item.id && r.orderId == item.orderId && r.kind == item.kind && r.objectId == item.objectId
      ensures r.quantity == if quantity.Some? && quantity.value > 0 then quantity.value else item.quantity
      ensures r.notes == if notes.Present? then StripNullable(notes.value) else item.notes
    {
      item.(quantity := if quantity.Some? && quantity.value > 0 then quantity.value as nat else item.quantity,
            notes := if notes.Present? then StripNullable(notes.value) else item.notes)
    }

    /**
     * CartItemViewSet.perform_update: a row of the requester's cart takes the
     * sent quantity and notes and is saved, repricing it and its order's total.
     */
    method UpdateCartItem(userId: nat, itemId: nat, quantity: Option<int>, notes: Field<Option<string>>)
      returns (reply: Reply)
      requires Valid()
      modifies this`items, this`orders
      ensures Valid()
      ensures reply != Ok ==> items == old(items) && orders == old(orders)
      ensures !InUserCart(old(orders), old(items), userId, itemId) ==> reply == NotFound
      ensures InUserCart(old(orders), old(items), userId, itemId) && quantity.Some? && !(0 < quantity.value <= MaxQuantity) ==>
        reply == BadRequest(["quantity"])
      // a valid edit of a row in the cart succeeds unless the edited row cannot be priced
      ensures InUserCart(old(orders), old(items), userId, itemId) && (quantity.None? || 0 < quantity.value <= MaxQuantity) ==>
        var row := EditedItem(old(items)[ItemIndex(old(items), itemId).value], quantity, notes);
        reply == (if UnitPrice(catalog, row).Priced? then Ok else ServerError)
      ensures reply == Ok ==>
        var k := ItemIndex(old(items), itemId).value;
        var row := EditedItem(old(items)[k], quantity, notes);
        InUserCart(old(orders), old(items), userId, itemId)
        && UnitPrice(catalog, row).Priced?
        && items == old(items)[k := row.(priceAtOrder := UnitPrice(catalog, row).amount)]
        && orders == old(orders)[row.orderId - 1 := old(orders)[row.orderId - 1].(totalPrice := OrderTotal(items, row.orderId))]
    {
      if !InUserCart(orders, items, userId, itemId) {
        return NotFound;
      }
      var k := ItemIndex(items, itemId).value;
      if quantity.Some? {
        var v := ValidateCartQuantity(quantity.value);
        if v.Rejected? {
          return BadRequest(v.keys);
        }
      }
      var row := EditedItem(items[k], quantity, notes);
      var ok := SaveItem(k, row);
      if !ok {
        return ServerError;
      }
      // perform_update's own update_total_price finds the total already right
      UpdateTotalPrice(row.orderId);
      return Ok;
    }

    /**
     * CartItemViewSet.perform_destroy: a row of the requester's cart is deleted
     * and its order's total recomputed, which takes exactly that line off it.
     */
    method DestroyCartItem(userId: nat, itemId: nat) returns (reply: Reply)
      requires Valid()
      modifies this`items, this`orders
      ensures Valid()
      ensures reply == NotFound <==> !InUserCart(old(orders), old(items), userId, itemId)
      ensures reply == NotFound ==> items == old(items) && orders == old(orders)
      ensures reply != NotFound ==>
        var k := ItemIndex(old(items), itemId).value;
        var o := old(items)[k].orderId;
        reply == Deleted
        && items == old(items)[..k] + old(items)[k + 1..]
        && orders == old(orders)[o - 1 := old(orders)[o - 1].(totalPrice := OrderTotal(items, o))]
        && orders[o - 1].totalPrice
           == old(orders)[o - 1].totalPrice - LineTotal(Line(old(items)[k].quantity, old(items)[k].priceAtOrder))
    {
      if !InUserCart(orders, items, userId, itemId) {
        return NotFound;
      }
      var k := ItemIndex(items, itemId).value;
      var o := items[k].orderId;
      RemoveItem(k);
      UpdateTotalPrice(o);
      return Deleted;
    }

    /** The delete of row `k`: every other order's total still agrees, and order's loses that line. */
    method RemoveItem(k: nat)
      requires Valid() && k < |items|
      modifies this`items
      ensures Wf() && TotalsAgreeExcept(old(items)[k].orderId)
      ensures items == old(items)[..k] + old(items)[k + 1..]
      ensures OrderTotal(items, old(items)[k].orderId)
        == OrderTotal(old(items), old(items)[k].orderId) - LineTotal(Line(old(items)[k].quantity, old(items)[k].priceAtOrder))
    {
      ghost var before := items;
      items := items[..k] + items[k + 1..];
      forall j | 0 <= j < |items| ensures items[j] == (if j < k then before[j] else before[j + 1]) {
      }
      forall id | 1 <= id <= |orders| && id != before[k].orderId
        ensures orders[id - 1].totalPrice == OrderTotal(items, id)
      {
        assert orders[id - 1].totalPrice == OrderTotal(before, id);
        LinesOfRemoveOther(before, k, id);
      }
      RemoveLineTotal(before, k);
    }

    /**
     * SMSTemplateSerializer's update of the template for `trigger`: a sent
     * event_trigger is validated and then ignored; the other fields are
     * validated and stripped, and then follow the patch.
     */
    method UpdateSmsTemplate(trigger: EventTrigger, sentTrigger: Option<string>, p: TemplatePatch) returns (reply: Reply)
      modifies this`templates
      ensures trigger !in old(templates) ==> reply == NotFound && templates == old(templates)
      ensures reply != Ok ==> templates == old(templates)
      // every field error is reported together, event_trigger first
      ensures trigger in old(templates) && reply != Ok ==>
        reply == BadRequest(
          (if sentTrigger.Some? && ValidateEventTrigger(sentTrigger.value, old(templates).Keys - {trigger}).Rejected?
           then ["event_trigger"] else [])
          + TemplateFieldErrors(p))
      ensures reply == Ok <==>
        trigger in old(templates)
        && (sentTrigger.Some? ==> ValidateEventTrigger(sentTrigger.value, old(templates).Keys - {trigger}).Accepted?)
        && ValidateTemplatePatch(p).Accepted?
      ensures reply == Ok ==>
        templates == old(templates)[trigger := ApplyTemplatePatch(old(templates)[trigger], ValidateTemplatePatch(p).value)]
    {
      if trigger !in templates {
        return NotFound;
      }
      var errors := [];
      if sentTrigger.Some? {
        var v := ValidateEventTrigger(sentTrigger.value, templates.Keys - {trigger});
        if v.Rejected? {
          errors := v.keys;
        }
      }
      var checked := ValidateTemplatePatch(p);
      if checked.Rejected? {
        errors := errors + checked.keys;
      }
      if errors != [] {
        return BadRequest(errors);
      }
      templates := templates[trigger := ApplyTemplatePatch(templates[trigger], checked.value)];
      return Ok;
    }
  }
}
