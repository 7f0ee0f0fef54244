/**
 * Order-status SMS (orders/sms_service.py): rendering a template's
 * {{placeholders}} and deciding, for one dispatch, what is returned and which
 * Notification row is written. The HTTP exchange with sms.ir is an input: the
 * gateway's reply, or the transport failure that replaced it.
 */
module SmsService {
  import opened Wrappers
  import opened Text

  /** SMSTemplate.EventTriggerChoices. */
  datatype EventTrigger =
    | PendingPaymentEvent | OrderConfirmedEvent | ProcessingEvent | ShippedEvent
    | DeliveredEvent | CancelledEvent | PaymentFailedEvent

  function TriggerKey(e: EventTrigger): string
  {
    match e
    case PendingPaymentEvent => "PENDING_PAYMENT"
    case OrderConfirmedEvent => "ORDER_CONFIRMED"
    case ProcessingEvent => "PROCESSING"
    case ShippedEvent => "SHIPPED"
    case DeliveredEvent => "DELIVERED"
    case CancelledEvent => "CANCELLED"
    case PaymentFailedEvent => "PAYMENT_FAILED"
  }

  /** The trigger whose stored value is `key`, if any. */
  function ParseTrigger(key: string): (r: Option<EventTrigger>)
    ensures r.Some? ==> TriggerKey(r.value) == key
  {
    if key == "PENDING_PAYMENT" then Some(PendingPaymentEvent)
    else if key == "ORDER_CONFIRMED" then Some(OrderConfirmedEvent)
    else if key == "PROCESSING" then Some(ProcessingEvent)
    else if key == "SHIPPED" then Some(ShippedEvent)
    else if key == "DELIVERED" then Some(DeliveredEvent)
    else if key == "CANCELLED" then Some(CancelledEvent)
    else if key == "PAYMENT_FAILED" then Some(PaymentFailedEvent)
    else None
  }

  /** Every trigger is recognised by its own key: the choice values are distinct. */
  lemma ParseTriggerKey(e: EventTrigger)
    ensures ParseTrigger(TriggerKey(e)) == Some(e)
  {
  }

  /** One SMSTemplate row; the table is keyed by its unique event_trigger. */
  datatype SmsTemplate = SmsTemplate(messageTemplate: string, isActive: bool, description: Option<string>)

  /** The order's customer as the service reads it. */
  datatype Customer = Customer(userId: nat, username: string, firstName: string, lastName: string, phone: string)

  /** What of an order the service reads. */
  datatype OrderFacts = OrderFacts(orderId: nat, totalPrice: real, trackingCode: string, customer: Option<Customer>)

  /** The sms.ir settings; an empty string is an unset (falsy) setting. */
  datatype SmsConfig = SmsConfig(
    useSandbox: bool, sandboxKey: string, productionKey: string, lineNumber: string, baseUrl: string,
    siteName: Option<string>)

  /**
   * The outcome of the POST to sms.ir: a parsed reply (its "status" and "message"
   * as strings), or an HTTP, transport or parse failure and the text it produced.
   */
  datatype SmsReply = GatewayReplied(statusCode: string, message: string) | GatewayFailed(message: string)

  datatype NotificationType = EmailNotification | SmsNotification | InAppNotification
  datatype NotificationStatus = NotificationPending | NotificationSent | NotificationFailed

  datatype Notification = Notification(
    userId: Option<nat>, orderId: Option<nat>, message: string, kind: NotificationType,
    status: NotificationStatus, sentAt: Option<int>, statusCode: Option<string>, gatewayMessage: string)

  /**
   * One dispatch: the (success, message) pair returned to the caller, the
   * Notification row the service asks to create, and the number posted to the
   * gateway, if one was posted.
   */
  datatype Dispatch = Dispatch(success: bool, message: string, record: Option<Notification>, mobile: Option<string>)

  const GuestName: string := "مشتری گرامی"
  const NoTracking: string := "ثبت نشده"
  const DefaultStoreName: string := "فروشگاه شما"
  const NoTemplateMessage: string := "No active template for this event."
  const NoRecipientMessage: string := "Recipient phone number missing."
  const NoRecipientNote: string := "شماره تلفن گیرنده موجود نیست."

  /** User.get_full_name(): first and last name joined by a space, stripped. */
  function FullName(c: Customer): string
  {
    Trim(Python, c.firstName + " " + c.lastName)
  }

  /** The full name, else the username; the guest salutation when the order has no user. */
  function CustomerName(customer: Option<Customer>): (r: string)
    ensures customer.None? ==> r == GuestName
    ensures customer.Some? && FullName(customer.value) != "" ==> r == FullName(customer.value)
    ensures customer.Some? && FullName(customer.value) == "" ==> r == customer.value.username
  {
    match customer
    case None => GuestName
    case Some(c) => if FullName(c) != "" then FullName(c) else c.username
  }

  function TrackingText(code: string): (r: string)
    ensures code != "" ==> r == code
    ensures code == "" ==> r == NoTracking
  {
    if code != "" then code else NoTracking
  }

  /** str(int(total_price)): the integer part, truncated toward zero, in decimal. */
  function TotalText(total: real): string
  {
    IntToString(TruncToInt(total))
  }

  function StoreName(config: SmsConfig): string
  {
    config.siteName.GetOr(DefaultStoreName)
  }

  /** The five placeholders in the order the mapping lists them, each with its value. */
  function Mapping(order: OrderFacts, config: SmsConfig): seq<(string, string)>
  {
    [("{{customer_name}}", CustomerName(order.customer)),
     ("{{order_id}}", NatToString(order.orderId)),
     ("{{order_total}}", TotalText(order.totalPrice)),
     ("{{store_name}}", StoreName(config)),
     ("{{tracking_number}}", TrackingText(order.trackingCode))]
  }

  /** The loop of format_sms_message: each placeholder in turn, every occurrence replaced. */
  function ReplaceEach(message: string, mapping: seq<(string, string)>): string
    requires forall k :: 0 <= k < |mapping| ==> |mapping[k].0| > 0
    decreases |mapping|
  {
    if mapping == [] then message
    else ReplaceEach(ReplaceAll(message, mapping[0].0, mapping[0].1), mapping[1..])
  }

  function FormatSmsMessage(template: string, order: OrderFacts, config: SmsConfig): string
  {
    ReplaceEach(template, Mapping(order, config))
  }

  /** Whether `s` contains "{{" anywhere. */
  predicate HasBraces(s: string)
  {
    exists i :: 0 <= i < |s| - 1 && s[i] == '{' && s[i + 1] == '{'
  }

  lemma NoBracesNoOccurrence(s: string, p: string)
    requires |p| >= 2 && p[0] == '{' && p[1] == '{'
    requires !HasBraces(s)
    ensures forall i :: 0 <= i <= |s| - |p| ==> !OccursAt(s, p, i)
  {
    forall i | 0 <= i <= |s| - |p|
      ensures !OccursAt(s, p, i)
    {
      assert !(s[i] == '{' && s[i + 1] == '{');
    }
  }

  /** Text without placeholders goes out exactly as written. */
  lemma {:induction false} ReplaceEachPlain(message: string, mapping: seq<(string, string)>)
    requires forall k :: 0 <= k < |mapping| ==> |mapping[k].0| >= 2 && mapping[k].0[0] == '{' && mapping[k].0[1] == '{'
    requires !HasBraces(message)
    ensures ReplaceEach(message, mapping) == message
  {
    if mapping != [] {
      NoBracesNoOccurrence(message, mapping[0].0);
      ReplaceAbsent(message, mapping[0].0, mapping[0].1);
      ReplaceEachPlain(message, mapping[1..]);
    }
  }

  lemma FormatPlainTemplate(template: string, order: OrderFacts, config: SmsConfig)
    requires !HasBraces(template)
    ensures FormatSmsMessage(template, order, config) == template
  {
    ReplaceEachPlain(template, Mapping(order, config));
  }

  /** Digits carry no placeholder. */
  lemma DigitsHaveNoBraces(s: string)
    requires forall i :: 0 <= i < |s| ==> IsAsciiDigit(s[i])
    ensures !HasBraces(s)
  {
    forall i | 0 <= i < |s| - 1
      ensures !(s[i] == '{' && s[i + 1] == '{')
    {
      assert IsAsciiDigit(s[i]);
    }
  }

  /** A template that is just {{order_id}} renders as the order's id in decimal. */
  lemma FormatOrderId(order: OrderFacts, config: SmsConfig)
    ensures FormatSmsMessage("{{order_id}}", order, config) == NatToString(order.orderId)
  {
    var m := Mapping(order, config);
    var t := "{{order_id}}";
    var v := NatToString(order.orderId);
    assert |t| == 12 && |m[0].0| == 17;
    assert ReplaceAll(t, m[0].0, m[0].1) == t;
    assert ReplaceEach(t, m) == ReplaceEach(t, m[1..]);
    assert t[..|t|] == t && t[|t|..] == "";
    assert ReplaceAll(t, t, v) == v + ReplaceAll("", t, v);
    assert ReplaceAll("", t, v) == "";
    assert m[1].0 == t && m[1].1 == v;
    assert m[1..][0] == m[1] && m[1..][1..] == m[2..];
    assert ReplaceEach(t, m[1..]) == ReplaceEach(ReplaceAll(t, t, v), m[2..]);
    assert ReplaceAll(t, t, v) == v;
    DigitsHaveNoBraces(v);
    ReplaceEachPlain(v, m[2..]);
    assert FormatSmsMessage(t, order, config) == ReplaceEach(t, m);
  }

  /** The first rule of a dispatch: a template must exist for the event and be active. */
  function ActiveTemplate(templates: map<EventTrigger, SmsTemplate>, key: string): (r: Option<SmsTemplate>)
    ensures r.Some? <==> ParseTrigger(key).Some? && ParseTrigger(key).value in templates
                         && templates[ParseTrigger(key).value].isActive
  {
    var t := ParseTrigger(key);
    if t.Some? && t.value in templates && templates[t.value].isActive then Some(templates[t.value]) else None
  }

  /** The customer's phone, when the order has a customer with a non-empty phone. */
  function Recipient(order: OrderFacts): Option<string>
  {
    if order.customer.Some? && order.customer.value.phone != "" then Some(order.customer.value.phone) else None
  }

  function ApiKey(config: SmsConfig): string
  {
    if config.useSandbox then config.sandboxKey else config.productionKey
  }

  predicate ConfigComplete(config: SmsConfig)
  {
    ApiKey(config) != "" && config.lineNumber != "" && config.baseUrl != ""
  }

  function ConfigErrorMessage(config: SmsConfig): string
  {
    "تنظیمات API (" + (if config.useSandbox then "Sandbox" else "Production")
    + ") برای sms.ir ناقص است (کلید، شماره خط یا URL پایه)."
  }

  /** str.lstrip('0'). */
  function StripLeadingZeros(s: string): (r: string)
    ensures |r| <= |s| && r == s[|s| - |r|..]
    ensures r == [] || r[0] != '0'
    ensures forall i :: 0 <= i < |s| - |r| ==> s[i] == '0'
  {
    if s != [] && s[0] == '0' then StripLeadingZeros(s[1..]) else s
  }

  /** A failed SMS row for the order's user. */
  function FailedRecord(order: OrderFacts, body: string, gatewayMessage: string): Notification
  {
    Notification(
      if order.customer.Some? then Some(order.customer.value.userId) else None, Some(order.orderId), body,
      SmsNotification, NotificationFailed, None, None, gatewayMessage)
  }

  /**
   * send_order_status_sms for the event `key`: which of the four exits the call
   * takes, what it returns and the Notification it asks to create.
   */
  function SendOrderStatusSms(
    templates: map<EventTrigger, SmsTemplate>, order: OrderFacts, key: string, config: SmsConfig,
    reply: SmsReply, now: int): (d: Dispatch)
    // no active template: nothing recorded, nothing sent
    ensures ActiveTemplate(templates, key).None? ==>
      d == Dispatch(false, NoTemplateMessage, None, None)
    // every other exit records exactly one SMS notification carrying the rendered text
    ensures ActiveTemplate(templates, key).Some? ==>
      d.record.Some? && d.record.value.kind == SmsNotification && d.record.value.orderId == Some(order.orderId)
      && d.record.value.message == FormatSmsMessage(ActiveTemplate(templates, key).value.messageTemplate, order, config)
    // no phone: a failed row, and nothing posted
    ensures ActiveTemplate(templates, key).Some? && Recipient(order).None? ==>
      !d.success && d.message == NoRecipientMessage && d.mobile.None?
      && d.record.value.status == NotificationFailed && d.record.value.gatewayMessage == NoRecipientNote
    // incomplete configuration: a failed row, and nothing posted
    ensures ActiveTemplate(templates, key).Some? && Recipient(order).Some? && !ConfigComplete(config) ==>
      !d.success && d.message == ConfigErrorMessage(config) && d.mobile.None?
      && d.record.value.status == NotificationFailed
    // a post was made to the number without its leading zeros
    ensures d.mobile.Some? <==> ActiveTemplate(templates, key).Some? && Recipient(order).Some? && ConfigComplete(config)
    ensures d.mobile.Some? ==> d.mobile.value == StripLeadingZeros(Recipient(order).value)
    // sent exactly when the gateway answered status 1
    ensures d.mobile.Some? ==>
      (d.success <==> reply.GatewayReplied? && reply.statusCode == "1")
      && d.record.value.status == (if d.success then NotificationSent else NotificationFailed)
      && d.record.value.sentAt == (if d.success then Some(now) else None)
      && d.message == reply.message
  {
    match ActiveTemplate(templates, key)
    case None => Dispatch(false, NoTemplateMessage, None, None)
    case Some(t) =>
      var body := FormatSmsMessage(t.messageTemplate, order, config);
      match Recipient(order)
      case None => Dispatch(false, NoRecipientMessage, Some(FailedRecord(order, body, NoRecipientNote)), None)
      case Some(phone) =>
        if !ConfigComplete(config) then
          Dispatch(false, ConfigErrorMessage(config), Some(FailedRecord(order, body, ConfigErrorMessage(config))), None)
        else
          var mobile := StripLeadingZeros(phone);
          match reply
          case GatewayReplied(code, message) =>
            var sent := code == "1";
            Dispatch(sent, message, Some(Notification(
              Some(order.customer.value.userId), Some(order.orderId), body, SmsNotification,
              if sent then NotificationSent else NotificationFailed, if sent then Some(now) else None,
              Some(code), message)), Some(mobile))
          case GatewayFailed(message) =>
            Dispatch(false, message, Some(Notification(
              Some(order.customer.value.userId), Some(order.orderId), body, SmsNotification,
              NotificationFailed, None, None, message)), Some(mobile))
  }
}
