/**
 * The checks of the orders app's serializers (orders/serializers.py): adding a
 * product to the cart, changing a cart quantity, choosing a delivery address,
 * the checkout fields and SMS template edits.
 */
module OrderSerializers {
  import opened Wrappers
  import opened ProductsModel
  import opened OrderModel
  import opened SmsService
  import Text

  /** The product tables the add-to-cart check reads. */
  datatype CatalogView = CatalogView(
    cakes: map<nat, Cake>, supplies: map<nat, PartySupply>, variants: map<nat, SizeVariant>, flavors: set<nat>)

  /** An add-to-cart payload after parsing; absent optional fields are None. */
  datatype AddRequest = AddRequest(
    productId: int, productType: string, quantity: int, flavorId: Option<int>, variantId: Option<int>,
    notes: Option<string>)

  /** What validation hands to the view: the product row and the chosen options. */
  datatype CartAddition = CartAddition(
    kind: ProductKind, objectId: nat, flavorId: Option<nat>, variantId: Option<nat>, quantity: nat,
    notes: Option<string>)

  function KindOf(productType: string): Option<ProductKind>
  {
    if productType == "cake" then Some(CakeKind)
    else if productType == "partysupply" then Some(SupplyKind)
    else None
  }

  /** The product row an id names, when it exists and is active. */
  predicate ActiveProduct(catalog: CatalogView, kind: ProductKind, id: int)
  {
    id >= 0 &&
    match kind
    case CakeKind => id in catalog.cakes && catalog.cakes[id].isActive
    case SupplyKind => id in catalog.supplies && catalog.supplies[id].isActive
  }

  predicate KnownFlavor(catalog: CatalogView, f: Option<int>)
  {
    f.None? || (f.value >= 0 && f.value in catalog.flavors)
  }

  predicate KnownVariant(catalog: CatalogView, v: Option<int>)
  {
    v.None? || (v.value >= 0 && v.value in catalog.variants)
  }

  /** The keys of the field-level errors, in declaration order. */
  function AddFieldErrors(catalog: CatalogView, r: AddRequest): (keys: seq<string>)
    ensures keys == [] <==> KindOf(r.productType).Some? && r.quantity >= 1
                            && KnownFlavor(catalog, r.flavorId) && KnownVariant(catalog, r.variantId)
  {
    (if KindOf(r.productType).None? then ["product_type"] else [])
    + (if r.quantity < 1 then ["quantity"] else [])
    + (if !KnownFlavor(catalog, r.flavorId) then ["flavor"] else [])
    + (if !KnownVariant(catalog, r.variantId) then ["size_variant"] else [])
  }

  function AsNat(x: Option<int>): Option<nat>
  {
    if x.Some? && x.value >= 0 then Some(x.value as nat) else None
  }

  /**
   * OrderItemAddSerializer: field checks first; then the product must exist and
   * be active; for a cake only, a chosen flavor must be one it offers and a
   * chosen size variant must be one of its own.
   */
  function ValidateAddToCart(catalog: CatalogView, r: AddRequest): (v: Validated<CartAddition>)
    ensures v.Accepted? <==>
      AddFieldErrors(catalog, r) == [] && ActiveProduct(catalog, KindOf(r.productType).value, r.productId)
      && (KindOf(r.productType).value == CakeKind ==>
            (r.flavorId.Some? ==> r.flavorId.value in catalog.cakes[r.productId].flavorIds)
            && (r.variantId.Some? ==> catalog.variants[r.variantId.value].cakeId == r.productId))
    ensures v.Accepted? ==>
      v.value.kind == KindOf(r.productType).value && v.value.objectId == r.productId && v.value.quantity == r.quantity
      && v.value.quantity >= 1 && v.value.flavorId == AsNat(r.flavorId) && v.value.variantId == AsNat(r.variantId)
      && v.value.notes == Text.StripNullable(r.notes)
    ensures v.Rejected? && AddFieldErrors(catalog, r) != [] ==> v.keys == AddFieldErrors(catalog, r)
  {
    var fieldErrors := AddFieldErrors(catalog, r);
    if fieldErrors != [] then Rejected(fieldErrors)
    else
      var kind := KindOf(r.productType).value;
      if !ActiveProduct(catalog, kind, r.productId) then Rejected(["non_field_errors"])
      else if kind == CakeKind && r.flavorId.Some? && r.flavorId.value !in catalog.cakes[r.productId].flavorIds then
        Rejected(["flavor"])
      else if kind == CakeKind && r.variantId.Some? && catalog.variants[r.variantId.value].cakeId != r.productId then
        Rejected(["size_variant"])
      else
        Accepted(CartAddition(kind, r.productId, AsNat(r.flavorId), AsNat(r.variantId), r.quantity, Text.StripNullable(r.notes)))
  }

  /** Party supplies take any existing flavor and variant: only the field checks and the product row matter. */
  lemma SupplyOptionsUnchecked(catalog: CatalogView, r: AddRequest)
    requires r.productType == "partysupply"
    ensures ValidateAddToCart(catalog, r).Accepted? <==>
      AddFieldErrors(catalog, r) == [] && ActiveProduct(catalog, SupplyKind, r.productId)
  {
  }

  /** A cake with another cake's size variant is refused with the error keyed "size_variant". */
  lemma ForeignVariantRefused(catalog: CatalogView, r: AddRequest)
    requires r.productType == "cake" && AddFieldErrors(catalog, r) == [] && ActiveProduct(catalog, CakeKind, r.productId)
    requires r.flavorId.None? && r.variantId.Some? && catalog.variants[r.variantId.value].cakeId != r.productId
    ensures ValidateAddToCart(catalog, r) == Rejected(["size_variant"])
  {
  }

  /**
   * CartItemUpdateSerializer's quantity: the range the model column gives the
   * field, then validate_quantity; only a positive quantity that fits passes.
   */
  function ValidateCartQuantity(q: int): (v: Validated<nat>)
    ensures v.Accepted? <==> 0 < q <= MaxQuantity
    ensures v.Accepted? ==> v.value == q
    ensures v.Rejected? ==> v.keys == ["quantity"]
  {
    // the column's range validators run first, then validate_quantity
    if q < 0 || q > MaxQuantity then Rejected(["quantity"])
    else if q == 0 then Rejected(["quantity"])
    else Accepted(q)
  }

  /** Who a request comes from. */
  datatype Requester = Anonymous | SignedIn(userId: nat)

  datatype AddressVerdict = AddressAccepted | AddressRejected(message: string) | MissingContextKey

  const AuthRequiredMessage: string := "Authentication required."
  const NotYourAddressMessage: string := "Selected address does not belong to the current user."
  const CannotVerifyMessage: string := "Could not verify address ownership."

  /**
   * OrderSerializer.validate_address_id. `context` is the request in the
   * serializer context; reading a missing one raises a key error.
   */
  function OrderAddressCheck(context: Option<Requester>, owner: nat): (r: AddressVerdict)
    ensures r == AddressAccepted <==> context == Some(SignedIn(owner))
    ensures context.None? ==> r == MissingContextKey
    ensures context == Some(Anonymous) ==> r == AddressRejected(AuthRequiredMessage)
  {
    match context
    case None => MissingContextKey
    case Some(Anonymous) => AddressRejected(AuthRequiredMessage)
    case Some(SignedIn(u)) => if u != owner then AddressRejected(NotYourAddressMessage) else AddressAccepted
  }

  /** OrderCheckoutUpdateSerializer.validate_address_id. */
  function CheckoutAddressCheck(context: Option<Requester>, owner: nat): (r: AddressVerdict)
    ensures r == AddressAccepted <==> context == Some(SignedIn(owner))
    ensures r != MissingContextKey
    ensures context.None? ==> r == AddressRejected(CannotVerifyMessage)
  {
    match context
    case None => AddressRejected(CannotVerifyMessage)
    case Some(Anonymous) => AddressRejected(NotYourAddressMessage)
    case Some(SignedIn(u)) => if u != owner then AddressRejected(NotYourAddressMessage) else AddressAccepted
  }

  /** The two ownership checks accept exactly the same requests; they differ only in how they refuse. */
  lemma AddressChecksAgree(context: Option<Requester>, owner: nat)
    ensures OrderAddressCheck(context, owner) == AddressAccepted <==> CheckoutAddressCheck(context, owner) == AddressAccepted
  {
  }

  /** A checkout payload: each field absent, null, or a value. */
  datatype CheckoutInput = CheckoutInput(
    addressId: Field<Option<int>>, delivery: Field<Option<int>>, notes: Field<Option<string>>)

  /** The order columns a checkout writes; absent fields keep their old values. */
  datatype CheckoutPatch = CheckoutPatch(addressId: Option<nat>, delivery: Option<int>, notes: Field<Option<string>>)

  /** Whether an address id given in the payload passes: it exists and its owner is the requester. */
  predicate AddressPasses(owners: map<nat, nat>, context: Option<Requester>, a: Option<int>)
  {
    a.Some? && a.value >= 0 && a.value in owners && CheckoutAddressCheck(context, owners[a.value]) == AddressAccepted
  }

  /** Error keys of fields that are present but wrong. */
  function PresentFieldErrors(owners: map<nat, nat>, context: Option<Requester>, input: CheckoutInput): seq<string>
  {
    (if input.addressId.Present? && !AddressPasses(owners, context, input.addressId.value) then ["address_id"] else [])
    + (if input.delivery.Present? && input.delivery.value.None? then ["delivery_datetime"] else [])
  }

  function PatchOf(input: CheckoutInput): CheckoutPatch
  {
    CheckoutPatch(
      if input.addressId.Present? then AsNat(input.addressId.value) else None,
      if input.delivery.Present? then input.delivery.value else None,
      Text.StripNullableField(input.notes))
  }

  /**
   * The checkout validation as the view runs it, with partial=True: a field
   * left out is never reported, so the two fields the serializer declares
   * required can both be missing.
   */
  function CheckoutAsWritten(owners: map<nat, nat>, context: Option<Requester>, input: CheckoutInput): (v: Validated<CheckoutPatch>)
    ensures v.Accepted? <==> PresentFieldErrors(owners, context, input) == []
    ensures v.Accepted? ==>
      (input.addressId.Present? <==> v.value.addressId.Some?)
      && (v.value.addressId.Some? ==>
            v.value.addressId.value in owners && context == Some(SignedIn(owners[v.value.addressId.value])))
      && (input.delivery.Present? <==> v.value.delivery.Some?)
      && (input.delivery.Present? ==> v.value.delivery == input.delivery.value)
      && v.value.notes == Text.StripNullableField(input.notes)
  {
    var errors := PresentFieldErrors(owners, context, input);
    if errors == [] then Accepted(PatchOf(input)) else Rejected(errors)
  }

  /** An empty payload passes the as-written checkout and sets no address. */
  lemma EmptyCheckoutAccepted(owners: map<nat, nat>, context: Option<Requester>)
    ensures var v := CheckoutAsWritten(owners, context, CheckoutInput(Absent, Absent, Absent));
      v.Accepted? && v.value.addressId.None? && v.value.delivery.None?
  {
  }

  /** The checkout validation the serializer's declarations ask for: both fields required. */
  function Checkout(owners: map<nat, nat>, context: Option<Requester>, input: CheckoutInput): (v: Validated<CheckoutPatch>)
    ensures v.Accepted? <==>
      input.addressId.Present? && AddressPasses(owners, context, input.addressId.value)
      && input.delivery.Present? && input.delivery.value.Some?
    ensures v.Accepted? ==>
      v.value.addressId.Some? && v.value.addressId.value in owners
      && context == Some(SignedIn(owners[v.value.addressId.value]))
      && v.value.delivery == input.delivery.value && v.value.notes == Text.StripNullableField(input.notes)
  {
    var errors :=
      (if input.addressId.Absent? || !AddressPasses(owners, context, input.addressId.value) then ["address_id"] else [])
      + (if input.delivery.Absent? || input.delivery.value.None? then ["delivery_datetime"] else []);
    if errors == [] then Accepted(PatchOf(input)) else Rejected(errors)
  }

  /** The required check only adds refusals: whatever it accepts, the as-written one accepts with the same patch. */
  lemma CheckoutRefinesAsWritten(owners: map<nat, nat>, context: Option<Requester>, input: CheckoutInput)
    ensures Checkout(owners, context, input).Accepted? ==>
      CheckoutAsWritten(owners, context, input) == Checkout(owners, context, input)
  {
  }

  /**
   * SMSTemplateSerializer.validate_event_trigger: the value must be one of the
   * event keys. The column is also unique, so no other template may hold it.
   */
  function ValidateEventTrigger(value: string, others: set<EventTrigger>): (v: Validated<EventTrigger>)
    ensures v.Accepted? <==> ParseTrigger(value).Some? && ParseTrigger(value).value !in others
    ensures v.Accepted? ==> TriggerKey(v.value) == value
  {
    match ParseTrigger(value)
    case None => Rejected(["event_trigger"])
    case Some(e) => if e in others then Rejected(["event_trigger"]) else Accepted(e)
  }

  /** The editable parts of a template in a request. */
  datatype TemplatePatch = TemplatePatch(isActive: Option<bool>, messageTemplate: Option<string>, description: Option<Option<string>>)

  /** The max_length of the description column. */
  const DescriptionMaxLength: nat := 255

  /** Error keys of the sent template fields, in the serializer's field order. */
  function TemplateFieldErrors(p: TemplatePatch): seq<string>
  {
    (if p.messageTemplate.Some? && Text.Trim(Text.Python, p.messageTemplate.value) == [] then ["message_template"] else [])
    + (if p.description.Some? && p.description.value.Some?
          && |Text.Trim(Text.Python, p.description.value.value)| > DescriptionMaxLength
       then ["description"] else [])
  }

  /**
   * The field checks of SMSTemplateSerializer on a partial update: the message
   * (a TextField that may not be blank) must keep some text once stripped, and
   * the description (blank and null allowed) may hold at most 255 characters
   * once stripped. Sent text is stored stripped; null stays null.
   */
  function ValidateTemplatePatch(p: TemplatePatch): (v: Validated<TemplatePatch>)
    ensures v.Accepted? <==>
      (p.messageTemplate.Some? ==> !Text.AllSpace(Text.Python, p.messageTemplate.value))
      && (p.description.Some? && p.description.value.Some? ==>
            |Text.Trim(Text.Python, p.description.value.value)| <= DescriptionMaxLength)
    ensures v.Rejected? ==>
      ("message_template" in v.keys <==> p.messageTemplate.Some? && Text.AllSpace(Text.Python, p.messageTemplate.value))
    ensures v.Accepted? ==>
      v.value.isActive == p.isActive
      && (v.value.messageTemplate.Some? <==> p.messageTemplate.Some?)
      && (v.value.messageTemplate.Some? ==>
            v.value.messageTemplate.value != [] && v.value.messageTemplate == Text.StripNullable(p.messageTemplate))
      && (v.value.description.Some? <==> p.description.Some?)
      && (v.value.description.Some? ==>
            v.value.description.value == Text.StripNullable(p.description.value)
            && (v.value.description.value.Some? ==> |v.value.description.value.value| <= DescriptionMaxLength))
  {
    Text.TrimEmptyIff(Text.Python, p.messageTemplate.GetOr([]));
    var errors := TemplateFieldErrors(p);
    if errors != [] then Rejected(errors)
    else
      Accepted(TemplatePatch(
        p.isActive,
        Text.StripNullable(p.messageTemplate),
        if p.description.Some? then Some(Text.StripNullable(p.description.value)) else None))
  }

  /** A validated patch validates to itself, so re-sending what was stored changes nothing. */
  lemma ValidatedPatchStable(p: TemplatePatch)
    requires ValidateTemplatePatch(p).Accepted?
    ensures ValidateTemplatePatch(ValidateTemplatePatch(p).value) == ValidateTemplatePatch(p)
  {
    var q := ValidateTemplatePatch(p).value;
    Text.StripNullableIdempotent(p.messageTemplate);
    if p.description.Some? {
      Text.StripNullableIdempotent(p.description.value);
    }
    if q.messageTemplate.Some? {
      Text.TrimEmptyIff(Text.Python, q.messageTemplate.value);
    }
  }

  /** SMSTemplateSerializer.update: each field takes the sent value, or keeps its old one. */
  function ApplyTemplatePatch(t: SmsTemplate, p: TemplatePatch): (r: SmsTemplate)
    ensures r.isActive == p.isActive.GetOr(t.isActive)
    ensures r.messageTemplate == p.messageTemplate.GetOr(t.messageTemplate)
    ensures r.description == p.description.GetOr(t.description)
  {
    SmsTemplate(p.messageTemplate.GetOr(t.messageTemplate), p.isActive.GetOr(t.isActive), p.description.GetOr(t.description))
  }

  /** An empty patch changes nothing, and applying the same patch twice is applying it once. */
  lemma TemplatePatchIdempotent(t: SmsTemplate, p: TemplatePatch)
    ensures ApplyTemplatePatch(t, TemplatePatch(None, None, None)) == t
    ensures ApplyTemplatePatch(ApplyTemplatePatch(t, p), p) == ApplyTemplatePatch(t, p)
  {
  }
}
