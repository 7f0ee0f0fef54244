/**
 * The address form's schema (addressSchema): the length rules of the text
 * fields, the postal-code and mobile-number patterns, and `is_default`
 * defaulting to false. A refused form reports the paths of its failing
 * fields in declaration order.
 */
module AddressSchema {
  import opened Wrappers
  import opened Text
  import opened Seqs
  import Users

  /** The form's values; `isDefault` is None when the check box was never registered. */
  datatype AddressInput = AddressInput(
    id: Option<int>, title: string, recipientName: string, province: string, city: string,
    street: string, postalCode: string, phoneNumber: string, isDefault: Option<bool>)

  /** What the schema hands to the submit handler. */
  datatype AddressData = AddressData(
    id: Option<int>, title: string, recipientName: string, province: string, city: string,
    street: string, postalCode: string, phoneNumber: string, isDefault: bool)

  /** The form's fields that carry a rule, by the path zod reports. */
  datatype AddressField = Title | RecipientName | Province | City | Street | PostalCode | PhoneNumber

  function Path(field: AddressField): string
  {
    match field
    case Title => "title"
    case RecipientName => "recipient_name"
    case Province => "province"
    case City => "city"
    case Street => "street"
    case PostalCode => "postal_code"
    case PhoneNumber => "phone_number"
  }

  /** The outcome of parsing: the checked data, or the failing fields. */
  datatype Parsed = Valid(data: AddressData) | Invalid(issues: seq<AddressField>)

  predicate AllDigits(s: string) { forall i :: 0 <= i < |s| ==> IsAsciiDigit(s[i]) }

  /** `/^\d{10}$/`. */
  predicate PostalCodeOk(s: string) { |s| == 10 && AllDigits(s) }

  /** `/^09\d{9}$/`: "09" followed by exactly nine digits. */
  predicate MobileOk(s: string) { |s| >= 2 && s[..2] == "09" && |s[2..]| == 9 && AllDigits(s[2..]) }

  /** The fields in the schema's declaration order. */
  const Fields: seq<AddressField> := [Title, RecipientName, Province, City, Street, PostalCode, PhoneNumber]

  /** The field's rule refuses its value. */
  predicate Fails(f: AddressInput, field: AddressField)
  {
    match field
    case Title => |f.title| < 2
    case RecipientName => |f.recipientName| < 3
    case Province => |f.province| < 1
    case City => |f.city| < 1
    case Street => |f.street| < 5
    case PostalCode => !PostalCodeOk(f.postalCode)
    case PhoneNumber => !MobileOk(f.phoneNumber)
  }

  /** Every field appears in the order list, once. */
  lemma FieldsListed()
    ensures forall x :: x in Fields
    ensures Distinct(Fields)
  {
    forall x: AddressField
      ensures x in Fields
    {
      var k := match x
        case Title => 0 case RecipientName => 1 case Province => 2 case City => 3
        case Street => 4 case PostalCode => 5 case PhoneNumber => 6;
      assert Fields[k] == x;
    }
  }

  /** The failing fields, in the schema's order, each once. */
  function AddressIssues(f: AddressInput): (issues: seq<AddressField>)
    ensures forall x :: x in issues <==> Fails(f, x)
    ensures Distinct(issues)
  {
    FieldsListed();
    Select(Fields, x => Fails(f, x))
  }

  /** No field fails exactly when every rule holds. */
  lemma NoIssuesIff(f: AddressInput)
    ensures AddressIssues(f) == [] <==>
      |f.title| >= 2 && |f.recipientName| >= 3 && f.province != "" && f.city != ""
      && |f.street| >= 5 && PostalCodeOk(f.postalCode) && MobileOk(f.phoneNumber)
  {
    var issues := AddressIssues(f);
    if issues != [] {
      assert Fails(f, issues[0]);
    } else {
      assert !Fails(f, Title) && !Fails(f, RecipientName) && !Fails(f, Province) && !Fails(f, City);
      assert !Fails(f, Street) && !Fails(f, PostalCode) && !Fails(f, PhoneNumber);
    }
  }

  /** addressSchema.parse: the checked data with the default applied, or the failing paths. */
  function ParseAddress(f: AddressInput): (r: Parsed)
    ensures r.Valid? <==> |f.title| >= 2 && |f.recipientName| >= 3 && f.province != "" && f.city != ""
                             && |f.street| >= 5 && PostalCodeOk(f.postalCode) && MobileOk(f.phoneNumber)
    ensures r.Invalid? ==> r.issues == AddressIssues(f) && r.issues != []
    ensures r.Valid? ==> r.data.isDefault == (f.isDefault == Some(true))
    ensures r.Valid? ==> r.data.title == f.title && r.data.street == f.street
                         && r.data.postalCode == f.postalCode && r.data.phoneNumber == f.phoneNumber
                         && r.data.recipientName == f.recipientName && r.data.id == f.id
                         && r.data.province == f.province && r.data.city == f.city
  {
    var issues := AddressIssues(f);
    NoIssuesIff(f);
    if issues != [] then Invalid(issues)
    else Valid(AddressData(f.id, f.title, f.recipientName, f.province, f.city, f.street,
                              f.postalCode, f.phoneNumber, f.isDefault.GetOr(false)))
  }

  /** A mobile number the pattern accepts is eleven digits starting "09". */
  lemma MobileShape(s: string)
    ensures MobileOk(s) <==> |s| == 11 && s[0] == '0' && s[1] == '9' && AllDigits(s)
  {
    if |s| == 11 && s[0] == '0' && s[1] == '9' && AllDigits(s) {
      assert s[..2] == "09";
      assert forall i :: 0 <= i < |s[2..]| ==> s[2..][i] == s[i + 2];
    }
    if MobileOk(s) {
      assert s[0] == s[..2][0] && s[1] == s[..2][1];
      forall i | 0 <= i < |s|
        ensures IsAsciiDigit(s[i])
      {
        if i >= 2 {
          assert s[i] == s[2..][i - 2];
        }
      }
    }
  }

  /**
   * An address the form accepts fits the back end's columns: the postal code
   * and the phone number are digit strings within the 20 characters each
   * column holds, and the recipient name is never blank.
   */
  lemma AcceptedAddressFitsColumns(f: AddressInput)
    requires ParseAddress(f).Valid?
    ensures var a := ParseAddress(f).data;
      && |a.postalCode| <= Users.PostalCodeMaxLength && AllDigits(a.postalCode)
      && |a.phoneNumber| <= Users.AddressPhoneMaxLength && AllDigits(a.phoneNumber)
      && a.recipientName != ""
  {
    MobileShape(f.phoneNumber);
  }
}
