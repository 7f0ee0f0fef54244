/**
 * Accounts and addresses (users/models.py, users/views.py,
 * users/serializers.py): registration, profile and password changes over the
 * user table, the one-default-address rule of `Address.save`, the address and
 * city queries. DRF's CharField strips surrounding white space from every
 * string it accepts and answers a blank one before running any validator;
 * both rules are written out here.
 */
module Users {
  import opened Wrappers
  import opened Text
  import opened Seqs

  datatype User = User(
    username: string, email: string, firstName: string, lastName: string, phone: Option<string>,
    points: nat, isStaff: bool, password: string)

  /** Column limits of CustomUser (AbstractUser's names and email, the added phone). */
  const UsernameMaxLength: nat := 150
  const NameMaxLength: nat := 150
  const EmailMaxLength: nat := 254
  const PhoneMaxLength: nat := 20

  /** `phone` is unique=True: two users never share a stored phone value. */
  ghost predicate PhonesUnique(users: map<nat, User>)
  {
    forall a, b :: a in users && b in users && a != b && users[a].phone.Some? ==> users[a].phone != users[b].phone
  }

  ghost predicate UsernamesUnique(users: map<nat, User>)
  {
    forall a, b :: a in users && b in users && a != b ==> users[a].username != users[b].username
  }

  predicate UsernameTaken(users: map<nat, User>, name: string)
  {
    exists k :: k in users && users[k].username == name
  }

  /** Another user than `self` stores this phone value. */
  predicate PhoneTaken(users: map<nat, User>, phone: string, self: Option<nat>)
  {
    exists k :: k in users && Some(k) != self && users[k].phone == Some(phone)
  }

  /** The registration form as posted; optional fields may be left out. */
  datatype Registration = Registration(
    username: string, email: Field<string>, password: string, password2: string, phone: Field<string>,
    firstName: Field<string>, lastName: Field<string>)

  function Clean(s: string): string
  {
    Trim(Python, s)
  }

  /** An optional text field fails when it is sent, non-blank and too long. */
  predicate TooLong(f: Field<string>, max: nat)
  {
    f.Present? && |Clean(f.value)| > max
  }

  /**
   * The error keys of the registration form for the given failing fields, in
   * the serializer's field order; each key is listed exactly when its field fails.
   */
  function ErrorKeys(username: bool, email: bool, password: bool, password2: bool, phone: bool,
                     firstName: bool, lastName: bool): (keys: seq<string>)
    ensures "username" in keys <==> username
    ensures "password" in keys <==> password
    ensures "password2" in keys <==> password2
    ensures keys == [] <==> !(username || email || password || password2 || phone || firstName || lastName)
  {
    assert "username"[0] != "password"[0] && "username"[0] != "password2"[0];
    assert "email"[0] != "password"[0] && "email"[0] != "password2"[0] && "email"[0] != "username"[0];
    assert "phone" != "password" by { assert "phone"[1] != "password"[1]; }
    assert "phone" != "password2" by { assert "phone"[1] != "password2"[1]; }
    assert "first_name"[0] != "password"[0] && "first_name"[0] != "password2"[0] && "first_name"[0] != "username"[0];
    assert "last_name"[0] != "password"[0] && "last_name"[0] != "password2"[0] && "last_name"[0] != "username"[0];
    assert "password" != "password2" by { assert |"password"| != |"password2"|; }
    (if username then ["username"] else [])
    + (if email then ["email"] else [])
    + (if password then ["password"] else [])
    + (if password2 then ["password2"] else [])
    + (if phone then ["phone"] else [])
    + (if firstName then ["first_name"] else [])
    + (if lastName then ["last_name"] else [])
  }

  /**
   * The field-level errors of UserRegistrationSerializer, in field order.
   * `usernameWellFormed`, `emailWellFormed` and `passwordAccepted` are the
   * verdicts of Django's username validator, email validator and
   * validate_password on the stripped values.
   */
  function RegistrationErrors(r: Registration, users: map<nat, User>, usernameWellFormed: bool,
                              emailWellFormed: bool, passwordAccepted: bool): (keys: seq<string>)
    ensures "password" in keys <==> Clean(r.password) == "" || !passwordAccepted
    ensures "password2" in keys <==> Clean(r.password2) == ""
    ensures "username" in keys <==> Clean(r.username) == "" || |Clean(r.username)| > UsernameMaxLength
                                     || !usernameWellFormed || UsernameTaken(users, Clean(r.username))
  {
    var name := Clean(r.username);
    ErrorKeys(
      name == "" || |name| > UsernameMaxLength || !usernameWellFormed || UsernameTaken(users, name),
      r.email.Present? && Clean(r.email.value) != "" && (!emailWellFormed || |Clean(r.email.value)| > EmailMaxLength),
      Clean(r.password) == "" || !passwordAccepted,
      Clean(r.password2) == "",
      r.phone.Present? && Clean(r.phone.value) != ""
        && (|Clean(r.phone.value)| > PhoneMaxLength || PhoneTaken(users, Clean(r.phone.value), None)),
      TooLong(r.firstName, NameMaxLength),
      TooLong(r.lastName, NameMaxLength))
  }

  /** The position of the last '@' in `s`, if there is one. */
  function LastAt(s: string): (r: Option<nat>)
    ensures r.Some? ==> r.value < |s| && s[r.value] == '@' && forall i :: r.value < i < |s| ==> s[i] != '@'
    ensures r.None? ==> forall i :: 0 <= i < |s| ==> s[i] != '@'
  {
    if s == [] then None
    else if s[|s| - 1] == '@' then Some(|s| - 1)
    else LastAt(s[..|s| - 1])
  }

  /**
   * BaseUserManager.normalize_email, which create_user applies: the domain
   * after the last '@' is lower-cased and the local part is kept as typed; an
   * address without '@' is stored as it is.
   */
  function NormalizeEmail(email: string): (r: string)
    ensures |r| == |email|
    ensures LastAt(email).None? ==> r == email
    ensures LastAt(email).Some? ==>
      var k := LastAt(email).value;
      r[..k] == email[..k] && r[k] == '@' && r[k + 1..] == ToLower(email[k + 1..])
  {
    match LastAt(email)
    case None => email
    case Some(k) =>
      var r := email[..k] + "@" + ToLower(email[k + 1..]);
      assert r[..k] == email[..k] && r[k + 1..] == ToLower(email[k + 1..]);
      r
  }

  /** Normalising a normalised address changes nothing. */
  lemma NormalizeEmailIdempotent(email: string)
    ensures NormalizeEmail(NormalizeEmail(email)) == NormalizeEmail(email)
  {
    if LastAt(email).Some? {
      var k := LastAt(email).value;
      var n := NormalizeEmail(email);
      var lowered := ToLower(email[k + 1..]);
      assert n[k + 1..] == lowered;
      forall i | k < i < |n|
        ensures n[i] != '@'
      {
        assert n[i] == lowered[i - k - 1];
      }
      LastAtUnique(n, k);
      ToLowerIdempotent(email[k + 1..]);
      assert n == n[..k] + "@" + n[k + 1..];
    }
  }

  lemma ToLowerIdempotent(s: string)
    ensures ToLower(ToLower(s)) == ToLower(s)
  {
    var t := ToLower(s);
    assert forall i :: 0 <= i < |t| ==> ToLower(t)[i] == t[i];
  }

  /** A '@' with none after it is the one LastAt finds. */
  lemma {:induction false} LastAtUnique(s: string, k: nat)
    requires k < |s| && s[k] == '@' && forall i :: k < i < |s| ==> s[i] != '@'
    ensures LastAt(s) == Some(k)
  {
    if k < |s| - 1 {
      LastAtUnique(s[..|s| - 1], k);
    }
  }

  function Stored(f: Field<string>): string
  {
    if f.Present? then Clean(f.value) else ""
  }

  /**
   * UserRegistrationSerializer.validate and create: field errors first; then
   * differing passwords are refused under the key "password"; an accepted form
   * becomes a user without `password2`, with email and names defaulting to ""
   * and no points.
   */
  function CheckRegistration(r: Registration, users: map<nat, User>, usernameWellFormed: bool,
                             emailWellFormed: bool, passwordAccepted: bool): (v: Validated<User>)
    ensures v.Accepted? <==> RegistrationErrors(r, users, usernameWellFormed, emailWellFormed, passwordAccepted) == []
                             && Clean(r.password) == Clean(r.password2)
    ensures (RegistrationErrors(r, users, usernameWellFormed, emailWellFormed, passwordAccepted) == []
             && Clean(r.password) != Clean(r.password2)) ==> v == Rejected(["password"])
    ensures v.Accepted? ==>
      && v.value.username == Clean(r.username) && !UsernameTaken(users, v.value.username)
      && v.value.password == Clean(r.password) && v.value.points == 0 && !v.value.isStaff
      && (r.email.Absent? ==> v.value.email == "")
      && (r.email.Present? ==> v.value.email == NormalizeEmail(Clean(r.email.value)))
      && (r.firstName.Absent? ==> v.value.firstName == "")
      && (r.lastName.Absent? ==> v.value.lastName == "")
      && (r.phone.Absent? <==> v.value.phone.None?)
  {
    var errors := RegistrationErrors(r, users, usernameWellFormed, emailWellFormed, passwordAccepted);
    if errors != [] then Rejected(errors)
    else if Clean(r.password) != Clean(r.password2) then Rejected(["password"])
    else Accepted(User(Clean(r.username), NormalizeEmail(Stored(r.email)), Stored(r.firstName), Stored(r.lastName),
                       if r.phone.Present? then Some(Clean(r.phone.value)) else None, 0, false, Clean(r.password)))
  }

  /** What registering gives: a new user's id, the serializer's errors, or a database error. */
  datatype Signup = SignedUp(id: nat) | SignupRejected(keys: seq<string>) | SignupFailed

  /**
   * A PATCH or PUT of the profile: only first_name, last_name and phone are
   * writable (every one optional, because each column is blank=True).
   */
  datatype ProfileUpdate = ProfileUpdate(firstName: Field<string>, lastName: Field<string>, phone: Field<Option<string>>)

  /** What a profile update gives: the saved user, the serializer's errors, or a database error (a 500). */
  datatype ProfileResult = ProfileSaved(user: User) | ProfileRejected(keys: seq<string>) | ProfileFailed

  function ProfileErrors(users: map<nat, User>, self: nat, p: ProfileUpdate): (keys: seq<string>)
    ensures forall k :: k in keys ==> k in ["first_name", "last_name", "phone"]
  {
    (if TooLong(p.firstName, NameMaxLength) then ["first_name"] else [])
    + (if TooLong(p.lastName, NameMaxLength) then ["last_name"] else [])
    + (if p.phone.Present? && p.phone.value.Some? && Clean(p.phone.value.value) != ""
          && (|Clean(p.phone.value.value)| > PhoneMaxLength || PhoneTaken(users, Clean(p.phone.value.value), Some(self)))
       then ["phone"] else [])
  }

  /** The user after UserProfileUpdateSerializer's save: sent fields replaced, every other field kept. */
  function ApplyProfile(u: User, p: ProfileUpdate): (r: User)
    ensures r.(firstName := u.firstName, lastName := u.lastName, phone := u.phone) == u
    ensures p.firstName.Present? ==> r.firstName == Clean(p.firstName.value)
    ensures p.lastName.Absent? ==> r.lastName == u.lastName
    ensures p.phone.Present? && p.phone.value.None? ==> r.phone.None?
  {
    u.(firstName := if p.firstName.Present? then Clean(p.firstName.value) else u.firstName,
       lastName := if p.lastName.Present? then Clean(p.lastName.value) else u.lastName,
       phone := if p.phone.Absent? then u.phone
                else if p.phone.value.None? then None
                else Some(Clean(p.phone.value.value)))
  }

  /** A profile update never touches the username, email, points, staff flag or password. */
  lemma ProfileUpdateKeepsRest(u: User, p: ProfileUpdate)
    ensures var r := ApplyProfile(u, p);
      r.username == u.username && r.email == u.email && r.points == u.points && r.isStaff == u.isStaff
      && r.password == u.password
  {
    assert ApplyProfile(u, p).(firstName := u.firstName, lastName := u.lastName, phone := u.phone) == u;
  }

  /**
   * ChangePasswordSerializer: field errors first (a blank field, or a current
   * password `check_password` refuses); then differing new passwords under
   * "confirm_password", before validate_password runs; its refusal comes back
   * as a non-field error.
   */
  function CheckPasswordChange(current: string, next: string, confirm: string, currentMatches: bool,
                               nextAccepted: bool): (v: Validated<string>)
    ensures v.Accepted? <==> Clean(current) != "" && currentMatches && Clean(next) != "" && Clean(confirm) != ""
                             && Clean(next) == Clean(confirm) && nextAccepted
    ensures v.Accepted? ==> v.value == Clean(next)
    ensures Clean(current) != "" && !currentMatches ==> v.Rejected? && "current_password" in v.keys
    ensures (Clean(current) != "" && currentMatches && Clean(next) != "" && Clean(confirm) != ""
             && Clean(next) != Clean(confirm)) ==> v == Rejected(["confirm_password"])
  {
    var errors := (if Clean(current) == "" || !currentMatches then ["current_password"] else [])
                  + (if Clean(next) == "" then ["new_password"] else [])
                  + (if Clean(confirm) == "" then ["confirm_password"] else []);
    if errors != [] then Rejected(errors)
    else if Clean(next) != Clean(confirm) then Rejected(["confirm_password"])
    else if !nextAccepted then Rejected(["non_field_errors"])
    else Accepted(Clean(next))
  }

  /** A mismatch is reported whatever validate_password would have said. */
  lemma MismatchBeforeStrength(current: string, next: string, confirm: string, currentMatches: bool)
    requires Clean(current) != "" && currentMatches && Clean(next) != "" && Clean(confirm) != ""
    requires Clean(next) != Clean(confirm)
    ensures CheckPasswordChange(current, next, confirm, currentMatches, true)
         == CheckPasswordChange(current, next, confirm, currentMatches, false)
  {
  }

  /** The serializer CurrentUserDetailView uses. */
  datatype ProfileSerializer = ReadSerializer | UpdateSerializer

  function SerializerFor(httpMethod: string): (s: ProfileSerializer)
    ensures s == UpdateSerializer <==> httpMethod == "PUT" || httpMethod == "PATCH"
  {
    if httpMethod == "PUT" || httpMethod == "PATCH" then UpdateSerializer else ReadSerializer
  }

  class Accounts {
    var users: map<nat, User>
    var nextUserId: nat

    ghost predicate Valid()
      reads this
    {
      (forall k :: k in users ==> k < nextUserId) && UsernamesUnique(users) && PhonesUnique(users)
    }

    constructor()
      ensures Valid() && users == map[]
    {
      users := map[];
      nextUserId := 1;
    }

    /**
     * UserRegistrationView: validate, then `create_user`. A blank phone skips
     * the serializer's uniqueness check, so a second blank phone fails on the
     * database constraint.
     */
    method Register(r: Registration, usernameWellFormed: bool, emailWellFormed: bool, passwordAccepted: bool)
      returns (out: Signup)
      requires Valid()
      modifies this
      ensures Valid()
      ensures var v := CheckRegistration(r, old(users), usernameWellFormed, emailWellFormed, passwordAccepted);
        && (v.Rejected? <==> out.SignupRejected?)
        && (v.Rejected? ==> out.keys == v.keys)
        && (out.SignedUp? ==> v.Accepted? && out.id == old(nextUserId) && users == old(users)[out.id := v.value])
        && (out.SignedUp? <==> v.Accepted? && !(v.value.phone.Some? && PhoneTaken(old(users), v.value.phone.value, None)))
      ensures !out.SignedUp? ==> users == old(users)
      // the stored e-mail has its domain lower-cased by create_user
      ensures out.SignedUp? && r.email.Present? ==> users[out.id].email == NormalizeEmail(Clean(r.email.value))
    {
      var v := CheckRegistration(r, users, usernameWellFormed, emailWellFormed, passwordAccepted);
      if v.Rejected? {
        return SignupRejected(v.keys);
      }
      if v.value.phone.Some? && PhoneTaken(users, v.value.phone.value, None) {
        return SignupFailed;
      }
      users := users[nextUserId := v.value];
      out := SignedUp(nextUserId);
      nextUserId := nextUserId + 1;
    }

    /** CurrentUserDetailView with PUT or PATCH. */
    method UpdateProfile(self: nat, p: ProfileUpdate) returns (out: ProfileResult)
      requires Valid() && self in users
      modifies this`users
      ensures Valid()
      ensures ProfileErrors(old(users), self, p) != [] ==> out == ProfileRejected(ProfileErrors(old(users), self, p))
      ensures out.ProfileRejected? ==> ProfileErrors(old(users), self, p) != []
      ensures out.ProfileSaved? ==> users == old(users)[self := ApplyProfile(old(users)[self], p)] && out.user == users[self]
      ensures !out.ProfileSaved? ==> users == old(users)
      // a phone held by another user passes the serializer and fails on the unique column
      ensures ProfileErrors(old(users), self, p) == [] ==>
        (out.ProfileFailed? <==> ApplyProfile(old(users)[self], p).phone.Some?
                                 && PhoneTaken(old(users), ApplyProfile(old(users)[self], p).phone.value, Some(self)))
      ensures ProfileErrors(old(users), self, p) == [] ==> !out.ProfileRejected?
    {
      var errors := ProfileErrors(users, self, p);
      if errors != [] {
        return ProfileRejected(errors);
      }
      var u := ApplyProfile(users[self], p);
      if u.phone.Some? && PhoneTaken(users, u.phone.value, Some(self)) {
        return ProfileFailed;
      }
      ProfileUpdateKeepsRest(users[self], p);
      users := users[self := u];
      out := ProfileSaved(u);
    }

    /** ChangePasswordView.update: on success only the user's password changes. */
    method ChangePassword(self: nat, current: string, next: string, confirm: string, currentMatches: bool,
                          nextAccepted: bool) returns (v: Validated<string>)
      requires Valid() && self in users
      modifies this`users
      ensures Valid()
      ensures v == CheckPasswordChange(current, next, confirm, currentMatches, nextAccepted)
      ensures v.Accepted? ==> users == old(users)[self := old(users)[self].(password := v.value)]
      ensures v.Rejected? ==> users == old(users)
    {
      v := CheckPasswordChange(current, next, confirm, currentMatches, nextAccepted);
      if v.Accepted? {
        users := users[self := users[self].(password := v.value)];
      }
    }
  }

  datatype City = City(name: string, provinceId: nat)

  /**
   * CityListView.get_queryset: no cities without a `province_id`, else that
   * province's cities; text that is not an integer makes the lookup fail (None).
   */
  function CitiesOf(cities: map<nat, City>, provinceParam: Option<string>): (r: Option<set<nat>>)
    ensures provinceParam.None? || provinceParam == Some("") ==> r == Some({})
    ensures provinceParam.Some? && provinceParam.value != "" ==> (r.None? <==> PyInt(provinceParam.value).None?)
    ensures r.Some? && r.value != {} ==> provinceParam.Some? && PyInt(provinceParam.value).Some?
    ensures r.Some? ==> forall c :: c in r.value <==>
      c in cities && provinceParam.Some? && PyInt(provinceParam.value) == Some(cities[c].provinceId as int)
  {
    if provinceParam.None? || provinceParam.value == "" then Some({})
    else match PyInt(provinceParam.value)
      case None => None
      case Some(v) => Some(set c | c in cities && cities[c].provinceId as int == v)
  }

  /** Column limits of Address's phone number and postal code. */
  const AddressPhoneMaxLength: nat := 20
  const PostalCodeMaxLength: nat := 20

  datatype Address = Address(
    userId: nat, title: Option<string>, cityId: nat, street: string, recipientName: string, phoneNumber: string,
    postalCode: Option<string>, isDefault: bool)

  /** At most one default address per user. */
  ghost predicate OneDefault(addresses: map<nat, Address>)
  {
    forall a, b :: (a in addresses && b in addresses && addresses[a].userId == addresses[b].userId
                    && addresses[a].isDefault && addresses[b].isDefault) ==> a == b
  }

  /** `Address.objects.filter(user=userId, is_default=True).exclude(pk=except).update(is_default=False)`. */
  function ClearDefaults(addresses: map<nat, Address>, userId: nat, except: Option<nat>): map<nat, Address>
  {
    map k | k in addresses ::
      if addresses[k].userId == userId && addresses[k].isDefault && Some(k) != except
      then addresses[k].(isDefault := false) else addresses[k]
  }

  /** The table after `Address.save` of row `a` under id `key`. */
  function SavedAddress(addresses: map<nat, Address>, key: nat, a: Address): map<nat, Address>
  {
    (if a.isDefault then ClearDefaults(addresses, a.userId, Some(key)) else addresses)[key := a]
  }

  /** `Address.objects.filter(user=userId).update(is_default=False)`. */
  function Undefaulted(addresses: map<nat, Address>, userId: nat): (r: map<nat, Address>)
    ensures r.Keys == addresses.Keys
    ensures forall k :: k in r && r[k].userId == userId ==> !r[k].isDefault
    ensures forall k :: k in addresses ==> r[k] == addresses[k].(isDefault := r[k].isDefault)
    ensures forall k :: k in addresses && addresses[k].userId != userId ==> r[k] == addresses[k]
    ensures OneDefault(addresses) ==> OneDefault(r)
  {
    map k | k in addresses :: if addresses[k].userId == userId then addresses[k].(isDefault := false) else addresses[k]
  }

  /**
   * The table set_default leaves: the chosen address is its user's only
   * default, no address changes in anything but the flag, and the other
   * users' addresses do not change at all.
   */
  lemma SetDefaultTable(addresses: map<nat, Address>, userId: nat, key: nat)
    requires key in addresses && addresses[key].userId == userId
    ensures var t := SavedAddress(Undefaulted(addresses, userId), key, addresses[key].(isDefault := true));
      && t.Keys == addresses.Keys && t[key].isDefault
      && (forall k :: k in t && k != key && t[k].userId == userId ==> !t[k].isDefault)
      && (forall k :: k in addresses ==> t[k] == addresses[k].(isDefault := t[k].isDefault))
      && (forall k :: k in addresses && addresses[k].userId != userId ==> t[k] == addresses[k])
  {
    var u := Undefaulted(addresses, userId);
    assert ClearDefaults(u, userId, Some(key)) == u;
  }

  /**
   * Address.save keeps at most one default per user; a default row ends up
   * the only default of its user; a non-default save changes no other row;
   * other users' rows are never touched.
   */
  lemma SaveAddressSound(addresses: map<nat, Address>, key: nat, a: Address)
    requires OneDefault(addresses)
    ensures OneDefault(SavedAddress(addresses, key, a))
    ensures a.isDefault ==> forall k :: (k in SavedAddress(addresses, key, a) && SavedAddress(addresses, key, a)[k].userId == a.userId
                                        && SavedAddress(addresses, key, a)[k].isDefault) ==> k == key
    ensures !a.isDefault ==> forall k :: k in addresses && k != key ==> SavedAddress(addresses, key, a)[k] == addresses[k]
    ensures forall k :: (k in addresses && k != key && addresses[k].userId != a.userId) ==> SavedAddress(addresses, key, a)[k] == addresses[k]
  {
    var s := SavedAddress(addresses, key, a);
    if !a.isDefault {
      forall x, y | x in s && y in s && s[x].userId == s[y].userId && s[x].isDefault && s[y].isDefault
        ensures x == y
      {
        assert x != key && y != key;
        assert addresses[x] == s[x] && addresses[y] == s[y];
      }
    }
  }

  /** Re-saving the current default changes nothing. */
  lemma ResaveDefaultKeepsIt(addresses: map<nat, Address>, key: nat)
    requires OneDefault(addresses) && key in addresses && addresses[key].isDefault
    ensures SavedAddress(addresses, key, addresses[key]) == addresses
  {
    var a := addresses[key];
    var s := SavedAddress(addresses, key, a);
    forall k | k in addresses
      ensures s[k] == addresses[k]
    {
      if k != key && addresses[k].userId == a.userId && addresses[k].isDefault {
        assert false;
      }
    }
  }

  /** Order of AddressViewSet's list: defaults first, then newest (highest id) first. */
  predicate ListedBefore(addresses: map<nat, Address>, a: nat, b: nat)
    requires a in addresses && b in addresses
  {
    (addresses[a].isDefault && !addresses[b].isDefault)
    || (addresses[a].isDefault == addresses[b].isDefault && a > b)
  }

  class AddressBook {
    var addresses: map<nat, Address>
    var nextId: nat

    ghost predicate Valid()
      reads this
    {
      (forall k :: k in addresses ==> k < nextId) && OneDefault(addresses)
    }

    constructor()
      ensures Valid() && addresses == map[]
    {
      addresses := map[];
      nextId := 1;
    }

    /** Address.save: a new row (key None) gets the next id; an existing row is overwritten. */
    method Save(key: Option<nat>, a: Address) returns (id: nat)
      requires Valid()
      requires key.Some? ==> key.value in addresses
      modifies this
      ensures Valid()
      ensures key.Some? ==> id == key.value && nextId == old(nextId)
      ensures key.None? ==> id == old(nextId) && id !in old(addresses) && nextId == old(nextId) + 1
      ensures addresses == SavedAddress(old(addresses), id, a)
    {
      id := if key.Some? then key.value else nextId;
      SaveAddressSound(addresses, id, a);
      if a.isDefault {
        addresses := ClearDefaults(addresses, a.userId, Some(id));
      }
      addresses := addresses[id := a];
      if key.None? {
        nextId := nextId + 1;
      }
    }

    /** AddressViewSet.perform_create: the new address belongs to the requester. */
    method Create(requester: nat, a: Address) returns (id: nat)
      requires Valid()
      modifies this
      ensures Valid()
      ensures id !in old(addresses) && id in addresses && addresses[id] == a.(userId := requester)
      ensures addresses == SavedAddress(old(addresses), id, a.(userId := requester))
    {
      id := Save(None, a.(userId := requester));
    }

    /**
     * AddressViewSet.set_default: a 404 (false) unless the address is the
     * requester's; otherwise every address of the requester loses the flag,
     * then this one is set and saved.
     */
    method SetDefault(requester: nat, key: nat) returns (found: bool)
      requires Valid()
      modifies this
      ensures Valid()
      ensures found <==> key in old(addresses) && old(addresses)[key].userId == requester
      ensures !found ==> addresses == old(addresses)
      ensures found ==> addresses.Keys == old(addresses).Keys && addresses[key].isDefault
      ensures found ==> forall k :: k in addresses && k != key && addresses[k].userId == requester ==> !addresses[k].isDefault
      ensures forall k :: k in old(addresses) ==> addresses[k] == old(addresses)[k].(isDefault := addresses[k].isDefault)
      ensures forall k :: k in old(addresses) && old(addresses)[k].userId != requester ==> addresses[k] == old(addresses)[k]
    {
      if !(key in addresses && addresses[key].userId == requester) {
        return false;
      }
      SetDefaultTable(addresses, requester, key);
      var chosen := addresses[key].(isDefault := true);
      addresses := Undefaulted(addresses, requester);
      var _ := Save(Some(key), chosen);
      found := true;
    }

    /** AddressViewSet.get_queryset: the requester's addresses, defaults first, then by descending id. */
    method List(requester: nat) returns (r: seq<nat>)
      requires Valid()
      ensures Distinct(r)
      ensures forall k :: k in r <==> k in addresses && addresses[k].userId == requester
      ensures forall i, j :: 0 <= i < j < |r| ==> ListedBefore(addresses, r[i], r[j])
    {
      var defaults := NewestFirst(requester, true);
      var others := NewestFirst(requester, false);
      r := defaults + others;
      forall i, j | 0 <= i < j < |r|
        ensures r[i] != r[j] && ListedBefore(addresses, r[i], r[j])
      {
        if j < |defaults| {
          assert defaults[i] > defaults[j];
        } else if i >= |defaults| {
          assert others[i - |defaults|] > others[j - |defaults|];
        } else {
          assert r[i] in defaults && r[j] in others;
        }
      }
    }

    /** The requester's addresses whose flag is `isDefault`, by descending id. */
    method NewestFirst(requester: nat, isDefault: bool) returns (r: seq<nat>)
      requires Valid()
      ensures forall k :: k in r <==> k in addresses && addresses[k].userId == requester && addresses[k].isDefault == isDefault
      ensures forall i, j :: 0 <= i < j < |r| ==> r[i] > r[j]
    {
      r := [];
      var n := nextId;
      while n > 0
        invariant 0 <= n <= nextId
        invariant forall k :: k in r <==>
          (n <= k && k in addresses && addresses[k].userId == requester && addresses[k].isDefault == isDefault)
        invariant forall i, j :: 0 <= i < j < |r| ==> r[i] > r[j]
        invariant forall i :: 0 <= i < |r| ==> r[i] >= n
      {
        n := n - 1;
        if n in addresses && addresses[n].userId == requester && addresses[n].isDefault == isDefault {
          r := r + [n];
        }
      }
    }
  }
}
