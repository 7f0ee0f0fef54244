/**
 * The sign-up form's schema (registerSchema): the field rules, the terms
 * check box, and the refinement that the two passwords agree, together with
 * the paths the sign-up form shows messages under.
 */
module RegisterSchema {
  import opened Wrappers
  import opened Seqs
  import Users

  /**
   * The form's values. `emailWellFormed` is zod's e-mail check on `email`,
   * whose pattern this model does not restate.
   */
  datatype RegisterInput = RegisterInput(
    username: string, firstName: string, lastName: string, email: string, emailWellFormed: bool,
    phone: Option<string>, password: string, password2: string, terms: bool)

  /**
   * The paths an issue can be reported under: the form's fields and
   * `confirm_password`, which names no field of this form.
   */
  datatype IssuePath = Username | FirstName | LastName | Email | Phone | Password | Password2 | Terms
                     | ConfirmPassword

  function Path(p: IssuePath): string
  {
    match p
    case Username => "username"
    case FirstName => "first_name"
    case LastName => "last_name"
    case Email => "email"
    case Phone => "phone"
    case Password => "password"
    case Password2 => "password2"
    case Terms => "terms"
    case ConfirmPassword => "confirm_password"
  }

  /** The fields with a rule, in the schema's declaration order (phone is optional and has none). */
  const RuledFields: seq<IssuePath> := [Username, FirstName, LastName, Email, Password, Terms]

  /** The paths under which the sign-up form prints a message. */
  const ShownPaths: set<IssuePath> := {FirstName, LastName, Username, Email, Phone, Password, Password2, Terms}

  predicate Fails(f: RegisterInput, p: IssuePath)
  {
    match p
    case Username => |f.username| < 3
    case FirstName => |f.firstName| < 2
    case LastName => |f.lastName| < 2
    case Email => !f.emailWellFormed
    case Password => |f.password| < 8
    case Terms => !f.terms
    case _ => false
  }

  /** Every rule of the schema holds, the passwords' agreement included. */
  predicate RegisterAccepted(f: RegisterInput)
  {
    |f.username| >= 3 && |f.firstName| >= 2 && |f.lastName| >= 2 && f.emailWellFormed
    && |f.password| >= 8 && f.terms && f.password == f.password2
  }

  /** The fields whose rule fails, in the schema's order. */
  function FailingFields(f: RegisterInput): (r: seq<IssuePath>)
    ensures forall p :: p in r <==> Fails(f, p)
  {
    RuledFieldsCover(f);
    Select(RuledFields, p => Fails(f, p))
  }

  /** Only the listed fields have a rule. */
  lemma RuledFieldsCover(f: RegisterInput)
    ensures forall p :: Fails(f, p) ==> p in RuledFields
  {
    forall p | Fails(f, p)
      ensures p in RuledFields
    {
      var k := match p
        case Username => 0 case FirstName => 1 case LastName => 2 case Email => 3
        case Password => 4 case _ => 5;
      assert RuledFields[k] == p;
    }
  }

  lemma NoFailingIff(f: RegisterInput)
    ensures FailingFields(f) == [] <==>
      |f.username| >= 3 && |f.firstName| >= 2 && |f.lastName| >= 2 && f.emailWellFormed && |f.password| >= 8 && f.terms
  {
    var failing := FailingFields(f);
    if failing == [] {
      assert !Fails(f, Username) && !Fails(f, FirstName) && !Fails(f, LastName);
      assert !Fails(f, Email) && !Fails(f, Password) && !Fails(f, Terms);
    } else {
      assert Fails(f, failing[0]);
    }
  }

  /**
   * The issues of a parse: the failing fields in order, then, when the
   * passwords differ, the refinement's issue under `mismatchPath`. The
   * refinement runs alongside the field checks because every field is
   * present with its type.
   */
  function RegisterIssues(f: RegisterInput, mismatchPath: IssuePath): (issues: seq<IssuePath>)
    ensures issues == [] <==> RegisterAccepted(f)
    ensures forall p :: p in issues <==> Fails(f, p) || (p == mismatchPath && f.password != f.password2)
  {
    NoFailingIff(f);
    FailingFields(f) + (if f.password != f.password2 then [mismatchPath] else [])
  }

  /** registerSchema as written: the mismatch is reported under `confirm_password`. */
  function RegisterIssuesAsWritten(f: RegisterInput): (issues: seq<IssuePath>)
    ensures issues == [] <==> RegisterAccepted(f)
    ensures ConfirmPassword in issues <==> f.password != f.password2
  {
    RegisterIssues(f, ConfirmPassword)
  }

  /** registerSchema with the mismatch reported under the confirmation field the form has, `password2`. */
  function RegisterIssuesCorrected(f: RegisterInput): (issues: seq<IssuePath>)
    ensures issues == [] <==> RegisterAccepted(f)
    ensures Password2 in issues <==> f.password != f.password2
    ensures forall p :: p in issues ==> p in ShownPaths
  {
    RegisterIssues(f, Password2)
  }

  /**
   * As written, a form whose only fault is a mistyped confirmation is
   * refused, yet its one issue sits under a path the form prints nothing
   * for: the visitor's submit does nothing and no message says why.
   */
  lemma MismatchMessageHidden()
    ensures var f := RegisterInput("sara", "Sara", "Rahimi", "sara@example.com", true, None, "secret123", "secret124", true);
      && RegisterIssuesAsWritten(f) == [ConfirmPassword]
      && ConfirmPassword !in ShownPaths
      && RegisterIssuesCorrected(f) == [Password2] && Password2 in ShownPaths
  {
    var f := RegisterInput("sara", "Sara", "Rahimi", "sara@example.com", true, None, "secret123", "secret124", true);
    assert f.password != f.password2 by { assert f.password[8] != f.password2[8]; }
    assert |f.username| == 4 && |f.firstName| == 4 && |f.lastName| == 6 && |f.password| == 9;
    NoFailingIff(f);
    assert FailingFields(f) == [];
    assert RegisterIssues(f, ConfirmPassword) == [ConfirmPassword];
    assert RegisterIssues(f, Password2) == [Password2];
  }

  /** What the sign-up page posts: every text field as typed, the phone only when registered. */
  function Submitted(f: RegisterInput): (r: Users.Registration)
    ensures r.username == f.username && r.password == f.password && r.password2 == f.password2
    ensures r.phone.Present? <==> f.phone.Some?
  {
    Users.Registration(f.username, Present(f.email), f.password, f.password2,
                       if f.phone.Some? then Present(f.phone.value) else Absent,
                       Present(f.firstName), Present(f.lastName))
  }

  /**
   * A form the schema accepts never meets the back end's password-mismatch
   * refusal: it is registered exactly when the serializer's field checks pass.
   */
  lemma AcceptedFormPassesMismatchCheck(f: RegisterInput, users: map<nat, Users.User>,
                                        usernameWellFormed: bool, emailWellFormed: bool, passwordAccepted: bool)
    requires RegisterAccepted(f)
    ensures Users.CheckRegistration(Submitted(f), users, usernameWellFormed, emailWellFormed, passwordAccepted).Accepted?
        <==> Users.RegistrationErrors(Submitted(f), users, usernameWellFormed, emailWellFormed, passwordAccepted) == []
  {
  }
}
