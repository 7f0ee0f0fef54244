/**
 * The account page's two schemas: the personal-details form
 * (profileFormSchema) and the change-password form (passwordFormSchema),
 * with the paths each form prints messages under.
 */
module ProfileSchemas {
  import opened Wrappers
  import Users

  datatype ProfileInput = ProfileInput(firstName: string, lastName: string, phone: Option<string>, birthDate: Option<string>)

  datatype ProfileField = FirstName | LastName

  /** profileFormSchema's failing fields, in order; phone and birth date are optional and unchecked. */
  function ProfileIssues(f: ProfileInput): (issues: seq<ProfileField>)
    ensures FirstName in issues <==> |f.firstName| < 2
    ensures LastName in issues <==> |f.lastName| < 2
    ensures issues == [] <==> |f.firstName| >= 2 && |f.lastName| >= 2
    ensures |issues| <= 2
  {
    (if |f.firstName| < 2 then [FirstName] else []) + (if |f.lastName| < 2 then [LastName] else [])
  }

  /** Whatever is typed as phone or birth date, the verdict does not change. */
  lemma OptionalFieldsNeverRefused(f: ProfileInput, phone: Option<string>, birthDate: Option<string>)
    ensures ProfileIssues(f.(phone := phone, birthDate := birthDate)) == ProfileIssues(f)
  {
  }

  datatype PasswordInput = PasswordInput(current: string, next: string, confirm: string)

  /** The change-password form's fields; the form prints a message under each of them. */
  datatype PasswordField = CurrentPassword | NewPassword | ConfirmPassword

  /**
   * passwordFormSchema's issues: the failing fields in order, then the
   * refinement's mismatch under `confirm_password`.
   */
  function PasswordIssues(f: PasswordInput): (issues: seq<PasswordField>)
    ensures CurrentPassword in issues <==> f.current == ""
    ensures NewPassword in issues <==> |f.next| < 8
    ensures ConfirmPassword in issues <==> f.next != f.confirm
    ensures issues == [] <==> f.current != "" && |f.next| >= 8 && f.next == f.confirm
    ensures |issues| <= 3
  {
    (if |f.current| < 1 then [CurrentPassword] else [])
    + (if |f.next| < 8 then [NewPassword] else [])
    + (if f.next != f.confirm then [ConfirmPassword] else [])
  }

  /**
   * A form the schema accepts never meets the back end's mismatch refusal:
   * with non-blank passwords, the change goes through exactly when the
   * current password is right and the new one passes the password rules.
   */
  lemma AcceptedChangeMeetsBackEnd(f: PasswordInput, currentMatches: bool, nextAccepted: bool)
    requires PasswordIssues(f) == []
    requires Users.Clean(f.current) != "" && Users.Clean(f.next) != ""
    ensures Users.CheckPasswordChange(f.current, f.next, f.confirm, currentMatches, nextAccepted).Accepted?
        <==> currentMatches && nextAccepted
    ensures Users.CheckPasswordChange(f.current, f.next, f.confirm, currentMatches, nextAccepted) != Rejected(["confirm_password"])
  {
  }
}
