/**
 * The sign-up form's password strength meter: three checks, a score built up
 * from them and a bar colour picked by thresholds on the score.
 */
module PasswordStrength {
  datatype Color = Red | Amber | Green

  datatype Requirements = Requirements(hasLength: bool, hasUppercase: bool, hasNumber: bool, strength: nat, color: Color)

  /** `/[A-Z]/.test(password)`. */
  predicate HasUppercase(password: string) { exists i :: 0 <= i < |password| && 'A' <= password[i] <= 'Z' }

  /** `/\d/.test(password)`: JavaScript's `\d` is the ASCII digits only. */
  predicate HasNumber(password: string) { exists i :: 0 <= i < |password| && '0' <= password[i] <= '9' }

  /** The score's parts: 33 for the length, 33 for an upper-case letter, 34 for a digit. */
  function Score(hasLength: bool, hasUppercase: bool, hasNumber: bool): nat
  {
    (if hasLength then 33 else 0) + (if hasUppercase then 33 else 0) + (if hasNumber then 34 else 0)
  }

  function CountTrue(a: bool, b: bool, c: bool): nat
  {
    (if a then 1 else 0) + (if b then 1 else 0) + (if c then 1 else 0)
  }

  /** The meter's computation: the checks, the score accumulated with `+=`, and the colour reassigned by thresholds. */
  method Measure(password: string) returns (m: Requirements)
    ensures m.hasLength <==> |password| >= 8
    ensures m.hasUppercase <==> HasUppercase(password)
    ensures m.hasNumber <==> HasNumber(password)
    ensures m.strength == Score(m.hasLength, m.hasUppercase, m.hasNumber)
    ensures m.color == Red <==> m.strength <= 60
    ensures m.color == Green <==> m.strength >= 100
  {
    var hasLength := |password| >= 8;
    var hasUppercase := HasUppercase(password);
    var hasNumber := HasNumber(password);
    var strength := 0;
    if hasLength { strength := strength + 33; }
    if hasUppercase { strength := strength + 33; }
    if hasNumber { strength := strength + 34; }
    var color := Red;
    if strength > 60 { color := Amber; }
    if strength >= 100 { color := Green; }
    m := Requirements(hasLength, hasUppercase, hasNumber, strength, color);
  }

  /**
   * The score is one of 0, 33, 34, 66, 67 and 100, it is 100 exactly when all
   * three checks pass, and the colours sort the passwords by how many checks
   * pass: green for three, amber for two, red for one or none.
   */
  lemma ScoreLevels(hasLength: bool, hasUppercase: bool, hasNumber: bool)
    ensures var s := Score(hasLength, hasUppercase, hasNumber);
      && s in {0, 33, 34, 66, 67, 100}
      && (s == 100 <==> hasLength && hasUppercase && hasNumber)
      && (s >= 100 <==> CountTrue(hasLength, hasUppercase, hasNumber) == 3)
      && (60 < s < 100 <==> CountTrue(hasLength, hasUppercase, hasNumber) == 2)
      && (s <= 60 <==> CountTrue(hasLength, hasUppercase, hasNumber) <= 1)
  {
  }

  /** A password of eight characters or more with an upper-case letter and a digit gets the full green bar. */
  lemma StrongPasswordIsGreen(password: string, u: nat, d: nat)
    requires |password| >= 8 && u < |password| && d < |password|
    requires 'A' <= password[u] <= 'Z' && '0' <= password[d] <= '9'
    ensures Score(|password| >= 8, HasUppercase(password), HasNumber(password)) == 100
  {
    assert HasUppercase(password);
    assert HasNumber(password);
  }
}
