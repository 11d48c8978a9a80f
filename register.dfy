/** The registration form (frontend/src/pages/Register.js): the form fields,
    and the checks `handleSubmit` runs before it starts the (simulated)
    registration. */
module Register {
  import opened Common

  const MismatchError: string := "两次输入的密码不匹配"
  const TooShortError: string := "密码长度至少为6个字符"
  const MinPasswordLength: nat := 6

  /** `s.length`: JavaScript counts UTF-16 code units, two for a character
      outside the Basic Multilingual Plane. */
  function Utf16Length(s: string): (n: nat)
    ensures n >= |s|
    ensures (forall k :: 0 <= k < |s| ==> s[k] as int <= 0xFFFF) ==> n == |s|
    ensures n <= 2 * |s|
  {
    if s == [] then 0
    else Utf16Length(s[..|s| - 1]) + (if s[|s| - 1] as int > 0xFFFF then 2 else 1)
  }

  /** The error `handleSubmit` reports, if any: the mismatch is checked first. */
  function PasswordError(password: string, confirmPassword: string): (e: Option<string>)
    ensures e == Some(MismatchError) <==> password != confirmPassword
    ensures e == Some(TooShortError) <==> password == confirmPassword && Utf16Length(password) < MinPasswordLength
    ensures e.None? <==> password == confirmPassword && Utf16Length(password) >= MinPasswordLength
  {
    if password != confirmPassword then Some(MismatchError)
    else if Utf16Length(password) < MinPasswordLength then Some(TooShortError)
    else None
  }

  /** Five BMP characters are too short even when both fields agree. */
  lemma ShortPasswordRejected(password: string)
    requires |password| < MinPasswordLength
    requires forall k :: 0 <= k < |password| ==> password[k] as int <= 0xFFFF
    ensures PasswordError(password, password) == Some(TooShortError)
  {
  }

  /** Three characters outside the BMP already make six code units. */
  lemma AstralCharactersCountTwice(password: string)
    requires |password| == 3
    requires forall k :: 0 <= k < |password| ==> password[k] as int > 0xFFFF
    ensures PasswordError(password, password).None?
  {
    var p1, p2 := password[..1], password[..2];
    assert p2[..1] == p1 && p1[..0] == [];
    assert Utf16Length(p1) == 2;
    assert Utf16Length(p2) == 4;
    assert password[..2] == password[..|password| - 1];
  }

  /** The form's fields, its error line and its loading flag. */
  class RegisterPage {
    var name: string
    var email: string
    var password: string
    var confirmPassword: string
    var error: string
    var loading: bool

    /** The initial state: empty fields, no error, not loading. */
    constructor ()
      ensures name == "" && email == "" && password == "" && confirmPassword == ""
      ensures error == "" && !loading
    {
      name, email, password, confirmPassword := "", "", "", "";
      error, loading := "", false;
    }

    /** `handleChange` for the input named `field`; other names change nothing. */
    method HandleChange(field: string, value: string)
      modifies this
      ensures name == (if field == "name" then value else old(name))
      ensures email == (if field == "email" then value else old(email))
      ensures password == (if field == "password" then value else old(password))
      ensures confirmPassword == (if field == "confirmPassword" then value else old(confirmPassword))
      ensures error == old(error) && loading == old(loading)
    {
      if field == "name" {
        name := value;
      } else if field == "email" {
        email := value;
      } else if field == "password" {
        password := value;
      } else if field == "confirmPassword" {
        confirmPassword := value;
      }
    }

    /** `handleSubmit` up to the simulated request: the error is cleared, then
        set by the first failing check; loading starts only when both pass. */
    method HandleSubmit()
      modifies this
      ensures error == PasswordError(password, confirmPassword).GetOr("")
      ensures loading == (PasswordError(password, confirmPassword).None? || old(loading))
      ensures name == old(name) && email == old(email)
      ensures password == old(password) && confirmPassword == old(confirmPassword)
    {
      error := "";
      if password != confirmPassword {
        error := MismatchError;
        return;
      }
      if Utf16Length(password) < MinPasswordLength {
        error := TooShortError;
        return;
      }
      loading := true;
    }
  }
}
