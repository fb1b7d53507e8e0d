/**
 * The sign-in form's validation schema: a phone of at least 10 characters made only of
 * digits, and a password of at least 6 characters. Every failing check is reported, in
 * schema order.
 */
module LoginForm {

  const PhoneTooShort := "Enter a valid mobile number"
  const PhoneNotDigits := "Only digits allowed"
  const PasswordTooShort := "Password must be at least 6 characters"

  datatype FormField = Phone | Password

  datatype Issue = Issue(path: FormField, message: string)

  /** How many UTF-16 code units encode `c` — what a JavaScript string's `length` counts. */
  function CodeUnits(c: char): nat
  {
    if c as int > 0xFFFF then 2 else 1
  }

  /** `s.length`: the UTF-16 length, at least one unit per character. */
  function Utf16Length(s: string): (r: nat)
    ensures r >= |s|
    ensures (forall i :: 0 <= i < |s| ==> s[i] as int <= 0xFFFF) ==> r == |s|
  {
    if s == [] then 0 else CodeUnits(s[0]) + Utf16Length(s[1..])
  }

  predicate IsDigit(c: char)
  {
    '0' <= c <= '9'
  }

  /** `/^[0-9]+$/.test(s)`: non-empty and nothing but ASCII digits. */
  predicate DigitsOnly(s: string)
  {
    |s| > 0 && forall i :: 0 <= i < |s| ==> IsDigit(s[i])
  }

  /** The schema's `safeParse` on the two form values: the issues of the phone checks,
      then that of the password check. */
  function Validate(phone: string, password: string): (r: seq<Issue>)
    ensures Issue(Phone, PhoneTooShort) in r <==> Utf16Length(phone) < 10
    ensures Issue(Phone, PhoneNotDigits) in r <==> !DigitsOnly(phone)
    ensures Issue(Password, PasswordTooShort) in r <==> Utf16Length(password) < 6
    ensures |r| <= 3
  {
    (if Utf16Length(phone) < 10 then [Issue(Phone, PhoneTooShort)] else [])
    + (if !DigitsOnly(phone) then [Issue(Phone, PhoneNotDigits)] else [])
    + (if Utf16Length(password) < 6 then [Issue(Password, PasswordTooShort)] else [])
  }

  /** The form is accepted exactly for at least ten ASCII digits and a password of at
      least six characters. */
  lemma AcceptedExactly(phone: string, password: string)
    ensures Validate(phone, password) == [] <==> |phone| >= 10 && DigitsOnly(phone) && Utf16Length(password) >= 6
  {
    if DigitsOnly(phone) {
      assert forall i :: 0 <= i < |phone| ==> phone[i] as int <= 0xFFFF;
    }
    if Validate(phone, password) == [] {
      assert Issue(Phone, PhoneNotDigits) !in Validate(phone, password);
    }
  }

  /** The blank defaults the form starts with do not validate, and fail all three checks. */
  lemma DefaultsRejected()
    ensures Validate("", "") == [Issue(Phone, PhoneTooShort), Issue(Phone, PhoneNotDigits), Issue(Password, PasswordTooShort)]
  {
  }

  lemma ExampleAccepted()
    ensures Validate("01711111111", "secret1") == []
  {
    var phone := "01711111111";
    var password := "secret1";
    assert |phone| >= 10 by {
      assert |phone| == 11;
    }
    assert DigitsOnly(phone) by {
      forall i | 0 <= i < |phone| ensures IsDigit(phone[i]) {
      }
    }
    assert Utf16Length(password) >= 6 by {
      assert |password| == 7;
    }
    AcceptedExactly(phone, password);
  }
}
