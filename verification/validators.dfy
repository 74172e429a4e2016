/** The profile form's validators: the email and phone regular expressions, read as
    character-level predicates, and the rule that decides when a field shows an error. */
module Validators {
  import opened Wrappers
  import opened Text

  /** `[^\s@]`: any character other than white space and '@'. */
  predicate IsAddressChar(c: char) {
    c != '@' && !IsJsSpace(c)
  }

  /** A reading of `/^[^\s@]+@[^\s@]+\.[^\s@]+$/` straight off the pattern: an '@' with
      at least one character before it, a '.' with at least one character between it and
      the '@' and at least one after it, and every other character outside `[\s@]`.
      ('.' is itself in `[^\s@]`, so the dot needs no exception.) */
  ghost predicate MatchesEmailPattern(s: string) {
    exists at, dot :: 0 < at && at + 1 < dot && dot + 1 < |s| && s[at] == '@' && s[dot] == '.'
      && (forall k :: 0 <= k < |s| && k != at ==> IsAddressChar(s[k]))
  }

  /** The position of the first occurrence of `c`. */
  function IndexOf(s: string, c: char): (r: Option<nat>)
    ensures r.Some? ==> r.value < |s| && s[r.value] == c
    ensures r.Some? ==> forall k :: 0 <= k < r.value ==> s[k] != c
    ensures r.None? <==> forall k :: 0 <= k < |s| ==> s[k] != c
  {
    if |s| == 0 then None
    else if s[0] == c then Some(0)
    else match IndexOf(s[1..], c)
      case None => None
      case Some(i) => Some(i + 1)
  }

  predicate AllAddressChars(s: string) {
    forall k :: 0 <= k < |s| ==> IsAddressChar(s[k])
  }

  /** The scan `validateEmail` amounts to: split at the first '@'; the part before must
      be non-empty, and the part after must hold no further '@' nor white space and have
      a '.' with a character on each side of it. */
  function ScanEmail(s: string): (ok: bool) {
    match IndexOf(s, '@')
    case None => false
    case Some(at) =>
      var domain := s[at + 1..];
      && at > 0
      && AllAddressChars(s[..at])
      && AllAddressChars(domain)
      && |domain| >= 3 && '.' in domain[1..|domain| - 1]
  }

  /** Whatever the scan accepts matches the pattern: the first '@' and a '.' inside the
      domain are the two positions the pattern asks for. */
  lemma ScanEmailIsSound(s: string)
    requires ScanEmail(s)
    ensures MatchesEmailPattern(s)
  {
    var at := IndexOf(s, '@').value;
    var domain := s[at + 1..];
    var inner := domain[1..|domain| - 1];
    var j :| 0 <= j < |inner| && inner[j] == '.';
    var dot := at + 2 + j;
    assert s[dot] == '.';
    forall k | 0 <= k < |s| && k != at
      ensures IsAddressChar(s[k])
    {
      if k < at {
        assert s[k] == s[..at][k];
      } else {
        assert s[k] == domain[k - at - 1];
      }
    }
  }

  /** Whatever matches the pattern the scan accepts: the pattern's '@' is the only one,
      so it is the first. */
  lemma ScanEmailIsComplete(s: string)
    requires MatchesEmailPattern(s)
    ensures ScanEmail(s)
  {
    var at, dot :| 0 < at && at + 1 < dot && dot + 1 < |s| && s[at] == '@' && s[dot] == '.'
      && (forall k :: 0 <= k < |s| && k != at ==> IsAddressChar(s[k]));
    assert IndexOf(s, '@') == Some(at);
    var domain := s[at + 1..];
    assert AllAddressChars(s[..at]) by {
      forall k | 0 <= k < at ensures IsAddressChar(s[..at][k]) {
        assert s[..at][k] == s[k];
      }
    }
    assert AllAddressChars(domain) by {
      forall k | 0 <= k < |domain| ensures IsAddressChar(domain[k]) {
        assert domain[k] == s[at + 1 + k];
      }
    }
    assert domain[1..|domain| - 1][dot - at - 2] == '.';
  }

  /** The scan accepts exactly the strings the pattern matches. */
  lemma ScanEmailMatchesPattern(s: string)
    ensures ScanEmail(s) <==> MatchesEmailPattern(s)
  {
    if ScanEmail(s) {
      ScanEmailIsSound(s);
    }
    if MatchesEmailPattern(s) {
      ScanEmailIsComplete(s);
    }
  }

  /** `validateEmail`: the scan, which accepts exactly what the pattern matches. */
  function ValidateEmail(s: string): (ok: bool)
    ensures ok <==> MatchesEmailPattern(s)
  {
    ScanEmailMatchesPattern(s);
    ScanEmail(s)
  }

  /** Exactly one '@' is allowed: a second one anywhere is rejected. */
  lemma EmailHasOneAt(s: string, i: nat, j: nat)
    requires i < j < |s| && s[i] == '@' && s[j] == '@'
    ensures !ValidateEmail(s)
  {
  }

  /** White space anywhere is rejected. */
  lemma EmailHasNoSpace(s: string, i: nat)
    requires i < |s| && IsJsSpace(s[i])
    ensures !ValidateEmail(s)
  {
  }

  /** A short well-formed address is accepted. */
  lemma EmailAcceptsAddress()
    ensures ValidateEmail("a@b.co")
  {
    var s := "a@b.co";
    assert IndexOf(s, '@') == Some(1);
    assert s[2..] == "b.co";
    assert "b.co"[1..3][0] == '.';
  }

  /** An address without a dot after the '@' is refused. */
  lemma EmailRefusesMissingDot()
    ensures !ValidateEmail("ann@site")
  {
    var s := "ann@site";
    assert IndexOf(s, '@') == Some(3) by {
      assert s[0] != '@' && s[1] != '@' && s[2] != '@' && s[3] == '@';
    }
    var domain := s[4..];
    assert domain[1..|domain| - 1] == "it";
  }

  /** An address with nothing before the '@' is refused. */
  lemma EmailRefusesEmptyLocalPart()
    ensures !ValidateEmail("@example.com")
  {
    assert IndexOf("@example.com", '@') == Some(0);
  }

  /** `[1-9][\d]{0,15}`: a non-zero leading digit and at most sixteen digits in all. */
  predicate IsPhoneNumber(t: string) {
    && 1 <= |t| <= 16
    && '1' <= t[0] <= '9'
    && forall k :: 0 <= k < |t| ==> IsDigit(t[k])
  }

  /** A reading of `/^[\+]?[1-9][\d]{0,15}$/` off the pattern: the number alone, or a
      '+' followed by it. */
  ghost predicate MatchesPhonePattern(t: string) {
    IsPhoneNumber(t) || (|t| > 0 && t[0] == '+' && IsPhoneNumber(t[1..]))
  }

  /** `validatePhone`: white space is removed first; then a leading '+' is skipped and
      what remains must be the number. */
  function ValidatePhone(s: string): (ok: bool)
    ensures ok <==> MatchesPhonePattern(RemoveSpaces(s))
    ensures ok ==> 1 <= |RemoveSpaces(s)| <= 17
  {
    var t := RemoveSpaces(s);
    if |t| > 0 && t[0] == '+' then IsPhoneNumber(t[1..]) else IsPhoneNumber(t)
  }

  /** Spaces anywhere in the input do not matter: a number written in groups is valid
      exactly when the groups run together are. */
  lemma PhoneIgnoresGrouping(a: string, b: string)
    requires forall k :: 0 <= k < |a| ==> !IsJsSpace(a[k])
    requires forall k :: 0 <= k < |b| ==> !IsJsSpace(b[k])
    ensures ValidatePhone(a + " " + b) == ValidatePhone(a + b)
  {
    assert a + " " + b == (a + " ") + b;
    RemoveSpacesAppend(a + " ", b);
    RemoveSpacesAppend(a, " ");
    assert RemoveSpaces(" ") == "" by { assert IsJsSpace(" "[0]); }
    assert a + "" == a;
    RemoveSpacesAppend(a, b);
    assert RemoveSpaces(a + " " + b) == RemoveSpaces(a + b);
  }

  /** The number of digits a valid phone number carries is between 1 and 16. */
  lemma PhoneDigitCount(s: string)
    requires ValidatePhone(s)
    ensures var t := RemoveSpaces(s);
            var digits := if t[0] == '+' then t[1..] else t;
            1 <= |digits| <= 16 && forall k :: 0 <= k < |digits| ==> IsDigit(digits[k])
  {
  }

  /** An international number is accepted. */
  lemma PhoneAcceptsInternational()
    ensures ValidatePhone("+4420")
  {
    assert IsPhoneNumber("4420");
    var t := "+4420";
    assert forall k :: 0 <= k < |t| ==> !IsJsSpace(t[k]);
    assert RemoveSpaces(t) == t;
    assert t[1..] == "4420";
  }

  /** A number with a leading zero is refused. */
  lemma PhoneRefusesLeadingZero()
    ensures !ValidatePhone("020")
  {
    var t := "020";
    assert forall k :: 0 <= k < |t| ==> !IsJsSpace(t[k]);
    assert RemoveSpaces(t) == t;
  }

  /** What `validateField` leaves on the form. */
  datatype FieldCheck = Clear | ShowError(message: string)

  /** The validity test `validateField` applies for an input of the given `type`. */
  function IsValidFor(inputType: string, value: string): (ok: bool) {
    if inputType == "email" then ValidateEmail(value)
    else if inputType == "tel" then ValidatePhone(value)
    else |Trim(value)| > 0
  }

  /** The message `validateField` shows for an input of the given `type`. */
  function ErrorMessageFor(inputType: string): (message: string) {
    if inputType == "email" then "Please enter a valid email address"
    else if inputType == "tel" then "Please enter a valid phone number"
    else "This field is required"
  }

  /** `validateField` for an input inside a `.field` wrapper: any previous error is
      removed, and a new one is shown only for a value that is invalid and not blank.
      An email field errs exactly when the email pattern fails, a tel field exactly when
      the phone pattern fails once white space is removed, and any other field never
      errs, since its only test is the blank check that exempts it. */
  function ValidateField(inputType: string, value: string): (r: FieldCheck)
    ensures inputType == "email" ==>
              (r.ShowError? <==> !MatchesEmailPattern(value) && Trim(value) != "")
    ensures inputType == "tel" ==>
              (r.ShowError? <==> !MatchesPhonePattern(RemoveSpaces(value)) && Trim(value) != "")
    ensures inputType != "email" && inputType != "tel" ==> r == Clear
    ensures inputType == "email" && r.ShowError? ==> r.message == "Please enter a valid email address"
    ensures inputType == "tel" && r.ShowError? ==> r.message == "Please enter a valid phone number"
  {
    if !IsValidFor(inputType, value) && Trim(value) != "" then ShowError(ErrorMessageFor(inputType))
    else Clear
  }

  /** A blank value never shows an error, whatever the input's type. */
  lemma BlankFieldNeverFlagged(inputType: string, value: string)
    requires forall k :: 0 <= k < |value| ==> IsJsSpace(value[k])
    ensures ValidateField(inputType, value) == Clear
  {
  }

  /** For inputs that are neither email nor tel the "required" check and the blank
      exemption cancel out: "This field is required" is never shown. */
  lemma RequiredMessageNeverShown(inputType: string, value: string)
    requires inputType != "email" && inputType != "tel"
    ensures ValidateField(inputType, value) == Clear
  {
  }

  /** A tel field shows its error exactly for a non-blank value whose digits, once white
      space is removed, the phone pattern refuses. */
  lemma TelFieldErrorRule(value: string)
    ensures ValidateField("tel", value).ShowError? <==>
              !MatchesPhonePattern(RemoveSpaces(value)) && Trim(value) != ""
  {
  }

  /** An email field shows its error exactly for a non-blank value the pattern refuses. */
  lemma EmailFieldErrorRule(value: string)
    ensures ValidateField("email", value).ShowError? <==>
              !MatchesEmailPattern(value) && Trim(value) != ""
  {
  }
}
