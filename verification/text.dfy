/** Character classes and string helpers shared by the browser scripts, which follow
    ECMAScript, and the backend, which follows java.lang. The two disagree on what counts
    as white space, so both are defined here. */
module Text {

  /** ECMAScript WhiteSpace or LineTerminator: the class `\s` matches in a regular
      expression and the characters String.prototype.trim removes. */
  predicate IsJsSpace(c: char) {
    var n := c as int;
    n == 0x09 || n == 0x0A || n == 0x0B || n == 0x0C || n == 0x0D || n == 0x20
    || n == 0xA0 || n == 0x1680 || (0x2000 <= n <= 0x200A) || n == 0x2028 || n == 0x2029
    || n == 0x202F || n == 0x205F || n == 0x3000 || n == 0xFEFF
  }

  /** java.lang.Character.isWhitespace: the Unicode space, line and paragraph separators
      except the three non-breaking ones, plus the ASCII controls 0x09-0x0D and 0x1C-0x1F. */
  predicate IsJavaSpace(c: char) {
    var n := c as int;
    (0x09 <= n <= 0x0D) || (0x1C <= n <= 0x1F) || n == 0x20 || n == 0x1680
    || (0x2000 <= n <= 0x2006) || (0x2008 <= n <= 0x200A) || n == 0x2028 || n == 0x2029
    || n == 0x205F || n == 0x3000
  }

  /** java.lang.String.isBlank: empty, or white space only. What the backend calls blank
      the browser also reads as white space, apart from the four separator controls
      0x1C-0x1F, which only Java counts. */
  function IsBlank(s: string): (blank: bool)
    ensures |s| == 0 ==> blank
    ensures blank ==> forall k :: 0 <= k < |s| ==> IsJsSpace(s[k]) || 0x1C <= s[k] as int <= 0x1F
  {
    forall i :: 0 <= i < |s| ==> IsJavaSpace(s[i])
  }

  /** A no-break space is blank to the browser but not to the backend. */
  lemma NoBreakSpaceIsBlankOnlyInBrowser()
    ensures !IsBlank("\U{00A0}")
    ensures IsJsSpace('\U{00A0}')
  {
    assert "\U{00A0}"[0] == '\U{00A0}';
  }

  /** Leading white space removed (the first half of String.prototype.trim). */
  function TrimStart(s: string): (r: string)
    ensures |r| <= |s| && r == s[|s| - |r|..]
    ensures forall k :: 0 <= k < |s| - |r| ==> IsJsSpace(s[k])
    ensures |r| > 0 ==> !IsJsSpace(r[0])
  {
    if |s| > 0 && IsJsSpace(s[0]) then TrimStart(s[1..]) else s
  }

  /** Trailing white space removed (the second half of String.prototype.trim). */
  function TrimEnd(s: string): (r: string)
    ensures |r| <= |s| && r == s[..|r|]
    ensures forall k :: |r| <= k < |s| ==> IsJsSpace(s[k])
    ensures |r| > 0 ==> !IsJsSpace(r[|r| - 1])
  {
    if |s| > 0 && IsJsSpace(s[|s| - 1]) then TrimEnd(s[..|s| - 1]) else s
  }

  /** How many white space characters String.prototype.trim drops from the front. */
  function LeadingSpaces(s: string): (n: nat)
    ensures n <= |s|
  {
    |s| - |TrimStart(s)|
  }

  /** String.prototype.trim: the result is the piece of `s` that starts after its leading
      white space, everything around that piece is white space, and the piece neither
      starts nor ends with white space. */
  function Trim(s: string): (r: string)
    ensures LeadingSpaces(s) + |r| <= |s|
    ensures r == s[LeadingSpaces(s)..LeadingSpaces(s) + |r|]
    ensures forall k :: 0 <= k < LeadingSpaces(s) ==> IsJsSpace(s[k])
    ensures forall k :: LeadingSpaces(s) + |r| <= k < |s| ==> IsJsSpace(s[k])
    ensures |r| > 0 ==> !IsJsSpace(r[0]) && !IsJsSpace(r[|r| - 1])
  {
    var t := TrimStart(s);
    var r := TrimEnd(t);
    var i := |s| - |t|;
    assert s[i..] == t;
    assert r == s[i..i + |r|];
    r
  }

  /** Trimming an already trimmed string changes nothing. */
  lemma TrimIdempotent(s: string)
    ensures Trim(Trim(s)) == Trim(s)
  {
    var t := Trim(s);
    if |t| > 0 {
      TrimOfTrimmed(t);
    }
  }

  /** A string that neither starts nor ends with white space is its own trim. */
  lemma TrimOfTrimmed(t: string)
    requires |t| > 0 ==> !IsJsSpace(t[0]) && !IsJsSpace(t[|t| - 1])
    ensures Trim(t) == t
  {
    assert TrimStart(t) == t;
    assert TrimEnd(t) == t;
  }

  /** Leading white space in front of a string that does not itself start with white
      space is exactly what TrimStart removes. */
  lemma {:induction false} TrimStartSkipsPadding(pad: string, t: string)
    requires forall k :: 0 <= k < |pad| ==> IsJsSpace(pad[k])
    requires |t| > 0 ==> !IsJsSpace(t[0])
    ensures TrimStart(pad + t) == t
  {
    if |pad| > 0 {
      assert (pad + t)[1..] == pad[1..] + t;
      TrimStartSkipsPadding(pad[1..], t);
    } else {
      assert pad + t == t;
    }
  }

  /** Trailing white space behind a string that does not itself end with white space is
      exactly what TrimEnd removes. */
  lemma {:induction false} TrimEndSkipsPadding(t: string, pad: string)
    requires forall k :: 0 <= k < |pad| ==> IsJsSpace(pad[k])
    requires |t| > 0 ==> !IsJsSpace(t[|t| - 1])
    ensures TrimEnd(t + pad) == t
  {
    if |pad| > 0 {
      var p := pad[..|pad| - 1];
      assert (t + pad)[..|t + pad| - 1] == t + p;
      TrimEndSkipsPadding(t, p);
    } else {
      assert t + pad == t;
    }
  }

  /** Surrounding a trimmed, non-empty string with white space does not change its trim:
      the browser reads the same text whatever indentation the page puts around it. */
  lemma TrimRemovesPadding(pre: string, t: string, post: string)
    requires forall k :: 0 <= k < |pre| ==> IsJsSpace(pre[k])
    requires forall k :: 0 <= k < |post| ==> IsJsSpace(post[k])
    requires |t| > 0 && !IsJsSpace(t[0]) && !IsJsSpace(t[|t| - 1])
    ensures Trim(pre + t + post) == t
  {
    assert pre + t + post == pre + (t + post);
    TrimStartSkipsPadding(pre, t + post);
    TrimEndSkipsPadding(t, post);
  }

  /** `s.replace(/\s/g, '')`: every white space character removed, the others kept in order. */
  function RemoveSpaces(s: string): (r: string)
    ensures |r| <= |s|
    ensures forall k :: 0 <= k < |r| ==> !IsJsSpace(r[k])
    ensures (forall k :: 0 <= k < |s| ==> !IsJsSpace(s[k])) ==> r == s
    ensures multiset(r) <= multiset(s)
  {
    if |s| == 0 then ""
    else
      assert s == [s[0]] + s[1..];
      (if IsJsSpace(s[0]) then "" else [s[0]]) + RemoveSpaces(s[1..])
  }

  /** Removing white space piecewise is removing it from the whole. */
  lemma {:induction false} RemoveSpacesAppend(a: string, b: string)
    ensures RemoveSpaces(a + b) == RemoveSpaces(a) + RemoveSpaces(b)
  {
    if |a| > 0 {
      var head := if IsJsSpace(a[0]) then "" else [a[0]];
      assert (a + b)[0] == a[0];
      assert (a + b)[1..] == a[1..] + b;
      assert RemoveSpaces(a + b) == head + RemoveSpaces(a[1..] + b);
      RemoveSpacesAppend(a[1..], b);
      assert RemoveSpaces(a) == head + RemoveSpaces(a[1..]);
    } else {
      assert a + b == b;
    }
  }

  predicate IsDigit(c: char) {
    '0' <= c <= '9'
  }

  predicate IsDigits(s: string) {
    forall i :: 0 <= i < |s| ==> IsDigit(s[i])
  }

  function DigitChar(d: nat): (c: char)
    requires d < 10
    ensures IsDigit(c) && c as int - '0' as int == d
  {
    ('0' as int + d) as char
  }

  /** `n.toString()` and `${n}` for a non-negative integer: decimal digits, most
      significant first, with no leading zero. */
  function NatToString(n: nat): (r: string)
    ensures |r| >= 1 && IsDigits(r)
    ensures |r| > 1 ==> r[0] != '0'
    ensures n < 10 <==> |r| == 1
  {
    if n < 10 then [DigitChar(n)]
    else NatToString(n / 10) + [DigitChar(n % 10)]
  }

  /** The value of a string of decimal digits. */
  function DigitsValue(s: string): (v: nat)
    requires IsDigits(s)
  {
    if |s| == 0 then 0
    else DigitsValue(s[..|s| - 1]) * 10 + (s[|s| - 1] as int - '0' as int)
  }

  /** Reading back what NatToString wrote gives the number it was written from, so
      distinct counts are always rendered differently. */
  lemma {:induction false} NatToStringRoundTrip(n: nat)
    ensures DigitsValue(NatToString(n)) == n
  {
    if n >= 10 {
      var s := NatToString(n);
      assert s[..|s| - 1] == NatToString(n / 10);
      NatToStringRoundTrip(n / 10);
    }
  }

  lemma NatToStringInjective(a: nat, b: nat)
    ensures NatToString(a) == NatToString(b) ==> a == b
  {
    NatToStringRoundTrip(a);
    NatToStringRoundTrip(b);
  }
}
