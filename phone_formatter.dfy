/** The phone-number helpers: keep only the digits of a string, lay out
    Brazilian 10- and 11-digit numbers for display, check the digit count,
    and decide whether a key press is refused in a phone input. */
module PhoneFormatter {
  import opened Chars

  /** `phone.replace(/\D/g, '')`: every non-digit removed, digits kept in order. */
  function Sanitize(phone: string): (r: string)
    ensures AllDigits(r)
    ensures |r| <= |phone|
  {
    if phone == [] then []
    else (if IsDigit(phone[0]) then [phone[0]] else []) + Sanitize(phone[1..])
  }

  /** Display form: `(DD) DDDDD-DDDD` for 11 digits, `(DD) DDDD-DDDD` for 10,
      otherwise the bare digits. */
  function FormatDisplay(phone: string): (r: string)
    ensures var d := Sanitize(phone);
      |d| == 11 ==>
        |r| == 15 && r[0] == '(' && r[1..3] == d[..2] && r[3] == ')' && r[4] == ' '
        && r[5..10] == d[2..7] && r[10] == '-' && r[11..] == d[7..]
    ensures var d := Sanitize(phone);
      |d| == 10 ==>
        |r| == 14 && r[0] == '(' && r[1..3] == d[..2] && r[3] == ')' && r[4] == ' '
        && r[5..9] == d[2..6] && r[9] == '-' && r[10..] == d[6..]
    ensures var d := Sanitize(phone); |d| != 10 && |d| != 11 ==> r == d
  {
    var cleaned := Sanitize(phone);
    if |cleaned| == 11 then
      "(" + cleaned[..2] + ") " + cleaned[2..7] + "-" + cleaned[7..]
    else if |cleaned| == 10 then
      "(" + cleaned[..2] + ") " + cleaned[2..6] + "-" + cleaned[6..]
    else
      cleaned
  }

  /** A phone number is valid when it has between 10 and 20 digits. */
  predicate Validate(phone: string): (r: bool)
    ensures r <==> 10 <= |Sanitize(phone)| <= 20
    ensures r ==> |phone| >= 10
  {
    var cleaned := Sanitize(phone);
    10 <= |cleaned| <= 20
  }

  /** The keys a phone input lets through even though they carry no digit. */
  const AllowedKeys: seq<string> := ["Backspace", "Delete", "ArrowLeft", "ArrowRight", "Tab"]

  /** `/[0-9]/.test(key)`: some character of the key name is a digit. */
  predicate HasDigit(key: string) {
    exists i :: 0 <= i < |key| && IsDigit(key[i])
  }

  /** The key press is refused (`preventDefault` is called). */
  predicate KeyBlocked(key: string): (r: bool)
    ensures r <==> (forall i :: 0 <= i < |key| ==> !IsDigit(key[i])) && key !in AllowedKeys
  {
    !HasDigit(key) && key !in AllowedKeys
  }

  // ---------------------------------------------------------------------
  // Properties of Sanitize

  /** Sanitize on one character: a digit stays, anything else goes. */
  lemma SanitizeChar(c: char)
    ensures Sanitize([c]) == if IsDigit(c) then [c] else []
  {
    assert [c][1..] == [];
  }

  /** Sanitize works piecewise, so the digits keep their order. */
  lemma {:induction false} SanitizeConcat(a: string, b: string)
    ensures Sanitize(a + b) == Sanitize(a) + Sanitize(b)
  {
    if a == [] {
      assert a + b == b;
    } else {
      assert (a + b)[0] == a[0];
      assert (a + b)[1..] == a[1..] + b;
      SanitizeConcat(a[1..], b);
    }
  }

  /** A string of digits is left as it is. */
  lemma {:induction false} SanitizeDigits(s: string)
    requires AllDigits(s)
    ensures Sanitize(s) == s
  {
    if s != [] {
      assert AllDigits(s[1..]);
      SanitizeDigits(s[1..]);
    }
  }

  lemma SanitizeIdempotent(phone: string)
    ensures Sanitize(Sanitize(phone)) == Sanitize(phone)
  {
    SanitizeDigits(Sanitize(phone));
  }

  /** Sanitize leaves nothing exactly when the string holds no digit. */
  lemma {:induction false} SanitizeEmptyIffNoDigit(s: string)
    ensures Sanitize(s) == [] <==> !HasDigit(s)
  {
    if s != [] {
      SanitizeEmptyIffNoDigit(s[1..]);
      if !IsDigit(s[0]) {
        assert HasDigit(s) ==> HasDigit(s[1..]) by {
          if HasDigit(s) {
            var i :| 0 <= i < |s| && IsDigit(s[i]);
            assert s[1..][i - 1] == s[i];
          }
        }
        assert HasDigit(s[1..]) ==> HasDigit(s) by {
          if HasDigit(s[1..]) {
            var i :| 0 <= i < |s[1..]| && IsDigit(s[1..][i]);
            assert s[i + 1] == s[1..][i];
          }
        }
      } else {
        assert HasDigit(s) by { assert IsDigit(s[0]); }
      }
    }
  }

  // ---------------------------------------------------------------------
  // Properties of FormatDisplay and Validate

  /** Separators added by the display form are not digits. */
  lemma SanitizeSeparators()
    ensures Sanitize("(") == [] && Sanitize(") ") == [] && Sanitize("-") == []
  {
    SanitizeChar('(');
    SanitizeChar('-');
    SanitizeConcat(")", " ");
    SanitizeChar(')');
    SanitizeChar(' ');
    assert ") " == ")" + " ";
  }

  /** `(` a `) ` b `-` c loses its separators under Sanitize. */
  lemma SanitizeLayout(a: string, b: string, c: string)
    requires AllDigits(a) && AllDigits(b) && AllDigits(c)
    ensures Sanitize("(" + a + ") " + b + "-" + c) == a + b + c
  {
    SanitizeSeparators();
    SanitizeDigits(a);
    SanitizeDigits(b);
    SanitizeDigits(c);
    var p1 := "(" + a;
    var p2 := p1 + ") ";
    var p3 := p2 + b;
    var p4 := p3 + "-";
    SanitizeConcat("(", a);
    assert Sanitize(p1) == a;
    SanitizeConcat(p1, ") ");
    assert Sanitize(p2) == a;
    SanitizeConcat(p2, b);
    assert Sanitize(p3) == a + b;
    SanitizeConcat(p3, "-");
    assert Sanitize(p4) == a + b;
    SanitizeConcat(p4, c);
  }

  /** Round trip: the digits of the display form are the digits of the input. */
  lemma FormatRoundTrip(phone: string)
    ensures Sanitize(FormatDisplay(phone)) == Sanitize(phone)
  {
    var d := Sanitize(phone);
    if |d| == 11 {
      SanitizeLayout(d[..2], d[2..7], d[7..]);
      assert d[..2] + d[2..7] + d[7..] == d;
    } else if |d| == 10 {
      SanitizeLayout(d[..2], d[2..6], d[6..]);
      assert d[..2] + d[2..6] + d[6..] == d;
    } else {
      SanitizeIdempotent(phone);
    }
  }

  /** Formatting an already displayed number changes nothing. */
  lemma FormatIdempotent(phone: string)
    ensures FormatDisplay(FormatDisplay(phone)) == FormatDisplay(phone)
  {
    FormatRoundTrip(phone);
  }

  /** Formatting for display never changes whether a number is valid. */
  lemma ValidateFormat(phone: string)
    ensures Validate(FormatDisplay(phone)) == Validate(phone)
  {
    FormatRoundTrip(phone);
  }

  /** A key is refused exactly when it has no digit to keep and is not an
      editing key. */
  lemma KeyBlockedIff(key: string)
    ensures KeyBlocked(key) <==> Sanitize(key) == [] && key !in AllowedKeys
  {
    SanitizeEmptyIffNoDigit(key);
  }
}
