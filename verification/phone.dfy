/**
 * The phone-number check shared by CreateCustomer and BulkCreateCustomers:
 * `re.match(r"^(\+?\d{10,15}|\d{3}-\d{3}-\d{4})$", phone)`, applied only when
 * the phone is truthy (present and non-empty). `\d` is read as an ASCII digit.
 */
module Phone {
  import opened Wrappers

  predicate IsDigit(c: char) {
    '0' <= c <= '9'
  }

  predicate AllDigits(s: string) {
    forall i :: 0 <= i < |s| ==> IsDigit(s[i])
  }

  /** The first alternative, `\+?\d{10,15}`, spanning all of `s`. */
  predicate International(s: string) {
    var digits := if |s| > 0 && s[0] == '+' then s[1..] else s;
    10 <= |digits| <= 15 && AllDigits(digits)
  }

  /** The second alternative, `\d{3}-\d{3}-\d{4}`, spanning all of `s`. */
  predicate Dashed(s: string) {
    |s| == 12 && AllDigits(s[..3]) && s[3] == '-' && AllDigits(s[4..7]) && s[7] == '-' && AllDigits(s[8..])
  }

  /** One of the two alternatives spans all of `s`. */
  predicate WholeMatch(s: string) {
    International(s) || Dashed(s)
  }

  /**
   * `re.match` with the pattern anchored by `^` and `$`: in Python `$` matches
   * at the very end of the string and also just before one final newline.
   */
  predicate MatchesPattern(s: string)
    ensures MatchesPattern(s) ==> 10 <= |s| <= 17
  {
    WholeMatch(s) || (|s| > 0 && s[|s| - 1] == '\n' && WholeMatch(s[..|s| - 1]))
  }

  /** `if phone:` then the pattern: an absent or empty phone is never checked. */
  predicate PhoneAccepted(phone: Option<string>)
    ensures PhoneAccepted(phone) && phone.Some? ==> phone.value == "" || 10 <= |phone.value| <= 17
  {
    match phone
    case None => true
    case Some(p) => p == "" || MatchesPattern(p)
  }

  /** Every character of a string matching one of the alternatives is a digit, a leading '+', or a dash at index 3 or 7. */
  lemma WholeMatchShape(t: string)
    requires WholeMatch(t)
    ensures 10 <= |t| <= 16
    ensures forall i :: 0 <= i < |t| ==> IsDigit(t[i]) || (i == 0 && t[i] == '+') || ((i == 3 || i == 7) && t[i] == '-')
  {
    forall i | 0 <= i < |t|
      ensures IsDigit(t[i]) || (i == 0 && t[i] == '+') || ((i == 3 || i == 7) && t[i] == '-')
    {
      if International(t) {
        if |t| > 0 && t[0] == '+' && i > 0 {
          assert t[i] == t[1..][i - 1];
        }
      } else if i < 3 {
        assert t[i] == t[..3][i];
      } else if 4 <= i < 7 {
        assert t[i] == t[4..7][i - 4];
      } else if 8 <= i {
        assert t[i] == t[8..][i - 8];
      }
    }
  }

  /**
   * What an accepted phone looks like: 10 to 17 characters, each a digit, a
   * leading '+', a dash at index 3 or 7, or a single newline in last place.
   */
  lemma AcceptedShape(s: string)
    requires MatchesPattern(s)
    ensures 10 <= |s| <= 17
    ensures forall i :: 0 <= i < |s| ==>
      IsDigit(s[i]) || (i == 0 && s[i] == '+') || ((i == 3 || i == 7) && s[i] == '-') || (i == |s| - 1 && s[i] == '\n')
  {
    if WholeMatch(s) {
      WholeMatchShape(s);
    } else {
      var t := s[..|s| - 1];
      WholeMatchShape(t);
      assert forall i :: 0 <= i < |t| ==> s[i] == t[i];
    }
  }

  /** Neither alternative can end in a newline. */
  lemma NoWholeMatchEndsInNewline(s: string)
    requires |s| > 0 && s[|s| - 1] == '\n'
    ensures !WholeMatch(s)
  {
    var digits := if s[0] == '+' then s[1..] else s;
    if |digits| > 0 {
      assert digits[|digits| - 1] == '\n';
    }
    if |s| == 12 {
      assert s[8..][3] == '\n';
    }
  }

  /** `$` tolerates exactly one trailing newline: `t + "\n"` is accepted exactly when `t` spans an alternative. */
  lemma TrailingNewline(t: string)
    ensures MatchesPattern(t + "\n") <==> WholeMatch(t)
  {
    var s := t + "\n";
    NoWholeMatchEndsInNewline(s);
    assert s[..|s| - 1] == t;
  }

  /** Ten to fifteen digits are accepted, with or without a leading '+'. */
  lemma DigitsAccepted(d: string)
    requires AllDigits(d) && 10 <= |d| <= 15
    ensures PhoneAccepted(Some(d)) && PhoneAccepted(Some("+" + d))
  {
    assert ("+" + d)[1..] == d;
  }

  /** Any `DDD-DDD-DDDD` is accepted. */
  lemma DashedAccepted(a: string, b: string, c: string)
    requires |a| == 3 && |b| == 3 && |c| == 4
    requires AllDigits(a) && AllDigits(b) && AllDigits(c)
    ensures PhoneAccepted(Some(a + "-" + b + "-" + c))
  {
    var s := a + "-" + b + "-" + c;
    assert s[..3] == a && s[4..7] == b && s[8..] == c;
  }

  /** A non-empty phone with fewer than ten characters, or more than seventeen, is refused. */
  lemma WrongLengthRefused(p: string)
    requires 0 < |p| < 10 || |p| > 17
    ensures !PhoneAccepted(Some(p))
  {
    if MatchesPattern(p) {
      AcceptedShape(p);
    }
  }
}
