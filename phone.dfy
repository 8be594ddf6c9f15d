/** Philippine mobile-number validation and normalisation
    (src/utils/phoneValidation.ts). Strings are sequences of UTF-16 code
    units; `\d` in the source's regular expressions is the ASCII digit class. */
module PhoneValidation {

  predicate IsDigit(c: char) {
    '0' <= c <= '9'
  }

  predicate AllDigits(s: string) {
    forall i :: 0 <= i < |s| ==> IsDigit(s[i])
  }

  predicate StartsWith(s: string, prefix: string) {
    |prefix| <= |s| && s[..|prefix|] == prefix
  }

  /** phone.replace(/\D/g, ''): the digits of s, in order. */
  function Clean(s: string): (r: string)
    ensures AllDigits(r)
    ensures |r| <= |s|
  {
    if s == [] then []
    else Clean(s[..|s| - 1]) + (if IsDigit(s[|s| - 1]) then [s[|s| - 1]] else [])
  }

  lemma {:induction false} CleanAppend(a: string, b: string)
    ensures Clean(a + b) == Clean(a) + Clean(b)
  {
    if b == [] {
      assert a + b == a;
    } else {
      var b' := b[..|b| - 1];
      assert (a + b)[..|a + b| - 1] == a + b';
      CleanAppend(a, b');
    }
  }

  /** Cleaning a digit string changes nothing. */
  lemma {:induction false} CleanOfDigits(s: string)
    requires AllDigits(s)
    ensures Clean(s) == s
  {
    if s != [] {
      CleanOfDigits(s[..|s| - 1]);
    }
  }

  /** /^09\d{9}$/ */
  predicate MatchesLocal(p: string) {
    |p| == 11 && p[..2] == "09" && AllDigits(p[2..])
  }

  /** /^639\d{9}$/ */
  predicate MatchesCountryCode(p: string) {
    |p| == 12 && p[..3] == "639" && AllDigits(p[3..])
  }

  /** /^\+639\d{9}$/ */
  predicate MatchesPlusCountryCode(p: string) {
    |p| == 13 && p[..4] == "+639" && AllDigits(p[4..])
  }

  /** validatePhilippinePhone: one of the three patterns matches the RAW input.
      The digits-only string the source computes first is never used, so any
      separator makes the number invalid. Independently of the three patterns,
      a number is valid exactly when it ends in '9' and nine digits and what
      comes before that is "0", "63" or "+63". */
  function ValidatePhilippinePhone(phone: string): (ok: bool)
    ensures ok ==> |phone| == 11 || |phone| == 12 || |phone| == 13
    ensures ok <==>
      && |phone| >= 10
      && phone[|phone| - 10] == '9'
      && AllDigits(phone[|phone| - 9..])
      && phone[..|phone| - 10] in ["0", "63", "+63"]
  {
    PatternsBySuffix(phone);
    MatchesLocal(phone) || MatchesCountryCode(phone) || MatchesPlusCountryCode(phone)
  }

  /** The three patterns, read from the end: '9', nine digits, and before
      them "0", "63" or "+63". */
  lemma PatternsBySuffix(phone: string)
    ensures MatchesLocal(phone) || MatchesCountryCode(phone) || MatchesPlusCountryCode(phone) <==>
      && |phone| >= 10
      && phone[|phone| - 10] == '9'
      && AllDigits(phone[|phone| - 9..])
      && phone[..|phone| - 10] in ["0", "63", "+63"]
  {
    var n := |phone|;
    if n >= 10 && phone[n - 10] == '9' && AllDigits(phone[n - 9..]) {
      var pre := phone[..n - 10];
      if pre == "0" {
        assert phone[..2] == pre + [phone[n - 10]];
        assert phone[2..] == phone[n - 9..];
      } else if pre == "63" {
        assert phone[..3] == pre + [phone[n - 10]];
        assert phone[3..] == phone[n - 9..];
      } else if pre == "+63" {
        assert phone[..4] == pre + [phone[n - 10]];
        assert phone[4..] == phone[n - 9..];
      }
    }
    if MatchesLocal(phone) {
      assert phone[..n - 10] == phone[..2][..1];
      assert phone[n - 10] == phone[..2][1];
      assert phone[n - 9..] == phone[2..];
    } else if MatchesCountryCode(phone) {
      assert phone[..n - 10] == phone[..3][..2];
      assert phone[n - 10] == phone[..3][2];
      assert phone[n - 9..] == phone[3..];
    } else if MatchesPlusCountryCode(phone) {
      assert phone[..n - 10] == phone[..4][..3];
      assert phone[n - 10] == phone[..4][3];
      assert phone[n - 9..] == phone[4..];
    }
  }

  /** A valid number contains digits only, except for the one leading '+' of
      the third pattern: spaces, dashes and brackets are all rejected. */
  lemma ValidHasNoSeparators(phone: string)
    requires ValidatePhilippinePhone(phone)
    ensures Clean(phone) == phone || phone == "+" + Clean(phone)
  {
    if MatchesPlusCountryCode(phone) {
      assert phone == [phone[0]] + phone[1..];
      assert AllDigits(phone[1..]) by {
        assert phone[1..] == phone[1..4] + phone[4..];
        assert phone[1..4] == "639";
      }
      CleanAppend([phone[0]], phone[1..]);
      CleanOfDigits(phone[1..]);
      assert Clean([phone[0]]) == Clean([]) + [];
    } else if MatchesLocal(phone) {
      assert phone == phone[..2] + phone[2..];
      CleanOfDigits(phone);
    } else {
      assert phone == phone[..3] + phone[3..];
      CleanOfDigits(phone);
    }
  }

  /** formatPhilippinePhone: a number whose digits start with 639 becomes '+'
      and those digits; one whose digits start with 09 becomes +63 and the
      digits without the leading 0; anything else is returned unchanged.
      Whenever it rewrites, the result is '+639' followed by digits only. */
  function FormatPhilippinePhone(phone: string): (r: string)
    ensures StartsWith(Clean(phone), "639") || StartsWith(Clean(phone), "09") ==>
              StartsWith(r, "+639") && AllDigits(r[1..])
    ensures StartsWith(Clean(phone), "639") ==> r[1..] == Clean(phone)
    ensures !StartsWith(Clean(phone), "639") && StartsWith(Clean(phone), "09") ==>
              r[1..] == "63" + Clean(phone)[1..]
    ensures !StartsWith(Clean(phone), "639") && !StartsWith(Clean(phone), "09") ==> r == phone
  {
    var c := Clean(phone);
    if StartsWith(c, "639") then
      assert ("+" + c)[1..] == c;
      "+" + c
    else if StartsWith(c, "09") then
      assert ("+63" + c[1..])[1..] == "63" + c[1..];
      assert c[1] == c[..2][1];
      assert ("+63" + c[1..])[..4] == "+63" + [c[1]];
      "+63" + c[1..]
    else
      phone
  }

  /** Cleaning '+' followed by digits yields the digits. */
  lemma CleanPlusDigits(d: string)
    requires AllDigits(d)
    ensures Clean("+" + d) == d
  {
    CleanAppend("+", d);
    CleanOfDigits(d);
    assert Clean("+") == Clean([]) + [];
  }

  /** Normalising is idempotent: a formatted number formats to itself. */
  lemma FormatIdempotent(phone: string)
    ensures FormatPhilippinePhone(FormatPhilippinePhone(phone)) == FormatPhilippinePhone(phone)
  {
    var c := Clean(phone);
    var r := FormatPhilippinePhone(phone);
    if StartsWith(c, "639") || StartsWith(c, "09") {
      assert r == "+" + r[1..];
      CleanPlusDigits(r[1..]);
      assert r[1..][..3] == r[..4][1..];
      assert StartsWith(Clean(r), "639");
    }
  }

  /** Every valid number formats to the canonical +639 form, which is itself
      valid. */
  lemma FormatOfValidIsCanonical(phone: string)
    requires ValidatePhilippinePhone(phone)
    ensures MatchesPlusCountryCode(FormatPhilippinePhone(phone))
    ensures ValidatePhilippinePhone(FormatPhilippinePhone(phone))
  {
    var c := Clean(phone);
    var r := FormatPhilippinePhone(phone);
    ValidHasNoSeparators(phone);
    if MatchesPlusCountryCode(phone) {
      assert !IsDigit(phone[0]);
      assert phone != c;
      assert c == phone[1..];
      assert c[..3] == phone[1..4];
      assert r == "+" + c;
      assert r == phone;
    } else if MatchesCountryCode(phone) {
      CleanOfDigits(phone) by {
        assert phone == phone[..3] + phone[3..];
      }
      assert r == "+" + phone;
      assert r[4..] == phone[3..];
    } else {
      assert MatchesLocal(phone);
      CleanOfDigits(phone) by {
        assert phone == phone[..2] + phone[2..];
      }
      assert !StartsWith(c, "639");
      assert r == "+63" + phone[1..];
      assert r[4..] == phone[2..];
    }
  }
}
