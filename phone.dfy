/** The Brazilian phone normaliser `normalizePhone` (index.js:35-103): strip
    every non-digit, then apply five ordered rules, the first that matches
    deciding the result. */
module PhoneNormalizer {
  import opened Js

  /** The closed list of Brazilian area codes (DDD) the normaliser accepts
      (index.js:45-57), written as numbers. The list holds two-digit strings
      only. Codes missing from it although they fall inside a region, such as
      20, 23, 25, 26, 29, 36, 39, 52, 57, 72, 76 and 78, are not accepted. */
  predicate IsDddCode(n: int) {
    n in {
      11, 12, 13, 14, 15, 16, 17, 18, 19,
      21, 22, 24, 27, 28,
      31, 32, 33, 34, 35, 37, 38,
      41, 42, 43, 44, 45, 46,
      47, 48, 49,
      51, 53, 54, 55,
      61, 62, 63, 64, 65, 66, 67,
      68, 69,
      71, 73, 74, 75, 77, 79,
      81, 82, 83, 84, 85, 86, 87, 88, 89,
      91, 92, 93, 94, 95, 96, 97, 98, 99
    }
  }

  /** The value of a two-digit string. */
  function TwoDigitValue(s: string): (v: int)
    requires |s| == 2 && AllDigits(s)
    ensures 0 <= v <= 99
  {
    (s[0] as int - 48) * 10 + (s[1] as int - 48)
  }

  /** `ddds_brasileiros.includes(s)`: since the list holds only two-digit
      strings, `s` is listed exactly when it is two digits whose value is a
      listed code. */
  predicate IsDdd(s: string) {
    |s| == 2 && AllDigits(s) && IsDddCode(TwoDigitValue(s))
  }

  /** Every listed area code is two digits, the first of them not '0'. */
  lemma DddShape(s: string)
    requires IsDdd(s)
    ensures |s| == 2 && AllDigits(s) && s[0] != '0'
  {
    assert TwoDigitValue(s) >= 11;
  }

  /** Some members of the list, and some codes it leaves out. */
  lemma ListedCodes()
    ensures IsDddCode(11) && IsDddCode(55) && IsDddCode(99)
    ensures !IsDddCode(20) && !IsDddCode(23) && !IsDddCode(25) && !IsDddCode(26) && !IsDddCode(29)
    ensures !IsDddCode(36) && !IsDddCode(39) && !IsDddCode(52) && !IsDddCode(57)
    ensures !IsDddCode(72) && !IsDddCode(76) && !IsDddCode(78)
  {
  }

  /** `s.replace(/\D/g, '')`: the digits of `s`, in order. */
  function DigitsOnly(s: string): (r: string)
    ensures AllDigits(r) && |r| <= |s|
    ensures AllDigits(s) ==> r == s
  {
    if s == "" then ""
    else if IsDigit(s[0]) then [s[0]] + DigitsOnly(s[1..])
    else DigitsOnly(s[1..])
  }

  /** Stripping non-digits distributes over concatenation. */
  lemma {:induction false} DigitsOnlyConcat(a: string, b: string)
    ensures DigitsOnly(a + b) == DigitsOnly(a) + DigitsOnly(b)
  {
    if a == "" {
      assert a + b == b;
    } else {
      assert (a + b)[0] == a[0];
      assert (a + b)[1..] == a[1..] + b;
      DigitsOnlyConcat(a[1..], b);
    }
  }

  /** A string without any digit contributes nothing. */
  lemma {:induction false} DigitsOnlyNoDigits(s: string)
    requires forall i :: 0 <= i < |s| ==> !IsDigit(s[i])
    ensures DigitsOnly(s) == ""
  {
    if s != "" {
      DigitsOnlyNoDigits(s[1..]);
    }
  }

  /** Text without digits in the middle of a string contributes nothing. */
  lemma DigitsOnlySkips(before: string, p: string, after: string)
    requires forall i :: 0 <= i < |p| ==> !IsDigit(p[i])
    ensures DigitsOnly(before + (p + after)) == DigitsOnly(before + after)
  {
    DigitsOnlyConcat(before, p + after);
    DigitsOnlyConcat(p, after);
    DigitsOnlyNoDigits(p);
    DigitsOnlyConcat(before, after);
  }

  /** The form every recognised number is rewritten into: thirteen digits
      starting with the country code 55. */
  predicate IsCanonical(d: string) {
    |d| == 13 && d[..2] == "55" && AllDigits(d)
  }

  /** Rule 1's guard: a number that starts with the miscoded country code 57,
      has at least twelve digits and continues with a listed area code. */
  predicate MiscodedCountryCode(d: string) {
    |d| >= 12 && d[..2] == "57" && IsDdd(d[2..4])
  }

  /** True when none of the four rewriting rules applies, so the digits are
      returned as they are. */
  predicate Unrecognised(d: string) {
    && !MiscodedCountryCode(d)
    && !(|d| == 13 && d[..2] == "55")
    && !(|d| == 11 && IsDdd(d[..2]))
    && !(|d| == 10 && IsDdd(d[..2]))
  }

  /** The ordered rules applied to the digit string (index.js:59-102). Every
      rewrite yields a "55"-prefixed number at least as long as its input, and
      no digit string is ever shortened. */
  function NormalizeDigits(d: string): (r: string)
    ensures |r| >= |d|
    ensures AllDigits(d) ==> AllDigits(r)
    ensures r != d ==> |r| >= 12 && r[..2] == "55"
  {
    if |d| >= 12 && d[..2] == "57" && IsDdd(d[2..4]) then
      var semDdi := d[2..];
      var trimmed := if |semDdi| == 11 && semDdi[0] == '0' then semDdi[1..] else semDdi;
      DddShape(d[2..4]);
      assert semDdi[0] == d[2..4][0];
      "55" + trimmed
    else if |d| == 13 && d[..2] == "55" then
      d
    else if |d| == 11 && IsDdd(d[..2]) then
      "55" + d
    else if |d| == 10 && IsDdd(d[..2]) then
      "55" + d[..2] + "9" + d[2..]
    else
      d
  }

  /** `normalizePhone(phone)`: a falsy input gives the empty string; any other
      input is converted with `toString()`, stripped of non-digits and passed
      through the rules. The result is made of digits only and keeps at least
      as many digits as the input had. For an input whose conversion throws
      (`ToStrThrows`) the call does not return, so no caller may pass one. */
  function NormalizePhone(v: Value): (r: string)
    requires !ToStrThrows(v)
    ensures AllDigits(r)
    ensures !Truthy(v) ==> r == ""
    ensures Truthy(v) ==> |r| >= |DigitsOnly(ToStr(v))|
  {
    if !Truthy(v) then "" else NormalizeDigits(DigitsOnly(ToStr(v)))
  }

  /** Rule 1: a miscoded 57 in front of a listed area code becomes 55 and the
      rest is kept; the number of digits does not change. The branch that
      would drop a leading '0' (index.js:66-68) never fires, because a listed
      area code never starts with '0'. */
  lemma CorrectsMiscodedCountryCode(d: string)
    requires MiscodedCountryCode(d)
    ensures NormalizeDigits(d) == "55" + d[2..]
    ensures |NormalizeDigits(d)| == |d|
    ensures AllDigits(d) && |d| == 13 ==> IsCanonical(NormalizeDigits(d))
  {
    DddShape(d[2..4]);
    assert d[2..][0] == d[2..4][0];
  }

  /** Rule 2: a thirteen-digit number starting with 55 is kept as it is. */
  lemma KeepsCanonical(d: string)
    requires IsCanonical(d)
    ensures NormalizeDigits(d) == d
  {
  }

  /** Rule 3: eleven digits after a listed area code get the country code. */
  lemma AddsCountryCode(d: string)
    requires AllDigits(d) && |d| == 11 && IsDdd(d[..2])
    ensures NormalizeDigits(d) == "55" + d
    ensures IsCanonical(NormalizeDigits(d))
  {
  }

  /** Rule 4: ten digits after a listed area code get the mobile 9 after the
      area code and the country code in front. */
  lemma InsertsMobileNine(d: string)
    requires AllDigits(d) && |d| == 10 && IsDdd(d[..2])
    ensures NormalizeDigits(d) == "55" + d[..2] + "9" + d[2..]
    ensures IsCanonical(NormalizeDigits(d))
  {
    var r := "55" + d[..2] + "9" + d[2..];
    assert forall i :: 0 <= i < 13 ==> r[i] == (if i < 2 then '5' else if i < 4 then d[i - 2] else if i == 4 then '9' else d[i - 3]);
  }

  /** Rule 5: anything the rules do not recognise is returned untouched,
      never guessed at or truncated. In particular numbers shorter than ten
      digits, eleven digits behind an unlisted area code, twelve digits that
      are not 57 + area code, and twelve digits of 55 + area code without the
      mobile 9. */
  lemma LeavesUnrecognised(d: string)
    ensures Unrecognised(d) ==> NormalizeDigits(d) == d
    ensures |d| < 10 ==> NormalizeDigits(d) == d
    ensures |d| == 11 && !IsDdd(d[..2]) ==> NormalizeDigits(d) == d
    ensures |d| == 12 && !MiscodedCountryCode(d) ==> NormalizeDigits(d) == d
  {
  }

  /** A digit string is returned unchanged exactly when it is canonical or no
      rule recognises it. */
  lemma {:induction false} FixedPoints(d: string)
    requires AllDigits(d)
    ensures NormalizeDigits(d) == d <==> IsCanonical(d) || Unrecognised(d)
  {
    if MiscodedCountryCode(d) {
      CorrectsMiscodedCountryCode(d);
      assert NormalizeDigits(d)[1] == '5' != d[1];
    } else if |d| == 11 && IsDdd(d[..2]) {
      AddsCountryCode(d);
    } else if |d| == 10 && IsDdd(d[..2]) {
      InsertsMobileNine(d);
    }
  }

  /** The output of the rules is a fixed point of the rules. */
  lemma NormalizeDigitsIdempotent(d: string)
    requires AllDigits(d)
    ensures NormalizeDigits(NormalizeDigits(d)) == NormalizeDigits(d)
  {
    var r := NormalizeDigits(d);
    if MiscodedCountryCode(d) {
      CorrectsMiscodedCountryCode(d);
      assert r[..2] == "55";
    } else if |d| == 11 && IsDdd(d[..2]) {
      AddsCountryCode(d);
    } else if |d| == 10 && IsDdd(d[..2]) {
      InsertsMobileNine(d);
    }
    FixedPoints(r);
  }

  /** Normalising twice gives the same key as normalising once. */
  lemma NormalizeIdempotent(v: Value)
    requires !ToStrThrows(v)
    ensures NormalizePhone(Str(NormalizePhone(v))) == NormalizePhone(v)
  {
    var r := NormalizePhone(v);
    if Truthy(v) {
      NormalizeDigitsIdempotent(DigitsOnly(ToStr(v)));
    }
  }

  /** The normalised phone has at least ten digits exactly when the input's
      digits did; the rules only ever rewrite numbers of ten digits or more. */
  lemma TenDigitsPreserved(v: Value)
    requires !ToStrThrows(v)
    ensures |NormalizePhone(v)| >= 10 <==> Truthy(v) && |DigitsOnly(ToStr(v))| >= 10
  {
    if Truthy(v) {
      var d := DigitsOnly(ToStr(v));
      if |d| < 10 {
        LeavesUnrecognised(d);
      }
    }
  }

  /** The key is empty exactly when the input is falsy or has no digits. */
  lemma EmptyKey(v: Value)
    requires !ToStrThrows(v)
    ensures NormalizePhone(v) == "" <==> !Truthy(v) || DigitsOnly(ToStr(v)) == ""
  {
    if Truthy(v) {
      LeavesUnrecognised(DigitsOnly(ToStr(v)));
    }
  }

  /** Two texts with the same digits get the same key. */
  lemma SameDigitsSameKey(a: string, b: string)
    requires DigitsOnly(a) == DigitsOnly(b)
    ensures NormalizePhone(Str(a)) == NormalizePhone(Str(b))
  {
    EmptyKey(Str(a));
    EmptyKey(Str(b));
  }

  /** The same subscriber (a listed area code and eight further digits)
      reaches the same key whether reported with country code and mobile 9,
      without country code, without the mobile 9, or behind the miscoded
      country code 57. */
  lemma SameSubscriberSameKey(ddd: string, line: string)
    requires IsDdd(ddd) && |line| == 8 && AllDigits(line)
    ensures var key := "55" + ddd + "9" + line;
      && IsCanonical(key)
      && NormalizeDigits(key) == key
      && NormalizeDigits(ddd + "9" + line) == key
      && NormalizeDigits(ddd + line) == key
      && NormalizeDigits("57" + ddd + "9" + line) == key
  {
    DddShape(ddd);
    var key := "55" + ddd + "9" + line;
    assert AllDigits(key) by {
      assert forall i :: 0 <= i < 13 ==> key[i] == (if i < 2 then '5' else if i < 4 then ddd[i - 2] else if i == 4 then '9' else line[i - 5]);
    }
    KeepsCanonical(key);

    var eleven := ddd + "9" + line;
    assert eleven[..2] == ddd;
    assert AllDigits(eleven) by {
      assert forall i :: 0 <= i < 11 ==> eleven[i] == (if i < 2 then ddd[i] else if i == 2 then '9' else line[i - 3]);
    }
    AddsCountryCode(eleven);
    assert "55" + eleven == key;

    var ten := ddd + line;
    assert ten[..2] == ddd && ten[2..] == line;
    assert AllDigits(ten) by {
      assert forall i :: 0 <= i < 10 ==> ten[i] == (if i < 2 then ddd[i] else line[i - 2]);
    }
    InsertsMobileNine(ten);

    var miscoded := "57" + ddd + "9" + line;
    assert miscoded[..2] == "57" && miscoded[2..4] == ddd && miscoded[2..] == eleven;
    CorrectsMiscodedCountryCode(miscoded);
  }

  /** Digits after a run of punctuation are kept as they are. */
  lemma DigitsOnlyStep(punct: string, digits: string, rest: string)
    requires forall i :: 0 <= i < |punct| ==> !IsDigit(punct[i])
    requires AllDigits(digits)
    ensures DigitsOnly(punct + (digits + rest)) == digits + DigitsOnly(rest)
  {
    DigitsOnlyConcat(punct, digits + rest);
    DigitsOnlyNoDigits(punct);
    DigitsOnlyConcat(digits, rest);
  }

  /** Punctuation followed by digits leaves just the digits. */
  lemma PunctThenDigits(punct: string, digits: string)
    requires forall i :: 0 <= i < |punct| ==> !IsDigit(punct[i])
    requires AllDigits(digits)
    ensures DigitsOnly(punct + digits) == digits
  {
    DigitsOnlyConcat(punct, digits);
    DigitsOnlyNoDigits(punct);
  }

  /** Text whose digits form a canonical number is keyed by that number. */
  lemma KeyFromDigits(s: string, key: string)
    requires DigitsOnly(s) == key && IsCanonical(key)
    ensures NormalizePhone(Str(s)) == key
  {
    KeepsCanonical(key);
  }

  /** A mobile number as people write it with the country code:
      "+55 (DDD) 9XXXX-XXXX". */
  function InternationalFormat(ddd: string, head: string, tail: string): string {
    "+55 (" + ddd + ") 9" + head + "-" + tail
  }

  lemma InternationalFormatShape(ddd: string, head: string, tail: string)
    ensures InternationalFormat(ddd, head, tail) ==
      "+" + ("55" + (" (" + (ddd + (") " + (("9" + head) + ("-" + tail))))))
  {
  }

  lemma InternationalFormatPieces(ddd: string, head: string, tail: string)
    requires AllDigits(ddd) && AllDigits(head) && AllDigits(tail)
    ensures DigitsOnly("+" + ("55" + (" (" + (ddd + (") " + (("9" + head) + ("-" + tail))))))) ==
      "55" + (ddd + (("9" + head) + tail))
  {
    var nine := "9" + head;
    var r2 := "-" + tail;
    var r1 := ") " + (nine + r2);
    var r0 := " (" + (ddd + r1);
    PunctThenDigits("-", tail);
    DigitsOnlyStep(") ", nine, r2);
    DigitsOnlyStep(" (", ddd, r1);
    DigitsOnlyStep("+", "55", r0);
  }

  lemma InternationalFormatDigits(ddd: string, head: string, tail: string)
    requires AllDigits(ddd) && AllDigits(head) && AllDigits(tail)
    ensures DigitsOnly(InternationalFormat(ddd, head, tail)) == "55" + ddd + "9" + (head + tail)
  {
    InternationalFormatShape(ddd, head, tail);
    InternationalFormatPieces(ddd, head, tail);
    assert "55" + (ddd + (("9" + head) + tail)) == "55" + ddd + "9" + (head + tail);
  }

  /** Punctuation and the "+" sign are ignored: a number written as
      "+55 (DDD) 9XXXX-XXXX" gives the same key as its bare digits. */
  lemma FormattedNumber(ddd: string, head: string, tail: string)
    requires IsDdd(ddd) && |head| == 4 && |tail| == 4 && AllDigits(head) && AllDigits(tail)
    ensures NormalizePhone(Str(InternationalFormat(ddd, head, tail))) == "55" + ddd + "9" + (head + tail)
  {
    DddShape(ddd);
    InternationalFormatDigits(ddd, head, tail);
    SameSubscriberSameKey(ddd, head + tail);
    KeyFromDigits(InternationalFormat(ddd, head, tail), "55" + ddd + "9" + (head + tail));
  }

  /** An old eight-digit line as people write it without the country code:
      "(DDD) XXXX-XXXX". */
  function LocalFormat(ddd: string, head: string, tail: string): string {
    "(" + ddd + ") " + head + "-" + tail
  }

  lemma LocalFormatShape(ddd: string, head: string, tail: string)
    ensures LocalFormat(ddd, head, tail) == "(" + (ddd + (") " + (head + ("-" + tail))))
  {
  }

  lemma LocalFormatDigits(ddd: string, head: string, tail: string)
    requires AllDigits(ddd) && AllDigits(head) && AllDigits(tail)
    ensures DigitsOnly(LocalFormat(ddd, head, tail)) == ddd + (head + tail)
  {
    LocalFormatShape(ddd, head, tail);
    var r1 := ") " + (head + ("-" + tail));
    PunctThenDigits("-", tail);
    DigitsOnlyStep(") ", head, "-" + tail);
    DigitsOnlyStep("(", ddd, r1);
  }

  /** An old eight-digit line written as "(DDD) XXXX-XXXX" gets the mobile 9
      and the country code. */
  lemma FormattedOldLine(ddd: string, head: string, tail: string)
    requires IsDdd(ddd) && |head| == 4 && |tail| == 4 && AllDigits(head) && AllDigits(tail)
    ensures NormalizePhone(Str(LocalFormat(ddd, head, tail))) == "55" + ddd + "9" + (head + tail)
  {
    DddShape(ddd);
    LocalFormatDigits(ddd, head, tail);
    SameSubscriberSameKey(ddd, head + tail);
    assert LocalFormat(ddd, head, tail) != "" by {
      assert |DigitsOnly(LocalFormat(ddd, head, tail))| == 10;
    }
  }

  /** A phone sent as a JSON number is converted with `toString()` first: its
      decimal digits go through the rules, and a minus sign is ignored. */
  lemma NumericInput(n: nat)
    requires n > 0
    ensures NormalizePhone(Num(n)) == NormalizeDigits(Decimal(n))
    ensures NormalizePhone(Num(-(n as int))) == NormalizePhone(Num(n))
  {
    DigitsOnlyConcat("-", Decimal(n));
    DigitsOnlyNoDigits("-");
  }
}
