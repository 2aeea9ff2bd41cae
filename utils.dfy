/**
 * The pure helpers of backend/app/utils.py: email shape check, currency
 * allow-list, account-code builder and currency conversion. Strings are
 * sequences of characters; money is an integer number of minor units (cents).
 */
module Utils {
  import opened Wrappers

  // ---------------------------------------------------------------------------
  // Character classes (ASCII, as in the character classes of the regular
  // expression and in the account-code alphabet)
  // ---------------------------------------------------------------------------

  predicate IsAsciiLower(c: char) { 'a' <= c <= 'z' }
  predicate IsAsciiUpper(c: char) { 'A' <= c <= 'Z' }
  predicate IsAsciiLetter(c: char) { IsAsciiLower(c) || IsAsciiUpper(c) }
  predicate IsAsciiDigit(c: char) { '0' <= c <= '9' }

  predicate AllDigits(s: string) {
    forall i | 0 <= i < |s| :: IsAsciiDigit(s[i])
  }

  /** Upper-casing of one character, restricted to the ASCII letters. */
  function UpperChar(c: char): char {
    if IsAsciiLower(c) then (c as int - 'a' as int + 'A' as int) as char else c
  }

  /** Lower-casing of one character, restricted to the ASCII letters. */
  function LowerChar(c: char): char {
    if IsAsciiUpper(c) then (c as int - 'A' as int + 'a' as int) as char else c
  }

  /** `str.upper()` on ASCII text. */
  function Upper(s: string): string {
    seq(|s|, i requires 0 <= i < |s| => UpperChar(s[i]))
  }

  /** `str.lower()` on ASCII text. */
  function Lower(s: string): string {
    seq(|s|, i requires 0 <= i < |s| => LowerChar(s[i]))
  }

  /** Upper-casing forgets whatever case the input had. */
  lemma UpperOfLower(s: string)
    ensures Upper(Lower(s)) == Upper(s)
    ensures Upper(Upper(s)) == Upper(s)
  {
  }

  // ---------------------------------------------------------------------------
  // validate_email: a regular-expression match anchored at the start, whose
  // end anchor also allows one final newline
  // ---------------------------------------------------------------------------

  /** `[a-zA-Z0-9_.+-]` */
  predicate IsLocalChar(c: char) {
    IsAsciiLetter(c) || IsAsciiDigit(c) || c == '_' || c == '.' || c == '+' || c == '-'
  }

  /** `[a-zA-Z0-9-]` */
  predicate IsDomainChar(c: char) {
    IsAsciiLetter(c) || IsAsciiDigit(c) || c == '-'
  }

  /** `[a-zA-Z0-9-.]` */
  predicate IsTailChar(c: char) {
    IsAsciiLetter(c) || IsAsciiDigit(c) || c == '-' || c == '.'
  }

  predicate IsLocalPart(s: string) { |s| > 0 && forall i | 0 <= i < |s| :: IsLocalChar(s[i]) }
  predicate IsDomainLabel(s: string) { |s| > 0 && forall i | 0 <= i < |s| :: IsDomainChar(s[i]) }
  predicate IsTail(s: string) { |s| > 0 && forall i | 0 <= i < |s| :: IsTailChar(s[i]) }

  /** Position of the first occurrence of `c` in `s`, or `|s|` when there is none. */
  function IndexOf(s: string, c: char): (k: nat)
    ensures k <= |s|
    ensures forall i | 0 <= i < k :: s[i] != c
    ensures k < |s| ==> s[k] == c
  {
    if |s| == 0 then 0
    else if s[0] == c then 0
    else 1 + IndexOf(s[1..], c)
  }

  /** Python's `$` also matches just before one final newline. */
  function StripFinalNewline(s: string): string {
    if |s| > 0 && s[|s| - 1] == '\n' then s[..|s| - 1] else s
  }

  /**
   * The regular expression, scanned left to right: the local part runs up to
   * the first '@', the domain up to the first '.', the tail to the end.
   */
  predicate BodyMatches(b: string) {
    var at := IndexOf(b, '@');
    at < |b| && IsLocalPart(b[..at]) &&
    var rest := b[at + 1..];
    var dot := IndexOf(rest, '.');
    dot < |rest| && IsDomainLabel(rest[..dot]) && IsTail(rest[dot + 1..])
  }


  /** `s` is `local@domain.tail`, possibly followed by one newline. */
  predicate IsEmailSplit(s: string, local: string, domain: string, tail: string) {
    IsLocalPart(local) && IsDomainLabel(domain) && IsTail(tail) &&
    (s == local + "@" + domain + "." + tail || s == local + "@" + domain + "." + tail + "\n")
  }

  /** The language of the regular expression, stated declaratively. */
  ghost predicate EmailShape(s: string) {
    exists local, domain, tail :: IsEmailSplit(s, local, domain, tail)
  }

  /** A scanned body decomposes into its three parts. */
  lemma BodyMatchesSplit(b: string) returns (local: string, domain: string, tail: string)
    requires BodyMatches(b)
    ensures IsLocalPart(local) && IsDomainLabel(domain) && IsTail(tail)
    ensures b == local + "@" + domain + "." + tail
  {
    var at := IndexOf(b, '@');
    var rest := b[at + 1..];
    var dot := IndexOf(rest, '.');
    local, domain, tail := b[..at], rest[..dot], rest[dot + 1..];
    assert rest == domain + "." + tail;
    assert b == local + "@" + rest;
  }

  /** A declaratively split body is found by the scanner. */
  lemma SplitBodyMatches(local: string, domain: string, tail: string)
    requires IsLocalPart(local) && IsDomainLabel(domain) && IsTail(tail)
    ensures BodyMatches(local + "@" + domain + "." + tail)
  {
    var b := local + "@" + domain + "." + tail;
    var at := IndexOf(b, '@');
    assert b[|local|] == '@';
    assert at == |local|;
    assert b[..at] == local;
    var rest := b[at + 1..];
    assert rest == domain + "." + tail;
    var dot := IndexOf(rest, '.');
    assert rest[|domain|] == '.';
    assert dot == |domain|;
    assert rest[..dot] == domain;
    assert rest[dot + 1..] == tail;
  }

  /** Scanning the body left by stripping one final newline decides the pattern's language. */
  lemma ScanIsEmailShape(s: string)
    ensures BodyMatches(StripFinalNewline(s)) <==> EmailShape(s)
  {
    var b := StripFinalNewline(s);
    if BodyMatches(b) {
      var local, domain, tail := BodyMatchesSplit(b);
      assert s == b || s == b + "\n";
      assert IsEmailSplit(s, local, domain, tail);
    }
    if EmailShape(s) {
      var local, domain, tail :| IsEmailSplit(s, local, domain, tail);
      var body := local + "@" + domain + "." + tail;
      SplitBodyMatches(local, domain, tail);
      assert body[|body| - 1] == tail[|tail| - 1];
      if s == body {
        assert b == body;
      } else {
        assert s[..|s| - 1] == body;
        assert b == body;
      }
    }
  }

  /** validate_email: accepts exactly the strings of the regular expression's language. */
  predicate ValidateEmail(s: string): (ok: bool)
    ensures ok <==> EmailShape(s)
  {
    ScanIsEmailShape(s);
    BodyMatches(StripFinalNewline(s))
  }

  /** Accepted: an ordinary address. */
  lemma EmailAcceptedExample()
    ensures ValidateEmail("j.d+t@m-h.co")
  {
    var local, domain, tail := "j.d+t", "m-h", "co";
    assert IsLocalPart(local) by {
      assert local == ['j', '.', 'd', '+', 't'];
    }
    assert IsDomainLabel(domain) by {
      assert domain == ['m', '-', 'h'];
    }
    assert IsTail(tail) by {
      assert tail == ['c', 'o'];
    }
    SplitBodyMatches(local, domain, tail);
    var s := local + "@" + domain + "." + tail;
    assert s == "j.d+t@m-h.co";
    assert StripFinalNewline(s) == s;
  }

  /** Accepted too: one trailing newline, and a tail made only of dots. */
  lemma EmailAcceptedEdgeCases()
    ensures ValidateEmail("a@b.c\n")
    ensures ValidateEmail("a@b..")
  {
    assert IsEmailSplit("a@b.c\n", "a", "b", "c");
    assert IsEmailSplit("a@b..", "a", "b", ".");
  }

  /** Refused: no dot after the '@', an '@' in the tail, a second trailing newline. */
  lemma EmailRefusedExamples()
    ensures !ValidateEmail("a@b")
    ensures !ValidateEmail("a@b.c@d")
    ensures !ValidateEmail("a@b.c\n\n")
  {
    assert IndexOf("a@b", '@') == 1 && IndexOf("b", '.') == 1;
    var s := "a@b.c@d";
    assert StripFinalNewline(s) == s;
    assert IndexOf(s, '@') == 1 && s[2..] == "b.c@d";
    assert IndexOf("b.c@d", '.') == 1 && "b.c@d"[2..] == "c@d";
    assert !IsTail("c@d") by { assert !IsTailChar("c@d"[1]); }
    var t := "a@b.c\n\n";
    assert StripFinalNewline(t) == "a@b.c\n";
    assert IndexOf("a@b.c\n", '@') == 1 && "a@b.c\n"[2..] == "b.c\n";
    assert IndexOf("b.c\n", '.') == 1 && "b.c\n"[2..] == "c\n";
    assert !IsTail("c\n") by { assert !IsTailChar("c\n"[1]); }
  }

  // ---------------------------------------------------------------------------
  // is_valid_currency_code
  // ---------------------------------------------------------------------------

  /** The ten-entry ISO 4217 allow-list. */
  const ValidCurrencyCodes: seq<string> :=
    ["USD", "EUR", "GBP", "JPY", "CAD", "AUD", "CHF", "CNY", "SEK", "NZD"]

  /** is_valid_currency_code: membership of the upper-cased code; only three ASCII letters pass. */
  predicate IsValidCurrencyCode(code: string): (ok: bool)
    ensures ok ==> |code| == 3
    ensures ok ==> forall i | 0 <= i < 3 :: IsAsciiLetter(code[i])
  {
    ListedCodeShape(code);
    Upper(code) in ValidCurrencyCodes
  }

  /** A code whose upper-cased form is listed is three ASCII letters. */
  lemma ListedCodeShape(code: string)
    ensures Upper(code) in ValidCurrencyCodes ==>
              |code| == 3 && forall i | 0 <= i < 3 :: IsAsciiLetter(code[i])
  {
    var u := Upper(code);
    if u in ValidCurrencyCodes {
      assert |u| == 3 && forall i | 0 <= i < 3 :: IsAsciiUpper(u[i]);
      forall i | 0 <= i < 3 ensures IsAsciiLetter(code[i]) {
        assert u[i] == UpperChar(code[i]);
      }
    }
  }

  /** The check ignores case: a code and its lower- or upper-cased forms agree. */
  lemma CurrencyCodeIgnoresCase(code: string)
    ensures IsValidCurrencyCode(Lower(code)) <==> IsValidCurrencyCode(code)
    ensures IsValidCurrencyCode(Upper(code)) <==> IsValidCurrencyCode(code)
  {
    UpperOfLower(code);
  }

  /** Every listed code is accepted in lower case too. */
  lemma LowerCaseCodesAccepted(k: nat)
    requires k < |ValidCurrencyCodes|
    ensures IsValidCurrencyCode(Lower(ValidCurrencyCodes[k]))
  {
    var code := ValidCurrencyCodes[k];
    assert Upper(code) == code;
    UpperOfLower(code);
  }


  // ---------------------------------------------------------------------------
  // generate_account_code: upper-cased name prefix followed by a UTC stamp
  // ---------------------------------------------------------------------------

  /** A UTC instant to the second, the value the clock supplies. */
  datatype DateTime = DateTime(year: int, month: int, day: int, hour: int, minute: int, second: int)

  /** The instants whose `%Y` field is four digits wide and whose other fields are in range. */
  predicate ValidClock(t: DateTime) {
    1000 <= t.year <= 9999 && 1 <= t.month <= 12 && 1 <= t.day <= 31 &&
    0 <= t.hour < 24 && 0 <= t.minute < 60 && 0 <= t.second < 60
  }

  function Digit(n: int): char
    requires 0 <= n < 10
  {
    ('0' as int + n) as char
  }

  function DigitValue(c: char): int
    requires IsAsciiDigit(c)
  {
    c as int - '0' as int
  }

  /** A two-digit zero-padded field (`%m`, `%d`, `%H`, `%M`, `%S`). */
  function Pad2(n: int): string
    requires 0 <= n < 100
  {
    [Digit(n / 10), Digit(n % 10)]
  }

  /** A four-digit field (`%Y`). */
  function Pad4(n: int): string
    requires 0 <= n < 10000
  {
    Pad2(n / 100) + Pad2(n % 100)
  }

  /** `strftime('%Y%m%d%H%M%S')` */
  function FormatStamp(t: DateTime): (s: string)
    requires ValidClock(t)
    ensures |s| == 14 && AllDigits(s)
  {
    Pad4(t.year) + Pad2(t.month) + Pad2(t.day) + Pad2(t.hour) + Pad2(t.minute) + Pad2(t.second)
  }

  function Num2(s: string, i: nat): int
    requires i + 2 <= |s| && IsAsciiDigit(s[i]) && IsAsciiDigit(s[i + 1])
  {
    10 * DigitValue(s[i]) + DigitValue(s[i + 1])
  }

  function Num4(s: string, i: nat): int
    requires i + 4 <= |s| && forall j | i <= j < i + 4 :: IsAsciiDigit(s[j])
  {
    100 * Num2(s, i) + Num2(s, i + 2)
  }

  /** The inverse of FormatStamp: reads a 14-digit stamp back, if it is one. */
  function ParseStamp(s: string): Option<DateTime> {
    if |s| == 14 && AllDigits(s) then
      var t := DateTime(Num4(s, 0), Num2(s, 4), Num2(s, 6), Num2(s, 8), Num2(s, 10), Num2(s, 12));
      if ValidClock(t) then Some(t) else None
    else None
  }

  lemma Num2OfPad2(s: string, i: nat, n: int)
    requires 0 <= n < 100 && i + 2 <= |s| && s[i..i + 2] == Pad2(n)
    ensures IsAsciiDigit(s[i]) && IsAsciiDigit(s[i + 1]) && Num2(s, i) == n
  {
    assert s[i] == Digit(n / 10) && s[i + 1] == Digit(n % 10);
  }

  lemma Pad2OfNum2(s: string, i: nat)
    requires i + 2 <= |s| && IsAsciiDigit(s[i]) && IsAsciiDigit(s[i + 1])
    ensures 0 <= Num2(s, i) < 100 && Pad2(Num2(s, i)) == s[i..i + 2]
  {
    var a, b := DigitValue(s[i]), DigitValue(s[i + 1]);
    assert (10 * a + b) / 10 == a && (10 * a + b) % 10 == b;
  }

  /** Reading a formatted stamp gives back the instant. */
  lemma {:induction false} StampRoundTrip(t: DateTime)
    requires ValidClock(t)
    ensures ParseStamp(FormatStamp(t)) == Some(t)
  {
    var s := FormatStamp(t);
    Num2OfPad2(s, 0, t.year / 100);
    Num2OfPad2(s, 2, t.year % 100);
    Num2OfPad2(s, 4, t.month);
    Num2OfPad2(s, 6, t.day);
    Num2OfPad2(s, 8, t.hour);
    Num2OfPad2(s, 10, t.minute);
    Num2OfPad2(s, 12, t.second);
  }

  /** Formatting a parsed stamp gives back the text. */
  lemma {:induction false} StampParseRoundTrip(s: string, t: DateTime)
    requires ParseStamp(s) == Some(t)
    ensures ValidClock(t) && FormatStamp(t) == s
  {
    Pad2OfNum2(s, 0);
    Pad2OfNum2(s, 2);
    Pad2OfNum2(s, 4);
    Pad2OfNum2(s, 6);
    Pad2OfNum2(s, 8);
    Pad2OfNum2(s, 10);
    Pad2OfNum2(s, 12);
    assert t.year / 100 == Num2(s, 0) && t.year % 100 == Num2(s, 2);
    assert s == s[0..2] + s[2..4] + s[4..6] + s[6..8] + s[8..10] + s[10..12] + s[12..14];
  }

  function Min(a: int, b: int): int { if a <= b then a else b }

  /**
   * generate_account_code, with the clock reading passed in as `now`: the
   * first (up to) three characters of the name, upper-cased, then the stamp.
   */
  function GenerateAccountCode(name: string, now: DateTime): (code: string)
    requires ValidClock(now)
    ensures var k := Min(3, |name|);
            && |code| == k + 14
            && (forall i | 0 <= i < k :: code[i] == UpperChar(name[i]))
            && ParseStamp(code[k..]) == Some(now)
  {
    var prefix := Upper(name[..Min(3, |name|)]);
    StampRoundTrip(now);
    assert (prefix + FormatStamp(now))[|prefix|..] == FormatStamp(now);
    prefix + FormatStamp(now)
  }

  /**
   * Two equal codes were built in the same second from names whose upper-cased
   * prefixes agree: the code determines both its parts.
   */
  lemma AccountCodeDeterminesParts(n1: string, t1: DateTime, n2: string, t2: DateTime)
    requires ValidClock(t1) && ValidClock(t2)
    requires GenerateAccountCode(n1, t1) == GenerateAccountCode(n2, t2)
    ensures t1 == t2
    ensures Upper(n1[..Min(3, |n1|)]) == Upper(n2[..Min(3, |n2|)])
  {
    var c := GenerateAccountCode(n1, t1);
    var k := Min(3, |n1|);
    assert k == Min(3, |n2|);
    assert Some(t1) == ParseStamp(c[k..]) == Some(t2);
  }

  lemma StampExample()
    ensures FormatStamp(DateTime(2024, 1, 31, 12, 0, 0)) == "20240131120000"
  {
    assert Pad2(20) == "20" && Pad2(24) == "24";
    assert Pad2(1) == "01" && Pad2(31) == "31" && Pad2(12) == "12" && Pad2(0) == "00";
  }

  /** The code of an account named "Cash" opened on 2024-01-31 at 12:00:00 UTC. */
  lemma AccountCodeExample()
    ensures GenerateAccountCode("Cash", DateTime(2024, 1, 31, 12, 0, 0)) == "CAS20240131120000"
  {
    StampExample();
    var prefix := Upper("Cash"[..Min(3, 4)]);
    assert prefix == "CAS" by {
      assert |prefix| == 3 && prefix[0] == 'C' && prefix[1] == 'A' && prefix[2] == 'S';
    }
    assert "CAS" + "20240131120000" == "CAS20240131120000";
  }

  /** A name shorter than three characters is used whole: "ap" gives a 16-character code. */
  lemma AccountCodeShortNameExample()
    ensures GenerateAccountCode("ap", DateTime(2024, 1, 31, 12, 0, 0)) == "AP20240131120000"
  {
    StampExample();
    var prefix := Upper("ap"[..Min(3, 2)]);
    assert prefix == "AP" by {
      assert |prefix| == 2 && prefix[0] == 'A' && prefix[1] == 'P';
    }
    assert "AP" + "20240131120000" == "AP20240131120000";
  }

  /**
   * The converse, which is why uniqueness rests on the storage layer: names
   * sharing an upper-cased prefix collide within one second.
   */
  lemma AccountCodesCollide(n1: string, n2: string, now: DateTime)
    requires ValidClock(now)
    requires Min(3, |n1|) == Min(3, |n2|)
    requires Upper(n1[..Min(3, |n1|)]) == Upper(n2[..Min(3, |n2|)])
    ensures GenerateAccountCode(n1, now) == GenerateAccountCode(n2, now)
  {
  }

  // ---------------------------------------------------------------------------
  // convert_currency
  // ---------------------------------------------------------------------------

  type Positive = n: int | 0 < n witness 1

  /** An exchange rate, as the exact fraction num / den. */
  datatype Rate = Rate(num: int, den: Positive)

  function Abs(x: int): nat { if x < 0 then -x else x }

  /**
   * `round(n / d)` to the nearest integer, ties to the even neighbour, as
   * Python's `round` does on an exact value.
   */
  function RoundHalfEven(n: int, d: Positive): (q: int)
    ensures 2 * Abs(q * d - n) <= d
    ensures 2 * Abs(q * d - n) == d ==> q % 2 == 0
  {
    var q0, r := n / d, n % d;
    assert n == q0 * d + r;
    assert (q0 + 1) * d - n == d - r;
    if 2 * r < d then q0
    else if 2 * r > d then q0 + 1
    else if q0 % 2 == 0 then q0
    else q0 + 1
  }

  lemma MultipleAtLeast(m: int, d: Positive)
    requires m != 0
    ensures Abs(m * d) >= d
  {
    if m > 0 {
      assert m * d == (m - 1) * d + d;
      assert (m - 1) * d >= 0;
    } else {
      assert m * d == (m + 1) * d - d;
      assert (m + 1) * d <= 0;
    }
  }

  /** No integer is nearer to n / d than the rounded value. */
  lemma {:induction false} RoundIsNearest(n: int, d: Positive, k: int)
    ensures Abs(RoundHalfEven(n, d) * d - n) <= Abs(k * d - n)
  {
    var q := RoundHalfEven(n, d);
    if k != q {
      MultipleAtLeast(k - q, d);
      assert k * d - n == (k - q) * d + (q * d - n);
    }
  }

  /**
   * convert_currency in minor units: the amount unchanged between equal
   * currencies, otherwise amount * rate rounded to the nearest minor unit.
   */
  function ConvertCurrency(amount: int, fromCurrency: string, toCurrency: string, rate: Rate): (r: int)
    ensures fromCurrency == toCurrency ==> r == amount
    ensures fromCurrency != toCurrency ==>
              2 * Abs(r * rate.den - amount * rate.num) <= rate.den
  {
    if fromCurrency == toCurrency then amount
    else RoundHalfEven(amount * rate.num, rate.den)
  }

  /** Between different currencies the result is the nearest minor unit to amount * rate. */
  lemma ConvertIsNearest(amount: int, fromCurrency: string, toCurrency: string, rate: Rate, k: int)
    requires fromCurrency != toCurrency
    ensures var r := ConvertCurrency(amount, fromCurrency, toCurrency, rate);
            Abs(r * rate.den - amount * rate.num) <= Abs(k * rate.den - amount * rate.num)
  {
    RoundIsNearest(amount * rate.num, rate.den, k);
  }

  /** When amount * rate is a whole number of minor units it is returned exactly. */
  lemma ConvertExact(amount: int, fromCurrency: string, toCurrency: string, rate: Rate, k: int)
    requires amount * rate.num == k * rate.den
    ensures ConvertCurrency(amount, fromCurrency, toCurrency, rate) == if fromCurrency == toCurrency then amount else k
  {
    if fromCurrency != toCurrency {
      var r := ConvertCurrency(amount, fromCurrency, toCurrency, rate);
      if r != k {
        MultipleAtLeast(r - k, rate.den);
      }
    }
  }

  /** 100.00 USD at 0.9 is 90.00 EUR; 100.00 USD stays 100.00 USD whatever the rate. */
  lemma ConvertExamples()
    ensures ConvertCurrency(10000, "USD", "EUR", Rate(9, 10)) == 9000
    ensures ConvertCurrency(10000, "USD", "USD", Rate(13, 10)) == 10000
  {
    ConvertExact(10000, "USD", "EUR", Rate(9, 10), 9000);
  }
}
