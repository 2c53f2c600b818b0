/**
 Numbers the way arbitrary-precision integers are read in base zero: an optional sign, a prefix that
 selects the base (0b, 0o, 0x, or a bare 0 for octal), and digits that single underscores may
 separate.
 */
module Numerals {
  import opened BlockTree
  import opened PathText

  datatype Seen = Other | Digit | Underscore

  /** The state of a scan: value and number of digits so far, the last kind of character, whether an
      underscore was misplaced, and what is left to read. */
  datatype Scan = Scan(value: nat, count: nat, seen: Seen, misplaced: bool, rest: string)

  function DigitValue(c: char): nat
  {
    if '0' <= c <= '9' then c as int - '0' as int
    else if 'a' <= c <= 'z' then c as int - 'a' as int + 10
    else if 'A' <= c <= 'Z' then c as int - 'A' as int + 10
    else 63
  }

  function ScanDigits(s: Scan, base: nat): Scan
    decreases |s.rest|
  {
    if s.rest == [] then s
    else if s.rest[0] == '_' then
      ScanDigits(Scan(s.value, s.count, Underscore, s.misplaced || s.seen != Digit, s.rest[1..]), base)
    else if DigitValue(s.rest[0]) >= base then s
    else
      ScanDigits(Scan(s.value * base + DigitValue(s.rest[0]), s.count + 1, Digit, s.misplaced, s.rest[1..]), base)
  }

  /** A scan is accepted if it used up the whole string, saw a digit and no underscore out of place. */
  function Accepted(end: Scan): Option<nat>
  {
    if end.misplaced || end.seen == Underscore || end.count == 0 || end.rest != [] then None
    else Some(end.value)
  }

  /** An unsigned number in base zero. */
  function ParseNat(s: string): Option<nat>
  {
    var zero := s != [] && s[0] == '0';
    var letter := if zero && |s| > 1 then s[1] else ' ';
    Accepted(
      if !zero then ScanDigits(Scan(0, 0, Other, false, s), 10)
      else if |s| == 1 then Scan(0, 1, Digit, false, [])
      else if letter == 'b' || letter == 'B' then ScanDigits(Scan(0, 0, Digit, false, s[2..]), 2)
      else if letter == 'o' || letter == 'O' then ScanDigits(Scan(0, 0, Digit, false, s[2..]), 8)
      else if letter == 'x' || letter == 'X' then ScanDigits(Scan(0, 0, Digit, false, s[2..]), 16)
      else ScanDigits(Scan(0, 0, Digit, false, s[1..]), 8))
  }

  function ParseInt(s: string): Option<int>
  {
    if s != [] && (s[0] == '-' || s[0] == '+') then
      match ParseNat(s[1..])
      case None => None
      case Some(n) => var v: int := n; Some(if s[0] == '-' then -v else v)
    else
      match ParseNat(s)
      case None => None
      case Some(n) => Some(n)
  }

  // ----- writing numbers

  function DigitChar(d: nat): char
    requires d < 16
  {
    "0123456789abcdef"[d]
  }

  /** A number written in a base, most significant digit first, without leading zeros. */
  function Numeral(n: nat, base: nat): (s: string)
    requires 2 <= base <= 16
    ensures s != []
  {
    if n < base then [DigitChar(n)] else Numeral(n / base, base) + [DigitChar(n % base)]
  }

  function Decimal(n: nat): string
  {
    Numeral(n, 10)
  }

  /** A character that nothing but the digit scan looks at. */
  predicate Plain(c: char)
  {
    !IsSpace(c) && c != '_' && c != '-' && c != '+' && c != '/' && c != '\''
  }

  lemma {:induction false} NumeralShape(n: nat, base: nat)
    requires 2 <= base <= 16
    ensures forall i :: 0 <= i < |Numeral(n, base)| ==>
              Plain(Numeral(n, base)[i]) && DigitValue(Numeral(n, base)[i]) < base
    ensures n > 0 ==> Numeral(n, base)[0] != '0'
    ensures n == 0 ==> Numeral(n, base) == "0"
    decreases n
  {
    if n >= base {
      var q, d := n / base, n % base;
      Divided(n, base);
      DigitOfChar(d);
      NumeralShape(q, base);
      assert Numeral(n, base) == Numeral(q, base) + [DigitChar(d)];
    } else {
      DigitOfChar(n);
    }
  }

  lemma {:induction false} DigitOfChar(d: nat)
    requires d < 16
    ensures DigitValue(DigitChar(d)) == d && Plain(DigitChar(d))
    ensures DigitChar(d) == '0' ==> d == 0
  {
  }

  lemma {:induction false} Divided(n: nat, base: nat)
    requires 2 <= base <= n
    ensures 0 < n / base < n && n % base < base && n / base * base + n % base == n
  {
  }

  // ----- reading what was written

  /** One more digit. */
  lemma {:induction false} ScanDigit(value: nat, count: nat, seen: Seen, d: nat, base: nat, next: nat, rest: string)
    requires d < base <= 16 && next == value * base + d
    ensures ScanDigits(Scan(value, count, seen, false, [DigitChar(d)] + rest), base)
         == ScanDigits(Scan(next, count + 1, Digit, false, rest), base)
  {
    DigitOfChar(d);
    assert ([DigitChar(d)] + rest)[1..] == rest;
  }

  /** Scanning the digits of a number, followed by anything, leaves its value. */
  lemma {:induction false} ScanNumeral(n: nat, base: nat, seen: Seen, rest: string)
    requires 2 <= base <= 16
    ensures ScanDigits(Scan(0, 0, seen, false, Numeral(n, base) + rest), base)
         == ScanDigits(Scan(n, |Numeral(n, base)|, Digit, false, rest), base)
    decreases n
  {
    if n < base {
      ScanDigit(0, 0, seen, n, base, n, rest);
    } else {
      var q, d := n / base, n % base;
      Divided(n, base);
      var front, tail := Numeral(q, base), [DigitChar(d)] + rest;
      assert Numeral(n, base) + rest == front + tail;
      ScanNumeral(q, base, seen, tail);
      ScanDigit(q, |front|, Digit, d, base, n, rest);
    }
  }

  lemma {:induction false} ScanWhole(n: nat, base: nat, seen: Seen)
    requires 2 <= base <= 16
    ensures ScanDigits(Scan(0, 0, seen, false, Numeral(n, base)), base) == Scan(n, |Numeral(n, base)|, Digit, false, [])
  {
    ScanNumeral(n, base, seen, []);
    assert Numeral(n, base) + [] == Numeral(n, base);
  }

  lemma {:induction false} ParseDecimal(n: nat)
    ensures ParseNat(Decimal(n)) == Some(n) && ParseInt(Decimal(n)) == Some(n)
  {
    NumeralShape(n, 10);
    if n > 0 {
      ScanWhole(n, 10, Other);
    }
  }

  predicate Prefixes(prefix: string, base: nat)
  {
    || (base == 2 && (prefix == "0b" || prefix == "0B"))
    || (base == 8 && (prefix == "0o" || prefix == "0O" || prefix == "0"))
    || (base == 10 && prefix == "")
    || (base == 16 && (prefix == "0x" || prefix == "0X"))
  }

  /** A prefix selects the base its digits are read in. */
  lemma {:induction false} ScanPrefixed(prefix: string, digits: string, base: nat, n: nat)
    requires Prefixes(prefix, base) && base != 10 && digits != [] && DigitValue(digits[0]) < base
    requires ScanDigits(Scan(0, 0, Digit, false, digits), base) == Scan(n, |digits|, Digit, false, [])
    ensures ParseNat(prefix + digits) == Some(n)
  {
    var s := prefix + digits;
    assert s[|prefix|..] == digits;
    assert prefix == "0" ==> s[1] == digits[0];
  }

  lemma {:induction false} ParsePrefixed(n: nat, base: nat, prefix: string)
    requires Prefixes(prefix, base)
    ensures ParseNat(prefix + Numeral(n, base)) == Some(n)
  {
    if base == 10 {
      assert prefix + Numeral(n, base) == Decimal(n);
      ParseDecimal(n);
    } else {
      NumeralShape(n, base);
      ScanWhole(n, base, Digit);
      ScanPrefixed(prefix, Numeral(n, base), base, n);
    }
  }

  /** A number written in any of the bases, with or without a sign, is read as that number. */
  lemma {:induction false} ParseNumeral(n: nat, base: nat, prefix: string)
    requires Prefixes(prefix, base)
    ensures var s, v: int := prefix + Numeral(n, base), n;
            ParseInt(s) == Some(v) && ParseInt("+" + s) == Some(v) && ParseInt("-" + s) == Some(-v)
  {
    var s := prefix + Numeral(n, base);
    ParsePrefixed(n, base, prefix);
    NumeralShape(n, base);
    assert s[0] != '-' && s[0] != '+';
    assert ("+" + s)[1..] == s && ("-" + s)[1..] == s;
  }

  lemma {:induction false} SignedDecimal(n: nat)
    ensures var digits, v: int := Decimal(n), n;
            && digits != [] && Plain(digits[0]) && Plain(digits[|digits| - 1])
            && ParseInt(digits) == Some(v) && ParseInt("-" + digits) == Some(-v)
  {
    NumeralShape(n, 10);
    ParseNumeral(n, 10, "");
    assert "" + Numeral(n, 10) == Decimal(n);
  }

  // ----- which texts are numbers

  /** Nothing but digits of the base and underscores. */
  ghost predicate Digital(body: string, base: nat)
  {
    forall i :: 0 <= i < |body| ==> body[i] == '_' || DigitValue(body[i]) < base
  }

  /** Every underscore stands before a digit, and behind one or, if there is a prefix, right behind it. */
  ghost predicate Separated(body: string, prefixed: bool)
  {
    forall i {:trigger UnderscoreOk(body, i, prefixed)} :: 0 <= i < |body| ==> UnderscoreOk(body, i, prefixed)
  }

  ghost predicate UnderscoreOk(body: string, i: nat, prefixed: bool)
    requires i < |body|
  {
    body[i] == '_' ==> (i == 0 ==> prefixed) && i + 1 < |body| && body[i + 1] != '_'
  }

  ghost function Digits(body: string): string
  {
    if body == [] then [] else (if body[0] == '_' then [] else [body[0]]) + Digits(body[1..])
  }

  /** The value of digits that follow others of a value. */
  ghost function Value(before: nat, digits: string, base: nat): nat
    decreases |digits|
  {
    if digits == [] then before else Value(before * base + DigitValue(digits[0]), digits[1..], base)
  }

  /** The scan `s` read to its end, and found every underscore in place, exactly if its rest is digits
      and the underscores separate them; `e` is where it ended. */
  ghost predicate Scanned(s: Scan, base: nat, e: Scan)
  {
    && (e.rest == [] <==> Digital(s.rest, base))
    && (e.rest == [] ==>
          && e.count == s.count + |Digits(s.rest)| && e.value == Value(s.value, Digits(s.rest), base)
          && (!e.misplaced && e.seen != Underscore <==>
                && !s.misplaced && Separated(s.rest, s.seen == Digit)
                && (s.rest == [] ==> s.seen != Underscore)))
  }

  lemma {:induction false} UnderscoreScanned(s: Scan, base: nat, e: Scan)
    requires s.rest != [] && s.rest[0] == '_'
    requires Scanned(Scan(s.value, s.count, Underscore, s.misplaced || s.seen != Digit, s.rest[1..]), base, e)
    ensures Scanned(s, base, e)
  {
    UnderscoreFirst(s.rest, s.rest[1..], base, s.seen == Digit);
  }

  lemma {:induction false} DigitScanned(s: Scan, base: nat, e: Scan)
    requires s.rest != [] && s.rest[0] != '_' && DigitValue(s.rest[0]) < base
    requires var value := s.value * base + DigitValue(s.rest[0]);
             Scanned(Scan(value, s.count + 1, Digit, s.misplaced, s.rest[1..]), base, e)
    ensures Scanned(s, base, e)
  {
    var c, rest := s.rest[0], s.rest[1..];
    DigitFirst(s.rest, rest, base, s.seen == Digit);
    assert ([c] + Digits(rest))[1..] == Digits(rest);
  }

  lemma {:induction false} ScanExact(s: Scan, base: nat)
    ensures Scanned(s, base, ScanDigits(s, base))
    decreases |s.rest|
  {
    var e := ScanDigits(s, base);
    if s.rest != [] {
      if s.rest[0] == '_' {
        ScanExact(Scan(s.value, s.count, Underscore, s.misplaced || s.seen != Digit, s.rest[1..]), base);
        UnderscoreScanned(s, base, e);
      } else if DigitValue(s.rest[0]) < base {
        var value := s.value * base + DigitValue(s.rest[0]);
        ScanExact(Scan(value, s.count + 1, Digit, s.misplaced, s.rest[1..]), base);
        DigitScanned(s, base, e);
      }
    }
  }

  lemma {:induction false} UnderscoreFirst(body: string, rest: string, base: nat, prefixed: bool)
    requires body == "_" + rest
    ensures Digital(body, base) <==> Digital(rest, base)
    ensures Separated(body, prefixed) <==> prefixed && rest != [] && Separated(rest, false)
    ensures Digits(body) == Digits(rest)
  {
    assert body[1..] == rest;
    DigitalTail(body, base);
    SeparatedTail(body, prefixed);
    assert rest != [] && Separated(rest, false) ==> UnderscoreOk(rest, 0, false);
  }

  lemma {:induction false} DigitFirst(body: string, rest: string, base: nat, prefixed: bool)
    requires body != [] && body[0] != '_' && DigitValue(body[0]) < base && body == [body[0]] + rest
    ensures Digital(body, base) <==> Digital(rest, base)
    ensures Separated(body, prefixed) <==> Separated(rest, true)
    ensures Digits(body) == [body[0]] + Digits(rest)
  {
    assert body[1..] == rest;
    DigitalTail(body, base);
    SeparatedTail(body, prefixed);
  }

  lemma {:induction false} DigitalTail(body: string, base: nat)
    requires body != []
    ensures Digital(body, base) <==> (body[0] == '_' || DigitValue(body[0]) < base) && Digital(body[1..], base)
  {
    var rest := body[1..];
    assert forall i :: 0 <= i < |rest| ==> rest[i] == body[i + 1];
    if Digital(rest, base) {
      assert forall i :: 0 < i < |body| ==> body[i] == rest[i - 1];
    }
  }

  lemma {:induction false} SeparatedTail(body: string, prefixed: bool)
    requires body != []
    ensures Separated(body, prefixed) <==> UnderscoreOk(body, 0, prefixed) && Separated(body[1..], body[0] != '_')
  {
    var rest, digit := body[1..], body[0] != '_';
    forall i | 0 <= i < |rest| && Separated(body, prefixed)
      ensures UnderscoreOk(rest, i, digit)
    {
      assert UnderscoreOk(body, i + 1, prefixed) && UnderscoreOk(body, 0, prefixed);
    }
    forall i | 0 <= i < |body| && UnderscoreOk(body, 0, prefixed) && Separated(rest, digit)
      ensures UnderscoreOk(body, i, prefixed)
    {
      assert i > 0 ==> UnderscoreOk(rest, i - 1, digit);
    }
    if Separated(body, prefixed) {
      assert UnderscoreOk(body, 0, prefixed);
    }
  }

  /** A number in a base, behind the prefix that selects it: digits that single underscores may separate. */
  ghost predicate Reads(s: string, prefix: string, base: nat, n: nat)
  {
    && Prefixes(prefix, base) && prefix <= s
    && var body := s[|prefix|..];
       && Digital(body, base) && Separated(body, prefix != "") && Digits(body) != []
       && n == Value(0, Digits(body), base)
       && (base == 10 ==> s[0] != '0' || s == "0")
  }

  /** What is left of a scan of `body` decides whether it is a number, and which. */
  lemma {:induction false} ScannedExactly(body: string, base: nat, prefixed: bool, n: nat)
    ensures Accepted(ScanDigits(Scan(0, 0, if prefixed then Digit else Other, false, body), base)) == Some(n) <==>
            && Digital(body, base) && Separated(body, prefixed) && Digits(body) != []
            && n == Value(0, Digits(body), base)
  {
    ScanExact(Scan(0, 0, if prefixed then Digit else Other, false, body), base);
  }

  /** The prefix a text is read with. */
  ghost function PrefixOf(s: string): (prefix: string)
    ensures prefix <= s
  {
    if |s| < 2 || s[0] != '0' then ""
    else if s[1] in "bBoOxX" then s[..2] else s[..1]
  }

  ghost function BaseOf(prefix: string): nat
  {
    if prefix == "" then 10
    else if prefix[|prefix| - 1] in "bB" then 2
    else if prefix[|prefix| - 1] in "xX" then 16 else 8
  }

  lemma {:induction false} ParseScans(s: string)
    requires s != "0"
    ensures var prefix := PrefixOf(s);
            ParseNat(s) == Accepted(ScanDigits(Scan(0, 0, if prefix != "" then Digit else Other, false, s[|prefix|..]),
                                               BaseOf(prefix)))
  {
    assert s[0..] == s;
    assert s != [] && s[0] == '0' && |s| == 1 ==> s == "0";
  }

  lemma {:induction false} ReadsZero(n: nat)
    ensures Reads("0", "", 10, n) <==> n == 0
  {
    var s := "0";
    assert s[0..] == s && Digits(s[1..]) == [] && Digits(s) == ['0'] + [];
    assert ['0'][1..] == [] && Value(0, ['0'], 10) == Value(0, [], 10);
  }

  lemma {:induction false} PrefixKnown(s: string)
    requires s != "0"
    ensures Prefixes(PrefixOf(s), BaseOf(PrefixOf(s)))
    ensures PrefixOf(s) == "" && s != [] ==> s[0] != '0'
  {
    assert s != [] && s[0] == '0' && |s| == 1 ==> s == "0";
  }

  lemma {:induction false} ReadsAsPrefixed(s: string, n: nat)
    ensures ParseNat(s) == Some(n) <==> Reads(s, PrefixOf(s), BaseOf(PrefixOf(s)), n)
  {
    if s == "0" {
      ReadsZero(n);
    } else {
      var prefix := PrefixOf(s);
      ParseScans(s);
      ScannedExactly(s[|prefix|..], BaseOf(prefix), prefix != "", n);
      PrefixKnown(s);
    }
  }

  lemma {:induction false} PrefixDecided(s: string, prefix: string, base: nat, n: nat)
    requires Reads(s, prefix, base, n)
    ensures prefix == PrefixOf(s) && base == BaseOf(prefix)
  {
    if prefix == "0" {
      assert s[1..] != [] && (s[1..][0] == '_' || DigitValue(s[1..][0]) < 8);
    }
  }

  /** A text is read as a number if and only if it is one in some base, behind the prefix of that base. */
  lemma {:induction false} NumeralExact(s: string, n: nat)
    ensures ParseNat(s) == Some(n) <==> exists prefix, base :: Reads(s, prefix, base, n)
  {
    ReadsAsPrefixed(s, n);
    if prefix, base :| Reads(s, prefix, base, n) {
      PrefixDecided(s, prefix, base, n);
    }
  }
}
