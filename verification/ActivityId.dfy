/** Activity ids, which start with the time in a base-32 notation that sorts like the number. */
module ActivityId {
  import opened Arithmetic
  import opened Lexicographic

  const CROCKFORD := "0123456789ABCDEFGHJKMNPQRSTVWXYZ"

  const TIME_DIGITS: nat := 10

  /** 2 to the power 50: what ten base-32 digits can hold. */
  const WRAP: nat := 0x4_0000_0000_0000

  /** The low `n` base-32 digits of `millis`, the highest first. */
  function Notation(millis: nat, n: nat): (s: string)
    ensures |s| == n
  {
    if n == 0 then "" else Notation(millis / 32, n - 1) + [CROCKFORD[millis % 32]]
  }

  function DigitOf(c: char): nat {
    if c <= '9' then (if c < '0' then 0 else c as int - '0' as int)
    else if c <= 'H' then (if c < 'A' then 0 else c as int - 'A' as int + 10)
    else if c <= 'K' then (if c < 'J' then 0 else c as int - 'J' as int + 18)
    else if c <= 'N' then (if c < 'M' then 0 else c as int - 'M' as int + 20)
    else if c <= 'T' then (if c < 'P' then 0 else c as int - 'P' as int + 22)
    else (if c < 'V' then 0 else c as int - 'V' as int + 27)
  }

  function Decode(s: string): nat {
    if s == "" then 0 else 32 * Decode(s[..|s| - 1]) + DigitOf(s[|s| - 1])
  }

  function Power32(n: nat): (r: nat)
    ensures r > 0
  {
    if n == 0 then 1 else 32 * Power32(n - 1)
  }

  lemma DigitRoundTrip(d: nat)
    requires d < 32
    ensures DigitOf(CROCKFORD[d]) == d && IsDigit(CROCKFORD[d])
  {
  }

  /** The alphabet is in ascending order. */
  lemma DigitOrder(d: nat, e: nat)
    requires d < 32 && e < 32
    ensures CROCKFORD[d] < CROCKFORD[e] <==> d < e
    ensures CROCKFORD[d] == CROCKFORD[e] <==> d == e
  {
    DigitRoundTrip(d);
    DigitRoundTrip(e);
    if CROCKFORD[d] < CROCKFORD[e] {
      DigitIsMonotone(CROCKFORD[d], CROCKFORD[e]);
    } else if CROCKFORD[e] < CROCKFORD[d] {
      DigitIsMonotone(CROCKFORD[e], CROCKFORD[d]);
    }
  }

  predicate IsDigit(c: char) {
    ('0' <= c <= '9') || ('A' <= c <= 'H') || c == 'J' || c == 'K' || c == 'M' || c == 'N' || ('P' <= c <= 'T')
    || ('V' <= c <= 'Z')
  }

  lemma DigitIsMonotone(c: char, d: char)
    requires IsDigit(c) && IsDigit(d) && c < d
    ensures DigitOf(c) < DigitOf(d)
  {
  }

  lemma QuotientAndRest(m: nat, p: nat)
    requires p > 0
    ensures m % (32 * p) == 32 * ((m / 32) % p) + m % 32
  {
    var q, r := (m / 32) / p, (m / 32) % p;
    assert m / 32 == q * p + r;
    assert m == 32 * (q * p + r) + m % 32;
    assert m == q * (32 * p) + (32 * r + m % 32) by {
      assert 32 * (q * p) == q * (32 * p);
    }
    DivisionIsUnique(m, 32 * p, q, 32 * r + m % 32);
  }

  /** Decoding gives the number back up to the wrap-around of the digits. */
  lemma {:induction false} DecodeNotation(millis: nat, n: nat)
    ensures Decode(Notation(millis, n)) == millis % Power32(n)
  {
    if n == 0 {
    } else {
      var s := Notation(millis, n);
      DecodeNotation(millis / 32, n - 1);
      assert s[..|s| - 1] == Notation(millis / 32, n - 1);
      DigitRoundTrip(millis % 32);
      QuotientAndRest(millis, Power32(n - 1));
    }
  }

  /** Strings that sort like the numbers they hold, ... */
  ghost predicate SortsLikeValue(s: string, t: string) {
    && (Less(s, t) <==> Decode(s) < Decode(t))
    && (s == t <==> Decode(s) == Decode(t))
  }

  /** ... still do with one more digit. */
  lemma OneMoreDigit(s: string, t: string, x: nat, y: nat)
    requires |s| == |t| && x < 32 && y < 32 && SortsLikeValue(s, t)
    ensures SortsLikeValue(s + [CROCKFORD[x]], t + [CROCKFORD[y]])
  {
    hide Less, DigitOf;
    DigitOrder(x, y);
    DigitRoundTrip(x);
    DigitRoundTrip(y);
    LessOfAppend(s, t, CROCKFORD[x], CROCKFORD[y]);
    DecodeOfAppend(s, CROCKFORD[x]);
    DecodeOfAppend(t, CROCKFORD[y]);
    SmallerDigits(Decode(s), Decode(t), x, y);
    var s', t' := s + [CROCKFORD[x]], t + [CROCKFORD[y]];
    assert s'[..|s|] == s && t'[..|t|] == t && s'[|s|] == CROCKFORD[x] && t'[|t|] == CROCKFORD[y];
  }

  lemma DecodeOfAppend(s: string, c: char)
    ensures Decode(s + [c]) == 32 * Decode(s) + DigitOf(c)
  {
    assert (s + [c])[..|s|] == s;
  }

  /** The notation sorts like the numbers it holds, and different numbers have different notations. */
  lemma {:induction false} NotationOrder(a: nat, b: nat, n: nat)
    ensures SortsLikeValue(Notation(a, n), Notation(b, n))
  {
    hide DigitOf, SortsLikeValue;
    if n == 0 {
      NoDigitsSort();
    } else {
      NotationOrder(a / 32, b / 32, n - 1);
      OneMoreDigit(Notation(a / 32, n - 1), Notation(b / 32, n - 1), a % 32, b % 32);
    }
  }

  lemma NoDigitsSort()
    ensures SortsLikeValue("", "")
  {
  }

  lemma SmallerDigits(u: nat, v: nat, x: nat, y: nat)
    requires x < 32 && y < 32
    ensures 32 * u + x < 32 * v + y <==> u < v || (u == v && x < y)
    ensures 32 * u + x == 32 * v + y <==> u == v && x == y
  {
  }

  lemma TenDigits()
    ensures Power32(TIME_DIGITS) == WRAP
  {
    assert Power32(5) == 0x200_0000;
    assert Power32(10) == 0x4_0000_0000_0000;
  }

  /** Among times below 2 to the power 50 the prefix is strictly increasing, and gives the time back. */
  lemma TimePrefixIsSortable(a: nat, b: nat)
    requires a < WRAP && b < WRAP
    ensures Decode(Notation(a, TIME_DIGITS)) == a
    ensures Less(Notation(a, TIME_DIGITS), Notation(b, TIME_DIGITS)) <==> a < b
  {
    hide Decode, Notation, Less, Power32;
    TenDigits();
    DecodeNotation(a, TIME_DIGITS);
    DecodeNotation(b, TIME_DIGITS);
    NotationOrder(a, b, TIME_DIGITS);
  }

  /** Beyond that the prefix wraps around. */
  lemma TimePrefixWraps(millis: nat)
    ensures Notation(millis, TIME_DIGITS) == Notation(millis % WRAP, TIME_DIGITS)
    ensures Decode(Notation(millis, TIME_DIGITS)) == millis <==> millis < WRAP
  {
    hide Decode, Notation, Power32;
    TenDigits();
    DecodeNotation(millis, TIME_DIGITS);
    DecodeNotation(millis % WRAP, TIME_DIGITS);
    NotationOrder(millis, millis % WRAP, TIME_DIGITS);
  }

  function Id(millis: nat, random: string): string {
    "act_" + Notation(millis, TIME_DIGITS) + random
  }

  /** Ids made in different milliseconds sort in the order they were made, whatever their random parts. */
  lemma IdsSortByTime(a: nat, b: nat, x: string, y: string)
    requires a < b < WRAP
    ensures Less(Id(a, x), Id(b, y))
  {
    hide Notation, Less;
    TimePrefixIsSortable(a, b);
    LessWithSuffix(Notation(a, TIME_DIGITS), Notation(b, TIME_DIGITS), x, y);
    LessBehindPrefix("act_", Notation(a, TIME_DIGITS) + x, Notation(b, TIME_DIGITS) + y);
    assert Id(a, x) == "act_" + (Notation(a, TIME_DIGITS) + x);
    assert Id(b, y) == "act_" + (Notation(b, TIME_DIGITS) + y);
  }

  function Reversed(s: string): string {
    if s == "" then "" else [s[|s| - 1]] + Reversed(s[..|s| - 1])
  }

  /** `random` stands for the sixteen random characters. */
  method GenerateActivityId(now: nat, random: string) returns (id: string)
    ensures id == Id(now, random)
  {
    hide Notation;
    var millis := now;
    var chars := "";
    NoDigits(now);
    for i := 0 to TIME_DIGITS
      invariant Notation(now, TIME_DIGITS) == Notation(millis, TIME_DIGITS - i) + Reversed(chars)
    {
      NotationStep(millis, TIME_DIGITS - i, chars);
      chars := chars + [CROCKFORD[millis % 32]];
      millis := millis / 32;
    }
    NoDigits(millis);
    assert Notation(now, TIME_DIGITS) == Reversed(chars);
    id := "act_" + Reversed(chars) + random;
  }

  lemma NoDigits(millis: nat)
    ensures Notation(millis, 0) == "" && Reversed("") == ""
    ensures Notation(millis, TIME_DIGITS) + "" == Notation(millis, TIME_DIGITS)
  {
  }

  lemma NotationStep(millis: nat, n: nat, chars: string)
    requires n > 0
    ensures Notation(millis, n) + Reversed(chars) ==
            Notation(millis / 32, n - 1) + Reversed(chars + [CROCKFORD[millis % 32]])
  {
    var c := CROCKFORD[millis % 32];
    assert (chars + [c])[..|chars|] == chars;
  }
}
