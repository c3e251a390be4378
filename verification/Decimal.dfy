/**
 Decimal numerals as Go's strconv and fmt packages read and print them.  Markers, page cursors
 and the canonical ids of the storage fixture all travel as these strings.
 */
module Decimal {
  import opened Wrappers

  const MAX_INT64: int := 0x7fff_ffff_ffff_ffff

  predicate IsDigit(c: char) { '0' <= c <= '9' }

  predicate AllDigits(s: string) { forall i | 0 <= i < |s| :: IsDigit(s[i]) }

  /** The number a string of digits denotes. */
  function Value(s: string): nat
    requires AllDigits(s)
  {
    if s == "" then 0 else 10 * Value(s[..|s| - 1]) + (s[|s| - 1] as int - '0' as int)
  }

  function DigitChar(d: nat): (c: char)
    requires d < 10
    ensures IsDigit(c) && c as int - '0' as int == d
  {
    ('0' as int + d) as char
  }

  /** The decimal digits of n, with zeros in front up to the given width. */
  function Padded(n: nat, width: nat): (s: string)
    ensures |s| >= width && s != "" && AllDigits(s) && Value(s) == n
    ensures |s| > 1 && |s| > width ==> s[0] != '0'
    decreases n + width
  {
    if n < 10 && width <= 1 then [DigitChar(n)]
    else Padded(n / 10, if width <= 1 then 1 else width - 1) + [DigitChar(n % 10)]
  }

  /** strconv.FormatInt and strconv.Itoa of a number that is not negative. */
  function FormatInt(n: nat): string { Padded(n, 1) }

  /** fmt.Sprintf("%07d", n) of a number that is not negative. */
  function Pad7(n: nat): string { Padded(n, 7) }

  /** strconv.ParseInt(s, 10, 64) and, on a 64-bit platform, strconv.Atoi: an optional sign, then
      digits only, then the range of an int64. */
  function ParseInt64(s: string): Option<int> {
    var negative := s != "" && s[0] == '-';
    var digits := if s != "" && (s[0] == '-' || s[0] == '+') then s[1..] else s;
    if digits == "" || !AllDigits(digits) then None
    else
      var magnitude: int := Value(digits);
      var n := if negative then -magnitude else magnitude;
      if -MAX_INT64 - 1 <= n <= MAX_INT64 then Some(n) else None
  }

  /** Printing then parsing is the identity on every int64 that is not negative. */
  lemma PrintedParsesBack(n: nat, width: nat)
    requires n <= MAX_INT64
    ensures ParseInt64(Padded(n, width)) == Some(n)
  {
    assert IsDigit(Padded(n, width)[0]);
  }

  // ---------- which strings are numerals ----------

  function Zeros(k: nat): string { if k == 0 then "" else Zeros(k - 1) + "0" }

  /** s spells n with k zeros in front; minus zero is zero. */
  predicate Spells(s: string, n: nat, k: nat) {
    || s == Zeros(k) + FormatInt(n) || s == "+" + (Zeros(k) + FormatInt(n))
    || (n == 0 && s == "-" + (Zeros(k) + FormatInt(n)))
  }

  /** Without leading zeros there is one way to write a number in digits. */
  lemma {:induction false} DigitsSpell(d: string) returns (k: nat)
    requires d != "" && AllDigits(d)
    ensures d == Zeros(k) + FormatInt(Value(d))
  {
    var front, last := d[..|d| - 1], d[|d| - 1];
    assert d == front + [last];
    assert last == DigitChar(last as int - '0' as int);
    if front == "" {
      k := 0;
    } else {
      k := DigitsSpell(front);
      assert Value(d) == 10 * Value(front) + (last as int - '0' as int);
      if Value(front) == 0 {
        assert FormatInt(0) == "0";
        assert Zeros(k + 1) == front;
        k := k + 1;
      } else {
        assert FormatInt(Value(d)) == FormatInt(Value(front)) + [last];
      }
    }
  }

  lemma {:induction false} ZerosAddNothing(k: nat, d: string)
    requires AllDigits(d)
    ensures AllDigits(Zeros(k) + d) && Value(Zeros(k) + d) == Value(d)
    decreases k + |d|
  {
    var all := Zeros(k) + d;
    if d != "" {
      ZerosAddNothing(k, d[..|d| - 1]);
      assert all[..|all| - 1] == Zeros(k) + d[..|d| - 1];
    } else if k > 0 {
      ZerosAddNothing(k - 1, "");
      assert all == Zeros(k - 1) + "" + "0" && all[..|all| - 1] == Zeros(k - 1) + "";
    }
  }

  lemma DigitsParse(d: string)
    requires d != "" && AllDigits(d) && Value(d) <= MAX_INT64
    ensures ParseInt64(d) == Some(Value(d))
  {
    assert IsDigit(d[0]);
  }

  lemma SignedDigitsParse(sign: char, d: string)
    requires d != "" && AllDigits(d) && Value(d) <= MAX_INT64 && sign in {'+', '-'}
    ensures sign == '+' ==> ParseInt64([sign] + d) == Some(Value(d))
    ensures sign == '-' && Value(d) == 0 ==> ParseInt64([sign] + d) == Some(0)
  {
    assert ([sign] + d)[1..] == d;
  }

  lemma SpelledParses(s: string, n: nat, k: nat)
    requires n <= MAX_INT64 && Spells(s, n, k)
    ensures ParseInt64(s) == Some(n)
  {
    var d := Zeros(k) + FormatInt(n);
    ZerosAddNothing(k, FormatInt(n));
    if s == d {
      DigitsParse(d);
    } else {
      SignedDigitsParse(s[0], d);
    }
  }

  lemma ParsedSpells(s: string, n: nat) returns (k: nat)
    requires ParseInt64(s) == Some(n)
    ensures Spells(s, n, k)
  {
    if s[0] == '-' || s[0] == '+' {
      k := DigitsSpell(s[1..]);
      assert s == [s[0]] + s[1..];
    } else {
      k := DigitsSpell(s);
    }
  }

  /** The strings that parse to an int64 that is not negative are the printed numeral with any number
      of zeros and at most one sign in front. */
  lemma ParsedIsSpelled(s: string, n: nat)
    requires n <= MAX_INT64
    ensures ParseInt64(s) == Some(n) <==> exists k: nat :: Spells(s, n, k)
  {
    if ParseInt64(s) == Some(n) {
      var k := ParsedSpells(s, n);
    }
    if k: nat :| Spells(s, n, k) {
      SpelledParses(s, n, k);
    }
  }
}
