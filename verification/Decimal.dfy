/** Decimal numerals: Python's str(int), int() of digits, and zero-padded eight-digit lengths. */
module Decimal {
  import opened Wrappers

  predicate IsDigit(c: char) {
    '0' <= c <= '9'
  }

  function DigitChar(d: nat): (c: char)
    requires d < 10
    ensures IsDigit(c)
  {
    ('0' as int + d) as char
  }

  function DigitValue(c: char): (d: nat)
    requires IsDigit(c)
    ensures d < 10
  {
    c as int - '0' as int
  }

  /** str(n) for n >= 0. */
  function Digits(n: nat): (s: string)
    ensures |s| >= 1 && forall i :: 0 <= i < |s| ==> IsDigit(s[i])
  {
    if n < 10 then [DigitChar(n)] else Digits(n / 10) + [DigitChar(n % 10)]
  }

  /** str(n) for any integer. */
  function Text(n: int): string {
    if n < 0 then "-" + Digits(-n) else Digits(n)
  }

  /** The number a run of digits denotes, leading zeros allowed. */
  function Value(s: string): nat
    requires forall i :: 0 <= i < |s| ==> IsDigit(s[i])
  {
    if s == [] then 0 else Value(s[..|s| - 1]) * 10 + DigitValue(s[|s| - 1])
  }

  lemma {:induction false} ValueOfDigits(n: nat)
    ensures Value(Digits(n)) == n
  {
    if n >= 10 {
      ValueOfDigits(n / 10);
      assert Digits(n)[..|Digits(n)| - 1] == Digits(n / 10);
    }
  }

  /** A larger number never has fewer digits. */
  lemma {:induction false} LongerIfLarger(a: nat, b: nat)
    requires a <= b
    ensures |Digits(a)| <= |Digits(b)|
  {
    if b >= 10 && a >= 10 {
      LongerIfLarger(a / 10, b / 10);
    }
  }

  function Pow10(k: nat): nat {
    if k == 0 then 1 else 10 * Pow10(k - 1)
  }

  lemma {:induction false} DigitsWithin(n: nat, k: nat)
    requires k >= 1 && n < Pow10(k)
    ensures |Digits(n)| <= k
  {
    if n >= 10 {
      DigitsWithin(n / 10, k - 1);
    }
  }

  lemma {:induction false} DigitsBeyond(n: nat, k: nat)
    requires n >= Pow10(k)
    ensures |Digits(n)| > k
  {
    if k > 0 {
      DigitsBeyond(n / 10, k - 1);
    }
  }

  function Zeros(k: nat): (s: string)
    ensures |s| == k && forall i :: 0 <= i < k ==> s[i] == '0'
  {
    seq(k, _ => '0')
  }

  /** f"{n:08d}": padded to eight digits, wider when the number needs more. */
  function Pad8(n: nat): (s: string)
    ensures |s| >= 8 && forall i :: 0 <= i < |s| ==> IsDigit(s[i])
  {
    var d := Digits(n);
    if |d| < 8 then Zeros(8 - |d|) + d else d
  }

  lemma {:induction false} LeadingZeros(k: nat, s: string)
    requires forall i :: 0 <= i < |s| ==> IsDigit(s[i])
    ensures Value(Zeros(k) + s) == Value(s)
  {
    var t := Zeros(k) + s;
    if s != [] {
      assert t[..|t| - 1] == Zeros(k) + s[..|s| - 1];
      LeadingZeros(k, s[..|s| - 1]);
    } else if k > 0 {
      assert t[..|t| - 1] == Zeros(k - 1) + s;
      LeadingZeros(k - 1, s);
    }
  }

  lemma Pad8Reads(n: nat)
    requires n < 100_000_000
    ensures |Pad8(n)| == 8 && Value(Pad8(n)) == n
  {
    DigitsWithin(n, 8);
    ValueOfDigits(n);
    LeadingZeros(8 - |Digits(n)|, Digits(n));
    if |Digits(n)| == 8 {
      assert Pad8(n) == Digits(n);
    }
  }

  // Python's int(): surrounding whitespace, a sign, and single underscores between digits are
  // accepted; more digits than the interpreter's conversion limit are not.

  const MAX_STR_DIGITS := 4300

  predicate IsSpace(c: char) {
    var n := c as int;
    n == 0x20 || 0x09 <= n <= 0x0D
  }

  function Strip(s: string): string {
    if s == [] then s
    else if IsSpace(s[0]) then Strip(s[1..])
    else if IsSpace(s[|s| - 1]) then Strip(s[..|s| - 1])
    else s
  }

  /** Scans a run of digits in which single underscores may stand between two of them; `open` says
      that a digit must come next. */
  function Scan(s: string, value: nat, digits: nat, open: bool): Option<nat> {
    if s == [] then
      if open || digits > MAX_STR_DIGITS then None else Some(value)
    else if IsDigit(s[0]) then
      Scan(s[1..], value * 10 + DigitValue(s[0]), digits + 1, false)
    else if s[0] == '_' && !open then
      Scan(s[1..], value, digits, true)
    else
      None
  }

  /** int(text): None stands for ValueError. */
  function ParseInt(text: string): Option<int> {
    var s := Strip(text);
    if s != [] && (s[0] == '+' || s[0] == '-') then
      match Scan(s[1..], 0, 0, true)
      case None => None
      case Some(n) => Some(if s[0] == '-' then 0 - n else n)
    else
      match Scan(s, 0, 0, true)
      case None => None
      case Some(n) => Some(n)
  }

  lemma {:induction false} ScanDigits(s: string, before: string)
    requires forall i :: 0 <= i < |s| ==> IsDigit(s[i])
    requires forall i :: 0 <= i < |before| ==> IsDigit(before[i])
    requires 0 < |before| + |s| <= MAX_STR_DIGITS
    ensures Scan(s, Value(before), |before|, before == []) == Some(Value(before + s))
    decreases |s|
  {
    if s == [] {
      assert before + s == before;
    } else {
      var more := before + [s[0]];
      assert more[..|before|] == before;
      assert more + s[1..] == before + s;
      ScanDigits(s[1..], more);
    }
  }

  lemma ScanAll(s: string)
    requires 0 < |s| <= MAX_STR_DIGITS
    requires forall i :: 0 <= i < |s| ==> IsDigit(s[i])
    ensures Scan(s, 0, 0, true) == Some(Value(s))
  {
    ScanDigits(s, []);
    assert [] + s == s;
  }

  lemma NothingToStrip(s: string)
    requires s != [] && IsDigit(s[0]) && IsDigit(s[|s| - 1])
    ensures Strip(s) == s
  {
  }

  lemma ParseDigits(s: string)
    requires 0 < |s| <= MAX_STR_DIGITS
    requires forall i :: 0 <= i < |s| ==> IsDigit(s[i])
    ensures ParseInt(s) == Some(Value(s))
  {
    NothingToStrip(s);
    ScanAll(s);
  }
}
