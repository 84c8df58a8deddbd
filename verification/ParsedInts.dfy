/** What Python's int() makes of a text, exactly: agent.py, decode_frames, reads its lengths and token
    counts with it. */
module ParsedInts {
  import opened Wrappers
  import opened Decimal

  /** Blank, tab, and the four line characters between tab and blank. */
  predicate White(c: char) {
    c as int in {9, 10, 11, 12, 13, 32}
  }

  lemma {:induction false} LeadingWhite(a: string, s: string)
    requires forall c :: c in a ==> White(c)
    ensures Strip(a + s) == Strip(s)
  {
    if a == "" {
      assert a + s == s;
    } else {
      assert a[0] in a && White(a[0]);
      assert (a + s)[0] == a[0] && (a + s)[1..] == a[1..] + s;
      LeadingWhite(a[1..], s);
    }
  }

  lemma {:induction false} TrailingWhite(s: string, b: string)
    requires s != "" && !White(s[0]) && !White(s[|s| - 1])
    requires forall c :: c in b ==> White(c)
    ensures Strip(s + b) == s
    decreases |b|
  {
    if b == "" {
      assert s + b == s;
    } else {
      assert b[|b| - 1] in b && White(b[|b| - 1]);
      assert (s + b)[0] == s[0] && (s + b)[|s + b| - 1] == b[|b| - 1];
      assert (s + b)[..|s + b| - 1] == s + b[..|b| - 1];
      TrailingWhite(s, b[..|b| - 1]);
    }
  }

  /** White space around a numeral makes no difference, and nothing else is taken off. */
  lemma StripsWhite(a: string, s: string, b: string)
    requires forall c :: c in a || c in b ==> White(c)
    requires s != "" && !White(s[0]) && !White(s[|s| - 1])
    ensures Strip(a + (s + b)) == s
  {
    LeadingWhite(a, s + b);
    TrailingWhite(s, b);
  }

  /** The digits of a text that holds digits and underscores. */
  function Plain(s: string): string {
    if s == "" then "" else if s[0] == '_' then Plain(s[1..]) else [s[0]] + Plain(s[1..])
  }

  /** Digits, with single underscores between two of them; `open` when the text stands behind a sign, an
      underscore or nothing. */
  predicate Grouped(s: string, open: bool) {
    && (forall i :: 0 <= i < |s| ==> IsDigit(s[i]) || s[i] == '_')
    && (forall i :: 0 <= i < |s| - 1 ==> !(s[i] == '_' && s[i + 1] == '_'))
    && (if s == "" then !open else s[|s| - 1] != '_' && (open ==> s[0] != '_'))
  }

  lemma {:induction false} PlainAreDigits(s: string)
    requires forall i :: 0 <= i < |s| ==> IsDigit(s[i]) || s[i] == '_'
    ensures forall i :: 0 <= i < |Plain(s)| ==> IsDigit(Plain(s)[i])
  {
    if s != "" {
      PlainAreDigits(s[1..]);
    }
  }

  lemma GroupedStep(s: string, open: bool)
    requires s != ""
    ensures IsDigit(s[0]) ==> (Grouped(s, open) <==> Grouped(s[1..], false))
    ensures s[0] == '_' ==> (Grouped(s, open) <==> !open && Grouped(s[1..], true))
    ensures !IsDigit(s[0]) && s[0] != '_' ==> !Grouped(s, open)
  {
    var t := s[1..];
    if Grouped(t, s[0] == '_') && (IsDigit(s[0]) || (s[0] == '_' && !open)) {
      forall i | 0 <= i < |s|
        ensures IsDigit(s[i]) || s[i] == '_'
      {
        assert i > 0 ==> s[i] == t[i - 1];
      }
      forall i | 0 <= i < |s| - 1
        ensures !(s[i] == '_' && s[i + 1] == '_')
      {
        assert s[i + 1] == t[i];
        assert i > 0 ==> s[i] == t[i - 1];
      }
    }
    if Grouped(s, open) {
      forall i | 0 <= i < |t| - 1
        ensures !(t[i] == '_' && t[i + 1] == '_')
      {
        assert t[i] == s[i + 1] && t[i + 1] == s[i + 2];
      }
    }
  }

  /** The value a run of digits denotes, and nothing for anything else. */
  function Denotes(s: string): nat {
    if forall i :: 0 <= i < |s| ==> IsDigit(s[i]) then Value(s) else 0
  }

  /** What the scan is to make of `s` behind the digits `before`. */
  function Scanned(s: string, before: string, open: bool): Option<nat> {
    if Grouped(s, open) && |before| + |Plain(s)| <= 4300 then Some(Denotes(before + Plain(s))) else None
  }

  lemma DigitScanned(s: string, before: string, open: bool)
    requires s != "" && IsDigit(s[0])
    ensures Scanned(s, before, open) == Scanned(s[1..], before + [s[0]], false)
  {
    GroupedStep(s, open);
    assert before + [s[0]] + Plain(s[1..]) == before + Plain(s);
  }

  lemma OtherScanned(s: string, before: string, open: bool)
    requires s != "" && !IsDigit(s[0])
    ensures Scanned(s, before, open) == if s[0] == '_' && !open then Scanned(s[1..], before, true) else None
  {
    GroupedStep(s, open);
  }

  lemma ValueGrows(before: string, c: char)
    requires IsDigit(c) && forall i :: 0 <= i < |before| ==> IsDigit(before[i])
    ensures Value(before + [c]) == Value(before) * 10 + DigitValue(c)
  {
    assert (before + [c])[..|before|] == before;
  }

  lemma {:induction false} ScanMeans(s: string, before: string, open: bool)
    requires forall i :: 0 <= i < |before| ==> IsDigit(before[i])
    ensures Scan(s, Value(before), |before|, open) == Scanned(s, before, open)
    decreases |s|
  {
    if s == "" {
      assert before + "" == before;
    } else {
      if IsDigit(s[0]) {
        ValueGrows(before, s[0]);
        DigitScanned(s, before, open);
        ScanMeans(s[1..], before + [s[0]], false);
      } else {
        OtherScanned(s, before, open);
        if s[0] == '_' && !open {
          ScanMeans(s[1..], before, true);
        }
      }
    }
  }

  /** int(text): between white space, an optional sign and then digits, grouped by single underscores, at
      most 4300 of them; anything else is refused. */
  lemma ParseIntMeans(text: string)
    ensures var s := Strip(text);
            var signed := s != "" && (s[0] == '-' || s[0] == '+');
            var body := if signed then s[1..] else s;
            ParseInt(text) ==
              if !(Grouped(body, true) && |Plain(body)| <= 4300) then None
              else if signed && s[0] == '-' then Some(0 - Denotes(Plain(body)))
              else Some(Denotes(Plain(body)))
  {
    var s := Strip(text);
    var body := if s != "" && (s[0] == '-' || s[0] == '+') then s[1..] else s;
    ScanMeans(body, "", true);
    assert "" + Plain(body) == Plain(body);
  }
}
