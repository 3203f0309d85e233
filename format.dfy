/**
 * The `mm:ss` text the timer shows for its remaining seconds: the minutes are
 * `Math.floor(remaining / 60)` and the seconds `remaining % 60`, each turned into
 * a decimal string and padded on the left with '0' to two characters.
 */
module Format {
  import opened Wrappers

  predicate IsDigit(c: char) { '0' <= c <= '9' }

  predicate AllDigits(s: string) { forall i :: 0 <= i < |s| ==> IsDigit(s[i]) }

  function DigitValue(c: char): (d: nat)
    requires IsDigit(c)
    ensures d < 10
  {
    c as int - '0' as int
  }

  function DigitChar(d: nat): (c: char)
    requires d < 10
    ensures IsDigit(c) && DigitValue(c) == d
  {
    ('0' as int + d) as char
  }

  /** `String(n)` for a non-negative integer: its decimal digits, without leading zeros. */
  function Decimal(n: nat): (s: string)
    ensures AllDigits(s)
    ensures 1 <= |s|
    ensures |s| == 1 <==> n < 10
    ensures 1 < |s| ==> s[0] != '0'
    decreases n
  {
    if n < 10 then [DigitChar(n)] else Decimal(n / 10) + [DigitChar(n % 10)]
  }

  /** `s.padStart(2, '0')`. */
  function PadTwo(s: string): (r: string)
    ensures |r| == if |s| < 2 then 2 else |s|
    ensures r[|r| - |s|..] == s
    ensures forall i :: 0 <= i < |r| - |s| ==> r[i] == '0'
  {
    if |s| >= 2 then s else if |s| == 1 then ['0'] + s else "00"
  }

  /** The `mm` part (App.jsx:183). */
  function MinuteText(remaining: nat): (r: string)
    ensures |r| >= 2 && AllDigits(r)
  {
    PadTwo(Decimal(remaining / 60))
  }

  /** The `ss` part (App.jsx:184). */
  function SecondText(remaining: nat): (r: string)
    ensures |r| == 2 && AllDigits(r)
  {
    var n := remaining % 60;
    assert n >= 10 ==> |Decimal(n / 10)| == 1;
    PadTwo(Decimal(n))
  }

  /** What the timer displays: `{mm}:{ss}`. */
  function Display(remaining: nat): (r: string)
    ensures |r| >= 5 && r[|r| - 3] == ':'
    ensures AllDigits(r[..|r| - 3]) && AllDigits(r[|r| - 2..])
  {
    MinuteText(remaining) + ":" + SecondText(remaining)
  }

  /** The number a string of decimal digits denotes, most significant digit first. */
  function DigitsValue(s: string): nat
    requires AllDigits(s)
  {
    if s == [] then 0 else DigitsValue(s[..|s| - 1]) * 10 + DigitValue(s[|s| - 1])
  }

  /** Reads a displayed time back into seconds: digits, a colon, two digits. */
  function ReadDisplay(t: string): Option<nat>
  {
    if |t| >= 3 && t[|t| - 3] == ':' && AllDigits(t[..|t| - 3]) && AllDigits(t[|t| - 2..]) then
      Some(DigitsValue(t[..|t| - 3]) * 60 + DigitsValue(t[|t| - 2..]))
    else
      None
  }

  lemma {:induction false} DecimalValue(n: nat)
    ensures DigitsValue(Decimal(n)) == n
    decreases n
  {
    var s := Decimal(n);
    if n >= 10 {
      assert s[..|s| - 1] == Decimal(n / 10);
      DecimalValue(n / 10);
    }
  }

  lemma PadTwoValue(s: string)
    requires AllDigits(s)
    ensures AllDigits(PadTwo(s)) && DigitsValue(PadTwo(s)) == DigitsValue(s)
  {
  }

  /** `ss` is always two digits that read as a number of seconds 0..59. */
  lemma SecondTextShape(remaining: nat)
    ensures |SecondText(remaining)| == 2 && AllDigits(SecondText(remaining))
    ensures DigitsValue(SecondText(remaining)) == remaining % 60 < 60
  {
    var n := remaining % 60;
    if n >= 10 {
      assert |Decimal(n / 10)| == 1;
    }
    PadTwoValue(Decimal(n));
    DecimalValue(n);
  }

  /** `mm` is at least two digits that read as the whole minutes of `remaining`. */
  lemma MinuteTextShape(remaining: nat)
    ensures |MinuteText(remaining)| >= 2 && AllDigits(MinuteText(remaining))
    ensures DigitsValue(MinuteText(remaining)) == remaining / 60
  {
    PadTwoValue(Decimal(remaining / 60));
    DecimalValue(remaining / 60);
  }

  /** Reading the display back gives the remaining seconds: `mm * 60 + ss == remaining`. */
  lemma DisplayRoundTrip(remaining: nat)
    ensures ReadDisplay(Display(remaining)) == Some(remaining)
  {
    var m, s := MinuteText(remaining), SecondText(remaining);
    var t := Display(remaining);
    MinuteTextShape(remaining);
    SecondTextShape(remaining);
    assert t[..|t| - 3] == m;
    assert t[|t| - 2..] == s;
    assert t[|t| - 3] == ':';
  }

  /** Different remaining times never show the same text. */
  lemma DisplayInjective(a: nat, b: nat)
    requires Display(a) == Display(b)
    ensures a == b
  {
    DisplayRoundTrip(a);
    DisplayRoundTrip(b);
  }
}
