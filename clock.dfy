/**
 * The timer display of game.js: `formatTime` renders a number of seconds
 * as "minutes:seconds", each part written in decimal and padded on the left
 * with zeros to at least two digits.
 *
 * Its partner is `ParseClock`, a reader of that format; the round trip
 * `ParseClock(FormatTime(t)) == Some(t)` says that the display loses nothing
 * and that its seconds part is below 60.
 */
module Clock {
  import opened Wrappers

  predicate IsDigit(c: char) {
    '0' <= c <= '9'
  }

  predicate AllDigits(s: string) {
    forall i :: 0 <= i < |s| ==> IsDigit(s[i])
  }

  /** The number a string of decimal digits denotes (most significant first). */
  function DigitsValue(s: string): nat
    requires AllDigits(s)
  {
    if s == [] then 0
    else DigitsValue(s[..|s| - 1]) * 10 + (s[|s| - 1] as int - '0' as int)
  }

  /** The decimal digit for `d`. */
  function Digit(d: nat): (c: char)
    requires d < 10
    ensures IsDigit(c) && c as int - '0' as int == d
  {
    ('0' as int + d) as char
  }

  /** JavaScript's `String(n)` for a non-negative integer: no leading zeros, "0" for zero. */
  function NatToString(n: nat): (s: string)
    ensures AllDigits(s)
    ensures n < 10 <==> |s| == 1
    ensures n < 100 <==> |s| <= 2
    ensures |s| >= 1
    ensures n >= 10 ==> s[0] != '0'
  {
    if n < 10 then [Digit(n)] else NatToString(n / 10) + [Digit(n % 10)]
  }

  /** JavaScript's `s.padStart(width, fill)` for a one-character fill string. */
  function PadStart(s: string, width: nat, fill: char): (r: string)
    ensures |r| == if |s| >= width then |s| else width
    ensures r[|r| - |s|..] == s
    ensures forall i :: 0 <= i < |r| - |s| ==> r[i] == fill
  {
    if |s| >= width then s else Repeat(fill, width - |s|) + s
  }

  /** `count` copies of `c`. */
  function Repeat(c: char, count: nat): (r: string)
    ensures |r| == count
    ensures forall i :: 0 <= i < count ==> r[i] == c
  {
    if count == 0 then [] else Repeat(c, count - 1) + [c]
  }

  /** `formatTime(totalSeconds)` for the non-negative counts the game keeps in `elapsed`. */
  function FormatTime(totalSeconds: nat): (r: string)
    ensures |r| >= 5 && r[|r| - 3] == ':'
    ensures totalSeconds < 6000 <==> |r| == 5
    ensures totalSeconds >= 6000 ==> r[0] != '0'
  {
    var minutes := totalSeconds / 60;
    var seconds := totalSeconds % 60;
    var m := PadStart(NatToString(minutes), 2, '0');
    var s := PadStart(NatToString(seconds), 2, '0');
    PaddedDigits(minutes, 2);
    PaddedDigits(seconds, 2);
    ClockShape(m + ":" + s, m, s);
    assert totalSeconds < 6000 <==> minutes < 100;
    m + ":" + s
  }

  /** Padding a decimal rendering with zeros keeps it a digit string of at least `width` characters. */
  lemma PaddedDigits(n: nat, width: nat)
    ensures AllDigits(PadStart(NatToString(n), width, '0'))
    ensures |PadStart(NatToString(n), width, '0')| >= width
    ensures width == 2 ==> (n < 100 <==> |PadStart(NatToString(n), width, '0')| == 2)
  {
  }

  lemma ClockShape(r: string, m: string, s: string)
    requires r == m + ":" + s && |s| == 2
    ensures |r| == |m| + 3 && r[|r| - 3] == ':' && r[..|r| - 3] == m && r[|r| - 2..] == s
  {
  }

  /**
   * Reads a display "m...m:ss": at least two minute digits, a colon, exactly
   * two second digits denoting less than 60; gives the total number of seconds.
   */
  function ParseClock(r: string): Option<nat> {
    if |r| < 5 || r[|r| - 3] != ':' then None
    else
      var minutes, seconds := r[..|r| - 3], r[|r| - 2..];
      if !AllDigits(minutes) || !AllDigits(seconds) then None
      else if DigitsValue(seconds) >= 60 then None
      else Some(DigitsValue(minutes) * 60 + DigitsValue(seconds))
  }

  /** `String(n)` is read back as `n`. */
  lemma {:induction false} NatToStringRoundTrip(n: nat)
    ensures DigitsValue(NatToString(n)) == n
  {
    var s := NatToString(n);
    if n < 10 {
      assert s[..0] == [];
    } else {
      NatToStringRoundTrip(n / 10);
      assert s[..|s| - 1] == NatToString(n / 10);
    }
  }

  /** Leading zeros do not change the value of a digit string. */
  lemma {:induction false} LeadingZerosRoundTrip(zeros: string, s: string)
    requires forall i :: 0 <= i < |zeros| ==> zeros[i] == '0'
    requires AllDigits(s)
    ensures AllDigits(zeros + s)
    ensures DigitsValue(zeros + s) == DigitsValue(s)
    decreases |zeros| + |s|
  {
    var z := zeros + s;
    if s == [] {
      assert z == zeros;
      if zeros != [] {
        LeadingZerosRoundTrip(zeros[..|zeros| - 1], []);
        assert zeros[..|zeros| - 1] + [] == zeros[..|zeros| - 1];
      }
    } else {
      LeadingZerosRoundTrip(zeros, s[..|s| - 1]);
      assert z[..|z| - 1] == zeros + s[..|s| - 1];
    }
  }

  /** Padding with zeros keeps the value of the decimal rendering. */
  lemma PaddedRoundTrip(n: nat)
    ensures AllDigits(PadStart(NatToString(n), 2, '0'))
    ensures DigitsValue(PadStart(NatToString(n), 2, '0')) == n
  {
    var s := NatToString(n);
    var p := PadStart(s, 2, '0');
    NatToStringRoundTrip(n);
    var zeros := p[..|p| - |s|];
    assert p == zeros + s;
    LeadingZerosRoundTrip(zeros, s);
  }

  /** How `ParseClock` reads a string of the display's shape. */
  lemma ParseClockReads(r: string, t: nat)
    requires |r| >= 5 && r[|r| - 3] == ':'
    requires AllDigits(r[..|r| - 3]) && AllDigits(r[|r| - 2..])
    requires DigitsValue(r[..|r| - 3]) == t / 60 && DigitsValue(r[|r| - 2..]) == t % 60
    ensures ParseClock(r) == Some(t)
  {
  }

  /**
   * The display of `t` seconds is read back as `t`: its minute part is
   * `t div 60`, its second part `t mod 60`, below 60.
   */
  lemma FormatTimeRoundTrip(t: nat)
    ensures ParseClock(FormatTime(t)) == Some(t)
  {
    var r := FormatTime(t);
    var m := PadStart(NatToString(t / 60), 2, '0');
    var s := PadStart(NatToString(t % 60), 2, '0');
    PaddedDigits(t / 60, 2);
    PaddedDigits(t % 60, 2);
    ClockShape(r, m, s);
    PaddedRoundTrip(t / 60);
    PaddedRoundTrip(t % 60);
    ParseClockReads(r, t);
  }
}
