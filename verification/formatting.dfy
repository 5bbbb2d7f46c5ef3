/** The two remaining-time formatters: `formatTimeRemaining` of
    lib/utils/format-time.ts ("2h 05m", "4m 07s", "9s") and the one of
    components/place/countdown.tsx ("2:05:07", "04:07"). Inputs are whole seconds. */
module Formatting {

  function DigitChar(d: nat): (c: char)
    requires d < 10
    ensures '0' <= c <= '9' && c as int - '0' as int == d
  {
    (d + '0' as int) as char
  }

  predicate IsDigit(c: char)
  {
    '0' <= c <= '9'
  }

  /** `${n}` for a non-negative integer: decimal digits, no leading zero. */
  function NatToString(n: nat): (s: string)
    ensures |s| >= 1 && (|s| > 1 ==> s[0] != '0')
    ensures n < 100 ==> |s| == if n < 10 then 1 else 2
    ensures forall i :: 0 <= i < |s| ==> IsDigit(s[i])
  {
    if n < 10 then [DigitChar(n)] else NatToString(n / 10) + [DigitChar(n % 10)]
  }

  /** `n.toString().padStart(2, '0')`. */
  function Pad2(n: nat): (s: string)
    ensures n < 100 ==> |s| == 2
    ensures forall i :: 0 <= i < |s| ==> IsDigit(s[i])
  {
    if n < 10 then "0" + NatToString(n) else NatToString(n)
  }

  /** Value of a string of decimal digits, leading zeros allowed. */
  function ParseNat(s: string): nat
  {
    if s == [] then 0
    else ParseNat(s[..|s| - 1]) * 10 + (if IsDigit(s[|s| - 1]) then s[|s| - 1] as int - '0' as int else 0)
  }

  lemma {:induction false} ParseNatToString(n: nat)
    ensures ParseNat(NatToString(n)) == n
  {
    if n >= 10 {
      var a := NatToString(n / 10);
      ParseNatToString(n / 10);
      assert (a + [DigitChar(n % 10)])[..|a|] == a;
    }
  }

  lemma ParsePad2(n: nat)
    ensures ParseNat(Pad2(n)) == n
  {
    ParseNatToString(n);
    if n < 10 {
      assert ("0" + NatToString(n))[..1] == "0";
    }
  }

  /** `s.split(sep)`. */
  function SplitOn(s: string, sep: char): (parts: seq<string>)
    ensures |parts| >= 1
  {
    if s == [] then [""]
    else if s[0] == sep then [""] + SplitOn(s[1..], sep)
    else
      var rest := SplitOn(s[1..], sep);
      [[s[0]] + rest[0]] + rest[1..]
  }

  lemma {:induction false} SplitNoSep(a: string, sep: char)
    requires sep !in a
    ensures SplitOn(a, sep) == [a]
  {
    if a != [] {
      SplitNoSep(a[1..], sep);
      assert [a[0]] + a[1..] == a;
    }
  }

  lemma {:induction false} SplitJoin(a: string, sep: char, b: string)
    requires sep !in a
    ensures SplitOn(a + [sep] + b, sep) == [a] + SplitOn(b, sep)
  {
    if a == [] {
      assert a + [sep] + b == [sep] + b;
      assert ([sep] + b)[1..] == b;
    } else {
      SplitJoin(a[1..], sep, b);
      assert (a + [sep] + b)[1..] == a[1..] + [sep] + b;
      assert [a[0]] + a[1..] == a;
    }
  }

  lemma DigitsHaveNoSeparator(n: nat, sep: char)
    requires !IsDigit(sep)
    ensures sep !in NatToString(n) && sep !in Pad2(n)
  {
  }

  datatype Clock = Clock(h: nat, m: nat, s: nat)

  lemma ModOfMultiple(k: int, r: int)
    ensures (60 * k + r) % 60 == r % 60
  {
  }

  /** Whole hours, minutes and seconds of `t` seconds, as both formatters
      compute them: `floor(t / 3600)`, `floor((t % 3600) / 60)` and `t % 60`. */
  function SplitSeconds(t: nat): (c: Clock)
    ensures c.h * 3600 + c.m * 60 + c.s == t
    ensures c.m < 60 && c.s < 60 && c.s == t % 60
    ensures c.h == 0 <==> t < 3600
  {
    var h, r := t / 3600, t % 3600;
    ModOfMultiple(60 * h, r);
    assert 60 * (60 * h) + r == t;
    Clock(h, r / 60, t % 60)
  }

  /** `formatTimeRemaining` of lib/utils/format-time.ts: hours and minutes from
      an hour on, minutes and seconds from a minute on, seconds below that. */
  function FormatTimeRemaining(totalSeconds: int): (r: string)
    ensures |r| >= 2
    ensures r[|r| - 1] == (if totalSeconds >= 3600 then 'm' else 's')
    ensures ' ' in r <==> totalSeconds >= 60
  {
    if totalSeconds <= 0 then "0s"
    else
      var c := SplitSeconds(totalSeconds);
      if c.h > 0 then NatToString(c.h) + "h " + Pad2(c.m) + "m"
      else if c.m > 0 then NatToString(c.m) + "m " + Pad2(c.s) + "s"
      else NatToString(c.s) + "s"
  }

  /** Seconds a "12h", "05m" or "7s" token stands for. */
  function TokenSeconds(tok: string): nat
  {
    if tok == [] then 0
    else
      var n := ParseNat(tok[..|tok| - 1]);
      var unit := tok[|tok| - 1];
      if unit == 'h' then n * 3600 else if unit == 'm' then n * 60 else if unit == 's' then n else 0
  }

  /** Reading of a `formatTimeRemaining` string: the sum of its space-separated tokens. */
  function ReadDuration(s: string): nat
  {
    var toks := SplitOn(s, ' ');
    if |toks| == 1 then TokenSeconds(toks[0])
    else if |toks| == 2 then TokenSeconds(toks[0]) + TokenSeconds(toks[1])
    else 0
  }

  lemma TokenOf(n: nat, digits: string, unit: char)
    requires digits == NatToString(n) || digits == Pad2(n)
    ensures TokenSeconds(digits + [unit]) ==
      if unit == 'h' then n * 3600 else if unit == 'm' then n * 60 else if unit == 's' then n else 0
  {
    ParseNatToString(n);
    ParsePad2(n);
    assert (digits + [unit])[..|digits|] == digits;
  }

  /** Reading "<d1><u1> <d2><u2>" adds up the two tokens. */
  lemma ReadTwoTokens(a: string, b: string)
    requires ' ' !in a && ' ' !in b
    ensures ReadDuration(a + " " + b) == TokenSeconds(a) + TokenSeconds(b)
  {
    SplitJoin(a, ' ', b);
    SplitNoSep(b, ' ');
  }

  lemma ReadHours(h: nat, m: nat)
    ensures ReadDuration(NatToString(h) + "h " + Pad2(m) + "m") == h * 3600 + m * 60
  {
    var a := NatToString(h) + ['h'];
    var b := Pad2(m) + ['m'];
    assert NatToString(h) + "h " + Pad2(m) + "m" == a + " " + b;
    DigitsHaveNoSeparator(h, ' ');
    DigitsHaveNoSeparator(m, ' ');
    ReadTwoTokens(a, b);
    TokenOf(h, NatToString(h), 'h');
    TokenOf(m, Pad2(m), 'm');
  }

  lemma ReadMinutes(m: nat, s: nat)
    ensures ReadDuration(NatToString(m) + "m " + Pad2(s) + "s") == m * 60 + s
  {
    var a := NatToString(m) + ['m'];
    var b := Pad2(s) + ['s'];
    assert NatToString(m) + "m " + Pad2(s) + "s" == a + " " + b;
    DigitsHaveNoSeparator(m, ' ');
    DigitsHaveNoSeparator(s, ' ');
    ReadTwoTokens(a, b);
    TokenOf(m, NatToString(m), 'm');
    TokenOf(s, Pad2(s), 's');
  }

  lemma ReadSeconds(s: nat)
    ensures ReadDuration(NatToString(s) + "s") == s
  {
    DigitsHaveNoSeparator(s, ' ');
    SplitNoSep(NatToString(s) + "s", ' ');
    TokenOf(s, NatToString(s), 's');
  }

  /** The string reads back as the duration itself below an hour, and as the
      duration cut down to whole minutes from an hour on: the seconds are dropped. */
  lemma FormatTimeRoundTrip(t: int)
    ensures ReadDuration(FormatTimeRemaining(t)) ==
      if t <= 0 then 0 else if t >= 3600 then t - t % 60 else t
  {
    if t <= 0 {
      ReadSeconds(0);
    } else {
      var c := SplitSeconds(t);
      if c.h > 0 {
        ReadHours(c.h, c.m);
      } else if c.m > 0 {
        ReadMinutes(c.m, c.s);
      } else {
        ReadSeconds(c.s);
      }
    }
  }

  /** The countdown's `formatTimeRemaining` (components/place/countdown.tsx). */
  function FormatCountdown(totalSeconds: int): (r: string)
    ensures totalSeconds < 3600 ==> |r| == 5 && r[2] == ':'
  {
    if totalSeconds <= 0 then "00:00"
    else
      var c := SplitSeconds(totalSeconds);
      if c.h > 0 then NatToString(c.h) + ":" + Pad2(c.m) + ":" + Pad2(c.s)
      else Pad2(c.m) + ":" + Pad2(c.s)
  }

  /** Reading of a clock string: "h:mm:ss" or "mm:ss". */
  function ReadClock(s: string): nat
  {
    var f := SplitOn(s, ':');
    if |f| == 3 then ParseNat(f[0]) * 3600 + ParseNat(f[1]) * 60 + ParseNat(f[2])
    else if |f| == 2 then ParseNat(f[0]) * 60 + ParseNat(f[1])
    else 0
  }

  /** Reading "x:y:z" weighs its fields as hours, minutes and seconds. */
  lemma ReadThreeFields(x: string, y: string, z: string)
    requires ':' !in x && ':' !in y && ':' !in z
    ensures ReadClock(x + ":" + y + ":" + z) == ParseNat(x) * 3600 + ParseNat(y) * 60 + ParseNat(z)
  {
    var tail := y + [':'] + z;
    assert x + ":" + y + ":" + z == x + [':'] + tail;
    SplitNoSep(z, ':');
    SplitJoin(y, ':', z);
    SplitJoin(x, ':', tail);
    var f := SplitOn(x + ":" + y + ":" + z, ':');
    assert f == [x, y, z];
    assert |f| == 3 && f[0] == x && f[1] == y && f[2] == z;
  }

  /** Reading "y:z" weighs its fields as minutes and seconds. */
  lemma ReadTwoFields(y: string, z: string)
    requires ':' !in y && ':' !in z
    ensures ReadClock(y + ":" + z) == ParseNat(y) * 60 + ParseNat(z)
  {
    SplitNoSep(z, ':');
    SplitJoin(y, ':', z);
  }

  lemma ReadLongClock(h: nat, m: nat, s: nat)
    ensures ReadClock(NatToString(h) + ":" + Pad2(m) + ":" + Pad2(s)) == h * 3600 + m * 60 + s
  {
    DigitsHaveNoSeparator(h, ':');
    DigitsHaveNoSeparator(m, ':');
    DigitsHaveNoSeparator(s, ':');
    ReadThreeFields(NatToString(h), Pad2(m), Pad2(s));
    ParseNatToString(h);
    ParsePad2(m);
    ParsePad2(s);
  }

  lemma ReadShortClock(m: nat, s: nat)
    ensures ReadClock(Pad2(m) + ":" + Pad2(s)) == m * 60 + s
  {
    DigitsHaveNoSeparator(m, ':');
    DigitsHaveNoSeparator(s, ':');
    ReadTwoFields(Pad2(m), Pad2(s));
    ParsePad2(m);
    ParsePad2(s);
  }

  /** The countdown loses nothing: its fields recompose to the input (0 for a past instant). */
  lemma CountdownRoundTrip(t: int)
    ensures ReadClock(FormatCountdown(t)) == if t <= 0 then 0 else t
  {
    if t <= 0 {
      assert Pad2(0) == "00";
      assert "00:00" == Pad2(0) + ":" + Pad2(0);
      ReadShortClock(0, 0);
    } else {
      var c := SplitSeconds(t);
      if c.h > 0 {
        ReadLongClock(c.h, c.m, c.s);
      } else {
        ReadShortClock(c.m, c.s);
      }
    }
  }

  /** Two hours, five minutes and seven seconds in both formats. */
  lemma FormatExamples()
    ensures FormatTimeRemaining(7507) == "2h 05m"
    ensures FormatCountdown(7507) == "2:05:07"
    ensures FormatCountdown(247) == "04:07"
  {
    assert NatToString(2) == "2";
    assert Pad2(5) == "05";
    assert Pad2(7) == "07";
    assert Pad2(4) == "04";
  }
}
