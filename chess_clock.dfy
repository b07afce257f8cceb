/** `formatTime` of apps/web/components/ChessClock.tsx: milliseconds to
    "m:ss". JavaScript's number-to-string, `%` and `padStart` are written
    out; the input is an exact real, not a double. */
module ChessClock {

  function DigitChar(d: nat): (c: char)
    requires d < 10
    ensures '0' <= c <= '9' && c as int - '0' as int == d
  {
    ('0' as int + d) as char
  }

  predicate IsDigits(s: string) {
    forall i :: 0 <= i < |s| ==> '0' <= s[i] <= '9'
  }

  /** `n.toString()` for a non-negative integer: decimal, no leading zero. */
  function Digits(n: nat): (s: string)
    ensures |s| >= 1 && IsDigits(s)
    ensures |s| == 1 <==> n < 10
    decreases n
  {
    if n < 10 then [DigitChar(n)] else Digits(n / 10) + [DigitChar(n % 10)]
  }

  /** Only zero itself is written with a leading '0'. */
  lemma {:induction false} DigitsLeading(n: nat)
    ensures Digits(n)[0] != '0' || n == 0
    decreases n
  {
    if n >= 10 {
      DigitsLeading(n / 10);
      assert Digits(n)[0] == Digits(n / 10)[0];
    }
  }

  /** The value of a digit string; the reference reading of `Digits`. */
  function ValueOf(s: string): nat
    requires IsDigits(s)
  {
    if s == [] then 0 else ValueOf(s[..|s| - 1]) * 10 + (s[|s| - 1] as int - '0' as int)
  }

  lemma {:induction false} DigitsRoundTrip(n: nat)
    ensures ValueOf(Digits(n)) == n
    decreases n
  {
    if n >= 10 {
      DigitsRoundTrip(n / 10);
      var s := Digits(n);
      assert s[..|s| - 1] == Digits(n / 10);
    }
  }

  /** `i.toString()` for any integer. */
  function NumberToString(i: int): string {
    if i < 0 then "-" + Digits(-i) else Digits(i)
  }

  /** `s.padStart(width, fill)`: fill characters in front up to `width`. */
  function PadStart(s: string, width: nat, fill: char): (r: string)
    ensures |r| == if |s| >= width then |s| else width
    ensures forall i :: 0 <= i < |s| ==> r[|r| - |s| + i] == s[i]
    ensures forall i :: 0 <= i < |r| - |s| ==> r[i] == fill
  {
    if |s| >= width then s else seq(width - |s|, _ => fill) + s
  }

  /** JavaScript's `%`: the remainder truncated toward zero, which takes
      the sign of the dividend. */
  function JsRem(a: int, b: int): (r: int)
    requires b > 0
    ensures a >= 0 ==> 0 <= r < b && r == a % b
    ensures a < 0 ==> -b < r <= 0 && -r == (-a) % b
    ensures (a - r) % b == 0
  {
    if a >= 0 then
      assert a - a % b == b * (a / b);
      MultipleMod(b, a / b);
      a % b
    else
      var q := (-a) / b;
      assert -a - (-a) % b == b * q;
      assert a - -((-a) % b) == b * -q;
      MultipleMod(b, -q);
      -((-a) % b)
  }

  lemma MulAtLeast(b: int, m: int)
    requires b > 0 && m >= 1
    ensures b * m >= b
  {
  }

  /** A multiple of b leaves no remainder. */
  lemma MultipleMod(b: int, q: int)
    requires b > 0
    ensures (b * q) % b == 0
  {
    var x := b * q;
    var m := q - x / b;
    assert x % b == b * q - b * (x / b);
    assert b * q - b * (x / b) == b * m;
    if m >= 1 {
      MulAtLeast(b, m);
    } else if m <= -1 {
      MulAtLeast(b, -m);
    }
  }

  /** Whole minutes and the seconds beyond them, as `formatTime` computes
      them: `Math.floor(seconds / 60)` and `seconds % 60`. */
  function ClockParts(ms: real): (p: (int, int))
    ensures ms >= 0.0 ==> p.0 >= 0 && p.0 * 60 + p.1 == (ms / 1000.0).Floor && 0 <= p.1 < 60
  {
    var seconds := (ms / 1000.0).Floor;
    (seconds / 60, JsRem(seconds, 60))
  }

  /** `formatTime`: for a non-negative time, digits of minutes, a colon
      and exactly two digits of seconds. */
  function FormatTime(ms: real): (r: string)
    ensures ms >= 0.0 ==>
              && |r| >= 4 && r[|r| - 3] == ':'
              && IsDigits(r[..|r| - 3]) && IsDigits(r[|r| - 2..])
  {
    var p := ClockParts(ms);
    Render(p.0, p.1)
  }

  /** Minutes, a colon and the seconds padded to two characters. */
  function Render(mins: int, secs: int): (r: string)
    ensures mins >= 0 && 0 <= secs < 60 ==>
              && |r| >= 4 && r[|r| - 3] == ':'
              && IsDigits(r[..|r| - 3]) && IsDigits(r[|r| - 2..])
  {
    var m := NumberToString(mins);
    var ss := PadStart(NumberToString(secs), 2, '0');
    var r := m + ":" + ss;
    if mins >= 0 && 0 <= secs < 60 then
      MinutesField(mins);
      SecondsField(secs);
      Joined(m, ss, r);
      r
    else
      r
  }

  lemma MinutesField(mins: int)
    requires mins >= 0
    ensures |NumberToString(mins)| >= 1 && IsDigits(NumberToString(mins))
  {
  }

  lemma SecondsField(secs: int)
    requires 0 <= secs < 60
    ensures var ss := PadStart(NumberToString(secs), 2, '0');
            |ss| == 2 && IsDigits(ss)
  {
  }

  /** Digits, a colon and two digits: where the colon stands. */
  lemma Joined(m: string, ss: string, r: string)
    requires |m| >= 1 && IsDigits(m) && |ss| == 2 && IsDigits(ss) && r == m + ":" + ss
    ensures |r| >= 4 && r[|r| - 3] == ':'
    ensures IsDigits(r[..|r| - 3]) && IsDigits(r[|r| - 2..])
  {
    assert r[..|r| - 3] == m;
    assert r[|r| - 2..] == ss;
  }

  /** A number of seconds below 60, padded: two digits worth that number. */
  lemma TwoDigitSeconds(n: nat)
    requires n < 60
    ensures var ss := PadStart(Digits(n), 2, '0');
            |ss| == 2 && IsDigits(ss) && ValueOf(ss) == n
  {
    var ss := PadStart(Digits(n), 2, '0');
    DigitsRoundTrip(n);
    if n < 10 {
      assert ss == ['0'] + Digits(n);
      assert ss[..1] == ['0'];
      assert ValueOf(ss[..1]) == 0;
    } else {
      assert ss == Digits(n);
    }
  }

  /** For a non-negative time: unpadded minutes, one ':', and exactly two
      digits of seconds, which read back to the parts of the time. */
  lemma FormatTimeShape(ms: real)
    requires ms >= 0.0
    ensures var (mins, secs) := ClockParts(ms);
            var m := Digits(mins as nat);
            var ss := PadStart(Digits(secs as nat), 2, '0');
            && FormatTime(ms) == m + ":" + ss
            && |ss| == 2 && IsDigits(ss) && IsDigits(m)
            && ValueOf(m) * 60 + ValueOf(ss) == (ms / 1000.0).Floor
            && ':' !in m && ':' !in ss
  {
    var (mins, secs) := ClockParts(ms);
    DigitsRoundTrip(mins as nat);
    TwoDigitSeconds(secs as nat);
  }

  /** A clock that has run out shows "0:00". */
  lemma FormatTimeZero()
    ensures FormatTime(0.0) == "0:00"
  {
    assert (0.0 / 1000.0).Floor == 0;
    assert ClockParts(0.0) == (0, 0);
    assert Digits(0) == "0";
    assert PadStart("0", 2, '0') == "00";
    assert Render(0, 0) == "0:00";
  }

  /** Whole minutes keep two zero digits of seconds. */
  lemma FormatTimeFiveMinutes()
    ensures FormatTime(300000.0) == "5:00"
  {
    assert (300000.0 / 1000.0).Floor == 300;
    assert ClockParts(300000.0) == (5, 0);
    assert Digits(5) == "5" && Digits(0) == "0";
    assert PadStart("0", 2, '0') == "00";
    assert Render(5, 0) == "5:00";
  }

  /** Milliseconds are dropped, and one second is padded to "01". */
  lemma FormatTimeRoundsDown()
    ensures FormatTime(61999.0) == "1:01"
  {
    assert (61999.0 / 1000.0).Floor == 61;
    assert ClockParts(61999.0) == (1, 1);
    assert Digits(1) == "1";
    assert PadStart("1", 2, '0') == "01";
    assert Render(1, 1) == "1:01";
  }

  /** A negative time is not guarded: minutes and seconds both come out
      negative. */
  lemma NegativeTime()
    ensures FormatTime(-500.0) == "-1:-1"
  {
    assert (-500.0 / 1000.0).Floor == -1;
    assert ClockParts(-500.0) == (-1, -1);
  }
}
