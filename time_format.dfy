/**
 * The player's clock labels (`formatTime` in app.js): an optional minus sign, whole minutes,
 * a colon and the seconds padded to two digits. Times are whole seconds here.
 */
module TimeFormat {
  import opened Options

  /** What `formatTime` is given: a finite number of seconds, or NaN/an infinity. */
  datatype Seconds = Finite(n: int) | NonFinite

  function Abs(n: int): nat { if n < 0 then -n else n }

  function Digit(d: nat): (c: char)
    requires d < 10
    ensures '0' <= c <= '9'
  {
    (('0' as int) + d) as char
  }

  function DigitValue(c: char): nat
    requires '0' <= c <= '9'
  {
    (c as int) - ('0' as int)
  }

  lemma DigitRoundTrip(d: nat)
    requires d < 10
    ensures DigitValue(Digit(d)) == d
  {
  }

  predicate AllDigits(s: string) { forall i :: 0 <= i < |s| ==> '0' <= s[i] <= '9' }

  /** `Number.prototype.toString` on a non-negative integer: decimal digits, no leading zero. */
  function Decimal(n: nat): (r: string)
    ensures |r| >= 1 && AllDigits(r)
    ensures r[0] == '0' <==> n == 0
    ensures n < 100 ==> |r| <= 2
    decreases n
  {
    if n < 10 then [Digit(n)] else Decimal(n / 10) + [Digit(n % 10)]
  }

  /** `String.prototype.padStart(width, c)`: fills with `c` on the left up to `width` characters. */
  function PadStart(s: string, width: nat, c: char): (r: string)
    ensures |r| == if |s| < width then width else |s|
    ensures |s| >= width ==> r == s
  {
    if |s| >= width then s else seq(width - |s|, _ => c) + s
  }

  /** A shorter string ends the padded one, and every character before it is the fill character. */
  lemma PadStartFills(s: string, width: nat, c: char)
    requires |s| < width
    ensures var r := PadStart(s, width, c); r[width - |s|..] == s && forall i :: 0 <= i < width - |s| ==> r[i] == c
  {
  }

  /** formatTime (app.js:27-33) on whole seconds; NaN and the infinities read "0:00". */
  function FormatTime(t: Seconds): (r: string)
    ensures |r| >= 4 && r[|r| - 3] == ':'
    ensures r[0] == '-' <==> t.Finite? && t.n < 0
  {
    match t
    case NonFinite => "0:00"
    case Finite(n) =>
      var sign := if n < 0 then "-" else "";
      var clock := Decimal(Abs(n) / 60) + ":" + PadStart(Decimal(Abs(n) % 60), 2, '0');
      ClockShape(Decimal(Abs(n) / 60), PadStart(Decimal(Abs(n) % 60), 2, '0'));
      sign + clock
  }

  lemma ClockShape(mins: string, secs: string)
    requires |mins| >= 1 && |secs| == 2
    ensures var clock := mins + ":" + secs;
      clock[0] == mins[0] && clock[|clock| - 3] == ':' && clock[..|clock| - 3] == mins && clock[|clock| - 2..] == secs
  {
  }

  /** Reads a run of decimal digits back as a number (the inverse of Decimal). */
  function ParseDecimal(s: string): nat
    requires AllDigits(s)
  {
    if s == [] then 0 else ParseDecimal(s[..|s| - 1]) * 10 + DigitValue(s[|s| - 1])
  }

  /**
   * Reads "M:SS": decimal minutes with no leading zero (as `Decimal` writes them) and seconds
   * below 60 (a tens digit up to 5).
   */
  function ParseClock(u: string): Option<nat>
  {
    if |u| < 4 || u[|u| - 3] != ':' || !AllDigits(u[..|u| - 3]) || !AllDigits(u[|u| - 2..])
       || u[|u| - 2] > '5' || (|u| > 4 && u[0] == '0') then None
    else Some(ParseDecimal(u[..|u| - 3]) * 60 + ParseDecimal(u[|u| - 2..]))
  }

  /** Reads a clock label back into signed seconds. */
  function ParseTime(t: string): Option<int>
  {
    var negative := |t| > 0 && t[0] == '-';
    var clock := ParseClock(if negative then t[1..] else t);
    if clock.None? then None
    else if negative then Some(0 - clock.value)
    else Some(clock.value as int)
  }

  lemma {:induction false} DecimalRoundTrip(n: nat)
    ensures ParseDecimal(Decimal(n)) == n
    decreases n
  {
    if n >= 10 {
      var d := Decimal(n / 10);
      var r := d + [Digit(n % 10)];
      assert r[..|r| - 1] == d;
      DecimalRoundTrip(n / 10);
    }
  }

  /** The seconds field always has exactly two digits and reads back as the remainder. */
  lemma {:induction false} SecondsFieldRoundTrip(sec: nat)
    requires sec < 60
    ensures var p := PadStart(Decimal(sec), 2, '0'); |p| == 2 && AllDigits(p) && p[0] <= '5' && ParseDecimal(p) == sec
  {
    var d := Decimal(sec);
    var p := PadStart(d, 2, '0');
    DecimalRoundTrip(sec);
    if sec < 10 {
      assert p == ['0'] + d;
      assert p[..1] == ['0'];
    } else {
      assert d == Decimal(sec / 10) + [Digit(sec % 10)];
      assert p == d;
    }
  }

  /** A clock whose minutes field and seconds field are well-formed reads as minutes * 60 + seconds. */
  lemma ParseClockAccepts(u: string, mins: string, secs: string, m: nat, sec: nat)
    requires |u| >= 4 && u[|u| - 3] == ':' && u[..|u| - 3] == mins && u[|u| - 2..] == secs
    requires AllDigits(mins) && AllDigits(secs) && secs[0] <= '5' && (|mins| == 1 || mins[0] != '0')
    requires ParseDecimal(mins) == m && ParseDecimal(secs) == sec
    ensures ParseClock(u) == Some(m * 60 + sec)
  {
  }

  /**
   * Decimal minutes with no leading zero, a colon and a two-digit seconds field below 60 read back
   * as minutes * 60 + seconds.
   */
  lemma ClockReads(mins: string, secs: string, m: nat, sec: nat)
    requires |mins| >= 1 && AllDigits(mins) && (|mins| == 1 || mins[0] != '0') && ParseDecimal(mins) == m
    requires |secs| == 2 && AllDigits(secs) && secs[0] <= '5' && ParseDecimal(secs) == sec
    ensures ParseClock(mins + ":" + secs) == Some(m * 60 + sec)
  {
    ClockShape(mins, secs);
    ParseClockAccepts(mins + ":" + secs, mins, secs, m, sec);
  }

  /** The unsigned clock of `a` seconds reads back as `a`. */
  lemma {:induction false} ClockRoundTrip(a: nat)
    ensures ParseClock(Decimal(a / 60) + ":" + PadStart(Decimal(a % 60), 2, '0')) == Some(a)
  {
    var mins, secs := Decimal(a / 60), PadStart(Decimal(a % 60), 2, '0');
    SecondsFieldRoundTrip(a % 60);
    DecimalRoundTrip(a / 60);
    ClockReads(mins, secs, a / 60, a % 60);
    assert a / 60 * 60 + a % 60 == a;
  }

  /** The label of any whole number of seconds reads back as that number: no two times share a label. */
  lemma {:induction false} FormatTimeRoundTrip(n: int)
    ensures ParseTime(FormatTime(Finite(n))) == Some(n)
  {
    var body := Decimal(Abs(n) / 60) + ":" + PadStart(Decimal(Abs(n) % 60), 2, '0');
    ClockRoundTrip(Abs(n));
    if n < 0 {
      assert FormatTime(Finite(n)) == "-" + body;
      assert ("-" + body)[1..] == body;
    } else {
      assert FormatTime(Finite(n)) == body;
      assert body[0] != '-' by { ClockShape(Decimal(Abs(n) / 60), PadStart(Decimal(Abs(n) % 60), 2, '0')); }
    }
  }

  lemma {:induction false} FormatTimeInjective(a: int, b: int)
    requires FormatTime(Finite(a)) == FormatTime(Finite(b))
    ensures a == b
  {
    FormatTimeRoundTrip(a);
    FormatTimeRoundTrip(b);
  }

  /** A seconds field of 60 or more is not a label FormatTime can produce, and it is refused. */
  lemma ParseTimeRefusesSixtySeconds()
    ensures ParseTime("0:65") == None
    ensures ParseTime("1:60") == None
    ensures ParseTime("1:05") == Some(65)
  {
    assert "0:65"[2..] == "65" && "65"[..1] == "6" && "6"[..0] == "";
    assert "1:60"[2..] == "60" && "60"[..1] == "6";
    assert "1:05"[..1] == "1" && "1:05"[2..] == "05" && "05"[..1] == "0" && "1"[..0] == "";
  }

  /** A minutes field with a leading zero is not a label FormatTime can produce, and it is refused. */
  lemma ParseTimeRefusesLeadingZero()
    ensures ParseTime("00:05") == None
    ensures ParseTime("-07:30") == None
    ensures ParseTime("0:05") == Some(5)
  {
    assert "0:05"[..1] == "0" && "0:05"[2..] == "05" && "05"[..1] == "0" && "0"[..0] == "";
  }

  /** The remaining-time label for 0 of 125 seconds, the start label, and a not-yet-known duration. */
  lemma FormatTimeExamples()
    ensures FormatTime(Finite(0 - 125)) == "-2:05"
    ensures FormatTime(Finite(125 - 125)) == "0:00"
    ensures FormatTime(NonFinite) == "0:00"
  {
    assert Decimal(2) == "2";
    assert Decimal(5) == "5";
    assert PadStart("5", 2, '0') == "05";
    assert Decimal(0) == "0";
    assert PadStart("0", 2, '0') == "00";
  }
}
