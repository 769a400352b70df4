/** The "M:SS" text of the timer display: whole minutes in decimal without
    padding, a colon, and the seconds padded to two digits. A parser for that
    text shows that no information is lost. */
module TimeFormat {
  import opened Optional

  predicate IsDigit(c: char) {
    '0' <= c <= '9'
  }

  function DigitChar(d: int): (c: char)
    requires 0 <= d < 10
    ensures IsDigit(c)
  {
    ('0' as int + d) as char
  }

  function DigitValue(c: char): (d: int)
    requires IsDigit(c)
    ensures 0 <= d < 10
  {
    c as int - '0' as int
  }

  lemma DigitValueOfChar(d: int)
    requires 0 <= d < 10
    ensures DigitValue(DigitChar(d)) == d
  {
  }

  /** Decimal text of `n` as JavaScript turns an integer into a string
      (for n below 10^21, where it does not switch to exponent form):
      digits only, and no leading zero unless the number is 0. */
  function Decimal(n: nat): (s: string)
    ensures 1 <= |s|
    ensures forall i :: 0 <= i < |s| ==> IsDigit(s[i])
    ensures s[0] == '0' ==> n == 0
    decreases n
  {
    if n < 10 then [DigitChar(n)] else Decimal(n / 10) + [DigitChar(n % 10)]
  }

  /** String.prototype.padStart with a one-character filler: `s` unchanged
      when it is already `width` long, otherwise filler on the left up to `width`. */
  function PadStart(s: string, width: nat, fill: char): (r: string)
    ensures |r| == if |s| < width then width else |s|
    ensures r[|r| - |s|..] == s
    ensures forall i :: 0 <= i < |r| - |s| ==> r[i] == fill
  {
    if |s| < width then seq(width - |s|, _ => fill) + s else s
  }

  /** The text shown for `timeLeft` seconds. */
  function FormatTime(timeLeft: nat): string
  {
    Decimal(timeLeft / 60) + ":" + PadStart(Decimal(timeLeft % 60), 2, '0')
  }

  /** The value of a non-empty run of decimal digits (leading zeros allowed). */
  function ParseDecimal(s: string): Option<nat>
  {
    if |s| == 0 || !IsDigit(s[|s| - 1]) then None
    else if |s| == 1 then Some(DigitValue(s[0]))
    else match ParseDecimal(s[..|s| - 1])
      case None => None
      case Some(v) => Some(10 * v + DigitValue(s[|s| - 1]))
  }

  /** Reads back a displayed time: digits, ':', two digits below 60. */
  function ParseTime(s: string): Option<nat>
  {
    if |s| < 4 || s[|s| - 3] != ':' then None
    else match (ParseDecimal(s[..|s| - 3]), ParseDecimal(s[|s| - 2..]))
      case (Some(m), Some(sec)) => if sec < 60 then Some(m * 60 + sec) else None
      case _ => None
  }

  lemma {:induction false} ParseDecimalOfDecimal(n: nat)
    ensures ParseDecimal(Decimal(n)) == Some(n)
    decreases n
  {
    if n >= 10 {
      var s := Decimal(n);
      var prefix := Decimal(n / 10);
      assert s == prefix + [DigitChar(n % 10)];
      assert s[..|s| - 1] == prefix;
      ParseDecimalOfDecimal(n / 10);
      DigitValueOfChar(n % 10);
    }
  }

  /** The seconds field: two digits whose value is `sec`. */
  lemma TwoDigitSeconds(sec: nat)
    requires sec < 60
    ensures |PadStart(Decimal(sec), 2, '0')| == 2
    ensures ParseDecimal(PadStart(Decimal(sec), 2, '0')) == Some(sec)
  {
    var p := PadStart(Decimal(sec), 2, '0');
    if sec < 10 {
      assert p == ['0', DigitChar(sec)];
      assert p[..1] == ['0'];
      DigitValueOfChar(sec);
    } else {
      assert Decimal(sec) == Decimal(sec / 10) + [DigitChar(sec % 10)];
      assert p == Decimal(sec);
      ParseDecimalOfDecimal(sec);
    }
  }

  /** The layout of the display: the minutes `timeLeft / 60` in decimal, a
      colon, then exactly two digits holding `timeLeft % 60`, which is in 0..59,
      and minutes * 60 + seconds gives back `timeLeft`. */
  lemma FormatTimeFields(timeLeft: nat)
    ensures var s := FormatTime(timeLeft);
      && |s| >= 4
      && s[..|s| - 3] == Decimal(timeLeft / 60)
      && s[|s| - 3] == ':'
      && IsDigit(s[|s| - 2]) && IsDigit(s[|s| - 1])
      && ParseDecimal(s[..|s| - 3]) == Some(timeLeft / 60)
      && ParseDecimal(s[|s| - 2..]) == Some(timeLeft % 60)
      && 0 <= timeLeft % 60 < 60
      && (timeLeft / 60) * 60 + timeLeft % 60 == timeLeft
  {
    var s := FormatTime(timeLeft);
    var mins := Decimal(timeLeft / 60);
    var secs := PadStart(Decimal(timeLeft % 60), 2, '0');
    TwoDigitSeconds(timeLeft % 60);
    assert s == mins + [':'] + secs;
    assert s[..|s| - 3] == mins;
    assert s[|s| - 2..] == secs;
    ParseDecimalOfDecimal(timeLeft / 60);
  }

  /** Round trip: the displayed text determines the number of seconds. */
  lemma FormatTimeRoundTrip(timeLeft: nat)
    ensures ParseTime(FormatTime(timeLeft)) == Some(timeLeft)
  {
    FormatTimeFields(timeLeft);
  }

  lemma FormatTimeInjective(a: nat, b: nat)
    ensures FormatTime(a) == FormatTime(b) ==> a == b
  {
    FormatTimeRoundTrip(a);
    FormatTimeRoundTrip(b);
  }

  /** The display for `minutes` and `seconds` assembled from their digit texts. */
  lemma FormatTimeOf(timeLeft: nat, mins: string, secs: string)
    requires Decimal(timeLeft / 60) == mins
    requires PadStart(Decimal(timeLeft % 60), 2, '0') == secs
    ensures FormatTime(timeLeft) == mins + ":" + secs
  {
  }

  lemma DecimalTwoDigits(n: nat, hi: char, lo: char)
    requires 10 <= n < 100
    requires hi == DigitChar(n / 10) && lo == DigitChar(n % 10)
    ensures Decimal(n) == [hi, lo]
  {

  }

  lemma PadOneDigit(n: nat, c: char)
    requires n < 10 && c == DigitChar(n)
    ensures PadStart(Decimal(n), 2, '0') == ['0', c]
  {

  }

  /** The texts of the three full sessions; the minutes are not padded. */
  lemma FormatDurationExamples()
    ensures FormatTime(1500) == "25:00"
    ensures FormatTime(900) == "15:00"
    ensures FormatTime(300) == "5:00"
  {
    PadOneDigit(0, '0');
    DecimalTwoDigits(25, '2', '5');
    DecimalTwoDigits(15, '1', '5');
    assert Decimal(5) == "5";
    FormatTimeOf(1500, "25", "00");
    FormatTimeOf(900, "15", "00");
    FormatTimeOf(300, "5", "00");
  }

  /** Zero, under a minute, and over an hour (minutes are not capped at 59). */
  lemma FormatEdgeExamples()
    ensures FormatTime(0) == "0:00"
    ensures FormatTime(59) == "0:59"
    ensures FormatTime(3661) == "61:01"
  {
    PadOneDigit(0, '0');
    PadOneDigit(1, '1');
    DecimalTwoDigits(59, '5', '9');
    DecimalTwoDigits(61, '6', '1');
    assert Decimal(0) == "0";
    FormatTimeOf(0, "0", "00");
    FormatTimeOf(59, "0", "59");
    FormatTimeOf(3661, "61", "01");
  }
}
