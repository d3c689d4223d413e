/** `format_time` (zq/timer.py:9-10): seconds shown as minutes, a colon and two-digit seconds. */
module Clock {
  import opened Wrappers
  import opened Text

  /** `f"{n:02}"` for n < 100: zero-padded to two characters. */
  function TwoDigits(n: nat): (r: string)
    requires n < 100
    ensures |r| == 2 && IsDecimal(r) && ParseDecimal(r) == n
  {
    ParseNatToString(n);
    if n < 10 then "0" + NatToString(n) else NatToString(n)
  }

  /** `format_time(seconds)`: whole minutes, ":", then the remaining seconds padded to two digits. */
  function FormatTime(seconds: nat): (r: string)
    ensures |r| >= 4 && r[|r| - 3] == ':'
    ensures Canonical(r[..|r| - 3]) && ParseDecimal(r[..|r| - 3]) == seconds / 60
    ensures IsDecimal(r[|r| - 2..]) && ParseDecimal(r[|r| - 2..]) == seconds % 60
  {
    var m := NatToString(seconds / 60);
    var ss := TwoDigits(seconds % 60);
    ParseNatToString(seconds / 60);
    assert (m + ":" + ss)[..|m|] == m;
    assert (m + ":" + ss)[|m| + 1..] == ss;
    NatToString(seconds / 60) + ":" + TwoDigits(seconds % 60)
  }

  /** Reads a "m:ss" display back into seconds; `None` for text `FormatTime` cannot produce. */
  function ParseTime(t: string): Option<nat>
  {
    if |t| >= 4 && t[|t| - 3] == ':' && Canonical(t[..|t| - 3]) && IsDecimal(t[|t| - 2..])
       && ParseDecimal(t[|t| - 2..]) < 60
    then Some(ParseDecimal(t[..|t| - 3]) * 60 + ParseDecimal(t[|t| - 2..]))
    else None
  }

  /** Every displayed time reads back as the number of seconds it was made from. */
  lemma FormatTimeRoundTrip(seconds: nat)
    ensures ParseTime(FormatTime(seconds)) == Some(seconds)
  {
    var m := NatToString(seconds / 60);
    var ss := TwoDigits(seconds % 60);
    var t := FormatTime(seconds);
    assert t == m + ":" + ss;
    assert t[..|t| - 3] == m;
    assert t[|t| - 2..] == ss;
    ParseNatToString(seconds / 60);
  }

  /** Two different second counts never display the same. */
  lemma FormatTimeInjective(a: nat, b: nat)
    requires FormatTime(a) == FormatTime(b)
    ensures a == b
  {
    FormatTimeRoundTrip(a);
    FormatTimeRoundTrip(b);
  }

  /** Decimal renderings of the small numbers used in the examples below. */
  lemma SmallNumbers()
    ensures NatToString(0) == "0" && NatToString(1) == "1" && NatToString(2) == "2"
    ensures NatToString(5) == "5" && NatToString(27) == "27"
    ensures TwoDigits(0) == "00" && TwoDigits(5) == "05"
  {
    assert '0' as int == 48 && '1' as int == 49 && '2' as int == 50;
    assert '5' as int == 53 && '7' as int == 55;
    assert NatToString(27) == NatToString(2) + [DigitChar(7)];
  }

  /** 1620 seconds display as "27:00", a full 25-minute meeting plus two minutes. */
  lemma FormatTime1620()
    ensures FormatTime(1620) == "27:00"
  {
    SmallNumbers();
  }

  /** 65 seconds display as "1:05", the seconds padded to two digits. */
  lemma FormatTime65()
    ensures FormatTime(65) == "1:05"
  {
    SmallNumbers();
  }

  /** 120 seconds display as "2:00". */
  lemma FormatTime120()
    ensures FormatTime(120) == "2:00"
  {
    SmallNumbers();
  }

  /** 1620 seconds display as "27:00", 65 seconds as "1:05" and 120 seconds as "2:00". */
  lemma FormatTimeExamples()
    ensures FormatTime(1620) == "27:00"
    ensures FormatTime(65) == "1:05"
    ensures FormatTime(120) == "2:00"
  {
    FormatTime1620();
    FormatTime65();
    FormatTime120();
  }
}
