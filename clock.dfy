// The UTC-6 wall clock the GPS sketches show on their display: the GPS hour, minute
// and second printed one `print` call at a time as `HH:MM:SS`.
module Clock {
  import opened Text

  /** The sketches shift GPS time (UTC) to UTC-6: six hours, in seconds. */
  const UtcOffset: int := 6 * 3600

  /** `if (v < 10) print("0"); print(v);` for the minutes and the seconds. */
  function Padded(v: nat): string
  {
    (if v < 10 then "0" else "") + IntText(v)
  }

  /** A leading zero does not change the value of a digit string. */
  lemma {:induction false} ParseNatLeadingZero(s: string)
    requires AllDigits(s)
    ensures ParseNat("0" + s) == ParseNat(s)
  {
    if s != [] {
      var t := "0" + s;
      assert t[..|t| - 1] == "0" + s[..|s| - 1];
      ParseNatLeadingZero(s[..|s| - 1]);
    }
  }

  /** Below 100 the padded text is two digits that read back as the value. */
  lemma {:induction false} PaddedTwoDigits(v: nat)
    requires v < 100
    ensures |Padded(v)| == 2 && AllDigits(Padded(v)) && ParseNat(Padded(v)) == v
  {
    DigitsTwo(v);
    ParseNatDigits(v);
    if v < 10 {
      ParseNatLeadingZero(Digits(v));
    }
  }

  /**
   * The hour with the UTC-6 shift and the else branch that the Publisher_Node display
   * has: hours before 06:00 UTC wrap to the previous evening, the others are padded.
   */
  function GuardedHour(h: nat): string
  {
    if h < 6 then IntText(h + 18) else (if h < 16 then "0" else "") + IntText(h - 6)
  }

  /** For a GPS hour the guarded text is always two digits, reading (h + 18) mod 24. */
  lemma {:induction false} GuardedHourLocal(h: nat)
    requires h < 24
    ensures |GuardedHour(h)| == 2 && AllDigits(GuardedHour(h))
    ensures ParseNat(GuardedHour(h)) == (h + 18) % 24
  {
    if h < 6 {
      DigitsTwo(h + 18);
      ParseNatDigits(h + 18);
    } else {
      assert GuardedHour(h) == Padded(h - 6);
      PaddedTwoDigits(h - 6);
    }
  }

  /**
   * The hour as the LocalConnections and MQTT_packages displays print it: the shifted
   * evening hour is printed, and then, with no else, `hour - 6` is printed as well.
   */
  function UnguardedHour(h: nat): string
  {
    (if h < 6 then IntText(h + 18) else if h < 16 then "0" else "") + IntText(h - 6)
  }

  /** From 06:00 UTC on the two forms print the same text. */
  lemma {:induction false} UnguardedFromSix(h: nat)
    requires h >= 6
    ensures UnguardedHour(h) == GuardedHour(h)
  {
  }

  /** Before 06:00 UTC the unguarded form appends a second, negative number. */
  lemma {:induction false} UnguardedBeforeSix(h: nat)
    requires h < 6
    ensures UnguardedHour(h) == GuardedHour(h) + "-" + Digits(6 - h)
    ensures |UnguardedHour(h)| == 4 && !AllDigits(UnguardedHour(h))
  {
    DigitsTwo(h + 18);
    var s := UnguardedHour(h);
    assert s[2] == '-';
  }

  /** 03:00 UTC is shown as "21-3". */
  lemma {:induction false} UnguardedAtThree()
    ensures UnguardedHour(3) == "21-3"
  {
    UnguardedBeforeSix(3);
    assert Digits(21) == "21";
  }

  /** `HH:MM:SS` around a given hour text. */
  function TimeText(hour: string, m: nat, s: nat): string
  {
    hour + ":" + Padded(m) + ":" + Padded(s)
  }

  /** With the guarded hour the time text is eight characters, each field two digits. */
  lemma {:induction false} GuardedTimeShape(h: nat, m: nat, s: nat)
    requires h < 24 && m < 60 && s < 60
    ensures var t := TimeText(GuardedHour(h), m, s);
      |t| == 8 && t[2] == ':' && t[5] == ':'
      && t[..2] == GuardedHour(h) && t[3..5] == Padded(m) && t[6..] == Padded(s)
  {
    GuardedHourLocal(h);
    PaddedTwoDigits(m);
    PaddedTwoDigits(s);
    var t := TimeText(GuardedHour(h), m, s);
    assert t == GuardedHour(h) + ":" + Padded(m) + ":" + Padded(s);
  }
}
