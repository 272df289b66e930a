/**
 * The `scrapedAt` stamp: `time.strftime("%Y-%m-%dT%H:%M:%SZ", time.gmtime())`.
 * The clock itself is a parameter of the model; this module formats what it
 * reads and gives the inverse of that format.
 */
module Timestamp {
  import opened Wrappers

  /** The fields of `time.gmtime()` that the format uses. */
  datatype UtcTime = UtcTime(year: int, month: int, day: int, hour: int, minute: int, second: int)

  /** The ranges `gmtime` keeps to (with a second up to 61), for a four-digit year. */
  predicate ValidTime(t: UtcTime) {
    && 1000 <= t.year <= 9999
    && 1 <= t.month <= 12
    && 1 <= t.day <= 31
    && 0 <= t.hour <= 23
    && 0 <= t.minute <= 59
    && 0 <= t.second <= 61
  }

  predicate IsDigit(c: char) {
    '0' <= c <= '9'
  }

  /** The last `width` decimal digits of `n`, zero-padded. */
  function Digits(n: nat, width: nat): (s: string)
    ensures |s| == width
    ensures forall i | 0 <= i < |s| :: IsDigit(s[i])
  {
    if width == 0 then [] else Digits(n / 10, width - 1) + [('0' as int + n % 10) as char]
  }

  /** The number a string of decimal digits denotes. */
  function Decimal(s: string): nat
    requires forall i | 0 <= i < |s| :: IsDigit(s[i])
  {
    if s == [] then 0
    else
      assert IsDigit(s[|s| - 1]);
      Decimal(s[..|s| - 1]) * 10 + (s[|s| - 1] as int - '0' as int)
  }

  function Pow10(w: nat): (p: nat)
    ensures p > 0
  {
    if w == 0 then 1 else 10 * Pow10(w - 1)
  }

  /** `%Y-%m-%dT%H:%M:%SZ` */
  function FormatStamp(t: UtcTime): string
    requires ValidTime(t)
  {
    Digits(t.year, 4) + "-" + Digits(t.month, 2) + "-" + Digits(t.day, 2) + "T"
    + Digits(t.hour, 2) + ":" + Digits(t.minute, 2) + ":" + Digits(t.second, 2) + "Z"
  }

  /** Positions 4, 7, 10, 13, 16 and 19 hold the separators. */
  predicate IsSeparatorPosition(i: int) {
    i == 4 || i == 7 || i == 10 || i == 13 || i == 16 || i == 19
  }

  /** `YYYY-MM-DDTHH:MM:SSZ`: twenty characters, digits except for the separators. */
  predicate IsIsoStamp(s: string) {
    && |s| == 20
    && s[4] == '-' && s[7] == '-' && s[10] == 'T'
    && s[13] == ':' && s[16] == ':' && s[19] == 'Z'
    && forall i | 0 <= i < 20 && !IsSeparatorPosition(i) :: IsDigit(s[i])
  }

  /** The inverse of FormatStamp: the time a stamp denotes, if it is one. */
  function ParseStamp(s: string): Option<UtcTime> {
    if !IsIsoStamp(s) then None
    else
      var t := UtcTime(Decimal(s[0..4]), Decimal(s[5..7]), Decimal(s[8..10]),
                       Decimal(s[11..13]), Decimal(s[14..16]), Decimal(s[17..19]));
      if ValidTime(t) then Some(t) else None
  }

  lemma {:induction false} DecimalOfDigits(n: nat, width: nat)
    requires n < Pow10(width)
    ensures Decimal(Digits(n, width)) == n
  {
    if width > 0 {
      var s := Digits(n, width);
      assert s[..|s| - 1] == Digits(n / 10, width - 1);
      assert n / 10 < Pow10(width - 1);
      DecimalOfDigits(n / 10, width - 1);
    }
  }

  lemma {:induction false} DigitsOfDecimal(s: string)
    requires forall i | 0 <= i < |s| :: IsDigit(s[i])
    ensures Digits(Decimal(s), |s|) == s
  {
    if s != [] {
      var init := s[..|s| - 1];
      var d := s[|s| - 1] as int - '0' as int;
      assert Decimal(s) / 10 == Decimal(init) && Decimal(s) % 10 == d;
      DigitsOfDecimal(init);
      assert s == init + [s[|s| - 1]];
    }
  }

  /** The stamp of a valid time has the ISO shape and parses back to that time. */
  lemma FormatStampSpec(t: UtcTime)
    requires ValidTime(t)
    ensures IsIsoStamp(FormatStamp(t))
    ensures ParseStamp(FormatStamp(t)) == Some(t)
  {
    var s := FormatStamp(t);
    assert s[0..4] == Digits(t.year, 4);
    assert s[5..7] == Digits(t.month, 2);
    assert s[8..10] == Digits(t.day, 2);
    assert s[11..13] == Digits(t.hour, 2);
    assert s[14..16] == Digits(t.minute, 2);
    assert s[17..19] == Digits(t.second, 2);
    DecimalOfDigits(t.year, 4);
    DecimalOfDigits(t.month, 2);
    DecimalOfDigits(t.day, 2);
    DecimalOfDigits(t.hour, 2);
    DecimalOfDigits(t.minute, 2);
    DecimalOfDigits(t.second, 2);
  }

  /** Every string that parses is the stamp of the time it parses to. */
  lemma ParseStampSpec(s: string, t: UtcTime)
    requires ParseStamp(s) == Some(t)
    ensures ValidTime(t) && FormatStamp(t) == s
  {
    DigitsOfDecimal(s[0..4]);
    DigitsOfDecimal(s[5..7]);
    DigitsOfDecimal(s[8..10]);
    DigitsOfDecimal(s[11..13]);
    DigitsOfDecimal(s[14..16]);
    DigitsOfDecimal(s[17..19]);
    // rebuild `s` field by field, in the order FormatStamp concatenates
    assert s[..5] == s[0..4] + [s[4]];
    assert s[..7] == s[..5] + s[5..7];
    assert s[..8] == s[..7] + [s[7]];
    assert s[..10] == s[..8] + s[8..10];
    assert s[..11] == s[..10] + [s[10]];
    assert s[..13] == s[..11] + s[11..13];
    assert s[..14] == s[..13] + [s[13]];
    assert s[..16] == s[..14] + s[14..16];
    assert s[..17] == s[..16] + [s[16]];
    assert s[..19] == s[..17] + s[17..19];
    assert s == s[..19] + [s[19]];
  }
}
