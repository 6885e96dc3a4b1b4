/** The UTC offset of iso_8601_timestamp in programs/helper.c. */
module Timestamp {
  import opened Numbers

  /** C division and remainder truncate toward zero. */
  function CDiv(a: int, b: int): int
    requires b > 0
  {
    if a >= 0 then a / b else -((-a) / b)
  }

  function CRem(a: int, b: int): int
    requires b > 0
  {
    a - b * CDiv(a, b)
  }

  function Abs(a: int): nat { if a < 0 then -a else a }

  /** %02d and %03d of a number that is not negative. */
  function Pad2(n: nat): string { if n < 10 then "0" + Decimal(n) else Decimal(n) }
  function Pad3(n: nat): string { if n < 100 then "0" + Pad2(n) else Decimal(n) }

  /** %+03d:%02d of the hours and the minutes. */
  function FormatOffset(gmtoff: int): string {
    var hours := CDiv(gmtoff, 3600);
    var minutes := Abs(CRem(gmtoff, 3600)) / 60;
    (if hours < 0 then "-" else "+") + Pad2(Abs(hours)) + ":" + Pad2(minutes)
  }

  function Format(date: string, milliseconds: nat, gmtoff: int): string {
    date + "." + Pad3(milliseconds) + FormatOffset(gmtoff)
  }

  predicate IsOffset(s: string) {
    |s| == 6 && s[0] in {'+', '-'} && AllDigits(s[1..3]) && s[3] == ':' && AllDigits(s[4..6])
  }

  /** The minutes an offset means: section 5.6 of RFC 3339. */
  function DecodeOffset(s: string): int
    requires IsOffset(s)
  {
    var minutes: int := 60 * Value(s[1..3]) + Value(s[4..6]);
    if s[0] == '-' then -minutes else minutes
  }

  lemma Pad2Value(n: nat)
    requires n < 100
    ensures |Pad2(n)| == 2 && AllDigits(Pad2(n)) && Value(Pad2(n)) == n
  {
    ValueOfDecimal(n);
    if n < 10 {
      assert Pad2(n)[..1] == "0" && ("0")[..0] == "";
      assert Value("0") == 0;
    } else {
      assert Decimal(n / 10) == [(n / 10 + '0' as int) as char];
    }
  }

  /** The printed offset means the offset, cut to whole minutes, exactly when the
      offset is not between minus one hour and minus one minute: there the hours
      are zero and the sign is lost. */
  lemma OffsetMeansItselfIff(gmtoff: int)
    requires -360000 < gmtoff < 360000
    ensures IsOffset(FormatOffset(gmtoff))
    ensures DecodeOffset(FormatOffset(gmtoff)) == CDiv(gmtoff, 60) <==> !(-3600 < gmtoff <= -60)
  {
    var hours := CDiv(gmtoff, 3600);
    var minutes := Abs(CRem(gmtoff, 3600)) / 60;
    Pad2Value(Abs(hours));
    Pad2Value(minutes);
    var s := FormatOffset(gmtoff);
    assert s[1..3] == Pad2(Abs(hours)) && s[4..6] == Pad2(minutes);
    HoursAndMinutes(Abs(gmtoff));
  }

  lemma HoursAndMinutes(a: nat)
    ensures a / 60 == 60 * (a / 3600) + (a - 3600 * (a / 3600)) / 60
  {
    var h, r := a / 3600, a % 3600;
    assert a == 3600 * h + r;
    assert a / 60 == 60 * h + r / 60;
  }

  /** With a four-digit year the text and its terminator fit the 32-byte buffer. */
  lemma FitsBuffer(date: string, milliseconds: nat, gmtoff: int)
    requires |date| == 19 && milliseconds < 1000 && -360000 < gmtoff < 360000
    ensures |Format(date, milliseconds, gmtoff)| == 29
  {
    OffsetMeansItselfIff(gmtoff);
    if milliseconds < 100 {
      Pad2Value(milliseconds);
    } else {
      Pad2Value(milliseconds / 10);
    }
  }

  /** The text falls apart into the date, a dot, three digits that mean the
      milliseconds, and the offset. */
  lemma PartsInOrder(date: string, milliseconds: nat, gmtoff: int)
    requires |date| == 19 && milliseconds < 1000 && -360000 < gmtoff < 360000
    ensures var s := Format(date, milliseconds, gmtoff);
            && |s| == 29 && s[..19] == date && s[19] == '.'
            && AllDigits(s[20..23]) && Value(s[20..23]) == milliseconds
            && s[23..] == FormatOffset(gmtoff)
  {
    FitsBuffer(date, milliseconds, gmtoff);
    OffsetMeansItselfIff(gmtoff);
    Pad3Value(milliseconds);
    hide FormatOffset, Pad3, Value;
    var s := Format(date, milliseconds, gmtoff);
    assert s[20..23] == Pad3(milliseconds) && s[23..] == FormatOffset(gmtoff) && s[..19] == date;
  }

  lemma Pad3Value(n: nat)
    requires n < 1000
    ensures |Pad3(n)| == 3 && AllDigits(Pad3(n)) && Value(Pad3(n)) == n
  {
    if n < 100 {
      Pad2Value(n);
      LeadingZero(Pad2(n));
    } else {
      Pad2Value(n / 10);
      assert Pad2(n / 10) == Decimal(n / 10);
      ValueOfDecimal(n);
    }
  }

  lemma LeadingZero(s: string)
    requires |s| == 2 && AllDigits(s)
    ensures AllDigits("0" + s) && Value("0" + s) == Value(s)
  {
    var t := "0" + s;
    assert t[..2] == "0" + s[..1] && t[..2][..1] == "0" && ("0")[..0] == "" && s[..1][..0] == "";
    assert Value("0") == 0;
    assert Value(t[..2]) == Value(s[..1]);
  }
}
