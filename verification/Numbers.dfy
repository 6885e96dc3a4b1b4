/** The number arguments of programs/options.c: strtol() in base 10 and the three
    parsers over it. */
module Numbers {
  import opened Wrappers

  const LONG_MAX: int := 0x7fff_ffff_ffff_ffff
  const LONG_MIN: int := -0x8000_0000_0000_0000
  const INT_MAX: int := 0x7fff_ffff
  /** The limit of sys/syslimits.h on Darwin. */
  const UID_MAX: int := 0x7fff_ffff

  predicate IsSpace(c: char) { c in {' ', '\t', '\n', '\r', 11 as char, 12 as char} }
  predicate IsDigit(c: char) { '0' <= c <= '9' }

  predicate AllDigits(s: string) { forall c :: c in s ==> IsDigit(c) }

  /** The number a string of digits denotes. */
  function Value(s: string): (v: nat)
    requires AllDigits(s)
  {
    if s == "" then 0
    else
      var last := s[|s| - 1];
      assert IsDigit(last);
      10 * Value(s[..|s| - 1]) + (last as int - '0' as int)
  }

  function SignedValue(sign: string, digits: string): int
    requires AllDigits(digits)
  {
    if sign == "-" then 0 - Value(digits) else Value(digits)
  }

  /** Where the run of spaces, or of digits, that starts at i ends. */
  function SpacesEnd(s: string, i: nat): (j: nat)
    requires i <= |s|
    ensures i <= j <= |s| && (forall k :: i <= k < j ==> IsSpace(s[k])) && (j < |s| ==> !IsSpace(s[j]))
    decreases |s| - i
  {
    if i < |s| && IsSpace(s[i]) then SpacesEnd(s, i + 1) else i
  }

  function DigitsEnd(s: string, i: nat): (j: nat)
    requires i <= |s|
    ensures i <= j <= |s| && AllDigits(s[i..j]) && (j < |s| ==> !IsDigit(s[j]))
    decreases |s| - i
  {
    if i < |s| && IsDigit(s[i]) then
      var j := DigitsEnd(s, i + 1);
      assert s[i..j] == [s[i]] + s[i + 1..j];
      j
    else i
  }

  datatype Errno = NoError | EINVAL | ERANGE

  /** What strtol() returns, stores through its end pointer and sets errno to:
      section 7.20.1.4 of C99, with EINVAL when nothing is converted. */
  datatype Strtol = Strtol(value: int, end: nat, errno: Errno)

  function Strtol10(s: string): Strtol {
    var a := SpacesEnd(s, 0);
    var signed := a < |s| && s[a] in {'-', '+'};
    var b := if signed then a + 1 else a;
    var c := DigitsEnd(s, b);
    if b == c then Strtol(0, 0, EINVAL)
    else
      var v := SignedValue(s[a..b], s[b..c]);
      if v > LONG_MAX then Strtol(LONG_MAX, c, ERANGE)
      else if v < LONG_MIN then Strtol(LONG_MIN, c, ERANGE)
      else Strtol(v, c, NoError)
  }

  /** parse_fd(), parse_id() and parse_stats_interval(): None is the exit. */
  function ParseFd(arg: string): Option<int> {
    var r := Strtol10(arg);
    if r.errno != NoError then None
    else if r.end != |arg| || r.value < 0 || r.value > INT_MAX then None
    else Some(r.value)
  }

  function ParseId(arg: string): Option<int> {
    var r := Strtol10(arg);
    if r.errno != NoError then None
    else if r.end != |arg| || r.value < 0 || r.value > UID_MAX then None
    else Some(r.value)
  }

  function ParseStatsInterval(arg: string): Option<int> {
    var r := Strtol10(arg);
    if r.errno != NoError || r.end != |arg| || r.value < 1 || r.value > INT_MAX then None
    else Some(r.value)
  }

  /** s is a spelling of v: spaces, an optional sign and at least one digit, and
      nothing else. */
  ghost predicate Spells(s: string, v: int) {
    exists spaces: string, sign: string, digits: string ::
      && s == spaces + sign + digits
      && (forall c :: c in spaces ==> c == ' ' || 9 <= c as int <= 13) && sign in {"", "+", "-"}
      && digits != "" && AllDigits(digits)
      && v == SignedValue(sign, digits)
  }

  lemma WholeConversionSpells(s: string, v: int)
    requires Strtol10(s) == Strtol(v, |s|, NoError)
    ensures Spells(s, v) && LONG_MIN <= v <= LONG_MAX
  {
    hide Value;
    var a := SpacesEnd(s, 0);
    var b := if a < |s| && s[a] in {'-', '+'} then a + 1 else a;
    assert DigitsEnd(s, b) == |s| && v == SignedValue(s[a..b], s[b..|s|]);
    hide SignedValue, Strtol10;
    var spaces, sign, digits := s[..a], s[a..b], s[b..|s|];
    ThreeParts(s, a, b);
    assert sign in {"", "+", "-"} by {
      assert a < b ==> sign == [s[a]];
    }
    assert AllDigits(digits) && digits != "";
  }

  lemma ThreeParts(s: string, a: nat, b: nat)
    requires a <= b <= |s|
    ensures s == s[..a] + s[a..b] + s[b..|s|]
  {
  }

  lemma SpellingConverts(s: string, v: int, spaces: string, sign: string, digits: string)
    requires s == spaces + sign + digits
    requires (forall c :: c in spaces ==> IsSpace(c)) && sign in {"", "+", "-"} && digits != "" && AllDigits(digits)
    requires v == SignedValue(sign, digits) && LONG_MIN <= v <= LONG_MAX
    ensures Strtol10(s) == Strtol(v, |s|, NoError)
  {
    hide Value, SpacesEnd, DigitsEnd;
    var a, b := |spaces|, |spaces + sign|;
    assert s[..a] == spaces && s[a..b] == sign && s[b..] == digits;
    assert forall k :: 0 <= k < a ==> s[k] in spaces;
    assert forall k :: b <= k < |s| ==> s[k] in digits;
    assert sign != "" ==> s[a] == sign[0];
    assert sign == "" ==> s[a] in digits;
    SpacesEndIs(s, 0, a);
    DigitsEndIs(s, b, |s|);
    assert s[b..|s|] == digits;
  }

  /** strtol() consumes the whole of s without error exactly when s spells a
      long, and then returns it. */
  lemma Strtol10Spells(s: string, v: int)
    ensures Spells(s, v) && LONG_MIN <= v <= LONG_MAX <==> Strtol10(s) == Strtol(v, |s|, NoError)
  {
    if Strtol10(s) == Strtol(v, |s|, NoError) {
      WholeConversionSpells(s, v);
    }
    if Spells(s, v) && LONG_MIN <= v <= LONG_MAX {
      var spaces: string, sign: string, digits: string :|
        && s == spaces + sign + digits
        && (forall c :: c in spaces ==> c == ' ' || 9 <= c as int <= 13) && sign in {"", "+", "-"}
        && digits != "" && AllDigits(digits)
        && v == SignedValue(sign, digits);
      SpellingConverts(s, v, spaces, sign, digits);
    }
  }

  lemma {:induction false} SpacesEndIs(s: string, i: nat, j: nat)
    requires i <= j <= |s| && (forall k :: i <= k < j ==> IsSpace(s[k])) && (j < |s| ==> !IsSpace(s[j]))
    ensures SpacesEnd(s, i) == j
    decreases j - i
  {
    if i < j {
      SpacesEndIs(s, i + 1, j);
    }
  }

  lemma {:induction false} DigitsEndIs(s: string, i: nat, j: nat)
    requires i <= j <= |s| && (forall k :: i <= k < j ==> IsDigit(s[k])) && (j < |s| ==> !IsDigit(s[j]))
    ensures DigitsEnd(s, i) == j
    decreases j - i
  {
    if i < j {
      DigitsEndIs(s, i + 1, j);
    }
  }

  /** Each parser accepts exactly the spellings of the integers in its range, all
      of which its int or unsigned int result can hold. */
  lemma ParsersAcceptTheirRanges(arg: string, v: int)
    ensures ParseFd(arg) == Some(v) <==> Spells(arg, v) && 0 <= v <= INT_MAX
    ensures ParseId(arg) == Some(v) <==> Spells(arg, v) && 0 <= v <= UID_MAX
    ensures ParseStatsInterval(arg) == Some(v) <==> Spells(arg, v) && 1 <= v <= INT_MAX
  {
    Strtol10Spells(arg, v);
  }

  /** The decimal print of n. */
  function Decimal(n: nat): (s: string)
    ensures s != "" && AllDigits(s)
  {
    var last := [(n % 10 + '0' as int) as char];
    if n < 10 then last else Decimal(n / 10) + last
  }

  lemma {:induction false} ValueOfDecimal(n: nat)
    ensures Value(Decimal(n)) == n
  {
    var s := Decimal(n);
    if n < 10 {
      assert s[..|s| - 1] == "";
    } else {
      assert s[..|s| - 1] == Decimal(n / 10);
      ValueOfDecimal(n / 10);
    }
  }

  /** Printing a number in range and parsing it gives it back. */
  lemma DecimalRoundTrip(n: nat)
    ensures n <= INT_MAX ==> ParseFd(Decimal(n)) == Some(n)
    ensures n <= UID_MAX ==> ParseId(Decimal(n)) == Some(n)
    ensures 1 <= n <= INT_MAX ==> ParseStatsInterval(Decimal(n)) == Some(n)
  {
    ValueOfDecimal(n);
    assert Decimal(n) == "" + "" + Decimal(n);
    assert Spells(Decimal(n), n);
    ParsersAcceptTheirRanges(Decimal(n), n);
  }

  /** The decimal print of any integer. */
  function Printed(v: int): string {
    if v < 0 then "-" + Decimal(-v) else Decimal(v)
  }

  /** strtol() of the print of any integer: clamped to a long, with the error. */
  lemma StrtolOfPrinted(v: int)
    ensures Strtol10(Printed(v))
         == if v > 0x7fff_ffff_ffff_ffff then Strtol(0x7fff_ffff_ffff_ffff, |Printed(v)|, ERANGE)
            else if v < -0x8000_0000_0000_0000 then Strtol(-0x8000_0000_0000_0000, |Printed(v)|, ERANGE)
            else Strtol(v, |Printed(v)|, NoError)
  {
    PrintedParts(v);
    hide Value, SpacesEnd, DigitsEnd, Decimal, Printed;
    assert v == SignedValue(if v < 0 then "-" else "", Decimal(if v < 0 then -v else v));
  }

  /** Where strtol() finds the sign and the digits of a printed integer. */
  lemma PrintedParts(v: int)
    ensures var s, digits, b := Printed(v), Decimal(if v < 0 then -v else v), if v < 0 then 1 else 0;
            && |s| > b && (s[0] in {'-', '+'} <==> v < 0)
            && SpacesEnd(s, 0) == 0 && DigitsEnd(s, b) == |s|
            && s[0..b] == (if v < 0 then "-" else "") && s[b..|s|] == digits
            && Value(digits) == if v < 0 then -v else v
  {
    ValueOfDecimal(if v < 0 then -v else v);
    hide Value, SpacesEnd, DigitsEnd, Decimal;
    var sign, digits := if v < 0 then "-" else "", Decimal(if v < 0 then -v else v);
    assert Printed(v) == sign + digits;
    SignAndDigits(sign + digits, sign, digits);
  }

  lemma SignAndDigits(s: string, sign: string, digits: string)
    requires s == sign + digits && sign in {"", "-"} && digits != "" && AllDigits(digits)
    ensures SpacesEnd(s, 0) == 0 && DigitsEnd(s, |sign|) == |s|
    ensures s[0..|sign|] == sign && s[|sign|..|s|] == digits && (s[0] in {'-', '+'} <==> sign == "-")
  {
    hide SpacesEnd, DigitsEnd;
    Halves(s, sign, digits);
    CharsAreDigits(s, |sign|, digits);
    hide AllDigits;
    SpacesEndIs(s, 0, 0);
    DigitsEndIs(s, |sign|, |s|);
  }

  lemma Halves(s: string, a: string, b: string)
    requires s == a + b
    ensures s[0..|a|] == a && s[|a|..|s|] == b
    ensures forall k :: 0 <= k < |a| ==> s[k] == a[k]
  {
  }

  lemma CharsAreDigits(s: string, i: nat, digits: string)
    requires i <= |s| && s[i..|s|] == digits && AllDigits(digits)
    ensures forall k :: i <= k < |s| ==> IsDigit(s[k])
  {
    forall k | i <= k < |s|
      ensures IsDigit(s[k])
    {
      assert s[k] == digits[k - i];
    }
  }

  /** So of all printed integers each parser accepts those in its range, and gives
      them back: no negative one, and none that an int cannot hold. */
  lemma PrintedRoundTrip(v: int)
    ensures ParseFd(Printed(v)) == if 0 <= v <= 0x7fff_ffff then Some(v) else None
    ensures ParseId(Printed(v)) == if 0 <= v <= 0x7fff_ffff then Some(v) else None
    ensures ParseStatsInterval(Printed(v)) == if 1 <= v <= 0x7fff_ffff then Some(v) else None
  {
    StrtolOfPrinted(v);
    hide Strtol10, Printed;
  }
}
