/** Deadlines: printed on import, parsed back on render. */
module Durations {
  import opened Options
  import opened Text

  type Int64 = x: int | -0x8000_0000_0000_0000 <= x < 0x8000_0000_0000_0000

  /** What Go's int64 arithmetic keeps of a result. */
  function Wrap(x: int): Int64
  {
    (x + 0x8000_0000_0000_0000) % 0x1_0000_0000_0000_0000 - 0x8000_0000_0000_0000
  }

  /** `%d` of a signed number. */
  function Signed(n: int): string
  {
    if n < 0 then "-" + Decimal(-n) else Decimal(n)
  }

  /** Whole hours, else whole minutes, else seconds; the divisions are exact. */
  function FormatDuration(seconds: Int64): string
  {
    if seconds % 3600 == 0 then Signed(seconds / 3600) + "h"
    else if seconds % 60 == 0 then Signed(seconds / 60) + "m"
    else Signed(seconds) + "s"
  }

  /** unicode.IsSpace. */
  predicate Space(c: char)
  {
    c in "\t\n\U{B}\U{C}\r \U{85}\U{A0}\U{1680}\U{2028}\U{2029}\U{202F}\U{205F}\U{3000}" || '\U{2000}' <= c <= '\U{200A}'
  }

  function TrimSpace(s: string): (r: string)
  {
    if s != [] && Space(s[0]) then TrimSpace(s[1..])
    else if s != [] && Space(s[|s| - 1]) then TrimSpace(s[..|s| - 1])
    else s
  }

  function DigitsValue(s: string): Option<nat>
  {
    if s == [] then Some(0)
    else
      match DigitsValue(s[..|s| - 1])
      case None => None
      case Some(high) =>
        var c := s[|s| - 1];
        if '0' <= c <= '9' then Some(10 * high + (c - '0') as int) else None
  }

  /** strconv.ParseInt in base 10 and 64 bits: an optional sign, digits, and no overflow. */
  function ParseInt(s: string): Option<Int64>
  {
    var signed := s != [] && s[0] in "+-";
    var digits := if signed then s[1..] else s;
    match DigitsValue(digits)
    case None => None
    case Some(v) =>
      var n: int := if signed && s[0] == '-' then 0 - v else v;
      if digits != [] && -0x8000_0000_0000_0000 <= n < 0x8000_0000_0000_0000 then Some(n) else None
  }

  /** Seconds per unit, 0 for a letter that is no unit. */
  function UnitSeconds(unit: char): nat
  {
    match unit
    case 's' => 1
    case 'm' => 60
    case 'h' => 3600
    case _ => 0
  }

  /** Anything it cannot read is 0; the multiplication wraps around. */
  function ParseDuration(text: string): Int64
  {
    var s := TrimSpace(text);
    if |s| < 2 then 0
    else
      match ParseInt(s[..|s| - 1])
      case None => 0
      case Some(n) => Wrap(n * UnitSeconds(s[|s| - 1]))
  }

  // ------------------------------------------------------------- numbers

  lemma DecimalStep(n: nat)
    requires n >= 10
    ensures Decimal(n) == Decimal(n / 10) + [DIGITS[n % 10]]
  {
  }

  lemma DigitsStep(s: string, c: char)
    ensures DigitsValue(s + [c]) ==
            if DigitsValue(s).Some? && '0' <= c <= '9' then Some(10 * DigitsValue(s).value + (c - '0') as int) else None
  {
    assert (s + [c])[..|s|] == s;
  }

  lemma {:induction false} DecimalValue(n: nat)
    ensures Decimal(n) != [] && DigitsValue(Decimal(n)) == Some(n)
    ensures '0' <= Decimal(n)[0] <= '9'
  {
    if n < 10 {
      assert Decimal(n)[..0] == [];
    } else {
      hide Decimal, DigitsValue;
      DecimalStep(n);
      DecimalValue(n / 10);
      DigitsStep(Decimal(n / 10), DIGITS[n % 10]);
      assert DIGITS[n % 10] == '0' + (n % 10) as char;
    }
  }

  lemma SignedParses(n: Int64)
    ensures ParseInt(Signed(n)) == Some(n)
    ensures Signed(n) != [] && !Space(Signed(n)[0])
  {
    hide Decimal, DigitsValue;
    var size: int := n;
    if n < 0 {
      DecimalValue(-size);
      assert Signed(n)[1..] == Decimal(-size);
    } else {
      DecimalValue(n);
    }
  }

  /** Either sign or none is read, and what does not fit in 64 bits is not. */
  lemma SignsParse(n: nat)
    ensures ParseInt(Decimal(n)) == ParseInt("+" + Decimal(n)) == if n < 0x8000_0000_0000_0000 then Some(n) else None
    ensures var size: int := n;
            ParseInt("-" + Decimal(n)) == if n <= 0x8000_0000_0000_0000 then Some(-size) else None
  {
    hide Decimal, DigitsValue;
    DecimalValue(n);
    assert ("+" + Decimal(n))[1..] == Decimal(n) && ("-" + Decimal(n))[1..] == Decimal(n);
  }

  /** Anything but digits is no number. */
  lemma {:induction false} OnlyDigitsCount(s: string, k: nat)
    requires k < |s| && !('0' <= s[k] <= '9')
    ensures DigitsValue(s) == None
    decreases |s|
  {
    if k < |s| - 1 { OnlyDigitsCount(s[..|s| - 1], k); }
  }

  /** A printed number with a unit reads as the product, wrapped to 64 bits. */
  lemma UnitTextParses(n: Int64, unit: char)
    requires UnitSeconds(unit) != 0
    ensures ParseDuration(Signed(n) + [unit]) == Wrap(n * UnitSeconds(unit))
  {
    hide Signed, ParseInt, Wrap;
    SignedParses(n);
    var s := Signed(n) + [unit];
    assert s[0] == Signed(n)[0] && s[..|s| - 1] == Signed(n);
    assert TrimSpace(s) == s;
  }

  /** Wrapping changes nothing exactly for what fits, and is off by a multiple of 2^64 otherwise. */
  lemma WrapIsExact(x: int)
    ensures Wrap(x) == x <==> -0x8000_0000_0000_0000 <= x < 0x8000_0000_0000_0000
    ensures (x - Wrap(x)) % 0x1_0000_0000_0000_0000 == 0
  {
  }

  // ---------------------------------------------------------- round trip

  lemma DurationRoundTrip(n: Int64)
    ensures ParseDuration(FormatDuration(n)) == n
  {
    hide ParseDuration, Signed, Wrap;
    WrapIsExact(n);
    if n % 3600 == 0 {
      UnitTextParses(n / 3600, 'h');
    } else if n % 60 == 0 {
      UnitTextParses(n / 60, 'm');
    } else {
      UnitTextParses(n, 's');
    }
  }

  /** A printed duration is in the largest unit that divides it. */
  lemma LargestUnit(n: Int64)
    ensures var t := FormatDuration(n);
            && t != []
            && (t[|t| - 1] == 'h' <==> n % 3600 == 0)
            && (t[|t| - 1] == 'm' <==> n % 60 == 0 && n % 3600 != 0)
            && (t[|t| - 1] == 's' <==> n % 60 != 0)
  {
    hide Signed;
  }

  predicate Blank(s: string)
  {
    forall c :: c in s ==> Space(c)
  }

  lemma {:induction false} TrimSurrounded(before: string, s: string, after: string)
    requires Blank(before) && Blank(after) && s != [] && !Space(s[0]) && !Space(s[|s| - 1])
    ensures TrimSpace(before + s + after) == s
    decreases |before| + |after|
  {
    var t := before + s + after;
    if before != [] {
      assert t[0] == before[0] && t[1..] == before[1..] + s + after;
      TrimSurrounded(before[1..], s, after);
    } else if after != [] {
      var n := |after| - 1;
      assert t[0] == s[0] && t[|t| - 1] == after[n] && t[..|t| - 1] == before + s + after[..n];
      TrimSurrounded(before, s, after[..n]);
    } else {
      assert t == s;
    }
  }

  /** White space around it does not matter; an unknown unit makes it 0. */
  lemma SurroundedParses(before: string, n: Int64, unit: char, after: string)
    requires Blank(before) && Blank(after) && !Space(unit)
    ensures ParseDuration(before + (Signed(n) + [unit]) + after) ==
            if unit == 'h' then Wrap(3600 * n) else if unit == 'm' then Wrap(60 * n) else if unit == 's' then n else 0
  {
    hide Signed, ParseInt, Wrap, TrimSpace, Space;
    SignedParses(n);
    WrapIsExact(n);
    WrapIsExact(0);
    var s := Signed(n) + [unit];
    assert s[0] == Signed(n)[0] && s[..|s| - 1] == Signed(n);
    TrimSurrounded(before, s, after);
  }

  /** What is no number with a unit reads as 0. */
  lemma UnreadableIsZero(text: string)
    requires var s := TrimSpace(text); |s| < 2 || ParseInt(s[..|s| - 1]).None?
    ensures ParseDuration(text) == 0
  {
  }

  /** Hours that do not fit in seconds are silently another deadline. */
  lemma LongDeadlineMisread(hours: Int64)
    ensures ParseDuration(Signed(hours) + "h") == 3600 * hours <==>
            -2562047788015215 <= hours <= 2562047788015215
  {
    hide ParseDuration, Signed, Wrap;
    UnitTextParses(hours, 'h');
    WrapIsExact(3600 * hours);
  }

  /** The importer's deadline attribute, absent when the CronJob has none. */
  function ImportDeadline(starting: Option<Int64>): string
  {
    match starting
    case None => ""
    case Some(n) => FormatDuration(n)
  }

  /** The generator's deadline rule. */
  function RenderDeadline(deadline: string): Option<Int64>
  {
    if deadline != "" && ParseDuration(deadline) > 0 then Some(ParseDuration(deadline)) else None
  }

  /** A starting deadline survives import and render exactly when it is absent or positive. */
  lemma DeadlineSurvives(starting: Option<Int64>)
    ensures RenderDeadline(ImportDeadline(starting)) == starting <==> starting.None? || starting.value > 0
  {
    if starting.Some? {
      DurationRoundTrip(starting.value);
    }
  }
}
