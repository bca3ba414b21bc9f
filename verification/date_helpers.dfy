/** The `YYYY-MM-DD` date keys of the application (`toLocalDateStr`) and the
    day comparison built on them (`isSameDay`). A key is the year as JavaScript
    prints it, a dash, the one-based month padded to two digits, a dash, and the
    day padded to two digits. */
module DateHelpers {
  import opened Common
  import opened Calendar

  predicate IsDigit(c: char) {
    '0' <= c <= '9'
  }

  predicate AllDigits(s: string) {
    forall i :: 0 <= i < |s| ==> IsDigit(s[i])
  }

  function DigitChar(n: int): (c: char)
    requires 0 <= n < 10
    ensures IsDigit(c)
  {
    (48 + n) as char
  }

  function DigitValue(c: char): (n: int)
    requires IsDigit(c)
    ensures 0 <= n < 10
  {
    c as int - 48
  }

  /** `String(n)` for a non-negative integer: its decimal digits without
      leading zeros. */
  function NatToString(n: nat): (s: string)
    ensures |s| >= 1 && AllDigits(s)
    ensures |s| == 1 <==> n < 10
    ensures |s| > 1 ==> s[0] != '0'
  {
    if n < 10 then [DigitChar(n)] else NatToString(n / 10) + [DigitChar(n % 10)]
  }

  /** The value of a string of decimal digits (leading zeros allowed). */
  function ParseDigits(s: string): (n: nat)
    requires AllDigits(s)
  {
    if |s| == 0 then 0 else ParseDigits(s[..|s| - 1]) * 10 + DigitValue(s[|s| - 1])
  }

  lemma {:induction false} NatRoundTrip(n: nat)
    ensures ParseDigits(NatToString(n)) == n
  {
    if n >= 10 {
      var s := NatToString(n);
      assert s[..|s| - 1] == NatToString(n / 10);
      NatRoundTrip(n / 10);
    }
  }

  /** `String(n)` for any integer. */
  function IntToString(n: int): (s: string)
    ensures |s| >= 1
    ensures s[0] == '-' <==> n < 0
  {
    if n < 0 then "-" + NatToString(-n) else NatToString(n)
  }

  /** Reads back what `IntToString` prints; `None` for anything else. */
  function ParseInt(s: string): (r: Option<int>)
    ensures r.Some? ==> |s| >= 1
  {
    if |s| >= 2 && s[0] == '-' && AllDigits(s[1..]) then
      var magnitude: int := ParseDigits(s[1..]);
      Some(-magnitude)
    else if |s| >= 1 && AllDigits(s) then Some(ParseDigits(s))
    else None
  }

  /** `ParseInt` reads back what `IntToString` prints. */
  lemma IntRoundTrip(n: int)
    ensures ParseInt(IntToString(n)) == Some(n)
  {
    if n < 0 {
      NatRoundTrip(-n);
      NegativeParse(NatToString(-n), -n);
    } else {
      NatToStringParses(n);
    }
  }

  /** A minus sign followed by digits reads as the negated digits. */
  lemma NegativeParse(t: string, k: nat)
    requires |t| >= 1 && AllDigits(t) && ParseDigits(t) == k
    ensures ParseInt("-" + t) == Some(-(k as int))
  {
    assert ("-" + t)[1..] == t;
  }

  lemma NatToStringParses(n: nat)
    ensures ParseInt(NatToString(n)) == Some(n)
  {
    assert !IsDigit('-');
    NatRoundTrip(n);
  }

  /** `s.padStart(width, fill)`. */
  function PadStart(s: string, width: nat, fill: char): (r: string)
    ensures |s| >= width ==> r == s
    ensures |s| < width ==> |r| == width
    ensures r[|r| - |s|..] == s
    ensures forall i :: 0 <= i < |r| - |s| ==> r[i] == fill
  {
    if |s| >= width then s else seq(width - |s|, _ => fill) + s
  }

  /** `String(n).padStart(2, '0')` for a month or a day: the tens digit,
      which is `0` below ten, then the units digit. */
  function TwoDigits(n: int): (s: string)
    requires 1 <= n <= 31
    ensures |s| == 2 && AllDigits(s)
    ensures ParseDigits(s) == n
  {
    var s := [DigitChar(n / 10), DigitChar(n % 10)];
    assert s[..1] == [s[0]] && s[..1][..0] == [];
    assert ParseDigits(s[..1]) == n / 10;
    s
  }

  /** The two digits are `String(n)` padded on the left with `0` to width 2. */
  lemma TwoDigitsIsPadded(n: int)
    requires 1 <= n <= 31
    ensures TwoDigits(n) == PadStart(NatToString(n), 2, '0')
  {
    if n >= 10 {
      assert NatToString(n / 10) == [DigitChar(n / 10)];
    }
  }

  /** `toLocalDateStr` over the values the local getters return:
      `${year}-${month}-${day}` with the zero-based month shifted to one-based
      and both month and day padded to two digits. */
  function DateKey(year: int, month: int, day: int): (key: string)
    requires 0 <= month < 12 && 1 <= day <= 31
  {
    IntToString(year) + "-" + TwoDigits(month + 1) + "-" + TwoDigits(day)
  }

  function ToLocalDateStr(d: CalDate): string {
    DateKey(d.year, d.month, d.day)
  }

  /** A string assembled like a key, from a year text that reads back as
      `y`, parses back into its three fields. */
  lemma KeyParse(y: int, ys: string, m: string, dd: string, key: string)
    requires ParseInt(ys) == Some(y)
    requires |m| == 2 && |dd| == 2 && AllDigits(m) && AllDigits(dd)
    requires key == ys + "-" + m + "-" + dd
    ensures ParseKey(key) == Some(Date(y, ParseDigits(m) - 1, ParseDigits(dd)))
  {
    KeySlices(ys, m, dd);
  }

  lemma KeySlices(y: string, m: string, dd: string)
    requires |m| == 2 && |dd| == 2
    ensures var key := y + "-" + m + "-" + dd;
      && |key| == |y| + 6
      && key[..|key| - 6] == y
      && key[|key| - 6] == '-' && key[|key| - 3] == '-'
      && key[|key| - 5..|key| - 3] == m
      && key[|key| - 2..] == dd
  {
  }

  /** Reads a key back into (year, zero-based month, day); `None` when the
      string does not have the key's shape. */
  function ParseKey(key: string): (r: Option<Date>)
  {
    if |key| >= 7 && key[|key| - 6] == '-' && key[|key| - 3] == '-'
       && AllDigits(key[|key| - 5..|key| - 3]) && AllDigits(key[|key| - 2..])
    then
      match ParseInt(key[..|key| - 6])
      case Some(y) =>
        Some(Date(y, ParseDigits(key[|key| - 5..|key| - 3]) - 1, ParseDigits(key[|key| - 2..])))
      case None => None
    else None
  }

  /** Every key reads back to the date it was made from. */
  lemma KeyRoundTrip(year: int, month: int, day: int)
    requires 0 <= month < 12 && 1 <= day <= 31
    ensures ParseKey(DateKey(year, month, day)) == Some(Date(year, month, day))
  {
    IntRoundTrip(year);
    KeyParse(year, IntToString(year), TwoDigits(month + 1), TwoDigits(day), DateKey(year, month, day));
  }

  /** `isSameDay`: equality of the two keys. */
  predicate IsSameDay(a: CalDate, b: CalDate) {
    ToLocalDateStr(a) == ToLocalDateStr(b)
  }

  /** Two dates have the same key exactly when they are the same calendar date,
      so `isSameDay` is reflexive, symmetric and transitive. */
  lemma IsSameDayIff(a: CalDate, b: CalDate)
    ensures IsSameDay(a, b) <==> a == b
  {
    if IsSameDay(a, b) {
      KeyRoundTrip(a.year, a.month, a.day);
      KeyRoundTrip(b.year, b.month, b.day);
    }
  }
}
