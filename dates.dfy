/**
 * Event dates (src/etl.py, the date parsing inside transform_data).
 *
 * A date cell is parsed with strptime(text, '%Y%m%d') only when its text is
 * exactly 8 characters long; any other text, a missing cell, or a parse or
 * calendar error falls back to "today", which the caller passes in.
 */
module Dates {
  import opened Wrappers
  import opened Normalize

  /** A calendar date; its natural rendering is str(date), 'YYYY-MM-DD'. */
  datatype Date = Date(year: int, month: int, day: int)

  predicate IsLeapYear(y: int) {
    y % 4 == 0 && (y % 100 != 0 || y % 400 == 0)
  }

  function DaysInMonth(y: int, m: int): (n: int)
    requires 1 <= m <= 12
    ensures 28 <= n <= 31
  {
    if m == 2 then (if IsLeapYear(y) then 29 else 28)
    else if m == 4 || m == 6 || m == 9 || m == 11 then 30
    else 31
  }

  /** The dates Python's `date` accepts: years 1 to 9999 and a day that exists in its month. */
  predicate ValidDate(d: Date) {
    1 <= d.year <= 9999 && 1 <= d.month <= 12 && 1 <= d.day <= DaysInMonth(d.year, d.month)
  }

  /**
   * The day field of '%d' when exactly two characters are left: two digits
   * from 01 to 31, or a space and one digit from 1 to 9.
   */
  function DayField(t: string): (r: Option<int>)
    requires |t| == 2
    ensures r.Some? ==> 1 <= r.value <= 31
  {
    if AllDigits(t) then
      var v := DigitsValue(t);
      if 1 <= v <= 31 then Some(v) else None
    else if t[0] == ' ' && '1' <= t[1] <= '9' then Some(DigitValue(t[1]))
    else None
  }

  /**
   * strptime(s, '%Y%m%d') on an 8-character string: four digits of year, a
   * two-digit month 01 to 12, the day field, then the calendar check of `date`.
   */
  function ParseYmd(s: string): (r: Option<Date>)
    requires |s| == 8
    ensures r.Some? ==> ValidDate(r.value)
  {
    if !AllDigits(s[..4]) || !AllDigits(s[4..6]) then None
    else
      var y := DigitsValue(s[..4]);
      var m := DigitsValue(s[4..6]);
      PadOfValue(s[..4]);
      match DayField(s[6..])
      case None => None
      case Some(d) =>
        if 1 <= y && 1 <= m <= 12 && d <= DaysInMonth(y, m) then Some(Date(y, m, d)) else None
  }

  /** The date key of one event row. */
  function EventDate(cell: Cell, today: Date): (d: Date)
    ensures ValidDate(today) ==> ValidDate(d)
    ensures d != today ==> cell.Some? && |cell.value| == 8 && ParseYmd(cell.value) == Some(d)
    ensures cell.Some? && |cell.value| == 8 && ParseYmd(cell.value).Some? ==> d == ParseYmd(cell.value).value
  {
    match cell
    case None => today
    case Some(s) =>
      if |s| == 8 then
        match ParseYmd(s)
        case Some(d) => d
        case None => today
      else today
  }

  /** `n` written with exactly `w` digits, zero-padded on the left. */
  function Pad(n: nat, w: nat): (s: string)
    ensures |s| == w && AllDigits(s)
  {
    if w == 0 then [] else Pad(n / 10, w - 1) + [DigitChar(n % 10)]
  }

  /** The 8-character 'YYYYMMDD' text of a date. */
  function CompactText(d: Date): (s: string)
    requires ValidDate(d)
    ensures |s| == 8
  {
    Pad(d.year, 4) + Pad(d.month, 2) + Pad(d.day, 2)
  }

  lemma {:induction false} PadValue(n: nat, w: nat)
    requires n < Pow10(w)
    ensures DigitsValue(Pad(n, w)) == n
  {
    if w > 0 {
      PadValue(n / 10, w - 1);
      var s := Pad(n, w);
      assert s[..|s| - 1] == Pad(n / 10, w - 1);
    }
  }

  /** A fixed-width digit string is the padded text of its own value. */
  lemma {:induction false} PadOfValue(t: string)
    requires AllDigits(t)
    ensures DigitsValue(t) < Pow10(|t|)
    ensures Pad(DigitsValue(t), |t|) == t
  {
    if t != [] {
      var init := t[..|t| - 1];
      PadOfValue(init);
      var v := DigitsValue(t);
      assert v / 10 == DigitsValue(init);
      assert v % 10 == DigitValue(t[|t| - 1]);
      assert DigitChar(v % 10) == t[|t| - 1];
      assert t == init + [t[|t| - 1]];
    }
  }

  /** Every valid date survives the round trip through its 'YYYYMMDD' text. */
  lemma EventDateRoundTrip(d: Date, today: Date)
    requires ValidDate(d)
    ensures EventDate(Some(CompactText(d)), today) == d
  {
    var s := CompactText(d);
    PadValue(d.year, 4);
    PadValue(d.month, 2);
    PadValue(d.day, 2);
    assert s[..4] == Pad(d.year, 4);
    assert s[4..6] == Pad(d.month, 2);
    assert s[6..] == Pad(d.day, 2);
    assert DayField(s[6..]) == Some(d.day);
  }

  /**
   * Conversely, text that parses is the date's own 'YYYYMMDD' text, except
   * that the day may be written as a space and one digit.
   */
  lemma ParsedTextIsCompact(s: string, d: Date)
    requires |s| == 8 && ParseYmd(s) == Some(d)
    ensures s == CompactText(d) || (s[6] == ' ' && s[..6] + ['0'] + s[7..] == CompactText(d))
  {
    PadOfValue(s[..4]);
    PadOfValue(s[4..6]);
    var t := s[6..];
    if AllDigits(t) {
      PadOfValue(t);
      assert s == s[..4] + s[4..6] + t;
    } else {
      var u := ['0', t[1]];
      assert AllDigits(u);
      PadOfValue(u);
      assert DigitsValue(u) == d.day;
      assert s[..6] + ['0'] + s[7..] == s[..4] + s[4..6] + u;
    }
  }
}
