/** Canonical ISO dates, read as numbers that order as the dates do. */
module Dates {
  import opened Optional
  import opened Documents

  predicate IsDigit(c: char) { '0' <= c <= '9' }

  function DigitsAt(s: string, first: nat, last: nat): nat
    requires first <= last <= |s|
    requires forall i | first <= i < last :: IsDigit(s[i])
  {
    if first == last then 0
    else
      assert IsDigit(s[last - 1]);
      DigitsAt(s, first, last - 1) * 10 + (s[last - 1] as int - '0' as int)
  }

  predicate IsLeap(year: nat) { year % 4 == 0 && (year % 100 != 0 || year % 400 == 0) }

  function DaysIn(year: nat, month: nat): nat {
    if month == 2 then (if IsLeap(year) then 29 else 28)
    else if month in {4, 6, 9, 11} then 30 else 31
  }

  /** The shape `YYYY-MM-DD`. */
  predicate DateShaped(s: string) {
    |s| == 10 && s[4] == '-' && s[7] == '-' && forall i | 0 <= i < 10 && i != 4 && i != 7 :: IsDigit(s[i])
  }

  /** A canonical date as the number `YYYYMMDD`; anything else is no date. */
  function IsoDay(v: Value): Option<int> {
    if !v.Text? || !DateShaped(v.text) then None
    else
      var year, month, day := DigitsAt(v.text, 0, 4), DigitsAt(v.text, 5, 7), DigitsAt(v.text, 8, 10);
      if year >= 1 && 1 <= month <= 12 && 1 <= day <= DaysIn(year, month)
      then Some(year * 10000 + month * 100 + day) else None
  }
}
