/** Calendar dates and the Thai month-name table. The browser script
    (`thaiMonths`) and the server (`THAI_MONTHS`) carry identical copies of
    the table; it is defined once here. */
module Calendar {
  import opened Text

  /** A calendar date as its nominal fields; `month` is 1-based
      (January is 1). JavaScript's `getMonth()` is `month - 1`. */
  datatype Date = Date(year: int, month: int, day: int)

  predicate IsLeapYear(y: int) {
    y % 4 == 0 && (y % 100 != 0 || y % 400 == 0)
  }

  function DaysInMonth(y: int, m: int): nat
    requires 1 <= m <= 12
  {
    if m == 2 then (if IsLeapYear(y) then 29 else 28)
    else if m == 4 || m == 6 || m == 9 || m == 11 then 30
    else 31
  }

  /** A date that the browser's date input and Python's `strptime` both
      accept: a four-digit year of the common era (`%Y` reads exactly four
      digits), a month 1..12 and a day that exists in that month. */
  predicate ValidDate(d: Date) {
    && 1 <= d.year <= 9999
    && 1 <= d.month <= 12
    && 1 <= d.day <= DaysInMonth(d.year, d.month)
  }

  /** The Thai month names, indexed by 0-based month. */
  const ThaiMonths: seq<string> := [
    "มกราคม", "กุมภาพันธ์", "มีนาคม", "เมษายน",
    "พฤษภาคม", "มิถุนายน", "กรกฎาคม", "สิงหาคม",
    "กันยายน", "ตุลาคม", "พฤศจิกายน", "ธันวาคม"
  ]

  /** The name of the 1-based month `m`. */
  function MonthName(m: int): (name: string)
    requires 1 <= m <= 12
    ensures name != "" && ' ' !in name
  {
    ThaiMonths[m - 1]
  }

  /** The 1-based number of the month called `name`, if any. */
  function MonthOfName(name: string): (r: Option<int>)
    ensures r.Some? ==> 1 <= r.value <= 12 && MonthName(r.value) == name
  {
    MonthFrom(name, 1)
  }

  function MonthFrom(name: string, m: int): (r: Option<int>)
    requires 1 <= m <= 13
    ensures r.Some? ==> m <= r.value <= 12 && MonthName(r.value) == name
    ensures r.None? ==> forall k :: m <= k <= 12 ==> MonthName(k) != name
    decreases 13 - m
  {
    if m == 13 then None
    else if MonthName(m) == name then Some(m)
    else MonthFrom(name, m + 1)
  }

  /** Month names are pairwise distinct, so a name identifies its month. */
  lemma MonthOfNameInverse(m: int)
    requires 1 <= m <= 12
    ensures MonthOfName(MonthName(m)) == Some(m)
  {
    var r := MonthOfName(MonthName(m));
    assert r.Some?;
  }
}
