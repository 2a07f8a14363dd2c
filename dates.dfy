/** Calendar dates and message instants. Dates are `(year, month, day)`
    compared lexicographically, which is the order of the source's `date`
    objects; parsing and printing them is not modelled. */
module Dates {

  datatype Date = Date(year: int, month: int, day: int)

  /** A message's creation time: its calendar date and the second of that day. */
  datatype Instant = Instant(date: Date, secondOfDay: nat)

  /** `a <= b` on dates. */
  predicate NotAfter(a: Date, b: Date) {
    || a.year < b.year
    || (a.year == b.year && (a.month < b.month || (a.month == b.month && a.day <= b.day)))
  }

  /** `start <= d <= end`, both ends included. */
  predicate InWindow(d: Date, start: Date, end: Date) {
    NotAfter(start, d) && NotAfter(d, end)
  }

  /** `NotAfter` is a total order, so the window test is well defined. */
  lemma NotAfterIsTotalOrder(a: Date, b: Date, c: Date)
    ensures NotAfter(a, a)
    ensures NotAfter(a, b) && NotAfter(b, a) ==> a == b
    ensures NotAfter(a, b) && NotAfter(b, c) ==> NotAfter(a, c)
    ensures NotAfter(a, b) || NotAfter(b, a)
  {
  }
}
