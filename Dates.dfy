/**
 * A calendar date without a time component (Python's `datetime.date`).
 * Dates are already parsed; they are compared field by field, year first.
 */
module Dates {

  datatype Date = Date(year: int, month: int, day: int)

  /** `a < b` on dates: lexicographic on (year, month, day). */
  predicate Lt(a: Date, b: Date)
  {
    a.year < b.year
    || (a.year == b.year && a.month < b.month)
    || (a.year == b.year && a.month == b.month && a.day < b.day)
  }

  /** `a <= b` on dates. */
  predicate Le(a: Date, b: Date)
  {
    Lt(a, b) || a == b
  }

  /** The order on dates is a strict total order. */
  lemma LtIsStrictTotalOrder(a: Date, b: Date, c: Date)
    ensures !Lt(a, a)
    ensures Lt(a, b) ==> !Lt(b, a)
    ensures Lt(a, b) && Lt(b, c) ==> Lt(a, c)
    ensures a == b || Lt(a, b) || Lt(b, a)
  {
  }
}
