/** dateDiffInYears: whole years elapsed between two dates, comparing year,
    then month, then day of the week. */
module Age {
  import opened Users

  function Max0(x: int): int { if x < 0 then 0 else x }

  /** Whole years from birth `a` to `now` `b`; 0 when `b` is not in a later year. */
  function DateDiffInYears(a: Date, b: Date): (r: int)
    ensures 0 <= r <= Max0(b.year - a.year)
    ensures b.year > a.year ==> r >= b.year - a.year - 1
  {
    if b.year <= a.year then 0
    else if b.month < a.month then b.year - a.year - 1
    else if b.month == a.month && b.weekday < a.weekday then b.year - a.year - 1
    else b.year - a.year
  }

  /** `b`'s month and weekday come strictly before `a`'s in (month, weekday) order. */
  predicate BeforeInYear(b: Date, a: Date) {
    b.month < a.month || (b.month == a.month && b.weekday < a.weekday)
  }

  /** The result is one short of the year difference exactly when `b` is in a
      later year and before `a` within the year; otherwise, in a later year,
      it is the year difference. */
  lemma AgeBranches(a: Date, b: Date)
    ensures DateDiffInYears(a, b) == b.year - a.year - 1
            <==> b.year > a.year && BeforeInYear(b, a)
    ensures b.year > a.year ==>
              (DateDiffInYears(a, b) == b.year - a.year <==> !BeforeInYear(b, a))
  {
  }

  /** Lexicographic (year, month, weekday) order, the order the rule compares in. */
  predicate OnOrBefore(x: Date, y: Date) {
    x.year < y.year ||
    (x.year == y.year && (x.month < y.month || (x.month == y.month && x.weekday <= y.weekday)))
  }

  /** The `k`-th anniversary of `birth`. */
  function Anniversary(birth: Date, k: int): Date {
    Date(birth.year + k, birth.month, birth.weekday)
  }

  /** Reference reading of the rule: the age is the number of anniversaries
      (the first, second, ...) that fall on or before `now`. */
  lemma AgeCountsAnniversaries(birth: Date, now: Date)
    ensures forall k :: 1 <= k ==>
              (OnOrBefore(Anniversary(birth, k), now) <==> k <= DateDiffInYears(birth, now))
  {
  }
}
