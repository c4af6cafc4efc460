/** Whole-year calendar age, as computed by `calculateAge` in server.js.
    Dates are already-parsed (year, month, day) triples; parsing of the
    provider's "YYYY-MM-DD" string and the host clock are outside the model. */
module Age {

  datatype Date = Date(year: int, month: int, day: int)

  /** Calendar order: lexicographic on (year, month, day). */
  predicate OnOrBefore(a: Date, b: Date)
  {
    a.year < b.year ||
    (a.year == b.year && (a.month < b.month || (a.month == b.month && a.day <= b.day)))
  }

  /** The n-th anniversary of a birth date (same month and day, n years later). */
  function Anniversary(birth: Date, n: int): Date
  {
    Date(birth.year + n, birth.month, birth.day)
  }

  /** The year difference, decremented once when today's (month, day) comes
      before the birth (month, day). Its meaning: the number of anniversaries
      that have arrived, i.e. the last one on or before today. */
  function CalculateAge(birth: Date, today: Date): (age: int)
    ensures OnOrBefore(Anniversary(birth, age), today)
    ensures !OnOrBefore(Anniversary(birth, age + 1), today)
  {
    var years := today.year - birth.year;
    var monthDiff := today.month - birth.month;
    if monthDiff < 0 || (monthDiff == 0 && today.day < birth.day) then years - 1 else years
  }

  /** The n-th anniversary has arrived exactly when n is at most the age:
      the age is the largest such n. */
  lemma AgeIsLastAnniversary(birth: Date, today: Date, n: int)
    ensures OnOrBefore(Anniversary(birth, n), today) <==> n <= CalculateAge(birth, today)
  {
  }

  /** On the birthday itself the age is not yet decremented. */
  lemma AgeOnBirthday(birth: Date, n: int)
    ensures CalculateAge(birth, Anniversary(birth, n)) == n
  {
  }

  /** Gregorian leap years. */
  predicate IsLeapYear(year: int)
  {
    year % 4 == 0 && (year % 100 != 0 || year % 400 == 0)
  }

  function DaysInMonth(year: int, month: int): int
  {
    if month == 2 then (if IsLeapYear(year) then 29 else 28)
    else if month == 4 || month == 6 || month == 9 || month == 11 then 30
    else 31
  }

  /** The calendar day before a date, rolling back over month and year ends. */
  function DayBefore(d: Date): Date
  {
    if d.day > 1 then Date(d.year, d.month, d.day - 1)
    else if d.month > 1 then Date(d.year, d.month - 1, DaysInMonth(d.year, d.month - 1))
    else Date(d.year - 1, 12, 31)
  }

  /** On the day before the birthday the age is one less than on the
      birthday, also when that day lies in the previous month or year
      (born 1 March: 28 or 29 February; born 1 January: 31 December). */
  lemma AgeOnDayBeforeBirthday(birth: Date, n: int)
    requires 1 <= birth.month <= 12 && 1 <= birth.day
    ensures CalculateAge(birth, DayBefore(Anniversary(birth, n))) == n - 1
  {
  }

  /** Age never decreases as time goes on. */
  lemma AgeMonotone(birth: Date, t1: Date, t2: Date)
    requires OnOrBefore(t1, t2)
    ensures CalculateAge(birth, t1) <= CalculateAge(birth, t2)
  {
  }

  /** Boundary cases: around 15 June 1990, the day before a 1 March
      birthday in a leap year, the day before a 1 January birthday, and a
      29 February birthday in a common year, which is reached on 1 March. */
  lemma AgeExamples()
    ensures CalculateAge(Date(1990, 6, 15), Date(2024, 6, 14)) == 33
    ensures CalculateAge(Date(1990, 6, 15), Date(2024, 6, 15)) == 34
    ensures DayBefore(Date(2024, 3, 1)) == Date(2024, 2, 29)
    ensures CalculateAge(Date(1990, 3, 1), Date(2024, 2, 29)) == 33
    ensures DayBefore(Date(2019, 1, 1)) == Date(2018, 12, 31)
    ensures CalculateAge(Date(2000, 1, 1), Date(2018, 12, 31)) == 18
    ensures CalculateAge(Date(2000, 2, 29), Date(2023, 2, 28)) == 22
    ensures CalculateAge(Date(2000, 2, 29), Date(2023, 3, 1)) == 23
  {
  }
}
