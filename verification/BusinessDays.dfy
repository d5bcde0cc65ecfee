/** The review deadline: addBusinessDays in apps/api/src/modules/organizer/verification-status-service.ts.
    A date is its day number, day 0 being Thursday 1 January 1970; the time of day is carried along unchanged. */
module BusinessDays {

  /** 0 is Sunday, 6 is Saturday. */
  function DayOfWeek(day: int): int {
    (day + 4) % 7
  }

  predicate IsWeekday(day: int) {
    DayOfWeek(day) != 0 && DayOfWeek(day) != 6
  }

  /** Day 0 being a Thursday, days 2 and 3 of every seven from there are the weekend. */
  lemma WeekendIsThirdAndFourth(day: int)
    ensures IsWeekday(day) <==> day % 7 != 2 && day % 7 != 3
  {
  }

  /** The weekdays after `start`, up to and including `last`. */
  function Weekdays(start: int, last: int): (n: nat)
    requires start <= last
    decreases last - start
  {
    if start == last then 0 else Weekdays(start, last - 1) + if IsWeekday(last) then 1 else 0
  }

  /** Days until the next weekday strictly after this one. */
  function Gap(day: int): nat {
    match DayOfWeek(day) case 5 => 3 case 6 => 2 case _ => 1
  }

  method AddBusinessDays(date: int, days: int) returns (result: int)
    ensures days <= 0 ==> result == date
    ensures days > 0 ==> date < result && IsWeekday(result) && Weekdays(date, result) == days
    ensures forall d :: date <= d < result ==> Weekdays(date, d) < days
  {
    result := date;
    var added := 0;
    while added < days
      invariant date <= result && added == Weekdays(date, result)
      invariant added <= days || days <= 0
      invariant forall d :: date <= d < result ==> Weekdays(date, d) < days
      invariant days > 0 && added == days ==> date < result && IsWeekday(result)
      invariant days <= 0 ==> result == date
      decreases days - added, Gap(result)
    {
      result := result + 1;
      var dayOfWeek := DayOfWeek(result);
      if dayOfWeek != 0 && dayOfWeek != 6 {
        added := added + 1;
      }
    }
  }
}
