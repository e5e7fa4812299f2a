/** The penalty rules about a course's load: more than 4 block hours on one
    day (`calculate_daily_hours_penalty`) and more than 20 in the week
    (`calculate_weekly_hours_penalty`). */
module LoadPenalties {
  import opened ScheduleData
  import opened Collections

  /** The key of `daily_hours`: (course, day). */
  datatype CourseDay = CourseDay(courseId: int, day: Day)

  function CourseDays(a: seq<Assignment>): (r: seq<CourseDay>)
    ensures |r| == |a| && forall i :: 0 <= i < |a| ==> r[i] == CourseDay(a[i].courseId, a[i].day)
  {
    seq(|a|, i requires 0 <= i < |a| => CourseDay(a[i].courseId, a[i].day))
  }

  /** The block hours of course `k.courseId` on day `k.day`. */
  function DayHours(a: seq<Assignment>, k: CourseDay): int {
    if a == [] then 0
    else
      var x := a[|a| - 1];
      DayHours(a[..|a| - 1], k) + (if CourseDay(x.courseId, x.day) == k then x.slotHours else 0)
  }

  /** `rate` per hour beyond `limit`. */
  function Excess(hours: int, limit: int, rate: nat): nat {
    if hours > limit then rate * (hours - limit) else 0
  }

  /** 5 per hour beyond 4 of each of the first `n` keys of `keys`. */
  function DailySum(a: seq<Assignment>, keys: seq<CourseDay>, n: nat): nat
    requires n <= |keys|
  {
    if n == 0 then 0
    else DailySum(a, keys, n - 1) + Excess(DayHours(a, keys[n - 1]), 4, 5)
  }

  /** The daily-load penalty: every (course, day) that has a block, once. */
  function DailyTotal(a: seq<Assignment>): nat {
    var keys := Distinct(CourseDays(a));
    DailySum(a, keys, |keys|)
  }

  lemma CourseDaysSnoc(a: seq<Assignment>)
    requires a != []
    ensures CourseDays(a) == CourseDays(a[..|a| - 1]) + [CourseDay(a[|a| - 1].courseId, a[|a| - 1].day)]
  {
  }

  lemma DayHoursStep(a: seq<Assignment>, i: nat, k: CourseDay)
    requires i < |a|
    ensures DayHours(a[..i + 1], k) == DayHours(a[..i], k) + (if CourseDay(a[i].courseId, a[i].day) == k then a[i].slotHours else 0)
  {
    PrefixStep(a, i);
  }

  /** `daily_hours[key] += slot_hours` after the key was set to 0 if it was
      missing. */
  function AddDayHours(d: Dict<CourseDay, int>, x: Assignment): Dict<CourseDay, int> {
    var key := CourseDay(x.courseId, x.day);
    var d1 := if key !in d.entries then d.Put(key, 0) else d;
    d1.Put(key, d1.entries[key] + x.slotHours)
  }

  /** The `daily_hours` dict after the first loop has seen `a`. */
  function DailyTable(a: seq<Assignment>): Dict<CourseDay, int> {
    if a == [] then EmptyDict() else AddDayHours(DailyTable(a[..|a| - 1]), a[|a| - 1])
  }

  /** `d` holds the block hours of every (course, day) it has. */
  ghost predicate HoldsDayHours(d: Dict<CourseDay, int>, a: seq<Assignment>) {
    forall k :: k in d.entries ==> d.entries[k] == DayHours(a, k)
  }

  /** The table has one key per (course, day) of `a`, in first-occurrence
      order. */
  lemma {:induction false} DailyTableKeys(a: seq<Assignment>)
    ensures Tracks(DailyTable(a), CourseDays(a))
  {
    if a != [] {
      var n := |a| - 1;
      var d, x := DailyTable(a[..n]), a[n];
      var key := CourseDay(x.courseId, x.day);
      DailyTableKeys(a[..n]);
      CourseDaysSnoc(a);
      var d1 := if key !in d.entries then d.Put(key, 0) else d;
      TracksUpsert(d, CourseDays(a[..n]), key, 0, d1.entries[key] + x.slotHours);
    }
  }

  /** The table holds each (course, day)'s block hours; a key it lacks has
      none. */
  lemma {:induction false} DailyTableHours(a: seq<Assignment>)
    ensures HoldsDayHours(DailyTable(a), a)
    ensures forall k :: k !in DailyTable(a).entries ==> DayHours(a, k) == 0
  {
    if a != [] {
      var n := |a| - 1;
      DailyTableHours(a[..n]);
      forall k ensures k in DailyTable(a).entries ==> DailyTable(a).entries[k] == DayHours(a, k)
        ensures k !in DailyTable(a).entries ==> DayHours(a, k) == 0
      {
        DayHoursStep(a, n, k);
        assert a[..n + 1] == a;
      }
    }
  }

  /** The first loop of `calculate_daily_hours_penalty`. */
  method TallyDailyHours(a: seq<Assignment>) returns (dailyHours: Dict<CourseDay, int>)
    ensures dailyHours == DailyTable(a)
  {
    dailyHours := EmptyDict();
    for i := 0 to |a|
      invariant dailyHours == DailyTable(a[..i])
    {
      var key := CourseDay(a[i].courseId, a[i].day);
      if key !in dailyHours.entries {
        dailyHours := dailyHours.Put(key, 0);
      }
      dailyHours := dailyHours.Put(key, dailyHours.entries[key] + a[i].slotHours);
      PrefixStep(a, i);
    }
    WholePrefix(a);
  }

  /** The second loop of `calculate_daily_hours_penalty`, over a table
      holding the block hours of `a`. */
  method SumDailyExcess(dailyHours: Dict<CourseDay, int>, ghost a: seq<Assignment>) returns (penalty: int)
    requires forall j :: 0 <= j < |dailyHours.order| ==> dailyHours.order[j] in dailyHours.entries
    requires HoldsDayHours(dailyHours, a)
    ensures penalty == DailySum(a, dailyHours.order, |dailyHours.order|)
  {
    penalty := 0;
    var order := dailyHours.order;
    for j := 0 to |order|
      invariant penalty == DailySum(a, order, j)
    {
      var hours := dailyHours.entries[order[j]];
      if hours > 4 {
        penalty := penalty + 5 * (hours - 4);
      }
    }
  }

  /** `calculate_daily_hours_penalty`. */
  method DailyHoursPenalty(a: seq<Assignment>) returns (penalty: int)
    ensures penalty == DailyTotal(a)
  {
    var dailyHours := TallyDailyHours(a);
    assert forall j :: 0 <= j < |dailyHours.order| ==> dailyHours.order[j] in dailyHours.entries by {
      DailyTableKeys(a);
      DistinctMembers(CourseDays(a));
    }
    DailyTableKeys(a);
    DailyTableHours(a);
    penalty := SumDailyExcess(dailyHours, a);
  }

  lemma {:induction false} DailySumZero(a: seq<Assignment>, keys: seq<CourseDay>, n: nat)
    requires n <= |keys|
    ensures DailySum(a, keys, n) == 0 <==> forall j :: 0 <= j < n ==> DayHours(a, keys[j]) <= 4
  {
    if n > 0 {
      DailySumZero(a, keys, n - 1);
    }
  }

  /** The daily-load penalty is 0 exactly when no course has more than 4
      block hours on any day. */
  lemma DailyTotalZero(a: seq<Assignment>)
    ensures DailyTotal(a) == 0 <==> forall i :: 0 <= i < |a| ==> DayHours(a, CourseDay(a[i].courseId, a[i].day)) <= 4
  {
    var keys := CourseDays(a);
    var d := Distinct(keys);
    DailySumZero(a, d, |d|);
    if DailyTotal(a) == 0 {
      forall i | 0 <= i < |a| ensures DayHours(a, CourseDay(a[i].courseId, a[i].day)) <= 4 {
        assert keys[i] in d;
      }
    } else {
      var j :| 0 <= j < |d| && DayHours(a, d[j]) > 4;
      var i :| 0 <= i < |keys| && keys[i] == d[j];
    }
  }

  /** Two 3-hour blocks of one course on one day cost 10: 6 hours, 2 of them
      beyond the daily limit. */
  lemma DailyExample()
    ensures DailyTotal([Block3(1, Mon), Block3(1, Mon)]) == 10
  {
    var x, k := Block3(1, Mon), CourseDay(1, Mon);
    var a := [x, x];
    assert Distinct(CourseDays(a)) == [k] by {
      assert CourseDays(a) == [k] + [k];
      assert [] + [k] == [k];
      DistinctSnoc([], k);
      DistinctSnoc([k], k);
    }
    assert DayHours(a, k) == 6 by {
      assert a[..1] == [x];
      assert [x][..0] == [];
      assert DayHours([x], k) == 3;
    }
  }

  /** The same blocks on two different days cost nothing. */
  lemma DailySpreadExample()
    ensures DailyTotal([Block3(1, Mon), Block3(1, Tue)]) == 0
  {
    var a := [Block3(1, Mon), Block3(1, Tue)];
    assert a[..1] == [Block3(1, Mon)];
    assert [Block3(1, Mon)][..0] == [];
    DailyTotalZero(a);
  }

  function Block3(courseId: int, day: Day): Assignment {
    Assignment(courseId, 1, 1, 1, day, Clock(8, 0), 3, 180, Clock(11, 0))
  }

  function CourseIds(a: seq<Assignment>): (r: seq<int>)
    ensures |r| == |a| && forall i :: 0 <= i < |a| ==> r[i] == a[i].courseId
  {
    seq(|a|, i requires 0 <= i < |a| => a[i].courseId)
  }

  /** The block hours of course `c` in the week. */
  function WeekHours(a: seq<Assignment>, c: int): int {
    if a == [] then 0
    else
      var x := a[|a| - 1];
      WeekHours(a[..|a| - 1], c) + (if x.courseId == c then x.slotHours else 0)
  }

  /** 10 per hour beyond 20 of each of the first `n` courses of `courses`. */
  function WeeklySum(a: seq<Assignment>, courses: seq<int>, n: nat): nat
    requires n <= |courses|
  {
    if n == 0 then 0
    else WeeklySum(a, courses, n - 1) + Excess(WeekHours(a, courses[n - 1]), 20, 10)
  }

  /** The weekly-load penalty: every course that has a block, once. */
  function WeeklyTotal(a: seq<Assignment>): nat {
    var courses := Distinct(CourseIds(a));
    WeeklySum(a, courses, |courses|)
  }

  lemma CourseIdsSnoc(a: seq<Assignment>)
    requires a != []
    ensures CourseIds(a) == CourseIds(a[..|a| - 1]) + [a[|a| - 1].courseId]
  {
  }

  lemma WeekHoursStep(a: seq<Assignment>, i: nat, c: int)
    requires i < |a|
    ensures WeekHours(a[..i + 1], c) == WeekHours(a[..i], c) + (if a[i].courseId == c then a[i].slotHours else 0)
  {
    PrefixStep(a, i);
  }

  /** `d` holds the weekly block hours of every course it has. */
  ghost predicate HoldsWeekHours(d: Dict<int, int>, a: seq<Assignment>) {
    forall c :: c in d.entries ==> d.entries[c] == WeekHours(a, c)
  }

  /** `weekly_hours[course_id] += slot_hours` after the key was set to 0 if
      it was missing. */
  function AddWeekHours(d: Dict<int, int>, x: Assignment): Dict<int, int> {
    var d1 := if x.courseId !in d.entries then d.Put(x.courseId, 0) else d;
    d1.Put(x.courseId, d1.entries[x.courseId] + x.slotHours)
  }

  /** The `weekly_hours` dict after the first loop has seen `a`. */
  function WeeklyTable(a: seq<Assignment>): Dict<int, int> {
    if a == [] then EmptyDict() else AddWeekHours(WeeklyTable(a[..|a| - 1]), a[|a| - 1])
  }

  /** The table has one key per course of `a`, in first-occurrence order. */
  lemma {:induction false} WeeklyTableKeys(a: seq<Assignment>)
    ensures Tracks(WeeklyTable(a), CourseIds(a))
  {
    if a != [] {
      var n := |a| - 1;
      var d, x := WeeklyTable(a[..n]), a[n];
      WeeklyTableKeys(a[..n]);
      CourseIdsSnoc(a);
      var d1 := if x.courseId !in d.entries then d.Put(x.courseId, 0) else d;
      TracksUpsert(d, CourseIds(a[..n]), x.courseId, 0, d1.entries[x.courseId] + x.slotHours);
    }
  }

  /** The table holds each course's weekly block hours; a course it lacks
      has none. */
  lemma {:induction false} WeeklyTableHours(a: seq<Assignment>)
    ensures HoldsWeekHours(WeeklyTable(a), a)
    ensures forall c :: c !in WeeklyTable(a).entries ==> WeekHours(a, c) == 0
  {
    if a != [] {
      var n := |a| - 1;
      WeeklyTableHours(a[..n]);
      forall c ensures c in WeeklyTable(a).entries ==> WeeklyTable(a).entries[c] == WeekHours(a, c)
        ensures c !in WeeklyTable(a).entries ==> WeekHours(a, c) == 0
      {
        WeekHoursStep(a, n, c);
        assert a[..n + 1] == a;
      }
    }
  }

  /** The first loop of `calculate_weekly_hours_penalty`. */
  method TallyWeeklyHours(a: seq<Assignment>) returns (weeklyHours: Dict<int, int>)
    ensures weeklyHours == WeeklyTable(a)
  {
    weeklyHours := EmptyDict();
    for i := 0 to |a|
      invariant weeklyHours == WeeklyTable(a[..i])
    {
      var courseId := a[i].courseId;
      if courseId !in weeklyHours.entries {
        weeklyHours := weeklyHours.Put(courseId, 0);
      }
      weeklyHours := weeklyHours.Put(courseId, weeklyHours.entries[courseId] + a[i].slotHours);
      PrefixStep(a, i);
    }
    WholePrefix(a);
  }

  /** The second loop of `calculate_weekly_hours_penalty`, over a table
      holding the weekly block hours of `a`. */
  method SumWeeklyExcess(weeklyHours: Dict<int, int>, ghost a: seq<Assignment>) returns (penalty: int)
    requires forall j :: 0 <= j < |weeklyHours.order| ==> weeklyHours.order[j] in weeklyHours.entries
    requires HoldsWeekHours(weeklyHours, a)
    ensures penalty == WeeklySum(a, weeklyHours.order, |weeklyHours.order|)
  {
    penalty := 0;
    var order := weeklyHours.order;
    for j := 0 to |order|
      invariant penalty == WeeklySum(a, order, j)
    {
      var hours := weeklyHours.entries[order[j]];
      if hours > 20 {
        penalty := penalty + 10 * (hours - 20);
      }
    }
  }

  /** `calculate_weekly_hours_penalty`. */
  method WeeklyHoursPenalty(a: seq<Assignment>) returns (penalty: int)
    ensures penalty == WeeklyTotal(a)
  {
    var weeklyHours := TallyWeeklyHours(a);
    assert forall j :: 0 <= j < |weeklyHours.order| ==> weeklyHours.order[j] in weeklyHours.entries by {
      WeeklyTableKeys(a);
      DistinctMembers(CourseIds(a));
    }
    WeeklyTableKeys(a);
    WeeklyTableHours(a);
    penalty := SumWeeklyExcess(weeklyHours, a);
  }

  lemma {:induction false} WeeklySumZero(a: seq<Assignment>, courses: seq<int>, n: nat)
    requires n <= |courses|
    ensures WeeklySum(a, courses, n) == 0 <==> forall j :: 0 <= j < n ==> WeekHours(a, courses[j]) <= 20
  {
    if n > 0 {
      WeeklySumZero(a, courses, n - 1);
    }
  }

  /** The weekly-load penalty is 0 exactly when no course has more than 20
      block hours in the week. */
  lemma WeeklyTotalZero(a: seq<Assignment>)
    ensures WeeklyTotal(a) == 0 <==> forall i :: 0 <= i < |a| ==> WeekHours(a, a[i].courseId) <= 20
  {
    var keys := CourseIds(a);
    var d := Distinct(keys);
    WeeklySumZero(a, d, |d|);
    if WeeklyTotal(a) == 0 {
      forall i | 0 <= i < |a| ensures WeekHours(a, a[i].courseId) <= 20 {
        assert keys[i] in d;
      }
    } else {
      var j :| 0 <= j < |d| && WeekHours(a, d[j]) > 20;
      var i :| 0 <= i < |keys| && keys[i] == d[j];
    }
  }

  /** The day and week totals agree: a course's week is the sum of its days. */
  lemma {:induction false} WeekIsSumOfDays(a: seq<Assignment>, c: int)
    ensures WeekHours(a, c) == DayHours(a, CourseDay(c, Mon)) + DayHours(a, CourseDay(c, Tue)) +
      DayHours(a, CourseDay(c, Wed)) + DayHours(a, CourseDay(c, Thu)) + DayHours(a, CourseDay(c, Fri))
  {
    if a != [] {
      WeekIsSumOfDays(a[..|a| - 1], c);
      var x := a[|a| - 1];
      assert x.day == Mon || x.day == Tue || x.day == Wed || x.day == Thu || x.day == Fri;
    }
  }
}
