/** The penalty rules about teachers: long gaps between a teacher's classes
    on one day (`calculate_teacher_movement_penalty`), late classes for
    teachers from Montevideo (`calculate_teacher_preference_penalty`), and
    subjects taught by more than one teacher
    (`calculate_split_teacher_penalty`). */
module TeacherPenalties {
  import opened ScheduleData
  import opened Collections

  /** The latest assignment in `earlier` of teacher `t` on day `d`. */
  function LatestOn(earlier: seq<Assignment>, t: int, d: Day): Option<Assignment> {
    if earlier == [] then None
    else
      var y := earlier[|earlier| - 1];
      if y.teacherId == t && y.day == d then Some(y) else LatestOn(earlier[..|earlier| - 1], t, d)
  }

  /** What assignment `x` adds, given the assignments before it: 10 per hour
      of distance from the start of that teacher's latest earlier class on
      the same day, when that distance exceeds 2 hours. */
  function MovementCost(earlier: seq<Assignment>, x: Assignment): nat {
    match LatestOn(earlier, x.teacherId, x.day)
    case None => 0
    case Some(y) =>
      var gap := Abs(x.startTime.hour - y.startTime.hour);
      if gap > 2 then 10 * gap else 0
  }

  function MovementTotal(a: seq<Assignment>): nat {
    if a == [] then 0 else MovementTotal(a[..|a| - 1]) + MovementCost(a[..|a| - 1], a[|a| - 1])
  }

  /** The start times recorded for teacher `t` on day `d`, in order. */
  function StartsOn(a: seq<Assignment>, t: int, d: Day): seq<Clock> {
    if a == [] then []
    else
      var y := a[|a| - 1];
      StartsOn(a[..|a| - 1], t, d) + (if y.teacherId == t && y.day == d then [y.startTime] else [])
  }

  lemma {:induction false} StartsOnLatest(a: seq<Assignment>, t: int, d: Day)
    ensures StartsOn(a, t, d) == [] <==> LatestOn(a, t, d).None?
    ensures StartsOn(a, t, d) != [] ==>
      StartsOn(a, t, d)[|StartsOn(a, t, d)| - 1] == LatestOn(a, t, d).value.startTime
  {
    if a != [] {
      StartsOnLatest(a[..|a| - 1], t, d);
    }
  }

  /** `teacher_assignments[t][d]`, or the empty list when it is not there. */
  function Recorded(m: map<int, map<Day, seq<Clock>>>, t: int, d: Day): seq<Clock> {
    if t in m && d in m[t] then m[t][d] else []
  }

  /** `teacher_assignments[x.teacher_id][x.day].append(x.start_time)`, the
      missing levels created first. */
  function Record(m: map<int, map<Day, seq<Clock>>>, x: Assignment): map<int, map<Day, seq<Clock>>> {
    var days := if x.teacherId in m then m[x.teacherId] else map[];
    m[x.teacherId := days[x.day := Recorded(m, x.teacherId, x.day) + [x.startTime]]]
  }

  /** Recording the next assignment keeps the dict equal to the start times
      seen so far, and the total grows by that assignment's cost. */
  lemma RecordStep(m: map<int, map<Day, seq<Clock>>>, a: seq<Assignment>, i: nat)
    requires i < |a|
    requires forall t, d :: Recorded(m, t, d) == StartsOn(a[..i], t, d)
    ensures forall t, d :: Recorded(Record(m, a[i]), t, d) == StartsOn(a[..i + 1], t, d)
    ensures MovementTotal(a[..i + 1]) == MovementTotal(a[..i]) + MovementCost(a[..i], a[i])
  {
    PrefixStep(a, i);
    forall t, d ensures Recorded(Record(m, a[i]), t, d) == StartsOn(a[..i + 1], t, d) {
      if t != a[i].teacherId || d != a[i].day {
        assert Recorded(Record(m, a[i]), t, d) == Recorded(m, t, d);
      }
    }
  }

  /** `calculate_teacher_movement_penalty`: each assignment is compared with
      the latest earlier start of the same teacher on the same day only. */
  method TeacherMovementPenalty(a: seq<Assignment>) returns (penalty: int)
    ensures penalty == MovementTotal(a)
  {
    penalty := 0;
    var teacherAssignments: map<int, map<Day, seq<Clock>>> := map[];
    for i := 0 to |a|
      invariant forall t, d :: Recorded(teacherAssignments, t, d) == StartsOn(a[..i], t, d)
      invariant penalty == MovementTotal(a[..i])
    {
      var teacherId, day, time := a[i].teacherId, a[i].day, a[i].startTime;
      var days := if teacherId in teacherAssignments then teacherAssignments[teacherId] else map[];
      var times := if day in days then days[day] else [];
      assert times == StartsOn(a[..i], teacherId, day);
      StartsOnLatest(a[..i], teacherId, day);
      RecordStep(teacherAssignments, a, i);
      if times != [] {
        var lastTime := times[|times| - 1];
        var timeDiff := Abs(time.hour - lastTime.hour);
        if timeDiff > 2 {
          penalty := penalty + 10 * timeDiff;
        }
      }
      ghost var before := teacherAssignments;
      teacherAssignments := teacherAssignments[teacherId := days[day := times + [time]]];
      assert teacherAssignments == Record(before, a[i]);
    }
    WholePrefix(a);
  }

  /** Assignment `x` starts within 2 hours of the latest earlier class of
      its teacher on its day, or is that teacher's first class of the day. */
  predicate StaysNear(earlier: seq<Assignment>, x: Assignment) {
    match LatestOn(earlier, x.teacherId, x.day)
    case None => true
    case Some(y) => Abs(x.startTime.hour - y.startTime.hour) <= 2
  }

  /** The movement penalty is 0 exactly when every class stays near the
      latest earlier class of the same teacher on the same day. */
  lemma {:induction false} MovementZero(a: seq<Assignment>)
    ensures MovementTotal(a) == 0 <==> forall i :: 0 <= i < |a| ==> StaysNear(a[..i], a[i])
  {
    if a != [] {
      var n := |a| - 1;
      MovementZero(a[..n]);
      assert forall i :: 0 <= i < n ==> a[..n][i] == a[i] && a[..n][..i] == a[..i];
      assert MovementCost(a[..n], a[n]) == 0 <==> StaysNear(a[..n], a[n]);
    }
  }

  function ClassAt(teacherId: int, hour: int): Assignment {
    Assignment(1, 1, teacherId, 1, Mon, Clock(hour, 0), 2, 120, Clock(hour + 2, 0))
  }

  /** One teacher at 8:00, 10:00 and 14:00 on one day: only the 10-to-14 gap
      counts (40); the 8-to-14 distance is never looked at. */
  lemma MovementComparesWithLatestOnly()
    ensures MovementTotal([ClassAt(7, 8), ClassAt(7, 10), ClassAt(7, 14)]) == 40
  {
    var a := [ClassAt(7, 8), ClassAt(7, 10), ClassAt(7, 14)];
    assert a[..2] == [ClassAt(7, 8), ClassAt(7, 10)];
    assert a[..2][..1] == [ClassAt(7, 8)];
    assert [ClassAt(7, 8)][..0] == [];
    assert LatestOn(a[..2], 7, Mon) == Some(ClassAt(7, 10));
    assert LatestOn(a[..1], 7, Mon) == Some(ClassAt(7, 8));
  }

  /** Every assignment's teacher is in the table. */
  predicate TeachersKnown(a: seq<Assignment>, teachers: map<int, Teacher>) {
    forall i :: 0 <= i < |a| ==> a[i].teacherId in teachers
  }

  /** 5 for a class of a teacher from Montevideo starting at 21:00 or later,
      3 for one starting at 19:00 or 20:00, nothing otherwise. */
  function PreferenceCost(teacher: Teacher, hour: int): nat {
    if teacher.fromMontevideo then (if hour >= 21 then 5 else if hour >= 19 then 3 else 0) else 0
  }

  function PreferenceTotal(a: seq<Assignment>, teachers: map<int, Teacher>): nat
    requires TeachersKnown(a, teachers)
  {
    if a == [] then 0
    else
      var x := a[|a| - 1];
      PreferenceTotal(a[..|a| - 1], teachers) + PreferenceCost(teachers[x.teacherId], x.startTime.hour)
  }

  /** `calculate_teacher_preference_penalty`: at most 5 per class, and 0
      exactly when no teacher from Montevideo has a class from 19:00 on. */
  method TeacherPreferencePenalty(a: seq<Assignment>, teachers: map<int, Teacher>) returns (penalty: int)
    requires TeachersKnown(a, teachers)
    ensures penalty == PreferenceTotal(a, teachers)
    ensures 0 <= penalty <= 5 * |a|
    ensures penalty == 0 <==> forall i :: 0 <= i < |a| ==>
      (teachers[a[i].teacherId].fromMontevideo ==> a[i].startTime.hour < 19)
  {
    penalty := 0;
    for i := 0 to |a|
      invariant penalty == PreferenceTotal(a[..i], teachers)
      invariant 0 <= penalty <= 5 * i
      invariant penalty == 0 <==> forall k :: 0 <= k < i ==>
        (teachers[a[k].teacherId].fromMontevideo ==> a[k].startTime.hour < 19)
    {
      var teacher := teachers[a[i].teacherId];
      var hour := a[i].startTime.hour;
      if teacher.fromMontevideo {
        if hour >= 21 {
          penalty := penalty + 5;
        } else if hour >= 19 {
          penalty := penalty + 3;
        }
      }
      PrefixStep(a, i);
    }
    WholePrefix(a);
  }

  /** The teachers assigned to subject `s` in `a`. */
  function TeachersOf(a: seq<Assignment>, s: int): set<int> {
    if a == [] then {}
    else
      var x := a[|a| - 1];
      TeachersOf(a[..|a| - 1], s) + (if x.subjectId == s then {x.teacherId} else {})
  }

  lemma {:induction false} TeachersOfMembers(a: seq<Assignment>, s: int)
    ensures forall t :: t in TeachersOf(a, s) <==> exists i :: 0 <= i < |a| && a[i].subjectId == s && a[i].teacherId == t
  {
    if a != [] {
      var n := |a| - 1;
      TeachersOfMembers(a[..n], s);
      assert forall i :: 0 <= i < n ==> a[..n][i] == a[i];
    }
  }

  lemma TeachersOfStep(a: seq<Assignment>, i: nat)
    requires i < |a|
    ensures forall s :: TeachersOf(a[..i + 1], s) == TeachersOf(a[..i], s) + (if a[i].subjectId == s then {a[i].teacherId} else {})
    ensures SplitTotal(a[..i + 1]) == SplitTotal(a[..i]) + (if Mixed(a[..i + 1], a[i].subjectId) then 3 else 0)
  {
    PrefixStep(a, i);
  }

  /** Subject `s` has two assignments with different teachers in `a`. */
  ghost predicate Mixed(a: seq<Assignment>, s: int) {
    exists i, j :: 0 <= i < |a| && 0 <= j < |a| &&
      a[i].subjectId == s && a[j].subjectId == s && a[i].teacherId != a[j].teacherId
  }

  lemma MixedIffTwoTeachers(a: seq<Assignment>, s: int)
    ensures |TeachersOf(a, s)| > 1 <==> Mixed(a, s)
  {
    var ts := TeachersOf(a, s);
    TwoElements(ts);
    if |ts| > 1 {
      var x, y := PickTwo(ts);
      TeachersOfMembers(a, s);
      var i :| 0 <= i < |a| && a[i].subjectId == s && a[i].teacherId == x;
      var j :| 0 <= j < |a| && a[j].subjectId == s && a[j].teacherId == y;
      assert a[i].teacherId != a[j].teacherId;
    }
    if Mixed(a, s) {
      var i, j :| 0 <= i < |a| && 0 <= j < |a| &&
        a[i].subjectId == s && a[j].subjectId == s && a[i].teacherId != a[j].teacherId;
      TeachersOfMembers(a, s);
      assert a[i].teacherId in ts && a[j].teacherId in ts;
    }
  }

  /** 3 for every assignment at which its subject has, counting it and the
      assignments before it, seen two different teachers. */
  ghost function SplitTotal(a: seq<Assignment>): nat {
    if a == [] then 0
    else SplitTotal(a[..|a| - 1]) + (if Mixed(a, a[|a| - 1].subjectId) then 3 else 0)
  }

  /** `calculate_split_teacher_penalty`. */
  method SplitTeacherPenalty(a: seq<Assignment>) returns (penalty: int)
    ensures penalty == SplitTotal(a)
  {
    penalty := 0;
    var subjectTeachers: map<int, set<int>> := map[];
    for i := 0 to |a|
      invariant forall s :: s in subjectTeachers ==> subjectTeachers[s] == TeachersOf(a[..i], s)
      invariant forall s :: s !in subjectTeachers ==> TeachersOf(a[..i], s) == {}
      invariant penalty == SplitTotal(a[..i])
    {
      var subjectId, teacherId := a[i].subjectId, a[i].teacherId;
      if subjectId !in subjectTeachers {
        subjectTeachers := subjectTeachers[subjectId := {}];
      }
      subjectTeachers := subjectTeachers[subjectId := subjectTeachers[subjectId] + {teacherId}];
      TeachersOfStep(a, i);
      MixedIffTwoTeachers(a[..i + 1], subjectId);
      if |subjectTeachers[subjectId]| > 1 {
        penalty := penalty + 3;
      }
    }
    WholePrefix(a);
  }

  /** The split-teacher penalty is 0 exactly when every subject keeps one
      teacher throughout. */
  lemma {:induction false} SplitTotalZero(a: seq<Assignment>)
    ensures SplitTotal(a) == 0 <==> forall i, j :: 0 <= i < |a| && 0 <= j < |a| && a[i].subjectId == a[j].subjectId ==>
      a[i].teacherId == a[j].teacherId
  {
    if a != [] {
      var n := |a| - 1;
      var init := a[..n];
      SplitTotalZero(init);
      assert forall i :: 0 <= i < n ==> init[i] == a[i];
      if SplitTotal(a) == 0 {
        forall i, j | 0 <= i < |a| && 0 <= j < |a| && a[i].subjectId == a[j].subjectId
          ensures a[i].teacherId == a[j].teacherId
        {
          if i == n || j == n {
            assert !Mixed(a, a[n].subjectId);
          }
        }
      } else if SplitTotal(init) == 0 {
        assert Mixed(a, a[n].subjectId);
      }
    }
  }

  function TaughtBy(teacherId: int): Assignment {
    Assignment(1, 1, teacherId, 1, Mon, Clock(8, 0), 2, 120, Clock(10, 0))
  }

  /** One subject taught by teachers 1, 2, 2 costs 6, not 3: every
      assignment after the second teacher appears pays again. */
  lemma SplitCountsEveryLaterAssignment()
    ensures SplitTotal([TaughtBy(1), TaughtBy(2), TaughtBy(2)]) == 6
  {
    var a := [TaughtBy(1), TaughtBy(2), TaughtBy(2)];
    assert a[..2] == [TaughtBy(1), TaughtBy(2)];
    assert a[..2][..1] == [TaughtBy(1)];
    assert [TaughtBy(1)][..0] == [];
    assert Mixed(a, 1) by { assert a[0].teacherId != a[1].teacherId; }
    assert Mixed(a[..2], 1) by { assert a[..2][0].teacherId != a[..2][1].teacherId; }
    assert !Mixed(a[..1], 1);
  }
}
