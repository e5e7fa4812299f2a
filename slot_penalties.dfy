/** The penalty rules about clashing time slots: two assignments in one room
    at one slot (`calculate_overlap_penalty`), one subject twice at one slot
    (`calculate_duplicate_penalty`), and overlapping hours of one course on
    one day (`calculate_course_overlap_penalty`). */
module SlotPenalties {
  import opened ScheduleData
  import opened Collections
  import opened Decoder

  /** The key of `calculate_overlap_penalty`: (room, day, start time). */
  datatype RoomSlot = RoomSlot(roomId: int, day: Day, startTime: Clock)

  function RoomSlots(a: seq<Assignment>): (r: seq<RoomSlot>)
    ensures |r| == |a| && forall i :: 0 <= i < |a| ==> r[i] == RoomSlot(a[i].roomId, a[i].day, a[i].startTime)
  {
    seq(|a|, i requires 0 <= i < |a| => RoomSlot(a[i].roomId, a[i].day, a[i].startTime))
  }

  /** 10 for every assignment whose (room, day, start) an earlier one already
      used: 10 times the number of assignments beyond the distinct keys. So
      the penalty is 0 exactly when no two assignments share room, day and
      start time. */
  method OverlapPenalty(a: seq<Assignment>) returns (penalty: int)
    ensures penalty == 10 * (|a| - |Distinct(RoomSlots(a))|)
    ensures penalty >= 0
    ensures penalty == 0 <==> NoDup(RoomSlots(a))
  {
    ghost var keys := RoomSlots(a);
    penalty := 0;
    var schedule: map<RoomSlot, Assignment> := map[];
    for i := 0 to |a|
      invariant forall k :: k in schedule <==> k in keys[..i]
      invariant penalty == 10 * Repeats(keys[..i])
    {
      var key := RoomSlot(a[i].roomId, a[i].day, a[i].startTime);
      assert keys[..i + 1] == keys[..i] + [key];
      RepeatsSnoc(keys[..i], key);
      if key in schedule {
        penalty := penalty + 10;
      }
      schedule := schedule[key := a[i]];
    }
    assert keys[..|a|] == keys;
    RepeatsDistinct(keys);
  }

  /** The key of `calculate_duplicate_penalty`: (subject, day, start time). */
  datatype SubjectSlot = SubjectSlot(subjectId: int, day: Day, startTime: Clock)

  function SubjectSlots(a: seq<Assignment>): (r: seq<SubjectSlot>)
    ensures |r| == |a| && forall i :: 0 <= i < |a| ==> r[i] == SubjectSlot(a[i].subjectId, a[i].day, a[i].startTime)
  {
    seq(|a|, i requires 0 <= i < |a| => SubjectSlot(a[i].subjectId, a[i].day, a[i].startTime))
  }

  /** 2 for every assignment whose (subject, day, start) an earlier one
      already used; 0 exactly when those keys are pairwise distinct. */
  method DuplicatePenalty(a: seq<Assignment>) returns (penalty: int)
    ensures penalty == 2 * (|a| - |Distinct(SubjectSlots(a))|)
    ensures penalty >= 0
    ensures penalty == 0 <==> NoDup(SubjectSlots(a))
  {
    ghost var keys := SubjectSlots(a);
    penalty := 0;
    var subjectSlots: map<SubjectSlot, bool> := map[];
    for i := 0 to |a|
      invariant forall k :: k in subjectSlots <==> k in keys[..i]
      invariant penalty == 2 * Repeats(keys[..i])
    {
      var key := SubjectSlot(a[i].subjectId, a[i].day, a[i].startTime);
      assert keys[..i + 1] == keys[..i] + [key];
      RepeatsSnoc(keys[..i], key);
      if key in subjectSlots {
        penalty := penalty + 2;
      }
      subjectSlots := subjectSlots[key := true];
    }
    assert keys[..|a|] == keys;
    RepeatsDistinct(keys);
  }

  /** What `calculate_course_overlap_penalty` records of a block: its day and
      its start and (unclamped) end hour. */
  datatype Span = Span(day: Day, startHour: int, endHour: int)

  function SpanOf(x: Assignment): Span {
    Span(x.day, x.startTime.hour, UnclampedEnd(x.startTime, x.duration).hour)
  }

  /** Same day and intersecting half-open hour ranges [start, end). */
  predicate SpansClash(s: Span, t: Span) {
    s.day == t.day && !(s.endHour <= t.startHour || s.startHour >= t.endHour)
  }

  /** Two blocks of the same course that clash. */
  predicate Clash(x: Assignment, y: Assignment) {
    x.courseId == y.courseId && SpansClash(SpanOf(x), SpanOf(y))
  }

  lemma ClashSymmetric(x: Assignment, y: Assignment)
    ensures Clash(x, y) <==> Clash(y, x)
  {
  }

  /** Number of assignments in `earlier` that clash with `x`. */
  function ClashesWith(earlier: seq<Assignment>, x: Assignment): nat {
    if earlier == [] then 0
    else ClashesWith(earlier[..|earlier| - 1], x) + (if Clash(earlier[|earlier| - 1], x) then 1 else 0)
  }

  /** Number of pairs (earlier, later) of clashing assignments. */
  function ClashingPairs(a: seq<Assignment>): nat {
    if a == [] then 0
    else ClashingPairs(a[..|a| - 1]) + ClashesWith(a[..|a| - 1], a[|a| - 1])
  }

  /** The spans recorded for course `c`, in order (`course_slots[c]`). */
  function CourseSpans(a: seq<Assignment>, c: int): seq<Span> {
    if a == [] then []
    else CourseSpans(a[..|a| - 1], c) + (if a[|a| - 1].courseId == c then [SpanOf(a[|a| - 1])] else [])
  }

  /** Number of spans in `spans` that clash with `s`. */
  function SpanClashes(spans: seq<Span>, s: Span): nat {
    if spans == [] then 0
    else SpanClashes(spans[..|spans| - 1], s) + (if SpansClash(spans[|spans| - 1], s) then 1 else 0)
  }

  lemma {:induction false} SpanClashesOfCourse(earlier: seq<Assignment>, x: Assignment)
    ensures SpanClashes(CourseSpans(earlier, x.courseId), SpanOf(x)) == ClashesWith(earlier, x)
  {
    if earlier != [] {
      var init, y := earlier[..|earlier| - 1], earlier[|earlier| - 1];
      SpanClashesOfCourse(init, x);
      var spans := CourseSpans(init, x.courseId);
      assert ClashesWith(earlier, x) == ClashesWith(init, x) + (if Clash(y, x) then 1 else 0);
      if y.courseId == x.courseId {
        assert CourseSpans(earlier, x.courseId) == spans + [SpanOf(y)];
        assert (spans + [SpanOf(y)])[..|spans|] == spans;
      } else {
        assert CourseSpans(earlier, x.courseId) == spans;
      }
    }
  }

  lemma CourseStep(a: seq<Assignment>, i: nat)
    requires i < |a|
    ensures ClashingPairs(a[..i + 1]) == ClashingPairs(a[..i]) + ClashesWith(a[..i], a[i])
    ensures forall c :: CourseSpans(a[..i + 1], c) == CourseSpans(a[..i], c) + (if a[i].courseId == c then [SpanOf(a[i])] else [])
  {
    PrefixStep(a, i);
  }

  /** The inner loop of `calculate_course_overlap_penalty`: 10 for every
      recorded span of the course that clashes with `slot`. */
  method AddClashes(penalty: int, others: seq<Span>, slot: Span) returns (result: int)
    ensures result == penalty + 10 * SpanClashes(others, slot)
  {
    result := penalty;
    for j := 0 to |others|
      invariant result == penalty + 10 * SpanClashes(others[..j], slot)
    {
      var other := others[j];
      PrefixStep(others, j);
      if slot.day == other.day && !(slot.endHour <= other.startHour || slot.startHour >= other.endHour) {
        result := result + 10;
      }
    }
    WholePrefix(others);
  }

  /** 10 for every pair of blocks of one course, one after the other in the
      list, on the same day with intersecting hour ranges. */
  method CourseOverlapPenalty(a: seq<Assignment>) returns (penalty: int)
    ensures penalty == 10 * ClashingPairs(a)
  {
    penalty := 0;
    var courseSlots: map<int, seq<Span>> := map[];
    for i := 0 to |a|
      invariant forall c :: c in courseSlots ==> courseSlots[c] == CourseSpans(a[..i], c)
      invariant forall c :: c !in courseSlots ==> CourseSpans(a[..i], c) == []
      invariant penalty == 10 * ClashingPairs(a[..i])
    {
      var x := a[i];
      var startHour := x.startTime.hour;
      var end := UnclampedEnd(x.startTime, x.duration);
      var slot := Span(x.day, startHour, end.hour);
      if x.courseId !in courseSlots {
        courseSlots := courseSlots[x.courseId := []];
      }
      var others := courseSlots[x.courseId];
      penalty := AddClashes(penalty, others, slot);
      SpanClashesOfCourse(a[..i], x);
      CourseStep(a, i);
      courseSlots := courseSlots[x.courseId := others + [slot]];
    }
    WholePrefix(a);
  }

  /** The course-overlap count is 0 exactly when no two blocks of one course
      clash; blocks on different days or with disjoint hours never count. */
  lemma {:induction false} ClashingPairsZero(a: seq<Assignment>)
    ensures ClashingPairs(a) == 0 <==> forall i, j :: 0 <= i < j < |a| ==> !Clash(a[i], a[j])
  {
    if a != [] {
      var n := |a| - 1;
      var init := a[..n];
      ClashingPairsZero(init);
      ClashesWithZero(init, a[n]);
      if ClashingPairs(a) == 0 {
        forall i, j | 0 <= i < j < |a| ensures !Clash(a[i], a[j]) {
          if j < n {
            assert init[i] == a[i] && init[j] == a[j];
          } else {
            assert init[i] == a[i];
          }
        }
      } else {
        if ClashingPairs(init) != 0 {
          var i, j :| 0 <= i < j < |init| && Clash(init[i], init[j]);
          assert a[i] == init[i] && a[j] == init[j];
        } else {
          var i :| 0 <= i < |init| && Clash(init[i], a[n]);
          assert a[i] == init[i];
        }
      }
    }
  }

  lemma {:induction false} ClashesWithZero(earlier: seq<Assignment>, x: Assignment)
    ensures ClashesWith(earlier, x) == 0 <==> forall i :: 0 <= i < |earlier| ==> !Clash(earlier[i], x)
  {
    if earlier != [] {
      var n := |earlier| - 1;
      ClashesWithZero(earlier[..n], x);
      assert forall i :: 0 <= i < n ==> earlier[..n][i] == earlier[i];
    }
  }
}
