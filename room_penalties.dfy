/** The penalty rules about where and when a block is placed: lab subjects in
    lab rooms and the other way round (`calculate_lab_usage_penalty`), and
    blocks inside their course's shift (`calculate_course_shift_penalty`). */
module RoomPenalties {
  import opened ScheduleData
  import opened Collections

  /** Every assignment's subject and room are in the tables. */
  predicate SubjectsAndRoomsKnown(a: seq<Assignment>, subjects: map<int, Subject>, rooms: map<int, Room>) {
    forall i :: 0 <= i < |a| ==> a[i].subjectId in subjects && a[i].roomId in rooms
  }

  /** 10 for a lab subject outside a lab, 5 for another subject in a lab. */
  function LabCost(subject: Subject, room: Room): nat {
    (if subject.requiresLab && !IsLab(room.roomType) then 10 else 0) +
    (if !subject.requiresLab && IsLab(room.roomType) then 5 else 0)
  }

  function LabTotal(a: seq<Assignment>, subjects: map<int, Subject>, rooms: map<int, Room>): nat
    requires SubjectsAndRoomsKnown(a, subjects, rooms)
  {
    if a == [] then 0
    else
      var x := a[|a| - 1];
      LabTotal(a[..|a| - 1], subjects, rooms) + LabCost(subjects[x.subjectId], rooms[x.roomId])
  }

  /** `calculate_lab_usage_penalty`: at most 10 per block, and 0 exactly when
      every block is in a lab room (COMP or LOG) if and only if its subject
      requires a lab. */
  method LabUsagePenalty(a: seq<Assignment>, subjects: map<int, Subject>, rooms: map<int, Room>)
    returns (penalty: int)
    requires SubjectsAndRoomsKnown(a, subjects, rooms)
    ensures penalty == LabTotal(a, subjects, rooms)
    ensures 0 <= penalty <= 10 * |a|
    ensures penalty == 0 <==> forall i :: 0 <= i < |a| ==>
      (subjects[a[i].subjectId].requiresLab <==> IsLab(rooms[a[i].roomId].roomType))
  {
    penalty := 0;
    for i := 0 to |a|
      invariant penalty == LabTotal(a[..i], subjects, rooms)
      invariant 0 <= penalty <= 10 * i
      invariant penalty == 0 <==> forall k :: 0 <= k < i ==>
        (subjects[a[k].subjectId].requiresLab <==> IsLab(rooms[a[k].roomId].roomType))
    {
      var subject := subjects[a[i].subjectId];
      var room := rooms[a[i].roomId];
      if subject.requiresLab && room.roomType !in [Comp, Log] {
        penalty := penalty + 10;
      }
      if !subject.requiresLab && room.roomType in [Comp, Log] {
        penalty := penalty + 5;
      }
      PrefixStep(a, i);
    }
    WholePrefix(a);
  }

  /** The hours `[start, end)` in which a shift's blocks may start: four
      hours each, between 8:00 and 23:00. */
  function ShiftHours(shift: Shift): (r: (int, int))
    ensures 8 <= r.0 && r.0 + 4 == r.1 && r.1 <= 23
  {
    match shift
    case Morning => (8, 12)
    case Afternoon => (14, 18)
    case Night => (19, 23)
  }

  predicate InShift(shift: Shift, hour: int) {
    ShiftHours(shift).0 <= hour < ShiftHours(shift).1
  }

  /** Every assignment's course is in the table (`Course.objects.get`). */
  predicate CoursesKnown(a: seq<Assignment>, courses: map<int, Course>) {
    forall i :: 0 <= i < |a| ==> a[i].courseId in courses
  }

  function ShiftTotal(a: seq<Assignment>, courses: map<int, Course>): nat
    requires CoursesKnown(a, courses)
  {
    if a == [] then 0
    else
      var x := a[|a| - 1];
      ShiftTotal(a[..|a| - 1], courses) + (if InShift(courses[x.courseId].shift, x.startTime.hour) then 0 else 5)
  }

  /** `calculate_course_shift_penalty`: 5 for every block starting outside
      its course's shift, so at most 5 per block and 0 exactly when every
      block starts inside its shift. */
  method CourseShiftPenalty(a: seq<Assignment>, courses: map<int, Course>) returns (penalty: int)
    requires CoursesKnown(a, courses)
    ensures penalty == ShiftTotal(a, courses)
    ensures 0 <= penalty <= 5 * |a|
    ensures penalty == 0 <==> forall i :: 0 <= i < |a| ==> InShift(courses[a[i].courseId].shift, a[i].startTime.hour)
  {
    penalty := 0;
    for i := 0 to |a|
      invariant penalty == ShiftTotal(a[..i], courses)
      invariant 0 <= penalty <= 5 * i
      invariant penalty == 0 <==> forall k :: 0 <= k < i ==> InShift(courses[a[k].courseId].shift, a[k].startTime.hour)
    {
      var course := courses[a[i].courseId];
      var hour := a[i].startTime.hour;
      var (start, end) := ShiftHours(course.shift);
      if !(start <= hour < end) {
        penalty := penalty + 5;
      }
      PrefixStep(a, i);
    }
    WholePrefix(a);
  }

  /** The six time slots fall two to a shift, in order: 8:00 and 10:00 in the
      morning, 14:00 and 16:00 in the afternoon, 19:00 and 21:00 at night. So
      every slot is inside exactly one shift. */
  lemma SlotShifts(k: nat)
    requires k < |TimeSlots|
    ensures InShift(Morning, TimeSlots[k].hour) <==> k < 2
    ensures InShift(Afternoon, TimeSlots[k].hour) <==> 2 <= k < 4
    ensures InShift(Night, TimeSlots[k].hour) <==> 4 <= k
  {
  }
}
