/** `fitness_func`: decode a gene vector, compute the thirteen penalties of
    the schedule it stands for, and return minus their weighted sum (the
    genetic search maximises fitness). */
module Fitness {
  import opened ScheduleData
  import opened Collections
  import opened Blocks
  import opened Decoder
  import opened GeneSpace
  import SlotPenalties
  import TeacherPenalties
  import RoomPenalties
  import HourPenalties
  import DistributionPenalty
  import OddHoursPenalty
  import LoadPenalties

  /** The penalties of one schedule, named as in `fitness_func`'s dict. */
  datatype Penalties = Penalties(
    overlap: int, teacherMovement: int, labUsage: int, teacherPreference: int,
    courseShift: int, hours: int, duplicate: int, distribution: int,
    splitTeacher: int, oddHours: int, courseOverlap: int, dailyHours: int,
    weeklyHours: int)

  /** The weighted sum, in hundredths so that the weights 1.5, 0.15 and 0.5
      are whole numbers: 100 times the source's `total_penalty`. All thirteen
      weights are positive, so with non-negative penalties the total is
      non-negative and is 0 exactly when every penalty is 0. */
  function WeightedTotal(p: Penalties): (r: int)
    ensures NonNegative(p) ==> r >= 0
    ensures NonNegative(p) ==> (r == 0 <==> AllZero(p))
  {
    2000 * p.overlap + 2500 * p.courseOverlap + 1500 * p.hours + 1000 * p.labUsage
    + 1000 * p.courseShift + 500 * p.duplicate + 200 * p.teacherMovement
    + 200 * p.teacherPreference + 200 * p.splitTeacher + 150 * p.distribution
    + 15 * p.oddHours + 100 * p.dailyHours + 50 * p.weeklyHours
  }

  predicate NonNegative(p: Penalties) {
    && p.overlap >= 0 && p.teacherMovement >= 0 && p.labUsage >= 0 && p.teacherPreference >= 0
    && p.courseShift >= 0 && p.hours >= 0 && p.duplicate >= 0 && p.distribution >= 0
    && p.splitTeacher >= 0 && p.oddHours >= 0 && p.courseOverlap >= 0 && p.dailyHours >= 0
    && p.weeklyHours >= 0
  }

  predicate AllZero(p: Penalties) {
    && p.overlap == 0 && p.teacherMovement == 0 && p.labUsage == 0 && p.teacherPreference == 0
    && p.courseShift == 0 && p.hours == 0 && p.duplicate == 0 && p.distribution == 0
    && p.splitTeacher == 0 && p.oddHours == 0 && p.courseOverlap == 0 && p.dailyHours == 0
    && p.weeklyHours == 0
  }

  /** Every record's subject, room, teacher and course has a row in the
      tables: otherwise a lookup in `fitness_func` raises. */
  predicate Covers(a: seq<Assignment>, subjects: map<int, Subject>, teachers: map<int, Teacher>,
                   rooms: map<int, Room>, courses: map<int, Course>)
  {
    && RoomPenalties.SubjectsAndRoomsKnown(a, subjects, rooms)
    && TeacherPenalties.TeachersKnown(a, teachers)
    && RoomPenalties.CoursesKnown(a, courses)
  }

  /** The tables `fitness_func` builds from the database cover the records. */
  predicate Known(a: seq<Assignment>, snap: Snapshot) {
    Covers(a, SubjectsById(snap.subjects), TeachersById(snap.teachers), RoomsById(snap.rooms), CoursesById(snap.courses))
  }

  /** The thirteen penalties of the records `a`, by their specifications. */
  ghost function PenaltiesFrom(a: seq<Assignment>, subjects: map<int, Subject>, teachers: map<int, Teacher>,
                               rooms: map<int, Room>, courses: map<int, Course>): Penalties
    requires Covers(a, subjects, teachers, rooms, courses)
  {
    assert HourPenalties.SubjectsKnown(a, subjects);
    Penalties(
      10 * (|a| - |Distinct(SlotPenalties.RoomSlots(a))|),
      TeacherPenalties.MovementTotal(a),
      RoomPenalties.LabTotal(a, subjects, rooms),
      TeacherPenalties.PreferenceTotal(a, teachers),
      RoomPenalties.ShiftTotal(a, courses),
      HourPenalties.HoursTotal(a, subjects),
      2 * (|a| - |Distinct(SlotPenalties.SubjectSlots(a))|),
      DistributionPenalty.DistributionTotal(a),
      TeacherPenalties.SplitTotal(a),
      OddHoursPenalty.OddTotal(a, subjects),
      10 * SlotPenalties.ClashingPairs(a),
      LoadPenalties.DailyTotal(a),
      LoadPenalties.WeeklyTotal(a))
  }

  ghost function PenaltiesOf(a: seq<Assignment>, snap: Snapshot): Penalties
    requires Known(a, snap)
  {
    PenaltiesFrom(a, SubjectsById(snap.subjects), TeachersById(snap.teachers), RoomsById(snap.rooms), CoursesById(snap.courses))
  }

  /** The thirteen `calculate_*_penalty` calls of `fitness_func`, all of them
      never negative. */
  method ComputePenalties(a: seq<Assignment>, subjects: map<int, Subject>, teachers: map<int, Teacher>,
                          rooms: map<int, Room>, courses: map<int, Course>) returns (p: Penalties)
    requires Covers(a, subjects, teachers, rooms, courses)
    ensures p == PenaltiesFrom(a, subjects, teachers, rooms, courses) && NonNegative(p)
  {
    assert HourPenalties.SubjectsKnown(a, subjects);
    var overlap := SlotPenalties.OverlapPenalty(a);
    var teacherMovement := TeacherPenalties.TeacherMovementPenalty(a);
    var labUsage := RoomPenalties.LabUsagePenalty(a, subjects, rooms);
    var teacherPreference := TeacherPenalties.TeacherPreferencePenalty(a, teachers);
    var courseShift := RoomPenalties.CourseShiftPenalty(a, courses);
    var hours := HourPenalties.HoursPenalty(a, subjects);
    var duplicate := SlotPenalties.DuplicatePenalty(a);
    var distribution := DistributionPenalty.DistributionPenalty(a);
    var splitTeacher := TeacherPenalties.SplitTeacherPenalty(a);
    var oddHours := OddHoursPenalty.OddHoursPenalty(a, subjects);
    var courseOverlap := SlotPenalties.CourseOverlapPenalty(a);
    var dailyHours := LoadPenalties.DailyHoursPenalty(a);
    var weeklyHours := LoadPenalties.WeeklyHoursPenalty(a);
    p := Penalties(overlap, teacherMovement, labUsage, teacherPreference, courseShift, hours,
                   duplicate, distribution, splitTeacher, oddHours, courseOverlap, dailyHours,
                   weeklyHours);
  }

  /** `fitness_func`, 100 times over: the IndexError of decoding, the
      KeyError of a record with an unknown id, or minus the weighted
      penalties, which is never positive and is 0 exactly when every penalty
      is 0. */
  method FitnessFunc(snap: Snapshot, numAssignments: nat, solution: seq<int>) returns (r: Result<int>)
    ensures r.IndexError? <==> !Decodable(solution, numAssignments)
    ensures r.KeyError? <==> Decodable(solution, numAssignments) && !Known(Decoded(solution, numAssignments), snap)
    ensures r.Ok? ==> Decodable(solution, numAssignments) && Known(Decoded(solution, numAssignments), snap)
    ensures r.Ok? ==> r.value == -WeightedTotal(PenaltiesOf(Decoded(solution, numAssignments), snap))
    ensures r.Ok? ==> r.value <= 0 && (r.value == 0 <==> AllZero(PenaltiesOf(Decoded(solution, numAssignments), snap)))
  {
    var decoded := DecodeSolution(solution, numAssignments);
    if !decoded.Ok? {
      return IndexError;
    }
    var assignments := decoded.value;
    if !Known(assignments, snap) {
      return KeyError;
    }
    var subjectsDict := SubjectsById(snap.subjects);
    var teachersDict := TeachersById(snap.teachers);
    var roomsDict := RoomsById(snap.rooms);
    var courses := CoursesById(snap.courses);
    var penalties := ComputePenalties(assignments, subjectsDict, teachersDict, roomsDict, courses);
    r := Ok(-WeightedTotal(penalties));
  }

  /** Every gene vector drawn from the gene space of the generator's block
      list decodes, and every record has a known subject, room, teacher and
      course, so `fitness_func` returns a number for it. */
  lemma AdmittedSolutionsScore(snap: Snapshot, solution: seq<int>)
    requires snap.teachers != []
    requires Admits(GeneSpaceOf(snap, AssignmentList(snap.courses, snap.subjects)), solution)
    ensures Decodable(solution, |AssignmentList(snap.courses, snap.subjects)|)
    ensures Known(Decoded(solution, |AssignmentList(snap.courses, snap.subjects)|), snap)
  {
    var blocks := AssignmentList(snap.courses, snap.subjects);
    AdmittedSolutionsDecode(snap, blocks, solution);
    AssignmentListWellFormed(snap.courses, snap.subjects);
    var a := Decoded(solution, |blocks|);
    forall i | 0 <= i < |a|
      ensures a[i].subjectId in SubjectsById(snap.subjects) && a[i].roomId in RoomsById(snap.rooms)
      ensures a[i].teacherId in TeachersById(snap.teachers) && a[i].courseId in CoursesById(snap.courses)
    {
      assert blocks[i] in blocks;
      assert Fits(a[i], snap, blocks[i]);
      var t :| t in snap.teachers && t.id == a[i].teacherId;
      var room :| room in snap.rooms && room.id == a[i].roomId;
    }
  }
}
