/** Block decomposition (`_build_assignment_list`): every subject's weekly
    hours are cut into 3-hour blocks, then 2-hour blocks; a remaining single
    hour gets no block. */
module Blocks {
  import opened ScheduleData
  import opened Collections

  /** One teaching block still to be placed: `(course, subject, slot_hours)`. */
  datatype Block = Block(course: Course, subject: Subject, slotHours: int)

  /** The 2-hour blocks the second loop emits while at least 2 hours remain. */
  function TwoHourBlocks(hours: int): seq<int>
    decreases hours
  {
    if hours >= 2 then [2] + TwoHourBlocks(hours - 2) else []
  }

  /** The block lengths `hours` is cut into: 3-hour blocks while at least 3
      hours remain, then 2-hour blocks while at least 2 remain. */
  function BlockPlan(hours: int): seq<int>
    decreases hours
  {
    if hours >= 3 then [3] + BlockPlan(hours - 3) else TwoHourBlocks(hours)
  }

  /** The two `while` loops of `_build_assignment_list` on one subject. */
  method SplitHours(hoursPerWeek: int) returns (blocks: seq<int>)
    ensures blocks == BlockPlan(hoursPerWeek)
  {
    var hours := hoursPerWeek;
    blocks := [];
    while hours >= 3
      invariant blocks + BlockPlan(hours) == BlockPlan(hoursPerWeek)
      decreases hours
    {
      assert BlockPlan(hours) == [3] + BlockPlan(hours - 3);
      assert blocks + BlockPlan(hours) == (blocks + [3]) + BlockPlan(hours - 3);
      blocks := blocks + [3];
      hours := hours - 3;
    }
    while hours >= 2
      invariant blocks + TwoHourBlocks(hours) == BlockPlan(hoursPerWeek)
      decreases hours
    {
      assert TwoHourBlocks(hours) == [2] + TwoHourBlocks(hours - 2);
      assert blocks + TwoHourBlocks(hours) == (blocks + [2]) + TwoHourBlocks(hours - 2);
      blocks := blocks + [2];
      hours := hours - 2;
    }
    assert TwoHourBlocks(hours) == [];
  }

  /** Shape of a plan: only 3s and 2s, every 3 before every 2. Negative
      hours give no blocks. */
  lemma {:induction false} BlockPlanShape(hours: int)
    ensures hours < 0 ==> BlockPlan(hours) == []
    ensures forall i :: 0 <= i < |BlockPlan(hours)| ==> BlockPlan(hours)[i] == 2 || BlockPlan(hours)[i] == 3
    ensures forall i, j :: 0 <= i < j < |BlockPlan(hours)| ==> BlockPlan(hours)[i] >= BlockPlan(hours)[j]
    decreases if hours < 0 then 0 else hours
  {
    var p := BlockPlan(hours);
    if hours >= 3 {
      var rest := BlockPlan(hours - 3);
      BlockPlanShape(hours - 3);
      assert p == [3] + rest;
      forall i, j | 0 <= i < j < |p| ensures p[i] >= p[j] {
        assert p[j] == rest[j - 1];
      }
    } else if hours >= 2 {
      assert TwoHourBlocks(hours - 2) == [];
    }
  }

  lemma DivideByThreeStep(hours: int)
    requires hours >= 3
    ensures (hours - 3) / 3 + 1 == hours / 3 && (hours - 3) % 3 == hours % 3
  {
  }

  /** Below 3 hours the plan is one 2-hour block or nothing. */
  lemma BlockPlanSmall(hours: int)
    requires hours < 3
    ensures BlockPlan(hours) == if hours == 2 then [2] else []
  {
    if hours == 2 {
      assert TwoHourBlocks(0) == [];
    }
  }

  lemma CountsAfterThree(rest: seq<int>)
    ensures Count([3] + rest, 3) == Count(rest, 3) + 1
    ensures Count([3] + rest, 2) == Count(rest, 2)
  {
    CountConcat([3], rest, 3);
    CountConcat([3], rest, 2);
    assert [3] == [] + [3];
    CountSnoc([], 3, 3);
    CountSnoc([], 3, 2);
  }

  lemma CountsOfTwo()
    ensures Count([2], 3) == 0 && Count([2], 2) == 1
  {
    assert [2] == [] + [2];
    CountSnoc([], 2, 3);
    CountSnoc([], 2, 2);
  }

  /** How many blocks of each length a plan holds: `hours / 3` threes, and
      one 2 exactly when two hours are left over. */
  lemma {:induction false} BlockPlanCounts(hours: int)
    ensures Count(BlockPlan(hours), 3) == (if hours >= 0 then hours / 3 else 0)
    ensures Count(BlockPlan(hours), 2) == (if hours >= 0 && hours % 3 == 2 then 1 else 0)
    decreases if hours < 0 then 0 else hours
  {
    if hours >= 3 {
      BlockPlanCounts(hours - 3);
      assert BlockPlan(hours) == [3] + BlockPlan(hours - 3);
      CountsAfterThree(BlockPlan(hours - 3));
      DivideByThreeStep(hours);
    } else {
      BlockPlanSmall(hours);
      CountsOfTwo();
    }
  }

  /** The hours a plan covers: all of `hours`, except that a leftover single
      hour is lost. */
  lemma {:induction false} BlockPlanSum(hours: int)
    ensures Sum(BlockPlan(hours)) == (if hours < 0 then 0 else hours - (if hours % 3 == 1 then 1 else 0))
    decreases if hours < 0 then 0 else hours
  {
    if hours >= 3 {
      BlockPlanSum(hours - 3);
      assert BlockPlan(hours) == [3] + BlockPlan(hours - 3);
      assert Sum([3] + BlockPlan(hours - 3)) == 3 + Sum(BlockPlan(hours - 3)) by {
        SumConcat([3], BlockPlan(hours - 3));
        assert [3] == [] + [3];
        SumSnoc([], 3);
      }
      DivideByThreeStep(hours);
    } else {
      BlockPlanSmall(hours);
      assert [2] == [] + [2];
      SumSnoc([], 2);
    }
  }

  /** The examples that set the code apart from a balanced split:
      4 hours give one 3-hour block, 7 hours two 3-hour blocks. */
  lemma BlockPlanExamples()
    ensures BlockPlan(1) == [] && BlockPlan(2) == [2] && BlockPlan(4) == [3]
    ensures BlockPlan(5) == [3, 2] && BlockPlan(6) == [3, 3] && BlockPlan(7) == [3, 3]
  {
    assert BlockPlan(1) == [];
    assert BlockPlan(4) == [3] + BlockPlan(1);
    assert BlockPlan(5) == [3] + BlockPlan(2);
    assert BlockPlan(6) == [3] + BlockPlan(3);
    assert BlockPlan(7) == [3] + BlockPlan(4);
  }

  /** The subjects of one course, in table order
      (`Subject.objects.filter(course=course)`). */
  function SubjectsOfCourse(subjects: seq<Subject>, courseId: int): (r: seq<Subject>)
    ensures forall s :: s in r <==> s in subjects && s.courseId == courseId
  {
    if subjects == [] then []
    else
      var s := subjects[|subjects| - 1];
      Snoc(subjects);
      SubjectsOfCourse(subjects[..|subjects| - 1], courseId) + (if s.courseId == courseId then [s] else [])
  }

  /** The blocks appended for one subject, in plan order. */
  function SubjectBlocks(c: Course, s: Subject): seq<Block> {
    var plan := BlockPlan(s.hoursPerWeek);
    seq(|plan|, k requires 0 <= k < |plan| => Block(c, s, plan[k]))
  }

  /** The blocks of the given subjects of course `c`, subject by subject. */
  function CourseBlocks(c: Course, subjects: seq<Subject>): seq<Block> {
    if subjects == [] then []
    else CourseBlocks(c, subjects[..|subjects| - 1]) + SubjectBlocks(c, subjects[|subjects| - 1])
  }

  /** The whole block list: course by course, and within a course subject by
      subject. */
  function AssignmentList(courses: seq<Course>, subjects: seq<Subject>): seq<Block> {
    if courses == [] then []
    else
      var c := courses[|courses| - 1];
      AssignmentList(courses[..|courses| - 1], subjects) + CourseBlocks(c, SubjectsOfCourse(subjects, c.id))
  }

  lemma CourseBlocksPrefix(c: Course, subjects: seq<Subject>, j: nat)
    requires j < |subjects|
    ensures CourseBlocks(c, subjects[..j + 1]) == CourseBlocks(c, subjects[..j]) + SubjectBlocks(c, subjects[j])
  {
    PrefixStep(subjects, j);
  }

  lemma AssignmentListPrefix(courses: seq<Course>, subjects: seq<Subject>, i: nat)
    requires i < |courses|
    ensures AssignmentList(courses[..i + 1], subjects)
         == AssignmentList(courses[..i], subjects) + CourseBlocks(courses[i], SubjectsOfCourse(subjects, courses[i].id))
  {
    PrefixStep(courses, i);
  }

  lemma SubjectBlocksPrefix(c: Course, s: Subject, k: nat)
    requires k < |BlockPlan(s.hoursPerWeek)|
    ensures SubjectBlocks(c, s)[..k + 1] == SubjectBlocks(c, s)[..k] + [Block(c, s, BlockPlan(s.hoursPerWeek)[k])]
  {
  }

  /** The innermost loop of `_build_assignment_list`: one
      `(course, subject, slot_hours)` entry per block of the plan. */
  method AppendSubjectBlocks(assignments: seq<Block>, course: Course, subject: Subject)
    returns (result: seq<Block>)
    ensures result == assignments + SubjectBlocks(course, subject)
  {
    var blocks := SplitHours(subject.hoursPerWeek);
    result := assignments;
    for k := 0 to |blocks|
      invariant result == assignments + SubjectBlocks(course, subject)[..k]
    {
      SubjectBlocksPrefix(course, subject, k);
      result := result + [Block(course, subject, blocks[k])];
    }
    assert SubjectBlocks(course, subject)[..|blocks|] == SubjectBlocks(course, subject);
  }

  /** The loop over the subjects of one course. */
  method AppendCourseBlocks(assignments: seq<Block>, course: Course, courseSubjects: seq<Subject>)
    returns (result: seq<Block>)
    ensures result == assignments + CourseBlocks(course, courseSubjects)
  {
    result := assignments;
    for j := 0 to |courseSubjects|
      invariant result == assignments + CourseBlocks(course, courseSubjects[..j])
    {
      result := AppendSubjectBlocks(result, course, courseSubjects[j]);
      CourseBlocksPrefix(course, courseSubjects, j);
    }
    WholePrefix(courseSubjects);
  }

  /** `_build_assignment_list`. */
  method BuildAssignmentList(snap: Snapshot) returns (assignments: seq<Block>)
    ensures assignments == AssignmentList(snap.courses, snap.subjects)
  {
    assignments := [];
    for i := 0 to |snap.courses|
      invariant assignments == AssignmentList(snap.courses[..i], snap.subjects)
    {
      var course := snap.courses[i];
      var courseSubjects := SubjectsOfCourse(snap.subjects, course.id);
      assignments := AppendCourseBlocks(assignments, course, courseSubjects);
      AssignmentListPrefix(snap.courses, snap.subjects, i);
    }
    WholePrefix(snap.courses);
  }

  /** Every block belongs to a listed course and to one of that course's
      listed subjects, and lasts 2 or 3 hours. */
  lemma {:induction false} AssignmentListWellFormed(courses: seq<Course>, subjects: seq<Subject>)
    ensures forall b :: b in AssignmentList(courses, subjects) ==>
      && b.course in courses
      && b.subject in subjects
      && b.subject.courseId == b.course.id
      && b.slotHours in {2, 3}
  {
    if courses != [] {
      var init, c := courses[..|courses| - 1], courses[|courses| - 1];
      Snoc(courses);
      AssignmentListWellFormed(init, subjects);
      CourseBlocksWellFormed(c, SubjectsOfCourse(subjects, c.id));
    }
  }

  lemma {:induction false} CourseBlocksWellFormed(c: Course, subjects: seq<Subject>)
    ensures forall b :: b in CourseBlocks(c, subjects) ==>
      b.course == c && b.subject in subjects && b.slotHours in {2, 3}
  {
    if subjects != [] {
      var init, s := subjects[..|subjects| - 1], subjects[|subjects| - 1];
      Snoc(subjects);
      CourseBlocksWellFormed(c, init);
      BlockPlanShape(s.hoursPerWeek);
      var sb := SubjectBlocks(c, s);
      forall b | b in sb ensures b.course == c && b.subject == s && b.slotHours in {2, 3} {
        var k :| 0 <= k < |sb| && sb[k] == b;
        assert b.slotHours == BlockPlan(s.hoursPerWeek)[k];
      }
    }
  }
}
