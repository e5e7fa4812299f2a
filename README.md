# UTEC timetable scoring engine, modelled in Dafny

This project models the scoring core of the UTEC class scheduler,
`ScheduleGenerator` in `utec_scheduler/utec_scheduler/genetic_algorithm.py`.
It covers:

- **Block decomposition** (`_build_assignment_list`). Every subject's weekly
  hours become teaching blocks: 3-hour blocks while at least 3 hours remain,
  then 2-hour blocks while at least 2 remain.
- **Candidate space** (`_build_gene_space`). Every block gets seven gene
  domains: course, subject, teacher, room, day, time slot and slot hours.
- **Decoding** (`_decode_solution`). A flat gene vector becomes assignment
  records, and each record's end time is clamped to 23:00.
- **The thirteen penalty rules** (`calculate_*_penalty`) and **fitness**
  (`fitness_func`). Fitness is minus the weighted sum of the penalties.

Each loop of the source is a Dafny `method` with loop invariants. Each
method is proved equal to a specification function over the assignment
list. Lemmas then prove properties of those functions:

- when each penalty is zero;
- closed forms for the block plan and the odd-hours cost;
- the quirks of the code, shown on concrete schedules.

Python dicts that a loop iterates are `Collections.Dict`: a map together
with its keys in insertion order, so that `.items()` and `.values()` loops
visit keys in the order the source does. Dicts that are only looked up
(`schedule`, `subject_slots`, `course_slots`, `teacher_assignments`,
`subject_teachers`) are plain maps. Database tables are one in-memory `Snapshot`,
and the id-indexed dicts are maps built from it. Exceptions become the
`Result` cases `IndexError` and `KeyError`.

Behaviours of the code worth knowing, each visible in the lemmas:

- 4 hours give one 3-hour block (`[3]`); the leftover hour gets no block,
  so two 2-hour blocks are never produced.
- 7 hours give `[3, 3]`; again the leftover hour gets no block.
- A subject with no registered teacher falls back to the first teacher of
  the table, so every block has a teacher domain.
- With no teachers at all and at least one block, that fallback raises
  IndexError (`GeneSpace.BuildGeneSpace`).
- A subject left without blocks (1 hour per week) never enters the hours
  tally, so it contributes no hours penalty.
- The hours, distribution and odd-hours rules count every block as 2 hours,
  3-hour blocks included. So no (subject, day) tally is ever exactly 3.
- The split-teacher rule adds 3 for every block of a subject once that
  subject has seen two teachers, not once per extra teacher.
- The movement rule compares a block only with the previous start recorded
  for its teacher on its day.

## Model

| member | source | states |
|---|---|---|
| Blocks.SplitHours | utec_scheduler/utec_scheduler/genetic_algorithm.py:26-34 | the two `while` loops return the plan `BlockPlan(hours)`: 3-hour blocks while at least 3 hours remain, then 2-hour blocks while at least 2 remain |
| Blocks.BlockPlanShape | utec_scheduler/utec_scheduler/genetic_algorithm.py:29-34 | every block is 3 or 2 hours, every 3 comes before every 2, and negative hours give no blocks |
| Blocks.BlockPlanCounts | utec_scheduler/utec_scheduler/genetic_algorithm.py:29-34 | a plan holds `hours // 3` three-hour blocks, and one 2-hour block exactly when `hours % 3 == 2`; so never two 2-hour blocks |
| Blocks.BlockPlanSum | utec_scheduler/utec_scheduler/genetic_algorithm.py:29-35 | the blocks cover all the hours, except that a leftover single hour (hours % 3 == 1) is dropped |
| Blocks.BlockPlanExamples | utec_scheduler/utec_scheduler/genetic_algorithm.py:29-34 | 1 → [], 2 → [2], 4 → [3], 5 → [3, 2], 6 and 7 → [3, 3] |
| Blocks.SubjectsOfCourse | utec_scheduler/utec_scheduler/genetic_algorithm.py:24 | the subjects kept are exactly those of the table that belong to the course |
| Blocks.AppendSubjectBlocks | utec_scheduler/utec_scheduler/genetic_algorithm.py:26-37 | appends one `(course, subject, slot_hours)` entry per block of the subject's plan, in plan order |
| Blocks.AppendCourseBlocks | utec_scheduler/utec_scheduler/genetic_algorithm.py:25-37 | appends the blocks of the course's subjects, subject by subject |
| Blocks.BuildAssignmentList | utec_scheduler/utec_scheduler/genetic_algorithm.py:21-38 | the list is `AssignmentList`: course by course, then subject by subject, then the blocks of each plan |
| Blocks.AssignmentListWellFormed | utec_scheduler/utec_scheduler/genetic_algorithm.py:21-38 | every block's course is in the table, its subject is in the table and belongs to that course, and it lasts 2 or 3 hours |
| Blocks.CourseBlocksWellFormed | utec_scheduler/utec_scheduler/genetic_algorithm.py:25-37 | the blocks of one course are that course's, of the given subjects, and last 2 or 3 hours |
| GeneSpace.CapableTeacherIds | utec_scheduler/utec_scheduler/genetic_algorithm.py:48 | holds exactly the ids of the teachers registered for the subject |
| GeneSpace.TeacherDomain | utec_scheduler/utec_scheduler/genetic_algorithm.py:48-49 | when the subject has registered teachers, the domain holds exactly their ids; when it has none, the domain is `[teachers[0].id]`; so it is never empty and holds only ids of teachers in the table |
| GeneSpace.CapableTeachersListed | utec_scheduler/utec_scheduler/genetic_algorithm.py:48 | every teacher registered for the subject has its id in the filtered list |
| GeneSpace.RoomIds | utec_scheduler/utec_scheduler/genetic_algorithm.py:52 | holds exactly the ids of the rooms |
| GeneSpace.Indices | utec_scheduler/utec_scheduler/genetic_algorithm.py:55-57 | `list(range(n))`: n entries, entry k is k |
| GeneSpace.BlockDomains | utec_scheduler/utec_scheduler/genetic_algorithm.py:43-59 | a block has exactly seven domains |
| GeneSpace.GeneSpaceOf | utec_scheduler/utec_scheduler/genetic_algorithm.py:40-60 | the gene space has seven domains per block |
| GeneSpace.GeneSpaceOfAt | utec_scheduler/utec_scheduler/genetic_algorithm.py:40-60 | domain k of block i sits at position `7 * i + k` |
| GeneSpace.BuildGeneSpace | utec_scheduler/utec_scheduler/genetic_algorithm.py:40-60 | IndexError exactly when there is a block and no teacher at all (`self.teachers[0]`); otherwise `7 * len(blocks)` domains, equal to `GeneSpaceOf` |
| GeneSpace.AdmittedSolutionsDecode | utec_scheduler/utec_scheduler/genetic_algorithm.py:40-98 | every gene vector whose genes lie in their domains decodes without IndexError; record i has block i's course, subject and hours, a capable or fallback teacher, and a room from the table |
| Decoder.PyIndex | utec_scheduler/utec_scheduler/genetic_algorithm.py:73-74 | Python list indexing: succeeds exactly for `-len <= i < len`; a non-negative index gives `s[i]`, a negative one `s[len + i]` |
| Decoder.UnclampedEnd | utec_scheduler/utec_scheduler/genetic_algorithm.py:75-81 | the end is the start plus the duration, in minutes, with the minute kept below 60 |
| Decoder.EndTime | utec_scheduler/utec_scheduler/genetic_algorithm.py:77-85 | the end never passes 23:00; for a well-formed start it is start plus duration, or 23:00 when that is later |
| Decoder.EndTimeClampExample | utec_scheduler/utec_scheduler/genetic_algorithm.py:83-85 | 21:00 plus 3 hours is clamped to 23:00; 19:00 plus 3 hours ends at 22:00 |
| Decoder.Genes | utec_scheduler/utec_scheduler/genetic_algorithm.py:65-72 | block i reads seven genes, from position `7 * i` on |
| Decoder.DecodeRecord | utec_scheduler/utec_scheduler/genetic_algorithm.py:66-97 | IndexError exactly when the day or slot index is out of range; otherwise the ids and slot hours are the genes, duration is 60 × slot hours, day and start are `DAYS[genes[4]]` and `TIME_SLOTS[genes[5]]` with Python indexing, and the end is start plus duration clamped to 23:00, with its minute below 60 |
| Decoder.DecodeSolution | utec_scheduler/utec_scheduler/genetic_algorithm.py:62-98 | `n` records in gene order, each the decoding of its seven genes; IndexError exactly when a gene is missing or an index is out of range |
| SlotPenalties.OverlapPenalty | utec_scheduler/utec_scheduler/genetic_algorithm.py:138-147 | equals 10 × (records − distinct (room, day, start) keys); 0 exactly when the keys are pairwise distinct |
| SlotPenalties.DuplicatePenalty | utec_scheduler/utec_scheduler/genetic_algorithm.py:227-239 | equals 2 × (records − distinct (subject, day, start) keys); 0 exactly when the keys are pairwise distinct |
| SlotPenalties.ClashSymmetric | utec_scheduler/utec_scheduler/genetic_algorithm.py:340 | the overlap test on same-day half-open hour ranges is symmetric |
| SlotPenalties.SpanClashesOfCourse | utec_scheduler/utec_scheduler/genetic_algorithm.py:334-342 | the clashes found in `course_slots[course]` are the earlier blocks of that course that clash |
| SlotPenalties.AddClashes | utec_scheduler/utec_scheduler/genetic_algorithm.py:338-341 | the inner loop adds 10 per recorded span that clashes with the new one |
| SlotPenalties.CourseOverlapPenalty | utec_scheduler/utec_scheduler/genetic_algorithm.py:318-343 | equals 10 × the number of (earlier, later) pairs of one course on one day whose hour ranges intersect |
| SlotPenalties.ClashingPairsZero | utec_scheduler/utec_scheduler/genetic_algorithm.py:318-343 | the course-overlap count is 0 exactly when no two blocks of one course clash |
| SlotPenalties.ClashesWithZero | utec_scheduler/utec_scheduler/genetic_algorithm.py:338-341 | a block adds nothing exactly when it clashes with no earlier block |
| TeacherPenalties.StartsOnLatest | utec_scheduler/utec_scheduler/genetic_algorithm.py:162-163 | the last start recorded for a teacher and day is that of the latest earlier block of that teacher on that day |
| TeacherPenalties.RecordStep | utec_scheduler/utec_scheduler/genetic_algorithm.py:157-167 | the nested dict holds, for each teacher and day, the starts seen so far, in order |
| TeacherPenalties.TeacherMovementPenalty | utec_scheduler/utec_scheduler/genetic_algorithm.py:149-168 | equals `MovementTotal`: 10 per hour of distance from the latest earlier start of the same teacher on the same day, when over 2 hours |
| TeacherPenalties.MovementZero | utec_scheduler/utec_scheduler/genetic_algorithm.py:149-168 | 0 exactly when every block starts within 2 hours of its teacher's previous start that day |
| TeacherPenalties.MovementComparesWithLatestOnly | utec_scheduler/utec_scheduler/genetic_algorithm.py:162-166 | starts at 8, 10 and 14 cost 40: only the 10-to-14 gap counts |
| TeacherPenalties.TeacherPreferencePenalty | utec_scheduler/utec_scheduler/genetic_algorithm.py:182-193 | 5 per block of a teacher from Montevideo from 21:00 on, 3 from 19:00; at most 5 per block; 0 exactly when no such teacher teaches from 19:00 on |
| TeacherPenalties.TeachersOfMembers | utec_scheduler/utec_scheduler/genetic_algorithm.py:277-279 | a subject's teacher set holds exactly the teachers of its blocks so far |
| TeacherPenalties.MixedIffTwoTeachers | utec_scheduler/utec_scheduler/genetic_algorithm.py:281 | the set has more than one teacher exactly when two blocks of the subject have different teachers |
| TeacherPenalties.SplitTeacherPenalty | utec_scheduler/utec_scheduler/genetic_algorithm.py:270-283 | equals `SplitTotal`: 3 for every block at which its subject has already seen two different teachers |
| TeacherPenalties.SplitTotalZero | utec_scheduler/utec_scheduler/genetic_algorithm.py:270-283 | 0 exactly when every subject keeps a single teacher |
| TeacherPenalties.SplitCountsEveryLaterAssignment | utec_scheduler/utec_scheduler/genetic_algorithm.py:280-282 | one subject taught by teachers 1, 2, 2 costs 6: the rule counts blocks, not extra teachers |
| ScheduleData.IsLab | utec_scheduler/utec_scheduler/genetic_algorithm.py:176 | of the five room types, exactly those in the list `['COMP', 'LOG']` count as laboratories |
| RoomPenalties.LabUsagePenalty | utec_scheduler/utec_scheduler/genetic_algorithm.py:170-180 | 10 per lab subject outside a COMP/LOG room, 5 per other subject inside one; at most 10 per block; 0 exactly when lab subjects and lab rooms match |
| RoomPenalties.CourseShiftPenalty | utec_scheduler/utec_scheduler/genetic_algorithm.py:195-208 | 5 per block starting outside its course's shift; at most 5 per block; 0 exactly when every block starts inside its shift |
| RoomPenalties.ShiftHours | utec_scheduler/utec_scheduler/genetic_algorithm.py:197-201 | each shift's window of start hours is four hours long and lies between 8:00 and 23:00: morning [8, 12), afternoon [14, 18), night [19, 23) |
| RoomPenalties.SlotShifts | utec_scheduler/utec_scheduler/genetic_algorithm.py:197-206 | the time slots 8:00 and 10:00 are in the morning shift only, 14:00 and 16:00 in the afternoon only, 19:00 and 21:00 at night only |
| HourPenalties.TwoHourTableContents | utec_scheduler/utec_scheduler/genetic_algorithm.py:215-219 | the tally has one key per subject, in first-occurrence order, holding 2 per block |
| HourPenalties.TallySubjectHours | utec_scheduler/utec_scheduler/genetic_algorithm.py:213-219 | the first loop builds that tally |
| HourPenalties.SumHourGaps | utec_scheduler/utec_scheduler/genetic_algorithm.py:221-224 | the second loop sums `2 × abs(hours − required)` over the tally's subjects |
| HourPenalties.HoursPenalty | utec_scheduler/utec_scheduler/genetic_algorithm.py:210-225 | equals the sum, over the distinct subjects with a block, of `2 × abs(2 × count − hours_per_week)` |
| HourPenalties.HoursTotalZero | utec_scheduler/utec_scheduler/genetic_algorithm.py:210-225 | 0 exactly when every subject with a block has twice as many weekly hours as blocks |
| HourPenalties.OddRequirementNeverMet | utec_scheduler/utec_scheduler/genetic_algorithm.py:219-224 | a subject with an odd weekly requirement and a block always costs at least 2 |
| HourPenalties.TwoBlocksTotal | utec_scheduler/utec_scheduler/genetic_algorithm.py:215-224 | two blocks of one subject count as 4 hours |
| HourPenalties.ThreeHourBlocksUndercounted | utec_scheduler/utec_scheduler/genetic_algorithm.py:219 | a 6-hour subject placed as its two 3-hour blocks costs 4 |
| DistributionPenalty.DaysOfMembers | utec_scheduler/utec_scheduler/genetic_algorithm.py:257-259 | a subject's day set holds exactly the days of its blocks |
| DistributionPenalty.DaysTableKeys | utec_scheduler/utec_scheduler/genetic_algorithm.py:257-259 | `subject_days` has one key per subject, in first-occurrence order |
| DistributionPenalty.DaysTableDays | utec_scheduler/utec_scheduler/genetic_algorithm.py:257-259 | each entry of `subject_days` is the subject's day set |
| DistributionPenalty.RepeatCounted | utec_scheduler/utec_scheduler/genetic_algorithm.py:251-256 | a (subject, day) tally passes 3 exactly when the key was seen before |
| DistributionPenalty.AddSubjectHours | utec_scheduler/utec_scheduler/genetic_algorithm.py:250-256 | one block's update adds 2 to its (subject, day) tally, creating it at 0, and reports whether the tally now passes 3 |
| DistributionPenalty.AddSubjectDay | utec_scheduler/utec_scheduler/genetic_algorithm.py:257-259 | one block's update adds its day to its subject's day set, creating the set if missing |
| DistributionPenalty.TallySubjectDays | utec_scheduler/utec_scheduler/genetic_algorithm.py:246-259 | the first loop adds 1 per block whose (subject, day) already had one, and builds both dicts |
| DistributionPenalty.DaysTableOrder | utec_scheduler/utec_scheduler/genetic_algorithm.py:246-262 | `subject_days.values()` visits one set per subject, in first-occurrence order, each holding exactly that subject's days |
| DistributionPenalty.UptoSorted | utec_scheduler/utec_scheduler/genetic_algorithm.py:263 | the sorted day indices are those of the days in the set, strictly increasing |
| DistributionPenalty.StepsUpto | utec_scheduler/utec_scheduler/genetic_algorithm.py:263-267 | neighbours one apart in the sorted indices are the pairs of consecutive weekdays in the set |
| DistributionPenalty.CountConsecutive | utec_scheduler/utec_scheduler/genetic_algorithm.py:265-267 | the inner loop adds 5 per neighbouring pair one apart |
| DistributionPenalty.AddConsecutive | utec_scheduler/utec_scheduler/genetic_algorithm.py:262-267 | the second loop adds 5 per pair of consecutive days of every subject |
| DistributionPenalty.DistributionPenalty | utec_scheduler/utec_scheduler/genetic_algorithm.py:241-268 | equals 1 per repeated (subject, day) plus 5 per pair of consecutive weekdays of every subject |
| DistributionPenalty.DistributionTotalZero | utec_scheduler/utec_scheduler/genetic_algorithm.py:241-268 | 0 exactly when no (subject, day) holds two blocks and no subject has blocks on consecutive weekdays |
| DistributionPenalty.NeighbourDaysCostFive | utec_scheduler/utec_scheduler/genetic_algorithm.py:261-267 | blocks on Monday and Tuesday cost 5 |
| DistributionPenalty.SpreadDaysCostNothing | utec_scheduler/utec_scheduler/genetic_algorithm.py:261-267 | blocks on Monday and Wednesday cost nothing |
| DistributionPenalty.SameDayCostsOne | utec_scheduler/utec_scheduler/genetic_algorithm.py:253-256 | two blocks on Monday cost 1: a second block passes the 3-hour limit |
| OddHoursPenalty.TallySubjectDayHours | utec_scheduler/utec_scheduler/genetic_algorithm.py:290-296 | the first loop tallies 2 hours per block on every (subject, day) |
| OddHoursPenalty.HoursListsKeys | utec_scheduler/utec_scheduler/genetic_algorithm.py:299-302 | the grouping has one key per subject, in the order the tally meets them |
| OddHoursPenalty.HoursListsValues | utec_scheduler/utec_scheduler/genetic_algorithm.py:299-302 | each subject's list holds its (subject, day) tallies, in tally order |
| OddHoursPenalty.GroupHours | utec_scheduler/utec_scheduler/genetic_algorithm.py:298-302 | the second loop builds that grouping |
| OddHoursPenalty.SubjectOrderMembers | utec_scheduler/utec_scheduler/genetic_algorithm.py:299-303 | the grouped subjects are exactly those with a block |
| OddHoursPenalty.SumOddCosts | utec_scheduler/utec_scheduler/genetic_algorithm.py:303-315 | the third loop sums each grouped subject's cost |
| OddHoursPenalty.OddHoursPenalty | utec_scheduler/utec_scheduler/genetic_algorithm.py:285-316 | equals `OddTotal`, the cost of every subject with a block, once |
| OddHoursPenalty.TalliesEven | utec_scheduler/utec_scheduler/genetic_algorithm.py:294-296 | every (subject, day) tally is even |
| OddHoursPenalty.HoursOfCounts | utec_scheduler/utec_scheduler/genetic_algorithm.py:299-309 | with even tallies, a subject's list has no 3 and one 2 per day tallied at 2 |
| OddHoursPenalty.GroupedHoursCounts | utec_scheduler/utec_scheduler/genetic_algorithm.py:288-309 | a subject's list never has a 3-hour day, and has one 2-hour day per day with exactly one block |
| OddHoursPenalty.OddSubjectCost | utec_scheduler/utec_scheduler/genetic_algorithm.py:303-315 | an odd-hour subject with a block always costs 10, plus 5 per single-block day more or fewer than `(required − 3) // 2`; an even one costs 0 |
| OddHoursPenalty.OddTotalZero | utec_scheduler/utec_scheduler/genetic_algorithm.py:285-316 | 0 exactly when every subject with a block has an even weekly requirement |
| OddHoursPenalty.IntendedPlacementCosts | utec_scheduler/utec_scheduler/genetic_algorithm.py:306-315 | a 5-hour subject placed as its 3-hour and 2-hour blocks on two days still costs 15 |
| LoadPenalties.DailyTableKeys | utec_scheduler/utec_scheduler/genetic_algorithm.py:349-355 | `daily_hours` has one key per (course, day), in first-occurrence order |
| LoadPenalties.DailyTableHours | utec_scheduler/utec_scheduler/genetic_algorithm.py:349-355 | each entry is the sum of the slot hours of that course on that day |
| LoadPenalties.TallyDailyHours | utec_scheduler/utec_scheduler/genetic_algorithm.py:349-355 | the first loop builds that table |
| LoadPenalties.SumDailyExcess | utec_scheduler/utec_scheduler/genetic_algorithm.py:356-358 | the second loop adds `5 × (h − 4)` per key with h > 4 |
| LoadPenalties.DailyHoursPenalty | utec_scheduler/utec_scheduler/genetic_algorithm.py:345-359 | equals the sum, over the distinct (course, day) pairs, of 5 per slot hour beyond 4 |
| LoadPenalties.DailyTotalZero | utec_scheduler/utec_scheduler/genetic_algorithm.py:345-359 | 0 exactly when no course has more than 4 slot hours on a day |
| LoadPenalties.DailyExample | utec_scheduler/utec_scheduler/genetic_algorithm.py:356-358 | two 3-hour blocks of one course on one day cost 10 |
| LoadPenalties.DailySpreadExample | utec_scheduler/utec_scheduler/genetic_algorithm.py:356-358 | the same blocks on two days cost nothing |
| LoadPenalties.WeeklyTableKeys | utec_scheduler/utec_scheduler/genetic_algorithm.py:365-369 | `weekly_hours` has one key per course, in first-occurrence order |
| LoadPenalties.WeeklyTableHours | utec_scheduler/utec_scheduler/genetic_algorithm.py:365-369 | each entry is the course's weekly slot hours |
| LoadPenalties.TallyWeeklyHours | utec_scheduler/utec_scheduler/genetic_algorithm.py:365-369 | the first loop builds that table |
| LoadPenalties.SumWeeklyExcess | utec_scheduler/utec_scheduler/genetic_algorithm.py:370-372 | the second loop adds `10 × (w − 20)` per course with w > 20 |
| LoadPenalties.WeeklyHoursPenalty | utec_scheduler/utec_scheduler/genetic_algorithm.py:361-373 | equals the sum, over the distinct courses, of 10 per slot hour beyond 20 |
| LoadPenalties.WeeklyTotalZero | utec_scheduler/utec_scheduler/genetic_algorithm.py:361-373 | 0 exactly when no course has more than 20 slot hours in the week |
| LoadPenalties.WeekIsSumOfDays | utec_scheduler/utec_scheduler/genetic_algorithm.py:345-373 | a course's weekly hours are the sum of its five daily totals |
| ScheduleData.SubjectsById | utec_scheduler/utec_scheduler/genetic_algorithm.py:102 | every subject's id is a key, and each key maps to a subject with that id |
| ScheduleData.TeachersById | utec_scheduler/utec_scheduler/genetic_algorithm.py:103 | every teacher's id is a key, and each key maps to a teacher with that id |
| ScheduleData.RoomsById | utec_scheduler/utec_scheduler/genetic_algorithm.py:104 | every room's id is a key, and each key maps to a room with that id |
| ScheduleData.CoursesById | utec_scheduler/utec_scheduler/genetic_algorithm.py:203 | every course's id is a key, and each key maps to a course with that id |
| ScheduleData.DayOrder | utec_scheduler/utec_scheduler/genetic_algorithm.py:261 | `day_order` gives each day its position in the week |
| Fitness.WeightedTotal | utec_scheduler/utec_scheduler/genetic_algorithm.py:120-135 | `total_penalty` × 100, with the weights overlap 2000, course overlap 2500, hours 1500, lab 1000, shift 1000, duplicate 500, movement 200, preference 200, split 200, distribution 150, odd hours 15, daily 100, weekly 50; with non-negative penalties it is non-negative, and 0 exactly when every penalty is 0 |
| Fitness.ComputePenalties | utec_scheduler/utec_scheduler/genetic_algorithm.py:105-119 | the thirteen penalties equal their specifications and are all non-negative |
| Fitness.FitnessFunc | utec_scheduler/utec_scheduler/genetic_algorithm.py:100-136 | IndexError exactly when decoding fails; KeyError exactly when a record has an unknown id; otherwise minus the weighted total, which is at most 0 and is 0 exactly when all thirteen penalties are 0 |
| Fitness.AdmittedSolutionsScore | utec_scheduler/utec_scheduler/genetic_algorithm.py:40-119 | every gene vector drawn from the gene space decodes, and all its ids are known, so `fitness_func` returns a number |

## Left out

- Room types and course shifts are enumerations of the declared choices
  (`RoomType`, `Shift`). A stored shift outside the three choices would make
  `shift_hours[course.shift]` raise KeyError; the model cannot represent
  such a value, so it assumes every stored shift and room type is one of
  the declared choices.
- `generate` and `log_generation` are left out. The evolutionary loop
  (selection, crossover, mutation, stopping) runs inside the PyGAD library
  and depends on randomness. `log_generation` only prints.
- The Django ORM is replaced by an in-memory `Snapshot` of the four tables,
  read in table order. `Subject.objects.filter(course=...)`,
  `Teacher.objects.filter(subjects=...)` and `Course.objects.get(id=...)`
  become filters and maps over it.
- Fitness.FitnessFunc: the weights 1.5, 0.15 and 0.5 are floats in the
  source. The model multiplies all weights by 100, so it returns 100 times
  the source's value, with no float rounding.
- Fitness.FitnessFunc: KeyError and `Course.DoesNotExist` are one `KeyError`
  outcome. The model checks the ids before computing any penalty; the
  source raises at the first failing lookup. Either way the call raises
  and returns no value.
- `teachers_dict` is passed to `calculate_teacher_movement_penalty` but never
  used there, so the model does not pass it.
- Decoder.DecodeSolution: genes are integers already. The `int(...)`
  truncation of float genes is not modelled.
- Decoder.DecodeSolution: `end_time` is a `Clock(hour, minute)`. Its
  `"HH:MM:00"` string form is not modelled. Start times are `Clock`
  values, and `split(':')` parsing is replaced by the `hour` field.
- Decoder.DecodeSolution: the number of blocks is a parameter, where the
  source reads `self.num_assignments`.
- The inner loops of several penalties are their own methods, each with
  its own contract: `AddClashes`, `SumHourGaps`, `AddConsecutive`,
  `SumOddCosts`, `SumDailyExcess`, `SumWeeklyExcess`, and the two inner
  loops of `_build_assignment_list`. The two dict updates inside the
  distribution rule's first loop are the methods `AddSubjectHours` and
  `AddSubjectDay`. Penalties are accumulated as unbounded
  integers.
- The Django models, serializers, views, URL routing and all front-end code
  are outside this model.
