/** The reference data one run of the scheduler reads (rooms, courses,
    subjects, teachers), the assignment records it produces, and the fixed
    day and time-slot tables of `ScheduleGenerator`. */
module ScheduleData {
  import opened Collections

  datatype RoomType = Class | Multi | Cowork | Comp | Log

  datatype Shift = Morning | Afternoon | Night

  datatype Day = Mon | Tue | Wed | Thu | Fri

  /** A time of day; the source writes it as "HH:MM" or "HH:MM:00". */
  datatype Clock = Clock(hour: int, minute: int)

  datatype Room = Room(id: int, roomType: RoomType)

  datatype Course = Course(id: int, shift: Shift)

  /** `courseId` is the foreign key to the subject's course. */
  datatype Subject = Subject(id: int, courseId: int, requiresLab: bool, hoursPerWeek: int)

  /** `subjectIds` are the subjects the teacher is registered for. */
  datatype Teacher = Teacher(id: int, subjectIds: set<int>, fromMontevideo: bool)

  /** The tables as the generator reads them once, in table order. */
  datatype Snapshot = Snapshot(courses: seq<Course>, subjects: seq<Subject>,
                               teachers: seq<Teacher>, rooms: seq<Room>)

  /** One decoded teaching block: the dict `_decode_solution` emits. */
  datatype Assignment = Assignment(courseId: int, subjectId: int, teacherId: int, roomId: int,
                                   day: Day, startTime: Clock, slotHours: int,
                                   duration: int, endTime: Clock)

  /** A value, or the exception the source raises: IndexError for a list
      position out of range, KeyError for an id with no record (a missing
      dict key, or `DoesNotExist` from `Course.objects.get`). */
  datatype Result<T> = Ok(value: T) | IndexError | KeyError

  const Days: seq<Day> := [Mon, Tue, Wed, Thu, Fri]

  const TimeSlots: seq<Clock> :=
    [Clock(8, 0), Clock(10, 0), Clock(14, 0), Clock(16, 0), Clock(19, 0), Clock(21, 0)]

  /** Position of a day in the week (the `day_order` table). */
  function DayOrder(d: Day): (k: nat)
    ensures k < |Days| && Days[k] == d
  {
    match d
    case Mon => 0
    case Tue => 1
    case Wed => 2
    case Thu => 3
    case Fri => 4
  }

  function MinutesOf(c: Clock): int {
    c.hour * 60 + c.minute
  }

  /** The room types counted as laboratories: of the five room types,
      exactly those of the list `['COMP', 'LOG']`. */
  predicate IsLab(t: RoomType)
    ensures IsLab(t) <==> t in [Comp, Log]
  {
    match t
    case Comp | Log => true
    case Class | Multi | Cowork => false
  }

  /** `{s.id: s for s in subjects}` (a later record with the same id wins). */
  function SubjectsById(subjects: seq<Subject>): (m: map<int, Subject>)
    ensures forall s :: s in subjects ==> s.id in m
    ensures forall id :: id in m ==> m[id] in subjects && m[id].id == id
  {
    if subjects == [] then map[]
    else
      var s := subjects[|subjects| - 1];
      Snoc(subjects);
      SubjectsById(subjects[..|subjects| - 1])[s.id := s]
  }

  /** `{t.id: t for t in teachers}`. */
  function TeachersById(teachers: seq<Teacher>): (m: map<int, Teacher>)
    ensures forall t :: t in teachers ==> t.id in m
    ensures forall id :: id in m ==> m[id] in teachers && m[id].id == id
  {
    if teachers == [] then map[]
    else
      var t := teachers[|teachers| - 1];
      Snoc(teachers);
      TeachersById(teachers[..|teachers| - 1])[t.id := t]
  }

  /** `{r.id: r for r in rooms}`. */
  function RoomsById(rooms: seq<Room>): (m: map<int, Room>)
    ensures forall r :: r in rooms ==> r.id in m
    ensures forall id :: id in m ==> m[id] in rooms && m[id].id == id
  {
    if rooms == [] then map[]
    else
      var r := rooms[|rooms| - 1];
      Snoc(rooms);
      RoomsById(rooms[..|rooms| - 1])[r.id := r]
  }

  /** The course table indexed by id, standing for `Course.objects.get(id=...)`. */
  function CoursesById(courses: seq<Course>): (m: map<int, Course>)
    ensures forall c :: c in courses ==> c.id in m
    ensures forall id :: id in m ==> m[id] in courses && m[id].id == id
  {
    if courses == [] then map[]
    else
      var c := courses[|courses| - 1];
      Snoc(courses);
      CoursesById(courses[..|courses| - 1])[c.id := c]
  }
}
