/** Solution decoding (`_decode_solution`): the flat gene vector, seven genes
    per block (`assignment_size`: course, subject, teacher, room, day, start
    time and slot hours, in that order), becomes a list of assignment
    records with a computed end time that is clamped to 23:00. */
module Decoder {
  import opened ScheduleData
  import opened Collections

  /** Python's `s[i]`: a negative index counts from the end, any other index
      outside the list raises IndexError. */
  function PyIndex<T>(s: seq<T>, i: int): (r: Result<T>)
    ensures r.Ok? <==> -|s| <= i < |s|
    ensures 0 <= i < |s| ==> r == Ok(s[i])
    ensures -|s| <= i < 0 ==> r == Ok(s[|s| + i])
    ensures r.Ok? ==> r.value in s
  {
    if 0 <= i < |s| then Ok(s[i])
    else if -|s| <= i < 0 then Ok(s[|s| + i])
    else IndexError
  }

  function Min(a: int, b: int): int {
    if a <= b then a else b
  }

  /** The end of a session of `duration` minutes starting at `start`, before
      any clamping: the hour and minute arithmetic of `_decode_solution`,
      which `calculate_course_overlap_penalty` repeats. */
  function UnclampedEnd(start: Clock, duration: int): (r: Clock)
    ensures MinutesOf(r) == MinutesOf(start) + duration
    ensures 0 <= start.minute < 60 ==> 0 <= r.minute < 60
  {
    var endHour := start.hour + duration / 60;
    var endMinute := start.minute + duration % 60;
    if endMinute >= 60 then Clock(endHour + 1, endMinute - 60) else Clock(endHour, endMinute)
  }

  /** The decoded `end_time`: never past 23:00, and for a well-formed start
      exactly the start plus the duration, or 23:00 when that is later. */
  function EndTime(start: Clock, duration: int): (r: Clock)
    ensures r.hour <= 23 && (r.hour == 23 ==> r.minute <= 0)
    ensures 0 <= start.minute < 60 ==>
      0 <= r.minute < 60 && MinutesOf(r) == Min(MinutesOf(start) + duration, 23 * 60)
  {
    var e := UnclampedEnd(start, duration);
    if e.hour > 23 || (e.hour == 23 && e.minute > 0) then Clock(23, 0) else e
  }

  /** A start of 21:00 and three hours would end at 24:00, and is clamped. */
  lemma EndTimeClampExample()
    ensures EndTime(Clock(21, 0), 180) == Clock(23, 0)
    ensures EndTime(Clock(19, 0), 180) == Clock(22, 0)
  {
  }

  /** The genes of block `i`. */
  function Genes(solution: seq<int>, i: nat): (g: seq<int>)
    requires 7 * i + 7 <= |solution|
    ensures |g| == 7
  {
    solution[7 * i..7 * i + 7]
  }

  /** One iteration of the decoding loop, on the seven genes of one block. */
  function DecodeRecord(genes: seq<int>): (r: Result<Assignment>)
    requires |genes| == 7
    ensures r.Ok? <==> -|Days| <= genes[4] < |Days| && -|TimeSlots| <= genes[5] < |TimeSlots|
    ensures r.Ok? ==>
      && r.value.courseId == genes[0] && r.value.subjectId == genes[1]
      && r.value.teacherId == genes[2] && r.value.roomId == genes[3]
      && r.value.slotHours == genes[6] && r.value.duration == 60 * genes[6]
      && r.value.day == PyIndex(Days, genes[4]).value
      && r.value.startTime == PyIndex(TimeSlots, genes[5]).value
      && r.value.startTime in TimeSlots
      && r.value.endTime.hour <= 23 && (r.value.endTime.hour == 23 ==> r.value.endTime.minute == 0)
      && 0 <= r.value.endTime.minute < 60
      && MinutesOf(r.value.endTime) == Min(MinutesOf(r.value.startTime) + r.value.duration, 23 * 60)
  {
    match (PyIndex(Days, genes[4]), PyIndex(TimeSlots, genes[5]))
    case (Ok(day), Ok(start)) =>
      var slotHours := genes[6];
      var duration := slotHours * 60;
      Ok(Assignment(genes[0], genes[1], genes[2], genes[3], day, start, slotHours, duration,
                    EndTime(start, duration)))
    case _ => IndexError
  }

  /** The gene vector holds `n` blocks and each of them decodes. */
  predicate Decodable(solution: seq<int>, n: nat) {
    && 7 * n <= |solution|
    && forall i :: 0 <= i < n ==> DecodeRecord(Genes(solution, i)).Ok?
  }

  /** The decoded records, block by block. */
  function Decoded(solution: seq<int>, n: nat): seq<Assignment>
    requires Decodable(solution, n)
  {
    seq(n, i requires 0 <= i < n => DecodeRecord(Genes(solution, i)).value)
  }

  /** `_decode_solution`: `n` records in gene order, or the IndexError raised
      by a missing gene or a day or slot index out of range. */
  method DecodeSolution(solution: seq<int>, n: nat) returns (r: Result<seq<Assignment>>)
    ensures r.Ok? <==> Decodable(solution, n)
    ensures r.Ok? || r.IndexError?
    ensures r.Ok? ==> |r.value| == n && forall i :: 0 <= i < n ==> Ok(r.value[i]) == DecodeRecord(Genes(solution, i))
    ensures r.Ok? ==> r.value == Decoded(solution, n)
  {
    var assignments: seq<Assignment> := [];
    for i := 0 to n
      invariant 7 * i <= |solution|
      invariant forall k :: 0 <= k < i ==> DecodeRecord(Genes(solution, k)).Ok?
      invariant |assignments| == i
      invariant forall k :: 0 <= k < i ==> Ok(assignments[k]) == DecodeRecord(Genes(solution, k))
    {
      var idx := 7 * i;
      if idx + 7 > |solution| {
        return IndexError;
      }
      var record := DecodeRecord(solution[idx..idx + 7]);
      assert solution[idx..idx + 7] == Genes(solution, i);
      if !record.Ok? {
        return IndexError;
      }
      assignments := assignments + [record.value];
    }
    r := Ok(assignments);
  }
}
