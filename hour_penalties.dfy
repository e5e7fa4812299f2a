/** The weekly hours a subject gets (`calculate_hours_penalty`), and the
    per-(subject, day) tally that the distribution and odd-hours rules share.
    Both count every block as 2 hours, whatever its real length. */
module HourPenalties {
  import opened ScheduleData
  import opened Collections

  /** The key of `subject_hours_per_day`: (subject, day). */
  datatype SubjectDay = SubjectDay(subjectId: int, day: Day)

  function SubjectDays(a: seq<Assignment>): (r: seq<SubjectDay>)
    ensures |r| == |a| && forall i :: 0 <= i < |a| ==> r[i] == SubjectDay(a[i].subjectId, a[i].day)
  {
    seq(|a|, i requires 0 <= i < |a| => SubjectDay(a[i].subjectId, a[i].day))
  }

  /** The subjects of a sequence of (subject, day) keys. */
  function KeySubjects(keys: seq<SubjectDay>): (r: seq<int>)
    ensures |r| == |keys| && forall i :: 0 <= i < |keys| ==> r[i] == keys[i].subjectId
  {
    seq(|keys|, i requires 0 <= i < |keys| => keys[i].subjectId)
  }

  /** The subject of every record, in record order. */
  function SubjectIds(a: seq<Assignment>): (r: seq<int>)
    ensures |r| == |a| && forall i :: 0 <= i < |a| ==> r[i] == a[i].subjectId
  {
    KeySubjects(SubjectDays(a))
  }

  lemma SubjectIdsSnoc(a: seq<Assignment>, n: nat)
    requires n < |a|
    ensures SubjectIds(a[..n + 1]) == SubjectIds(a[..n]) + [a[n].subjectId]
  {
  }

  lemma SubjectDaysSnoc(a: seq<Assignment>, n: nat)
    requires n < |a|
    ensures SubjectDays(a[..n + 1]) == SubjectDays(a[..n]) + [SubjectDay(a[n].subjectId, a[n].day)]
  {
  }

  /** Every assignment's subject is in the table. */
  predicate SubjectsKnown(a: seq<Assignment>, subjects: map<int, Subject>) {
    forall i :: 0 <= i < |a| ==> a[i].subjectId in subjects
  }

  /** `d[key] += 2` after the key was set to 0 if it was missing: every
      block counts as 2 hours, 3-hour blocks included. */
  function AddTwo<K(==)>(d: Dict<K, int>, key: K): Dict<K, int> {
    var d1 := if key !in d.entries then d.Put(key, 0) else d;
    d1.Put(key, d1.entries[key] + 2)
  }

  /** The `subject_hours` dict after the first loop has seen `keys`. */
  function TwoHourTable<K(==)>(keys: seq<K>): Dict<K, int> {
    if keys == [] then EmptyDict() else AddTwo(TwoHourTable(keys[..|keys| - 1]), keys[|keys| - 1])
  }

  lemma {:induction false} TwoHourTableKeys<K(!new)>(keys: seq<K>)
    ensures Tracks(TwoHourTable(keys), keys)
  {
    if keys != [] {
      var n := |keys| - 1;
      var init, key := keys[..n], keys[n];
      var d := TwoHourTable(init);
      TwoHourTableKeys(init);
      Snoc(keys);
      var d1 := if key !in d.entries then d.Put(key, 0) else d;
      TracksUpsert(d, init, key, 0, d1.entries[key] + 2);
    }
  }

  lemma {:induction false} TwoHourTableValues<K(!new)>(keys: seq<K>)
    ensures forall k :: k in TwoHourTable(keys).entries ==> TwoHourTable(keys).entries[k] == 2 * Count(keys, k)
  {
    if keys != [] {
      var n := |keys| - 1;
      var init, key := keys[..n], keys[n];
      TwoHourTableValues(init);
      TwoHourTableKeys(init);
      Snoc(keys);
      forall k | k in TwoHourTable(keys).entries
        ensures TwoHourTable(keys).entries[k] == 2 * Count(keys, k)
      {
        CountSnoc(init, key, k);
      }
    }
  }

  /** The table has one entry per key, in first-occurrence order, and holds
      2 hours per occurrence. */
  lemma TwoHourTableContents<K(!new)>(keys: seq<K>)
    ensures Tracks(TwoHourTable(keys), keys)
    ensures forall k :: k in TwoHourTable(keys).entries ==> TwoHourTable(keys).entries[k] == 2 * Count(keys, k)
  {
    TwoHourTableKeys(keys);
    TwoHourTableValues(keys);
  }

  /** 2 per hour of difference between the counted and the required hours. */
  function HourGap(hours: int, required: int): nat {
    if hours != required then 2 * Abs(hours - required) else 0
  }

  /** The gaps of the first `n` subjects of `ids`, each counted from its
      occurrences in `all`. */
  function HoursSum(all: seq<int>, ids: seq<int>, n: nat, subjects: map<int, Subject>): nat
    requires n <= |ids| && forall j :: 0 <= j < |ids| ==> ids[j] in subjects
  {
    if n == 0 then 0
    else HoursSum(all, ids, n - 1, subjects) + HourGap(2 * Count(all, ids[n - 1]), subjects[ids[n - 1]].hoursPerWeek)
  }

  /** The hours penalty: every subject that has a block, once. */
  function HoursTotal(a: seq<Assignment>, subjects: map<int, Subject>): nat
    requires SubjectsKnown(a, subjects)
  {
    var ids := SubjectIds(a);
    var d := Distinct(ids);
    assert forall j :: 0 <= j < |d| ==> d[j] in subjects by {
      forall j | 0 <= j < |d| ensures d[j] in subjects {
        var i :| 0 <= i < |ids| && ids[i] == d[j];
      }
    }
    HoursSum(ids, d, |d|, subjects)
  }

  /** The first loop of `calculate_hours_penalty`: 2 hours per block of
      every subject. */
  method TallySubjectHours(a: seq<Assignment>) returns (subjectHours: Dict<int, int>)
    ensures subjectHours == TwoHourTable(SubjectIds(a))
  {
    subjectHours := EmptyDict();
    for i := 0 to |a|
      invariant subjectHours == TwoHourTable(SubjectIds(a[..i]))
    {
      var subjectId := a[i].subjectId;
      if subjectId !in subjectHours.entries {
        subjectHours := subjectHours.Put(subjectId, 0);
      }
      subjectHours := subjectHours.Put(subjectId, subjectHours.entries[subjectId] + 2);
      SubjectIdsSnoc(a, i);
    }
    WholePrefix(a);
  }

  /** The second loop of `calculate_hours_penalty`, over the tally of the
      blocks `ids`: the gap of every subject, in the tally's order. */
  method SumHourGaps(subjectHours: Dict<int, int>, ghost ids: seq<int>, subjects: map<int, Subject>)
    returns (penalty: int)
    requires forall j :: 0 <= j < |subjectHours.order| ==> subjectHours.order[j] in subjects
    requires forall j :: 0 <= j < |subjectHours.order| ==>
      subjectHours.order[j] in subjectHours.entries && subjectHours.entries[subjectHours.order[j]] == 2 * Count(ids, subjectHours.order[j])
    ensures penalty == HoursSum(ids, subjectHours.order, |subjectHours.order|, subjects)
  {
    penalty := 0;
    var order := subjectHours.order;
    for j := 0 to |order|
      invariant penalty == HoursSum(ids, order, j, subjects)
    {
      var subjectId := order[j];
      var hours := subjectHours.entries[subjectId];
      var requiredHours := subjects[subjectId].hoursPerWeek;
      if hours != requiredHours {
        penalty := penalty + 2 * Abs(hours - requiredHours);
      }
    }
  }

  /** `calculate_hours_penalty`. */
  method HoursPenalty(a: seq<Assignment>, subjects: map<int, Subject>) returns (penalty: int)
    requires SubjectsKnown(a, subjects)
    ensures penalty == HoursTotal(a, subjects)
  {
    var subjectHours := TallySubjectHours(a);
    ghost var ids := SubjectIds(a);
    var order := subjectHours.order;
    assert order == Distinct(ids) && forall j :: 0 <= j < |order| ==>
      order[j] in subjects && order[j] in subjectHours.entries && subjectHours.entries[order[j]] == 2 * Count(ids, order[j])
    by {
      TwoHourTableContents(ids);
      forall j | 0 <= j < |order| ensures order[j] in subjects {
        var i :| 0 <= i < |ids| && ids[i] == order[j];
      }
    }
    penalty := SumHourGaps(subjectHours, ids, subjects);
  }

  lemma {:induction false} HoursSumZero(all: seq<int>, ids: seq<int>, n: nat, subjects: map<int, Subject>)
    requires n <= |ids| && forall j :: 0 <= j < |ids| ==> ids[j] in subjects
    ensures HoursSum(all, ids, n, subjects) == 0 <==>
      forall j :: 0 <= j < n ==> 2 * Count(all, ids[j]) == subjects[ids[j]].hoursPerWeek
  {
    if n > 0 {
      HoursSumZero(all, ids, n - 1, subjects);
    }
  }

  /** The hours penalty is 0 exactly when every subject that has a block has
      twice as many hours per week as it has blocks. */
  lemma HoursTotalZero(a: seq<Assignment>, subjects: map<int, Subject>)
    requires SubjectsKnown(a, subjects)
    ensures HoursTotal(a, subjects) == 0 <==> forall i :: 0 <= i < |a| ==>
      2 * Count(SubjectIds(a), a[i].subjectId) == subjects[a[i].subjectId].hoursPerWeek
  {
    var ids := SubjectIds(a);
    var d := Distinct(ids);
    HoursSumZero(ids, d, |d|, subjects);
    if HoursTotal(a, subjects) == 0 {
      forall i | 0 <= i < |a|
        ensures 2 * Count(ids, a[i].subjectId) == subjects[a[i].subjectId].hoursPerWeek
      {
        assert ids[i] in d;
      }
    } else {
      var j :| 0 <= j < |d| && 2 * Count(ids, d[j]) != subjects[d[j]].hoursPerWeek;
      var i :| 0 <= i < |ids| && ids[i] == d[j];
    }
  }

  lemma {:induction false} HoursSumAtLeast(all: seq<int>, ids: seq<int>, n: nat, subjects: map<int, Subject>, j: nat)
    requires n <= |ids| && forall k :: 0 <= k < |ids| ==> ids[k] in subjects
    requires j < n
    ensures HoursSum(all, ids, n, subjects) >= HourGap(2 * Count(all, ids[j]), subjects[ids[j]].hoursPerWeek)
  {
    if j < n - 1 {
      HoursSumAtLeast(all, ids, n - 1, subjects, j);
    }
  }

  /** A subject with an odd number of hours per week that has a block always
      costs at least 2: blocks are counted 2 hours each, so an odd
      requirement is never met. */
  lemma OddRequirementNeverMet(a: seq<Assignment>, subjects: map<int, Subject>, i: nat)
    requires SubjectsKnown(a, subjects)
    requires i < |a| && subjects[a[i].subjectId].hoursPerWeek % 2 == 1
    ensures HoursTotal(a, subjects) >= 2
  {
    var ids := SubjectIds(a);
    var d := Distinct(ids);
    assert ids[i] in d;
    var j :| 0 <= j < |d| && d[j] == a[i].subjectId;
    HoursSumAtLeast(ids, d, |d|, subjects, j);
  }

  function Lesson(subjectId: int, day: Day, slotHours: int): Assignment {
    Assignment(1, subjectId, 1, 1, day, Clock(8, 0), slotHours, 60 * slotHours, Clock(8 + slotHours, 0))
  }

  lemma RepeatedId(x: int)
    ensures Distinct([x, x]) == [x] && Count([x, x], x) == 2
  {
    DistinctTwice(x);
    assert [x, x][..1] == [x];
    CountSingleton(x, x);
  }

  lemma DistinctTwice(x: int)
    ensures Distinct([x, x]) == [x]
  {
    var r := Distinct([x, x]);
    assert r == [x] by {
      assert !NoDup([x, x]) by { assert [x, x][0] == [x, x][1]; }
      assert x in r by { assert [x, x][0] == x; }
      assert forall i :: 0 <= i < |r| ==> r[i] == x;
    }
  }

  /** Two blocks of one subject are counted as 4 hours. */
  lemma TwoBlocksTotal(a: seq<Assignment>, subjects: map<int, Subject>, x: int)
    requires SubjectsKnown(a, subjects) && SubjectIds(a) == [x, x] && x in subjects
    ensures HoursTotal(a, subjects) == HourGap(4, subjects[x].hoursPerWeek)
  {
    RepeatedId(x);
    var ids := SubjectIds(a);
    assert HoursSum(ids, [x], 1, subjects) == HourGap(2 * Count(ids, x), subjects[x].hoursPerWeek);
  }

  /** A 6-hour subject placed as its two 3-hour blocks is counted as 4 hours
      and costs 4, although the blocks cover its 6 hours. */
  lemma ThreeHourBlocksUndercounted()
    ensures HoursTotal([Lesson(5, Mon, 3), Lesson(5, Wed, 3)], map[5 := Subject(5, 1, false, 6)]) == 4
  {
    var a := [Lesson(5, Mon, 3), Lesson(5, Wed, 3)];
    assert SubjectIds(a) == [5, 5];
    TwoBlocksTotal(a, map[5 := Subject(5, 1, false, 6)], 5);
  }
}
