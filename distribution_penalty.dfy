/** The rule about how a subject's blocks spread over the week
    (`calculate_distribution_penalty`): 1 for every block of a subject on a
    day it already has one, and 5 for every two consecutive days on which a
    subject has blocks. */
module DistributionPenalty {
  import opened ScheduleData
  import opened Collections
  import opened HourPenalties

  /** The days on which subject `s` has a block. */
  function DaysOf(a: seq<Assignment>, s: int): set<Day> {
    if a == [] then {}
    else
      var x := a[|a| - 1];
      DaysOf(a[..|a| - 1], s) + (if x.subjectId == s then {x.day} else {})
  }

  lemma {:induction false} DaysOfMembers(a: seq<Assignment>, s: int)
    ensures forall d :: d in DaysOf(a, s) <==> exists i :: 0 <= i < |a| && a[i].subjectId == s && a[i].day == d
  {
    if a != [] {
      var n := |a| - 1;
      DaysOfMembers(a[..n], s);
      assert forall i :: 0 <= i < n ==> a[..n][i] == a[i];
    }
  }

  /** `subject_days[subject_id].add(day)` after the set was created if it
      was missing. */
  function AddDay(d: Dict<int, set<Day>>, x: Assignment): Dict<int, set<Day>> {
    var d1 := if x.subjectId !in d.entries then d.Put(x.subjectId, {}) else d;
    d1.Put(x.subjectId, d1.entries[x.subjectId] + {x.day})
  }

  /** The `subject_days` dict after the first loop has seen `a`. */
  function DaysTable(a: seq<Assignment>): Dict<int, set<Day>> {
    if a == [] then EmptyDict() else AddDay(DaysTable(a[..|a| - 1]), a[|a| - 1])
  }

  lemma {:induction false} DaysTableKeys(a: seq<Assignment>)
    ensures Tracks(DaysTable(a), SubjectIds(a))
  {
    if a != [] {
      var n := |a| - 1;
      var d, x := DaysTable(a[..n]), a[n];
      DaysTableKeys(a[..n]);
      SubjectIdsSnoc(a, n);
      assert a[..n + 1] == a;
      var d1 := if x.subjectId !in d.entries then d.Put(x.subjectId, {}) else d;
      TracksUpsert(d, SubjectIds(a[..n]), x.subjectId, {}, d1.entries[x.subjectId] + {x.day});
    }
  }

  lemma {:induction false} DaysTableDays(a: seq<Assignment>)
    ensures forall s :: s in DaysTable(a).entries ==> DaysTable(a).entries[s] == DaysOf(a, s)
    ensures forall s :: s !in DaysTable(a).entries ==> DaysOf(a, s) == {}
  {
    if a != [] {
      DaysTableDays(a[..|a| - 1]);
    }
  }

  /** A key's tally passes 3 after its addition exactly when the key had
      been seen before. */
  lemma RepeatCounted(keys: seq<SubjectDay>, key: SubjectDay)
    ensures TwoHourTable(keys + [key]) == AddTwo(TwoHourTable(keys), key)
    ensures Repeats(keys + [key]) == Repeats(keys) + (if key in keys then 1 else 0)
    ensures AddTwo(TwoHourTable(keys), key).entries[key] > 3 <==> key in keys
  {
    assert (keys + [key])[..|keys|] == keys;
    TwoHourTableContents(keys);
    TwoHourTableContents(keys + [key]);
    CountSnoc(keys, key, key);
  }

  /** One block's update of `subject_hours_per_day`, and whether its tally
      now passes 3. */
  method AddSubjectHours(t: Dict<SubjectDay, int>, key: SubjectDay) returns (t2: Dict<SubjectDay, int>, repeated: bool)
    ensures t2 == AddTwo(t, key)
    ensures repeated <==> t2.entries[key] > 3
  {
    t2 := t;
    if key !in t2.entries {
      t2 := t2.Put(key, 0);
    }
    t2 := t2.Put(key, t2.entries[key] + 2);
    repeated := t2.entries[key] > 3;
  }

  /** One block's update of `subject_days`. */
  method AddSubjectDay(d: Dict<int, set<Day>>, x: Assignment) returns (d2: Dict<int, set<Day>>)
    ensures d2 == AddDay(d, x)
  {
    d2 := d;
    if x.subjectId !in d2.entries {
      d2 := d2.Put(x.subjectId, {});
    }
    d2 := d2.Put(x.subjectId, d2.entries[x.subjectId] + {x.day});
  }

  /** The first loop: the 2-hour tally per (subject, day), the days of every
      subject, and 1 for every block whose (subject, day) already had one. */
  method TallySubjectDays(a: seq<Assignment>)
    returns (penalty: int, subjectHoursPerDay: Dict<SubjectDay, int>, subjectDays: Dict<int, set<Day>>)
    ensures penalty == Repeats(SubjectDays(a))
    ensures subjectHoursPerDay == TwoHourTable(SubjectDays(a))
    ensures subjectDays == DaysTable(a)
  {
    penalty := 0;
    subjectHoursPerDay := EmptyDict();
    subjectDays := EmptyDict();
    for i := 0 to |a|
      invariant penalty == Repeats(SubjectDays(a[..i]))
      invariant subjectHoursPerDay == TwoHourTable(SubjectDays(a[..i]))
      invariant subjectDays == DaysTable(a[..i])
    {
      var subjectId, day := a[i].subjectId, a[i].day;
      var key := SubjectDay(subjectId, day);
      ghost var seen := SubjectDays(a[..i]);
      ghost var daysBefore := subjectDays;
      assert SubjectDays(a[..i + 1]) == seen + [key] && DaysTable(a[..i + 1]) == AddDay(daysBefore, a[i]) by {
        SubjectDaysSnoc(a, i);
        PrefixStep(a, i);
      }
      RepeatCounted(seen, key);
      var repeated;
      subjectHoursPerDay, repeated := AddSubjectHours(subjectHoursPerDay, key);
      if repeated {
        penalty := penalty + 1;
      }
      subjectDays := AddSubjectDay(subjectDays, a[i]);
    }
    WholePrefix(a);
  }

  /** `day_order[d]` for `d` in `days`, for the first `m` days of the week, in
      increasing order: `sorted([day_order[day] for day in days])` when
      `m` is 5. */
  function Upto(days: set<Day>, m: nat): seq<int>
    requires m <= |Days|
  {
    if m == 0 then []
    else Upto(days, m - 1) + (if Days[m - 1] in days then [m - 1] else [])
  }

  /** The indices listed are those of the days in `days`, in strictly
      increasing order. */
  lemma {:induction false} UptoSorted(days: set<Day>, m: nat)
    requires m <= |Days|
    ensures forall k :: k in Upto(days, m) <==> 0 <= k < m && Days[k] in days
    ensures forall i :: 0 <= i < |Upto(days, m)| ==> 0 <= Upto(days, m)[i] < m
    ensures forall i, j :: 0 <= i < j < |Upto(days, m)| ==> Upto(days, m)[i] < Upto(days, m)[j]
  {
    if m > 0 {
      UptoSorted(days, m - 1);
    }
  }

  function SortedDayIndices(days: set<Day>): seq<int> {
    Upto(days, |Days|)
  }

  /** Number of neighbouring entries of `l` one apart. */
  function Steps(l: seq<int>): nat {
    if |l| < 2 then 0
    else Steps(l[..|l| - 1]) + (if l[|l| - 1] - l[|l| - 2] == 1 then 1 else 0)
  }

  /** Number of pairs of consecutive days among the first `m` days of the
      week that are both in `days`. */
  function AdjacentDays(days: set<Day>, m: nat): nat
    requires m <= |Days|
  {
    if m < 2 then 0
    else AdjacentDays(days, m - 1) + (if Days[m - 2] in days && Days[m - 1] in days then 1 else 0)
  }

  /** Number of pairs of consecutive weekdays that are both in `days`. */
  function ConsecutiveDays(days: set<Day>): nat {
    AdjacentDays(days, |Days|)
  }

  /** The last sorted index is `m - 1` exactly when that day is in `days`,
      and otherwise lies below it. */
  lemma UptoLast(days: set<Day>, m: nat)
    requires 1 <= m <= |Days| && Upto(days, m) != []
    ensures var u := Upto(days, m); Days[m - 1] in days <==> u[|u| - 1] == m - 1
    ensures var u := Upto(days, m); u[|u| - 1] <= m - 1
  {
    var u := Upto(days, m);
    UptoSorted(days, m);
    assert u[|u| - 1] in u;
  }

  lemma StepsSnoc(u: seq<int>, x: int)
    requires u != []
    ensures Steps(u + [x]) == Steps(u) + (if x - u[|u| - 1] == 1 then 1 else 0)
  {
    var l := u + [x];
    assert l[..|l| - 1] == u;
  }

  /** Adding day `m - 1` to the sorted indices adds one neighbouring pair
      one apart exactly when days `m - 2` and `m - 1` are both in `days`. */
  lemma UptoStep(days: set<Day>, m: nat)
    requires 2 <= m <= |Days|
    ensures Steps(Upto(days, m)) == Steps(Upto(days, m - 1)) + (if Days[m - 2] in days && Days[m - 1] in days then 1 else 0)
  {
    var u := Upto(days, m - 1);
    if Days[m - 1] in days {
      assert Upto(days, m) == u + [m - 1];
      if u != [] {
        UptoLast(days, m - 1);
        StepsSnoc(u, m - 1);
      } else {
        UptoSorted(days, m - 1);
        assert m - 2 !in u;
      }
    } else {
      assert Upto(days, m) == u;
    }
  }

  /** Counting neighbours one apart in the sorted day indices counts the
      pairs of consecutive days. */
  lemma {:induction false} StepsUpto(days: set<Day>, m: nat)
    requires m <= |Days|
    ensures Steps(Upto(days, m)) == AdjacentDays(days, m)
  {
    if m == 1 {
      assert |Upto(days, 1)| <= 1 by {
        assert Upto(days, 0) == [];
      }
    } else if m > 1 {
      StepsUpto(days, m - 1);
      UptoStep(days, m);
    }
  }

  /** 5 per pair of consecutive days of each of the first `n` subjects of
      `ids`. */
  function ConsecutiveSum(a: seq<Assignment>, ids: seq<int>, n: nat): nat
    requires n <= |ids|
  {
    if n == 0 then 0
    else ConsecutiveSum(a, ids, n - 1) + 5 * ConsecutiveDays(DaysOf(a, ids[n - 1]))
  }

  /** The distribution penalty: 1 per block on a (subject, day) that already
      had one, plus 5 per pair of consecutive days of every subject. */
  function DistributionTotal(a: seq<Assignment>): nat {
    var ids := Distinct(SubjectIds(a));
    Repeats(SubjectDays(a)) + ConsecutiveSum(a, ids, |ids|)
  }

  /** The inner loop on one subject: 5 per neighbouring pair one apart. */
  method CountConsecutive(daysList: seq<int>) returns (penalty: int)
    ensures penalty == 5 * Steps(daysList)
  {
    penalty := 0;
    var i := 0;
    while i < |daysList| - 1
      invariant 0 <= i && (daysList != [] ==> i < |daysList|)
      invariant daysList != [] ==> penalty == 5 * Steps(daysList[..i + 1])
      invariant daysList == [] ==> penalty == 0
    {
      if daysList[i + 1] - daysList[i] == 1 {
        penalty := penalty + 5;
      }
      assert daysList[..i + 2][..i + 1] == daysList[..i + 1];
      i := i + 1;
    }
    if daysList != [] {
      assert daysList[..i + 1] == daysList;
    }
  }

  /** The second loop of `calculate_distribution_penalty`, over a table
      holding the days of every subject of `a`: `penalty` plus 5 per pair of
      consecutive days of every subject, in the table's order. */
  method AddConsecutive(penalty: int, subjectDays: Dict<int, set<Day>>, ghost a: seq<Assignment>)
    returns (result: int)
    requires forall j :: 0 <= j < |subjectDays.order| ==>
      subjectDays.order[j] in subjectDays.entries && subjectDays.entries[subjectDays.order[j]] == DaysOf(a, subjectDays.order[j])
    ensures result == penalty + ConsecutiveSum(a, subjectDays.order, |subjectDays.order|)
  {
    result := penalty;
    var order := subjectDays.order;
    for j := 0 to |order|
      invariant result == penalty + ConsecutiveSum(a, order, j)
    {
      var days := subjectDays.entries[order[j]];
      var daysList := SortedDayIndices(days);
      var more := CountConsecutive(daysList);
      StepsUpto(days, |Days|);
      result := result + more;
    }
  }

  /** The second loop's view of `subject_days`: one key per subject, in
      first-occurrence order, each holding that subject's days. */
  lemma DaysTableOrder(a: seq<Assignment>)
    ensures DaysTable(a).order == Distinct(SubjectIds(a))
    ensures forall j :: 0 <= j < |DaysTable(a).order| ==>
      DaysTable(a).order[j] in DaysTable(a).entries && DaysTable(a).entries[DaysTable(a).order[j]] == DaysOf(a, DaysTable(a).order[j])
  {
    DaysTableKeys(a);
    DaysTableDays(a);
  }

  /** `calculate_distribution_penalty`. */
  method DistributionPenalty(a: seq<Assignment>) returns (penalty: int)
    ensures penalty == DistributionTotal(a)
  {
    var first, subjectHoursPerDay, subjectDays := TallySubjectDays(a);
    DaysTableOrder(a);
    penalty := AddConsecutive(first, subjectDays, a);
  }

  lemma {:induction false} AdjacentZero(days: set<Day>, m: nat)
    requires m <= |Days|
    ensures AdjacentDays(days, m) == 0 <==> forall k :: 1 <= k < m ==> !(Days[k - 1] in days && Days[k] in days)
  {
    if m >= 2 {
      AdjacentZero(days, m - 1);
    }
  }

  lemma {:induction false} ConsecutiveSumZero(a: seq<Assignment>, ids: seq<int>, n: nat)
    requires n <= |ids|
    ensures ConsecutiveSum(a, ids, n) == 0 <==> forall j :: 0 <= j < n ==> ConsecutiveDays(DaysOf(a, ids[j])) == 0
  {
    if n > 0 {
      ConsecutiveSumZero(a, ids, n - 1);
    }
  }

  /** No subject has blocks on two consecutive weekdays. */
  predicate NoNeighbourDays(a: seq<Assignment>) {
    forall i, j :: 0 <= i < |a| && 0 <= j < |a| && a[i].subjectId == a[j].subjectId ==>
      DayOrder(a[j].day) != DayOrder(a[i].day) + 1
  }

  /** A subject whose days hold a neighbouring pair has blocks on both. */
  lemma NeighboursFromDays(a: seq<Assignment>, s: int, k: nat)
    requires 1 <= k < |Days| && Days[k - 1] in DaysOf(a, s) && Days[k] in DaysOf(a, s)
    ensures !NoNeighbourDays(a)
  {
    DaysOfMembers(a, s);
    var i :| 0 <= i < |a| && a[i].subjectId == s && a[i].day == Days[k - 1];
    var j :| 0 <= j < |a| && a[j].subjectId == s && a[j].day == Days[k];
    assert DayOrder(a[i].day) == k - 1 && DayOrder(a[j].day) == k;
  }

  /** Without neighbouring days, no subject's days hold a consecutive pair. */
  lemma NoNeighbourNoPairs(a: seq<Assignment>, s: int)
    requires NoNeighbourDays(a)
    ensures ConsecutiveDays(DaysOf(a, s)) == 0
  {
    AdjacentZero(DaysOf(a, s), |Days|);
    forall k | 1 <= k < |Days| ensures !(Days[k - 1] in DaysOf(a, s) && Days[k] in DaysOf(a, s)) {
      if Days[k - 1] in DaysOf(a, s) && Days[k] in DaysOf(a, s) {
        NeighboursFromDays(a, s, k);
      }
    }
  }

  /** Blocks of one subject on neighbouring days give its days a
      consecutive pair. */
  lemma NeighboursMakePair(a: seq<Assignment>, i: nat, j: nat)
    requires i < |a| && j < |a| && a[i].subjectId == a[j].subjectId
    requires DayOrder(a[j].day) == DayOrder(a[i].day) + 1
    ensures ConsecutiveDays(DaysOf(a, a[i].subjectId)) > 0
  {
    var s := a[i].subjectId;
    DaysOfMembers(a, s);
    var k := DayOrder(a[j].day);
    assert Days[k - 1] == a[i].day;
    AdjacentZero(DaysOf(a, s), |Days|);
  }

  /** The distribution penalty is 0 exactly when no (subject, day) holds two
      blocks and no subject has blocks on two consecutive weekdays. */
  lemma DistributionTotalZero(a: seq<Assignment>)
    ensures DistributionTotal(a) == 0 <==> NoDup(SubjectDays(a)) && NoNeighbourDays(a)
  {
    var ids := Distinct(SubjectIds(a));
    RepeatsDistinct(SubjectDays(a));
    ConsecutiveSumZero(a, ids, |ids|);
    if NoNeighbourDays(a) {
      forall j | 0 <= j < |ids| ensures ConsecutiveDays(DaysOf(a, ids[j])) == 0 {
        NoNeighbourNoPairs(a, ids[j]);
      }
    } else {
      var i, j :| 0 <= i < |a| && 0 <= j < |a| && a[i].subjectId == a[j].subjectId &&
        DayOrder(a[j].day) == DayOrder(a[i].day) + 1;
      NeighboursMakePair(a, i, j);
      assert SubjectIds(a)[i] == a[i].subjectId;
      var p :| 0 <= p < |ids| && ids[p] == a[i].subjectId;
    }
  }

  /** Two 2-hour blocks of subject 5, on days `d1` and `d2`. */
  function Pair(d1: Day, d2: Day): seq<Assignment> {
    [Lesson(5, d1, 2), Lesson(5, d2, 2)]
  }

  lemma PairSubjects(d1: Day, d2: Day)
    ensures Distinct(SubjectIds(Pair(d1, d2))) == [5]
  {
    assert SubjectIds(Pair(d1, d2)) == [5] + [5];
    assert [] + [5] == [5];
    DistinctSnoc([], 5);
    DistinctSnoc([5], 5);
  }

  lemma PairDays(d1: Day, d2: Day)
    ensures ConsecutiveSum(Pair(d1, d2), [5], 1) == 5 * ConsecutiveDays({d1, d2})
  {
    var a := Pair(d1, d2);
    assert a[..1] == [Lesson(5, d1, 2)] && a[..1][..0] == [];
    assert DaysOf(a[..1], 5) == {d1};
    assert DaysOf(a, 5) == {d1, d2};
  }

  lemma PairRepeats(d1: Day, d2: Day)
    ensures Repeats(SubjectDays(Pair(d1, d2))) == if d1 == d2 then 1 else 0
  {
    var k := SubjectDays(Pair(d1, d2));
    assert k == [SubjectDay(5, d1), SubjectDay(5, d2)];
    assert k[..1] == [SubjectDay(5, d1)] && k[..1][..0] == [];
    assert Repeats(k[..1]) == 0;
  }

  lemma PairTotal(d1: Day, d2: Day)
    ensures DistributionTotal(Pair(d1, d2)) == (if d1 == d2 then 1 else 0) + 5 * ConsecutiveDays({d1, d2})
  {
    PairSubjects(d1, d2);
    PairDays(d1, d2);
    PairRepeats(d1, d2);
  }

  lemma ConsecutiveDaysExamples()
    ensures ConsecutiveDays({Mon, Tue}) == 1 && ConsecutiveDays({Mon, Wed}) == 0 && ConsecutiveDays({Mon}) == 0
  {
    assert Days[0] == Mon && Days[1] == Tue && Days[2] == Wed && Days[3] == Thu && Days[4] == Fri;
    var mt, mw, m := {Mon, Tue}, {Mon, Wed}, {Mon};
    assert AdjacentDays(mt, 2) == 1 && AdjacentDays(mt, 3) == 1 && AdjacentDays(mt, 4) == 1;
    assert AdjacentDays(mw, 2) == 0 && AdjacentDays(mw, 3) == 0 && AdjacentDays(mw, 4) == 0;
    assert AdjacentDays(m, 2) == 0 && AdjacentDays(m, 3) == 0 && AdjacentDays(m, 4) == 0;
  }

  /** A subject with one block on Monday and one on Tuesday costs 5. */
  lemma NeighbourDaysCostFive()
    ensures DistributionTotal(Pair(Mon, Tue)) == 5
  {
    ConsecutiveDaysExamples();
    PairTotal(Mon, Tue);
  }

  /** One block on Monday and one on Wednesday cost nothing. */
  lemma SpreadDaysCostNothing()
    ensures DistributionTotal(Pair(Mon, Wed)) == 0
  {
    ConsecutiveDaysExamples();
    PairTotal(Mon, Wed);
  }

  /** Two blocks on Monday cost 1, for the second block: every block counts
      2 hours, so a second block on a day passes the 3-hour limit. */
  lemma SameDayCostsOne()
    ensures DistributionTotal(Pair(Mon, Mon)) == 1
  {
    ConsecutiveDaysExamples();
    PairTotal(Mon, Mon);
    assert {Mon, Mon} == {Mon};
  }
}
