/** The rule for subjects with an odd number of hours per week
    (`calculate_odd_hours_penalty`): such a subject should have exactly one
    3-hour day and `(hours - 3) / 2` 2-hour days. Every block is tallied as 2
    hours, so no day ever reaches 3 and the 10 for a missing 3-hour day is
    always charged. */
module OddHoursPenalty {
  import opened ScheduleData
  import opened Collections
  import opened HourPenalties

  /** The first loop: 2 hours per block on every (subject, day). */
  method TallySubjectDayHours(a: seq<Assignment>) returns (subjectHoursPerDay: Dict<SubjectDay, int>)
    ensures subjectHoursPerDay == TwoHourTable(SubjectDays(a))
  {
    subjectHoursPerDay := EmptyDict();
    for i := 0 to |a|
      invariant subjectHoursPerDay == TwoHourTable(SubjectDays(a[..i]))
    {
      var key := SubjectDay(a[i].subjectId, a[i].day);
      if key !in subjectHoursPerDay.entries {
        subjectHoursPerDay := subjectHoursPerDay.Put(key, 0);
      }
      subjectHoursPerDay := subjectHoursPerDay.Put(key, subjectHoursPerDay.entries[key] + 2);
      SubjectDaysSnoc(a, i);
    }
    WholePrefix(a);
  }

  /** Every key has a tally. */
  predicate Tallied(t: Dict<SubjectDay, int>, keys: seq<SubjectDay>) {
    forall j :: 0 <= j < |keys| ==> keys[j] in t.entries
  }

  /** The tallies of the keys of subject `s`, in the order of `keys`. */
  function HoursOf(t: Dict<SubjectDay, int>, keys: seq<SubjectDay>, s: int): seq<int>
    requires Tallied(t, keys)
  {
    if keys == [] then []
    else
      var k := keys[|keys| - 1];
      HoursOf(t, keys[..|keys| - 1], s) + (if k.subjectId == s then [t.entries[k]] else [])
  }

  /** `subject_total_hours[subject_id].append(hours)` after the list was
      created if it was missing. */
  function AppendHours(d: Dict<int, seq<int>>, s: int, hours: int): Dict<int, seq<int>> {
    var d1 := if s !in d.entries then d.Put(s, []) else d;
    d1.Put(s, d1.entries[s] + [hours])
  }

  /** The `subject_total_hours` dict after the second loop has seen `keys`. */
  function HoursLists(t: Dict<SubjectDay, int>, keys: seq<SubjectDay>): Dict<int, seq<int>>
    requires Tallied(t, keys)
  {
    if keys == [] then EmptyDict()
    else
      var k := keys[|keys| - 1];
      AppendHours(HoursLists(t, keys[..|keys| - 1]), k.subjectId, t.entries[k])
  }

  lemma AppendHoursTracks(d: Dict<int, seq<int>>, subjectKeys: seq<int>, s: int, hours: int)
    requires Tracks(d, subjectKeys)
    ensures Tracks(AppendHours(d, s, hours), subjectKeys + [s])
  {
    var d1 := if s !in d.entries then d.Put(s, []) else d;
    TracksUpsert(d, subjectKeys, s, [], d1.entries[s] + [hours]);
  }

  lemma {:induction false} HoursListsKeys(t: Dict<SubjectDay, int>, keys: seq<SubjectDay>)
    requires Tallied(t, keys)
    ensures Tracks(HoursLists(t, keys), KeySubjects(keys))
  {
    if keys != [] {
      var n := |keys| - 1;
      var init, k := keys[..n], keys[n];
      assert Tallied(t, init);
      HoursListsKeys(t, init);
      assert KeySubjects(keys) == KeySubjects(init) + [k.subjectId];
      AppendHoursTracks(HoursLists(t, init), KeySubjects(init), k.subjectId, t.entries[k]);
    }
  }

  lemma {:induction false} HoursListsValues(t: Dict<SubjectDay, int>, keys: seq<SubjectDay>)
    requires Tallied(t, keys)
    ensures forall s :: s in HoursLists(t, keys).entries ==> HoursLists(t, keys).entries[s] == HoursOf(t, keys, s)
    ensures forall s :: s !in HoursLists(t, keys).entries ==> HoursOf(t, keys, s) == []
  {
    if keys != [] {
      HoursListsValues(t, keys[..|keys| - 1]);
    }
  }

  /** The second loop: the tallies of every subject, one per day, in the
      order of the tally. */
  method GroupHours(subjectHoursPerDay: Dict<SubjectDay, int>) returns (subjectTotalHours: Dict<int, seq<int>>)
    requires Tallied(subjectHoursPerDay, subjectHoursPerDay.order)
    ensures subjectTotalHours == HoursLists(subjectHoursPerDay, subjectHoursPerDay.order)
  {
    var order := subjectHoursPerDay.order;
    subjectTotalHours := EmptyDict();
    for j := 0 to |order|
      invariant subjectTotalHours == HoursLists(subjectHoursPerDay, order[..j])
    {
      var key := order[j];
      var hours := subjectHoursPerDay.entries[key];
      if key.subjectId !in subjectTotalHours.entries {
        subjectTotalHours := subjectTotalHours.Put(key.subjectId, []);
      }
      subjectTotalHours := subjectTotalHours.Put(key.subjectId, subjectTotalHours.entries[key.subjectId] + [hours]);
      PrefixStep(order, j);
    }
    WholePrefix(order);
  }

  /** What one subject with hour tallies `hours` per day costs: nothing for
      an even requirement; for an odd one, 10 unless exactly one day has 3
      hours, and 5 per 2-hour day more or fewer than `(required - 3) // 2`
      (`/` on a positive divisor rounds down, as `//` does). */
  function OddCost(hours: seq<int>, required: int): nat {
    if required % 2 != 0 then
      var threeHourDays := Count(hours, 3);
      var twoHourDays := Count(hours, 2);
      var expected := (required - 3) / 2;
      (if threeHourDays != 1 then 10 else 0) + (if twoHourDays != expected then 5 * Abs(twoHourDays - expected) else 0)
    else 0
  }

  lemma TableTallied(keys: seq<SubjectDay>)
    ensures TwoHourTable(keys).order == Distinct(keys)
    ensures Tallied(TwoHourTable(keys), TwoHourTable(keys).order)
  {
    TwoHourTableContents(keys);
    DistinctMembers(keys);
  }

  /** `subject_total_hours` after the second loop, for the blocks `a`. */
  function GroupedHours(a: seq<Assignment>): Dict<int, seq<int>> {
    TableTallied(SubjectDays(a));
    HoursLists(TwoHourTable(SubjectDays(a)), TwoHourTable(SubjectDays(a)).order)
  }

  /** The costs of the first `n` subjects of `ids`, each from its list in
      `lists`. */
  function OddSum(lists: map<int, seq<int>>, ids: seq<int>, n: nat, subjects: map<int, Subject>): nat
    requires n <= |ids| && forall j :: 0 <= j < |ids| ==> ids[j] in lists && ids[j] in subjects
  {
    if n == 0 then 0
    else OddSum(lists, ids, n - 1, subjects) + OddCost(lists[ids[n - 1]], subjects[ids[n - 1]].hoursPerWeek)
  }

  lemma SubjectsCovered(x: seq<SubjectDay>, y: seq<SubjectDay>, s: int)
    requires forall k :: k in x ==> k in y
    requires s in KeySubjects(x)
    ensures s in KeySubjects(y)
  {
    var i :| 0 <= i < |x| && KeySubjects(x)[i] == s;
    assert x[i] in x;
    var m :| 0 <= m < |y| && y[m] == x[i];
    assert KeySubjects(y)[m] == s;
  }

  /** The subjects in the order the grouping meets them: the order their
      first (subject, day) keys were tallied in. */
  function SubjectOrder(a: seq<Assignment>): seq<int> {
    Distinct(KeySubjects(Distinct(SubjectDays(a))))
  }

  /** Every subject met has a block. */
  lemma SubjectOrderHasBlock(a: seq<Assignment>, s: int)
    requires s in SubjectOrder(a)
    ensures exists i :: 0 <= i < |a| && a[i].subjectId == s
  {
    var keys := SubjectDays(a);
    DistinctMembers(keys);
    DistinctMembers(KeySubjects(Distinct(keys)));
    SubjectsCovered(Distinct(keys), keys, s);
    var i :| 0 <= i < |keys| && KeySubjects(keys)[i] == s;
    assert a[i].subjectId == s;
  }

  /** Every subject that has a block is met. */
  lemma BlockInSubjectOrder(a: seq<Assignment>, i: nat)
    requires i < |a|
    ensures a[i].subjectId in SubjectOrder(a)
  {
    var keys := SubjectDays(a);
    DistinctMembers(keys);
    DistinctMembers(KeySubjects(Distinct(keys)));
    assert KeySubjects(keys)[i] == a[i].subjectId;
    SubjectsCovered(keys, Distinct(keys), a[i].subjectId);
  }

  /** The subjects met are exactly those that have a block. */
  lemma SubjectOrderMembers(a: seq<Assignment>)
    ensures forall s :: s in SubjectOrder(a) <==> exists i :: 0 <= i < |a| && a[i].subjectId == s
  {
    forall s | s in SubjectOrder(a) ensures exists i :: 0 <= i < |a| && a[i].subjectId == s {
      SubjectOrderHasBlock(a, s);
    }
    forall i | 0 <= i < |a| ensures a[i].subjectId in SubjectOrder(a) {
      BlockInSubjectOrder(a, i);
    }
  }

  /** The grouped lists hold one list per subject that has a block, in the
      order of `SubjectOrder`. */
  lemma GroupedOrder(a: seq<Assignment>)
    ensures GroupedHours(a).order == SubjectOrder(a)
    ensures forall s :: s in GroupedHours(a).entries <==> s in SubjectOrder(a)
  {
    var t := TwoHourTable(SubjectDays(a));
    TableTallied(SubjectDays(a));
    HoursListsKeys(t, t.order);
    DistinctMembers(KeySubjects(t.order));
  }

  lemma GroupedKnown(a: seq<Assignment>, subjects: map<int, Subject>)
    requires SubjectsKnown(a, subjects)
    ensures forall j :: 0 <= j < |GroupedHours(a).order| ==>
      GroupedHours(a).order[j] in GroupedHours(a).entries && GroupedHours(a).order[j] in subjects
  {
    GroupedOrder(a);
    SubjectOrderMembers(a);
    var order := GroupedHours(a).order;
    forall j | 0 <= j < |order| ensures order[j] in GroupedHours(a).entries && order[j] in subjects {
      assert order[j] in SubjectOrder(a);
    }
  }

  /** The odd-hours penalty: the cost of every subject that has a block,
      once, from its grouped day tallies. */
  function OddTotal(a: seq<Assignment>, subjects: map<int, Subject>): nat
    requires SubjectsKnown(a, subjects)
  {
    GroupedKnown(a, subjects);
    OddSum(GroupedHours(a).entries, GroupedHours(a).order, |GroupedHours(a).order|, subjects)
  }

  /** The third loop of `calculate_odd_hours_penalty`: the cost of every
      grouped subject, in the grouping's order. */
  method SumOddCosts(subjectTotalHours: Dict<int, seq<int>>, subjects: map<int, Subject>) returns (penalty: int)
    requires forall j :: 0 <= j < |subjectTotalHours.order| ==>
      subjectTotalHours.order[j] in subjectTotalHours.entries && subjectTotalHours.order[j] in subjects
    ensures penalty == OddSum(subjectTotalHours.entries, subjectTotalHours.order, |subjectTotalHours.order|, subjects)
  {
    var order := subjectTotalHours.order;
    penalty := 0;
    for j := 0 to |order|
      invariant penalty == OddSum(subjectTotalHours.entries, order, j, subjects)
    {
      var subjectId := order[j];
      var hoursList := subjectTotalHours.entries[subjectId];
      var requiredHours := subjects[subjectId].hoursPerWeek;
      if requiredHours % 2 != 0 {
        var threeHourDays := Count(hoursList, 3);
        var twoHourDays := Count(hoursList, 2);
        if threeHourDays != 1 {
          penalty := penalty + 10;
        }
        var expectedTwoHourDays := (requiredHours - 3) / 2;
        if twoHourDays != expectedTwoHourDays {
          penalty := penalty + 5 * Abs(twoHourDays - expectedTwoHourDays);
        }
      }
    }
  }

  /** `calculate_odd_hours_penalty`. */
  method OddHoursPenalty(a: seq<Assignment>, subjects: map<int, Subject>) returns (penalty: int)
    requires SubjectsKnown(a, subjects)
    ensures penalty == OddTotal(a, subjects)
  {
    var subjectHoursPerDay := TallySubjectDayHours(a);
    assert Tallied(subjectHoursPerDay, subjectHoursPerDay.order) by {
      TableTallied(SubjectDays(a));
    }
    var subjectTotalHours := GroupHours(subjectHoursPerDay);
    assert subjectTotalHours == GroupedHours(a);
    GroupedKnown(a, subjects);
    penalty := SumOddCosts(subjectTotalHours, subjects);
  }

  lemma AllDays(d: Day)
    ensures d in Days
  {
    assert Days[DayOrder(d)] == d;
  }

  /** The days of subject `s` whose key in `keys` has a tally of 2. */
  function TwoHourDays(t: Dict<SubjectDay, int>, keys: seq<SubjectDay>, s: int): set<Day>
    requires Tallied(t, keys)
  {
    set d | d in Days && SubjectDay(s, d) in keys && t.entries[SubjectDay(s, d)] == 2
  }

  lemma HoursOfSnoc(t: Dict<SubjectDay, int>, init: seq<SubjectDay>, k: SubjectDay, s: int)
    requires Tallied(t, init + [k]) && k in t.entries
    ensures Tallied(t, init)
    ensures HoursOf(t, init + [k], s) == HoursOf(t, init, s) + (if k.subjectId == s then [t.entries[k]] else [])
  {
    var keys := init + [k];
    assert keys[..|init|] == init;
    assert forall j :: 0 <= j < |init| ==> init[j] == keys[j];
  }

  lemma TallyPrefix(t: Dict<SubjectDay, int>, init: seq<SubjectDay>, k: SubjectDay)
    requires Tallied(t, init + [k])
    ensures Tallied(t, init)
  {
    assert forall j :: 0 <= j < |init| ==> init[j] == (init + [k])[j];
  }

  /** A new key of `s` with a tally of 2 adds its day. */
  lemma TwoHourDaysGrow(t: Dict<SubjectDay, int>, init: seq<SubjectDay>, k: SubjectDay, s: int)
    requires Tallied(t, init + [k]) && Tallied(t, init) && NoDup(init + [k])
    requires k.subjectId == s && k in t.entries && t.entries[k] == 2
    ensures TwoHourDays(t, init + [k], s) == TwoHourDays(t, init, s) + {k.day}
    ensures k.day !in TwoHourDays(t, init, s)
  {
    NoDupSnoc(init, k);
    AllDays(k.day);
  }

  /** Any other new key leaves the days of `s` as they were. */
  lemma TwoHourDaysKeep(t: Dict<SubjectDay, int>, init: seq<SubjectDay>, k: SubjectDay, s: int)
    requires Tallied(t, init + [k]) && Tallied(t, init) && k in t.entries
    requires !(k.subjectId == s && t.entries[k] == 2)
    ensures TwoHourDays(t, init + [k], s) == TwoHourDays(t, init, s)
  {
  }

  lemma TwoHourDaysSnoc(t: Dict<SubjectDay, int>, init: seq<SubjectDay>, k: SubjectDay, s: int)
    requires Tallied(t, init + [k]) && k in t.entries && NoDup(init + [k])
    ensures Tallied(t, init)
    ensures |TwoHourDays(t, init + [k], s)| == |TwoHourDays(t, init, s)| + (if k.subjectId == s && t.entries[k] == 2 then 1 else 0)
  {
    TallyPrefix(t, init, k);
    if k.subjectId == s && t.entries[k] == 2 {
      TwoHourDaysGrow(t, init, k, s);
    } else {
      TwoHourDaysKeep(t, init, k, s);
    }
  }

  /** Over keys without repetitions whose tallies are even, a subject's list
      holds no 3 and one 2 per day with a tally of 2. */
  lemma {:induction false} HoursOfCounts(t: Dict<SubjectDay, int>, keys: seq<SubjectDay>, s: int)
    requires Tallied(t, keys) && NoDup(keys)
    requires forall j :: 0 <= j < |keys| ==> t.entries[keys[j]] % 2 == 0
    ensures Count(HoursOf(t, keys, s), 3) == 0
    ensures Count(HoursOf(t, keys, s), 2) == |TwoHourDays(t, keys, s)|
  {
    if keys != [] {
      var n := |keys| - 1;
      var init, k := keys[..n], keys[n];
      Snoc(keys);
      NoDupSnoc(init, k);
      HoursOfSnoc(t, init, k, s);
      TwoHourDaysSnoc(t, init, k, s);
      HoursOfCounts(t, init, s);
      var extra := if k.subjectId == s then [t.entries[k]] else [];
      CountConcat(HoursOf(t, init, s), extra, 3);
      CountConcat(HoursOf(t, init, s), extra, 2);
      assert Count(extra, 3) == 0 && Count(extra, 2) == (if k.subjectId == s && t.entries[k] == 2 then 1 else 0) by {
        if k.subjectId == s {
          var hours := t.entries[k];
          assert hours % 2 == 0 by {
            assert t.entries[keys[n]] % 2 == 0;
          }
          CountSingleton(hours, 3);
          CountSingleton(hours, 2);
        }
      }
    }
  }

  /** Every tally of the first loop is a multiple of 2. */
  lemma TalliesEven(keys: seq<SubjectDay>)
    ensures NoDup(TwoHourTable(keys).order)
    ensures forall j :: 0 <= j < |TwoHourTable(keys).order| ==>
      TwoHourTable(keys).order[j] in TwoHourTable(keys).entries && TwoHourTable(keys).entries[TwoHourTable(keys).order[j]] % 2 == 0
  {
    var t := TwoHourTable(keys);
    TwoHourTableContents(keys);
    DistinctMembers(keys);
    forall j | 0 <= j < |t.order| ensures t.order[j] in t.entries && t.entries[t.order[j]] % 2 == 0 {
      var c := Count(keys, t.order[j]);
      assert t.entries[t.order[j]] == 2 * c;
    }
  }

  /** The days on which subject `s` has exactly one block. */
  function OnceDays(a: seq<Assignment>, s: int): set<Day> {
    set d | d in Days && Count(SubjectDays(a), SubjectDay(s, d)) == 1
  }

  /** The days whose tally is 2 are the days with exactly one block. */
  lemma TwoHourDaysOnce(a: seq<Assignment>, s: int)
    ensures Tallied(TwoHourTable(SubjectDays(a)), TwoHourTable(SubjectDays(a)).order)
    ensures TwoHourDays(TwoHourTable(SubjectDays(a)), TwoHourTable(SubjectDays(a)).order, s) == OnceDays(a, s)
  {
    var keys := SubjectDays(a);
    var t := TwoHourTable(keys);
    TableTallied(keys);
    TwoHourTableContents(keys);
    DistinctMembers(keys);
    forall d ensures d in TwoHourDays(t, t.order, s) <==> d in OnceDays(a, s) {
      var k := SubjectDay(s, d);
      if Count(keys, k) == 1 {
        assert k in keys;
      }
    }
  }

  /** Every list the grouping builds counts no 3-hour day, because every
      block is tallied as 2 hours, and counts one 2-hour day per day on which
      the subject has exactly one block. */
  lemma GroupedHoursCounts(a: seq<Assignment>, s: int)
    requires s in GroupedHours(a).entries
    ensures Count(GroupedHours(a).entries[s], 3) == 0
    ensures Count(GroupedHours(a).entries[s], 2) == |OnceDays(a, s)|
  {
    var keys := SubjectDays(a);
    var t := TwoHourTable(keys);
    TableTallied(keys);
    assert GroupedHours(a).entries[s] == HoursOf(t, t.order, s) by {
      HoursListsValues(t, t.order);
    }
    TalliesEven(keys);
    HoursOfCounts(t, t.order, s);
    TwoHourDaysOnce(a, s);
  }

  /** What a subject that has a block costs, in closed form: nothing for an
      even requirement, and for an odd one always 10 (no day is ever
      tallied at 3 hours) plus 5 per day with one block more or fewer than
      `(required - 3) / 2`. */
  lemma OddSubjectCost(a: seq<Assignment>, s: int, required: int)
    requires s in GroupedHours(a).entries
    ensures OddCost(GroupedHours(a).entries[s], required) ==
      if required % 2 != 0 then 10 + 5 * Abs(|OnceDays(a, s)| - (required - 3) / 2) else 0
  {
    GroupedHoursCounts(a, s);
  }

  lemma {:induction false} OddSumZero(lists: map<int, seq<int>>, ids: seq<int>, n: nat, subjects: map<int, Subject>)
    requires n <= |ids| && forall j :: 0 <= j < |ids| ==> ids[j] in lists && ids[j] in subjects
    ensures OddSum(lists, ids, n, subjects) == 0 <==>
      forall j :: 0 <= j < n ==> OddCost(lists[ids[j]], subjects[ids[j]].hoursPerWeek) == 0
  {
    if n > 0 {
      OddSumZero(lists, ids, n - 1, subjects);
    }
  }

  /** The odd-hours penalty is 0 exactly when every subject that has a block
      has an even number of hours per week: an odd one always costs at least
      10. */
  lemma OddTotalZero(a: seq<Assignment>, subjects: map<int, Subject>)
    requires SubjectsKnown(a, subjects)
    ensures OddTotal(a, subjects) == 0 <==> forall i :: 0 <= i < |a| ==> subjects[a[i].subjectId].hoursPerWeek % 2 == 0
  {
    var g := GroupedHours(a);
    GroupedKnown(a, subjects);
    GroupedOrder(a);
    OddSumZero(g.entries, g.order, |g.order|, subjects);
    if forall i :: 0 <= i < |a| ==> subjects[a[i].subjectId].hoursPerWeek % 2 == 0 {
      forall j | 0 <= j < |g.order| ensures OddCost(g.entries[g.order[j]], subjects[g.order[j]].hoursPerWeek) == 0 {
        SubjectOrderHasBlock(a, g.order[j]);
      }
    } else {
      var i :| 0 <= i < |a| && subjects[a[i].subjectId].hoursPerWeek % 2 != 0;
      var s := a[i].subjectId;
      BlockInSubjectOrder(a, i);
      var j :| 0 <= j < |g.order| && g.order[j] == s;
      OddSubjectCost(a, s, subjects[s].hoursPerWeek);
    }
  }

  /** A 5-hour subject's 3-hour and 2-hour blocks, on Monday and Wednesday. */
  function FiveHourPlacement(): seq<Assignment> {
    [Lesson(7, Mon, 3), Lesson(7, Wed, 2)]
  }

  lemma FiveHourPlacementOrder()
    ensures SubjectOrder(FiveHourPlacement()) == [7]
  {
    var keys := SubjectDays(FiveHourPlacement());
    assert Distinct(keys) == keys by {
      assert keys == [SubjectDay(7, Mon)] + [SubjectDay(7, Wed)];
      assert [] + [SubjectDay(7, Mon)] == [SubjectDay(7, Mon)];
      DistinctSnoc([], SubjectDay(7, Mon));
      DistinctSnoc([SubjectDay(7, Mon)], SubjectDay(7, Wed));
    }
    assert KeySubjects(keys) == [7] + [7];
    assert Distinct([7] + [7]) == [7] by {
      assert [] + [7] == [7];
      DistinctSnoc([], 7);
      DistinctSnoc([7], 7);
    }
  }

  lemma FiveHourPlacementCounts(d: Day)
    ensures Count(SubjectDays(FiveHourPlacement()), SubjectDay(7, d)) == if d == Mon || d == Wed then 1 else 0
  {
    var keys := SubjectDays(FiveHourPlacement());
    assert keys == [SubjectDay(7, Mon)] + [SubjectDay(7, Wed)];
    assert [] + [SubjectDay(7, Mon)] == [SubjectDay(7, Mon)];
    CountSnoc([], SubjectDay(7, Mon), SubjectDay(7, d));
    CountSnoc([SubjectDay(7, Mon)], SubjectDay(7, Wed), SubjectDay(7, d));
  }

  lemma FiveHourPlacementOnceDays()
    ensures |OnceDays(FiveHourPlacement(), 7)| == 2
  {
    var once := OnceDays(FiveHourPlacement(), 7);
    forall d ensures d in once <==> d == Mon || d == Wed {
      AllDays(d);
      FiveHourPlacementCounts(d);
    }
    assert once == {Mon, Wed};
  }

  /** A 5-hour subject placed as its 3-hour and 2-hour blocks on Monday and
      Wednesday, the placement the rule asks for, still costs 15: 10 for the
      3-hour day that is never tallied, and 5 for two 2-hour days instead of
      one. */
  lemma IntendedPlacementCosts()
    ensures OddTotal(FiveHourPlacement(), map[7 := Subject(7, 1, false, 5)]) == 15
  {
    var a := FiveHourPlacement();
    FiveHourPlacementOrder();
    FiveHourPlacementOnceDays();
    GroupedOrder(a);
    OddSubjectCost(a, 7, 5);
  }
}
