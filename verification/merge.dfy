/**
 * The merge and slicing rules of the aggregation engine
 * (`mergeTodayCourses`, `mergeWeekCourses` and the filters that
 * `cacheGroupsTodayCourses` / `cacheGroupsWeekCourses` store).
 */
module Merge {
  import opened Wrappers
  import opened Courses

  /** The courses of `list` whose identifier is not in `seen`, in order:
      `list.filter((course) => !merged.some((c) => c._id === course._id))`. */
  function Fresh(list: seq<Course>, seen: set<string>): (r: seq<Course>)
    ensures forall c :: c in r <==> c in list && c.id !in seen
    ensures |r| <= |list|
  {
    if list == [] then []
    else (if list[0].id in seen then [] else [list[0]]) + Fresh(list[1..], seen)
  }

  lemma FreshIds(list: seq<Course>, seen: set<string>)
    ensures Ids(Fresh(list, seen)) == Ids(list) - seen
  {
    var r := Fresh(list, seen);
    forall x | x in Ids(list) - seen ensures x in Ids(r) {
      var c :| c in list && c.id == x;
      assert c in r;
    }
  }

  lemma IdsConcat(a: seq<Course>, b: seq<Course>)
    ensures Ids(a + b) == Ids(a) + Ids(b)
  {
    forall x | x in Ids(a + b) ensures x in Ids(a) + Ids(b) {
      var c :| c in a + b && c.id == x;
    }
    forall x | x in Ids(a) + Ids(b) ensures x in Ids(a + b) {
      if x in Ids(a) {
        var c :| c in a && c.id == x;
        assert c in a + b;
      } else {
        var c :| c in b && c.id == x;
        assert c in a + b;
      }
    }
  }

  /** What the loop of `mergeTodayCourses` has accumulated after the given
      lists, before the final sort: undefined lists are skipped and each list
      contributes the courses whose identifier nothing earlier carried. */
  function Kept(lists: seq<Option<seq<Course>>>): seq<Course> {
    if |lists| == 0 then [] else KeepStep(Kept(lists[..|lists| - 1]), lists[|lists| - 1])
  }

  /** One turn of the loop: an undefined list changes nothing. */
  function KeepStep(merged: seq<Course>, list: Option<seq<Course>>): seq<Course> {
    if list.None? then merged else merged + Fresh(list.value, Ids(merged))
  }

  /** The identifiers carried by the defined lists. */
  function AllIds(lists: seq<Option<seq<Course>>>): set<string> {
    if |lists| == 0 then {} else AllIds(lists[..|lists| - 1]) + ListIds(lists[|lists| - 1])
  }

  function ListIds(list: Option<seq<Course>>): set<string> {
    if list.None? then {} else Ids(list.value)
  }

  predicate DistinctIds(s: seq<Course>) {
    forall i, j :: 0 <= i < j < |s| ==> s[i].id != s[j].id
  }

  /** `mergeTodayCourses`: the courses of the defined lists, each identifier
      contributed by the first list that carries it, sorted by start time. */
  method MergeTodayCourses(courses: seq<Option<seq<Course>>>) returns (merged: seq<Course>)
    ensures merged == SortByStart(Kept(courses))
    ensures SortedByStart(merged)
    ensures multiset(merged) == multiset(Kept(courses))
  {
    merged := [];
    var i := 0;
    while i < |courses|
      invariant 0 <= i <= |courses|
      invariant merged == Kept(courses[..i])
    {
      assert courses[..i + 1][..i] == courses[..i];
      match courses[i] {
        case None =>
        case Some(list) =>
          merged := merged + Fresh(list, Ids(merged));
      }
      i := i + 1;
    }
    assert courses[..i] == courses;
    merged := SortByStart(merged);
  }

  /** No identifier is lost: the merged courses carry exactly the
      identifiers of the defined lists. */
  lemma {:induction false} KeptIds(lists: seq<Option<seq<Course>>>)
    ensures Ids(Kept(lists)) == AllIds(lists)
  {
    if |lists| > 0 {
      var init := lists[..|lists| - 1];
      KeptIds(init);
      match lists[|lists| - 1] {
        case None =>
        case Some(list) =>
          var m := Kept(init);
          IdsConcat(m, Fresh(list, Ids(m)));
          FreshIds(list, Ids(m));
      }
    }
  }

  /** First seen wins: every merged course comes from the first defined list
      that carries its identifier. */
  lemma {:induction false} KeptFirstSeen(lists: seq<Option<seq<Course>>>, c: Course)
    requires c in Kept(lists)
    ensures exists j :: (0 <= j < |lists| && lists[j].Some? && c in lists[j].value &&
      c.id !in AllIds(lists[..j]))
  {
    var n := |lists|;
    var init := lists[..n - 1];
    var m := Kept(init);
    if c in m {
      KeptFirstSeen(init, c);
      var j :| 0 <= j < |init| && init[j].Some? && c in init[j].value &&
        c.id !in AllIds(init[..j]);
      assert init[..j] == lists[..j];
    } else {
      KeptIds(init);
      assert init == lists[..n - 1];
    }
  }

  /** Nothing with a new identifier is dropped: a course of a defined list
      whose identifier no earlier list carries is in the merge, even when the
      same list carries that identifier twice. */
  lemma {:induction false} KeptComplete(lists: seq<Option<seq<Course>>>, j: nat, c: Course)
    requires j < |lists| && lists[j].Some? && c in lists[j].value
    requires c.id !in AllIds(lists[..j])
    ensures c in Kept(lists)
    decreases |lists|
  {
    var n := |lists|;
    var init := lists[..n - 1];
    var m := Kept(init);
    assert Kept(lists) == KeepStep(m, lists[n - 1]);
    if j == n - 1 {
      KeptIds(init);
      assert init == lists[..j];
      assert c in Fresh(lists[j].value, Ids(m));
    } else {
      assert init[..j] == lists[..j];
      KeptComplete(init, j, c);
    }
  }

  lemma {:induction false} FreshDistinct(list: seq<Course>, seen: set<string>)
    requires DistinctIds(list)
    ensures DistinctIds(Fresh(list, seen))
  {
    if list != [] {
      FreshDistinct(list[1..], seen);
      var rest := Fresh(list[1..], seen);
      if list[0].id !in seen {
        forall k | 0 <= k < |rest| ensures rest[k].id != list[0].id {
          assert rest[k] in list[1..];
        }
      }
    }
  }

  /** The dedup invariant: when no single list repeats an identifier, the
      merge holds each identifier once. */
  lemma {:induction false} KeptDistinct(lists: seq<Option<seq<Course>>>)
    requires forall j :: 0 <= j < |lists| && lists[j].Some? ==> DistinctIds(lists[j].value)
    ensures DistinctIds(Kept(lists))
  {
    if |lists| > 0 {
      var init := lists[..|lists| - 1];
      KeptDistinct(init);
      match lists[|lists| - 1] {
        case None =>
        case Some(list) =>
          var m := Kept(init);
          var f := Fresh(list, Ids(m));
          FreshDistinct(list, Ids(m));
          forall i, k | 0 <= i < |m| && 0 <= k < |f| ensures m[i].id != f[k].id {
            assert m[i] in m;
            assert f[k] in f;
          }
          DistinctConcat(m, f);
      }
    }
  }

  /** Two lists without repeated identifiers and with no identifier in
      common concatenate to a list without repeats. */
  lemma DistinctConcat(m: seq<Course>, f: seq<Course>)
    requires DistinctIds(m) && DistinctIds(f)
    requires forall i, k :: 0 <= i < |m| && 0 <= k < |f| ==> m[i].id != f[k].id
    ensures DistinctIds(m + f)
  {
    var r := m + f;
    forall i, k | 0 <= i < k < |r| ensures r[i].id != r[k].id {
      if k < |m| {
        assert r[i] == m[i] && r[k] == m[k];
      } else if i >= |m| {
        assert r[i] == f[i - |m|] && r[k] == f[k - |m|];
      } else {
        assert r[i] == m[i] && r[k] == f[k - |m|];
      }
    }
  }

  lemma FreshNone(list: seq<Course>)
    ensures Fresh(list, {}) == list
  {
  }

  lemma {:induction false} FreshAllSeen(list: seq<Course>, seen: set<string>)
    requires Ids(list) <= seen
    ensures Fresh(list, seen) == []
  {
    if list != [] {
      assert list[0] in list;
      assert Ids(list[1..]) <= Ids(list) by {
        forall x | x in Ids(list[1..]) ensures x in Ids(list) {
          var c :| c in list[1..] && c.id == x;
          assert c in list;
        }
      }
      FreshAllSeen(list[1..], seen);
    }
  }

  /** Merge idempotence: merging a list with itself gives that list, sorted;
      a list that is already sorted comes back unchanged. */
  lemma MergeSelf(list: seq<Course>)
    ensures Kept([Some(list), Some(list)]) == list
    ensures SortedByStart(list) ==> SortByStart(Kept([Some(list), Some(list)])) == list
  {
    var one := [Some(list)];
    var ls := one + one;
    FreshNone(list);
    assert one[..0] == [];
    assert Ids([]) == {};
    assert Kept(one) == KeepStep([], Some(list)) == list;
    assert ls[..|ls| - 1] == one;
    FreshAllSeen(list, Ids(list));
    assert Kept(ls) == KeepStep(list, Some(list)) == list;
    assert ls == [Some(list), Some(list)];
    if SortedByStart(list) {
      SortSorted(list);
    }
  }

  /** A merge ignores undefined entries wherever they stand. */
  lemma {:induction false} KeptSkipsUndefined(lists: seq<Option<seq<Course>>>, i: nat)
    requires i <= |lists|
    ensures Kept(lists[..i] + [None] + lists[i..]) == Kept(lists)
    decreases |lists|
  {
    var ext := lists[..i] + [None] + lists[i..];
    if i == |lists| {
      assert ext[..|ext| - 1] == lists;
    } else {
      var n := |lists|;
      var init := lists[..n - 1];
      KeptSkipsUndefined(init, i);
      assert init[..i] == lists[..i];
      assert init[i..] == lists[i..n - 1];
      assert ext[..|ext| - 1] == init[..i] + [None] + init[i..];
      assert ext[|ext| - 1] == lists[n - 1];
    }
  }

  // ---------------------------------------------------------------------
  // Weeks

  /** Why `mergeWeekCourses` throws: an empty argument ("No weeks to merge"),
      or a later week with fewer days than the accumulated one, whose missing
      `week.days[i]` the source dereferences. */
  datatype MergeError = NoWeeksToMerge | MissingDay

  /** Day `i` of a merge: the accumulated day's courses followed by the new
      day's courses with unseen identifiers, re-sorted by start time. */
  function MergeDay(day: Day, other: Day): Day {
    day.(courses := SortByStart(day.courses + Fresh(other.courses, Ids(day.courses))))
  }

  function MergeInto(acc: Week, week: Week): Result<Week, MergeError> {
    if |week.days| < |acc.days| then Err(MissingDay)
    else
      Ok(acc.(days := seq(|acc.days|, i requires 0 <= i < |acc.days| => MergeDay(acc.days[i], week.days[i]))))
  }

  /** The `reduce` of `mergeWeekCourses`, started from `undefined`. */
  function FoldWeeks(weeks: seq<Option<Week>>): Result<Option<Week>, MergeError> {
    if |weeks| == 0 then Ok(None) else FoldStep(FoldWeeks(weeks[..|weeks| - 1]), weeks[|weeks| - 1])
  }

  /** One call of the reducer: the first defined week becomes the
      accumulator, later ones are merged into it, `undefined` is skipped. */
  function FoldStep(acc: Result<Option<Week>, MergeError>, week: Option<Week>): Result<Option<Week>, MergeError> {
    match acc
    case Err(e) => Err(e)
    case Ok(None) => Ok(week)
    case Ok(Some(a)) =>
      match week
      case None => Ok(Some(a))
      case Some(w) =>
        match MergeInto(a, w)
        case Err(e) => Err(e)
        case Ok(m) => Ok(Some(m))
  }

  /** `mergeWeekCourses`. */
  function MergeWeekCourses(weeks: seq<Option<Week>>): Result<Option<Week>, MergeError> {
    if |weeks| == 0 then Err(NoWeeksToMerge) else FoldWeeks(weeks)
  }

  /** The defined weeks, in order. */
  function Defined(weeks: seq<Option<Week>>): (r: seq<Week>)
    ensures |r| <= |weeks|
  {
    if |weeks| == 0 then []
    else
      Defined(weeks[..|weeks| - 1]) +
      match weeks[|weeks| - 1]
      case None => []
      case Some(w) => [w]
  }

  /** Every defined week has at least as many days as the first one. */
  predicate LongEnough(defined: seq<Week>)
    requires defined != []
  {
    forall k :: 0 <= k < |defined| ==> |defined[0].days| <= |defined[k].days|
  }

  /** Day `i` of every week, as the list argument of a today-merge. */
  function DayLists(weeks: seq<Option<Week>>, i: nat): (r: seq<Option<seq<Course>>>)
    ensures |r| == |weeks|
  {
    seq(|weeks|, k requires 0 <= k < |weeks| => DayList(weeks[k], i))
  }

  function DayList(week: Option<Week>, i: nat): Option<seq<Course>> {
    if week.Some? && i < |week.value.days| then Some(week.value.days[i].courses) else None
  }

  /** The outcome of `mergeWeekCourses`: it throws on an empty argument,
      gives `undefined` when no week is defined, throws when a later week is
      shorter than the first defined one, and otherwise keeps the first
      defined week's dates, day count and day dates. */
  lemma {:induction false} MergeWeekShape(weeks: seq<Option<Week>>)
    ensures weeks == [] ==> MergeWeekCourses(weeks) == Err(NoWeeksToMerge)
    ensures weeks != [] && Defined(weeks) == [] ==> MergeWeekCourses(weeks) == Ok(None)
    ensures weeks != [] && Defined(weeks) != [] ==>
      (MergeWeekCourses(weeks).Ok? <==> LongEnough(Defined(weeks)))
    ensures weeks != [] && Defined(weeks) != [] && LongEnough(Defined(weeks)) ==>
      MergeWeekCourses(weeks).value.Some? &&
      var w, first := MergeWeekCourses(weeks).value.value, Defined(weeks)[0];
      w.start == first.start && w.end == first.end && |w.days| == |first.days| &&
      forall i :: 0 <= i < |w.days| ==> w.days[i].date == first.days[i].date
  {
    if weeks != [] {
      FoldShape(weeks);
    }
  }

  lemma {:induction false} FoldShape(weeks: seq<Option<Week>>)
    ensures Defined(weeks) == [] ==> FoldWeeks(weeks) == Ok(None)
    ensures Defined(weeks) != [] ==> (FoldWeeks(weeks).Ok? <==> LongEnough(Defined(weeks)))
    ensures Defined(weeks) != [] && LongEnough(Defined(weeks)) ==>
      FoldWeeks(weeks).value.Some? &&
      var w, first := FoldWeeks(weeks).value.value, Defined(weeks)[0];
      w.start == first.start && w.end == first.end && |w.days| == |first.days| &&
      forall i :: 0 <= i < |w.days| ==> w.days[i].date == first.days[i].date
  {
    if |weeks| > 0 {
      var init := weeks[..|weeks| - 1];
      FoldShape(init);
      var d := Defined(init);
      match weeks[|weeks| - 1] {
        case None =>
          assert Defined(weeks) == d;
        case Some(week) =>
          assert Defined(weeks) == d + [week];
          if d != [] {
            var all := d + [week];
            assert LongEnough(all) <==> LongEnough(d) && |d[0].days| <= |week.days| by {
              if LongEnough(d) && |d[0].days| <= |week.days| {
                forall k | 0 <= k < |all| ensures |all[0].days| <= |all[k].days| {
                  if k < |d| { assert all[k] == d[k]; }
                }
              }
              if LongEnough(all) {
                forall k | 0 <= k < |d| ensures |d[0].days| <= |d[k].days| {
                  assert all[k] == d[k];
                }
                assert all[|d|] == week;
              }
            }
          }
      }
    }
  }

  /** Week merge agrees with today merge: day `i` of a merged week holds
      exactly the courses a today-merge of every week's day `i` keeps. */
  lemma {:induction false} MergeWeekDayIsTodayMerge(weeks: seq<Option<Week>>, i: nat)
    requires MergeWeekCourses(weeks).Ok? && MergeWeekCourses(weeks).value.Some?
    requires i < |MergeWeekCourses(weeks).value.value.days|
    ensures multiset(MergeWeekCourses(weeks).value.value.days[i].courses) ==
      multiset(Kept(DayLists(weeks, i)))
  {
    FoldDay(weeks, i);
  }

  lemma {:induction false} KeptAllUndefined(lists: seq<Option<seq<Course>>>)
    requires forall k :: 0 <= k < |lists| ==> lists[k].None?
    ensures Kept(lists) == []
  {
    if |lists| > 0 {
      KeptAllUndefined(lists[..|lists| - 1]);
    }
  }

  lemma {:induction false} FoldNoneUndefined(weeks: seq<Option<Week>>)
    requires FoldWeeks(weeks) == Ok(None)
    ensures forall k :: 0 <= k < |weeks| ==> weeks[k].None?
  {
    if |weeks| > 0 {
      var init := weeks[..|weeks| - 1];
      match FoldWeeks(init) {
        case Ok(None) =>
          FoldNoneUndefined(init);
          forall k | 0 <= k < |weeks| ensures weeks[k].None? {
            if k < |init| { assert weeks[k] == init[k]; }
          }
        case Ok(Some(_)) =>
        case Err(_) =>
      }
    }
  }

  lemma {:induction false} FoldDay(weeks: seq<Option<Week>>, i: nat)
    requires FoldWeeks(weeks).Ok? && FoldWeeks(weeks).value.Some?
    requires i < |FoldWeeks(weeks).value.value.days|
    ensures multiset(FoldWeeks(weeks).value.value.days[i].courses) ==
      multiset(Kept(DayLists(weeks, i)))
  {
    var n := |weeks|;
    var init := weeks[..n - 1];
    var lists := DayLists(weeks, i);
    assert lists[..n - 1] == DayLists(init, i);
    var k := Kept(DayLists(init, i));
    assert Kept(lists) == KeepStep(k, DayList(weeks[n - 1], i));
    var acc := FoldWeeks(init);
    if acc == Ok(None) {
      FoldNoneUndefined(init);
      KeptAllUndefined(DayLists(init, i));
      assert FoldWeeks(weeks) == Ok(weeks[n - 1]);
      var c := weeks[n - 1].value.days[i].courses;
      FreshNone(c);
      assert Ids([]) == {};
      assert Kept(lists) == [] + Fresh(c, {}) == c;
    } else {
      FoldDay(init, i);
      if weeks[n - 1].Some? {
        FoldDayStep(acc.value.value, weeks[n - 1].value, i, k);
      }
    }
  }

  lemma FoldDayStep(acc: Week, week: Week, i: nat, k: seq<Course>)
    requires MergeInto(acc, week).Ok? && i < |acc.days|
    requires multiset(acc.days[i].courses) == multiset(k)
    ensures i < |week.days|
    ensures multiset(MergeInto(acc, week).value.days[i].courses) ==
      multiset(k + Fresh(week.days[i].courses, Ids(k)))
  {
    var a := acc.days[i].courses;
    SameIdsOfPermutation(a, k);
    assert MergeInto(acc, week).value.days[i] == MergeDay(acc.days[i], week.days[i]);
  }

  /** The sort invariant of weeks: once two weeks have been merged, every
      day of the result is sorted by start time. */
  lemma {:induction false} MergeWeekSorted(weeks: seq<Option<Week>>)
    requires |Defined(weeks)| >= 2
    requires MergeWeekCourses(weeks).Ok?
    ensures MergeWeekCourses(weeks).value.Some?
    ensures forall i :: 0 <= i < |MergeWeekCourses(weeks).value.value.days| ==>
      SortedByStart(MergeWeekCourses(weeks).value.value.days[i].courses)
  {
    FoldSorted(weeks);
  }

  lemma {:induction false} FoldSorted(weeks: seq<Option<Week>>)
    requires |Defined(weeks)| >= 2
    requires FoldWeeks(weeks).Ok?
    ensures FoldWeeks(weeks).value.Some?
    ensures forall i :: 0 <= i < |FoldWeeks(weeks).value.value.days| ==>
      SortedByStart(FoldWeeks(weeks).value.value.days[i].courses)
  {
    var n := |weeks|;
    var init := weeks[..n - 1];
    FoldShape(init);
    match weeks[n - 1] {
      case None =>
        assert Defined(weeks) == Defined(init);
        FoldSorted(init);
      case Some(week) =>
        assert Defined(weeks) == Defined(init) + [week];
        if |Defined(init)| >= 2 {
          FoldSorted(init);
        }
    }
  }

  // ---------------------------------------------------------------------
  // Per-group slices stored in the cache

  /** `courses.filter((c) => c.groups.includes(group))`. */
  function CoursesOfGroup(courses: seq<Course>, group: string): (r: seq<Course>)
    ensures forall c :: c in r <==> c in courses && group in c.groups
    ensures |r| <= |courses|
  {
    if courses == [] then []
    else (if group in courses[0].groups then [courses[0]] else []) + CoursesOfGroup(courses[1..], group)
  }

  /** A slice keeps the order of the list it is cut from, so the slice of a
      sorted list is sorted. */
  lemma {:induction false} SliceSorted(courses: seq<Course>, group: string)
    requires SortedByStart(courses)
    ensures SortedByStart(CoursesOfGroup(courses, group))
  {
    if courses != [] {
      SliceSorted(courses[1..], group);
      var rest := CoursesOfGroup(courses[1..], group);
      forall k | 0 <= k < |rest| ensures courses[0].beginning <= rest[k].beginning {
        assert rest[k] in courses[1..];
      }
    }
  }

  /** Slicing a slice again for the same group changes nothing. */
  lemma {:induction false} SliceIdempotent(courses: seq<Course>, group: string)
    ensures CoursesOfGroup(CoursesOfGroup(courses, group), group) == CoursesOfGroup(courses, group)
  {
    if courses != [] {
      SliceIdempotent(courses[1..], group);
      var rest := CoursesOfGroup(courses[1..], group);
      if group in courses[0].groups {
        assert CoursesOfGroup(courses, group) == [courses[0]] + rest;
        assert ([courses[0]] + rest)[1..] == rest;
      } else {
        assert CoursesOfGroup(courses, group) == rest;
      }
    }
  }

  /** The week stored for one group: same dates and days, each day's
      courses cut down to the group's. */
  function WeekOfGroup(week: Week, group: string): (r: Week)
    ensures r.start == week.start && r.end == week.end && |r.days| == |week.days|
    ensures forall i :: 0 <= i < |r.days| ==>
      r.days[i].date == week.days[i].date &&
      r.days[i].courses == CoursesOfGroup(week.days[i].courses, group)
  {
    week.(days := seq(|week.days|, i requires 0 <= i < |week.days| =>
      week.days[i].(courses := CoursesOfGroup(week.days[i].courses, group))))
  }
}
