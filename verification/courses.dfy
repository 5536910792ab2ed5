/**
 * The records the portal session extracts (`Course`, `Week` and its days)
 * and the ordering every merged list is put in: `Array.prototype.sort`
 * with the comparator `a.time.beginning - b.time.beginning`, which is a
 * stable sort by start time.
 */
module Courses {
  import opened Wrappers

  /** One calendar entry. Times are minutes since midnight of the day the
      entry belongs to; `id` is the portal's `data-event-id`. */
  datatype Course = Course(
    id: string,
    beginning: int,
    end: int,
    subject: string,
    teachers: seq<string>,
    rooms: seq<string>,
    campus: seq<string>,
    groups: seq<string>,
    zoom: Option<string>)

  /** One day column of the week view; `date` is its `data-date`. */
  datatype Day = Day(courses: seq<Course>, date: string)

  /** The week view: its first and last dates and one entry per day. */
  datatype Week = Week(start: string, end: string, days: seq<Day>)

  predicate SortedByStart(s: seq<Course>) {
    forall i, j :: 0 <= i < j < |s| ==> s[i].beginning <= s[j].beginning
  }

  /** The identifiers occurring in a list of courses. */
  function Ids(s: seq<Course>): set<string> {
    set c | c in s :: c.id
  }

  /** `c` put into the sorted list `s` after every course that starts no
      later than it: one step of a stable insertion sort. */
  function Insert(c: Course, s: seq<Course>): (r: seq<Course>)
    ensures multiset(r) == multiset(s) + multiset{c}
    ensures |r| == |s| + 1
    ensures r[0] == c || (s != [] && r[0] == s[0])
  {
    if s == [] then [c]
    else if c.beginning < s[0].beginning then [c] + s
    else
      assert s == [s[0]] + s[1..];
      [s[0]] + Insert(c, s[1..])
  }

  /** Inserting into a sorted list keeps it sorted. */
  lemma {:induction false} InsertSorted(c: Course, s: seq<Course>)
    requires SortedByStart(s)
    ensures SortedByStart(Insert(c, s))
  {
    if s == [] {
    } else if c.beginning < s[0].beginning {
      SortedCons(c, s);
    } else {
      InsertSorted(c, s[1..]);
      SortedCons(s[0], Insert(c, s[1..]));
    }
  }

  /** A course that starts no later than the head of a sorted list can be
      put in front of it. */
  lemma SortedCons(x: Course, t: seq<Course>)
    requires SortedByStart(t)
    requires t != [] ==> x.beginning <= t[0].beginning
    ensures SortedByStart([x] + t)
  {
    var r := [x] + t;
    forall i, j | 0 <= i < j < |r| ensures r[i].beginning <= r[j].beginning {
      if i == 0 {
        assert r[j] == t[j - 1];
      } else {
        assert r[i] == t[i - 1] && r[j] == t[j - 1];
      }
    }
  }

  /** The list sorted by start time, courses that start together keeping
      their order. */
  function SortByStart(s: seq<Course>): (r: seq<Course>)
    ensures SortedByStart(r)
    ensures multiset(r) == multiset(s)
    ensures |r| == |s|
  {
    if s == [] then []
    else
      assert s == s[..|s| - 1] + [s[|s| - 1]];
      InsertSorted(s[|s| - 1], SortByStart(s[..|s| - 1]));
      Insert(s[|s| - 1], SortByStart(s[..|s| - 1]))
  }

  /** Inserting a course that starts no earlier than everything in a
      sorted list appends it. */
  lemma {:induction false} InsertLast(c: Course, s: seq<Course>)
    requires SortedByStart(s)
    requires forall k :: 0 <= k < |s| ==> s[k].beginning <= c.beginning
    ensures Insert(c, s) == s + [c]
  {
    if s != [] {
      assert s[0].beginning <= c.beginning;
      InsertLast(c, s[1..]);
      assert [s[0]] + (s[1..] + [c]) == s + [c];
    }
  }

  /** Sorting an already sorted list changes nothing, so sorting is
      idempotent. */
  lemma {:induction false} SortSorted(s: seq<Course>)
    requires SortedByStart(s)
    ensures SortByStart(s) == s
  {
    if s != [] {
      var init := s[..|s| - 1];
      SortSorted(init);
      InsertLast(s[|s| - 1], init);
      assert init + [s[|s| - 1]] == s;
    }
  }

  /** A permutation has the same identifiers. */
  lemma SameIdsOfPermutation(a: seq<Course>, b: seq<Course>)
    requires multiset(a) == multiset(b)
    ensures Ids(a) == Ids(b)
  {
    forall x | x in Ids(a) ensures x in Ids(b) {
      var c :| c in a && c.id == x;
      assert c in multiset(a);
    }
    forall x | x in Ids(b) ensures x in Ids(a) {
      var c :| c in b && c.id == x;
      assert c in multiset(b);
    }
  }
}
