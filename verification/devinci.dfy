/**
 * The schedule aggregation engine (`Devinci`): per-group slices stored in
 * the cache, the delegate ("representative") loops that scrape the groups
 * of several users at once, the control flow of a user's day, the choice
 * of the current and next course, and the presence cache.
 *
 * The database, the portal and the clock are inputs: `table` is the group
 * table with each group's verified members, `scrape` says what a portal
 * session of a user yields, and `now` is a time of day in minutes.
 */
module Devinci {
  import opened Wrappers
  import opened Errors
  import opened Users
  import opened Courses
  import opened Merge
  import opened Portail

  /** A group row with the users whose membership is verified (the relation
      the queries load with `usersToGroups.verified = true`). */
  datatype Group = Group(name: string, verified: bool, members: seq<User>)

  /** A response: its data and, when set, the `meta.unprocessed` names. */
  datatype Response<T> = Response(data: T, unprocessed: Option<seq<string>>)

  /** The cache of `cache.ts`: courses of the day and weeks by group name,
      presence statuses by course identifier. */
  class Cache {
    var today: map<string, seq<Course>>
    var week: map<string, Week>
    var presences: map<string, PresenceStatus>

    constructor()
      ensures today == map[] && week == map[] && presences == map[]
    {
      today, week, presences := map[], map[], map[];
    }
  }

  // ---------------------------------------------------------------------
  // Cache slicers

  /** `cacheGroupsTodayCourses(groupNames, courses)`: every listed group gets
      the courses that name it; other entries are untouched. */
  method CacheGroupsTodayCourses(cache: Cache, groupNames: seq<string>, courses: seq<Course>)
    modifies cache
    ensures TodaySliced(old(cache.today), cache.today, groupNames, courses)
    ensures cache.week == old(cache.week) && cache.presences == old(cache.presences)
  {
    var i := 0;
    while i < |groupNames|
      invariant 0 <= i <= |groupNames|
      invariant forall g :: g in groupNames[..i] ==> g in cache.today && cache.today[g] == CoursesOfGroup(courses, g)
      invariant forall g :: g !in groupNames[..i] ==>
        (g in cache.today <==> g in old(cache.today)) && (g in cache.today ==> cache.today[g] == old(cache.today)[g])
      invariant cache.week == old(cache.week) && cache.presences == old(cache.presences)
    {
      var group := groupNames[i];
      cache.today := cache.today[group := CoursesOfGroup(courses, group)];
      assert groupNames[..i + 1] == groupNames[..i] + [group];
      i := i + 1;
    }
    assert groupNames[..i] == groupNames;
  }

  /** `cacheGroupsWeekCourses(groupNames, week)`: every listed group gets the
      week cut down to its courses; other entries are untouched. */
  method CacheGroupsWeekCourses(cache: Cache, groupNames: seq<string>, week: Week)
    modifies cache
    ensures forall g :: g in groupNames ==> g in cache.week && cache.week[g] == WeekOfGroup(week, g)
    ensures forall g :: g !in groupNames ==>
      (g in cache.week <==> g in old(cache.week)) && (g in cache.week ==> cache.week[g] == old(cache.week)[g])
    ensures cache.today == old(cache.today) && cache.presences == old(cache.presences)
  {
    var i := 0;
    while i < |groupNames|
      invariant 0 <= i <= |groupNames|
      invariant forall g :: g in groupNames[..i] ==> g in cache.week && cache.week[g] == WeekOfGroup(week, g)
      invariant forall g :: g !in groupNames[..i] ==>
        (g in cache.week <==> g in old(cache.week)) && (g in cache.week ==> cache.week[g] == old(cache.week)[g])
      invariant cache.today == old(cache.today) && cache.presences == old(cache.presences)
    {
      var group := groupNames[i];
      cache.week := cache.week[group := WeekOfGroup(week, group)];
      assert groupNames[..i + 1] == groupNames[..i] + [group];
      i := i + 1;
    }
    assert groupNames[..i] == groupNames;
  }

  // ---------------------------------------------------------------------
  // Group selection and the representative

  /** The groups of `getGroupsTodayCourses`' query: listed and verified. */
  function SelectToday(table: seq<Group>, names: seq<string>): (r: seq<Group>)
    ensures |r| <= |table|
  {
    if table == [] then []
    else (if table[0].name in names && table[0].verified then [table[0]] else []) + SelectToday(table[1..], names)
  }

  lemma {:induction false} SelectTodayGroups(table: seq<Group>, names: seq<string>)
    ensures forall g :: g in SelectToday(table, names) <==> g in table && g.name in names && g.verified
  {
    if table != [] {
      SelectTodayGroups(table[1..], names);
      assert forall g :: g in table <==> g == table[0] || g in table[1..];
    }
  }

  /** The groups of `getGroupsWeekCourses`' query: listed, verified or not. */
  function SelectWeek(table: seq<Group>, names: seq<string>): (r: seq<Group>)
    ensures |r| <= |table|
  {
    if table == [] then []
    else (if table[0].name in names then [table[0]] else []) + SelectWeek(table[1..], names)
  }

  lemma {:induction false} SelectWeekGroups(table: seq<Group>, names: seq<string>)
    ensures forall g :: g in SelectWeek(table, names) <==> g in table && g.name in names
  {
    if table != [] {
      SelectWeekGroups(table[1..], names);
      assert forall g :: g in table <==> g == table[0] || g in table[1..];
    }
  }

  /** `group.users.some((u) => u.user._id === user._id)`. */
  predicate IsMember(u: User, g: Group) {
    HasId(g.members, u.id)
  }

  predicate HasId(members: seq<User>, id: string) {
    members != [] && (members[0].id == id || HasId(members[1..], id))
  }

  lemma {:induction false} HasIdOfMember(members: seq<User>, u: User)
    requires u in members
    ensures HasId(members, u.id)
  {
    if members[0] != u {
      HasIdOfMember(members[1..], u);
    }
  }

  /** The groups the user belongs to (`syncUserGroups`). */
  function Cover(selected: seq<Group>, u: User): (r: seq<Group>)
    ensures |r| <= |selected|
  {
    if selected == [] then []
    else (if IsMember(u, selected[0]) then [selected[0]] else []) + Cover(selected[1..], u)
  }

  /** The groups covered are exactly the selected groups the user is a
      member of. */
  lemma {:induction false} CoverMembers(selected: seq<Group>, u: User)
    ensures forall g :: g in Cover(selected, u) <==> g in selected && IsMember(u, g)
  {
    if selected != [] {
      CoverMembers(selected[1..], u);
      assert forall g :: g in selected <==> g == selected[0] || g in selected[1..];
    }
  }

  /** `filter` keeps the order of the selected groups: it works group by
      group, keeping a group exactly when the user is a member of it. */
  lemma {:induction false} CoverAppend(a: seq<Group>, b: seq<Group>, u: User)
    ensures Cover(a + b, u) == Cover(a, u) + Cover(b, u)
    ensures |a| == 1 ==> Cover(a, u) == if IsMember(u, a[0]) then a else []
  {
    if a != [] {
      assert (a + b)[0] == a[0] && (a + b)[1..] == a[1..] + b;
      CoverAppend(a[1..], b, u);
    } else {
      assert a + b == b;
    }
  }

  /** The verified groups among the selected ones: the week loop counts only
      those in a representative's groups. */
  function VerifiedGroups(selected: seq<Group>): (r: seq<Group>)
    ensures |r| <= |selected|
  {
    if selected == [] then []
    else (if selected[0].verified then [selected[0]] else []) + VerifiedGroups(selected[1..])
  }

  lemma {:induction false} VerifiedGroupsOf(selected: seq<Group>)
    ensures forall g :: g in VerifiedGroups(selected) <==> g in selected && g.verified
  {
    if selected != [] {
      VerifiedGroupsOf(selected[1..]);
      assert forall g :: g in selected <==> g == selected[0] || g in selected[1..];
    }
  }

  /** The filter keeps the order of the selected groups, keeping a group
      exactly when it is verified. */
  lemma {:induction false} VerifiedGroupsAppend(a: seq<Group>, b: seq<Group>)
    ensures VerifiedGroups(a + b) == VerifiedGroups(a) + VerifiedGroups(b)
    ensures |a| == 1 ==> VerifiedGroups(a) == if a[0].verified then a else []
  {
    if a != [] {
      assert (a + b)[0] == a[0] && (a + b)[1..] == a[1..] + b;
      VerifiedGroupsAppend(a[1..], b);
    } else {
      assert a + b == b;
    }
  }

  /** The accumulator of the `reduce` over a group's members: the chosen
      member and that member's groups. */
  datatype Choice = Choice(index: nat, groups: seq<Group>)

  /** The `reduce` after its first `n` members, started from the first
      member with no groups; `cover` gives a member's groups. A member
      replaces the current choice only when it covers strictly more groups,
      so the result is the first member covering the most groups. */
  function PickUpTo(members: seq<User>, cover: User -> seq<Group>, n: nat): (r: Choice)
    requires 0 < |members| && n <= |members|
    ensures r.index < |members| && (n > 0 ==> r.index < n)
    ensures n == 0 ==> r == Choice(0, [])
    ensures n > 0 ==> r.groups == cover(members[r.index])
  {
    if n == 0 then Choice(0, [])
    else
      var acc := PickUpTo(members, cover, n - 1);
      var c := cover(members[n - 1]);
      if |c| > |acc.groups| then Choice(n - 1, c) else acc
  }

  /** The choice covers at least as many groups as any member seen, and
      strictly more than every member before it. */
  lemma {:induction false} PickUpToBest(members: seq<User>, cover: User -> seq<Group>, n: nat)
    requires 0 < |members| && n <= |members|
    ensures forall k :: 0 <= k < n ==> |cover(members[k])| <= |PickUpTo(members, cover, n).groups|
    ensures forall k :: 0 <= k < PickUpTo(members, cover, n).index ==> |cover(members[k])| < |PickUpTo(members, cover, n).groups|
  {
    if n > 0 {
      PickUpToBest(members, cover, n - 1);
      var acc := PickUpTo(members, cover, n - 1);
      var c := cover(members[n - 1]);
      if |c| > |acc.groups| {
        assert PickUpTo(members, cover, n) == Choice(n - 1, c);
      } else {
        assert PickUpTo(members, cover, n) == acc;
      }
    }
  }

  function CoverIn(selected: seq<Group>): User -> seq<Group> {
    u => Cover(selected, u)
  }

  /** The representative of a group with members. */
  function Pick(selected: seq<Group>, members: seq<User>): Choice
    requires members != []
  {
    PickUpTo(members, CoverIn(selected), |members|)
  }

  /** The representative's groups include the group being served whenever
      that group is among those counted. */
  lemma PickCoversOwnGroup(selected: seq<Group>, g: Group)
    requires g in selected && g.members != []
    ensures g in Pick(selected, g.members).groups
  {
    var choice := Pick(selected, g.members);
    var u := g.members[choice.index];
    HasIdOfMember(g.members, u);
    CoverMembers(selected, u);
  }

  /** The names of some groups. */
  function Names(groups: seq<Group>): set<string> {
    if groups == [] then {} else {groups[0].name} + Names(groups[1..])
  }

  lemma {:induction false} NamesOf(groups: seq<Group>)
    ensures forall x :: x in Names(groups) <==> exists g :: g in groups && g.name == x
  {
    if groups != [] {
      NamesOf(groups[1..]);
      assert forall g :: g in groups <==> g == groups[0] || g in groups[1..];
    }
  }

  /** `selected.every((group) => processed.has(group.name))`. */
  predicate AllProcessed(selected: seq<Group>, processed: set<string>) {
    selected == [] || (selected[0].name in processed && AllProcessed(selected[1..], processed))
  }

  /** `groupNames.filter((group) => !processed.has(group))`. */
  function Unprocessed(names: seq<string>, processed: set<string>): (r: seq<string>)
    ensures |r| <= |names|
    ensures processed == {} ==> r == names
  {
    if names == [] then []
    else (if names[0] in processed then [] else [names[0]]) + Unprocessed(names[1..], processed)
  }

  /** The unprocessed names are the listed names not processed. */
  lemma {:induction false} UnprocessedNames(names: seq<string>, processed: set<string>)
    ensures forall n :: n in Unprocessed(names, processed) <==> n in names && n !in processed
  {
    if names != [] {
      UnprocessedNames(names[1..], processed);
      assert forall n :: n in names <==> n == names[0] || n in names[1..];
    }
  }

  /** `unprocessed` keeps the order and the repetitions of the listed names:
      the filter works name by name, keeping a name exactly when it was not
      processed. */
  lemma {:induction false} UnprocessedAppend(a: seq<string>, b: seq<string>, processed: set<string>)
    ensures Unprocessed(a + b, processed) == Unprocessed(a, processed) + Unprocessed(b, processed)
    ensures |a| == 1 ==> Unprocessed(a, processed) == if a[0] in processed then [] else a
  {
    if a != [] {
      assert (a + b)[0] == a[0] && (a + b)[1..] == a[1..] + b;
      UnprocessedAppend(a[1..], b, processed);
    } else {
      assert a + b == b;
    }
  }

  /** The state of a delegate loop: what it gathered, the processed group
      names, and whether it has stopped (`break`). */
  datatype Progress<T> = Progress(data: T, processed: set<string>, stopped: bool)

  /** A delegate loop after its first `n` groups, from `start`: once stopped
      (`break`) it takes no more turns, a throw ends it, and otherwise
      `turn` gives the state after the next group. */
  function RunTurns<T>(groups: seq<Group>, turn: (Progress<T>, Group) -> Result<Progress<T>, Failure>,
                       start: Progress<T>, n: nat): Result<Progress<T>, Failure>
    requires n <= |groups|
  {
    if n == 0 then Ok(start)
    else
      match RunTurns(groups, turn, start, n - 1)
      case Err(e) => Err(e)
      case Ok(p) => if p.stopped then Ok(p) else turn(p, groups[n - 1])
  }

  /** Once a delegate loop has thrown or stopped, later groups change
      nothing. */
  lemma {:induction false} RunSettled<T>(groups: seq<Group>, turn: (Progress<T>, Group) -> Result<Progress<T>, Failure>,
                                         start: Progress<T>, n: nat, m: nat)
    requires n <= m <= |groups|
    requires RunTurns(groups, turn, start, n).Err? || RunTurns(groups, turn, start, n).value.stopped
    ensures RunTurns(groups, turn, start, m) == RunTurns(groups, turn, start, n)
    decreases m
  {
    if m > n {
      RunSettled(groups, turn, start, n, m - 1);
    }
  }

  /** A property of the state that the start has and that every turn on
      one of the groups keeps holds after any number of turns. */
  lemma {:induction false} RunKeeps<T>(groups: seq<Group>, turn: (Progress<T>, Group) -> Result<Progress<T>, Failure>,
                                       start: Progress<T>, n: nat, inv: Progress<T> -> bool)
    requires n <= |groups| && inv(start)
    requires forall p, g :: inv(p) && g in groups && turn(p, g).Ok? ==> inv(turn(p, g).value)
    ensures RunTurns(groups, turn, start, n).Ok? ==> inv(RunTurns(groups, turn, start, n).value)
  {
    if n > 0 {
      RunKeeps(groups, turn, start, n - 1, inv);
      var before := RunTurns(groups, turn, start, n - 1);
      if before.Ok? && !before.value.stopped {
        TurnKeeps(groups, turn, inv, before.value, groups[n - 1]);
      }
    }
  }

  lemma TurnKeeps<T>(groups: seq<Group>, turn: (Progress<T>, Group) -> Result<Progress<T>, Failure>,
                     inv: Progress<T> -> bool, p: Progress<T>, g: Group)
    requires forall p, g :: inv(p) && g in groups && turn(p, g).Ok? ==> inv(turn(p, g).value)
    requires inv(p) && g in groups
    ensures turn(p, g).Ok? ==> inv(turn(p, g).value)
  {
  }

  /** A start that every turn leaves as it is is also the end. */
  lemma {:induction false} RunFixed<T>(groups: seq<Group>, turn: (Progress<T>, Group) -> Result<Progress<T>, Failure>,
                                       start: Progress<T>, n: nat)
    requires n <= |groups|
    requires forall g :: g in groups ==> turn(start, g) == Ok(start)
    ensures RunTurns(groups, turn, start, n) == Ok(start)
  {
    if n > 0 {
      RunFixed(groups, turn, start, n - 1);
      assert groups[n - 1] in groups;
    }
  }

  // ---------------------------------------------------------------------
  // getGroupsTodayCourses

  const NoUserError: Failure := Other("Cannot read properties of undefined (reading 'user')")

  /** One turn of the loop of `getGroupsTodayCourses` on group `g`. There is
      no guard for a group without members: reading its first member
      throws. */
  function TodayStep(selected: seq<Group>, scrape: User -> Outcome<seq<Course>>, p: Progress<seq<Course>>, g: Group)
    : Result<Progress<seq<Course>>, Failure>
  {
    if g.members == [] then Err(NoUserError)
    else
      var choice := Pick(selected, g.members);
      var user := g.members[choice.index];
      TodayTurn(selected, p, choice.groups, NewPortail(user, NoOptions), scrape(user))
  }

  /** The turn once the representative is chosen: `new Portail(user)` sits
      outside the `try`, a `DiscordError` is skipped, anything else thrown
      escapes, and scraped courses mark the representative's groups. */
  function TodayTurn(selected: seq<Group>, p: Progress<seq<Course>>, groups: seq<Group>,
                     portail: Result<Settings, Failure>, outcome: Outcome<seq<Course>>)
    : Result<Progress<seq<Course>>, Failure>
  {
    if portail.Err? then Err(portail.error)
    else
      match outcome
      case Nothing => Ok(p)
      case Threw(e) => if IsDiscordError(e) then Ok(p) else Err(e)
      case Got(list) =>
        var processed := p.processed + Names(groups);
        Ok(Progress(p.data + list, processed, AllProcessed(selected, processed)))
  }

  function TodayTurns(selected: seq<Group>, scrape: User -> Outcome<seq<Course>>)
    : (Progress<seq<Course>>, Group) -> Result<Progress<seq<Course>>, Failure>
  {
    (p, g) => TodayStep(selected, scrape, p, g)
  }

  /** The loop of `getGroupsTodayCourses` after its first `n` groups. */
  function TodayRun(selected: seq<Group>, scrape: User -> Outcome<seq<Course>>, n: nat): Result<Progress<seq<Course>>, Failure>
    requires n <= |selected|
  {
    RunTurns(selected, TodayTurns(selected, scrape), Progress([], {}, false), n)
  }

  /** `getGroupsTodayCourses(groupNames)`. */
  function GroupsToday(names: seq<string>, table: seq<Group>, scrape: User -> Outcome<seq<Course>>)
    : Result<Response<seq<Course>>, Failure>
  {
    var selected := SelectToday(table, names);
    match TodayRun(selected, scrape, |selected|)
    case Err(e) => Err(e)
    case Ok(p) => Ok(Response(p.data, Some(Unprocessed(names, p.processed))))
  }

  /** The turn after `i` groups of a running loop, on a group with members. */
  lemma TodayRunNext(selected: seq<Group>, scrape: User -> Outcome<seq<Course>>, i: nat, p: Progress<seq<Course>>)
    requires i < |selected| && TodayRun(selected, scrape, i) == Ok(p)
    requires !p.stopped && selected[i].members != []
    ensures var choice := Pick(selected, selected[i].members);
      var user := selected[i].members[choice.index];
      TodayRun(selected, scrape, i + 1) == TodayTurn(selected, p, choice.groups, NewPortail(user, NoOptions), scrape(user))
  {
    assert TodayTurns(selected, scrape)(p, selected[i]) == TodayStep(selected, scrape, p, selected[i]);
  }

  lemma TodayRunSettled(selected: seq<Group>, scrape: User -> Outcome<seq<Course>>, n: nat, m: nat)
    requires n <= m <= |selected|
    requires TodayRun(selected, scrape, n).Err? || TodayRun(selected, scrape, n).value.stopped
    ensures TodayRun(selected, scrape, m) == TodayRun(selected, scrape, n)
  {
    RunSettled(selected, TodayTurns(selected, scrape), Progress([], {}, false), n, m);
  }

  /** A verified group without verified members makes the whole day call
      throw as soon as the loop reaches it. */
  lemma TodayMemberlessGroupThrows(selected: seq<Group>, scrape: User -> Outcome<seq<Course>>, n: nat)
    requires n < |selected| && selected[n].members == []
    requires TodayRun(selected, scrape, n).Ok? && !TodayRun(selected, scrape, n).value.stopped
    ensures TodayRun(selected, scrape, |selected|) == Err(NoUserError)
  {
    var p := TodayRun(selected, scrape, n).value;
    assert TodayTurns(selected, scrape)(p, selected[n]) == Err(NoUserError);
    TodayRunSettled(selected, scrape, n + 1, |selected|);
  }

  /** The loop of `getGroupsTodayCourses` over the selected groups. */
  method TodayLoop(selected: seq<Group>, scrape: User -> Outcome<seq<Course>>)
    returns (r: Result<Progress<seq<Course>>, Failure>)
    ensures r == TodayRun(selected, scrape, |selected|)
  {
    var processed: set<string> := {};
    var courses: seq<Course> := [];
    var i := 0;
    while i < |selected|
      invariant 0 <= i <= |selected|
      invariant TodayRun(selected, scrape, i) == Ok(Progress(courses, processed, false))
    {
      var group := selected[i];
      ghost var before := Progress(courses, processed, false);
      if group.members == [] {
        TodayMemberlessGroupThrows(selected, scrape, i);
        return Err(NoUserError);
      }
      TodayRunNext(selected, scrape, i, before);
      var choice := Pick(selected, group.members);
      var user := group.members[choice.index];
      var portail := NewPortail(user, NoOptions);
      ghost var next := TodayRun(selected, scrape, i + 1);
      assert next == TodayTurn(selected, before, choice.groups, portail, scrape(user));
      if portail.Err? {
        TodayRunSettled(selected, scrape, i + 1, |selected|);
        return Err(portail.error);
      }
      match scrape(user) {
        case Nothing =>
          assert next == Ok(before);
        case Threw(e) =>
          if !IsDiscordError(e) {
            assert next == Err(e);
            TodayRunSettled(selected, scrape, i + 1, |selected|);
            return Err(e);
          }
          assert next == Ok(before);
        case Got(list) =>
          courses := courses + list;
          processed := processed + Names(choice.groups);
          if AllProcessed(selected, processed) {
            assert next == Ok(Progress(courses, processed, true));
            TodayRunSettled(selected, scrape, i + 1, |selected|);
            return Ok(Progress(courses, processed, true));
          }
          assert next == Ok(Progress(courses, processed, false));
      }
      i := i + 1;
    }
    return Ok(Progress(courses, processed, false));
  }

  /** `getGroupsTodayCourses(groupNames)`: one scrape per group whose
      courses are not known yet, and the listed names left unprocessed. */
  method GetGroupsTodayCourses(names: seq<string>, table: seq<Group>, scrape: User -> Outcome<seq<Course>>)
    returns (r: Result<Response<seq<Course>>, Failure>)
    ensures r == GroupsToday(names, table, scrape)
  {
    var selected := SelectToday(table, names);
    var run := TodayLoop(selected, scrape);
    if run.Err? {
      return Err(run.error);
    }
    return Ok(Response(run.value.data, Some(Unprocessed(names, run.value.processed))));
  }

  /** The processed names are names of selected groups. */
  predicate OnlySelected(selected: seq<Group>, p: Progress<seq<Course>>) {
    forall x :: x in p.processed ==> exists g :: g in selected && g.name == x
  }

  /** A turn only marks names of selected groups. */
  lemma TodayStepSelected(selected: seq<Group>, scrape: User -> Outcome<seq<Course>>, p: Progress<seq<Course>>, g: Group)
    requires OnlySelected(selected, p) && TodayStep(selected, scrape, p, g).Ok?
    ensures OnlySelected(selected, TodayStep(selected, scrape, p, g).value)
  {
    if g.members != [] {
      var choice := Pick(selected, g.members);
      NamesOf(choice.groups);
      CoverMembers(selected, g.members[choice.index]);
    }
  }

  lemma TodayProcessedSelected(selected: seq<Group>, scrape: User -> Outcome<seq<Course>>, n: nat)
    requires n <= |selected| && TodayRun(selected, scrape, n).Ok?
    ensures forall x :: x in TodayRun(selected, scrape, n).value.processed ==> exists g :: g in selected && g.name == x
  {
    var turn := TodayTurns(selected, scrape);
    var inv := (p: Progress<seq<Course>>) => OnlySelected(selected, p);
    forall p, g | inv(p) && g in selected && turn(p, g).Ok? ensures inv(turn(p, g).value) {
      TodayStepSelected(selected, scrape, p, g);
    }
    RunKeeps(selected, turn, Progress([], {}, false), n, inv);
  }

  /** A listed name without a verified group is always reported
      unprocessed, and only listed names are reported. */
  lemma GroupsTodayUnprocessed(names: seq<string>, table: seq<Group>, scrape: User -> Outcome<seq<Course>>)
    requires GroupsToday(names, table, scrape).Ok?
    ensures forall x :: x in GroupsToday(names, table, scrape).value.unprocessed.value ==> x in names
    ensures forall x :: x in names && (forall g :: g in table && g.verified ==> g.name != x) ==>
      x in GroupsToday(names, table, scrape).value.unprocessed.value
    ensures var selected := SelectToday(table, names);
      forall x :: x in names ==>
        (x in GroupsToday(names, table, scrape).value.unprocessed.value <==>
         x !in TodayRun(selected, scrape, |selected|).value.processed)
  {
    var selected := SelectToday(table, names);
    TodayProcessedSelected(selected, scrape, |selected|);
    SelectTodayGroups(table, names);
    UnprocessedNames(names, TodayRun(selected, scrape, |selected|).value.processed);
  }

  /** A successful scrape for a group processes that group. */
  lemma TodayStepProcessesGroup(selected: seq<Group>, scrape: User -> Outcome<seq<Course>>, p: Progress<seq<Course>>, g: Group)
    requires g in selected && g.members != []
    requires scrape(g.members[Pick(selected, g.members).index]).Got?
    requires TodayStep(selected, scrape, p, g).Ok?
    ensures g.name in TodayStep(selected, scrape, p, g).value.processed
  {
    PickCoversOwnGroup(selected, g);
    NamesOf(Pick(selected, g.members).groups);
  }

  /** When no delegate yields courses (every scrape gives `undefined` or a
      `DiscordError`), the call returns no courses and every listed name as
      unprocessed — provided every group has a member who can log in. */
  lemma TodayAllDelegatesFail(selected: seq<Group>, scrape: User -> Outcome<seq<Course>>, n: nat)
    requires n <= |selected|
    requires forall g :: g in selected ==> g.members != [] && forall u :: u in g.members ==> NewPortail(u, NoOptions).Ok?
    requires forall u :: scrape(u).Nothing? || (scrape(u).Threw? && IsDiscordError(scrape(u).error))
    ensures TodayRun(selected, scrape, n) == Ok(Progress([], {}, false))
  {
    var p := Progress([], {}, false);
    forall g | g in selected ensures TodayTurns(selected, scrape)(p, g) == Ok(p) {
      var u := g.members[Pick(selected, g.members).index];
      assert u in g.members;
    }
    RunFixed(selected, TodayTurns(selected, scrape), p, n);
  }

  // ---------------------------------------------------------------------
  // getGroupsWeekCourses

  const MergeTypeError: Failure := Other("Cannot read properties of undefined (reading 'courses')")

  /** One turn of the loop of `getGroupsWeekCourses` on group `g`: groups
      without members or already processed are skipped, and the
      representative's groups count only verified ones. */
  function WeekStep(selected: seq<Group>, scrape: User -> Outcome<Week>, p: Progress<Option<Week>>, g: Group)
    : Result<Progress<Option<Week>>, Failure>
  {
    if g.members == [] || g.name in p.processed then Ok(p)
    else
      var choice := Pick(VerifiedGroups(selected), g.members);
      var user := g.members[choice.index];
      WeekTurn(selected, p, choice.groups, NewPortail(user, NoOptions), scrape(user))
  }

  /** The week turn once the representative is chosen; a scraped week is
      merged into the data gathered so far. */
  function WeekTurn(selected: seq<Group>, p: Progress<Option<Week>>, groups: seq<Group>,
                    portail: Result<Settings, Failure>, outcome: Outcome<Week>)
    : Result<Progress<Option<Week>>, Failure>
  {
    if portail.Err? then Err(portail.error)
    else
      match outcome
      case Nothing => Ok(p)
      case Threw(e) => if IsDiscordError(e) then Ok(p) else Err(e)
      case Got(week) =>
        match MergeWeekCourses([p.data, Some(week)])
        case Err(_) => Err(MergeTypeError)
        case Ok(merged) =>
          var processed := p.processed + Names(groups);
          Ok(Progress(merged, processed, AllProcessed(selected, processed)))
  }

  function WeekTurns(selected: seq<Group>, scrape: User -> Outcome<Week>)
    : (Progress<Option<Week>>, Group) -> Result<Progress<Option<Week>>, Failure>
  {
    (p, g) => WeekStep(selected, scrape, p, g)
  }

  /** The loop of `getGroupsWeekCourses` after its first `n` groups. */
  function WeekRun(selected: seq<Group>, scrape: User -> Outcome<Week>, n: nat): Result<Progress<Option<Week>>, Failure>
    requires n <= |selected|
  {
    RunTurns(selected, WeekTurns(selected, scrape), Progress(None, {}, false), n)
  }

  /** `getGroupsWeekCourses(groupNames)`. */
  function GroupsWeek(names: seq<string>, table: seq<Group>, scrape: User -> Outcome<Week>)
    : Result<Response<Option<Week>>, Failure>
  {
    var selected := SelectWeek(table, names);
    match WeekRun(selected, scrape, |selected|)
    case Err(e) => Err(e)
    case Ok(p) => Ok(Response(p.data, Some(Unprocessed(names, p.processed))))
  }

  /** The turn after `i` groups of a running week loop. */
  lemma WeekRunNext(selected: seq<Group>, scrape: User -> Outcome<Week>, i: nat, p: Progress<Option<Week>>)
    requires i < |selected| && WeekRun(selected, scrape, i) == Ok(p) && !p.stopped
    ensures WeekRun(selected, scrape, i + 1) == WeekStep(selected, scrape, p, selected[i])
  {
    assert WeekTurns(selected, scrape)(p, selected[i]) == WeekStep(selected, scrape, p, selected[i]);
  }

  lemma WeekRunSettled(selected: seq<Group>, scrape: User -> Outcome<Week>, n: nat, m: nat)
    requires n <= m <= |selected|
    requires WeekRun(selected, scrape, n).Err? || WeekRun(selected, scrape, n).value.stopped
    ensures WeekRun(selected, scrape, m) == WeekRun(selected, scrape, n)
  {
    RunSettled(selected, WeekTurns(selected, scrape), Progress(None, {}, false), n, m);
  }

  /** The loop of `getGroupsWeekCourses` over the selected groups. */
  method WeekLoop(selected: seq<Group>, scrape: User -> Outcome<Week>)
    returns (r: Result<Progress<Option<Week>>, Failure>)
    ensures r == WeekRun(selected, scrape, |selected|)
  {
    var processed: set<string> := {};
    var value: Option<Week> := None;
    var i := 0;
    while i < |selected|
      invariant 0 <= i <= |selected|
      invariant WeekRun(selected, scrape, i) == Ok(Progress(value, processed, false))
    {
      var group := selected[i];
      ghost var before := Progress(value, processed, false);
      WeekRunNext(selected, scrape, i, before);
      ghost var next := WeekRun(selected, scrape, i + 1);
      if group.members == [] || group.name in processed {
        assert next == Ok(before);
        i := i + 1;
        continue;
      }
      var choice := Pick(VerifiedGroups(selected), group.members);
      var user := group.members[choice.index];
      var portail := NewPortail(user, NoOptions);
      assert next == WeekTurn(selected, before, choice.groups, portail, scrape(user));
      if portail.Err? {
        WeekRunSettled(selected, scrape, i + 1, |selected|);
        return Err(portail.error);
      }
      match scrape(user) {
        case Nothing =>
          assert next == Ok(before);
        case Threw(e) =>
          if !IsDiscordError(e) {
            assert next == Err(e);
            WeekRunSettled(selected, scrape, i + 1, |selected|);
            return Err(e);
          }
          assert next == Ok(before);
        case Got(week) =>
          var merged := MergeWeekCourses([value, Some(week)]);
          if merged.Err? {
            assert next == Err(MergeTypeError);
            WeekRunSettled(selected, scrape, i + 1, |selected|);
            return Err(MergeTypeError);
          }
          value := merged.value;
          processed := processed + Names(choice.groups);
          if AllProcessed(selected, processed) {
            assert next == Ok(Progress(value, processed, true));
            WeekRunSettled(selected, scrape, i + 1, |selected|);
            return Ok(Progress(value, processed, true));
          }
          assert next == Ok(Progress(value, processed, false));
      }
      i := i + 1;
    }
    return Ok(Progress(value, processed, false));
  }

  /** `getGroupsWeekCourses(groupNames)`. */
  method GetGroupsWeekCourses(names: seq<string>, table: seq<Group>, scrape: User -> Outcome<Week>)
    returns (r: Result<Response<Option<Week>>, Failure>)
    ensures r == GroupsWeek(names, table, scrape)
  {
    var selected := SelectWeek(table, names);
    var run := WeekLoop(selected, scrape);
    if run.Err? {
      return Err(run.error);
    }
    return Ok(Response(run.value.data, Some(Unprocessed(names, run.value.processed))));
  }

  /** The processed names are names of verified selected groups. */
  predicate OnlyVerified(selected: seq<Group>, p: Progress<Option<Week>>) {
    forall x :: x in p.processed ==> exists g :: g in selected && g.verified && g.name == x
  }

  /** A week turn only marks names of verified selected groups. */
  lemma WeekStepVerified(selected: seq<Group>, scrape: User -> Outcome<Week>, p: Progress<Option<Week>>, g: Group)
    requires OnlyVerified(selected, p) && WeekStep(selected, scrape, p, g).Ok?
    ensures OnlyVerified(selected, WeekStep(selected, scrape, p, g).value)
  {
    if g.members != [] {
      var choice := Pick(VerifiedGroups(selected), g.members);
      NamesOf(choice.groups);
      CoverMembers(VerifiedGroups(selected), g.members[choice.index]);
      VerifiedGroupsOf(selected);
    }
  }

  /** The week loop only ever marks verified groups as processed. */
  lemma WeekProcessedVerified(selected: seq<Group>, scrape: User -> Outcome<Week>, n: nat)
    requires n <= |selected| && WeekRun(selected, scrape, n).Ok?
    ensures forall x :: x in WeekRun(selected, scrape, n).value.processed ==>
      exists g :: g in selected && g.verified && g.name == x
  {
    var turn := WeekTurns(selected, scrape);
    var inv := (p: Progress<Option<Week>>) => OnlyVerified(selected, p);
    forall p, g | inv(p) && g in selected && turn(p, g).Ok? ensures inv(turn(p, g).value) {
      WeekStepVerified(selected, scrape, p, g);
    }
    RunKeeps(selected, turn, Progress(None, {}, false), n, inv);
  }

  /** A listed name without a verified group is always reported unprocessed,
      even when its week was scraped and merged into the data. */
  lemma GroupsWeekUnverifiedUnprocessed(names: seq<string>, table: seq<Group>, scrape: User -> Outcome<Week>)
    requires GroupsWeek(names, table, scrape).Ok?
    ensures forall x :: x in GroupsWeek(names, table, scrape).value.unprocessed.value ==> x in names
    ensures var selected := SelectWeek(table, names);
      forall x :: x in names ==>
        (x in GroupsWeek(names, table, scrape).value.unprocessed.value <==>
         x !in WeekRun(selected, scrape, |selected|).value.processed)
    ensures forall x :: x in names && (forall g :: g in table && g.verified ==> g.name != x) ==>
      x in GroupsWeek(names, table, scrape).value.unprocessed.value
  {
    var selected := SelectWeek(table, names);
    WeekProcessedVerified(selected, scrape, |selected|);
    SelectWeekGroups(table, names);
    UnprocessedNames(names, WeekRun(selected, scrape, |selected|).value.processed);
  }

  /** Groups without members are skipped: if no selected group has a member,
      nothing is scraped and every listed name is unprocessed. */
  lemma WeekMemberlessSkipped(selected: seq<Group>, scrape: User -> Outcome<Week>, n: nat)
    requires n <= |selected|
    requires forall g :: g in selected ==> g.members == []
    ensures WeekRun(selected, scrape, n) == Ok(Progress(None, {}, false))
  {
    var p := Progress(None, {}, false);
    forall g | g in selected ensures WeekTurns(selected, scrape)(p, g) == Ok(p) {
    }
    RunFixed(selected, WeekTurns(selected, scrape), p, n);
  }

  // ---------------------------------------------------------------------
  // getUserTodayCourses

  /** One of the user's memberships: the group's name and verified flag,
      and the membership's own verified flag. */
  datatype Membership = Membership(name: string, groupVerified: bool, verified: bool)

  /** `mergeTodayCourses([a, b])`. */
  function MergeTwo(a: Option<seq<Course>>, b: Option<seq<Course>>): seq<Course> {
    SortByStart(Kept([a, b]))
  }

  /** The `reduce` over the user's verified groups after the first `n`
      memberships: the names with a cache entry (an empty list counts) and
      the merge of their cached courses. */
  function FromCache(groups: seq<Membership>, today: map<string, seq<Course>>, n: nat): (r: (seq<string>, seq<Course>))
    requires n <= |groups|
    ensures |r.0| <= n
    ensures SortedByStart(r.1)
  {
    (CachedNames(groups, today, n), CachedData(groups, today, n))
  }

  function CachedNames(groups: seq<Membership>, today: map<string, seq<Course>>, n: nat): (r: seq<string>)
    requires n <= |groups|
    ensures |r| <= n
  {
    if n == 0 then []
    else
      var m := groups[n - 1];
      if m.groupVerified && m.name in today then CachedNames(groups, today, n - 1) + [m.name]
      else CachedNames(groups, today, n - 1)
  }

  function CachedData(groups: seq<Membership>, today: map<string, seq<Course>>, n: nat): (r: seq<Course>)
    requires n <= |groups|
    ensures SortedByStart(r)
  {
    if n == 0 then []
    else
      var m := groups[n - 1];
      if m.groupVerified && m.name in today then MergeTwo(Some(CachedData(groups, today, n - 1)), Some(today[m.name]))
      else CachedData(groups, today, n - 1)
  }

  /** The cached names are those of the verified groups with a cache entry. */
  lemma {:induction false} CachedNamesOf(groups: seq<Membership>, today: map<string, seq<Course>>, n: nat)
    requires n <= |groups|
    ensures forall x :: x in CachedNames(groups, today, n) <==>
      exists k :: 0 <= k < n && groups[k].groupVerified && groups[k].name == x && x in today
  {
    if n > 0 {
      CachedNamesOf(groups, today, n - 1);
    }
  }

  /** Whether the user's own portal is scraped: the user has a token and one
      of their verified memberships of a verified group has no cache entry. */
  predicate NeedsOwnScrape(user: User, groups: seq<Membership>, cached: seq<string>) {
    HasToken(user) && exists m :: m in groups && m.groupVerified && m.verified && m.name !in cached
  }

  /** The groups served by delegates: memberships that are not verified and
      not cached, in order. */
  function NoSync(groups: seq<Membership>, cached: seq<string>): (r: seq<string>)
    ensures |r| <= |groups|
  {
    if groups == [] then []
    else (if !groups[0].verified && groups[0].name !in cached then [groups[0].name] else []) + NoSync(groups[1..], cached)
  }

  lemma {:induction false} NoSyncNames(groups: seq<Membership>, cached: seq<string>)
    ensures forall x :: x in NoSync(groups, cached) <==> exists m :: m in groups && !m.verified && m.name !in cached && m.name == x
    ensures (forall m :: m in groups && !m.verified ==> m.name in cached) ==> NoSync(groups, cached) == []
  {
    if groups != [] {
      NoSyncNames(groups[1..], cached);
      assert forall m :: m in groups <==> m == groups[0] || m in groups[1..];
    }
  }

  /** The groups whose cache entry is rewritten: every group of the user not
      reported unprocessed. */
  function ToCache(groups: seq<Membership>, unprocessed: Option<seq<string>>): (r: seq<string>)
    ensures |r| <= |groups|
  {
    if groups == [] then []
    else
      (if unprocessed.None? || groups[0].name !in unprocessed.value then [groups[0].name] else []) +
      ToCache(groups[1..], unprocessed)
  }

  lemma {:induction false} ToCacheNames(groups: seq<Membership>, unprocessed: Option<seq<string>>)
    ensures forall x :: x in ToCache(groups, unprocessed) <==>
      exists m :: m in groups && m.name == x && (unprocessed.None? || x !in unprocessed.value)
  {
    if groups != [] {
      ToCacheNames(groups[1..], unprocessed);
      assert forall m :: m in groups <==> m == groups[0] || m in groups[1..];
    }
  }

  /** The re-cached names follow the order of the memberships, one
      membership at a time. */
  lemma {:induction false} ToCacheAppend(a: seq<Membership>, b: seq<Membership>, unprocessed: Option<seq<string>>)
    ensures ToCache(a + b, unprocessed) == ToCache(a, unprocessed) + ToCache(b, unprocessed)
    ensures |a| == 1 ==>
      ToCache(a, unprocessed) == if unprocessed.None? || a[0].name !in unprocessed.value then [a[0].name] else []
  {
    if a != [] {
      assert (a + b)[0] == a[0] && (a + b)[1..] == a[1..] + b;
      ToCacheAppend(a[1..], b, unprocessed);
    } else {
      assert a + b == b;
    }
  }

  /** The data after the user's own scrape, if one happens. */
  function WithOwn(user: User, groups: seq<Membership>, cached: seq<string>, data: seq<Course>, own: Outcome<seq<Course>>)
    : Result<seq<Course>, Failure>
  {
    if !NeedsOwnScrape(user, groups, cached) then Ok(data)
    else
      match NewPortail(user, NoOptions)
      case Err(e) => Err(e)
      case Ok(_) =>
        match own
        case Threw(e) => Err(e)
        case Nothing => Ok(MergeTwo(None, Some(data)))
        case Got(courses) => Ok(MergeTwo(Some(courses), Some(data)))
  }

  /** The data and `meta` after the delegate path, if one is needed. */
  function WithDelegates(names: seq<string>, data: seq<Course>, table: seq<Group>, scrape: User -> Outcome<seq<Course>>)
    : Result<Response<seq<Course>>, Failure>
  {
    if names == [] then Ok(Response(data, None))
    else
      match GroupsToday(names, table, scrape)
      case Err(e) => Err(e)
      case Ok(response) => Ok(Response(MergeTwo(Some(data), Some(response.data)), response.unprocessed))
  }

  /** `getUserTodayCourses(user)`: the response, and the groups whose cache
      entry it rewrites. `row` is the user's row with its memberships, if
      there is one; `own` is what the user's own portal session yields. */
  function UserToday(user: User, row: Option<seq<Membership>>, today: map<string, seq<Course>>,
                     own: Outcome<seq<Course>>, table: seq<Group>, scrape: User -> Outcome<seq<Course>>)
    : Result<(Response<seq<Course>>, seq<string>), Failure>
  {
    if row.None? || row.value == [] then Err(NoGroupFound)
    else
      var groups := row.value;
      var (cached, data) := FromCache(groups, today, |groups|);
      match WithOwn(user, groups, cached, data, own)
      case Err(e) => Err(e)
      case Ok(data) =>
        match WithDelegates(NoSync(groups, cached), data, table, scrape)
        case Err(e) => Err(e)
        case Ok(response) =>
          if response.data == [] then Err(NoCourseToday)
          else Ok((response, ToCache(groups, response.unprocessed)))
  }

  /** The `reduce` of `getUserTodayCourses` over the user's verified groups
      that have a cache entry. */
  method MergeCached(groups: seq<Membership>, today: map<string, seq<Course>>) returns (cached: seq<string>, data: seq<Course>)
    ensures (cached, data) == FromCache(groups, today, |groups|)
  {
    data, cached := [], [];
    var i := 0;
    while i < |groups|
      invariant 0 <= i <= |groups|
      invariant cached == CachedNames(groups, today, i) && data == CachedData(groups, today, i)
    {
      var m := groups[i];
      if m.groupVerified && m.name in today {
        data := MergeTodayCourses([Some(data), Some(today[m.name])]);
        cached := cached + [m.name];
      }
      i := i + 1;
    }
  }

  /** The user's own scrape, when a verified membership is not cached. */
  method ScrapeOwn(user: User, groups: seq<Membership>, cached: seq<string>, data: seq<Course>, own: Outcome<seq<Course>>)
    returns (r: Result<seq<Course>, Failure>)
    ensures r == WithOwn(user, groups, cached, data, own)
  {
    if !NeedsOwnScrape(user, groups, cached) {
      return Ok(data);
    }
    var portail := NewPortail(user, NoOptions);
    if portail.Err? {
      return Err(portail.error);
    }
    match own {
      case Threw(e) =>
        return Err(e);
      case Nothing =>
        var merged := MergeTodayCourses([None, Some(data)]);
        return Ok(merged);
      case Got(courses) =>
        var merged := MergeTodayCourses([Some(courses), Some(data)]);
        return Ok(merged);
    }
  }

  /** The delegate path for the memberships that are neither verified nor
      cached. */
  method ScrapeDelegates(names: seq<string>, data: seq<Course>, table: seq<Group>, scrape: User -> Outcome<seq<Course>>)
    returns (r: Result<Response<seq<Course>>, Failure>)
    ensures r == WithDelegates(names, data, table, scrape)
  {
    if names == [] {
      return Ok(Response(data, None));
    }
    var delegated := GetGroupsTodayCourses(names, table, scrape);
    if delegated.Err? {
      return Err(delegated.error);
    }
    var merged := MergeTodayCourses([Some(data), Some(delegated.value.data)]);
    return Ok(Response(merged, delegated.value.unprocessed));
  }

  /** The cache after slicing `data` for the groups `keys`: each listed group
      holds its slice, every other entry is as before. */
  ghost predicate TodaySliced(before: map<string, seq<Course>>, after: map<string, seq<Course>>, keys: seq<string>, data: seq<Course>) {
    (forall g :: g in keys ==> g in after && after[g] == CoursesOfGroup(data, g)) &&
    (forall g :: g !in keys ==> (g in after <==> g in before) && (g in after ==> after[g] == before[g]))
  }

  method GetUserTodayCourses(cache: Cache, user: User, row: Option<seq<Membership>>, own: Outcome<seq<Course>>,
                             table: seq<Group>, scrape: User -> Outcome<seq<Course>>)
    returns (r: Result<Response<seq<Course>>, Failure>)
    modifies cache
    ensures var spec := UserToday(user, row, old(cache.today), own, table, scrape);
      (spec.Err? ==> r == Err(spec.error) && cache.today == old(cache.today)) &&
      (spec.Ok? ==> r == Ok(spec.value.0) && TodaySliced(old(cache.today), cache.today, spec.value.1, spec.value.0.data))
    ensures cache.week == old(cache.week) && cache.presences == old(cache.presences)
  {
    if row.None? || row.value == [] {
      return Err(NoGroupFound);
    }
    var groups := row.value;
    var cached, data := MergeCached(groups, cache.today);
    var withOwn := ScrapeOwn(user, groups, cached, data, own);
    if withOwn.Err? {
      return Err(withOwn.error);
    }
    var response := ScrapeDelegates(NoSync(groups, cached), withOwn.value, table, scrape);
    if response.Err? {
      return Err(response.error);
    }
    if response.value.data == [] {
      return Err(NoCourseToday);
    }
    CacheGroupsTodayCourses(cache, ToCache(groups, response.value.unprocessed), response.value.data);
    return response;
  }

  /** A missing user row or a user without groups gives `NoGroupFound`. */
  lemma UserTodayNoGroup(user: User, row: Option<seq<Membership>>, today: map<string, seq<Course>>,
                         own: Outcome<seq<Course>>, table: seq<Group>, scrape: User -> Outcome<seq<Course>>)
    requires row.None? || row.value == []
    ensures UserToday(user, row, today, own, table, scrape) == Err(NoGroupFound)
  {
  }

  /** The user's own portal is used only when needed: otherwise what it
      would yield makes no difference. When it is needed and throws, the
      error is not caught. */
  lemma UserTodayOwnScrape(user: User, groups: seq<Membership>, today: map<string, seq<Course>>,
                           own1: Outcome<seq<Course>>, own2: Outcome<seq<Course>>, table: seq<Group>, scrape: User -> Outcome<seq<Course>>)
    requires groups != []
    ensures !NeedsOwnScrape(user, groups, FromCache(groups, today, |groups|).0) ==>
      UserToday(user, Some(groups), today, own1, table, scrape) == UserToday(user, Some(groups), today, own2, table, scrape)
    ensures (NeedsOwnScrape(user, groups, FromCache(groups, today, |groups|).0) && own1.Threw? &&
      NewPortail(user, NoOptions).Ok?) ==> UserToday(user, Some(groups), today, own1, table, scrape) == Err(own1.error)
  {
  }

  /** Delegates are used only for memberships that are unverified and not
      cached: when there are none, the group table and the delegates make
      no difference and the response has no `meta`. */
  lemma UserTodayDelegates(user: User, groups: seq<Membership>, today: map<string, seq<Course>>, own: Outcome<seq<Course>>,
                           table1: seq<Group>, scrape1: User -> Outcome<seq<Course>>, table2: seq<Group>, scrape2: User -> Outcome<seq<Course>>)
    requires groups != []
    requires forall m :: m in groups && !m.verified ==> m.groupVerified && m.name in today
    ensures UserToday(user, Some(groups), today, own, table1, scrape1) == UserToday(user, Some(groups), today, own, table2, scrape2)
    ensures UserToday(user, Some(groups), today, own, table1, scrape1).Ok? ==>
      UserToday(user, Some(groups), today, own, table1, scrape1).value.0.unprocessed.None?
  {
    var cached := FromCache(groups, today, |groups|).0;
    CachedNamesOf(groups, today, |groups|);
    NoSyncNames(groups, cached);
    forall m | m in groups && !m.verified ensures m.name in cached {
      var k :| 0 <= k < |groups| && groups[k] == m;
    }
  }

  /** A successful response is never empty and is sorted by start time, and
      every group of the user that is not reported unprocessed gets its
      slice of it. */
  lemma UserTodayResult(user: User, row: Option<seq<Membership>>, today: map<string, seq<Course>>,
                        own: Outcome<seq<Course>>, table: seq<Group>, scrape: User -> Outcome<seq<Course>>)
    requires UserToday(user, row, today, own, table, scrape).Ok?
    ensures UserToday(user, row, today, own, table, scrape).value.0.data != []
    ensures SortedByStart(UserToday(user, row, today, own, table, scrape).value.0.data)
    ensures forall m :: m in row.value ==>
      (m.name in UserToday(user, row, today, own, table, scrape).value.1 <==>
       var u := UserToday(user, row, today, own, table, scrape).value.0.unprocessed; u.None? || m.name !in u.value)
  {
    ToCacheNames(row.value, UserToday(user, row, today, own, table, scrape).value.0.unprocessed);
  }

  // ---------------------------------------------------------------------
  // Current and next course

  /** The course is under way at `now`. */
  predicate Ongoing(c: Course, now: int) {
    c.beginning <= now <= c.end
  }

  /** `courses[k]` is the first course under way at `now`. */
  predicate FirstOngoing(courses: seq<Course>, now: int, k: int) {
    0 <= k < |courses| && Ongoing(courses[k], now) && forall j :: 0 <= j < k ==> !Ongoing(courses[j], now)
  }

  /** `courses[k]` is the first course starting after `now`. */
  predicate FirstAfter(courses: seq<Course>, now: int, k: int) {
    0 <= k < |courses| && courses[k].beginning > now && forall j :: 0 <= j < k ==> courses[j].beginning <= now
  }

  /** `courses.find(...)` for the current course: the first course under
      way, else `NoCurrentCourse`. */
  function CurrentCourse(courses: seq<Course>, now: int): (r: Result<Course, Failure>)
    ensures r.Err? <==> forall k :: 0 <= k < |courses| ==> !Ongoing(courses[k], now)
    ensures r.Err? ==> r.error == NoCurrentCourse
    ensures r.Ok? ==> exists k :: FirstOngoing(courses, now, k) && courses[k] == r.value
  {
    if courses == [] then Err(NoCurrentCourse)
    else if Ongoing(courses[0], now) then
      assert FirstOngoing(courses, now, 0);
      Ok(courses[0])
    else
      var r := CurrentCourse(courses[1..], now);
      assert r.Ok? ==> exists k :: FirstOngoing(courses, now, k) && courses[k] == r.value by {
        if r.Ok? {
          var k :| FirstOngoing(courses[1..], now, k) && courses[1..][k] == r.value;
          assert FirstOngoing(courses, now, k + 1);
        }
      }
      r
  }

  /** `courses.find(...)` for the next course: the first course starting
      after `now`, else `NoNextCourse`. */
  function NextCourse(courses: seq<Course>, now: int): (r: Result<Course, Failure>)
    ensures r.Err? <==> forall k :: 0 <= k < |courses| ==> courses[k].beginning <= now
    ensures r.Err? ==> r.error == NoNextCourse
    ensures r.Ok? ==> exists k :: FirstAfter(courses, now, k) && courses[k] == r.value
  {
    if courses == [] then Err(NoNextCourse)
    else if courses[0].beginning > now then
      assert FirstAfter(courses, now, 0);
      Ok(courses[0])
    else
      var r := NextCourse(courses[1..], now);
      assert r.Ok? ==> exists k :: FirstAfter(courses, now, k) && courses[k] == r.value by {
        if r.Ok? {
          var k :| FirstAfter(courses[1..], now, k) && courses[1..][k] == r.value;
          assert FirstAfter(courses, now, k + 1);
        }
      }
      r
  }

  /** On a day sorted by start time — what the merge returns — the next
      course is the earliest of those still to come. */
  lemma NextCourseIsEarliest(courses: seq<Course>, now: int)
    requires SortedByStart(courses)
    requires NextCourse(courses, now).Ok?
    ensures forall c :: c in courses && c.beginning > now ==> NextCourse(courses, now).value.beginning <= c.beginning
  {
    var r := NextCourse(courses, now).value;
    var k :| FirstAfter(courses, now, k) && courses[k] == r;
    forall c | c in courses && c.beginning > now ensures r.beginning <= c.beginning {
      var i :| 0 <= i < |courses| && courses[i] == c;
      assert k <= i;
    }
  }

  // ---------------------------------------------------------------------
  // Presence cache

  /** The presence of the current course: a cached status is returned
      without scraping; otherwise `fetch` (what the delegate's
      `getPresence` yields) is returned, and a status it yields is cached. */
  method UserPresence(cache: Cache, current: Course, fetch: Result<Option<PresenceStatus>, Failure>)
    returns (r: Result<Option<PresenceStatus>, Failure>, scraped: bool)
    modifies cache
    ensures current.id in old(cache.presences) ==>
      r == Ok(Some(old(cache.presences)[current.id])) && !scraped && cache.presences == old(cache.presences)
    ensures current.id !in old(cache.presences) ==> r == fetch && scraped
    ensures current.id !in old(cache.presences) && fetch.Ok? && fetch.value.Some? ==>
      cache.presences == old(cache.presences)[current.id := fetch.value.value]
    ensures current.id !in old(cache.presences) && !(fetch.Ok? && fetch.value.Some?) ==>
      cache.presences == old(cache.presences)
    ensures cache.today == old(cache.today) && cache.week == old(cache.week)
  {
    if current.id in cache.presences {
      return Ok(Some(cache.presences[current.id])), false;
    }
    if fetch.Ok? && fetch.value.Some? {
      cache.presences := cache.presences[current.id := fetch.value.value];
    }
    return fetch, true;
  }
}
