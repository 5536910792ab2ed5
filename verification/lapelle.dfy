/**
 * The legacy bot's presence check, `getLapelle`: read the class's portal
 * credentials from the environment, walk the rows of the presence table,
 * and report through a callback whether the roll call of the course under
 * way is open. The browser, the login pages and the clock are inputs: the
 * rows the table holds (each with what clicking its link shows), and the
 * time of day.
 */
module Lapelle {
  import opened Wrappers
  import opened Strings
  import opened DateTime

  // ---------------------------------------------------------------------
  // Inputs and payloads
  // ---------------------------------------------------------------------

  /** `LoopLapelleOptions`: which class the check runs for. */
  datatype Options = Options(diplome: string, year: string, formation: string)

  /** The alert and span elements of a presence panel: `None` when the
      element is absent, otherwise its `textContent`. */
  datatype Markers = Markers(danger: Option<string>, success: Option<string>, setPresence: Option<string>)

  /** What clicking a row's link leads to: the `#body_presence` element's
      markers (`None` when it is absent) and the page URL. */
  datatype Panel = Panel(body: Option<Markers>, url: string)

  /** One row of `#body_presences`: the text of its first three cells and,
      when its fourth cell holds a link, what the link leads to. */
  datatype Row = Row(time: string, teacher: string, subject: string, link: Option<Panel>)

  /** What the browser session gives: a launch that throws, a page that
      cannot be opened, or the presence table (or the message of an
      exception thrown while reaching it). */
  datatype Session = LaunchFails | PageFails | Opened(table: Result<seq<Row>, string>)

  /** The `cours` part of a payload. */
  datatype Course = Course(time: string, teacher: string, subject: string, presence: string)

  /** One call of the callback. */
  datatype Payload = Payload(open: bool, message: string, course: Option<Course>)

  /** Everything a call of `getLapelle` does: the callback calls in order,
      the value it returns (`Some` for the missing-environment error), and
      whether a browser was launched and whether it was closed. */
  datatype Run = Run(calls: seq<Payload>, returned: Option<string>, launched: bool, closed: bool)

  const MissingEnvError := "Des variables d'environnement sont manquantes..."
  const NoLinkMessage := "Impossible de trouver le lien du relev\U{E9} de pr\U{E9}sence."
  const NoCourseMessage := "Aucun cours n'a lieu actuellement."
  const OpenMessage := "L'appel est ouvert"
  const UnknownMessage := "L'\U{E9}tat de l'appel est ind\U{E9}termin\U{E9}"
  const ValidateLabel := "Valider la pr\U{E9}sence"
  /** `${error}` for the exception thrown by `heureFin.split` when the
      time cell holds no '-'. */
  const SplitError := "TypeError: Cannot read properties of undefined (reading 'split')"
  /** `${error}` for the exception thrown when `#body_presence` is absent. */
  const PanelError := "Error: THERE IS A PROBLEM HUSTON"
  const ErrorPrefix := "Une erreur s'est produite: "

  const NoLinkPayload := Payload(false, NoLinkMessage, None)
  const NoCoursePayload := Payload(false, NoCourseMessage, None)

  function ErrorPayload(error: string): Payload {
    Payload(false, ErrorPrefix + error, None)
  }

  /** `process.env[key]` is truthy: set and not empty. */
  predicate IsSet(env: map<string, string>, key: string) {
    key in env && env[key] != ""
  }

  function EnvKey(o: Options, suffix: string): string {
    o.diplome + "_" + o.year + "_" + o.formation + "_" + suffix
  }

  // ---------------------------------------------------------------------
  // Classification of a presence panel
  // ---------------------------------------------------------------------

  /** `textContent` is truthy. */
  predicate HasText(e: Option<string>) {
    e.Some? && e.value != ""
  }

  /** The state read from an open presence panel: the danger alert first,
      then the success alert, then the "Valider la présence" span, and
      otherwise an undetermined, closed state. */
  function Classify(m: Markers): (r: (bool, string))
    ensures HasText(m.danger) ==> r == (false, Trim(m.danger.value))
    ensures r.0 <==> (!HasText(m.danger) &&
      (HasText(m.success) || (m.setPresence.Some? && Contains(m.setPresence.value, ValidateLabel))))
    ensures !HasText(m.danger) && HasText(m.success) ==> r == (true, Trim(m.success.value))
    ensures !HasText(m.danger) && !HasText(m.success) ==>
      r.1 == (if r.0 then OpenMessage else UnknownMessage)
  {
    if HasText(m.danger) then (false, Trim(m.danger.value))
    else if HasText(m.success) then (true, Trim(m.success.value))
    else if m.setPresence.Some? && Contains(m.setPresence.value, ValidateLabel) then (true, OpenMessage)
    else (false, UnknownMessage)
  }

  // ---------------------------------------------------------------------
  // One row
  // ---------------------------------------------------------------------

  /** The time cell as the scan reads it: trimmed, then every white-space
      character removed. */
  function TimeText(cell: string): (r: string)
    ensures NoSpace(r) && r == RemoveSpaces(cell)
  {
    RemoveSpacesOfTrim(cell);
    RemoveSpaces(Trim(cell))
  }

  /** The course's start and end, in minutes of the day, as `setHours`
      reads the two sides of the '-' (`None` for an Invalid Date); `Err`
      when there is no '-', where reading the missing end throws. */
  function Times(heure: string): (r: Result<(Option<int>, Option<int>), string>)
    ensures r.Err? <==> '-' !in heure
    ensures r.Err? ==> r.error == SplitError
  {
    var sides := Split(heure, '-');
    if |sides| < 2 then
      assert '-' !in heure by {
        assert Join(sides, '-') == heure;
      }
      Err(SplitError)
    else
      assert '-' in heure by {
        assert heure == sides[0] + ['-'] + Join(sides[1..], '-');
        assert heure[|sides[0]|] == '-';
      }
      Ok((GetDateFromString(sides[0]), GetDateFromString(sides[1])))
  }

  /** `now >= debutTime && now <= finTime` with `now` in milliseconds
      since midnight: false whenever either side is an Invalid Date. */
  predicate IsCurrent(begin: Option<int>, end: Option<int>, now: int) {
    begin.Some? && end.Some? && begin.value * 60000 <= now <= end.value * 60000
  }

  /** What one row does to the scan. */
  datatype RowOutcome =
    | Skip                  // not under way
    | Linkless              // under way, no link: one closed callback, scan goes on
    | Found(p: Payload)     // under way with a link: the state callback, scan stops
    | Throws(error: string) // an exception ends the scan

  function RowStep(row: Row, now: int): (r: RowOutcome)
    ensures r.Found? ==> r.p.course.Some? && r.p.course.value.time == TimeText(row.time)
    ensures r.Found? ==> (row.link.Some? && row.link.value.body.Some? &&
      r.p.course.value.presence == row.link.value.url &&
      (r.p.open, r.p.message) == Classify(row.link.value.body.value))
  {
    var heure := TimeText(row.time);
    match Times(heure)
    case Err(e) => Throws(e)
    case Ok(t) =>
      if !IsCurrent(t.0, t.1, now) then Skip
      else if row.link.None? then Linkless
      else
        var panel := row.link.value;
        if panel.body.None? then Throws(PanelError)
        else
          var state := Classify(panel.body.value);
          Found(Payload(state.0, state.1, Some(Course(heure, Trim(row.teacher), Trim(row.subject), panel.url))))
  }

  /** A clock time written `H:M`. */
  function Clock(h: nat, m: nat): string {
    NatToString(h) + [':'] + NatToString(m)
  }

  lemma ClockHasNoSpace(h: nat, m: nat)
    ensures NoSpace(Clock(h, m)) && '-' !in Clock(h, m)
  {
    DigitsHaveNoSpace(NatToString(h));
    DigitsHaveNoSpace(NatToString(m));
  }

  lemma NoSpaceAround(a: string, c: char, b: string)
    requires NoSpace(a) && NoSpace(b) && !IsJsSpace(c)
    ensures NoSpace(a + [c] + b)
  {
    var cell := a + [c] + b;
    forall i | 0 <= i < |cell| ensures !IsJsSpace(cell[i]) {
      if i < |a| {
        assert cell[i] == a[i];
      } else if i > |a| {
        assert cell[i] == b[i - |a| - 1];
      }
    }
  }

  lemma SplitRange(a: string, b: string)
    requires '-' !in a && '-' !in b
    ensures Split(a + ['-'] + b, '-') == [a, b]
  {
    assert Join([a, b], '-') == a + ['-'] + b by {
      assert [a, b][1..] == [b];
    }
    SplitJoin([a, b], '-');
  }

  /** A time cell `H1:M1-H2:M2` is read as the minutes of its two ends. */
  lemma TimesOfRange(h1: nat, m1: nat, h2: nat, m2: nat)
    ensures var cell := Clock(h1, m1) + ['-'] + Clock(h2, m2);
      TimeText(cell) == cell && Times(cell) == Ok((Some(60 * h1 + m1), Some(60 * h2 + m2)))
  {
    var a, b := Clock(h1, m1), Clock(h2, m2);
    var cell := a + ['-'] + b;
    ClockHasNoSpace(h1, m1);
    ClockHasNoSpace(h2, m2);
    NoSpaceAround(a, '-', b);
    assert TimeText(cell) == cell;
    SplitRange(a, b);
    GetDateFromStringOfClock(h1, m1);
    GetDateFromStringOfClock(h2, m2);
  }

  /** A row whose time cell reads as `t` is skipped exactly when it is not
      under way; one under way without a link reports it, and one with a
      link and a panel stops the scan with that panel's state. */
  lemma RowStepOfTimes(row: Row, now: int, t: (Option<int>, Option<int>))
    requires Times(TimeText(row.time)) == Ok(t)
    ensures RowStep(row, now).Skip? <==> !IsCurrent(t.0, t.1, now)
    ensures IsCurrent(t.0, t.1, now) ==> (RowStep(row, now).Linkless? <==> row.link.None?)
    ensures IsCurrent(t.0, t.1, now) && row.link.Some? ==>
      (RowStep(row, now).Found? <==> row.link.value.body.Some?)
  {
    var r := RowStep(row, now);
    if IsCurrent(t.0, t.1, now) {
      assert r.Linkless? || r.Found? || r == Throws(PanelError);
    } else {
      assert r == Skip;
    }
  }

  /** `step` applied to each element, in order. */
  function Map<A, B>(xs: seq<A>, step: A -> B): (r: seq<B>)
    ensures |r| == |xs|
    ensures forall i :: 0 <= i < |xs| ==> r[i] == step(xs[i])
  {
    seq(|xs|, i requires 0 <= i < |xs| => step(xs[i]))
  }

  /** How a row is read at time `now`. */
  function StepAt(now: int): Row -> RowOutcome {
    row => RowStep(row, now)
  }

  /** What each row does, in order. */
  function Outcomes(rows: seq<Row>, now: int): seq<RowOutcome> {
    Map(rows, StepAt(now))
  }

  /** Every row the scan can stop at carries its course. */
  predicate CoursesCarried(outs: seq<RowOutcome>) {
    forall i :: 0 <= i < |outs| && outs[i].Found? ==> outs[i].p.course.Some?
  }

  lemma OutcomesCarry(rows: seq<Row>, now: int)
    ensures CoursesCarried(Outcomes(rows, now))
  {
    forall i | 0 <= i < |rows| && Outcomes(rows, now)[i].Found?
      ensures Outcomes(rows, now)[i].p.course.Some?
    {
      assert Outcomes(rows, now)[i] == RowStep(rows[i], now);
    }
  }

  // ---------------------------------------------------------------------
  // The scan
  // ---------------------------------------------------------------------

  /** How a scan of the rows ends: it went through (`found` when it
      stopped at a course's panel), or an exception ended it. */
  datatype Scan = Scanned(calls: seq<Payload>, found: bool) | Crashed(calls: seq<Payload>, error: string)

  /** `calls` followed by what `s` calls. */
  function Concat(calls: seq<Payload>, s: Scan): Scan {
    match s
    case Scanned(more, found) => Scanned(calls + more, found)
    case Crashed(more, error) => Crashed(calls + more, error)
  }

  /** The scan over what the rows do, first row first. */
  function ScanOutcomes(outs: seq<RowOutcome>): Scan
    decreases |outs|
  {
    if outs == [] then Scanned([], false)
    else
      match outs[0]
      case Skip => ScanOutcomes(outs[1..])
      case Linkless => Concat([NoLinkPayload], ScanOutcomes(outs[1..]))
      case Found(p) => Scanned([p], true)
      case Throws(e) => Crashed([], e)
  }

  /** The first `i` rows neither stop nor end the scan. */
  predicate PassesBefore(outs: seq<RowOutcome>, i: int) {
    forall j :: 0 <= j < i && j < |outs| ==> outs[j].Skip? || outs[j].Linkless?
  }

  /** The callback calls a scan makes: a "no link" call for each row under
      way without a link, then the state of the first row under way with a
      link, if any. The scan stops at a course exactly when some row
      reports one with only skipped or linkless rows before it. */
  lemma {:induction false} ScanShape(outs: seq<RowOutcome>)
    ensures var s := ScanOutcomes(outs);
      (s.Scanned? && s.found) <==> (exists i :: 0 <= i < |outs| && outs[i].Found? && PassesBefore(outs, i))
    ensures var s := ScanOutcomes(outs);
      forall k :: 0 <= k < |s.calls| - 1 ==> s.calls[k] == NoLinkPayload
    ensures var s := ScanOutcomes(outs);
      s.Scanned? && s.found ==> s.calls != [] && Found(s.calls[|s.calls| - 1]) in outs
    ensures var s := ScanOutcomes(outs);
      !(s.Scanned? && s.found) ==> forall k :: 0 <= k < |s.calls| ==> s.calls[k] == NoLinkPayload
    decreases |outs|
  {
    if outs != [] {
      var rest := outs[1..];
      ScanShape(rest);
      var s, t := ScanOutcomes(outs), ScanOutcomes(rest);
      match outs[0] {
        case Skip =>
          ShiftFound(outs);
          assert forall x :: x in rest ==> x in outs;
        case Linkless =>
          ShiftFound(outs);
          assert forall x :: x in rest ==> x in outs;
        case Found(p) =>
          assert PassesBefore(outs, 0);
        case Throws(e) =>
          forall i | 0 <= i < |outs| && outs[i].Found?
            ensures !PassesBefore(outs, i)
          {
            assert i > 0;
            assert !(outs[0].Skip? || outs[0].Linkless?);
          }
      }
    }
  }

  /** When the first row passes, a first reporting row of the rest is one
      of the whole list, one place further. */
  lemma ShiftFound(outs: seq<RowOutcome>)
    requires outs != [] && (outs[0].Skip? || outs[0].Linkless?)
    ensures (exists i :: 0 <= i < |outs| && outs[i].Found? && PassesBefore(outs, i)) <==>
      (exists i :: 0 <= i < |outs[1..]| && outs[1..][i].Found? && PassesBefore(outs[1..], i))
  {
    var rest := outs[1..];
    if exists i :: 0 <= i < |outs| && outs[i].Found? && PassesBefore(outs, i) {
      var i :| 0 <= i < |outs| && outs[i].Found? && PassesBefore(outs, i);
      assert i > 0;
      assert rest[i - 1].Found?;
      assert PassesBefore(rest, i - 1) by {
        forall j | 0 <= j < i - 1
          ensures rest[j].Skip? || rest[j].Linkless?
        {
          assert rest[j] == outs[j + 1];
        }
      }
    }
    if exists i :: 0 <= i < |rest| && rest[i].Found? && PassesBefore(rest, i) {
      var i :| 0 <= i < |rest| && rest[i].Found? && PassesBefore(rest, i);
      assert outs[i + 1].Found?;
      assert PassesBefore(outs, i + 1) by {
        forall j | 0 <= j < i + 1
          ensures outs[j].Skip? || outs[j].Linkless?
        {
          if j > 0 {
            assert outs[j] == rest[j - 1];
          }
        }
      }
    }
  }

  /** Every call that reports an open roll call carries its course, so the
      callback can always read `cours.presence` when `open` is true. */
  lemma {:induction false} ScanOpenHasCourse(outs: seq<RowOutcome>)
    requires CoursesCarried(outs)
    ensures forall k :: 0 <= k < |ScanOutcomes(outs).calls| ==>
      ScanOutcomes(outs).calls[k].open ==> ScanOutcomes(outs).calls[k].course.Some?
    decreases |outs|
  {
    if outs != [] {
      ScanOpenHasCourse(outs[1..]);
    }
  }

  /** A scan with no exception goes through. */
  lemma {:induction false} ScanNoThrow(outs: seq<RowOutcome>)
    requires forall i :: 0 <= i < |outs| ==> !outs[i].Throws?
    ensures ScanOutcomes(outs).Scanned?
    decreases |outs|
  {
    if outs != [] {
      ScanNoThrow(outs[1..]);
    }
  }

  /** The loop over the rows, each row read by `step`: a row under way
      without a link reports it and the loop goes on, the first one with a
      link reports the panel's state and ends it, and an exception ends it
      too. */
  method ScanWith(rows: seq<Row>, step: Row -> RowOutcome) returns (calls: seq<Payload>, found: bool, error: Option<string>)
    ensures ScanOutcomes(Map(rows, step)) == if error.Some? then Crashed(calls, error.value) else Scanned(calls, found)
  {
    ghost var outs := Map(rows, step);
    calls, found, error := [], false, None;
    var i := 0;
    while i < |rows|
      invariant 0 <= i <= |rows|
      invariant ScanOutcomes(outs) == Concat(calls, ScanOutcomes(outs[i..]))
    {
      assert outs[i..][1..] == outs[i + 1..];
      var o := step(rows[i]);
      assert outs[i..][0] == o;
      match o {
        case Skip =>
        case Linkless =>
          assert calls + ([NoLinkPayload] + ScanOutcomes(outs[i + 1..]).calls) ==
            calls + [NoLinkPayload] + ScanOutcomes(outs[i + 1..]).calls;
          calls := calls + [NoLinkPayload];
        case Found(p) =>
          calls := calls + [p];
          found := true;
          return;
        case Throws(e) =>
          assert calls + [] == calls;
          error := Some(e);
          return;
      }
      i := i + 1;
    }
    assert calls + [] == calls;
  }

  /** The scan of the presence table at time `now`. */
  method ScanTable(rows: seq<Row>, now: int) returns (calls: seq<Payload>, found: bool, error: Option<string>)
    ensures ScanOutcomes(Outcomes(rows, now)) == if error.Some? then Crashed(calls, error.value) else Scanned(calls, found)
  {
    calls, found, error := ScanWith(rows, StepAt(now));
  }

  // ---------------------------------------------------------------------
  // The whole check
  // ---------------------------------------------------------------------

  /** `getLapelle`: without both credentials in the environment it returns
      the error object and launches nothing; a failed launch or page is
      only logged; otherwise the table is scanned, a scan that did not stop
      at a course adds the "no course" call, an exception adds the error
      call, and the browser is closed. */
  function GetLapelle(env: map<string, string>, o: Options, session: Session, now: int): (r: Run)
    ensures !IsSet(env, EnvKey(o, "EMAIL")) || !IsSet(env, EnvKey(o, "PASSWORD")) <==> r.returned.Some?
    ensures r.returned.Some? ==> r == Run([], Some(MissingEnvError), false, false)
    ensures r.closed <==> r.returned.None? && session.Opened?
    ensures r.calls != [] <==> r.closed
  {
    if !IsSet(env, EnvKey(o, "EMAIL")) || !IsSet(env, EnvKey(o, "PASSWORD")) then
      Run([], Some(MissingEnvError), false, false)
    else
      match session
      case LaunchFails => Run([], None, false, false)
      case PageFails => Run([], None, true, false)
      case Opened(table) => Run(TableCalls(table, now), None, true, true)
  }

  /** The calls made once the browser is open. */
  function TableCalls(table: Result<seq<Row>, string>, now: int): seq<Payload> {
    match table
    case Err(e) => [ErrorPayload(e)]
    case Ok(rows) => ScanCalls(Outcomes(rows, now))
  }

  /** The calls made by a scan and what follows it: the "no course" call
      when it did not stop at a course, the error call when it crashed. */
  function ScanCalls(outs: seq<RowOutcome>): (calls: seq<Payload>)
    ensures calls != []
  {
    ScanShape(outs);
    match ScanOutcomes(outs)
    case Scanned(calls, found) => if found then calls else calls + [NoCoursePayload]
    case Crashed(calls, e) => calls + [ErrorPayload(e)]
  }

  /** The last call of a check that did not end in a course's state. */
  predicate ClosingCall(last: Payload) {
    last == NoCoursePayload || (!last.open && last.course.None? && StartsWith(last.message, ErrorPrefix))
  }

  /** The calls of a scan: every call before the last reports a row under
      way without a link; the last is a course's state, the "no course"
      call or an error; and an open roll call always has its course. */
  lemma ScanCallsShape(outs: seq<RowOutcome>)
    requires CoursesCarried(outs)
    ensures var calls := ScanCalls(outs);
      forall k :: 0 <= k < |calls| - 1 ==> calls[k] == NoLinkPayload
    ensures var last := ScanCalls(outs)[|ScanCalls(outs)| - 1];
      Found(last) in outs || ClosingCall(last)
    ensures var calls := ScanCalls(outs);
      forall k :: 0 <= k < |calls| ==> calls[k].open ==> calls[k].course.Some?
  {
    ScanShape(outs);
    ScanOpenHasCourse(outs);
    var s := ScanOutcomes(outs);
    if s.Crashed? {
      assert (ErrorPrefix + s.error)[..|ErrorPrefix|] == ErrorPrefix;
    }
  }

  /** With no exception on the way, the check ends with the "no course"
      call exactly when no row under way has a link. */
  lemma ScanCallsNoCourse(outs: seq<RowOutcome>)
    requires CoursesCarried(outs)
    requires forall i :: 0 <= i < |outs| ==> !outs[i].Throws?
    ensures var calls := ScanCalls(outs);
      calls[|calls| - 1] == NoCoursePayload <==> forall i :: 0 <= i < |outs| ==> !outs[i].Found?
  {
    ScanShape(outs);
    ScanNoThrow(outs);
    var s := ScanOutcomes(outs);
    if s.found {
      var i :| 0 <= i < |outs| && outs[i].Found? && PassesBefore(outs, i);
      var last := s.calls[|s.calls| - 1];
      var j :| 0 <= j < |outs| && outs[j] == Found(last);
    } else {
      forall i | 0 <= i < |outs|
        ensures !outs[i].Found?
      {
        if outs[i].Found? {
          FirstFound(outs, i);
        }
      }
    }
  }

  /** The calls of one check once the browser is open, as `ScanCallsShape`
      states them for the rows' outcomes; a table that cannot be read
      gives the error call alone. */
  lemma TableCallsShape(table: Result<seq<Row>, string>, now: int)
    ensures var calls := TableCalls(table, now);
      calls != [] && forall k :: 0 <= k < |calls| - 1 ==> calls[k] == NoLinkPayload
    ensures var calls := TableCalls(table, now);
      forall k :: 0 <= k < |calls| ==> calls[k].open ==> calls[k].course.Some?
    ensures table.Err? ==> TableCalls(table, now) == [ErrorPayload(table.error)]
  {
    if table.Ok? {
      OutcomesCarry(table.value, now);
      ScanCallsShape(Outcomes(table.value, now));
    }
  }

  /** With the table read and no exception on the way, the check ends with
      the "no course" call exactly when no row under way has a link. */
  lemma TableCallsNoCourse(rows: seq<Row>, now: int)
    requires forall i :: 0 <= i < |rows| ==> !Outcomes(rows, now)[i].Throws?
    ensures var calls := TableCalls(Ok(rows), now);
      calls[|calls| - 1] == NoCoursePayload <==> forall i :: 0 <= i < |rows| ==> !Outcomes(rows, now)[i].Found?
  {
    OutcomesCarry(rows, now);
    ScanCallsNoCourse(Outcomes(rows, now));
  }

  /** A row that reports a course, with no exception anywhere, means some
      first such row exists. */
  lemma FirstFound(outs: seq<RowOutcome>, i: nat)
    requires i < |outs| && outs[i].Found?
    requires forall j :: 0 <= j < |outs| ==> !outs[j].Throws?
    ensures exists f :: 0 <= f < |outs| && outs[f].Found? && PassesBefore(outs, f)
    decreases i
  {
    if exists j :: 0 <= j < i && outs[j].Found? {
      var j :| 0 <= j < i && outs[j].Found?;
      FirstFound(outs, j);
    } else {
      assert PassesBefore(outs, i);
    }
  }
}
