/**
 * The portal session: the credential rule of its constructor, the login
 * outcome, `use`, the presence-status decision table, the row that
 * `getPresence` picks and the parsing of the presence and calendar cells.
 */
module Portail {
  import opened Wrappers
  import opened Strings
  import opened Errors
  import opened Users
  import opened Courses
  import opened DateTime
  import opened Scraper

  const HomeUrl: string := "https://www.leonard-de-vinci.net/"
  const AdfsPrefix: string := "https://adfs.devinci.fr/adfs/ls"

  /** What a `use(callback)` call settles with: a value, `undefined`, or a
      thrown error. */
  datatype Outcome<T> = Got(value: T) | Nothing | Threw(error: Failure)

  // ---------------------------------------------------------------------
  // Construction

  datatype PortailOptions = PortailOptions(credentials: Option<Credentials>, keepOpen: Option<bool>)

  /** The state a new session starts from. */
  datatype Settings = Settings(credentials: Credentials, keepOpen: bool)

  /** `verify(token)`: nothing without a token; the decoded credentials for
      a token whose signature checks; a throw otherwise. */
  function Verify(t: Token): (r: Result<Option<Credentials>, Failure>)
    ensures t == NoToken ==> r == Ok(None)
    ensures t.Signed? ==> (r.Ok? <==> t.decoded.Some?) && (r.Ok? ==> r.value == t.decoded)
  {
    match t
    case NoToken => Ok(None)
    case Signed(decoded) => if decoded.Some? then Ok(decoded) else Err(Other("invalid signature"))
  }

  /** `new Portail(user, options)`: the token's credentials, else the
      credentials in the options, else `MissingCredentials`; `keepOpen`
      defaults to false. */
  function NewPortail(user: User, options: PortailOptions): (r: Result<Settings, Failure>)
    ensures r == Err(MissingCredentials) <==> user.credentials == NoToken && options.credentials.None?
    ensures r.Err? && r != Err(MissingCredentials) <==> user.credentials == Signed(None)
    ensures r.Ok? ==> r.value.keepOpen == (options.keepOpen == Some(true))
    ensures r.Ok? && user.credentials.Signed? ==> r.value.credentials == user.credentials.decoded.value
    ensures r.Ok? && user.credentials == NoToken ==> r.value.credentials == options.credentials.value
  {
    match Verify(user.credentials)
    case Err(e) => Err(e)
    case Ok(decoded) =>
      var credentials := if decoded.Some? then decoded else options.credentials;
      if credentials.None? then Err(MissingCredentials)
      else Ok(Settings(credentials.value, options.keepOpen == Some(true)))
  }

  const NoOptions: PortailOptions := PortailOptions(None, None)

  // ---------------------------------------------------------------------
  // Login and use

  function IsAdfs(url: string): bool {
    StartsWith(url, AdfsPrefix)
  }

  function IsHome(url: string): bool {
    url == HomeUrl
  }

  const EmailStep: NavOptions := NavOptions(None, Some("#btn_next"), Some(8000), true, Some(IsAdfs))
  const PasswordStep: NavOptions := NavOptions(None, Some("#submitButton"), Some(10000), true, Some(IsHome))
  const HomeStep: NavOptions := NavOptions(Some(HomeUrl), None, Some(10000), false, None)

  /** `login()`: nothing to do without a page or without a login form;
      otherwise the e-mail step must land on the ADFS sign-in page and the
      password step on the portal home. Filling the fields never fails. */
  function Login(hasPage: bool, loginForm: bool, browse: (Action, int) -> Option<string>): (r: Result<(), Failure>)
    ensures r == Ok(()) || r == Err(InvalidEmail) || r == Err(InvalidPassword)
    ensures r == Err(InvalidEmail) <==> (hasPage && loginForm &&
      !(browse(Click("#btn_next"), 8000).Some? && IsAdfs(browse(Click("#btn_next"), 8000).value)))
    ensures r == Err(InvalidPassword) <==> (hasPage && loginForm &&
      browse(Click("#btn_next"), 8000).Some? && IsAdfs(browse(Click("#btn_next"), 8000).value) &&
      browse(Click("#submitButton"), 10000) != Some(HomeUrl))
  {
    if !hasPage || !loginForm then Ok(())
    else if Navigate(true, EmailStep, browse) != Ok(true) then Err(InvalidEmail)
    else if Navigate(true, PasswordStep, browse) != Ok(true) then Err(InvalidPassword)
    else Ok(())
  }

  /** What `use(callback)` settles with when the callback settles with
      `body`: the home page must load and the login succeed first. */
  function UseOutcome<T>(browse: (Action, int) -> Option<string>, loginForm: bool, body: Outcome<T>): (r: Outcome<T>)
    ensures Navigate(true, HomeStep, browse).Ok? && Login(true, loginForm, browse).Ok? ==> r == body
    ensures Navigate(true, HomeStep, browse).Err? ==> r.Threw? && !IsDiscordError(r.error)
    ensures Navigate(true, HomeStep, browse).Ok? && Login(true, loginForm, browse).Err? ==>
      r == Threw(Login(true, loginForm, browse).error)
  {
    match Navigate(true, HomeStep, browse)
    case Err(e) => Threw(e)
    case Ok(_) =>
      match Login(true, loginForm, browse)
      case Err(e) => Threw(e)
      case Ok(_) => body
  }

  /** A portal session (`Portail`). */
  class Portail {
    var credentials: Credentials
    var loggedIn: bool
    var keepOpen: bool
    /** A page is open (`create` opened it and `close` has not closed it). */
    var pageOpen: bool

    /** `loggedIn` is declared false and nothing ever sets it. */
    predicate Valid()
      reads this
    {
      !loggedIn
    }

    constructor(settings: Settings)
      ensures Valid()
      ensures credentials == settings.credentials && keepOpen == settings.keepOpen && !pageOpen
    {
      credentials := settings.credentials;
      loggedIn := false;
      keepOpen := settings.keepOpen;
      pageOpen := false;
    }

    /** `use(callback)`, once the browser runs it: open a page and log in
      (every time, since `loggedIn` stays false), run the callback, and close
      the page unless `keepOpen` is set, whatever happened. */
    method Use<T>(browse: (Action, int) -> Option<string>, loginForm: bool, body: Outcome<T>) returns (r: Outcome<T>)
      requires Valid()
      modifies this
      ensures Valid()
      ensures r == UseOutcome(browse, loginForm, body)
      ensures pageOpen == keepOpen
      ensures credentials == old(credentials) && keepOpen == old(keepOpen)
    {
      r := body;
      if !loggedIn {
        pageOpen := true;
        var home := Navigate(pageOpen, HomeStep, browse);
        if home.Err? {
          r := Threw(home.error);
        } else {
          var login := Login(pageOpen, loginForm, browse);
          if login.Err? {
            r := Threw(login.error);
          }
        }
      }
      if !keepOpen {
        pageOpen := false;
      }
    }
  }

  // ---------------------------------------------------------------------
  // Presence status

  datatype Status = Open | Closed | NotStarted

  const PresentText: string := "avez \U{E9}t\U{E9} not\U{E9} pr\U{E9}sent"
  const ClosedText: string := "L'appel est cl\U{F4}tur\U{E9}"
  const NotOpenText: string := "pas encore ouvert"
  const ValidateText: string := "Valider la pr\U{E9}sence"

  /** The text of the success alert, of the danger alert and of the
      `set-presence` span, for those that are on the page. */
  datatype Markers = Markers(success: Option<string>, danger: Option<string>, setPresence: Option<string>)

  predicate Says(element: Option<string>, text: string) {
    element.Some? && Contains(element.value, text)
  }

  /** The decision table of `getPresence`. */
  function Classify(m: Markers): (s: Status)
    ensures s == NotStarted <==> !Says(m.success, PresentText) && Says(m.danger, NotOpenText)
    ensures s == Open <==>
      (Says(m.success, PresentText) && !Says(m.danger, ClosedText)) ||
      (!Says(m.success, PresentText) && m.danger.None? && Says(m.setPresence, ValidateText))
  {
    if Says(m.success, PresentText) then
      (if Says(m.danger, ClosedText) then Closed else Open)
    else if Says(m.danger, NotOpenText) then NotStarted
    else if m.danger.Some? then Closed
    else if Says(m.setPresence, ValidateText) then Open
    else Closed
  }

  /** A danger alert outranks the `set-presence` span: once there is one, the
      span is not looked at. */
  lemma DangerOutranksValidate(m: Markers, span: Option<string>)
    requires m.danger.Some?
    ensures Classify(m) == Classify(m.(setPresence := span))
  {
  }

  /** A presence row: its times (`None` for an Invalid Date), subject,
      teacher and link. */
  datatype Presence = Presence(beginning: Option<int>, end: Option<int>, subject: string, teacher: string, url: string)

  datatype PresenceStatus = PresenceStatus(presence: Presence, status: Status)

  /** The row describes the course: same subject, same start, same end. */
  predicate Describes(p: Presence, c: Course) {
    p.subject == c.subject && p.beginning == Some(c.beginning) && p.end == Some(c.end)
  }

  /** `presences.find(...)`: the index of the first row describing the course. */
  function FindPresence(rows: seq<Presence>, c: Course): (r: Option<nat>)
    ensures r.Some? ==> (r.value < |rows| && Describes(rows[r.value], c) &&
      forall k :: 0 <= k < r.value ==> !Describes(rows[k], c))
    ensures r.None? ==> forall k :: 0 <= k < |rows| ==> !Describes(rows[k], c)
  {
    if rows == [] then None
    else if Describes(rows[0], c) then Some(0)
    else
      match FindPresence(rows[1..], c)
      case None => None
      case Some(k) => Some(k + 1)
  }

  /** The presence page of a row, once its link is followed: whether the
      navigation succeeded, and the markers of `#body_presence` if that
      element is there. */
  datatype PresencePage = PresencePage(reached: bool, body: Option<Markers>)

  /** `getPresence(course)` given the rows of the presence list and the page
      each row leads to. `get("#body_presence")` is called without `safe`,
      so a missing element rejects. */
  function GetPresence(rows: seq<Presence>, c: Course, page: Presence -> PresencePage): (r: Result<Option<PresenceStatus>, Failure>)
    ensures r == Ok(None) <==> FindPresence(rows, c).None?
    ensures r.Ok? && r.value.Some? ==>
      FindPresence(rows, c).Some? && r.value.value.presence == rows[FindPresence(rows, c).value] &&
      page(r.value.value.presence).body.Some? &&
      r.value.value.status == Classify(page(r.value.value.presence).body.value)
    ensures r.Err? <==> (FindPresence(rows, c).Some? &&
      (!page(rows[FindPresence(rows, c).value]).reached || page(rows[FindPresence(rows, c).value]).body.None?))
  {
    match FindPresence(rows, c)
    case None => Ok(None)
    case Some(k) =>
      var p := page(rows[k]);
      if !p.reached then Err(Other("navigation failed"))
      else
        match p.body
        case Some(markers) => Ok(Some(PresenceStatus(rows[k], Classify(markers))))
        case None => Err(Other("L'\U{E9}l\U{E9}ment correspondant au s\U{E9}lecteur #body_presence est nul ou ind\U{E9}fini."))
  }

  // ---------------------------------------------------------------------
  // Cell parsing

  /** The two times of a presence row's first cell: trimmed, stripped of all
      white space, split on '-'. A cell without '-' has no end field, and
      reading it throws. */
  function PresenceTimes(cell: string): (r: Result<(Option<int>, Option<int>), Failure>)
    ensures r.Err? <==> '-' !in RemoveSpaces(Trim(cell))
  {
    var fields := Split(RemoveSpaces(Trim(cell)), '-');
    if |fields| < 2 then Err(Other("Cannot read properties of undefined (reading 'split')"))
    else Ok((GetDateFromString(fields[0]), GetDateFromString(fields[1])))
  }

  /** White space anywhere in the cell makes no difference. */
  lemma PresenceTimesIgnoresSpaces(a: string, b: string)
    requires RemoveSpaces(a) == RemoveSpaces(b)
    ensures PresenceTimes(a) == PresenceTimes(b)
  {
    RemoveSpacesOfTrim(a);
    RemoveSpacesOfTrim(b);
  }

  /** The clock text `String(h) + ":" + String(m)`. */
  function Clock(h: nat, m: nat): string {
    NatToString(h) + [':'] + NatToString(m)
  }

  /** Two dash-free fields without white space around a '-' read as the
      times of those two fields. */
  lemma PresenceTimesOfFields(first: string, second: string)
    requires NoSpace(first) && NoSpace(second)
    requires '-' !in first && '-' !in second
    ensures PresenceTimes(first + ['-'] + second) == Ok((GetDateFromString(first), GetDateFromString(second)))
  {
    var cell := first + ['-'] + second;
    assert NoSpace(cell) by {
      forall i | 0 <= i < |cell| ensures !IsJsSpace(cell[i]) {
        if i < |first| { assert cell[i] == first[i]; }
        else if i > |first| { assert cell[i] == second[i - |first| - 1]; }
      }
    }
    assert Join([first, second], '-') == cell by {
      assert [first, second][1..] == [second];
    }
    SplitJoin([first, second], '-');
  }

  /** A cell "H:M-H:M" written from two clock times reads back as those
      times, in minutes. */
  lemma PresenceTimesOfClocks(h1: nat, m1: nat, h2: nat, m2: nat)
    ensures PresenceTimes(Clock(h1, m1) + ['-'] + Clock(h2, m2)) == Ok((Some(60 * h1 + m1), Some(60 * h2 + m2)))
  {
    ClockHasNoSpaceOrDash(h1, m1);
    ClockHasNoSpaceOrDash(h2, m2);
    PresenceTimesOfFields(Clock(h1, m1), Clock(h2, m2));
    GetDateFromStringOfClock(h1, m1);
    GetDateFromStringOfClock(h2, m2);
  }

  lemma ClockHasNoSpaceOrDash(h: nat, m: nat)
    ensures NoSpace(Clock(h, m)) && '-' !in Clock(h, m)
  {
    var hs, ms := NatToString(h), NatToString(m);
    DigitsHaveNoSpace(hs);
    DigitsHaveNoSpace(ms);
    var clock := Clock(h, m);
    forall i | 0 <= i < |clock| ensures !IsJsSpace(clock[i]) && clock[i] != '-' {
      if i < |hs| { assert clock[i] == hs[i]; }
      else if i > |hs| { assert clock[i] == ms[i - |hs| - 1]; }
    }
  }

  function TrimAll(parts: seq<string>): (r: seq<string>)
    ensures |r| == |parts|
    ensures forall i :: 0 <= i < |r| ==> r[i] == Trim(parts[i])
  {
    seq(|parts|, i requires 0 <= i < |parts| => Trim(parts[i]))
  }

  /** Trimming keeps a character out and is idempotent. */
  lemma TrimKeepsOut(p: string, c: char)
    requires c !in p
    ensures c !in Trim(p) && Trim(Trim(p)) == Trim(p)
  {
    var r := Trim(p);
    var l := LeadingSpaces(p);
    assert r == p[l..l + |r|];
    forall i | 0 <= i < |r| ensures r[i] != c {
      assert r[i] == p[l + i];
    }
    TrimIdempotent(p);
  }

  /** `text.split(",").map((v) => v.trim())`. */
  function SplitTrim(text: string): (r: seq<string>)
    ensures |r| >= 1
    ensures forall i :: 0 <= i < |r| ==> ',' !in r[i] && Trim(r[i]) == r[i]
  {
    var parts := Split(text, ',');
    var r := TrimAll(parts);
    forall i | 0 <= i < |r| ensures ',' !in r[i] && Trim(r[i]) == r[i] {
      TrimKeepsOut(parts[i], ',');
    }
    r
  }

  /** A comma-separated list of trimmed names without commas reads back as
      those names. */
  lemma SplitTrimJoin(names: seq<string>)
    requires |names| >= 1
    requires forall i :: 0 <= i < |names| ==> ',' !in names[i] && Trim(names[i]) == names[i]
    ensures SplitTrim(Join(names, ',')) == names
  {
    SplitJoin(names, ',');
  }

  predicate IsLineTerminator(c: char) {
    c == '\n' || c == '\r' || c == '\U{2028}' || c == '\U{2029}'
  }

  /** `[` at `q` opens a suffix `[...]` that runs, without a line break, to
      the closing `]` that ends the text. */
  predicate OpensSuffix(s: string, q: int) {
    0 <= q < |s| - 1 && s[q] == '[' && s[|s| - 1] == ']' &&
    forall k :: q < k < |s| - 1 ==> !IsLineTerminator(s[k])
  }

  /** `t` matches `\s*\[.*?\]$` as a whole. */
  predicate SuffixShape(t: string) {
    exists q :: 0 <= q < |t| && OpensSuffix(t, q) && forall k :: 0 <= k < q ==> IsJsSpace(t[k])
  }

  function FirstOpening(s: string, from: nat): (r: Option<nat>)
    ensures r.Some? ==> from <= r.value && OpensSuffix(s, r.value)
    ensures forall q :: from <= q && (r.None? || q < r.value) ==> !OpensSuffix(s, q)
    decreases |s| - from
  {
    if from + 1 >= |s| then None
    else if OpensSuffix(s, from) then Some(from)
    else FirstOpening(s, from + 1)
  }

  /** Start of the run of white space that ends at `q`. */
  function SpaceRunStart(s: string, q: nat): (p: nat)
    requires q <= |s|
    ensures p <= q
    ensures forall k :: p <= k < q ==> IsJsSpace(s[k])
    ensures p == 0 || !IsJsSpace(s[p - 1])
  {
    if q > 0 && IsJsSpace(s[q - 1]) then SpaceRunStart(s, q - 1) else q
  }

  /** `name.replace(/\s*\[.*?\]$/, "")`: the leftmost match of the pattern is
      removed. It is a suffix of the name — a bracketed part closing the
      name, with no line break inside, and the white space before it. */
  function StripSuffix(s: string): (r: string)
    ensures |r| <= |s| && r == s[..|r|]
    ensures r != s ==> SuffixShape(s[|r|..])
    ensures forall k :: 0 <= k < |r| ==> !SuffixShape(s[k..])
    ensures r == s ==> forall k :: 0 <= k <= |s| ==> !SuffixShape(s[k..])
  {
    match FirstOpening(s, 0)
    case None =>
      forall k | 0 <= k <= |s| ensures !SuffixShape(s[k..]) {
        NoShapeWithout(s, k);
      }
      s
    case Some(q) =>
      var p := SpaceRunStart(s, q);
      assert OpensSuffix(s[p..], q - p);
      forall k | 0 <= k < p ensures !SuffixShape(s[k..]) {
        NoShapeBefore(s, q, p, k);
      }
      s[..p]
  }

  /** An opening bracket of a suffix of `s` is one of `s`. */
  lemma OpensShift(s: string, k: nat, q: int)
    requires k <= |s|
    ensures OpensSuffix(s[k..], q) ==> OpensSuffix(s, k + q)
  {
    var t := s[k..];
    if OpensSuffix(t, q) {
      assert t[q] == s[k + q] && t[|t| - 1] == s[|s| - 1];
      forall i | k + q < i < |s| - 1 ensures !IsLineTerminator(s[i]) {
        assert s[i] == t[i - k];
      }
    }
  }

  /** Without an opening bracket nothing matches. */
  lemma NoShapeWithout(s: string, k: nat)
    requires k <= |s|
    requires forall q :: 0 <= q ==> !OpensSuffix(s, q)
    ensures !SuffixShape(s[k..])
  {
    var t := s[k..];
    forall q | 0 <= q < |t| ensures !OpensSuffix(t, q) {
      OpensShift(s, k, q);
    }
  }

  /** No match starts before the run of white space in front of the first
      opening bracket. */
  lemma NoShapeBefore(s: string, q: nat, p: nat, k: nat)
    requires OpensSuffix(s, q) && forall i :: 0 <= i < q ==> !OpensSuffix(s, i)
    requires p == SpaceRunStart(s, q)
    requires k < p
    ensures !SuffixShape(s[k..])
  {
    var t := s[k..];
    forall q' | 0 <= q' < |t| && OpensSuffix(t, q')
      ensures !(forall i :: 0 <= i < q' ==> IsJsSpace(t[i]))
    {
      OpensShift(s, k, q');
      assert t[p - 1 - k] == s[p - 1];
    }
  }

  /** The cells of a calendar entry, as `getCourseData` reads them (the
      campus, teachers and groups cells are already trimmed). */
  datatype CourseCells = CourseCells(
    id: string, beginning: string, end: string, name: string,
    teachers: string, rooms: string, campus: string, groups: string,
    zoom: Option<string>)

  /** `getCourseData`: the course an entry describes, or `None` when one of
      its times is not a clock time. */
  function CourseData(cells: CourseCells): (r: Option<Course>)
    ensures r.Some? <==> GetDateFromString(cells.beginning).Some? && GetDateFromString(cells.end).Some?
    ensures r.Some? ==> (r.value.id == cells.id && r.value.subject == StripSuffix(cells.name) &&
      r.value.groups == SplitTrim(cells.groups) && r.value.teachers == SplitTrim(cells.teachers) &&
      r.value.rooms == SplitTrim(cells.rooms) && r.value.campus == SplitTrim(cells.campus) &&
      r.value.zoom == cells.zoom)
  {
    match (GetDateFromString(cells.beginning), GetDateFromString(cells.end))
    case (Some(b), Some(e)) =>
      Some(Course(cells.id, b, e, StripSuffix(cells.name), SplitTrim(cells.teachers),
        SplitTrim(cells.rooms), SplitTrim(cells.campus), SplitTrim(cells.groups), cells.zoom))
    case _ => None
  }
}
