/**
 * The page primitives every portal session uses (`find`, `get`, `getAll`,
 * `input`, `navigate`). What the browser does — whether a selector shows
 * up, which element a query returns, where a navigation lands — is given
 * as an input; these members state what each primitive then returns,
 * resolves, rejects or calls.
 */
module Scraper {
  import opened Wrappers
  import opened Errors

  /** An element handle, identified by a number. */
  type Element = nat

  /** How a promise ends: resolved, rejected, or never settled. */
  datatype Settle<T> = Resolved(value: T) | Rejected(error: Failure) | Pending

  /** `find` waits this long, whatever timeout it is given. */
  const FindWait: int := 5000

  /** `navigate` waits this long when no (or a zero) timeout is given. */
  const DefaultNavigationTimeout: int := 10000

  const NoPage: string := "Page has not been defined !"

  /** The callback passed to `find`, described by the arguments on which it
      throws. */
  datatype Callback = NoCallback | Callback(throwsOn: set<bool>)

  /** What `find` returns (or throws) and the arguments the callback was
      called with, in order. */
  datatype FindResult = FindResult(outcome: Result<bool, Failure>, calls: seq<bool>)

  /** Whether `waitForSelector` succeeds: the selector appears within the
      fixed wait. `appearsAfter` is when it appears, if ever. */
  predicate Appears(appearsAfter: Option<int>) {
    appearsAfter.Some? && appearsAfter.value <= FindWait
  }

  /** The failure a throwing callback raises. */
  const CallbackError: Failure := Other("callback")

  /** `find(selector, { timeout, callback })`. The callback is awaited inside
      the `try`, so a callback that throws on `true` is called a second time
      with `false`, and `find` then returns `false`. */
  function Find(hasPage: bool, appearsAfter: Option<int>, timeout: Option<int>, callback: Callback): (r: FindResult)
    ensures !hasPage ==> r == FindResult(Err(Other(NoPage)), [])
    ensures hasPage && callback.NoCallback? ==> r == FindResult(Ok(Appears(appearsAfter)), [])
    ensures r.outcome == Ok(true) ==> hasPage && Appears(appearsAfter) && (callback.NoCallback? || r.calls == [true])
    ensures hasPage && callback.Callback? ==> 1 <= |r.calls| <= 2
    ensures |r.calls| == 2 ==> r.calls == [true, false] && callback.Callback? && true in callback.throwsOn
    ensures hasPage && callback.Callback? && r.outcome.Ok? ==> r.calls[|r.calls| - 1] == r.outcome.value
    ensures r.outcome.Err? && hasPage ==> callback.Callback? && false in callback.throwsOn && r.calls[|r.calls| - 1] == false
  {
    if !hasPage then FindResult(Err(Other(NoPage)), [])
    else
      match callback
      case NoCallback => FindResult(Ok(Appears(appearsAfter)), [])
      case Callback(throwsOn) =>
        var first := if Appears(appearsAfter) then [true] else [];
        if Appears(appearsAfter) && true !in throwsOn then FindResult(Ok(true), [true])
        else if false in throwsOn then FindResult(Err(CallbackError), first + [false])
        else FindResult(Ok(false), first + [false])
  }

  /** The wait is fixed: the timeout a caller passes makes no difference. */
  lemma FindIgnoresTimeout(hasPage: bool, appearsAfter: Option<int>, t1: Option<int>, t2: Option<int>, callback: Callback)
    ensures Find(hasPage, appearsAfter, t1, callback) == Find(hasPage, appearsAfter, t2, callback)
    ensures appearsAfter.Some? && appearsAfter.value > FindWait && t1.Some? && t1.value >= appearsAfter.value ==>
      Find(hasPage, appearsAfter, t1, NoCallback).outcome != Ok(true)
  {
  }

  /** `get(selector, { parent, safe })`: `element` is what `target.$(selector)`
      gives. The target is the parent when one is given, else the page. */
  function Get(hasParent: bool, hasPage: bool, element: Option<Element>, safe: bool): (r: Settle<Option<Element>>)
    ensures r != Pending
    ensures !hasParent && !hasPage ==> r.Rejected?
    ensures (hasParent || hasPage) && element.Some? ==> r == Resolved(element)
    ensures r == Resolved(None) <==> (hasParent || hasPage) && element.None? && safe
    ensures r.Rejected? <==> (!hasParent && !hasPage) || (element.None? && !safe)
  {
    if !hasParent && !hasPage then Rejected(Other("Parent element or page is not available."))
    else if element.Some? then Resolved(element)
    else if safe then Resolved(None)
    else Rejected(Other("element not found"))
  }

  /** The defined entries of `s`, in order (`filter(Boolean)`). */
  function Defined(s: seq<Option<Element>>): (r: seq<Element>)
    ensures |r| <= |s|
    ensures forall x :: x in r <==> Some(x) in s
  {
    if s == [] then []
    else (if s[0].Some? then [s[0].value] else []) + Defined(s[1..])
  }

  /** `filter(Boolean)` keeps the handles in the order `$$` returned them,
      one entry at a time; this order decides which handles a limit keeps. */
  lemma {:induction false} DefinedAppend(a: seq<Option<Element>>, b: seq<Option<Element>>)
    ensures Defined(a + b) == Defined(a) + Defined(b)
    ensures |a| == 1 ==> Defined(a) == if a[0].Some? then [a[0].value] else []
  {
    if a != [] {
      assert (a + b)[0] == a[0] && (a + b)[1..] == a[1..] + b;
      DefinedAppend(a[1..], b);
    } else {
      assert a + b == b;
    }
  }

  /** The end index `slice(0, limit)` stops at on a list of length `len`:
      a negative limit counts from the end, and the end is clamped to
      [0, len]. */
  function SliceEnd(len: nat, limit: int): (k: nat)
    ensures k <= len
    ensures limit >= 0 ==> k == if limit < len then limit else len
    ensures limit < 0 ==> k == if len + limit > 0 then len + limit else 0
  {
    if limit >= 0 then (if limit < len then limit else len)
    else if len + limit > 0 then len + limit else 0
  }

  /** `getAll(selector, { limit })`. `found` is what `page.$$(selector)`
      returns once the selector has appeared. With no page, `find` throws
      inside the promise executor and the returned promise never settles.
      A limit of 0 (or no limit) keeps every element. */
  method GetAll(hasPage: bool, appearsAfter: Option<int>, found: seq<Option<Element>>, limit: Option<int>)
    returns (r: Settle<seq<Element>>)
    ensures !hasPage <==> r.Pending?
    ensures hasPage && !Appears(appearsAfter) ==> r.Rejected?
    ensures hasPage && Appears(appearsAfter) ==> (r.Resolved? &&
      r.value == Defined(found)[..if limit.Some? && limit.value != 0 then SliceEnd(|Defined(found)|, limit.value) else |Defined(found)|])
    ensures r.Resolved? ==> r.value <= Defined(found)
    ensures r.Resolved? && limit.Some? && limit.value > 0 ==> |r.value| <= limit.value
  {
    if !hasPage {
      return Pending;
    }
    if !Appears(appearsAfter) {
      return Rejected(Other("selector not found"));
    }
    var elements := Defined(found);
    if limit.Some? && limit.value != 0 {
      elements := elements[..SliceEnd(|elements|, limit.value)];
    }
    return Resolved(elements);
  }

  /** `input(selector, value)`: the new value of the field. The value is
      written when the selector shows up; otherwise the miss is only
      logged. Only a missing page rejects. */
  function Input(hasPage: bool, appearsAfter: Option<int>, field: string, value: string): (r: Result<string, Failure>)
    ensures r.Err? <==> !hasPage
    ensures hasPage && Appears(appearsAfter) ==> r == Ok(value)
    ensures hasPage && !Appears(appearsAfter) ==> r == Ok(field)
  {
    if !hasPage then Err(Other(NoPage))
    else if Appears(appearsAfter) then Ok(value)
    else Ok(field)
  }

  /** What a navigation does: load a URL, or click an element. */
  datatype Action = Goto(url: string) | Click(selector: string)

  datatype NavOptions = NavOptions(
    url: Option<string>,
    click: Option<string>,
    timeout: Option<int>,
    safe: bool,
    validate: Option<string -> bool>)

  /** The action `navigate` performs: the URL if one is given (and
      non-empty), else the click selector, else none. */
  function Target(o: NavOptions): Option<Action> {
    if o.url.Some? && o.url.value != "" then Some(Goto(o.url.value))
    else if o.click.Some? && o.click.value != "" then Some(Click(o.click.value))
    else None
  }

  /** `options.timeout || 10000`. */
  function Wait(o: NavOptions): (w: int)
    ensures o.timeout.None? || o.timeout == Some(0) ==> w == DefaultNavigationTimeout
    ensures o.timeout.Some? && o.timeout.value != 0 ==> w == o.timeout.value
  {
    if o.timeout.Some? && o.timeout.value != 0 then o.timeout.value else DefaultNavigationTimeout
  }

  /** The navigation succeeds: there is a page and an action, the page
      lands somewhere within the wait, and the landing URL passes
      `validate` if there is one. `browse` says where an action lands
      within a given wait (`None`: it times out or fails). */
  predicate Navigated(hasPage: bool, o: NavOptions, browse: (Action, int) -> Option<string>) {
    hasPage && Target(o).Some? && browse(Target(o).value, Wait(o)).Some? &&
    (o.validate.None? || o.validate.value(browse(Target(o).value, Wait(o)).value))
  }

  /** `navigate(options)`: `true` on success; on any failure `false` when
      `safe` is set, and a rejection otherwise. */
  function Navigate(hasPage: bool, o: NavOptions, browse: (Action, int) -> Option<string>): (r: Result<bool, Failure>)
    ensures r == Ok(true) <==> Navigated(hasPage, o, browse)
    ensures r == Ok(false) <==> !Navigated(hasPage, o, browse) && o.safe
    ensures r.Err? <==> !Navigated(hasPage, o, browse) && !o.safe
  {
    if !hasPage then (if o.safe then Ok(false) else Err(Other("Page has not initialized.")))
    else
      match Target(o)
      case None => if o.safe then Ok(false) else Err(Other("Neither URL nor click selector provided for navigation."))
      case Some(action) =>
        match browse(action, Wait(o))
        case None => if o.safe then Ok(false) else Err(Other("navigation timeout"))
        case Some(location) =>
          if o.validate.Some? && !o.validate.value(location) then
            (if o.safe then Ok(false) else Err(Other("Impossible de valider l'URL: " + location)))
          else Ok(true)
  }
}
