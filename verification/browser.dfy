/**
 * The browser pool of `browser.ts`: one shared browser instance and a FIFO
 * queue of tasks. Each call of `use` is a ticket whose promise settles
 * once (the first `resolve` or `reject` wins); each queued entry carries
 * the outcome its task body produces when run. `process` is modelled one
 * iteration at a time (`Step`), so other calls may queue work between two
 * iterations just as they can between two `await`s.
 */
module BrowserPool {
  import opened Wrappers

  const LaunchError: string := "Could not launch browser!"
  const ShutdownError: string := "BrowserShutdown"
  const UndefinedError: string := "Browser has not been defined !"

  /** A queued closure: the caller's ticket and what its task body yields. */
  datatype Entry = Entry(ticket: nat, result: Result<int, string>)

  /** How a caller's promise settled. */
  datatype Settlement = Fulfilled(value: int) | Rejected(reason: string)

  function Tickets(q: seq<Entry>): (r: seq<nat>)
    ensures |r| == |q| && forall i :: 0 <= i < |q| ==> r[i] == q[i].ticket
  {
    seq(|q|, i requires 0 <= i < |q| => q[i].ticket)
  }

  /** The tickets `0, 1, ..., n - 1`, in submission order. */
  function Range(n: nat): (r: seq<nat>)
    ensures |r| == n && forall i :: 0 <= i < n ==> r[i] == i
  {
    seq(n, i => i)
  }

  /** A promise settles once: a later `resolve` or `reject` is ignored. */
  function Settle(s: map<nat, Settlement>, t: nat, v: Settlement): (r: map<nat, Settlement>)
    ensures t in r && r[t] == (if t in s then s[t] else v)
    ensures forall u :: u != t ==> (u in r <==> u in s) && (u in r ==> r[u] == s[u])
  {
    if t in s then s else s[t := v]
  }

  function SettlementOf(result: Result<int, string>): Settlement {
    if result.Ok? then Fulfilled(result.value) else Rejected(result.error)
  }

  /** Running a queued closure: with a shutdown error it first rejects its
      caller, then (there is no `return`) runs the task body anyway and
      tries to settle with the body's outcome. */
  function RunEntry(s: map<nat, Settlement>, e: Entry, shutdown: bool): map<nat, Settlement> {
    var rejected := if shutdown then Settle(s, e.ticket, Rejected(ShutdownError)) else s;
    Settle(rejected, e.ticket, SettlementOf(e.result))
  }

  /** The `for` loop of a forced `close` over the first `n` entries. */
  function ForceAll(s: map<nat, Settlement>, q: seq<Entry>, n: nat): map<nat, Settlement>
    requires n <= |q|
  {
    if n == 0 then s else RunEntry(ForceAll(s, q, n - 1), q[n - 1], true)
  }

  /** A task body only settles its own caller's promise. */
  lemma RunEntryIsolated(s: map<nat, Settlement>, e: Entry, shutdown: bool)
    ensures e.ticket in RunEntry(s, e, shutdown)
    ensures forall u :: u != e.ticket ==>
      (u in RunEntry(s, e, shutdown) <==> u in s) && (u in RunEntry(s, e, shutdown) ==> RunEntry(s, e, shutdown)[u] == s[u])
    ensures e.ticket !in s ==>
      RunEntry(s, e, shutdown)[e.ticket] == (if shutdown then Rejected(ShutdownError) else SettlementOf(e.result))
    ensures e.ticket in s ==> RunEntry(s, e, shutdown)[e.ticket] == s[e.ticket]
  {
  }

  /** A forced close rejects every queued caller whose promise was still
      pending with the shutdown error, and touches no other promise. */
  lemma {:induction false} ForceAllRejects(s: map<nat, Settlement>, q: seq<Entry>, n: nat)
    requires n <= |q|
    ensures forall k :: 0 <= k < n && q[k].ticket !in s ==>
      q[k].ticket in ForceAll(s, q, n) && ForceAll(s, q, n)[q[k].ticket] == Rejected(ShutdownError)
    ensures forall u :: u !in Tickets(q[..n]) ==>
      (u in ForceAll(s, q, n) <==> u in s) && (u in ForceAll(s, q, n) ==> ForceAll(s, q, n)[u] == s[u])
    ensures forall u :: u in s ==> u in ForceAll(s, q, n) && ForceAll(s, q, n)[u] == s[u]
  {
    if n > 0 {
      ForceAllRejects(s, q, n - 1);
      var prev, e := ForceAll(s, q, n - 1), q[n - 1];
      var r := ForceAll(s, q, n);
      RunEntryIsolated(prev, e, true);
      var before := Tickets(q[..n - 1]);
      assert Tickets(q[..n]) == before + [e.ticket];
      forall k | 0 <= k < n && q[k].ticket !in s
        ensures q[k].ticket in r && r[q[k].ticket] == Rejected(ShutdownError)
      {
        var t := q[k].ticket;
        if t != e.ticket {
          assert k < n - 1;
        } else if t in prev {
          assert t in before;
          var j :| 0 <= j < n - 1 && before[j] == t;
          assert q[j].ticket == t;
        }
      }
      forall u | u !in Tickets(q[..n])
        ensures (u in r <==> u in s) && (u in r ==> r[u] == s[u])
      {
        assert u != e.ticket && u !in before;
      }
      forall u | u in s
        ensures u in r && r[u] == s[u]
      {
        assert u in prev && prev[u] == s[u];
      }
    }
  }

  /** The `for` loop of a forced `close`: every queued closure runs with
      the shutdown error, in queue order. */
  method RunForced(settled: map<nat, Settlement>, ran: seq<nat>, q: seq<Entry>)
    returns (promises: map<nat, Settlement>, runs: seq<nat>)
    ensures runs == ran + Tickets(q) && promises == ForceAll(settled, q, |q|)
  {
    promises, runs := settled, ran;
    var i := 0;
    while i < |q|
      invariant 0 <= i <= |q|
      invariant runs == ran + Tickets(q[..i])
      invariant promises == ForceAll(settled, q, i)
    {
      assert Tickets(q[..i + 1]) == Tickets(q[..i]) + [q[i].ticket];
      promises := RunEntry(promises, q[i], true);
      runs := runs + [q[i].ticket];
      i := i + 1;
    }
    assert q[..i] == q;
  }

  /** Whether `use` (re)launches the browser first. */
  predicate NeedsLaunch(closing: bool, hasInstance: bool, connected: bool) {
    closing || !hasInstance || !connected
  }

  class Browser {
    var hasInstance: bool
    var connected: bool
    var queue: seq<Entry>
    var processing: bool
    var closing: bool
    /** The callers' promises that have settled. */
    var settled: map<nat, Settlement>
    /** Tickets handed out so far. */
    var count: nat
    /** Tickets taken from the head of the queue by `process`, in order. */
    var drained: seq<nat>
    /** Every run of a task body, in order (a body can run more than once). */
    var ran: seq<nat>

    /** The drain order plus what is still queued is the submission order:
        tasks run first in, first out. */
    ghost predicate Fifo()
      reads this
    {
      drained + Tickets(queue) == Range(count)
    }

    /** Between calls, nothing is queued unless the queue is being drained. */
    ghost predicate Valid()
      reads this
    {
      Fifo() && (!processing ==> queue == [])
    }

    constructor()
      ensures Valid()
      ensures !hasInstance && !connected && queue == [] && !processing && !closing
      ensures settled == map[] && count == 0 && drained == [] && ran == []
    {
      hasInstance, connected := false, false;
      queue, processing, closing := [], false, false;
      settled, count, drained, ran := map[], 0, [], [];
    }

    /** `page()`: a new page of the instance, or the error thrown when the
        browser was never launched. A closed instance is still an instance:
        `close` does not reset it, so `page()` does not report it missing. */
    function Page(): (r: Result<(), string>)
      reads this
      ensures r.Err? <==> !hasInstance
      ensures r.Err? ==> r.error == UndefinedError
    {
      if !hasInstance then Err(UndefinedError) else Ok(())
    }

    /** `use(callback)`: relaunch if needed (a failed launch rejects before
        anything is queued), queue the task, and start draining when not
        already draining. */
    method Use(result: Result<int, string>, launchOk: bool) returns (r: Result<nat, string>)
      requires Valid()
      modifies this
      ensures Valid()
      ensures NeedsLaunch(old(closing), old(hasInstance), old(connected)) && !launchOk ==>
        r == Err(LaunchError) && queue == old(queue) && count == old(count) && settled == old(settled) &&
        ran == old(ran) && drained == old(drained) && processing == old(processing) && closing == old(closing) &&
        hasInstance == old(hasInstance) && connected == old(connected)
      ensures !(NeedsLaunch(old(closing), old(hasInstance), old(connected)) && !launchOk) ==>
        r == Ok(old(count)) && count == old(count) + 1 && hasInstance && connected && !closing
      ensures r.Ok? ==> Page().Ok?
      ensures r.Ok? && old(processing) ==>
        queue == old(queue) + [Entry(r.value, result)] && drained == old(drained) && ran == old(ran) &&
        settled == old(settled) && processing
      ensures r.Ok? && !old(processing) ==>
        queue == [] && drained == old(drained) + [r.value] && ran == old(ran) + [r.value] &&
        settled == RunEntry(old(settled), Entry(r.value, result), false) && processing
    {
      if NeedsLaunch(closing, hasInstance, connected) {
        if !launchOk {
          return Err(LaunchError);
        }
        hasInstance, connected := true, true;
        closing := false;
      }
      var ticket := count;
      count := count + 1;
      queue := queue + [Entry(ticket, result)];
      assert Tickets(queue) == Tickets(old(queue)) + [ticket];
      assert Range(count) == Range(ticket) + [ticket];
      assert drained + Tickets(queue) == (drained + Tickets(old(queue))) + [ticket];
      if !processing {
        Step();
      }
      return Ok(ticket);
    }

    /** One iteration of `process()`: run the head of the queue, or, once
        the queue is empty, stop draining and close. */
    method Step()
      requires Fifo()
      modifies this
      ensures Valid()
      ensures old(queue) != [] ==>
        queue == old(queue)[1..] && processing && drained == old(drained) + [old(queue)[0].ticket] &&
        ran == old(ran) + [old(queue)[0].ticket] && settled == RunEntry(old(settled), old(queue)[0], false) &&
        hasInstance == old(hasInstance) && connected == old(connected) && closing == old(closing) && count == old(count)
      ensures old(queue) == [] ==>
        queue == [] && !processing && !connected && !closing && drained == old(drained) && ran == old(ran) &&
        settled == old(settled) && hasInstance == old(hasInstance) && count == old(count)
      ensures Page() == old(Page())
    {
      if queue != [] {
        processing := true;
        var entry := queue[0];
        queue := queue[1..];
        assert Tickets(old(queue)) == [entry.ticket] + Tickets(queue);
        assert (drained + [entry.ticket]) + Tickets(queue) == drained + Tickets(old(queue));
        drained := drained + [entry.ticket];
        ran := ran + [entry.ticket];
        settled := RunEntry(settled, entry, false);
      } else {
        processing := false;
        Close(false);
      }
    }

    /** `close(options)`: a forced close runs every queued closure with the
        shutdown error but leaves them queued; a plain close waits for
        nothing. The instance is closed and `closing` is reset. */
    method Close(force: bool)
      requires Valid()
      modifies this
      ensures Valid()
      ensures queue == old(queue) && processing == old(processing) && drained == old(drained) && count == old(count)
      ensures hasInstance == old(hasInstance) && !connected && !closing
      ensures Page() == old(Page())
      ensures force ==> ran == old(ran) + Tickets(old(queue)) && settled == ForceAll(old(settled), old(queue), |old(queue)|)
      ensures !force ==> ran == old(ran) && settled == old(settled)
    {
      closing := true;
      if queue != [] && force {
        settled, ran := RunForced(settled, ran, queue);
      }
      connected := false;
      closing := false;
    }
  }

  /** Draining runs the tasks in the order they were submitted: the `k`-th
      task taken from the queue is the `k`-th ticket handed out. */
  lemma DrainInSubmissionOrder(b: Browser, k: nat)
    requires b.Valid() && k < |b.drained|
    ensures b.drained[k] == k
  {
    assert (b.drained + Tickets(b.queue))[k] == b.drained[k];
  }
}
