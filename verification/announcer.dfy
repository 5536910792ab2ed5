/**
 * The legacy bot's announcer: the callback `loop` hands to `getLapelle`
 * every 30 seconds, and the daily reset of the list of roll calls already
 * announced (`PastPresences`). Each open roll call is announced once
 * between two resets, by the URL of its presence page.
 */
module Announcer {
  import opened Wrappers
  import opened Lapelle

  /** The announcement for the roll call at `presence`; `{{role}}` is
      filled in with the class's role mention when it is sent. */
  function Announcement(presence: string): string {
    "L'appel est ouvert ! {{role}}\n" + presence
  }

  /** The callback's first step: one trailing '.' is cut off the message.
      The message is not used afterwards. */
  function StripDot(message: string): (r: string)
    ensures message != [] && message[|message| - 1] == '.' ==> r + "." == message
    ensures message == [] || message[|message| - 1] != '.' ==> r == message
  {
    if message != [] && message[|message| - 1] == '.' then message[..|message| - 1] else message
  }

  /** Cutting the dot off a message that ends with one gives that message
      without it. */
  lemma StripDotOfDotted(s: string)
    ensures StripDot(s + ".") == s
  {
    assert (s + ".")[..|s|] == s;
  }

  /** A payload that leads to an announcement: the roll call is open and
      its page has not been announced yet. */
  predicate Announces(past: seq<string>, p: Payload) {
    p.open && p.course.Some? && p.course.value.presence !in past
  }

  /** `p` reports the roll call at `x` open. */
  predicate Carries(p: Payload, x: string) {
    p.open && p.course.Some? && p.course.value.presence == x
  }

  /** The announced list after one payload. */
  function Step(past: seq<string>, p: Payload): seq<string> {
    if Announces(past, p) then past + [p.course.value.presence] else past
  }

  /** The announced list after a sequence of payloads, in order. */
  function Announce(past: seq<string>, calls: seq<Payload>): seq<string>
    decreases |calls|
  {
    if calls == [] then past else Step(Announce(past, calls[..|calls| - 1]), calls[|calls| - 1])
  }

  /** The messages sent for the pages `after` holds beyond `before`. */
  function Sent(before: seq<string>, after: seq<string>): seq<string>
    requires |before| <= |after|
  {
    Map(after[|before|..], Announcement)
  }

  /** The messages for a list grown in two steps are those of each step. */
  lemma SentExtends(first: seq<string>, middle: seq<string>, last: seq<string>)
    requires |first| <= |middle| <= |last| && last[..|middle|] == middle
    ensures Sent(first, last) == Sent(first, middle) + Sent(middle, last)
  {
    assert last[|first|..] == middle[|first|..] + last[|middle|..];
  }

  /** The list only grows, at its end. */
  lemma {:induction false} AnnounceExtends(past: seq<string>, calls: seq<Payload>)
    ensures |past| <= |Announce(past, calls)| && Announce(past, calls)[..|past|] == past
    decreases |calls|
  {
    if calls != [] {
      AnnounceExtends(past, calls[..|calls| - 1]);
    }
  }

  /** Announcing never repeats a page. */
  lemma {:induction false} AnnounceDistinct(past: seq<string>, calls: seq<Payload>)
    requires Distinct(past)
    ensures Distinct(Announce(past, calls))
    decreases |calls|
  {
    if calls != [] {
      AnnounceDistinct(past, calls[..|calls| - 1]);
    }
  }

  /** A page is in the list exactly when it was there before or some open
      payload carried it. */
  lemma {:induction false} AnnounceMembers(past: seq<string>, calls: seq<Payload>, x: string)
    ensures x in Announce(past, calls) <==>
      (x in past || exists k :: 0 <= k < |calls| && Carries(calls[k], x))
    decreases |calls|
  {
    if calls != [] {
      var init, last := calls[..|calls| - 1], calls[|calls| - 1];
      AnnounceMembers(past, init, x);
      if exists k :: 0 <= k < |calls| && Carries(calls[k], x) {
        var k :| 0 <= k < |calls| && Carries(calls[k], x);
        if k < |init| {
          assert init[k] == calls[k];
        }
      }
      if exists k :: 0 <= k < |init| && Carries(init[k], x) {
        var k :| 0 <= k < |init| && Carries(init[k], x);
        assert calls[k] == init[k];
      }
    }
  }

  /** Once every open payload's page is in the list, the payloads announce
      nothing more. */
  lemma {:induction false} AnnounceKnown(past: seq<string>, calls: seq<Payload>)
    requires forall k :: 0 <= k < |calls| && calls[k].open && calls[k].course.Some? ==> calls[k].course.value.presence in past
    ensures Announce(past, calls) == past
    decreases |calls|
  {
    if calls != [] {
      var init := calls[..|calls| - 1];
      assert forall k :: 0 <= k < |init| ==> init[k] == calls[k];
      AnnounceKnown(past, init);
    }
  }

  /** Handing the same payloads over again announces nothing new: each
      page is announced at most once between two resets. */
  lemma AnnounceTwice(past: seq<string>, calls: seq<Payload>)
    ensures Announce(Announce(past, calls), calls) == Announce(past, calls)
  {
    var q := Announce(past, calls);
    forall k | 0 <= k < |calls| && calls[k].open && calls[k].course.Some?
      ensures calls[k].course.value.presence in q
    {
      AnnounceMembers(past, calls, calls[k].course.value.presence);
    }
    AnnounceKnown(q, calls);
  }

  /** Payloads that all report a missing link but the last announce at
      most one page. */
  lemma AnnounceAtMostOne(past: seq<string>, calls: seq<Payload>)
    requires calls != [] && forall k :: 0 <= k < |calls| - 1 ==> calls[k] == NoLinkPayload
    ensures |Announce(past, calls)| <= |past| + 1
  {
    var init := calls[..|calls| - 1];
    assert forall k :: 0 <= k < |init| ==> init[k] == NoLinkPayload;
    AnnounceKnown(past, init);
  }

  /** One check of the presence page announces at most one page: every
      call but the last reports a missing link, which is never open. */
  lemma OneCheckAnnouncesAtMostOne(past: seq<string>, table: Result<seq<Row>, string>, now: int)
    ensures |Announce(past, TableCalls(table, now))| <= |past| + 1
  {
    TableCallsShape(table, now);
    AnnounceAtMostOne(past, TableCalls(table, now));
  }

  /** `PastPresences` and the messages sent to the class's channel. */
  class Announcer {
    var past: seq<string>
    var sent: seq<string>

    ghost predicate Valid()
      reads this
    {
      Distinct(past)
    }

    constructor ()
      ensures Valid() && past == [] && sent == []
    {
      past, sent := [], [];
    }

    /** The callback: an open roll call whose page has not been announced
        is announced and its page remembered; anything else changes
        nothing. The payload type guarantees a course when `open` holds. */
    method OnPayload(p: Payload)
      requires Valid()
      requires p.open ==> p.course.Some?
      modifies this
      ensures Valid()
      ensures past == Step(old(past), p)
      ensures sent == old(sent) + Sent(old(past), past)
      ensures Announces(old(past), p) ==> sent == old(sent) + [Announcement(p.course.value.presence)]
      ensures !Announces(old(past), p) ==> sent == old(sent)
    {
      var message := StripDot(p.message);
      if p.open && p.course.value.presence !in past {
        sent := sent + [Announcement(p.course.value.presence)];
        past := past + [p.course.value.presence];
      }
    }

    /** The callback applied to each payload of a check, in order. */
    method Deliver(calls: seq<Payload>)
      requires Valid()
      requires forall k :: 0 <= k < |calls| ==> calls[k].open ==> calls[k].course.Some?
      modifies this
      ensures Valid()
      ensures past == Announce(old(past), calls)
      ensures |old(past)| <= |past| && sent == old(sent) + Sent(old(past), past)
    {
      var i := 0;
      while i < |calls|
        invariant 0 <= i <= |calls|
        invariant Valid()
        invariant past == Announce(old(past), calls[..i])
        invariant |old(past)| <= |past| && sent == old(sent) + Sent(old(past), past)
      {
        assert calls[..i + 1][..i] == calls[..i];
        ghost var before := past;
        OnPayload(calls[i]);
        SentExtends(old(past), before, past);
        i := i + 1;
      }
      assert calls[..i] == calls;
    }

    /** `empty`, run daily at 23:59: every page may be announced again. */
    method Empty()
      modifies this
      ensures Valid() && past == [] && sent == old(sent)
    {
      past := [];
    }
  }
}
