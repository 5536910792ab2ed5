/**
 * The group commands of the bot: reading the group names a user typed
 * (`join`), and the effect of `join`, `sync` and `leave` on the group
 * table and on the user-to-group membership relation.
 */
module GroupCommands {
  import opened Wrappers
  import opened Errors
  import opened Strings
  import opened Users
  import Portail

  // ---------------------------------------------------------------------
  // Name tokenising
  // ---------------------------------------------------------------------

  /** A character the pattern `/,|\s|\n/` matches. */
  predicate IsSeparator(c: char) {
    c == ',' || IsJsSpace(c)
  }

  predicate NoSeparator(s: string) {
    forall i :: 0 <= i < |s| ==> !IsSeparator(s[i])
  }

  /** Index of the first separator in `s`. */
  function SeparatorAt(s: string): (k: nat)
    requires !NoSeparator(s)
    ensures k < |s| && IsSeparator(s[k])
    ensures forall i :: 0 <= i < k ==> !IsSeparator(s[i])
  {
    if IsSeparator(s[0]) then 0 else 1 + SeparatorAt(s[1..])
  }

  /** `s.split(/,|\s|\n/)`: the pieces between separators, empty pieces
      included. */
  function SplitNames(s: string): (parts: seq<string>)
    ensures |parts| >= 1
    ensures forall i :: 0 <= i < |parts| ==> NoSeparator(parts[i])
    decreases |s|
  {
    if NoSeparator(s) then [s]
    else
      var k := SeparatorAt(s);
      [s[..k]] + SplitNames(s[k + 1..])
  }

  /** The separators of `s`, in order. */
  function SeparatorsOf(s: string): (r: string)
    ensures forall i :: 0 <= i < |r| ==> IsSeparator(r[i])
  {
    if s == [] then []
    else (if IsSeparator(s[0]) then [s[0]] else []) + SeparatorsOf(s[1..])
  }

  /** The pieces put back together, the `i`-th separator between piece `i`
      and piece `i + 1`. */
  function Interleave(parts: seq<string>, seps: string): string
    requires |parts| == |seps| + 1
  {
    if |seps| == 0 then parts[0]
    else parts[0] + [seps[0]] + Interleave(parts[1..], seps[1..])
  }

  lemma {:induction false} SeparatorsOfConcat(a: string, b: string)
    ensures SeparatorsOf(a + b) == SeparatorsOf(a) + SeparatorsOf(b)
    decreases |a|
  {
    if a == [] {
      assert a + b == b;
    } else {
      assert (a + b)[0] == a[0];
      assert (a + b)[1..] == a[1..] + b;
      SeparatorsOfConcat(a[1..], b);
    }
  }

  lemma {:induction false} SeparatorsOfNone(a: string)
    requires NoSeparator(a)
    ensures SeparatorsOf(a) == []
    decreases |a|
  {
    if a != [] {
      SeparatorsOfNone(a[1..]);
    }
  }

  /** The separators of a string that has one: the first, then those
      after it. */
  lemma SeparatorsAfterFirst(s: string)
    requires !NoSeparator(s)
    ensures SeparatorsOf(s) == [s[SeparatorAt(s)]] + SeparatorsOf(s[SeparatorAt(s) + 1..])
  {
    var k := SeparatorAt(s);
    var head, rest := s[..k], s[k + 1..];
    assert s == head + ([s[k]] + rest);
    SeparatorsOfConcat(head, [s[k]] + rest);
    SeparatorsOfConcat([s[k]], rest);
    SeparatorsOfNone(head);
    assert SeparatorsOf([s[k]]) == [s[k]];
  }

  /** Splitting loses nothing: the pieces and the separators rebuild the
      input, and there is one more piece than there are separators. */
  lemma {:induction false} SplitNamesRebuild(s: string)
    ensures |SplitNames(s)| == |SeparatorsOf(s)| + 1
    ensures Interleave(SplitNames(s), SeparatorsOf(s)) == s
    decreases |s|
  {
    if NoSeparator(s) {
      SeparatorsOfNone(s);
    } else {
      var k := SeparatorAt(s);
      var head, sep, rest := s[..k], s[k], s[k + 1..];
      SeparatorsAfterFirst(s);
      SplitNamesRebuild(rest);
      var parts, seps := SplitNames(rest), SeparatorsOf(rest);
      assert SplitNames(s) == [head] + parts;
      InterleaveCons(head, sep, parts, seps);
      SplitAround(s, k);
    }
  }

  lemma SplitAround(s: string, k: nat)
    requires k < |s|
    ensures s == s[..k] + [s[k]] + s[k + 1..]
  {
  }

  lemma InterleaveCons(head: string, sep: char, parts: seq<string>, seps: string)
    requires |parts| == |seps| + 1
    ensures Interleave([head] + parts, [sep] + seps) == head + [sep] + Interleave(parts, seps)
  {
    assert ([head] + parts)[1..] == parts;
    assert ([sep] + seps)[1..] == seps;
  }

  /** Splitting what was interleaved gives back the pieces: the other half
      of the round trip. */
  lemma {:induction false} SplitNamesOfInterleave(parts: seq<string>, seps: string)
    requires |parts| == |seps| + 1
    requires forall i :: 0 <= i < |parts| ==> NoSeparator(parts[i])
    requires forall i :: 0 <= i < |seps| ==> IsSeparator(seps[i])
    ensures SplitNames(Interleave(parts, seps)) == parts
    decreases |seps|
  {
    if |seps| > 0 {
      var s := Interleave(parts, seps);
      var p0 := parts[0];
      var rest := Interleave(parts[1..], seps[1..]);
      assert s == p0 + [seps[0]] + rest;
      assert s[|p0|] == seps[0];
      assert !NoSeparator(s);
      var k := SeparatorAt(s);
      assert forall i :: 0 <= i < |p0| ==> s[i] == p0[i];
      assert k == |p0|;
      assert s[..k] == p0;
      assert s[k + 1..] == rest;
      SplitNamesOfInterleave(parts[1..], seps[1..]);
    }
  }

  /** `parts.map((name) => name.trim())`. */
  function TrimAll(parts: seq<string>): (r: seq<string>)
    ensures |r| == |parts|
  {
    seq(|parts|, i requires 0 <= i < |parts| => Trim(parts[i]))
  }

  /** A piece holds no white space, so trimming it leaves it as it is. */
  lemma TrimSplit(s: string)
    ensures TrimAll(SplitNames(s)) == SplitNames(s)
  {
    var parts := SplitNames(s);
    forall i | 0 <= i < |parts|
      ensures Trim(parts[i]) == parts[i]
    {
      assert NoSpace(parts[i]) by {
        assert NoSeparator(parts[i]);
      }
    }
  }

  /** `.filter((name) => name !== "")`. */
  function NonEmpty(xs: seq<string>): (r: seq<string>)
    ensures |r| <= |xs|
  {
    if xs == [] then []
    else (if xs[0] == "" then [] else [xs[0]]) + NonEmpty(xs[1..])
  }

  /** The non-empty strings of `xs` are exactly the strings of the filtered
      list. */
  lemma {:induction false} NonEmptyElements(xs: seq<string>)
    ensures forall x :: x in NonEmpty(xs) <==> x in xs && x != ""
  {
    if xs != [] {
      NonEmptyElements(xs[1..]);
      assert xs == [xs[0]] + xs[1..];
    }
  }

  /** The filter keeps the order of the names, one name at a time. */
  lemma {:induction false} NonEmptyAppend(a: seq<string>, b: seq<string>)
    ensures NonEmpty(a + b) == NonEmpty(a) + NonEmpty(b)
    ensures |a| == 1 ==> NonEmpty(a) == if a[0] == "" then [] else a
  {
    if a != [] {
      assert (a + b)[0] == a[0] && (a + b)[1..] == a[1..] + b;
      NonEmptyAppend(a[1..], b);
    } else {
      assert a + b == b;
    }
  }

  /** `[...new Set(xs)]`: each value once, at the place it first occurs. */
  function Dedup<T(==)>(xs: seq<T>): (r: seq<T>)
    ensures |r| <= |xs|
  {
    if xs == [] then []
    else
      var d := Dedup(xs[..|xs| - 1]);
      if xs[|xs| - 1] in d then d else d + [xs[|xs| - 1]]
  }

  /** Deduplication keeps every value and repeats none. */
  lemma {:induction false} DedupElements<T>(xs: seq<T>)
    ensures forall x :: x in Dedup(xs) <==> x in xs
    ensures Distinct(Dedup(xs))
  {
    if xs != [] {
      var init := xs[..|xs| - 1];
      DedupElements(init);
      assert xs == init + [xs[|xs| - 1]];
    }
  }

  lemma DedupMember<T>(xs: seq<T>, y: T)
    ensures y in Dedup(xs) <==> y in xs
  {
    DedupElements(xs);
  }

  /** Index of the first occurrence of `x` in `xs`. */
  function Position<T(==)>(xs: seq<T>, x: T): (k: nat)
    requires x in xs
    ensures k < |xs| && xs[k] == x && x !in xs[..k]
  {
    if xs[0] == x then 0
    else
      assert xs[1..][..Position(xs[1..], x)] == xs[1..1 + Position(xs[1..], x)];
      1 + Position(xs[1..], x)
  }

  lemma PositionOfPrefix<T>(xs: seq<T>, y: T, x: T)
    requires x in xs
    ensures Position(xs + [y], x) == Position(xs, x)
  {
    var k := Position(xs, x);
    var ys := xs + [y];
    assert ys[k] == x;
    assert ys[..k] == xs[..k];
  }

  /** Deduplication keeps first-occurrence order: a value comes before
      another in the result exactly when it first occurs earlier. */
  lemma {:induction false} DedupOrder<T>(xs: seq<T>)
    ensures forall i :: 0 <= i < |Dedup(xs)| ==> Dedup(xs)[i] in xs
    ensures forall i, j :: 0 <= i < j < |Dedup(xs)| ==>
      Position(xs, Dedup(xs)[i]) < Position(xs, Dedup(xs)[j])
  {
    if xs != [] {
      var init, last := xs[..|xs| - 1], xs[|xs| - 1];
      assert xs == init + [last];
      var d, r := Dedup(init), Dedup(xs);
      DedupOrder(init);
      if last !in d {
        DedupMember(init, last);
        assert r == d + [last];
        assert Position(xs, last) == |init| by {
          assert xs[..|init|] == init;
        }
      } else {
        assert r == d;
      }
      forall i | 0 <= i < |r|
        ensures r[i] in xs
      {
        if i < |d| {
          assert r[i] == d[i] && d[i] in d;
          DedupMember(init, d[i]);
        }
      }
      forall i, j | 0 <= i < j < |r|
        ensures Position(xs, r[i]) < Position(xs, r[j])
      {
        assert r[i] == d[i] && d[i] in d;
        DedupMember(init, d[i]);
        PositionOfPrefix(init, last, d[i]);
        if j < |d| {
          assert r[j] == d[j] && d[j] in d;
          DedupMember(init, d[j]);
          PositionOfPrefix(init, last, d[j]);
        } else {
          assert r[j] == last && last == xs[|xs| - 1];
        }
      }
    }
  }

  /** The group names `join` reads from what the user typed: split on
      commas and white space, trimmed, empty names dropped, duplicates
      removed keeping the first. */
  function GroupNames(input: string): (names: seq<string>)
  {
    Dedup(NonEmpty(TrimAll(SplitNames(input))))
  }

  /** Trimming the pieces is the identity, so the names are the non-empty
      pieces without repeats. */
  lemma GroupNamesPieces(input: string)
    ensures GroupNames(input) == Dedup(NonEmpty(SplitNames(input)))
  {
    TrimSplit(input);
  }

  /** No name repeats, every name is a non-empty piece of the input, and
      every non-empty piece of the input is a name. */
  lemma GroupNamesElements(input: string)
    ensures Distinct(GroupNames(input))
    ensures forall p :: p in GroupNames(input) <==> p in SplitNames(input) && p != ""
  {
    GroupNamesPieces(input);
    NonEmptyElements(SplitNames(input));
    DedupElements(NonEmpty(SplitNames(input)));
  }

  /** No name is empty or holds a comma or white space. */
  lemma GroupNamesWellFormed(input: string)
    ensures forall i :: 0 <= i < |GroupNames(input)| ==>
      GroupNames(input)[i] != "" && NoSeparator(GroupNames(input)[i])
  {
    var names, parts := GroupNames(input), SplitNames(input);
    GroupNamesElements(input);
    forall i | 0 <= i < |names|
      ensures names[i] != "" && NoSeparator(names[i])
    {
      assert names[i] in names;
      var j :| 0 <= j < |parts| && parts[j] == names[i];
    }
  }

  /** Names keep the order in which they first appear in the input. */
  lemma GroupNamesOrder(input: string)
    ensures forall i :: 0 <= i < |GroupNames(input)| ==> GroupNames(input)[i] in NonEmpty(SplitNames(input))
    ensures forall i, j :: 0 <= i < j < |GroupNames(input)| ==>
      Position(NonEmpty(SplitNames(input)), GroupNames(input)[i]) <
      Position(NonEmpty(SplitNames(input)), GroupNames(input)[j])
  {
    var names, xs := GroupNames(input), NonEmpty(SplitNames(input));
    GroupNamesPieces(input);
    DedupOrder(xs);
    assert names == Dedup(xs);
  }

  // ---------------------------------------------------------------------
  // The membership relation
  // ---------------------------------------------------------------------

  /** A row of the group table: its serial identifier and its flag. */
  datatype GroupRow = GroupRow(id: nat, verified: bool)

  /** The group table by name, and the next value of its serial
      identifier. */
  datatype Groups = Groups(rows: map<string, GroupRow>, next: nat)

  /** Identifiers are below the next serial value and no two groups share
      one. */
  ghost predicate WellNumbered(t: Groups) {
    (forall n :: n in t.rows ==> t.rows[n].id < t.next) &&
    (forall m, n :: m in t.rows && n in t.rows && m != n ==> t.rows[m].id != t.rows[n].id)
  }

  /** `insert into groups ... on conflict (name) do update` for one name: a
      new name gets the next identifier and the flag `verify`; an existing
      one keeps its identifier and is marked verified when `verify` is
      set. */
  function UpsertOne(t: Groups, name: string, verify: bool): (r: Groups)
    ensures name in r.rows && r.next >= t.next
    ensures forall n :: n in r.rows <==> n in t.rows || n == name
    ensures forall n :: n in t.rows ==> r.rows[n].id == t.rows[n].id
    ensures forall n :: n in t.rows && n != name ==> r.rows[n] == t.rows[n]
    ensures WellNumbered(t) ==> WellNumbered(r)
  {
    if name in t.rows then
      Groups(t.rows[name := GroupRow(t.rows[name].id, t.rows[name].verified || verify)], t.next)
    else
      Groups(t.rows[name := GroupRow(t.next, verify)], t.next + 1)
  }

  /** Every name upserted in turn. */
  function UpsertNames(t: Groups, names: seq<string>, verify: bool): (r: Groups)
    decreases |names|
  {
    if names == [] then t
    else UpsertOne(UpsertNames(t, names[..|names| - 1], verify), names[|names| - 1], verify)
  }

  /** `n` holds the row an upsert of it over `before` gives. */
  ghost predicate Upserted(before: Groups, after: Groups, n: string, verify: bool) {
    n in after.rows &&
    if n in before.rows then after.rows[n] == GroupRow(before.rows[n].id, before.rows[n].verified || verify)
    else after.rows[n].verified == verify && before.next <= after.rows[n].id
  }

  /** Upserting a list of names adds exactly those names, keeps the
      identifiers of the groups already there, and keeps the table well
      numbered. */
  lemma {:induction false} UpsertNamesKeys(t: Groups, names: seq<string>, verify: bool)
    ensures forall n :: n in UpsertNames(t, names, verify).rows <==> n in t.rows || n in names
    ensures forall n :: n in t.rows && n !in names ==> UpsertNames(t, names, verify).rows[n] == t.rows[n]
    ensures forall n :: n in t.rows ==> UpsertNames(t, names, verify).rows[n].id == t.rows[n].id
    ensures t.next <= UpsertNames(t, names, verify).next
    ensures WellNumbered(t) ==> WellNumbered(UpsertNames(t, names, verify))
    decreases |names|
  {
    if names != [] {
      var init := names[..|names| - 1];
      UpsertNamesKeys(t, init, verify);
      assert names == init + [names[|names| - 1]];
    }
  }

  /** Every upserted name holds the row the upsert promises: an existing
      group keeps its identifier and becomes verified when `verify` is set;
      a new one carries `verify` and a fresh identifier. */
  lemma {:induction false} UpsertNamesRows(t: Groups, names: seq<string>, verify: bool)
    ensures forall n :: n in names ==> Upserted(t, UpsertNames(t, names, verify), n, verify)
    decreases |names|
  {
    if names != [] {
      var init, last := names[..|names| - 1], names[|names| - 1];
      assert names == init + [last];
      var mid := UpsertNames(t, init, verify);
      UpsertNamesRows(t, init, verify);
      UpsertNamesKeys(t, init, verify);
      forall n | n in names
        ensures Upserted(t, UpsertOne(mid, last, verify), n, verify)
      {
        if n != last {
          assert n in init;
        }
      }
    }
  }

  /** The message the database client throws for an insert of no rows. */
  const EmptyInsertError: Failure := Other("values() must be called with at least one value")

  /** The group identifiers `user` is linked to. */
  function GroupsOf(links: map<(string, nat), bool>, user: string): set<nat> {
    set k | k in links && k.0 == user :: k.1
  }

  /** `delete ... where user_id = user and group_id in ids`. */
  function Unlink(links: map<(string, nat), bool>, user: string, ids: set<nat>): (r: map<(string, nat), bool>)
    ensures GroupsOf(r, user) == GroupsOf(links, user) - ids
    ensures forall k :: k in r <==> k in links && !(k.0 == user && k.1 in ids)
    ensures forall k :: k in r ==> r[k] == links[k]
  {
    var r := map k | k in links && !(k.0 == user && k.1 in ids) :: links[k];
    assert forall g :: g in GroupsOf(links, user) - ids ==> (user, g) in r;
    r
  }

  /** `delete ... where user_id = user and group_id not in ids`. */
  function KeepOnly(links: map<(string, nat), bool>, user: string, ids: set<nat>): (r: map<(string, nat), bool>)
    ensures GroupsOf(r, user) == GroupsOf(links, user) * ids
    ensures forall k :: k in r <==> k in links && (k.0 != user || k.1 in ids)
    ensures forall k :: k in r ==> r[k] == links[k]
  {
    var r := map k | k in links && (k.0 != user || k.1 in ids) :: links[k];
    assert forall g :: g in GroupsOf(links, user) * ids ==> (user, g) in r;
    r
  }

  /** Leaving the groups one was left with after keeping only `ids` leaves
      none: the two deletions partition a user's memberships. */
  lemma UnlinkKeepOnly(links: map<(string, nat), bool>, user: string, ids: set<nat>)
    ensures GroupsOf(Unlink(links, user, ids), user) !! GroupsOf(KeepOnly(links, user, ids), user)
    ensures GroupsOf(Unlink(links, user, ids), user) + GroupsOf(KeepOnly(links, user, ids), user) == GroupsOf(links, user)
  {
  }

  /** `insert into user_groups ... values (user, id, verified: true)`
      for one identifier: a new membership is verified; an existing one is
      left as it is (`on conflict do nothing`) or marked verified (`on
      conflict do update set verified = true`), as `overwrite` says. */
  function LinkOne(links: map<(string, nat), bool>, key: (string, nat), overwrite: bool): (r: map<(string, nat), bool>)
    ensures key in r
  {
    if overwrite || key !in links then links[key := true] else links
  }

  /** Every identifier linked in turn. */
  function LinkIds(links: map<(string, nat), bool>, user: string, ids: seq<nat>, overwrite: bool): (r: map<(string, nat), bool>)
    decreases |ids|
  {
    if ids == [] then links
    else LinkOne(LinkIds(links, user, ids[..|ids| - 1], overwrite), (user, ids[|ids| - 1]), overwrite)
  }

  /** Linking adds exactly the memberships of `user` to `ids`, each of them
      verified; an existing membership keeps its flag unless it is
      overwritten, and the rest of the relation is untouched. */
  lemma {:induction false} LinkIdsKeys(links: map<(string, nat), bool>, user: string, ids: seq<nat>, overwrite: bool)
    ensures forall k :: k in LinkIds(links, user, ids, overwrite) <==> k in links || (k.0 == user && k.1 in ids)
    ensures forall k :: k in links ==>
      LinkIds(links, user, ids, overwrite)[k] == (if overwrite && k.0 == user && k.1 in ids then true else links[k])
    ensures forall k :: k in LinkIds(links, user, ids, overwrite) && k !in links ==> LinkIds(links, user, ids, overwrite)[k]
    decreases |ids|
  {
    if ids != [] {
      var init := ids[..|ids| - 1];
      LinkIdsKeys(links, user, init, overwrite);
      assert ids == init + [ids[|ids| - 1]];
    }
  }

  /** After linking, the groups of `user` are the ones before plus `ids`. */
  lemma LinkIdsGroups(links: map<(string, nat), bool>, user: string, ids: seq<nat>, overwrite: bool)
    ensures GroupsOf(LinkIds(links, user, ids, overwrite), user) == GroupsOf(links, user) + set i | 0 <= i < |ids| :: ids[i]
  {
    var r := LinkIds(links, user, ids, overwrite);
    LinkIdsKeys(links, user, ids, overwrite);
    forall g | g in GroupsOf(links, user)
      ensures (user, g) in links
    {
    }
    forall i | 0 <= i < |ids|
      ensures (user, ids[i]) in r
    {
    }
  }

  /** An unverified upsert leaves the groups already there as they were,
      and adds the new ones unverified. */
  lemma UpsertUnverified(t: Groups, names: seq<string>)
    ensures forall n :: n in t.rows ==> n in UpsertNames(t, names, false).rows && UpsertNames(t, names, false).rows[n] == t.rows[n]
    ensures forall n :: n in UpsertNames(t, names, false).rows && n !in t.rows ==> !UpsertNames(t, names, false).rows[n].verified
  {
    var after := UpsertNames(t, names, false);
    UpsertNamesKeys(t, names, false);
    UpsertNamesRows(t, names, false);
    forall n | n in t.rows && n in names ensures after.rows[n] == t.rows[n] {
      assert Upserted(t, after, n, false);
    }
    forall n | n in after.rows && n !in t.rows ensures !after.rows[n].verified {
      assert Upserted(t, after, n, false);
    }
  }

  /** A verified upsert leaves every upserted group verified. */
  lemma UpsertVerified(t: Groups, names: seq<string>)
    ensures forall n :: n in names ==> n in UpsertNames(t, names, true).rows && UpsertNames(t, names, true).rows[n].verified
  {
    UpsertNamesRows(t, names, true);
  }

  /** After linking, the user is a member of every listed group, and a
      verified one when existing memberships are overwritten. */
  lemma LinkedAll(links: map<(string, nat), bool>, user: string, ids: seq<nat>, overwrite: bool)
    ensures forall i :: 0 <= i < |ids| ==> (user, ids[i]) in LinkIds(links, user, ids, overwrite)
    ensures overwrite ==> forall i :: 0 <= i < |ids| ==> LinkIds(links, user, ids, overwrite)[(user, ids[i])]
  {
    var r := LinkIds(links, user, ids, overwrite);
    LinkIdsKeys(links, user, ids, overwrite);
    forall i | 0 <= i < |ids| ensures (user, ids[i]) in r && (overwrite ==> r[(user, ids[i])]) {
      assert ids[i] in ids;
    }
  }

  /** The memberships an import leaves: the user is a verified member of
      every imported group, other users' memberships are untouched, and
      with `erase` the user keeps only the imported groups. */
  function Imported(links: map<(string, nat), bool>, user: string, ids: seq<nat>, erase: bool): (r: map<(string, nat), bool>)
    ensures forall i :: 0 <= i < |ids| ==> (user, ids[i]) in r && r[(user, ids[i])]
    ensures forall k :: k in r ==> k in links || (k.0 == user && k.1 in ids)
    ensures forall k: (string, nat) :: k.0 != user ==> (k in r <==> k in links)
    ensures forall k :: k in r && k.0 != user ==> r[k] == links[k]
    ensures erase ==> GroupsOf(r, user) == set i | 0 <= i < |ids| :: ids[i]
    ensures !erase ==> GroupsOf(r, user) == GroupsOf(links, user) + set i | 0 <= i < |ids| :: ids[i]
  {
    var linked := LinkIds(links, user, ids, true);
    var imported := set i | 0 <= i < |ids| :: ids[i];
    LinkIdsKeys(links, user, ids, true);
    LinkIdsGroups(links, user, ids, true);
    LinkedAll(links, user, ids, true);
    assert forall i :: 0 <= i < |ids| ==> ids[i] in imported;
    if erase then KeepOnly(linked, user, imported) else linked
  }

  /** The tables `join`, `sync` and `leave` work on: groups by name, the
      next serial identifier, and the membership relation from (user, group
      identifier) to its `verified` flag. */
  class Store {
    var groups: map<string, GroupRow>
    var nextId: nat
    var links: map<(string, nat), bool>

    /** Identifiers are unique and below the next serial value, and every
        membership refers to an issued identifier. */
    ghost predicate Valid()
      reads this
    {
      WellNumbered(Groups(groups, nextId)) &&
      (forall k :: k in links ==> k.1 < nextId)
    }

    constructor ()
      ensures Valid()
      ensures groups == map[] && links == map[] && nextId == 1
    {
      groups, nextId, links := map[], 1, map[];
    }

    /** The names upserted into the group table; `ids[i]` is the identifier
        of `names[i]`. */
    method UpsertAll(names: seq<string>, verify: bool) returns (ids: seq<nat>)
      requires Valid()
      modifies this
      ensures Valid()
      ensures links == old(links)
      ensures Groups(groups, nextId) == UpsertNames(Groups(old(groups), old(nextId)), names, verify)
      ensures |ids| == |names|
      ensures forall i :: 0 <= i < |names| ==> names[i] in groups && ids[i] == groups[names[i]].id
    {
      var before := Groups(groups, nextId);
      var t := UpsertNames(before, names, verify);
      UpsertNamesKeys(before, names, verify);
      ids := seq(|names|, i requires 0 <= i < |names| => t.rows[names[i]].id);
      groups, nextId := t.rows, t.next;
    }

    /** `insert into user_groups ... verified: true` for every identifier,
        as one statement. */
    method LinkAll(user: string, ids: seq<nat>, overwrite: bool)
      requires Valid()
      requires forall i :: 0 <= i < |ids| ==> ids[i] < nextId
      modifies this
      ensures Valid()
      ensures groups == old(groups) && nextId == old(nextId)
      ensures links == LinkIds(old(links), user, ids, overwrite)
    {
      LinkIdsKeys(links, user, ids, overwrite);
      links := LinkIds(links, user, ids, overwrite);
    }

    /** `join`: upsert the typed names, unverified when new, and add a
        verified membership for each one the user did not already have. */
    method Join(user: string, input: string) returns (r: Result<seq<nat>, Failure>)
      requires Valid()
      modifies this
      ensures Valid()
      ensures r.Err? <==> GroupNames(input) == []
      ensures r.Err? ==> r.error == EmptyInsertError && groups == old(groups) && links == old(links)
      ensures r.Ok? ==> |r.value| == |GroupNames(input)|
      ensures r.Ok? ==> forall i :: 0 <= i < |r.value| ==>
        GroupNames(input)[i] in groups && r.value[i] == groups[GroupNames(input)[i]].id &&
        (user, r.value[i]) in links
      ensures r.Ok? ==> forall n :: n in groups <==> n in old(groups) || n in GroupNames(input)
      ensures r.Ok? ==> forall n :: n in old(groups) ==> groups[n] == old(groups)[n]
      ensures r.Ok? ==> forall n :: n in groups && n !in old(groups) ==> !groups[n].verified
      ensures r.Ok? ==> forall k :: k in old(links) ==> k in links && links[k] == old(links)[k]
      ensures r.Ok? ==> forall k :: k in links && k !in old(links) ==> k.0 == user && k.1 in r.value && links[k]
    {
      var names := GroupNames(input);
      if names == [] {
        return Err(EmptyInsertError);
      }
      ghost var before := Groups(groups, nextId);
      var ids := UpsertAll(names, false);
      UpsertNamesKeys(before, names, false);
      UpsertUnverified(before, names);
      LinkAll(user, ids, false);
      LinkIdsKeys(old(links), user, ids, false);
      LinkedAll(old(links), user, ids, false);
      return Ok(ids);
    }

    /** What `sync` does with the portal's list of names: each is upserted
        as a verified group, the user is linked to each as a verified
        member, and with `erase` every other membership of the user is
        deleted. */
    method Import(user: string, names: seq<string>, erase: bool) returns (r: Result<seq<nat>, Failure>)
      requires Valid()
      modifies this
      ensures Valid()
      ensures r.Err? <==> names == []
      ensures r.Err? ==> r.error == EmptyInsertError && groups == old(groups) && links == old(links)
      ensures r.Ok? ==> |r.value| == |names|
      ensures r.Ok? ==> forall i :: 0 <= i < |r.value| ==>
        names[i] in groups && groups[names[i]] == GroupRow(r.value[i], true) &&
        (user, r.value[i]) in links && links[(user, r.value[i])]
      ensures r.Ok? ==> forall n :: n in groups <==> n in old(groups) || n in names
      ensures r.Ok? ==> forall n :: n in old(groups) && n !in names ==> groups[n] == old(groups)[n]
      ensures r.Ok? ==> forall k: (string, nat) :: k.0 != user ==> (k in links <==> k in old(links))
      ensures r.Ok? ==> forall k :: k in links && k.0 != user ==> links[k] == old(links)[k]
      ensures r.Ok? && erase ==> GroupsOf(links, user) == set i | 0 <= i < |r.value| :: r.value[i]
      ensures r.Ok? && !erase ==> GroupsOf(links, user) == GroupsOf(old(links), user) + set i | 0 <= i < |r.value| :: r.value[i]
    {
      ghost var before := Groups(groups, nextId);
      var ids := UpsertAll(names, true);
      UpsertNamesKeys(before, names, true);
      UpsertVerified(before, names);
      if ids == [] {
        return Err(EmptyInsertError);
      }
      links := Imported(links, user, ids, erase);
      return Ok(ids);
    }

    /** `sync`: the session is opened with the user's own credentials, the
        portal's group list is read, and a list that is there is imported;
        no list at all is `NoGroupToImport`. */
    method Sync(user: User, portal: Portail.Outcome<seq<string>>, erase: bool) returns (r: Result<seq<nat>, Failure>)
      requires Valid()
      modifies this
      ensures Valid()
      ensures Portail.NewPortail(user, Portail.NoOptions).Err? ==>
        r == Err(Portail.NewPortail(user, Portail.NoOptions).error) && groups == old(groups) && links == old(links)
      ensures Portail.NewPortail(user, Portail.NoOptions).Ok? && portal.Nothing? ==>
        r == Err(NoGroupToImport) && groups == old(groups) && links == old(links)
      ensures Portail.NewPortail(user, Portail.NoOptions).Ok? && portal.Threw? ==>
        r == Err(portal.error) && groups == old(groups) && links == old(links)
      ensures Portail.NewPortail(user, Portail.NoOptions).Ok? && portal == Portail.Got([]) ==>
        r == Err(EmptyInsertError) && groups == old(groups) && links == old(links)
      ensures r.Ok? ==> portal.Got? && |r.value| == |portal.value| > 0
      ensures r.Ok? ==> forall i :: 0 <= i < |r.value| ==>
        portal.value[i] in groups && groups[portal.value[i]] == GroupRow(r.value[i], true) &&
        (user.id, r.value[i]) in links && links[(user.id, r.value[i])]
      ensures r.Ok? && erase ==> GroupsOf(links, user.id) == set i | 0 <= i < |r.value| :: r.value[i]
      ensures r.Ok? && !erase ==> GroupsOf(links, user.id) == GroupsOf(old(links), user.id) + set i | 0 <= i < |r.value| :: r.value[i]
      ensures r.Ok? ==> forall k: (string, nat) :: k.0 != user.id ==> (k in links <==> k in old(links))
    {
      var settings := Portail.NewPortail(user, Portail.NoOptions);
      if settings.Err? {
        return Err(settings.error);
      }
      match portal {
        case Nothing => return Err(NoGroupToImport);
        case Threw(e) => return Err(e);
        case Got(names) => r := Import(user.id, names, erase);
      }
    }

    /** `leave`: the selected memberships of the user are deleted; a user
        with no membership gets `NoGroupFound`. */
    method Leave(user: string, selected: set<nat>) returns (r: Result<(), Failure>)
      requires Valid()
      modifies this
      ensures Valid()
      ensures groups == old(groups) && nextId == old(nextId)
      ensures r.Err? <==> GroupsOf(old(links), user) == {}
      ensures r.Err? ==> r.error == NoGroupFound && links == old(links)
      ensures r.Ok? ==> GroupsOf(links, user) == GroupsOf(old(links), user) - selected
      ensures r.Ok? ==> forall k :: k in links <==> k in old(links) && !(k.0 == user && k.1 in selected)
      ensures r.Ok? ==> forall k :: k in links ==> links[k] == old(links)[k]
    {
      if GroupsOf(links, user) == {} {
        return Err(NoGroupFound);
      }
      links := Unlink(links, user, selected);
      return Ok(());
    }
  }
}
