/**
 * The JavaScript string primitives the source relies on: `split` on one
 * character, `join`, `trim`, the `\s` character class, `includes`,
 * `startsWith` and `Number(...)` applied to a string of digits.
 */
module Strings {
  import opened Wrappers

  /** JavaScript's WhiteSpace and LineTerminator code points: the set that
      both `String.prototype.trim` and the regular-expression class `\s` use. */
  predicate IsJsSpace(c: char) {
    c == '\t' || c == '\n' || c == '\U{B}' || c == '\U{C}' || c == '\r' ||
    c == ' ' || c == '\U{A0}' || c == '\U{1680}' || ('\U{2000}' <= c <= '\U{200A}') ||
    c == '\U{2028}' || c == '\U{2029}' || c == '\U{202F}' || c == '\U{205F}' ||
    c == '\U{3000}' || c == '\U{FEFF}'
  }

  predicate NoSpace(s: string) {
    forall i :: 0 <= i < |s| ==> !IsJsSpace(s[i])
  }

  /** Index of the first occurrence of `c` in `s`. */
  function IndexOf(s: string, c: char): (k: nat)
    requires c in s
    ensures k < |s| && s[k] == c && c !in s[..k]
    ensures forall i :: 0 <= i < k ==> s[i] != c
  {
    if s[0] == c then 0 else 1 + IndexOf(s[1..], c)
  }

  /** `parts.join(sep)`. */
  function Join(parts: seq<string>, sep: char): string {
    if |parts| == 0 then ""
    else if |parts| == 1 then parts[0]
    else parts[0] + [sep] + Join(parts[1..], sep)
  }

  /** `s.split(sep)` for a one-character separator. */
  function Split(s: string, sep: char): (parts: seq<string>)
    ensures |parts| >= 1
    ensures forall i :: 0 <= i < |parts| ==> sep !in parts[i]
    ensures Join(parts, sep) == s
    decreases |s|
  {
    if sep !in s then [s]
    else
      var k := IndexOf(s, sep);
      var rest := Split(s[k + 1..], sep);
      assert s == s[..k] + [sep] + s[k + 1..];
      [s[..k]] + rest
  }

  /** Splitting what was joined gives back the parts, as long as no part
      contains the separator: `split` is the inverse of `join`. */
  lemma {:induction false} SplitJoin(parts: seq<string>, sep: char)
    requires |parts| >= 1
    requires forall i :: 0 <= i < |parts| ==> sep !in parts[i]
    ensures Split(Join(parts, sep), sep) == parts
    decreases |parts|
  {
    if |parts| > 1 {
      SplitHead(parts[0], sep, Join(parts[1..], sep));
      SplitJoin(parts[1..], sep);
    }
  }

  /** Splitting stops at the first separator. */
  lemma SplitHead(head: string, sep: char, rest: string)
    requires sep !in head
    ensures Split(head + [sep] + rest, sep) == [head] + Split(rest, sep)
  {
    var s := head + [sep] + rest;
    assert s[|head|] == sep;
    var k := IndexOf(s, sep);
    assert forall i :: 0 <= i < |head| ==> s[i] == head[i];
    assert k == |head|;
    assert s[..k] == head;
    assert s[k + 1..] == rest;
  }

  /** Number of white-space characters at the start of `s`. */
  function LeadingSpaces(s: string): (i: nat)
    ensures i <= |s|
    ensures forall k :: 0 <= k < i ==> IsJsSpace(s[k])
    ensures i < |s| ==> !IsJsSpace(s[i])
  {
    if s != [] && IsJsSpace(s[0]) then 1 + LeadingSpaces(s[1..]) else 0
  }

  /** Length of `s` without its trailing white space. */
  function TrailingStart(s: string): (j: nat)
    ensures j <= |s|
    ensures forall k :: j <= k < |s| ==> IsJsSpace(s[k])
    ensures 0 < j ==> !IsJsSpace(s[j - 1])
  {
    if s != [] && IsJsSpace(s[|s| - 1]) then TrailingStart(s[..|s| - 1]) else |s|
  }

  /** `s.trim()`: `s` without the white space at either end. */
  function Trim(s: string): (r: string)
    ensures LeadingSpaces(s) + |r| <= |s|
    ensures r == s[LeadingSpaces(s)..LeadingSpaces(s) + |r|]
    ensures forall k :: LeadingSpaces(s) + |r| <= k < |s| ==> IsJsSpace(s[k])
    ensures r != [] ==> !IsJsSpace(r[0]) && !IsJsSpace(r[|r| - 1])
    ensures NoSpace(s) ==> r == s
  {
    var i, j := LeadingSpaces(s), TrailingStart(s);
    if j <= i then [] else s[i..j]
  }

  /** `s.replace(/\s+/g, "")`: every white-space character removed. */
  function RemoveSpaces(s: string): (r: string)
    ensures NoSpace(r)
    ensures |r| <= |s|
    ensures NoSpace(s) ==> r == s
  {
    if s == [] then []
    else if IsJsSpace(s[0]) then RemoveSpaces(s[1..])
    else [s[0]] + RemoveSpaces(s[1..])
  }

  /** `s.startsWith(prefix)`. */
  predicate StartsWith(s: string, prefix: string) {
    |prefix| <= |s| && s[..|prefix|] == prefix
  }

  /** `s.includes(pattern)`. */
  predicate Contains(s: string, pattern: string)
    decreases |s|
  {
    StartsWith(s, pattern) || (s != [] && Contains(s[1..], pattern))
  }

  predicate IsDigit(c: char) {
    '0' <= c <= '9'
  }

  predicate AllDigits(s: string) {
    forall i :: 0 <= i < |s| ==> IsDigit(s[i])
  }

  /** The value of a string of decimal digits (most significant first). */
  function DigitsValue(s: string): nat
    requires AllDigits(s)
  {
    if s == [] then 0
    else 10 * DigitsValue(s[..|s| - 1]) + (s[|s| - 1] - '0') as nat
  }

  /** `Number(s)` restricted to the forms a clock field can take: the string
      is trimmed, an empty string is 0, a string of decimal digits is its
      value, and anything else is NaN (`None`). */
  function JsNumber(s: string): (r: Option<nat>)
    ensures NoSpace(s) && AllDigits(s) ==> r == Some(DigitsValue(s))
    ensures r.None? <==> !AllDigits(Trim(s))
  {
    var t := Trim(s);
    if AllDigits(t) then Some(DigitsValue(t)) else None
  }

  /** The decimal digits of `n`, without leading zeros (`String(n)`). */
  function NatToString(n: nat): (s: string)
    ensures AllDigits(s) && s != []
  {
    if n < 10 then [('0' as int + n) as char]
    else NatToString(n / 10) + [('0' as int + n % 10) as char]
  }

  /** Reading back what `NatToString` wrote gives the number back. */
  lemma {:induction false} NatToStringValue(n: nat)
    ensures DigitsValue(NatToString(n)) == n
  {
    var s := NatToString(n);
    if n >= 10 {
      NatToStringValue(n / 10);
      assert s[..|s| - 1] == NatToString(n / 10);
    }
  }

  /** Trimming twice is trimming once. */
  lemma TrimIdempotent(s: string)
    ensures Trim(Trim(s)) == Trim(s)
  {
    var t := Trim(s);
    if t != [] {
      assert LeadingSpaces(t) == 0;
      assert TrailingStart(t) == |t|;
    }
  }

  lemma {:induction false} RemoveSpacesConcat(a: string, b: string)
    ensures RemoveSpaces(a + b) == RemoveSpaces(a) + RemoveSpaces(b)
    decreases |a|
  {
    if a == [] {
      assert a + b == b;
    } else {
      assert (a + b)[0] == a[0];
      assert (a + b)[1..] == a[1..] + b;
      RemoveSpacesConcat(a[1..], b);
    }
  }

  lemma {:induction false} RemoveSpacesOfSpaces(a: string)
    requires forall k :: 0 <= k < |a| ==> IsJsSpace(a[k])
    ensures RemoveSpaces(a) == []
    decreases |a|
  {
    if a != [] {
      RemoveSpacesOfSpaces(a[1..]);
    }
  }

  /** Removing every white-space character after trimming is the same as
      removing every white-space character. */
  lemma RemoveSpacesOfTrim(s: string)
    ensures RemoveSpaces(Trim(s)) == RemoveSpaces(s)
  {
    var head, tail := TrimParts(s);
    RemoveSpacesAround(head, Trim(s), tail);
  }

  /** `s` is its trimmed text with white space on either side. */
  lemma TrimParts(s: string) returns (head: string, tail: string)
    ensures s == head + (Trim(s) + tail)
    ensures forall k :: 0 <= k < |head| ==> IsJsSpace(head[k])
    ensures forall k :: 0 <= k < |tail| ==> IsJsSpace(tail[k])
  {
    var i := LeadingSpaces(s);
    var j := i + |Trim(s)|;
    SliceParts(s, i, j);
    SpacesSlice(s, 0, i);
    SpacesSlice(s, j, |s|);
    head, tail := s[0..i], s[j..|s|];
  }

  lemma SliceParts(s: string, i: nat, j: nat)
    requires i <= j <= |s|
    ensures s == s[0..i] + (s[i..j] + s[j..|s|])
  {
  }

  lemma SpacesSlice(s: string, lo: nat, hi: nat)
    requires lo <= hi <= |s|
    requires forall k :: lo <= k < hi ==> IsJsSpace(s[k])
    ensures forall k :: 0 <= k < hi - lo ==> IsJsSpace(s[lo..hi][k])
  {
    forall k | 0 <= k < hi - lo ensures IsJsSpace(s[lo..hi][k]) {
      assert s[lo..hi][k] == s[lo + k];
    }
  }

  /** White space on either side makes no difference once every white-space
      character is removed. */
  lemma RemoveSpacesAround(head: string, t: string, tail: string)
    requires forall k :: 0 <= k < |head| ==> IsJsSpace(head[k])
    requires forall k :: 0 <= k < |tail| ==> IsJsSpace(tail[k])
    ensures RemoveSpaces(head + (t + tail)) == RemoveSpaces(t)
  {
    RemoveSpacesConcat(head, t + tail);
    RemoveSpacesConcat(t, tail);
    RemoveSpacesOfSpaces(head);
    RemoveSpacesOfSpaces(tail);
    assert RemoveSpaces(t) + [] == RemoveSpaces(t);
  }
}
