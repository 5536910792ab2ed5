/**
 * `PascalCase` — upper-case the first character of every space-separated
 * word — and the `whitespace` padding string.
 */
module Text {
  import opened Strings

  /** `c.toUpperCase()` for one character of the Latin-1 range: ASCII and
      Latin-1 letters map to their capitals, 'ß' becomes "SS", 'µ' becomes
      the Greek capital mu and 'ÿ' becomes 'Ÿ'; everything else is
      unchanged. */
  function Upper(c: char): (r: string)
    ensures |r| >= 1
    ensures c != '\U{DF}' ==> |r| == 1
    ensures c != ' ' ==> ' ' !in r
    ensures c == ' ' ==> r == [c]
  {
    if 'a' <= c <= 'z' then [(c as int - 32) as char]
    else if c == '\U{DF}' then "SS"
    else if c == '\U{B5}' then ['\U{39C}']
    else if c == '\U{FF}' then ['\U{178}']
    else if '\U{E0}' <= c <= '\U{FE}' && c != '\U{F7}' then [(c as int - 32) as char]
    else [c]
  }

  /** A capital is its own capital. */
  lemma UpperOfUpper(c: char)
    ensures Upper(Upper(c)[0]) == [Upper(c)[0]]
  {
  }

  /** `word.charAt(0).toUpperCase() + word.slice(1)`. */
  function Capitalize(word: string): (r: string)
    ensures word == [] <==> r == []
    ensures |r| >= |word|
    ensures word != [] ==> r[|r| - |word| + 1..] == word[1..]
    ensures ' ' !in word ==> ' ' !in r
    ensures '\U{DF}' !in word ==> |r| == |word|
  {
    if word == [] then [] else Upper(word[0]) + word[1..]
  }

  /** Capitalising twice is capitalising once. */
  lemma CapitalizeIdempotent(word: string)
    ensures Capitalize(Capitalize(word)) == Capitalize(word)
  {
    if word != [] {
      var u := Upper(word[0]);
      UpperOfUpper(word[0]);
      var once := Capitalize(word);
      assert once == u + word[1..];
      assert once[0] == u[0] && once[1..] == u[1..] + word[1..];
      assert Capitalize(once) == [u[0]] + once[1..];
      assert [u[0]] + (u[1..] + word[1..]) == u + word[1..];
    }
  }

  function CapitalizeAll(words: seq<string>): (r: seq<string>)
    ensures |r| == |words|
    ensures forall i :: 0 <= i < |r| ==> r[i] == Capitalize(words[i])
  {
    seq(|words|, i requires 0 <= i < |words| => Capitalize(words[i]))
  }

  /** `value.split(" ").map(capitalize).join(" ")`. */
  function PascalCase(value: string): string {
    Join(CapitalizeAll(Split(value, ' ')), ' ')
  }

  /** Splitting the result on spaces gives back the words of the input, each
      capitalised: the number of words is kept, every word keeps all but its
      first character, and empty words (from doubled, leading or trailing
      spaces) stay empty. */
  lemma PascalCaseWords(value: string)
    ensures |Split(PascalCase(value), ' ')| == |Split(value, ' ')|
    ensures forall i :: 0 <= i < |Split(value, ' ')| ==>
      Split(PascalCase(value), ' ')[i] == Capitalize(Split(value, ' ')[i])
  {
    var words := Split(value, ' ');
    SplitJoin(CapitalizeAll(words), ' ');
  }

  /** Two joins of parts of equal lengths have the same length and put the
      separator at the same places. */
  lemma {:induction false} JoinSameShape(a: seq<string>, b: seq<string>, sep: char)
    requires |a| == |b|
    requires forall i :: 0 <= i < |a| ==> |a[i]| == |b[i]| && sep !in a[i] && sep !in b[i]
    ensures |Join(a, sep)| == |Join(b, sep)|
    ensures forall k :: 0 <= k < |Join(a, sep)| ==> (Join(a, sep)[k] == sep <==> Join(b, sep)[k] == sep)
    decreases |a|
  {
    if |a| > 1 {
      JoinSameShape(a[1..], b[1..], sep);
      var ja, jb := Join(a[1..], sep), Join(b[1..], sep);
      assert Join(a, sep) == a[0] + [sep] + ja;
      assert Join(b, sep) == b[0] + [sep] + jb;
      forall k | 0 <= k < |Join(a, sep)|
        ensures Join(a, sep)[k] == sep <==> Join(b, sep)[k] == sep
      {
        if k < |a[0]| {
          assert Join(a, sep)[k] == a[0][k] && Join(b, sep)[k] == b[0][k];
        } else if k > |a[0]| {
          assert Join(a, sep)[k] == ja[k - |a[0]| - 1] && Join(b, sep)[k] == jb[k - |a[0]| - 1];
        }
      }
    }
  }

  /** Without 'ß' every character stays one character: the length is kept and
      the spaces stay where they were. */
  lemma PascalCaseShape(value: string)
    requires '\U{DF}' !in value
    ensures |PascalCase(value)| == |value|
    ensures forall k :: 0 <= k < |value| ==> (PascalCase(value)[k] == ' ' <==> value[k] == ' ')
  {
    var words := Split(value, ' ');
    forall i | 0 <= i < |words| ensures '\U{DF}' !in words[i] {
      JoinedPartIn(words, ' ', i, value);
    }
    JoinSameShape(CapitalizeAll(words), words, ' ');
  }

  /** Every character of a part of a join is a character of the join. */
  lemma {:induction false} JoinedPartIn(parts: seq<string>, sep: char, i: nat, s: string)
    requires i < |parts| && Join(parts, sep) == s
    ensures forall c :: c in parts[i] ==> c in s
    decreases |parts|
  {
    if |parts| > 1 {
      assert s == parts[0] + [sep] + Join(parts[1..], sep);
      if i > 0 {
        JoinedPartIn(parts[1..], sep, i - 1, Join(parts[1..], sep));
      }
    }
  }

  /** Capitalising an already capitalised text changes nothing. */
  lemma PascalCaseIdempotent(value: string)
    ensures PascalCase(PascalCase(value)) == PascalCase(value)
  {
    var caps := CapitalizeAll(Split(value, ' '));
    SplitJoin(caps, ' ');
    forall i | 0 <= i < |caps| ensures CapitalizeAll(caps)[i] == caps[i] {
      CapitalizeIdempotent(Split(value, ' ')[i]);
    }
    assert CapitalizeAll(caps) == caps;
  }

  /** The padding used in embeds: three no-break spaces. */
  const Whitespace: string := "\U{A0}\U{A0}\U{A0}"

  /** The padding is white space to `trim`, so a trimmed field never keeps
      it. */
  lemma WhitespaceTrims()
    ensures |Whitespace| == 3 && forall i :: 0 <= i < 3 ==> Whitespace[i] == '\U{A0}'
    ensures Trim(Whitespace) == []
  {
    assert TrailingStart(Whitespace) == 0 by {
      assert Whitespace[..2] == "\U{A0}\U{A0}";
      assert Whitespace[..2][..1] == "\U{A0}";
      assert Whitespace[..2][..1][..0] == [];
    }
  }
}
