/** The string operations the table builder relies on: joining with a separator
    (`sep.join(parts)`), splitting at a character (`s.split(c)`), splitting into
    whitespace-separated words (how a mount-table reader sees a line), and dropping
    the last character (`s[:-1]`). */
module Text {

  /** Total length of all parts. */
  function TotalLength(parts: seq<string>): nat
  {
    if |parts| == 0 then 0 else |parts[0]| + TotalLength(parts[1..])
  }

  /** Number of occurrences of `c` in `s`. */
  function Occurrences(s: string, c: char): nat
  {
    if |s| == 0 then 0 else (if s[0] == c then 1 else 0) + Occurrences(s[1..], c)
  }

  /** `sep.join(parts)`: the parts in order, with `sep` between neighbours and
      nowhere else. */
  function Join(sep: string, parts: seq<string>): (r: string)
    ensures |parts| == 0 ==> |r| == 0
    ensures |parts| > 0 ==> |r| == TotalLength(parts) + |sep| * (|parts| - 1)
  {
    if |parts| == 0 then ""
    else if |parts| == 1 then parts[0]
    else parts[0] + sep + Join(sep, parts[1..])
  }

  /** Joining a part in front of at least one more: the part, the separator, then the rest. */
  lemma JoinCons(sep: string, part: string, rest: seq<string>)
    requires |rest| > 0
    ensures Join(sep, [part] + rest) == part + sep + Join(sep, rest)
  {
    assert ([part] + rest)[1..] == rest;
  }

  /** `s.split(c)`: the maximal pieces of `s` between occurrences of `c`, empty pieces
      included; there is always one more piece than there are separators. */
  function SplitOn(s: string, c: char): (r: seq<string>)
    ensures |r| == Occurrences(s, c) + 1
    ensures forall i :: 0 <= i < |r| ==> c !in r[i]
  {
    if |s| == 0 then [""]
    else
      var rest := SplitOn(s[1..], c);
      if s[0] == c then [""] + rest
      else [[s[0]] + rest[0]] + rest[1..]
  }

  /** `s` ends with `t`. */
  predicate EndsWith(s: string, t: string)
  {
    |t| <= |s| && s[|s| - |t|..] == t
  }

  /** Whatever comes before it, a string ends with itself. */
  lemma EndsWithAppended(p: string, t: string)
    ensures EndsWith(p + t, t)
  {
    assert (p + t)[|p|..] == t;
  }

  /** `s[:-1]`: everything but the last character; the empty string stays empty. */
  function DropLast(s: string): (r: string)
    ensures |s| == 0 ==> r == ""
    ensures |s| > 0 ==> r + [s[|s| - 1]] == s
  {
    if |s| == 0 then "" else s[..|s| - 1]
  }

  /** A whitespace character as Python's `str.split()` sees one: the ASCII tab, line
      feed, vertical tab, form feed, carriage return, the four information separators
      U+001C to U+001F and the space, plus the Unicode spaces and line breaks U+0085,
      U+00A0, U+1680, U+2000 to U+200A, U+2028, U+2029, U+202F, U+205F and U+3000. */
  predicate IsSpace(c: char)
  {
    || ('\t' <= c <= '\r')
    || ('\U{001C}' <= c <= ' ')
    || c == '\U{0085}' || c == '\U{00A0}' || c == '\U{1680}'
    || ('\U{2000}' <= c <= '\U{200A}')
    || c == '\U{2028}' || c == '\U{2029}' || c == '\U{202F}' || c == '\U{205F}' || c == '\U{3000}'
  }

  /** A string without whitespace characters. */
  predicate Unbroken(s: string)
  {
    forall i :: 0 <= i < |s| ==> !IsSpace(s[i])
  }

  /** A whitespace-free, non-empty field. */
  predicate IsWord(s: string)
  {
    |s| > 0 && Unbroken(s)
  }

  /** A non-empty run of whitespace, such as the table's field separator. */
  predicate IsBlank(s: string)
  {
    |s| > 0 && forall i :: 0 <= i < |s| ==> IsSpace(s[i])
  }

  /** Length of the leading run of non-whitespace characters. */
  function WordLength(s: string): (n: nat)
    ensures n <= |s|
    ensures forall i :: 0 <= i < n ==> !IsSpace(s[i])
    ensures n < |s| ==> IsSpace(s[n])
  {
    if |s| == 0 || IsSpace(s[0]) then 0 else 1 + WordLength(s[1..])
  }

  /** The words of `s`: its maximal runs of non-whitespace characters, in order, as
      a reader that splits on any amount of whitespace sees them (`s.split()`). */
  function Words(s: string): (r: seq<string>)
    ensures forall i :: 0 <= i < |r| ==> IsWord(r[i])
    ensures |r| <= |s|
    decreases |s|
  {
    if |s| == 0 then []
    else if IsSpace(s[0]) then Words(s[1..])
    else
      var n := WordLength(s);
      [s[..n]] + Words(s[n..])
  }

  // ---------------------------------------------------------------------------
  // Splitting undoes joining.

  /** A string without the separator is a single piece. */
  lemma {:induction false} SplitWithoutSeparator(s: string, c: char)
    requires c !in s
    ensures SplitOn(s, c) == [s]
  {
    if |s| > 0 {
      assert s[0] in s;
      SplitWithoutSeparator(s[1..], c);
      assert [s[0]] + s[1..] == s;
    }
  }

  /** A separator-free prefix followed by the separator becomes the first piece. */
  lemma {:induction false} SplitAfterPiece(a: string, c: char, b: string)
    requires c !in a
    ensures SplitOn(a + [c] + b, c) == [a] + SplitOn(b, c)
  {
    if |a| == 0 {
      assert a + [c] + b == [c] + b;
      assert ([c] + b)[1..] == b;
    } else {
      assert (a + [c] + b)[1..] == a[1..] + [c] + b;
      SplitAfterPiece(a[1..], c, b);
      assert [a[0]] + a[1..] == a;
    }
  }

  /** A trailing separator adds one empty piece at the end. */
  lemma {:induction false} SplitTrailingSeparator(s: string, c: char)
    ensures SplitOn(s + [c], c) == SplitOn(s, c) + [""]
  {
    if |s| == 0 {
      assert s + [c] == [c];
      assert [c][1..] == "";
    } else {
      assert (s + [c])[1..] == s[1..] + [c];
      SplitTrailingSeparator(s[1..], c);
    }
  }

  /** Joining separator-free parts with `c` and splitting at `c` gives the parts back. */
  lemma {:induction false} SplitJoin(parts: seq<string>, c: char)
    requires |parts| > 0
    requires forall i :: 0 <= i < |parts| ==> c !in parts[i]
    ensures SplitOn(Join([c], parts), c) == parts
  {
    if |parts| == 1 {
      SplitWithoutSeparator(parts[0], c);
    } else {
      SplitJoin(parts[1..], c);
      SplitAfterPiece(parts[0], c, Join([c], parts[1..]));
      assert [parts[0]] + parts[1..] == parts;
    }
  }

  /** A character that is in neither the separator nor any part is not in the join. */
  lemma {:induction false} JoinAvoids(sep: string, parts: seq<string>, c: char)
    requires c !in sep
    requires forall i :: 0 <= i < |parts| ==> c !in parts[i]
    ensures c !in Join(sep, parts)
  {
    if |parts| > 1 {
      JoinAvoids(sep, parts[1..], c);
    }
  }

  // ---------------------------------------------------------------------------
  // Reading words back out of whitespace-separated text.

  /** Two whitespace-free strings stay whitespace-free when put together. */
  lemma UnbrokenConcat(a: string, b: string)
    requires Unbroken(a) && Unbroken(b)
    ensures Unbroken(a + b)
  {
    forall i | 0 <= i < |a + b|
      ensures !IsSpace((a + b)[i])
    {
      if i >= |a| {
        assert (a + b)[i] == b[i - |a|];
      }
    }
  }

  /** Whitespace-free parts joined by a whitespace-free separator stay whitespace-free. */
  lemma {:induction false} JoinUnbroken(sep: string, parts: seq<string>)
    requires Unbroken(sep)
    requires forall i :: 0 <= i < |parts| ==> Unbroken(parts[i])
    ensures Unbroken(Join(sep, parts))
  {
    if |parts| > 1 {
      JoinUnbroken(sep, parts[1..]);
      UnbrokenConcat(parts[0], sep);
      UnbrokenConcat(parts[0] + sep, Join(sep, parts[1..]));
    }
  }

  /** Leading whitespace contributes no words. */
  lemma {:induction false} WordsAfterBlank(sep: string, s: string)
    requires forall i :: 0 <= i < |sep| ==> IsSpace(sep[i])
    ensures Words(sep + s) == Words(s)
    decreases |sep|
  {
    if |sep| > 0 {
      assert (sep + s)[1..] == sep[1..] + s;
      WordsAfterBlank(sep[1..], s);
    } else {
      assert sep + s == s;
    }
  }

  /** A word followed by nothing or by whitespace is read as that word. */
  lemma {:induction false} WordLengthOfWord(a: string, rest: string)
    requires IsWord(a)
    requires |rest| == 0 || IsSpace(rest[0])
    ensures WordLength(a + rest) == |a|
    decreases |a|
  {
    if |a| > 1 {
      assert (a + rest)[1..] == a[1..] + rest;
      assert !IsSpace(a[0]);
      WordLengthOfWord(a[1..], rest);
    } else {
      assert !IsSpace(a[0]);
      assert (a + rest)[1..] == rest;
    }
  }

  /** A word then a separator: the word comes first, then the words of the rest. */
  lemma WordsSeparated(a: string, sep: string, rest: string)
    requires IsWord(a)
    requires IsBlank(sep)
    ensures Words(a + sep + rest) == [a] + Words(rest)
  {
    var s := a + sep + rest;
    assert s == a + (sep + rest);
    WordLengthOfWord(a, sep + rest);
    assert !IsSpace(a[0]);
    assert s[0] == a[0];
    assert s[..|a|] == a;
    assert s[|a|..] == sep + rest;
    WordsAfterBlank(sep, rest);
  }

  /** A single word reads as itself. */
  lemma WordsOfWord(a: string)
    requires IsWord(a)
    ensures Words(a) == [a]
  {
    WordLengthOfWord(a, "");
    assert a + "" == a;
    assert !IsSpace(a[0]);
    assert a[..|a|] == a;
    assert a[|a|..] == "";
  }

  /** Words separated by blanks read back as exactly those words: the reader that
      splits on whitespace inverts joining with a blank separator. */
  lemma {:induction false} WordsJoin(sep: string, parts: seq<string>)
    requires IsBlank(sep)
    requires |parts| > 0
    requires forall i :: 0 <= i < |parts| ==> IsWord(parts[i])
    ensures Words(Join(sep, parts)) == parts
  {
    if |parts| == 1 {
      WordsOfWord(parts[0]);
    } else {
      WordsJoin(sep, parts[1..]);
      WordsSeparated(parts[0], sep, Join(sep, parts[1..]));
      assert [parts[0]] + parts[1..] == parts;
    }
  }

  /** Text ending in whitespace splits into words independently of what follows it. */
  lemma {:induction false} WordsConcat(p: string, s: string)
    requires |p| == 0 || IsSpace(p[|p| - 1])
    ensures Words(p + s) == Words(p) + Words(s)
    decreases |p|
  {
    if |p| == 0 {
      assert p + s == s;
    } else if IsSpace(p[0]) {
      assert (p + s)[1..] == p[1..] + s;
      WordsConcat(p[1..], s);
    } else {
      var n := WordLength(p);
      WordLengthPrefix(p, s);
      assert (p + s)[..n] == p[..n];
      assert (p + s)[n..] == p[n..] + s;
      WordsConcat(p[n..], s);
    }
  }

  /** The leading word of text that ends in whitespace is not affected by what follows it. */
  lemma {:induction false} WordLengthPrefix(p: string, s: string)
    requires |p| > 0 && IsSpace(p[|p| - 1])
    ensures WordLength(p + s) == WordLength(p)
    ensures WordLength(p) < |p|
    decreases |p|
  {
    if !IsSpace(p[0]) {
      assert |p| > 1;
      assert (p + s)[1..] == p[1..] + s;
      WordLengthPrefix(p[1..], s);
    }
  }
}
