/** The handful of Python `str` operations the hubs use, on `seq<char>`:
    `startswith`/`endswith`, `split(sep)` and `sep.join`, `split()` on
    whitespace, `strip()` and `lstrip(chars)`.
 */
module Strings {

  predicate StartsWith(s: string, prefix: string) {
    |prefix| <= |s| && s[..|prefix|] == prefix
  }

  predicate EndsWith(s: string, suffix: string) {
    |suffix| <= |s| && s[|s| - |suffix|..] == suffix
  }

  /** The separators of `str.split()` and `str.strip()` in this model:
      tab, line feed, vertical tab, form feed, carriage return and space. */
  predicate IsWhitespace(c: char) {
    c == ' ' || (9 <= c as int <= 13)
  }

  // ---------------------------------------------------------------------
  // sep.join(parts) and s.split(sep)
  // ---------------------------------------------------------------------

  /** `sep.join(parts)`: the parts with one `sep` between neighbours. */
  function Join(parts: seq<string>, sep: char): string
  {
    if |parts| == 0 then ""
    else if |parts| == 1 then parts[0]
    else parts[0] + [sep] + Join(parts[1..], sep)
  }

  lemma JoinCons(head: string, tail: seq<string>, sep: char)
    requires |tail| > 0
    ensures Join([head] + tail, sep) == head + [sep] + Join(tail, sep)
  {
    assert ([head] + tail)[1..] == tail;
  }

  /** A property every character of the parts and the separator have,
      every character of the joined text has. */
  lemma {:induction false} JoinPreserves(parts: seq<string>, sep: char, ok: char -> bool)
    requires ok(sep)
    requires forall i, j :: 0 <= i < |parts| && 0 <= j < |parts[i]| ==> ok(parts[i][j])
    ensures forall j :: 0 <= j < |Join(parts, sep)| ==> ok(Join(parts, sep)[j])
    decreases |parts|
  {
    if |parts| > 1 {
      JoinPreserves(parts[1..], sep, ok);
      var s := Join(parts, sep);
      forall j | 0 <= j < |s|
        ensures ok(s[j])
      {
        if j < |parts[0]| {
          assert s[j] == parts[0][j];
        } else if j > |parts[0]| {
          assert s[j] == Join(parts[1..], sep)[j - |parts[0]| - 1];
        }
      }
    } else if |parts| == 1 {
      assert Join(parts, sep) == parts[0];
    }
  }

  /** `s.split(sep)`: the maximal runs between separators, empty runs
      included, so that there is always at least one part and joining the
      parts back gives `s`. */
  function Split(s: string, sep: char): (parts: seq<string>)
    ensures |parts| >= 1
    ensures forall i :: 0 <= i < |parts| ==> sep !in parts[i]
    ensures Join(parts, sep) == s
    decreases |s|
  {
    if |s| == 0 then [""]
    else
      var rest := Split(s[1..], sep);
      if s[0] == sep then
        JoinCons("", rest, sep);
        assert [sep] + s[1..] == s;
        [""] + rest
      else
        var parts := [[s[0]] + rest[0]] + rest[1..];
        assert parts[1..] == rest[1..];
        assert Join(parts, sep) == s by {
          if |rest| == 1 {
            assert Join(rest, sep) == rest[0];
          } else {
            JoinCons(rest[0], rest[1..], sep);
            assert rest == [rest[0]] + rest[1..];
            JoinCons([s[0]] + rest[0], rest[1..], sep);
            assert [s[0]] + s[1..] == s;
          }
        }
        parts
  }

  /** A text free of the separator is a single part. */
  lemma {:induction false} SplitWithoutSeparator(s: string, sep: char)
    requires sep !in s
    ensures Split(s, sep) == [s]
    decreases |s|
  {
    if |s| > 0 {
      assert sep !in s[1..];
      SplitWithoutSeparator(s[1..], sep);
      assert [s[0]] + s[1..] == s;
    }
  }

  /** The part before the first separator is split off whole. */
  lemma {:induction false} SplitAtFirstSeparator(head: string, sep: char, tail: string)
    requires sep !in head
    ensures Split(head + [sep] + tail, sep) == [head] + Split(tail, sep)
    decreases |head|
  {
    var s := head + [sep] + tail;
    if |head| == 0 {
      assert s[0] == sep && s[1..] == tail;
    } else {
      assert s[0] == head[0] && s[1..] == head[1..] + [sep] + tail;
      assert sep !in head[1..];
      SplitAtFirstSeparator(head[1..], sep, tail);
      assert [head[0]] + head[1..] == head;
    }
  }

  /** The other half of the round trip: splitting a join of separator-free
      parts gives the parts back. */
  lemma {:induction false} SplitJoin(parts: seq<string>, sep: char)
    requires |parts| >= 1
    requires forall i :: 0 <= i < |parts| ==> sep !in parts[i]
    ensures Split(Join(parts, sep), sep) == parts
    decreases |parts|
  {
    if |parts| == 1 {
      SplitWithoutSeparator(parts[0], sep);
    } else {
      var tail := parts[1..];
      assert parts == [parts[0]] + tail;
      JoinCons(parts[0], tail, sep);
      assert sep !in parts[0];
      SplitAtFirstSeparator(parts[0], sep, Join(tail, sep));
      SplitJoin(tail, sep);
    }
  }

  // ---------------------------------------------------------------------
  // strip() and lstrip(chars)
  // ---------------------------------------------------------------------

  /** Drops the longest prefix whose characters all satisfy `drop`. */
  function TrimStart(s: string, drop: char -> bool): (r: string)
    ensures |r| <= |s| && r == s[|s| - |r|..]
    ensures forall i :: 0 <= i < |s| - |r| ==> drop(s[i])
    ensures |r| > 0 ==> !drop(r[0])
    decreases |s|
  {
    if |s| > 0 && drop(s[0]) then TrimStart(s[1..], drop) else s
  }

  /** Drops the longest suffix whose characters all satisfy `drop`. */
  function TrimEnd(s: string, drop: char -> bool): (r: string)
    ensures |r| <= |s| && r == s[..|r|]
    ensures forall i :: |r| <= i < |s| ==> drop(s[i])
    ensures |r| > 0 ==> !drop(r[|r| - 1])
    decreases |s|
  {
    if |s| > 0 && drop(s[|s| - 1]) then TrimEnd(s[..|s| - 1], drop) else s
  }

  /** `s.strip()`. */
  function Strip(s: string): string {
    TrimEnd(TrimStart(s, IsWhitespace), IsWhitespace)
  }

  /** A text that neither starts nor ends with whitespace is its own strip. */
  lemma StripUntouched(s: string)
    requires |s| > 0 ==> !IsWhitespace(s[0]) && !IsWhitespace(s[|s| - 1])
    ensures Strip(s) == s
  {
  }

  /** `s.lstrip('/')`. */
  function LStripSlashes(s: string): string {
    TrimStart(s, c => c == '/')
  }

  // ---------------------------------------------------------------------
  // split() on runs of whitespace
  // ---------------------------------------------------------------------

  /** A token of `split()`: non-empty and free of whitespace. */
  predicate IsWord(w: string) {
    |w| > 0 && forall i :: 0 <= i < |w| ==> !IsWhitespace(w[i])
  }

  /** The longest whitespace-free prefix. */
  function LeadingWord(s: string): (w: string)
    ensures |w| <= |s| && w == s[..|w|]
    ensures forall i :: 0 <= i < |w| ==> !IsWhitespace(s[i])
    ensures |w| < |s| ==> IsWhitespace(s[|w|])
    decreases |s|
  {
    if |s| == 0 || IsWhitespace(s[0]) then ""
    else [s[0]] + LeadingWord(s[1..])
  }

  /** `s.split()`: the maximal whitespace-free runs, empty ones dropped. */
  function Words(s: string): (ws: seq<string>)
    ensures forall i :: 0 <= i < |ws| ==> IsWord(ws[i])
    decreases |s|
  {
    if |s| == 0 then []
    else if IsWhitespace(s[0]) then Words(s[1..])
    else
      var w := LeadingWord(s);
      [w] + Words(s[|w|..])
  }

  lemma {:induction false} LeadingWordOfJoin(w: string, rest: string)
    requires IsWord(w)
    requires |rest| > 0 ==> IsWhitespace(rest[0])
    ensures LeadingWord(w + rest) == w
    decreases |w|
  {
    var s := w + rest;
    assert s[0] == w[0] && s[1..] == w[1..] + rest;
    if |w| == 1 {
      assert w[1..] + rest == rest;
      assert [w[0]] == w;
    } else {
      LeadingWordOfJoin(w[1..], rest);
      assert [w[0]] + w[1..] == w;
    }
  }

  /** Splitting a space-joined list of words gives the words back. */
  lemma {:induction false} WordsOfJoin(ws: seq<string>)
    requires forall i :: 0 <= i < |ws| ==> IsWord(ws[i])
    ensures Words(Join(ws, ' ')) == ws
    decreases |ws|
  {
    if |ws| == 1 {
      var w := ws[0];
      LeadingWordOfJoin(w, "");
      assert w + "" == w;
      assert w[|w|..] == "";
    } else if |ws| > 1 {
      var w, tail := ws[0], ws[1..];
      assert ws == [w] + tail;
      JoinCons(w, tail, ' ');
      var s := w + [' '] + Join(tail, ' ');
      LeadingWordOfJoin(w, [' '] + Join(tail, ' '));
      assert s == w + ([' '] + Join(tail, ' '));
      assert s[|w|..] == [' '] + Join(tail, ' ');
      assert s[|w|..][1..] == Join(tail, ' ');
      WordsOfJoin(tail);
    }
  }

  /** Whitespace before the text is skipped. */
  lemma WordsSkipsWhitespace(c: char, s: string)
    requires IsWhitespace(c)
    ensures Words([c] + s) == Words(s)
  {
    assert ([c] + s)[1..] == s;
  }

  /** A single word splits into itself. */
  lemma WordsOfWord(w: string)
    requires IsWord(w)
    ensures Words(w) == [w]
  {
    LeadingWordOfJoin(w, "");
    assert w + "" == w;
    assert w[|w|..] == "";
  }

  /** A word ended by whitespace is the first token, and the rest of the
      text gives the others: together with the two lemmas above this fixes
      `Words` on every text. */
  lemma WordsOfWordThen(w: string, c: char, s: string)
    requires IsWord(w) && IsWhitespace(c)
    ensures Words(w + [c] + s) == [w] + Words(s)
  {
    var t := w + [c] + s;
    LeadingWordOfJoin(w, [c] + s);
    assert t == w + ([c] + s);
    assert t[|w|..] == [c] + s;
    WordsSkipsWhitespace(c, s);
  }

  /** Runs of mixed whitespace separate words like a single space. */
  lemma WordsExample()
    ensures Words("a \t b") == ["a", "b"]
  {
    WordsOfWord("b");
    WordsSkipsWhitespace(' ', "b");
    WordsSkipsWhitespace('\t', " b");
    assert "a \t b" == "a" + [' '] + "\t b";
    assert "\t b" == ['\t'] + " b";
    WordsOfWordThen("a", ' ', "\t b");
  }
}
