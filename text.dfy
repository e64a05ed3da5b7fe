/**
 * String and sequence helpers with the meaning of the Rust standard-library
 * operations the build code relies on: `str::trim`, `str::split(char)`,
 * `str::lines`, `str::contains`, and the iterator chain
 * `rev().take(n) ... rev()` used to show the end of a log.
 */
module Text {

  /** The characters `char::is_whitespace` accepts (Unicode White_Space),
      which is what `str::trim` strips from both ends. */
  predicate IsWhitespace(c: char) {
    ('\t' <= c <= '\r') || c == ' ' || c == '\U{85}' || c == '\U{A0}' || c == '\U{1680}'
    || ('\U{2000}' <= c <= '\U{200A}') || c == '\U{2028}' || c == '\U{2029}'
    || c == '\U{202F}' || c == '\U{205F}' || c == '\U{3000}'
  }

  /** Drops leading whitespace: the result is the longest suffix of `s`
      that does not start with whitespace. */
  function TrimStart(s: string): (r: string)
    ensures |r| <= |s| && r == s[|s| - |r|..]
    ensures forall i :: 0 <= i < |s| - |r| ==> IsWhitespace(s[i])
    ensures r == [] || !IsWhitespace(r[0])
    decreases |s|
  {
    if |s| > 0 && IsWhitespace(s[0]) then TrimStart(s[1..]) else s
  }

  /** Drops trailing whitespace: the result is the longest prefix of `s`
      that does not end with whitespace. */
  function TrimEnd(s: string): (r: string)
    ensures |r| <= |s| && r == s[..|r|]
    ensures forall i :: |r| <= i < |s| ==> IsWhitespace(s[i])
    ensures r == [] || !IsWhitespace(r[|r| - 1])
    decreases |s|
  {
    if |s| > 0 && IsWhitespace(s[|s| - 1]) then TrimEnd(s[..|s| - 1]) else s
  }

  /** `str::trim`: a contiguous piece of `s` with only whitespace cut off
      on either side, and no whitespace left at either end. */
  function Trim(s: string): (r: string)
    ensures exists k ::
              && OccursAt(s, r, k)
              && (forall i :: 0 <= i < k ==> IsWhitespace(s[i]))
              && (forall i :: k + |r| <= i < |s| ==> IsWhitespace(s[i]))
    ensures r == [] || (!IsWhitespace(r[0]) && !IsWhitespace(r[|r| - 1]))
  {
    TrimCutsOnlyWhitespace(s);
    TrimEnd(TrimStart(s))
  }

  /** Where `Trim` cuts: after the leading whitespace, before the trailing
      whitespace. */
  lemma TrimCutsOnlyWhitespace(s: string)
    ensures var t := TrimStart(s);
            var r := TrimEnd(t);
            var k := |s| - |t|;
            && OccursAt(s, r, k)
            && (forall i :: 0 <= i < k ==> IsWhitespace(s[i]))
            && (forall i :: k + |r| <= i < |s| ==> IsWhitespace(s[i]))
            && (r == [] || (!IsWhitespace(r[0]) && !IsWhitespace(r[|r| - 1])))
  {
    TrimEndKeepsStart(TrimStart(s));
    TrimLocated(s);
    TrimTrailingCut(s);
  }

  /** The trimmed text stands in `s` right after the leading whitespace. */
  lemma TrimLocated(s: string)
    ensures var t := TrimStart(s);
            OccursAt(s, TrimEnd(t), |s| - |t|)
  {
    var t := TrimStart(s);
    TrimEndIsPrefixCut(t);
    PrefixOfSuffixOccurs(s, |s| - |t|, TrimEnd(t));
  }

  /** A prefix of the suffix of `s` from `k` occurs in `s` at `k`. */
  lemma PrefixOfSuffixOccurs(s: string, k: nat, r: string)
    requires k <= |s| && |r| <= |s| - k && r == s[k..][..|r|]
    ensures OccursAt(s, r, k)
  {
  }

  /** Everything after the trimmed text in `s` is whitespace. */
  lemma TrimTrailingCut(s: string)
    ensures var t := TrimStart(s);
            forall i :: |s| - |t| + |TrimEnd(t)| <= i < |s| ==> IsWhitespace(s[i])
  {
    var t := TrimStart(s);
    TrimEndIsPrefixCut(t);
    var k := |s| - |t|;
    forall i | k + |TrimEnd(t)| <= i < |s| ensures IsWhitespace(s[i]) {
      assert s[i] == t[i - k];
    }
  }

  /** `TrimEnd` cuts only a whitespace suffix. */
  lemma TrimEndIsPrefixCut(t: string)
    ensures var r := TrimEnd(t);
            r == t[..|r|] && forall i :: |r| <= i < |t| ==> IsWhitespace(t[i])
  {
  }

  /** `TrimEnd` keeps the first character of a string that does not start
      with whitespace. */
  lemma TrimEndKeepsStart(t: string)
    requires t == [] || !IsWhitespace(t[0])
    ensures var r := TrimEnd(t);
            r == [] || (!IsWhitespace(r[0]) && !IsWhitespace(r[|r| - 1]))
  {
    var r := TrimEnd(t);
    if r != [] {
      assert r[0] == t[0];
    }
  }

  /** Trimming twice is trimming once. */
  lemma TrimIdempotent(s: string)
    ensures Trim(Trim(s)) == Trim(s)
  {
    var r := Trim(s);
    assert TrimStart(r) == r;
    assert TrimEnd(r) == r;
  }

  /** `str::split(sep)` collected into a vector: the pieces between
      separators, in order; an empty string gives one empty piece. */
  function Split(s: string, sep: char): (parts: seq<string>)
    ensures |parts| >= 1
    ensures forall k :: 0 <= k < |parts| ==> sep !in parts[k]
    decreases |s|
  {
    if |s| == 0 then [""]
    else
      var rest := Split(s[1..], sep);
      if s[0] == sep then [""] + rest
      else [[s[0]] + rest[0]] + rest[1..]
  }

  /** The pieces glued back together with the separator between them. */
  function Join(parts: seq<string>, sep: char): string
    requires |parts| >= 1
  {
    if |parts| == 1 then parts[0] else parts[0] + [sep] + Join(parts[1..], sep)
  }

  /** Splitting loses nothing: joining the pieces restores the string. */
  lemma {:induction false} SplitThenJoin(s: string, sep: char)
    ensures Join(Split(s, sep), sep) == s
    decreases |s|
  {
    if |s| > 0 {
      var rest := Split(s[1..], sep);
      SplitThenJoin(s[1..], sep);
      if s[0] == sep {
        assert ([""] + rest)[1..] == rest;
      } else {
        var parts := [[s[0]] + rest[0]] + rest[1..];
        if |rest| > 1 {
          assert parts[1..] == rest[1..];
          assert Join(rest, sep) == rest[0] + [sep] + Join(rest[1..], sep);
        }
        assert s == [s[0]] + s[1..];
      }
    }
  }

  /** The string has a separator exactly when it splits into more than one
      piece. */
  lemma SeparatorIffSeveralPieces(s: string, sep: char)
    ensures sep in s <==> |Split(s, sep)| >= 2
  {
    var parts := Split(s, sep);
    SplitThenJoin(s, sep);
    if |parts| >= 2 {
      assert s == parts[0] + [sep] + Join(parts[1..], sep);
      assert s[|parts[0]|] == sep;
    }
  }

  /** A string without the separator splits into itself alone. */
  lemma {:induction false} SplitWithoutSeparator(a: string, sep: char)
    requires sep !in a
    ensures Split(a, sep) == [a]
    decreases |a|
  {
    if |a| > 0 {
      SplitWithoutSeparator(a[1..], sep);
      assert [a[0]] + a[1..] == a;
    }
  }

  /** The first separator ends the first piece. */
  lemma {:induction false} SplitAtFirstSeparator(a: string, b: string, sep: char)
    requires sep !in a
    ensures Split(a + [sep] + b, sep) == [a] + Split(b, sep)
    decreases |a|
  {
    var s := a + [sep] + b;
    if |a| == 0 {
      assert s[1..] == b;
    } else {
      assert s[1..] == a[1..] + [sep] + b;
      SplitAtFirstSeparator(a[1..], b, sep);
      assert [a[0]] + a[1..] == a;
    }
  }

  /** Joining pieces free of the separator and splitting again gives the
      same pieces back. */
  lemma {:induction false} JoinThenSplit(parts: seq<string>, sep: char)
    requires |parts| >= 1
    requires forall k :: 0 <= k < |parts| ==> sep !in parts[k]
    ensures Split(Join(parts, sep), sep) == parts
    decreases |parts|
  {
    if |parts| == 1 {
      SplitWithoutSeparator(parts[0], sep);
    } else {
      JoinThenSplit(parts[1..], sep);
      SplitAtFirstSeparator(parts[0], Join(parts[1..], sep), sep);
      assert [parts[0]] + parts[1..] == parts;
    }
  }

  /** The joined string starts with the first piece followed by the
      separator whenever there is a second piece. */
  lemma JoinStartsWithFirstTwo(parts: seq<string>, sep: char)
    requires |parts| >= 2
    ensures var head := parts[0] + [sep] + parts[1];
            |head| <= |Join(parts, sep)| && Join(parts, sep)[..|head|] == head
  {
    var tail := Join(parts[1..], sep);
    if |parts| > 2 {
      assert tail == parts[1] + [sep] + Join(parts[2..], sep);
    }
    assert tail[..|parts[1]|] == parts[1];
  }

  /** Drops one trailing carriage return, as `str::lines` does for a line
      that was ended by "\r\n". */
  function StripCarriageReturn(line: string): (r: string)
    ensures r == line || (r + ['\r'] == line)
  {
    if |line| > 0 && line[|line| - 1] == '\r' then line[..|line| - 1] else line
  }

  /** The lines read from the pieces of a text cut at '\n': every piece
      that a '\n' ended loses one trailing '\r'; the piece after the last
      '\n' is a line only when it is not empty. */
  function LinesOfPieces(pieces: seq<string>): (ls: seq<string>)
    requires |pieces| >= 1
    requires forall k :: 0 <= k < |pieces| ==> '\n' !in pieces[k]
    ensures |pieces| - 1 <= |ls| <= |pieces|
    ensures forall k :: 0 <= k < |ls| ==> '\n' !in ls[k]
  {
    if |pieces| == 1 then (if pieces[0] == "" then [] else [pieces[0]])
    else
      var line := StripCarriageReturn(pieces[0]);
      assert '\n' !in line by {
        if line != pieces[0] {
          assert forall i :: 0 <= i < |line| ==> line[i] == pieces[0][i];
        }
      }
      [line] + LinesOfPieces(pieces[1..])
  }

  /** `str::lines`: the text cut at each '\n'; a line ended by "\r\n" loses
      its '\r'; a final line ending does not start an empty last line. */
  function Lines(content: string): (ls: seq<string>)
    ensures forall k :: 0 <= k < |ls| ==> '\n' !in ls[k]
  {
    LinesOfPieces(Split(content, '\n'))
  }

  /** The lines read from the pieces, one by one: every piece that a '\n'
      ended is a line that lost at most one trailing '\r'; the piece after
      the last '\n' is a line, unchanged, exactly when it is not empty. */
  lemma {:induction false} LinesOfPiecesPointwise(pieces: seq<string>)
    requires |pieces| >= 1
    requires forall k :: 0 <= k < |pieces| ==> '\n' !in pieces[k]
    ensures var ls := LinesOfPieces(pieces);
            && (|ls| == |pieces| <==> pieces[|pieces| - 1] != "")
            && (forall k :: 0 <= k < |pieces| - 1 ==> ls[k] == StripCarriageReturn(pieces[k]))
            && (pieces[|pieces| - 1] != "" ==> ls[|pieces| - 1] == pieces[|pieces| - 1])
    decreases |pieces|
  {
    if |pieces| > 1 {
      var rest := pieces[1..];
      LinesOfPiecesPointwise(rest);
      var ls := LinesOfPieces(pieces);
      assert ls == [StripCarriageReturn(pieces[0])] + LinesOfPieces(rest);
      assert forall k :: 1 <= k < |pieces| ==> pieces[k] == rest[k - 1];
    }
  }

  /** Each line of a text, by the pieces of the text cut at '\n': a line
      ended by '\n' loses one '\r' before it, if any; the rest after the
      last '\n' is a line, with any '\r' it ends in kept, exactly when it
      is not empty. */
  lemma LinesPointwise(content: string)
    ensures var pieces := Split(content, '\n');
            var ls := Lines(content);
            && (|ls| == |pieces| <==> pieces[|pieces| - 1] != "")
            && (|ls| != |pieces| ==> |ls| == |pieces| - 1)
            && (forall k :: 0 <= k < |pieces| - 1 ==> ls[k] == StripCarriageReturn(pieces[k]))
            && (pieces[|pieces| - 1] != "" ==> ls[|pieces| - 1] == pieces[|pieces| - 1])
  {
    LinesOfPiecesPointwise(Split(content, '\n'));
  }

  /** A text without '\n' is one line as it stands, a trailing '\r'
      included, or no line when it is empty. */
  lemma UnterminatedLineKept(line: string)
    requires '\n' !in line
    ensures Lines(line) == (if line == "" then [] else [line])
  {
    SplitWithoutSeparator(line, '\n');
  }

  /** Appending a piece to the end of a join appends the separator and the
      piece. */
  lemma {:induction false} JoinAppend(parts: seq<string>, x: string, sep: char)
    requires |parts| >= 1
    ensures Join(parts + [x], sep) == Join(parts, sep) + [sep] + x
    decreases |parts|
  {
    if |parts| > 1 {
      assert (parts + [x])[1..] == parts[1..] + [x];
      JoinAppend(parts[1..], x, sep);
    }
  }

  /** A character missing from the string is missing from every piece of
      its split. */
  lemma {:induction false} SplitPiecesAvoid(s: string, sep: char, c: char)
    requires c !in s
    ensures forall k :: 0 <= k < |Split(s, sep)| ==> c !in Split(s, sep)[k]
    decreases |s|
  {
    if |s| > 0 {
      assert c !in s[1..] by {
        assert forall i :: 0 <= i < |s[1..]| ==> s[1..][i] == s[i + 1];
      }
      SplitPiecesAvoid(s[1..], sep, c);
    }
  }

  /** A line that `str::lines` gives back unchanged: no line break inside
      and no carriage return at its end. */
  predicate PlainLine(line: string) {
    '\n' !in line && (line == [] || line[|line| - 1] != '\r')
  }

  /** Pieces that do not end in '\r' are kept as they are; only an empty
      last piece is dropped. */
  lemma {:induction false} PlainPiecesKept(pieces: seq<string>)
    requires |pieces| >= 1
    requires forall k :: 0 <= k < |pieces| ==> '\n' !in pieces[k]
    requires forall k :: 0 <= k < |pieces| ==> PlainLine(pieces[k])
    ensures pieces[|pieces| - 1] == "" ==> LinesOfPieces(pieces) == pieces[..|pieces| - 1]
    ensures pieces[|pieces| - 1] != "" ==> LinesOfPieces(pieces) == pieces
    decreases |pieces|
  {
    if |pieces| == 1 {
      assert pieces[..0] == [];
    } else {
      assert PlainLine(pieces[0]);
      var rest := pieces[1..];
      assert forall k :: 0 <= k < |rest| ==> '\n' !in rest[k] && PlainLine(rest[k]) by {
        forall k | 0 <= k < |rest| ensures '\n' !in rest[k] && PlainLine(rest[k]) {
          assert rest[k] == pieces[k + 1];
        }
      }
      PlainPiecesKept(rest);
      assert pieces[..|pieces| - 1] == [pieces[0]] + rest[..|rest| - 1];
      assert pieces == [pieces[0]] + rest;
    }
  }

  /** `Lines` keeps every piece of the split at '\n' except an empty last
      one, when no piece ends in a carriage return. */
  lemma LinesOfPlainPieces(content: string)
    requires forall k :: 0 <= k < |Split(content, '\n')| ==> PlainLine(Split(content, '\n')[k])
    ensures var pieces := Split(content, '\n');
            var last := pieces[|pieces| - 1];
            Lines(content) == pieces[..|pieces| - 1] + (if last == "" then [] else [last])
  {
    var pieces := Split(content, '\n');
    PlainPiecesKept(pieces);
    if pieces[|pieces| - 1] != "" {
      assert pieces[..|pieces| - 1] + [pieces[|pieces| - 1]] == pieces;
    }
  }

  /** Each line followed by `ending`, all glued together. */
  function Terminated(ls: seq<string>, ending: string): (text: string)
    ensures ls == [] ==> text == ""
  {
    if ls == [] then "" else ls[0] + ending + Terminated(ls[1..], ending)
  }

  /** Each line with `suffix` appended. */
  function WithSuffix(ls: seq<string>, suffix: string): (r: seq<string>)
    ensures |r| == |ls|
    ensures forall k :: 0 <= k < |ls| ==> r[k] == ls[k] + suffix
  {
    if ls == [] then [] else [ls[0] + suffix] + WithSuffix(ls[1..], suffix)
  }

  /** Appending nothing to each line changes nothing. */
  lemma EmptySuffix(ls: seq<string>)
    ensures WithSuffix(ls, "") == ls
  {
    var r := WithSuffix(ls, "");
    forall k | 0 <= k < |ls| ensures r[k] == ls[k] {
      assert ls[k] + "" == ls[k];
    }
  }

  /** A line without '\n' keeps none when '\r' or nothing is appended. */
  lemma NoNewlineAfterSuffix(line: string, cr: string)
    requires cr == "" || cr == "\r"
    requires '\n' !in line
    ensures '\n' !in line + cr
  {
    forall i | 0 <= i < |line + cr| ensures (line + cr)[i] != '\n' {
      if i < |line| {
        assert (line + cr)[i] == line[i];
      }
    }
  }

  /** Splitting lines each followed by `cr` and '\n' at '\n' gives each
      line followed by `cr`, and one empty piece after the last '\n'. */
  lemma {:induction false} TerminatedSplits(ls: seq<string>, cr: string)
    requires cr == "" || cr == "\r"
    requires forall k :: 0 <= k < |ls| ==> '\n' !in ls[k]
    ensures Split(Terminated(ls, cr + "\n"), '\n') == WithSuffix(ls, cr) + [""]
    decreases |ls|
  {
    if ls != [] {
      var rest := ls[1..];
      assert forall k :: 0 <= k < |rest| ==> '\n' !in rest[k] by {
        forall k | 0 <= k < |rest| ensures '\n' !in rest[k] {
          assert rest[k] == ls[k + 1];
        }
      }
      TerminatedSplits(rest, cr);
      NoNewlineAfterSuffix(ls[0], cr);
      assert Terminated(ls, cr + "\n") == (ls[0] + cr) + ['\n'] + Terminated(rest, cr + "\n");
      SplitAtFirstSeparator(ls[0] + cr, Terminated(rest, cr + "\n"), '\n');
      assert WithSuffix(ls, cr) + [""] == [ls[0] + cr] + (WithSuffix(rest, cr) + [""]);
    }
  }

  /** Lines each ended by "\n" are read back as the same lines, empty ones
      included, provided none ends in '\r'. */
  lemma LinesOfTerminated(ls: seq<string>)
    requires forall k :: 0 <= k < |ls| ==> PlainLine(ls[k])
    ensures Lines(Terminated(ls, "\n")) == ls
  {
    assert forall k :: 0 <= k < |ls| ==> '\n' !in ls[k] by {
      forall k | 0 <= k < |ls| ensures '\n' !in ls[k] {
        assert PlainLine(ls[k]);
      }
    }
    TerminatedSplits(ls, "");
    assert "" + "\n" == "\n";
    EmptySuffix(ls);
    PlainTerminatedKept(ls);
  }

  /** Plain lines followed by one empty piece give back the lines. */
  lemma PlainTerminatedKept(ls: seq<string>)
    requires forall k :: 0 <= k < |ls| ==> PlainLine(ls[k])
    ensures forall k :: 0 <= k < |ls + [""]| ==> '\n' !in (ls + [""])[k]
    ensures LinesOfPieces(ls + [""]) == ls
  {
    var pieces := ls + [""];
    forall k | 0 <= k < |pieces| ensures '\n' !in pieces[k] && PlainLine(pieces[k]) {
      if k < |ls| {
        assert PlainLine(ls[k]);
      }
    }
    PlainPiecesKept(pieces);
    assert pieces[..|ls|] == ls;
  }

  /** Lines each ended by "\r\n" are read back as the same lines, with
      exactly one '\r' removed from each. */
  lemma LinesOfCrlfTerminated(ls: seq<string>)
    requires forall k :: 0 <= k < |ls| ==> '\n' !in ls[k]
    ensures Lines(Terminated(ls, "\r\n")) == ls
  {
    TerminatedSplits(ls, "\r");
    assert "\r" + "\n" == "\r\n";
    CrPiecesStripped(ls);
  }

  /** The lines each followed by '\r', then one empty piece, give back the
      lines. */
  lemma {:induction false} CrPiecesStripped(ls: seq<string>)
    requires forall k :: 0 <= k < |ls| ==> '\n' !in ls[k]
    ensures var pieces := WithSuffix(ls, "\r") + [""];
            (forall k :: 0 <= k < |pieces| ==> '\n' !in pieces[k]) && LinesOfPieces(pieces) == ls
    decreases |ls|
  {
    var pieces := WithSuffix(ls, "\r") + [""];
    if ls != [] {
      var rest := ls[1..];
      assert forall k :: 0 <= k < |rest| ==> '\n' !in rest[k] by {
        forall k | 0 <= k < |rest| ensures '\n' !in rest[k] {
          assert rest[k] == ls[k + 1];
        }
      }
      CrPiecesStripped(rest);
      NoNewlineAfterSuffix(ls[0], "\r");
      assert pieces == [ls[0] + "\r"] + (WithSuffix(rest, "\r") + [""]);
      assert StripCarriageReturn(ls[0] + "\r") == ls[0] by {
        assert (ls[0] + "\r")[..|ls[0]|] == ls[0];
      }
      assert [ls[0]] + rest == ls;
    }
  }

  /** Lines written out with '\n' between them and none after the last,
      which is non-empty, are read back as the same lines. */
  lemma LinesOfJoin(ls: seq<string>)
    requires |ls| >= 1 && ls[|ls| - 1] != ""
    requires forall k :: 0 <= k < |ls| ==> PlainLine(ls[k])
    ensures Lines(Join(ls, '\n')) == ls
  {
    assert forall k :: 0 <= k < |ls| ==> '\n' !in ls[k] by {
      forall k | 0 <= k < |ls| ensures '\n' !in ls[k] {
        assert PlainLine(ls[k]);
      }
    }
    JoinThenSplit(ls, '\n');
    PlainPiecesKept(ls);
  }

  /** Lines joined with '\n' and then ended by one more '\n' are the lines
      each ended by '\n'. */
  lemma {:induction false} JoinThenEnd(ls: seq<string>)
    requires |ls| >= 1
    ensures Join(ls, '\n') + "\n" == Terminated(ls, "\n")
    decreases |ls|
  {
    if |ls| > 1 {
      JoinThenEnd(ls[1..]);
    } else {
      assert Terminated(ls[1..], "\n") == "";
    }
  }

  /** For text without carriage returns that does not end in '\n', the
      lines joined with '\n' restore the text, and a final '\n' adds no
      line. */
  lemma LinesThenJoin(content: string)
    requires content != "" && content[|content| - 1] != '\n'
    requires '\r' !in content
    ensures |Lines(content)| >= 1
    ensures Join(Lines(content), '\n') == content
    ensures Lines(content + "\n") == Lines(content)
  {
    var ls := Split(content, '\n');
    SplitThenJoin(content, '\n');
    SplitPiecesAvoid(content, '\n', '\r');
    assert forall k :: 0 <= k < |ls| ==> PlainLine(ls[k]);
    assert ls[|ls| - 1] != "" by {
      if |ls| > 1 && ls[|ls| - 1] == "" {
        assert ls == ls[..|ls| - 1] + [""];
        JoinAppend(ls[..|ls| - 1], "", '\n');
      }
    }
    LinesOfJoin(ls);
    JoinThenEnd(ls);
    LinesOfTerminated(ls);
  }

  /** The elements of `s` in the opposite order. */
  function Reverse<T>(s: seq<T>): (r: seq<T>)
    ensures |r| == |s|
    ensures forall k :: 0 <= k < |s| ==> r[k] == s[|s| - 1 - k]
  {
    if s == [] then [] else Reverse(s[1..]) + [s[0]]
  }

  /** `Iterator::take(n)`: at most the first `n` elements. */
  function Take<T>(s: seq<T>, n: nat): (r: seq<T>)
    ensures |r| == if n < |s| then n else |s|
    ensures r <= s
  {
    if n < |s| then s[..n] else s
  }

  /** The last `n` elements of `s` (all of them when there are fewer),
      in their original order. */
  function LastN<T>(s: seq<T>, n: nat): seq<T> {
    if n < |s| then s[|s| - n..] else s
  }

  /** Reversing, taking `n` and reversing back keeps exactly the last `n`
      elements, in their original order. */
  lemma ReverseTakeReverse<T>(s: seq<T>, n: nat)
    ensures Reverse(Take(Reverse(s), n)) == LastN(s, n)
  {
    var r := Reverse(Take(Reverse(s), n));
    var t := LastN(s, n);
    assert |r| == |t|;
    forall k | 0 <= k < |r| ensures r[k] == t[k] {
      var m := |r|;
      assert r[k] == Take(Reverse(s), n)[m - 1 - k] == Reverse(s)[m - 1 - k];
    }
  }

  /** `needle` occurs in `hay` starting at index `i`. */
  ghost predicate OccursAt(hay: string, needle: string, i: int) {
    0 <= i && i + |needle| <= |hay| && hay[i..i + |needle|] == needle
  }

  /** `str::contains` with a string pattern: whether `needle` occurs
      anywhere in `hay` (the empty needle occurs everywhere). */
  function Contains(hay: string, needle: string): (b: bool)
    ensures b <==> exists i :: OccursAt(hay, needle, i)
    decreases |hay|
  {
    if |needle| <= |hay| && hay[..|needle|] == needle then
      assert OccursAt(hay, needle, 0);
      true
    else if |hay| == 0 then
      false
    else
      var b := Contains(hay[1..], needle);
      assert forall i :: OccursAt(hay[1..], needle, i) <==> OccursAt(hay, needle, i + 1);
      assert !OccursAt(hay, needle, 0);
      assert forall i :: OccursAt(hay, needle, i) ==> OccursAt(hay[1..], needle, i - 1);
      b
  }
}
