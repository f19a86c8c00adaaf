/** The string operations the session store relies on: Python's `str.splitlines`
    (used to count the lines of an uploaded chunk), `"\n".join` (used to merge a
    session's chunks) and its inverse `str.split("\n")`. */
module Text {

  /** The characters `str.splitlines` treats as line boundaries. */
  predicate IsLineBreak(c: char)
  {
    c == '\n' || c == '\r' || c == '\U{0B}' || c == '\U{0C}' ||
    c == '\U{1C}' || c == '\U{1D}' || c == '\U{1E}' ||
    c == '\U{85}' || c == '\U{2028}' || c == '\U{2029}'
  }

  predicate NoLineBreak(s: string)
  {
    forall k :: 0 <= k < |s| ==> !IsLineBreak(s[k])
  }

  /** Index of the first line break of s, or |s| when there is none. */
  function FirstBreak(s: string): (i: nat)
    ensures i <= |s|
    ensures NoLineBreak(s[..i])
    ensures i < |s| ==> IsLineBreak(s[i])
  {
    if s == [] || IsLineBreak(s[0]) then 0 else 1 + FirstBreak(s[1..])
  }

  /** Where the line terminator starting at i ends: "\r\n" is one terminator of two characters. */
  function TerminatorEnd(s: string, i: nat): (e: nat)
    requires i < |s|
    ensures i < e <= |s|
  {
    if s[i] == '\r' && i + 1 < |s| && s[i + 1] == '\n' then i + 2 else i + 1
  }

  /** `s.splitlines()`: the lines of s without their terminators; no line for the empty
      string and no extra empty line after a final terminator. */
  function SplitLines(s: string): (lines: seq<string>)
    ensures forall k :: 0 <= k < |lines| ==> NoLineBreak(lines[k])
    ensures |lines| <= |s|
    ensures |lines| == 0 <==> s == []
    ensures s != [] && NoLineBreak(s) ==> lines == [s]
    decreases |s|
  {
    if s == [] then []
    else
      var i := FirstBreak(s);
      if i == |s| then [s]
      else [s[..i]] + SplitLines(s[TerminatorEnd(s, i)..])
  }

  /** `len(s.splitlines())`, the count an upload reports. */
  function LineCount(s: string): nat
  {
    |SplitLines(s)|
  }

  /** Number of line terminators in s, counting "\r\n" once: an independent way to count lines. */
  function Terminators(s: string): nat
  {
    if s == [] then 0
    else if |s| > 1 && s[0] == '\r' && s[1] == '\n' then 1 + Terminators(s[2..])
    else (if IsLineBreak(s[0]) then 1 else 0) + Terminators(s[1..])
  }

  predicate EndsWithBreak(s: string)
  {
    s != [] && IsLineBreak(s[|s| - 1])
  }

  lemma {:induction false} TerminatorsSkipText(s: string, i: nat)
    requires i <= |s| && NoLineBreak(s[..i])
    ensures Terminators(s) == Terminators(s[i..])
    decreases i
  {
    if i > 0 {
      assert !IsLineBreak(s[0]) by { assert s[..i][0] == s[0]; }
      assert s[1..][..i - 1] == s[1..i];
      assert s[1..i] == s[..i][1..];
      TerminatorsSkipText(s[1..], i - 1);
      assert s[1..][i - 1..] == s[i..];
    }
  }

  /** A line count is the number of terminators, plus one for a final line left unterminated. */
  lemma {:induction false} LineCountByTerminators(s: string)
    ensures LineCount(s) == Terminators(s) + (if s == [] || EndsWithBreak(s) then 0 else 1)
    decreases |s|
  {
    if s != [] {
      var i := FirstBreak(s);
      TerminatorsSkipText(s, i);
      if i == |s| {
        assert Terminators(s[i..]) == 0 by { assert s[i..] == []; }
        assert s[..i] == s;
      } else {
        var e := TerminatorEnd(s, i);
        var t := s[i..];
        assert t[0] == s[i];
        if e == i + 2 {
          assert t[1] == s[i + 1];
          assert t[2..] == s[e..];
        } else {
          assert !(|t| > 1 && t[0] == '\r' && t[1] == '\n');
          assert t[1..] == s[e..];
        }
        assert Terminators(s) == 1 + Terminators(s[e..]);
        LineCountByTerminators(s[e..]);
        if e < |s| {
          assert s[e..][|s[e..]| - 1] == s[|s| - 1];
        }
      }
    }
  }

  /** `"\n".join(chunks)`. */
  function Join(chunks: seq<string>): string
  {
    if |chunks| == 0 then ""
    else if |chunks| == 1 then chunks[0]
    else chunks[0] + "\n" + Join(chunks[1..])
  }

  /** Joining one more chunk onto a non-empty list extends the joined text by a newline and the chunk. */
  lemma {:induction false} JoinAppend(chunks: seq<string>, c: string)
    requires chunks != []
    ensures Join(chunks + [c]) == Join(chunks) + "\n" + c
    decreases |chunks|
  {
    if |chunks| > 1 {
      assert (chunks + [c])[1..] == chunks[1..] + [c];
      JoinAppend(chunks[1..], c);
    } else {
      assert (chunks + [c])[1..] == [c];
    }
  }

  /** Index of the first "\n" in s, or |s| when there is none. */
  function FirstNewline(s: string): (i: nat)
    ensures i <= |s|
    ensures '\n' !in s[..i]
    ensures i < |s| ==> s[i] == '\n'
  {
    if s == [] || s[0] == '\n' then 0 else 1 + FirstNewline(s[1..])
  }

  /** `s.split("\n")`: always at least one piece, none containing a newline. */
  function Split(s: string): (pieces: seq<string>)
    ensures |pieces| >= 1
    ensures forall k :: 0 <= k < |pieces| ==> '\n' !in pieces[k]
    decreases |s|
  {
    var i := FirstNewline(s);
    if i == |s| then [s] else [s[..i]] + Split(s[i + 1..])
  }

  /** Splitting on newlines and joining back gives the text unchanged. */
  lemma {:induction false} JoinSplit(s: string)
    ensures Join(Split(s)) == s
    decreases |s|
  {
    var i := FirstNewline(s);
    if i == |s| {
      assert s[..i] == s;
    } else {
      var rest := Split(s[i + 1..]);
      var pieces := [s[..i]] + rest;
      assert pieces[0] == s[..i] && pieces[1..] == rest;
      assert Join(pieces) == s[..i] + "\n" + Join(rest);
      JoinSplit(s[i + 1..]);
      assert s == s[..i] + "\n" + s[i + 1..];
    }
  }

  /** Joining newline-free chunks and splitting on newlines gives the chunks back. */
  lemma {:induction false} SplitJoin(chunks: seq<string>)
    requires chunks != []
    requires forall k :: 0 <= k < |chunks| ==> '\n' !in chunks[k]
    ensures Split(Join(chunks)) == chunks
    decreases |chunks|
  {
    var s := Join(chunks);
    var c := chunks[0];
    if |chunks| == 1 {
      assert FirstNewline(s) == |s|;
      assert s[..|s|] == s;
    } else {
      assert s[|c|] == '\n';
      assert s[..|c|] == c;
      assert FirstNewline(s) == |c|;
      assert s[|c| + 1..] == Join(chunks[1..]);
      SplitJoin(chunks[1..]);
    }
  }

  /** `splitlines` of a newline-joined text recovers the chunks, when no chunk holds a
      line break and the last chunk is not empty (an empty last chunk leaves only a
      trailing newline, which `splitlines` does not turn into a line). */
  lemma {:induction false} SplitLinesOfJoin(chunks: seq<string>)
    requires chunks != [] && chunks[|chunks| - 1] != []
    requires forall k :: 0 <= k < |chunks| ==> NoLineBreak(chunks[k])
    ensures SplitLines(Join(chunks)) == chunks
    decreases |chunks|
  {
    if |chunks| > 1 {
      var s := Join(chunks);
      var c := chunks[0];
      assert s[|c|] == '\n';
      assert s[..|c|] == c;
      assert FirstBreak(s) == |c|;
      assert TerminatorEnd(s, |c|) == |c| + 1;
      assert s[|c| + 1..] == Join(chunks[1..]);
      SplitLinesOfJoin(chunks[1..]);
    }
  }
}
