/** Line endings: the two whole-string replacements, and the reader that trims them chunk by chunk. */
module Newline {
  const CR := '\r'
  const LF := '\n'

  // ---------------------------------------------------------------- whole strings

  /** `strings.Replace(s, "\r\n", "\n", -1)`. */
  function ReplaceCrLf(s: string): string {
    if |s| < 2 then s
    else if s[0] == CR && s[1] == LF then [LF] + ReplaceCrLf(s[2..])
    else [s[0]] + ReplaceCrLf(s[1..])
  }

  /** `strings.Replace(s, "\r", "\n", -1)`. */
  function ReplaceCr(s: string): string {
    if s == "" then "" else [if s[0] == CR then LF else s[0]] + ReplaceCr(s[1..])
  }

  function ReplaceEndline(s: string): string {
    ReplaceCr(ReplaceCrLf(s))
  }

  /** The replacer `("\r\n" -> "\n", "\r" -> "\n")`: one pass, the longer pattern first. */
  function NewlineReplace(s: string): string {
    if s == "" then ""
    else if s[0] == CR then [LF] + NewlineReplace(if |s| >= 2 && s[1] == LF then s[2..] else s[1..])
    else [s[0]] + NewlineReplace(s[1..])
  }

  /** What is replaced: a carriage return, with the line feed after it, if any, by a line feed. */
  lemma ReplacedByCases(s: string, c: char)
    ensures NewlineReplace("") == "" && NewlineReplace("\r\n" + s) == "\n" + NewlineReplace(s)
    ensures s == "" || s[0] != '\n' ==> NewlineReplace("\r" + s) == "\n" + NewlineReplace(s)
    ensures c != '\r' ==> NewlineReplace([c] + s) == [c] + NewlineReplace(s)
  {
    assert ("\r\n" + s)[2..] == s && ("\r" + s)[1..] == s;
    assert |"\r" + s| >= 2 ==> ("\r" + s)[1] == s[0];
    assert ([c] + s)[1..] == s;
  }

  lemma {:induction false} OnePassIsTwoPass(s: string)
    ensures NewlineReplace(s) == ReplaceEndline(s)
    decreases |s|
  {
    if |s| >= 2 && s[0] == CR && s[1] == LF {
      OnePassIsTwoPass(s[2..]);
    } else if s != "" {
      OnePassIsTwoPass(s[1..]);
      assert ReplaceCrLf(s) == [s[0]] + ReplaceCrLf(s[1..]);
    }
  }

  lemma {:induction false} NoCrLeft(s: string)
    ensures CR !in NewlineReplace(s)
    decreases |s|
  {
    if s != "" {
      NoCrLeft(s[1..]);
      if s[0] == CR && |s| >= 2 && s[1] == LF {
        NoCrLeft(s[2..]);
      }
    }
  }

  lemma {:induction false} NothingToReplace(s: string)
    requires CR !in s
    ensures NewlineReplace(s) == s
    decreases |s|
  {
    if s != "" {
      NothingToReplace(s[1..]);
      assert [s[0]] + s[1..] == s;
    }
  }

  /** The replacer is idempotent. */
  lemma Idempotent(s: string)
    ensures NewlineReplace(NewlineReplace(s)) == NewlineReplace(s)
  {
    NoCrLeft(s);
    NothingToReplace(NewlineReplace(s));
  }

  // ---------------------------------------------------------------- the trimming reader

  /** What one byte does to the reader's flag, and what it emits. */
  function FlagAfter(flag: bool, c: char): bool {
    if c == CR then true else if c == LF then false else flag
  }

  function Emitted(flag: bool, c: char): string {
    if c == CR then [LF] else if c == LF && flag then "" else [c]
  }

  function FlagAtEnd(flag: bool, s: string): bool
    decreases |s|
  {
    if s == "" then flag else FlagAtEnd(FlagAfter(flag, s[0]), s[1..])
  }

  function Trimmed(flag: bool, s: string): string
    decreases |s|
  {
    if s == "" then "" else Emitted(flag, s[0]) + Trimmed(FlagAfter(flag, s[0]), s[1..])
  }

  /** What the reader makes of each character, by its flag. */
  lemma TrimmedByCases(flag: bool, s: string, c: char)
    ensures Trimmed(flag, "") == "" && Trimmed(flag, "\r" + s) == "\n" + Trimmed(true, s)
    ensures Trimmed(true, "\n" + s) == Trimmed(false, s) && Trimmed(false, "\n" + s) == "\n" + Trimmed(false, s)
    ensures c != '\r' && c != '\n' ==> Trimmed(flag, [c] + s) == [c] + Trimmed(flag, s)
  {
    assert ("\r" + s)[1..] == s && ("\n" + s)[1..] == s && ([c] + s)[1..] == s;
  }

  /** The flag at the end: a carriage return came, or the flag was set, and no line feed since. */
  lemma {:induction false} FlagExact(flag: bool, s: string)
    ensures FlagAtEnd(flag, s) <==> (flag && '\n' !in s) || exists i :: 0 <= i < |s| && s[i] == '\r' && '\n' !in s[i..]
    decreases |s|
  {
    if s != "" {
      var rest := s[1..];
      FlagExact(FlagAfter(flag, s[0]), rest);
      assert s == [s[0]] + rest;
      if i :| 0 <= i < |rest| && rest[i] == '\r' && '\n' !in rest[i..] {
        assert s[i + 1..] == rest[i..] && s[i + 1] == '\r';
      }
      if i :| 0 <= i < |s| && s[i] == '\r' && '\n' !in s[i..] {
        if i == 0 {
          assert forall c :: c in rest ==> c in s[0..];
        } else {
          assert s[i..] == rest[i - 1..] && rest[i - 1] == '\r';
        }
      }
    }
  }

  lemma {:induction false} Associative(a: string, b: string, c: string)
    ensures a + (b + c) == (a + b) + c
  {
  }

  lemma {:induction false} TrimmedAppend(flag: bool, s: string, t: string)
    ensures Trimmed(flag, s + t) == Trimmed(flag, s) + Trimmed(FlagAtEnd(flag, s), t)
    ensures FlagAtEnd(flag, s + t) == FlagAtEnd(FlagAtEnd(flag, s), t)
    decreases |s|
  {
    hide FlagAfter, Emitted;
    if s == "" {
      assert s + t == t;
    } else {
      var first, rest := Emitted(flag, s[0]), Trimmed(FlagAfter(flag, s[0]), s[1..]);
      TrimmedAppend(FlagAfter(flag, s[0]), s[1..], t);
      assert (s + t)[1..] == s[1..] + t;
      Associative(first, rest, Trimmed(FlagAtEnd(flag, s), t));
    }
  }

  lemma {:induction false} TrimmedHasNoCr(flag: bool, s: string)
    ensures CR !in Trimmed(flag, s)
    decreases |s|
  {
    if s != "" {
      TrimmedHasNoCr(FlagAfter(flag, s[0]), s[1..]);
    }
  }

  function Concat(chunks: seq<string>): string {
    if chunks == [] then "" else chunks[0] + Concat(chunks[1..])
  }

  /** The outputs of consecutive reads, the flag carried from one to the next. */
  function Reads(flag: bool, chunks: seq<string>): string
    decreases |chunks|
  {
    if chunks == [] then "" else Trimmed(flag, chunks[0]) + Reads(FlagAtEnd(flag, chunks[0]), chunks[1..])
  }

  /** How the input is cut into reads does not matter. */
  lemma {:induction false} ChunkingIrrelevant(flag: bool, chunks: seq<string>)
    ensures Reads(flag, chunks) == Trimmed(flag, Concat(chunks))
    ensures CR !in Reads(flag, chunks)
    decreases |chunks|
  {
    if chunks != [] {
      ChunkingIrrelevant(FlagAtEnd(flag, chunks[0]), chunks[1..]);
      TrimmedAppend(flag, chunks[0], Concat(chunks[1..]));
    }
    TrimmedHasNoCr(flag, Concat(chunks));
  }

  /**
   * A carriage return, then ordinary characters (at least one), then a line feed: the flag the return
   * sets is still set, and the line feed is lost.
   */
  ghost predicate LosesLineFeed(s: string) {
    exists i, j :: LostAt(s, i, j)
  }

  predicate LostAt(s: string, i: int, j: int) {
    && 0 <= i && i + 1 < j < |s| && s[i] == CR && s[j] == LF
    && forall k :: i < k < j ==> s[k] != CR && s[k] != LF
  }

  /** The same condition read from the left: `flag` as in the reader, `just` when the last byte was the return. */
  predicate Loses(flag: bool, just: bool, s: string)
    decreases |s|
  {
    s != "" &&
    if s[0] == CR then Loses(true, true, s[1..])
    else if s[0] == LF then (flag && !just) || Loses(false, false, s[1..])
    else Loses(flag, false, s[1..])
  }

  /** The replacer read from the left. */
  function Replaced(just: bool, s: string): string
    decreases |s|
  {
    if s == "" then ""
    else if s[0] == CR then [LF] + Replaced(true, s[1..])
    else if s[0] == LF && just then Replaced(false, s[1..])
    else [s[0]] + Replaced(false, s[1..])
  }

  lemma {:induction false} ReplacedIsReplace(s: string)
    ensures Replaced(false, s) == NewlineReplace(s)
    ensures Replaced(true, s) == NewlineReplace(if s != "" && s[0] == LF then s[1..] else s)
    decreases |s|
  {
    if s != "" {
      ReplacedIsReplace(s[1..]);
    }
  }

  /** The reader never emits more than the replacer, and less exactly when a line feed is lost. */
  lemma {:induction false} TrimmedVersusReplaced(flag: bool, just: bool, s: string)
    requires just ==> flag
    ensures Loses(flag, just, s) ==> |Trimmed(flag, s)| < |Replaced(just, s)|
    ensures !Loses(flag, just, s) ==> Trimmed(flag, s) == Replaced(just, s)
    decreases |s|
  {
    if s != "" {
      TrimmedVersusReplaced(FlagAfter(flag, s[0]), s[0] == CR, s[1..]);
    }
  }

  /** With the flag set, the next line ending is a line feed that is not the partner of its return. */
  ghost predicate PendingLost(flag: bool, just: bool, s: string) {
    flag && exists j :: FirstFeed(s, j) && (j > 0 || !just)
  }

  predicate FirstFeed(s: string, j: int) {
    0 <= j < |s| && s[j] == LF && forall k :: 0 <= k < j ==> s[k] != CR && s[k] != LF
  }

  lemma LostAtTail(s: string)
    requires s != ""
    ensures forall i, j :: i >= 0 ==> (LostAt(s[1..], i, j) <==> LostAt(s, i + 1, j + 1))
    ensures forall j :: j >= 0 && s[0] != CR && s[0] != LF ==> (FirstFeed(s[1..], j) <==> FirstFeed(s, j + 1))
    ensures forall j :: j >= 1 && s[0] == CR ==> (FirstFeed(s[1..], j) <==> LostAt(s, 0, j + 1))
  {
  }

  lemma LosesTail(s: string)
    requires s != ""
    ensures LosesLineFeed(s) <==> LosesLineFeed(s[1..]) || (s[0] == CR && exists j :: j >= 1 && FirstFeed(s[1..], j))
  {
    LostAtTail(s);
    if LosesLineFeed(s[1..]) {
      var i, j :| LostAt(s[1..], i, j);
      assert LostAt(s, i + 1, j + 1);
    }
    if LosesLineFeed(s) {
      var i, j :| LostAt(s, i, j);
      if i > 0 {
        assert LostAt(s[1..], i - 1, j - 1);
      } else {
        assert FirstFeed(s[1..], j - 1);
      }
    }
    if s[0] == CR && exists j :: j >= 1 && FirstFeed(s[1..], j) {
      var j :| j >= 1 && FirstFeed(s[1..], j);
      assert LostAt(s, 0, j + 1);
    }
  }

  lemma PendingTail(flag: bool, just: bool, s: string)
    requires s != ""
    ensures s[0] == CR ==> !PendingLost(flag, just, s)
    ensures s[0] == LF ==> (PendingLost(flag, just, s) <==> flag && !just)
    ensures s[0] != CR && s[0] != LF ==> (PendingLost(flag, just, s) <==> PendingLost(flag, false, s[1..]))
  {
    LostAtTail(s);
    if s[0] == LF {
      assert FirstFeed(s, 0);
    } else if s[0] != CR {
      if PendingLost(flag, just, s) {
        var j :| FirstFeed(s, j) && (j > 0 || !just);
        assert FirstFeed(s[1..], j - 1);
      }
      if PendingLost(flag, false, s[1..]) {
        var j :| FirstFeed(s[1..], j);
        assert FirstFeed(s, j + 1);
      }
    }
  }

  lemma {:induction false} LosesMeansLost(flag: bool, just: bool, s: string)
    requires just ==> flag
    ensures Loses(flag, just, s) <==> LosesLineFeed(s) || PendingLost(flag, just, s)
    decreases |s|
  {
    if s != "" {
      LosesMeansLost(FlagAfter(flag, s[0]), s[0] == CR, s[1..]);
      LosesTail(s);
      PendingTail(flag, just, s);
    }
  }

  /**
   * For every way of reading an input in chunks, the reader's output is the whole-string replacement of
   * the input if and only if no line feed follows a return after ordinary characters.
   */
  lemma TrimExact(chunks: seq<string>)
    ensures Reads(false, chunks) == ReplaceEndline(Concat(chunks)) <==> !LosesLineFeed(Concat(chunks))
  {
    var s := Concat(chunks);
    ChunkingIrrelevant(false, chunks);
    OnePassIsTwoPass(s);
    ReplacedIsReplace(s);
    TrimmedVersusReplaced(false, false, s);
    LosesMeansLost(false, false, s);
  }

  /** Inputs with one kind of line ending are never damaged. */
  lemma UniformEndingsSafe(s: string)
    requires CR !in s || LF !in s || forall i :: 0 <= i < |s| && s[i] == CR ==> i + 1 < |s| && s[i + 1] == LF
    ensures !LosesLineFeed(s)
  {
    forall i, j ensures !LostAt(s, i, j) {
      assert 0 <= i < |s| ==> s[i] in s;
      assert 0 <= j < |s| ==> s[j] in s;
      assert 0 <= i && i + 1 < |s| ==> s[i + 1] in s;
    }
  }

  /** A return, a letter, a line feed: the line feed is lost. */
  lemma LostFeedExample()
    ensures Reads(false, ["\ra\n"]) == "\na" && ReplaceEndline("\ra\n") == "\na\n"
  {
    assert Trimmed(true, "a\n") == "a" + Trimmed(true, "\n");
    assert Trimmed(true, "\n") == "";
    assert ReplaceCrLf("\ra\n") == ['\r'] + ReplaceCrLf("a\n");
    assert ReplaceCrLf("a\n") == ['a'] + ReplaceCrLf("\n");
    assert ReplaceCr("\ra\n") == ['\n'] + ReplaceCr("a\n");
    assert ReplaceCr("a\n") == ['a'] + ReplaceCr("\n");
    assert Reads(false, ["\ra\n"]) == Trimmed(false, "\ra\n") + "";
  }

  /** What the next character adds to the output of a prefix. */
  lemma OneMoreTrimmed(flag: bool, p: string, i: nat)
    requires i < |p|
    ensures Trimmed(flag, p[..i + 1]) == Trimmed(flag, p[..i]) + Emitted(FlagAtEnd(flag, p[..i]), p[i])
    ensures FlagAtEnd(flag, p[..i + 1]) == FlagAfter(FlagAtEnd(flag, p[..i]), p[i])
  {
    TrimmedAppend(flag, p[..i], [p[i]]);
    assert p[..i] + [p[i]] == p[..i + 1];
    var before := FlagAtEnd(flag, p[..i]);
    assert Trimmed(before, [p[i]]) == Emitted(before, p[i]) && FlagAtEnd(before, [p[i]]) == FlagAfter(before, p[i]);
  }

  class TrimNewlineReader {
    var prevNewline: bool

    constructor ()
      ensures !prevNewline
    {
      prevNewline := false;
    }

    /**
     * One Read into `ret` of a chunk `p` that the underlying reader returned. If that came with an error, its
     * length is passed on but nothing of it is.
     */
    method Read(ret: array<char>, p: seq<char>, failed: bool) returns (n: nat)
      requires |p| <= ret.Length
      modifies this, ret
      ensures n <= |p|
      ensures failed ==> n == |p| && ret[..] == old(ret[..]) && prevNewline == old(prevNewline)
      ensures !failed ==> ret[..n] == Trimmed(old(prevNewline), p)
      ensures !failed ==> prevNewline == FlagAtEnd(old(prevNewline), p)
    {
      if failed {
        return |p|;
      }
      n := 0;
      var i := 0;
      assert Trimmed(prevNewline, p[..0]) == [] && FlagAtEnd(prevNewline, p[..0]) == prevNewline;
      hide Trimmed, FlagAtEnd;
      while i < |p|
        invariant 0 <= n <= i <= |p|
        invariant ret[..n] == Trimmed(old(prevNewline), p[..i])
        invariant prevNewline == FlagAtEnd(old(prevNewline), p[..i])
      {
        OneMoreTrimmed(old(prevNewline), p, i);
        ghost var done := ret[..n];
        if p[i] == CR {
          prevNewline := true;
          ret[n] := LF;
        } else if p[i] == LF {
          if prevNewline {
            prevNewline := false;
            i := i + 1;
            continue;
          } else {
            ret[n] := LF;
          }
        } else {
          ret[n] := p[i];
        }
        assert ret[..n + 1] == done + [ret[n]];
        n := n + 1;
        i := i + 1;
      }
      assert p[..i] == p;
    }
  }
}
