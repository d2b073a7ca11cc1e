/** Reading lftp's output (internal/nas/lftp.go): the split function `scanLines`, the
    buffered scanner that drives it, and the filter in `stream`. Only \r, \n, space and
    tab matter, so a byte is a character here. */
module LineScanner {
  import opened Common
  import opened Text

  /** The scanner's limit: 64 KiB. */
  const MAX_TOKEN := 65536

  datatype Split = Split(advance: nat, token: Option<string>)

  function ScanLines(data: string, atEOF: bool): Split {
    if atEOF && data == "" then Split(0, None)
    else
      var i := FirstBreak(data);
      if i < |data| then Split(i + 1, Some(data[..i]))
      else if atEOF then Split(|data|, Some(data))
      else Split(0, None)
  }

  // ------------------------------------------------------------ the reference: one split of the whole output

  /** The output cut at every \r and \n, without a final empty piece. */
  function SplitLines(s: string): seq<string>
    decreases |s|
  {
    var i := FirstBreak(s);
    if i < |s| then [s[..i]] + SplitLines(s[i + 1..])
    else if s == "" then []
    else [s]
  }

  /** Every line is shorter than the scanner's limit. */
  predicate Fits(lines: seq<string>)
    decreases |lines|
  {
    lines == [] || (|lines[0]| < MAX_TOKEN && Fits(lines[1..]))
  }

  /** The lines before the first one that is too long. */
  function BeforeLong(lines: seq<string>): seq<string>
    decreases |lines|
  {
    if lines == [] || |lines[0]| >= MAX_TOKEN then [] else [lines[0]] + BeforeLong(lines[1..])
  }

  lemma {:induction false} FitsBefore(lines: seq<string>)
    ensures Fits(lines) ==> BeforeLong(lines) == lines
    decreases |lines|
  {
    if lines != [] {
      FitsBefore(lines[1..]);
      assert lines == [lines[0]] + lines[1..];
    }
  }

  /** strings.TrimRight(line, " \t"). */
  function TrimRight(s: string): string {
    if s != "" && (s[|s| - 1] == ' ' || s[|s| - 1] == '\t') then TrimRight(s[..|s| - 1]) else s
  }

  predicate Blank(c: char) { c == ' ' || c == '\t' }

  /** t is the line without the blanks and tabs at its end: nothing else is missing, and none
      is left. */
  predicate Trimmed(line: string, t: string) {
    && t <= line && (forall i :: |t| <= i < |line| ==> Blank(line[i]))
    && (t != "" ==> !Blank(t[|t| - 1]))
  }

  lemma {:induction false} TrimRightIs(s: string)
    ensures Trimmed(s, TrimRight(s))
    ensures forall t :: Trimmed(s, t) ==> t == TrimRight(s)
    decreases |s|
  {
    if s != "" && Blank(s[|s| - 1]) { TrimRightIs(s[..|s| - 1]); }
    forall t | Trimmed(s, t) ensures t == TrimRight(s) { OneTrim(s, t, TrimRight(s)); }
  }

  lemma OneTrim(s: string, t: string, u: string)
    requires Trimmed(s, t) && Trimmed(s, u)
    ensures t == u
  {
    if t != "" { assert s[|t| - 1] == t[|t| - 1]; }
    if u != "" { assert s[|u| - 1] == u[|u| - 1]; }
    assert |t| == |u| && t == s[..|t|] && u == s[..|u|];
  }

  /** There is something on the line. */
  predicate Solid(line: string) { exists i :: 0 <= i < |line| && !Blank(line[i]) }

  function CountSolid(lines: seq<string>): nat {
    if lines == [] then 0 else CountSolid(lines[..|lines| - 1]) + if Solid(lines[|lines| - 1]) then 1 else 0
  }

  /** What is passed on: right-trimmed, blanks dropped. */
  function Kept(lines: seq<string>): seq<string>
    decreases |lines|
  {
    if lines == [] then []
    else (if TrimRight(lines[0]) != "" then [TrimRight(lines[0])] else []) + Kept(lines[1..])
  }

  lemma {:induction false} KeptAppend(a: seq<string>, b: seq<string>)
    ensures Kept(a + b) == Kept(a) + Kept(b)
    decreases |a|
  {
    if a == [] {
      assert a + b == b;
    } else {
      assert (a + b)[0] == a[0] && (a + b)[1..] == a[1..] + b;
      KeptAppend(a[1..], b);
    }
  }

  lemma SolidIsKept(line: string)
    ensures Solid(line) <==> TrimRight(line) != ""
  {
    TrimRightIs(line);
    var t := TrimRight(line);
    if t != "" { assert !Blank(line[|t| - 1]); }
  }

  /** One piece is kept for each line with something on it, in the order of the lines: the
      line without the blanks at its end. */
  lemma {:induction false} KeptAt(lines: seq<string>, k: nat)
    requires k < |lines|
    ensures |Kept(lines)| == CountSolid(lines)
    ensures Solid(lines[k]) ==>
              CountSolid(lines[..k]) < |Kept(lines)| && Trimmed(lines[k], Kept(lines)[CountSolid(lines[..k])])
    decreases |lines|
  {
    hide TrimRight, Trimmed, Solid;
    var n := |lines| - 1;
    var front, last := lines[..n], lines[n];
    assert lines == front + [last];
    KeptAppend(front, [last]);
    OneKept(last);
    SolidIsKept(last);
    TrimRightIs(last);
    if n > 0 {
      KeptAt(front, if k < n then k else 0);
      assert k < n ==> front[..k] == lines[..k];
    } else {
      assert front == [];
    }
  }

  lemma OneKept(line: string)
    ensures Kept([line]) == PassedOn(line)
  {
    assert [line][1..] == [] && PassedOn(line) + [] == PassedOn(line);
  }

  // ------------------------------------------------------------ cutting and gluing

  /** Lines and the breaks behind them; a last line need not have one. */
  function Glued(lines: seq<string>, breaks: string): string
    requires |lines| - 1 <= |breaks| <= |lines|
  {
    if lines == [] then ""
    else if breaks == "" then lines[0]
    else lines[0] + [breaks[0]] + Glued(lines[1..], breaks[1..])
  }

  predicate Breaks(s: string) { forall i :: 0 <= i < |s| ==> s[i] == '\r' || s[i] == '\n' }

  predicate AllOneLine(lines: seq<string>) { forall i :: 0 <= i < |lines| ==> OneLine(lines[i]) }

  predicate IsCut(s: string, lines: seq<string>, breaks: string) {
    && |lines| - 1 <= |breaks| <= |lines| && Glued(lines, breaks) == s
    && Breaks(breaks) && AllOneLine(lines)
    && (|breaks| < |lines| ==> lines[|lines| - 1] != "")
  }

  /** The lines, with the breaks between them, are the output; there is no break in any of
      them, and only an empty rest is not a line. */
  lemma {:induction false} SplitIsCutting(s: string) returns (breaks: string)
    ensures IsCut(s, SplitLines(s), breaks)
    decreases |s|
  {
    hide SplitLines, IsCut;
    var i := FirstBreak(s);
    if i < |s| {
      var rest := s[i + 1..];
      CutFirst(s);
      assert s == s[..i] + [s[i]] + rest;
      var others := SplitIsCutting(rest);
      breaks := [s[i]] + others;
      OneMorePiece(s[..i], s[i], rest, SplitLines(rest), others);
    } else {
      breaks := "";
      LastPiece(s);
    }
  }

  lemma LastPiece(s: string)
    requires FirstBreak(s) == |s|
    ensures IsCut(s, SplitLines(s), "")
  {
  }

  lemma CutFirst(s: string)
    requires FirstBreak(s) < |s|
    ensures var i := FirstBreak(s); SplitLines(s) == [s[..i]] + SplitLines(s[i + 1..])
  {
  }

  lemma OneMorePiece(line: string, c: char, s: string, rest: seq<string>, breaks: string)
    requires IsCut(s, rest, breaks) && (c == '\r' || c == '\n') && OneLine(line)
    ensures IsCut(line + [c] + s, [line] + rest, [c] + breaks)
  {
    assert ([line] + rest)[1..] == rest && ([c] + breaks)[1..] == breaks;
  }

  // ------------------------------------------------------------ the scanner

  function Flatten(chunks: seq<string>): string
    decreases |chunks|
  {
    if chunks == [] then "" else chunks[0] + Flatten(chunks[1..])
  }

  lemma SplitFirst(buf: string, rest: string)
    requires FirstBreak(buf) < |buf|
    ensures SplitLines(buf + rest) == [buf[..FirstBreak(buf)]] + SplitLines(buf[FirstBreak(buf) + 1..] + rest)
  {
    var i := FirstBreak(buf);
    var a, tail := buf[..i], buf[i + 1..] + rest;
    assert buf + rest == a + [buf[i]] + tail;
    FirstBreakAt(a, buf[i], tail);
    assert (buf + rest)[..i] == a && (buf + rest)[i + 1..] == tail;
  }

  /** A full buffer without a break starts a line that is too long. */
  lemma LongLine(buf: string, rest: string)
    requires FirstBreak(buf) == |buf| && |buf| >= MAX_TOKEN
    ensures SplitLines(buf + rest) != [] && |SplitLines(buf + rest)[0]| >= MAX_TOKEN
  {
    var s := buf + rest;
    assert forall k :: 0 <= k < |buf| ==> s[k] == buf[k];
    assert FirstBreak(s) >= |buf|;
  }

  /** One call of the reader: at most `room` characters of the next chunk. */
  method ReadInto(room: nat, chunks: seq<string>) returns (data: string, rest: seq<string>)
    requires room > 0 && chunks != [] && forall i :: 0 <= i < |chunks| ==> chunks[i] != ""
    ensures data != "" && |data| <= room && data + Flatten(rest) == Flatten(chunks)
    ensures forall i :: 0 <= i < |rest| ==> rest[i] != ""
    ensures |Flatten(rest)| < |Flatten(chunks)|
  {
    if |chunks[0]| <= room {
      data, rest := chunks[0], chunks[1..];
    } else {
      data := chunks[0][..room];
      rest := [chunks[0][room..]] + chunks[1..];
      assert rest[1..] == chunks[1..];
      assert chunks[0] == data + chunks[0][room..];
      assert data + (chunks[0][room..] + Flatten(chunks[1..])) == chunks[0] + Flatten(chunks[1..]);
    }
  }

  /** A token is the next line of what is left. */
  lemma StepToken(buf: string, rest: string, eof: bool)
    requires |buf| <= MAX_TOKEN && (eof ==> rest == "")
    requires ScanLines(buf, eof).token.Some?
    ensures var split := ScanLines(buf, eof); var lines := SplitLines(buf + rest);
            split.advance <= |buf| && split.advance > 0 && lines != [] && lines[0] == split.token.value &&
            lines[1..] == SplitLines(buf[split.advance..] + rest)
  {
    var i := FirstBreak(buf);
    if i < |buf| {
      SplitFirst(buf, rest);
    } else {
      assert buf + rest == buf;
      assert buf[|buf|..] + rest == "";
    }
  }

  /** One scan: the first line ahead, unless there is none or it is too long. */
  predicate Scanned(before: seq<string>, token: Option<string>, failed: bool, after: seq<string>) {
    if before == [] then token == None && !failed
    else if |before[0]| >= MAX_TOKEN then token == None && failed
    else token == Some(before[0]) && !failed && after == before[1..]
  }

  /** bufio.Scanner over a reader that yields the output in arbitrary pieces. */
  class Scanner {
    var buf: string
    var source: seq<string>
    var eof: bool
    var failed: bool   // ErrTooLong

    ghost predicate Valid()
      reads this
    {
      && (forall i :: 0 <= i < |source| ==> source[i] != "")
      && |buf| <= MAX_TOKEN
      && (eof ==> source == [] && |buf| < MAX_TOKEN)
    }

    /** The lines still to come. */
    ghost function Ahead(): seq<string>
      reads this
    {
      SplitLines(buf + Flatten(source))
    }

    constructor (chunks: seq<string>)
      requires forall i :: 0 <= i < |chunks| ==> chunks[i] != ""
      ensures Valid() && !failed && Ahead() == SplitLines(Flatten(chunks))
    {
      buf, source, eof, failed := "", chunks, false, false;
      new;
      assert buf + Flatten(source) == Flatten(chunks);
    }

    /** What Refill uses up. */
    ghost function Left(): nat
      reads this
    {
      |Flatten(source)| + (if eof then 0 else 1)
    }

    /** Read more into the buffer, or find the end of the output. */
    method Refill()
      requires Valid() && !eof && |buf| < MAX_TOKEN
      modifies this
      ensures Valid() && failed == old(failed) && Ahead() == old(Ahead()) && Left() < old(Left())
    {
      if source == [] {
        eof := true;
      } else {
        var data, left := ReadInto(MAX_TOKEN - |buf|, source);
        assert buf + Flatten(source) == (buf + data) + Flatten(left);
        buf, source := buf + data, left;
      }
    }

    /** The next line; nothing at the end of the output or before a line that is too long. */
    method Scan() returns (token: Option<string>)
      requires Valid() && !failed
      modifies this
      ensures Valid()
      ensures Scanned(old(Ahead()), token, failed, Ahead())
    {
      while true
        invariant Valid() && !failed && Ahead() == old(Ahead())
        decreases Left()
      {
        if buf != "" || eof {
          var split := ScanLines(buf, eof);
          if split.token.Some? {
            StepToken(buf, Flatten(source), eof);
            buf := buf[split.advance..];
            return split.token;
          }
        }
        if eof {
          assert buf + Flatten(source) == "";
          return None;
        }
        if |buf| >= MAX_TOKEN {
          LongLine(buf, Flatten(source));
          failed := true;
          return None;
        }
        Refill();
      }
    }
  }

  /** What has been passed on, and the lines still ahead, make up the whole output. */
  predicate Underway(all: seq<string>, passed: seq<string>, ahead: seq<string>) {
    && (Fits(all) <==> Fits(ahead))
    && Kept(BeforeLong(all)) == passed + Kept(BeforeLong(ahead))
  }

  function PassedOn(line: string): seq<string> { if TrimRight(line) != "" then [TrimRight(line)] else [] }

  lemma OneLineOn(all: seq<string>, passed: seq<string>, ahead: seq<string>, line: string, failed: bool, after: seq<string>)
    requires Underway(all, passed, ahead) && Scanned(ahead, Some(line), failed, after)
    ensures Underway(all, passed + PassedOn(line), after) && |after| < |ahead|
    ensures TrimRight(line) == "" ==> Underway(all, passed, after)
  {
    hide TrimRight;
    var rest := BeforeLong(after);
    assert ([line] + rest)[1..] == rest;
    assert Kept([line] + rest) == PassedOn(line) + Kept(rest);
    assert passed + PassedOn(line) + Kept(rest) == passed + (PassedOn(line) + Kept(rest));
  }

  lemma LastLine(all: seq<string>, passed: seq<string>, ahead: seq<string>, failed: bool, after: seq<string>)
    requires Underway(all, passed, ahead) && Scanned(ahead, None, failed, after)
    ensures passed == Kept(BeforeLong(all)) && (Fits(all) <==> !failed)
    ensures !failed ==> passed == Kept(all)
  {
    assert Kept(BeforeLong(ahead)) == [];
    FitsBefore(all);
  }

  /** The scan loop of `stream`. Whatever the cutting of the output into reads, the lines
      passed on are those of the whole output, up to the first line the scanner cannot
      hold; and it gives up exactly when there is such a line. */
  method Stream(chunks: seq<string>) returns (passed: seq<string>, complete: bool)
    requires forall i :: 0 <= i < |chunks| ==> chunks[i] != ""
    ensures complete <==> Fits(SplitLines(Flatten(chunks)))
    ensures passed == Kept(BeforeLong(SplitLines(Flatten(chunks))))
    ensures complete ==> passed == Kept(SplitLines(Flatten(chunks)))
  {
    ghost var all := SplitLines(Flatten(chunks));
    var scanner := new Scanner(chunks);
    passed := [];
    ghost var ahead := scanner.Ahead();
    var token := scanner.Scan();
    while token.Some?
      invariant scanner.Valid() && fresh(scanner)
      invariant Scanned(ahead, token, scanner.failed, scanner.Ahead())
      invariant Underway(all, passed, ahead)
      decreases |ahead|
    {
      OneLineOn(all, passed, ahead, token.value, scanner.failed, scanner.Ahead());
      var line := TrimRight(token.value);
      if line != "" {
        passed := passed + [line];
      }
      ahead := scanner.Ahead();
      token := scanner.Scan();
    }
    LastLine(all, passed, ahead, scanner.failed, scanner.Ahead());
    complete := !scanner.failed;
  }

  // ------------------------------------------------------------ \r\n reads like \n

  /** strings.ReplaceAll(s, "\r\n", "\n"). */
  function CrlfToLf(s: string): string
    decreases |s|
  {
    if s == "" then ""
    else if |s| > 1 && s[0] == '\r' && s[1] == '\n' then "\n" + CrlfToLf(s[2..])
    else [s[0]] + CrlfToLf(s[1..])
  }

  /** The same split, one character at a time, with the current line so far in hand. */
  function SplitFrom(line: string, s: string): seq<string>
    decreases |s|
  {
    if s == "" then (if line == "" then [] else [line])
    else if s[0] == '\r' || s[0] == '\n' then [line] + SplitFrom("", s[1..])
    else SplitFrom(line + [s[0]], s[1..])
  }

  lemma {:induction false} SplitFromIsSplit(line: string, s: string)
    requires OneLine(line)
    ensures SplitFrom(line, s) == SplitLines(line + s)
    decreases |s|
  {
    if s == "" {
      assert line + s == line;
    } else if s[0] == '\r' || s[0] == '\n' {
      SplitFromIsSplit("", s[1..]);
      assert line + s == line + [s[0]] + s[1..];
      FirstBreakAt(line, s[0], s[1..]);
      assert (line + s)[..|line|] == line && (line + s)[|line| + 1..] == s[1..];
      assert "" + s[1..] == s[1..];
    } else {
      SplitFromIsSplit(line + [s[0]], s[1..]);
      assert line + s == (line + [s[0]]) + s[1..];
    }
  }

  /** The empty piece between \r and \n is not passed on. */
  lemma EmptyPiece(line: string, rest: seq<string>)
    ensures Kept([line] + ([""] + rest)) == Kept([line] + rest)
  {
    KeptAppend([line], rest);
    KeptAppend([line], [""] + rest);
    KeptAppend([""], rest);
    assert Kept([""]) == [];
  }

  lemma {:induction false} CrlfKept(line: string, s: string)
    ensures Kept(SplitFrom(line, CrlfToLf(s))) == Kept(SplitFrom(line, s))
    decreases |s|
  {
    if s == "" {
    } else if |s| > 1 && s[0] == '\r' && s[1] == '\n' {
      var t := CrlfToLf(s[2..]);
      CrlfKept("", s[2..]);
      assert ("\n" + t)[0] == '\n' && ("\n" + t)[1..] == t;
      assert s[1..][0] == '\n' && s[1..][1..] == s[2..];
      EmptyPiece(line, SplitFrom("", s[2..]));
      SameAfter(line, SplitFrom("", t), SplitFrom("", s[2..]));
    } else {
      var t := CrlfToLf(s[1..]);
      assert ([s[0]] + t)[0] == s[0] && ([s[0]] + t)[1..] == t;
      if s[0] == '\r' || s[0] == '\n' {
        CrlfKept("", s[1..]);
        SameAfter(line, SplitFrom("", t), SplitFrom("", s[1..]));
      } else {
        CrlfKept(line + [s[0]], s[1..]);
      }
    }
  }

  lemma SameAfter(line: string, a: seq<string>, b: seq<string>)
    requires Kept(a) == Kept(b)
    ensures Kept([line] + a) == Kept([line] + b)
  {
    KeptAppend([line], a);
    KeptAppend([line], b);
  }

  /** The lines passed on do not depend on which of the two line endings the NAS uses. */
  lemma CrlfReadsLikeLf(s: string)
    ensures Kept(SplitLines(CrlfToLf(s))) == Kept(SplitLines(s))
  {
    CrlfKept("", s);
    SplitFromIsSplit("", s);
    SplitFromIsSplit("", CrlfToLf(s));
    assert "" + s == s && "" + CrlfToLf(s) == CrlfToLf(s);
  }
}
