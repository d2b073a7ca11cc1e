/** lftpQuote of internal/nas/lftp.go against the lexer that reads the value back. */
module Quoting {
  import opened Common

  predicate Special(c: char) { c == '\\' || c == '"' }

  function EscapedChar(c: char): string { if Special(c) then ['\\', c] else [c] }

  /** The characters of s with a backslash in front of each special one. */
  function Escaped(s: string): string {
    if s == "" then "" else EscapedChar(s[0]) + Escaped(s[1..])
  }

  function Quoted(s: string): string { "\"" + Escaped(s) + "\"" }

  method LftpQuote(s: string) returns (b: string)
    ensures b == Quoted(s)
  {
    b := "\"";
    for i := 0 to |s|
      invariant b + Escaped(s[i..]) == "\"" + Escaped(s)
    {
      assert s[i..][0] == s[i] && s[i..][1..] == s[i + 1..];
      ghost var before := b;
      if s[i] == '\\' || s[i] == '"' {
        b := b + "\\";
      }
      b := b + [s[i]];
      assert b + Escaped(s[i + 1..]) == before + Escaped(s[i..]);
    }
    b := b + "\"";
  }

  /** What the reader of a command file has seen so far: finished commands, finished words
      of the current command, the word being read, and whether quotes are open or a
      backslash was just read inside them. */
  datatype Reader =
    | Reader(commands: seq<seq<string>>, words: seq<string>, word: Option<string>, mode: Quotes)
    | Unsupported

  datatype Quotes = Closed | Opened | AfterBackslash

  const START := Reader([], [], None, Closed)

  /** Outside quotes these have a meaning of their own that the generated scripts never use. */
  predicate Reserved(c: char) {
    c == '\\' || c == '\'' || c == ';' || c == '#' || c == '&' || c == '|' || c == '>' || c == '\r'
  }

  predicate Plain(c: char) { c != ' ' && c != '\t' && c != '\n' && c != '"' && !Reserved(c) }

  function EndWord(r: Reader): Reader
    requires r.Reader?
  {
    if r.word.None? then r else r.(words := r.words + [r.word.value], word := None)
  }

  function EndCommand(r: Reader): Reader
    requires r.Reader?
  {
    var e := EndWord(r);
    if e.words == [] then e else e.(commands := e.commands + [e.words], words := [])
  }

  function WordOf(r: Reader): string
    requires r.Reader?
  {
    if r.word.None? then "" else r.word.value
  }

  function Extend(r: Reader, text: string): Reader
    requires r.Reader?
  {
    r.(word := Some(WordOf(r) + text))
  }

  /** One character: blanks separate words and newlines commands; between double quotes
      only the closing quote and the backslash are special. */
  function Step(r: Reader, c: char): Reader {
    if r.Unsupported? then r
    else match r.mode
      case Closed =>
        if c == '\n' then EndCommand(r)
        else if c == ' ' || c == '\t' then EndWord(r)
        else if c == '"' then Extend(r.(mode := Opened), "")
        else if Reserved(c) then Unsupported
        else Extend(r, [c])
      case Opened =>
        if c == '"' then r.(mode := Closed)
        else if c == '\\' then r.(mode := AfterBackslash)
        else Extend(r, [c])
      case AfterBackslash => Extend(r.(mode := Opened), [c])
  }

  function Run(r: Reader, s: string): Reader
    decreases |s|
  {
    if s == "" then r else Run(Step(r, s[0]), s[1..])
  }

  /** The commands of a whole file; None if it uses what is not supported or ends inside
      quotes. */
  function Commands(text: string): Option<seq<seq<string>>> {
    var r := Run(START, text);
    if r.Unsupported? || r.mode != Closed then None else Some(EndCommand(r).commands)
  }

  lemma {:induction false} RunAppend(r: Reader, a: string, b: string)
    ensures Run(r, a + b) == Run(Run(r, a), b)
    decreases |a|
  {
    if a == "" {
      assert a + b == b;
    } else {
      assert (a + b)[0] == a[0] && (a + b)[1..] == a[1..] + b;
      RunAppend(Step(r, a[0]), a[1..], b);
    }
  }

  lemma RunEscapedChar(r: Reader, c: char)
    requires r.Reader? && r.mode == Opened
    ensures Run(r, EscapedChar(c)) == Extend(r, [c])
  {
    assert [c][1..] == "";
    if Special(c) {
      assert ['\\', c][1..] == [c];
      assert Run(r, ['\\', c]) == Run(Step(r, '\\'), [c]);
    }
  }

  lemma {:induction false} RunEscaped(r: Reader, s: string)
    requires r.Reader? && r.mode == Opened && r.word.Some?
    ensures Run(r, Escaped(s)) == Extend(r, s)
    decreases |s|
  {
    if s == "" {
      assert WordOf(r) + s == WordOf(r);
    } else {
      var c, rest := s[0], s[1..];
      RunEscapedChar(r, c);
      RunAppend(r, EscapedChar(c), Escaped(rest));
      RunEscaped(Extend(r, [c]), rest);
      assert WordOf(r) + [c] + rest == WordOf(r) + s;
    }
  }

  /** For every value: reading the quoted value adds exactly the value to the word being
      read, and leaves the quotes closed. */
  lemma QuotedReadsBack(r: Reader, s: string)
    requires r.Reader? && r.mode == Closed
    ensures Run(r, Quoted(s)) == Extend(r, s)
  {
    var open := Extend(r.(mode := Opened), "");
    assert "\""[1..] == "";
    assert Run(r, "\"") == open;
    RunEscaped(open, s);
    RunAppend(r, "\"", Escaped(s));
    RunAppend(r, "\"" + Escaped(s), "\"");
    assert WordOf(r) + "" == WordOf(r);
    assert Run(Extend(open, s), "\"") == Extend(open, s).(mode := Closed);
  }

  predicate AllPlain(s: string) { forall i :: 0 <= i < |s| ==> Plain(s[i]) }

  lemma {:induction false} PlainReadsBack(r: Reader, s: string)
    requires r.Reader? && r.mode == Closed && AllPlain(s) && s != ""
    ensures Run(r, s) == Extend(r, s)
    decreases |s|
  {
    var r' := Extend(r, [s[0]]);
    assert s == [s[0]] + s[1..];
    if |s| > 1 {
      PlainReadsBack(r', s[1..]);
      assert WordOf(r) + [s[0]] + s[1..] == WordOf(r) + s;
    } else {
      assert s[1..] == "" && s == [s[0]];
    }
  }
}
