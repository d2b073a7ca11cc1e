/** shQuote of internal/nas/lftp.go against the token recognition of a POSIX shell. */
module ShellReader {
  import opened Common

  /** strings.ReplaceAll(s, "'", `'\''`). */
  function Spliced(s: string): string {
    if s == "" then ""
    else if s[0] == '\'' then ['\'', '\\', '\'', '\''] + Spliced(s[1..])
    else [s[0]] + Spliced(s[1..])
  }

  function ShQuote(s: string): string { "'" + Spliced(s) + "'" }

  // ------------------------------------------------------------ tokens

  /** A word with its quotes removed. It is live if some character of it still asks for an
      expansion of parameters, pathnames or a tilde; `inside` holds the tokens of its command
      substitutions, each of which stands in the text as "$()". */
  datatype ShWord = ShWord(text: string, live: bool, inside: seq<seq<Token>>)

  datatype Token = Word(word: ShWord) | Operator(symbol: char)

  /** A word that means just its characters. */
  function Exactly(text: string): Token { Word(ShWord(text, false, [])) }

  datatype ShMode = Unquoted | Escape | Single | Double | DoubleEscape | Comment | Dollar | DoubleDollar

  /** Where a command substitution began. */
  datatype Outer = Outer(tokens: seq<Token>, word: ShWord, mode: ShMode)

  /** The state of token recognition. Beyond: something the reader does not know, which is a
      backquote, a parameter in braces, a here-document, and parentheses inside a command
      substitution, arithmetic included. */
  datatype Shell =
    | Shell(tokens: seq<Token>, word: Option<ShWord>, mode: ShMode, outer: seq<Outer>)
    | Beyond

  const SH_START := Shell([], None, Unquoted, [])

  /** Characters that form operators. An operator of several characters shows up as several
      tokens; a newline is an operator here. */
  predicate Operates(c: char) {
    c == '\n' || c == '|' || c == '&' || c == ';' || c == '<' || c == '>' || c == '(' || c == ')'
  }

  /** A blank or an operator ends a word. */
  predicate Delimits(c: char) { c == ' ' || c == '\t' || Operates(c) }

  /** Ordinary characters of a word, which may be expanded later. */
  predicate Globs(c: char) { c == '*' || c == '?' || c == '[' || c == '~' }

  const NOTHING := ShWord("", false, [])

  function Pending(t: Shell): ShWord
    requires t.Shell?
  {
    if t.word.None? then NOTHING else t.word.value
  }

  function Grow(t: Shell, text: string): Shell
    requires t.Shell?
  {
    t.(word := Some(Pending(t).(text := Pending(t).text + text)))
  }

  function GrowLive(t: Shell, c: char): Shell
    requires t.Shell?
  {
    t.(word := Some(Pending(t).(text := Pending(t).text + [c], live := true)))
  }

  function Delimit(t: Shell): (d: Shell)
    requires t.Shell?
    ensures d.Shell? && d.word == None
  {
    if t.word.None? then t else t.(tokens := t.tokens + [Word(t.word.value)], word := None)
  }

  predicate After(tokens: seq<Token>, c: char) { tokens != [] && tokens[|tokens| - 1] == Operator(c) }

  function Delimited(t: Shell, c: char): Shell
    requires t.Shell?
  {
    var d := Delimit(t);
    if c == ')' && d.outer != [] then Leave(d)
    else if (c == '(' && d.outer != []) || (c == '<' && After(d.tokens, '<')) then Beyond
    else if Operates(c) then d.(tokens := d.tokens + [Operator(c)])
    else d
  }

  /** A command substitution is read as a text of its own. */
  function Enter(t: Shell, mode: ShMode): Shell
    requires t.Shell?
  {
    Shell([], None, Unquoted, t.outer + [Outer(t.tokens, Pending(t), mode)])
  }

  function Leave(t: Shell): Shell
    requires t.Shell? && t.outer != []
  {
    var n := |t.outer| - 1;
    var o := t.outer[n];
    var word := ShWord(o.word.text + "()", o.word.live, o.word.inside + [t.tokens]);
    Shell(o.tokens, Some(word), o.mode, t.outer[..n])
  }

  function UnquotedStep(t: Shell, c: char): Shell
    requires t.Shell?
  {
    if c == '\'' then Grow(t.(mode := Single), "")
    else if c == '"' then Grow(t.(mode := Double), "")
    else if c == '\\' then t.(mode := Escape)
    else if c == '`' then Beyond
    else if Delimits(c) then Delimited(t, c)
    else if c == '#' && t.word.None? then t.(mode := Comment)
    else if c == '$' then GrowLive(t.(mode := Dollar), c)
    else if Globs(c) then GrowLive(t, c)
    else Grow(t, [c])
  }

  function DoubleStep(t: Shell, c: char): Shell
    requires t.Shell?
  {
    if c == '"' then t.(mode := Unquoted)
    else if c == '\\' then t.(mode := DoubleEscape)
    else if c == '`' then Beyond
    else if c == '$' then GrowLive(t.(mode := DoubleDollar), c)
    else Grow(t, [c])
  }

  /** After a dollar sign a name or a special parameter is read like any other characters,
      except that the second of two dollar signs starts nothing. */
  function DollarStep(t: Shell, c: char, mode: ShMode): Shell
    requires t.Shell? && (mode == Unquoted || mode == Double)
  {
    var back := t.(mode := mode);
    if c == '(' then Enter(t, mode)
    else if c == '{' then Beyond
    else if c == '$' then Grow(back, [c])
    else if mode == Unquoted then UnquotedStep(back, c)
    else DoubleStep(back, c)
  }

  /** Sections 2.2.1 to 2.2.3 and 2.3 of the Shell Command Language of POSIX.1-2017. */
  function ShStep(t: Shell, c: char): Shell {
    if t.Beyond? then t
    else match t.mode
      case Unquoted => UnquotedStep(t, c)
      case Dollar => DollarStep(t, c, Unquoted)
      case Escape => if c == '\n' then t.(mode := Unquoted) else Grow(t.(mode := Unquoted), [c])
      case Single => if c == '\'' then t.(mode := Unquoted) else Grow(t, [c])
      case Double => DoubleStep(t, c)
      case DoubleDollar => DollarStep(t, c, Double)
      case DoubleEscape =>
        var back := t.(mode := Double);
        if c == '\n' then back
        else if c == '$' || c == '`' || c == '"' || c == '\\' then Grow(back, [c])
        else Grow(back, ['\\', c])
      case Comment => if c == '\n' then t.(tokens := t.tokens + [Operator(c)], mode := Unquoted) else t
  }

  function ShRun(t: Shell, s: string): Shell
    decreases |s|
  {
    if s == "" then t else ShRun(ShStep(t, s[0]), s[1..])
  }

  predicate Complete(t: Shell) {
    t.Shell? && t.outer == [] && (t.mode == Unquoted || t.mode == Comment || t.mode == Dollar)
  }

  /** The tokens of a whole text; None if it is beyond the reader or ends inside quotes or a
      substitution. */
  function Tokens(text: string): Option<seq<Token>> {
    var t := ShRun(SH_START, text);
    if Complete(t) then Some(Delimit(t).tokens) else None
  }

  lemma {:induction false} ShRunAppend(t: Shell, a: string, b: string)
    ensures ShRun(t, a + b) == ShRun(ShRun(t, a), b)
    decreases |a|
  {
    if a == "" {
      assert a + b == b;
    } else {
      assert (a + b)[0] == a[0] && (a + b)[1..] == a[1..] + b;
      ShRunAppend(ShStep(t, a[0]), a[1..], b);
    }
  }

  lemma ShRunOne(t: Shell, c: char)
    ensures ShRun(t, [c]) == ShStep(t, c)
  {
    assert [c][1..] == "";
  }

  // ------------------------------------------------------------ a quoted value

  lemma GrowTwice(t: Shell, a: string, b: string)
    requires t.Shell?
    ensures Grow(Grow(t, a), b) == Grow(t, a + b)
  {
    assert Pending(t).text + a + b == Pending(t).text + (a + b);
  }

  /** Close the quotes, an escaped quote, open them again. */
  lemma SpliceReadsBack(t: Shell)
    requires t.Shell? && t.mode == Single && t.word.Some?
    ensures ShRun(t, ['\'', '\\', '\'', '\'']) == Grow(t, "'")
  {
    var s := ['\'', '\\', '\'', '\''];
    assert s[1..] == ['\\', '\'', '\''] && s[1..][1..] == ['\'', '\''] && s[1..][1..][1..] == ['\''];
    var t1 := t.(mode := Unquoted);
    var t2 := t1.(mode := Escape);
    var t3 := Grow(t1, ['\'']);
    assert ShStep(t, '\'') == t1 && ShStep(t1, '\\') == t2 && ShStep(t2, '\'') == t3;
    assert Pending(t3).text + "" == Pending(t3).text;
    assert ShStep(t3, '\'') == Grow(t, "'");
  }

  lemma {:induction false} SplicedReadsBack(t: Shell, s: string)
    requires t.Shell? && t.mode == Single && t.word.Some?
    ensures ShRun(t, Spliced(s)) == Grow(t, s)
    decreases |s|
  {
    if s == "" {
      assert Pending(t).text + s == Pending(t).text;
    } else {
      var c, rest := s[0], s[1..];
      var t' := Grow(t, [c]);
      if c == '\'' {
        SpliceReadsBack(t);
        assert "'" == [c];
        ShRunAppend(t, ['\'', '\\', '\'', '\''], Spliced(rest));
      } else {
        ShRunAppend(t, [c], Spliced(rest));
        ShRunOne(t, c);
      }
      SplicedReadsBack(t', rest);
      GrowTwice(t, [c], rest);
      assert [c] + rest == s;
    }
  }

  /** For every value: reading the quoted value adds exactly the value to the word being
      read, and leaves the quotes closed. */
  lemma ShQuoteReadsBack(t: Shell, s: string)
    requires t.Shell? && t.mode == Unquoted
    ensures ShRun(t, ShQuote(s)) == Grow(t, s)
  {
    var open := Grow(t.(mode := Single), "");
    ShRunOne(t, '\'');
    assert ShRun(t, "'") == open;
    SplicedReadsBack(open, s);
    ShRunAppend(t, "'", Spliced(s));
    ShRunAppend(t, "'" + Spliced(s), "'");
    ShRunOne(Grow(open, s), '\'');
    GrowTwice(t.(mode := Single), "", s);
    assert "" + s == s;
    assert ShRun(Grow(open, s), "'") == Grow(open, s).(mode := Unquoted);
  }

  /** A delimiter finds the same state whether the word before it was closed or not. */
  lemma DelimiterEndsWord(t: Shell, c: char)
    requires t.Shell? && t.mode == Unquoted && Delimits(c)
    ensures ShStep(t, c) == ShStep(Delimit(t), c)
  {
    assert Delimit(Delimit(t)) == Delimit(t);
    assert ShStep(t, c) == Delimited(t, c);
  }

  /** In any text whose unquoted context ends at a word boundary before the value, inside a
      command substitution or not, and which is followed by a delimiter or nothing: the value
      is exactly one word with nothing left to expand. The tokens in front stay, and the rest
      is read from there. */
  lemma ShQuoteIsOneWord(before: string, s: string, after: string)
    requires var t := ShRun(SH_START, before); t.Shell? && t.mode == Unquoted && t.word == None
    requires after == "" || Delimits(after[0])
    ensures var t := ShRun(SH_START, before);
            && ShRun(SH_START, before + ShQuote(s) + after) ==
               (if after == "" then t.(word := Some(ShWord(s, false, [])))
                else ShRun(t.(tokens := t.tokens + [Exactly(s)]), after))
            && (t.outer == [] ==> Tokens(before + ShQuote(s)) == Some(t.tokens + [Exactly(s)]))
  {
    var t := ShRun(SH_START, before);
    var text := before + ShQuote(s);
    ShRunAppend(SH_START, before, ShQuote(s));
    ShQuoteReadsBack(t, s);
    assert "" + s == s;
    ShRunAppend(SH_START, text, after);
    var got := t.(word := Some(ShWord(s, false, [])));
    assert ShRun(SH_START, text) == got;
    if after != "" {
      DelimiterEndsWord(got, after[0]);
    }
  }
}
