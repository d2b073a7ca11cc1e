/** Shell commands as they are put together from fixed words and quoted values, and read
    back. */
module ShellText {
  import opened Common
  import opened ShellReader

  /** Part of a word: fixed text without quotes, a value in single quotes, or fixed text in
      double quotes. */
  datatype Piece = Bare(text: string) | Value(value: string) | Doubled(text: string)

  datatype Elem = Text(pieces: seq<Piece>) | Blank | Op(symbol: char)

  function PieceText(p: Piece): string {
    match p
    case Bare(text) => text
    case Value(value) => ShQuote(value)
    case Doubled(text) => "\"" + text + "\""
  }

  function PiecesText(pieces: seq<Piece>): string {
    if pieces == [] then "" else PieceText(pieces[0]) + PiecesText(pieces[1..])
  }

  function ElemText(e: Elem): string {
    match e
    case Text(pieces) => PiecesText(pieces)
    case Blank => " "
    case Op(symbol) => [symbol]
  }

  /** The text of a line, without its newline. */
  function LineText(line: seq<Elem>): string {
    if line == [] then "" else ElemText(line[0]) + LineText(line[1..])
  }

  function LinesText(lines: seq<seq<Elem>>): string {
    if lines == [] then "" else LineText(lines[0]) + "\n" + LinesText(lines[1..])
  }

  // ------------------------------------------------------------ what they are meant to be

  /** This character asks for an expansion where it stands. */
  predicate Asks(c: char, doubled: bool) { c == '$' || (!doubled && Globs(c)) }

  predicate Live(text: string, doubled: bool) {
    text != "" && (Asks(text[0], doubled) || Live(text[1..], doubled))
  }

  function Added(w: ShWord, p: Piece): ShWord {
    match p
    case Bare(text) => ShWord(w.text + text, w.live || Live(text, false), w.inside)
    case Value(value) => ShWord(w.text + value, w.live, w.inside)
    case Doubled(text) => ShWord(w.text + text, w.live || Live(text, true), w.inside)
  }

  function AllAdded(w: ShWord, pieces: seq<Piece>): ShWord
    decreases |pieces|
  {
    if pieces == [] then w else AllAdded(Added(w, pieces[0]), pieces[1..])
  }

  function Means(e: Elem): seq<Token> {
    match e
    case Text(pieces) => [Word(AllAdded(NOTHING, pieces))]
    case Blank => []
    case Op(symbol) => [Operator(symbol)]
  }

  function LineMeans(line: seq<Elem>): seq<Token> {
    if line == [] then [] else Means(line[0]) + LineMeans(line[1..])
  }

  function LinesMean(lines: seq<seq<Elem>>): seq<Token> {
    if lines == [] then [] else LineMeans(lines[0]) + [Operator('\n')] + LinesMean(lines[1..])
  }

  // ------------------------------------------------------------ what can be written

  /** The character at i stands for itself or starts the expansion of a plain parameter. */
  predicate TameAt(text: string, i: nat, doubled: bool)
    requires i < |text|
  {
    && text[i] != '"' && text[i] != '\\' && text[i] != '`'
    && (doubled || (!Delimits(text[i]) && text[i] != '\''))
    && (text[i] == '$' ==> i + 1 < |text| && text[i + 1] != '$' && text[i + 1] != '(' && text[i + 1] != '{')
  }

  predicate Tame(text: string, doubled: bool) { forall i :: 0 <= i < |text| ==> TameAt(text, i, doubled) }

  predicate Fit(p: Piece) {
    match p
    case Bare(text) => text != "" && text[0] != '#' && Tame(text, false)
    case Value(_) => true
    case Doubled(text) => Tame(text, true)
  }

  predicate FitElem(e: Elem) {
    match e
    case Text(pieces) => pieces != [] && forall i :: 0 <= i < |pieces| ==> Fit(pieces[i])
    case Blank => true
    case Op(symbol) => Operates(symbol) && symbol != '<' && symbol != '\n'
  }

  /** No two words meet, and inside a command substitution there are no parentheses. */
  predicate Neat(line: seq<Elem>, nested: bool) {
    && (forall i :: 0 <= i < |line| ==> FitElem(line[i]))
    && (forall i :: 0 <= i < |line| - 1 ==> !(line[i].Text? && line[i + 1].Text?))
    && (nested ==> forall i :: 0 <= i < |line| ==> line[i] != Op('(') && line[i] != Op(')'))
  }

  // ------------------------------------------------------------ reading them back

  predicate AfterDollar(t: Shell, doubled: bool)
    requires t.Shell?
  {
    t.mode == if doubled then DoubleDollar else Dollar
  }

  function Home(doubled: bool): ShMode { if doubled then Double else Unquoted }

  /** The state after some tame text. */
  function Told(t: Shell, text: string, doubled: bool): (r: Shell)
    requires t.Shell? && t.word.Some?
    ensures r.Shell? && r.word.Some?
  {
    var w := t.word.value;
    t.(word := Some(ShWord(w.text + text, w.live || Live(text, doubled), w.inside)), mode := Home(doubled))
  }

  lemma TameStep(t: Shell, text: string, doubled: bool)
    requires t.Shell? && t.word.Some? && text != "" && TameAt(text, 0, doubled)
    requires t.mode == Home(doubled) || AfterDollar(t, doubled)
    requires AfterDollar(t, doubled) ==> text[0] != '$' && text[0] != '(' && text[0] != '{'
    ensures var next := Told(t, [text[0]], doubled);
            ShStep(t, text[0]) ==
            if text[0] != '$' then next else if doubled then next.(mode := DoubleDollar) else next.(mode := Dollar)
  {
    assert [text[0]][1..] == "";
    assert Live([text[0]], doubled) == Asks(text[0], doubled);
  }

  lemma ToldTwice(t: Shell, text: string, doubled: bool, mode: ShMode)
    requires t.Shell? && t.word.Some? && text != ""
    ensures var next := Told(t, [text[0]], doubled);
            Told(next.(mode := mode), text[1..], doubled) == Told(t, text, doubled)
  {
    var w := t.word.value;
    assert [text[0]][1..] == "" && Live([text[0]], doubled) == Asks(text[0], doubled);
    assert w.text + [text[0]] + text[1..] == w.text + text;
  }

  lemma {:induction false} TameReads(t: Shell, text: string, doubled: bool)
    requires t.Shell? && t.word.Some? && Tame(text, doubled)
    requires t.mode == Home(doubled) || AfterDollar(t, doubled)
    requires AfterDollar(t, doubled) ==> text != "" && text[0] != '$' && text[0] != '(' && text[0] != '{'
    ensures ShRun(t, text) == Told(t, text, doubled)
    decreases |text|
  {
    if text == "" {
      assert t.word.value.text + text == t.word.value.text;
    } else {
      var next := ShStep(t, text[0]);
      assert TameAt(text, 0, doubled);
      TameStep(t, text, doubled);
      var rest := text[1..];
      assert Tame(rest, doubled) by {
        forall i | 0 <= i < |rest| ensures TameAt(rest, i, doubled) { assert TameAt(text, i + 1, doubled); }
      }
      TameReads(next, rest, doubled);
      ToldTwice(t, text, doubled, next.mode);
    }
  }

  lemma PieceReads(t: Shell, p: Piece)
    requires t.Shell? && t.mode == Unquoted && Fit(p)
    ensures ShRun(t, PieceText(p)) == t.(word := Some(Added(Pending(t), p)))
  {
    match p
    case Bare(text) => BareReads(t, text);
    case Value(value) => ShQuoteReadsBack(t, value);
    case Doubled(text) => DoubledReads(t, text);
  }

  /** The first character of a word finds no word yet. */
  lemma BareReads(t: Shell, text: string)
    requires t.Shell? && t.mode == Unquoted && Fit(Bare(text))
    ensures ShRun(t, text) == t.(word := Some(Added(Pending(t), Bare(text))))
  {
    var u := t.(word := Some(Pending(t)));
    assert TameAt(text, 0, false);
    assert ShStep(t, text[0]) == ShStep(u, text[0]);
    TameReads(u, text, false);
  }

  lemma DoubledReads(t: Shell, text: string)
    requires t.Shell? && t.mode == Unquoted && Tame(text, true)
    ensures ShRun(t, "\"" + text + "\"") == t.(word := Some(Added(Pending(t), Doubled(text))))
  {
    var open := Grow(t.(mode := Double), "");
    assert Pending(t).text + "" == Pending(t).text;
    assert "\"" == ['"'];
    ShRunOne(t, '"');
    ShRunAppend(t, "\"", text);
    TameReads(open, text, true);
    ShRunAppend(t, "\"" + text, "\"");
    ShRunOne(Told(open, text, true), '"');
  }

  lemma {:induction false} PiecesRead(t: Shell, pieces: seq<Piece>)
    requires t.Shell? && t.mode == Unquoted && pieces != []
    requires forall i :: 0 <= i < |pieces| ==> Fit(pieces[i])
    ensures ShRun(t, PiecesText(pieces)) == t.(word := Some(AllAdded(Pending(t), pieces)))
    decreases |pieces|
  {
    var p, rest := pieces[0], pieces[1..];
    var next := t.(word := Some(Added(Pending(t), p)));
    PieceReads(t, p);
    ShRunAppend(t, PieceText(p), PiecesText(rest));
    if rest == [] {
      assert PiecesText(rest) == "" && AllAdded(Added(Pending(t), p), rest) == Added(Pending(t), p);
    } else {
      PiecesRead(next, rest);
    }
  }

  /** A state in which the last word may still be open, given what it is when closed. */
  predicate Reads(r: Shell, closed: Shell)
    requires closed.Shell?
  {
    r.Shell? && r.mode == Unquoted && Delimit(r) == closed
  }

  lemma ElemReads(t: Shell, e: Elem)
    requires t.Shell? && t.mode == Unquoted && FitElem(e)
    requires t.outer != [] ==> e != Op('(') && e != Op(')')
    requires e.Text? ==> t.word == None
    ensures var d := Delimit(t); Reads(ShRun(t, ElemText(e)), d.(tokens := d.tokens + Means(e)))
  {
    match e
    case Text(pieces) => PiecesRead(t, pieces);
    case Blank =>
      assert " " == [' '];
      ShRunOne(t, ' ');
    case Op(symbol) => ShRunOne(t, symbol);
  }

  lemma StartsWithDelimiter(line: seq<Elem>)
    requires line != [] && !line[0].Text? && FitElem(line[0])
    ensures LineText(line) != "" && Delimits(LineText(line)[0])
  {
  }

  lemma TailIsNeat(line: seq<Elem>, nested: bool)
    requires line != [] && Neat(line, nested)
    ensures Neat(line[1..], nested)
  {
    var rest := line[1..];
    forall i | 0 <= i < |rest| ensures FitElem(rest[i]) && rest[i] == line[i + 1] {
    }
    forall i | 0 <= i < |rest| - 1 ensures !(rest[i].Text? && rest[i + 1].Text?) {
      assert !(line[i + 1].Text? && line[i + 1 + 1].Text?);
    }
  }

  /** An open word makes no difference to what a delimiter finds. */
  lemma OpenOrClosed(t: Shell, text: string)
    requires t.Shell? && t.mode == Unquoted && text != "" && Delimits(text[0])
    ensures ShRun(t, text) == ShRun(Delimit(t), text)
  {
    DelimiterEndsWord(t, text[0]);
  }

  /** After a delimiter no word is open. */
  lemma NotOpen(t: Shell, e: Elem)
    requires t.Shell? && t.mode == Unquoted && FitElem(e) && !e.Text?
    requires t.outer != [] ==> e != Op('(') && e != Op(')')
    ensures var r := ShRun(t, ElemText(e)); r.Shell? && r.word == None
  {
    if e.Blank? {
      assert " " == [' '];
      ShRunOne(t, ' ');
    } else {
      ShRunOne(t, e.symbol);
    }
  }

  /** After an element the rest of the line finds no open word, or starts with a delimiter
      that closes it. */
  lemma RestOfLine(t: Shell, line: seq<Elem>)
    requires t.Shell? && t.mode == Unquoted && t.word == None && line != [] && Neat(line, t.outer != [])
    ensures var closed := t.(tokens := t.tokens + Means(line[0]));
            && Reads(ShRun(t, ElemText(line[0])), closed)
            && (|line| > 1 ==> ShRun(t, LineText(line)) == ShRun(closed, LineText(line[1..])))
  {
    var e, rest := line[0], line[1..];
    ElemReads(t, e);
    ShRunAppend(t, ElemText(e), LineText(rest));
    if |line| > 1 {
      if e.Text? {
        assert !(line[0].Text? && line[0 + 1].Text?);
        StartsWithDelimiter(rest);
        OpenOrClosed(ShRun(t, ElemText(e)), LineText(rest));
      } else {
        NotOpen(t, e);
      }
    }
  }

  /** A line is read as the tokens it is meant to be, whatever the values in it. */
  lemma {:induction false} LineReads(t: Shell, line: seq<Elem>)
    requires t.Shell? && t.mode == Unquoted && t.word == None && Neat(line, t.outer != [])
    ensures Reads(ShRun(t, LineText(line)), t.(tokens := t.tokens + LineMeans(line)))
    decreases |line|
  {
    if line == [] {
      assert t.tokens + [] == t.tokens;
    } else {
      RestOfLine(t, line);
      MeansOneMore(t.tokens, line);
      if |line| > 1 {
        TailIsNeat(line, t.outer != []);
        LineReads(t.(tokens := t.tokens + Means(line[0])), line[1..]);
      } else {
        OneElem(line);
      }
    }
  }

  lemma MeansOneMore(tokens: seq<Token>, line: seq<Elem>)
    requires line != []
    ensures tokens + Means(line[0]) + LineMeans(line[1..]) == tokens + LineMeans(line)
  {
  }

  lemma OneElem(line: seq<Elem>)
    requires |line| == 1
    ensures LineText(line) == ElemText(line[0]) && LineMeans(line) == Means(line[0])
  {
    assert line[1..] == [];
    assert ElemText(line[0]) + "" == ElemText(line[0]);
  }

  /** A whole command of one line. */
  lemma LineIsTokens(line: seq<Elem>)
    requires Neat(line, false)
    ensures Tokens(LineText(line)) == Some(LineMeans(line))
  {
    LineReads(SH_START, line);
    assert [] + LineMeans(line) == LineMeans(line);
  }

  predicate AllNeat(lines: seq<seq<Elem>>) { forall i :: 0 <= i < |lines| ==> Neat(lines[i], false) }

  lemma {:induction false} LinesRead(t: Shell, lines: seq<seq<Elem>>)
    requires t.Shell? && t.mode == Unquoted && t.word == None && t.outer == [] && AllNeat(lines)
    ensures ShRun(t, LinesText(lines)) == t.(tokens := t.tokens + LinesMean(lines))
    decreases |lines|
  {
    if lines == [] {
      assert t.tokens + [] == t.tokens;
    } else {
      var line, rest := lines[0], lines[1..];
      LineReads(t, line);
      NewlineReads(t, line);
      var next := t.(tokens := t.tokens + LineMeans(line) + [Operator('\n')]);
      ShRunAppend(t, LineText(line) + "\n", LinesText(rest));
      LinesRead(next, rest);
      LinesOneMore(t.tokens, lines);
    }
  }

  lemma LinesOneMore(tokens: seq<Token>, lines: seq<seq<Elem>>)
    requires lines != []
    ensures tokens + LineMeans(lines[0]) + [Operator('\n')] + LinesMean(lines[1..]) == tokens + LinesMean(lines)
  {
  }

  lemma NewlineReads(t: Shell, line: seq<Elem>)
    requires t.Shell? && t.mode == Unquoted && t.word == None && t.outer == [] && Neat(line, false)
    ensures ShRun(t, LineText(line) + "\n") == t.(tokens := t.tokens + LineMeans(line) + [Operator('\n')])
  {
    LineReads(t, line);
    var open := ShRun(t, LineText(line));
    assert "\n" == ['\n'];
    ShRunAppend(t, LineText(line), "\n");
    ShRunOne(open, '\n');
    DelimiterEndsWord(open, '\n');
  }

  lemma {:induction false} LinesMeanAppend(a: seq<seq<Elem>>, b: seq<seq<Elem>>)
    ensures LinesMean(a + b) == LinesMean(a) + LinesMean(b)
    decreases |a|
  {
    if a == [] {
      assert a + b == b;
    } else {
      assert (a + b)[1..] == a[1..] + b;
      LinesMeanAppend(a[1..], b);
    }
  }

  // ------------------------------------------------------------ lines made of phrases

  /** Words with blanks between. */
  function Phrase(words: seq<Elem>): seq<Elem> {
    if |words| <= 1 then words else [words[0], Blank] + Phrase(words[1..])
  }

  /** A phrase, what joins it to the rest of the line, and the rest. */
  function Then(words: seq<Elem>, joint: seq<Elem>, rest: seq<Elem>): seq<Elem> { Phrase(words) + joint + rest }

  predicate FitWords(words: seq<Elem>) { forall i :: 0 <= i < |words| ==> words[i].Text? && FitElem(words[i]) }

  predicate Joint(joint: seq<Elem>, nested: bool) {
    joint != [] && Neat(joint, nested) && !joint[0].Text? && !joint[|joint| - 1].Text?
  }

  lemma NeatAppend(a: seq<Elem>, b: seq<Elem>, nested: bool)
    requires Neat(a, nested) && Neat(b, nested)
    requires a == [] || b == [] || !a[|a| - 1].Text? || !b[0].Text?
    ensures Neat(a + b, nested)
  {
    var c := a + b;
    forall i | 0 <= i < |c| - 1 ensures !(c[i].Text? && c[i + 1].Text?) {
      if i < |a| - 1 {
        assert !(a[i].Text? && a[i + 1].Text?);
      } else if i >= |a| {
        assert !(b[i - |a|].Text? && b[i - |a| + 1].Text?);
      }
    }
  }

  lemma {:induction false} PhraseIsNeat(words: seq<Elem>, nested: bool)
    requires FitWords(words)
    ensures Neat(Phrase(words), nested)
    decreases |words|
  {
    if |words| > 1 {
      PhraseIsNeat(words[1..], nested);
      NeatAppend([words[0], Blank], Phrase(words[1..]), nested);
    }
  }

  lemma {:induction false} LineMeansAppend(a: seq<Elem>, b: seq<Elem>)
    ensures LineMeans(a + b) == LineMeans(a) + LineMeans(b)
    decreases |a|
  {
    if a == [] {
      assert a + b == b;
    } else {
      assert (a + b)[1..] == a[1..] + b;
      LineMeansAppend(a[1..], b);
    }
  }

  lemma PhraseOneMore(words: seq<Elem>)
    requires |words| > 1
    ensures LineMeans(Phrase(words)) == Means(words[0]) + LineMeans(Phrase(words[1..]))
  {
    LineMeansAppend([words[0], Blank], Phrase(words[1..]));
    WordAndBlank(words[0]);
  }

  /** The tokens of a phrase are those of its words, one each. */
  lemma {:induction false} PhraseMeans(words: seq<Elem>, tokens: seq<Token>)
    requires |tokens| == |words| && forall i :: 0 <= i < |words| ==> Means(words[i]) == [tokens[i]]
    ensures LineMeans(Phrase(words)) == tokens
    decreases |words|
  {
    if |words| == 1 {
      OneElem(words);
    } else if |words| > 1 {
      PhraseOneMore(words);
      PhraseMeans(words[1..], tokens[1..]);
      assert tokens == [tokens[0]] + tokens[1..];
    }
  }

  lemma WordAndBlank(e: Elem)
    ensures LineMeans([e, Blank]) == Means(e)
  {
    OneElem([Blank]);
    assert [e, Blank][1..] == [Blank];
  }

  lemma ThenReads(words: seq<Elem>, joint: seq<Elem>, rest: seq<Elem>, nested: bool)
    requires FitWords(words) && Joint(joint, nested) && Neat(rest, nested)
    ensures Neat(Then(words, joint, rest), nested)
    ensures LineMeans(Then(words, joint, rest)) == LineMeans(Phrase(words)) + LineMeans(joint) + LineMeans(rest)
  {
    PhraseIsNeat(words, nested);
    NeatAppend(Phrase(words), joint, nested);
    NeatAppend(Phrase(words) + joint, rest, nested);
    LineMeansAppend(Phrase(words), joint);
    LineMeansAppend(Phrase(words) + joint, rest);
  }
}
