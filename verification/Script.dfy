/** Command files for lftp, written line by line from arguments (internal/nas/lftp.go), and
    read back. */
module Script {
  import opened Common
  import opened Quoting

  // ------------------------------------------------------------ lines of arguments

  /** An argument of a command: unquoted text, or a value in quotes glued to unquoted text. */
  datatype Arg = Bare(text: string) | Value(prefix: string, value: string)

  predicate Writable(a: Arg) {
    match a
    case Bare(text) => text != "" && AllPlain(text)
    case Value(prefix, _) => AllPlain(prefix)
  }

  function Written(a: Arg): string {
    match a
    case Bare(text) => text
    case Value(prefix, value) => prefix + Quoted(value)
  }

  function Meant(a: Arg): string {
    match a
    case Bare(text) => text
    case Value(prefix, value) => prefix + value
  }

  function Line(args: seq<Arg>): string
    requires args != []
  {
    if |args| == 1 then Written(args[0]) + "\n" else Written(args[0]) + " " + Line(args[1..])
  }

  function Words(args: seq<Arg>): seq<string> {
    if args == [] then [] else [Meant(args[0])] + Words(args[1..])
  }

  predicate AllWritable(args: seq<Arg>) { forall i :: 0 <= i < |args| ==> Writable(args[i]) }

  lemma ValueReadsBack(r: Reader, prefix: string, value: string)
    requires r.Reader? && r.mode == Closed && r.word == None && AllPlain(prefix)
    ensures Run(r, prefix + Quoted(value)) == Extend(r, prefix + value)
  {
    if prefix == "" {
      assert prefix + Quoted(value) == Quoted(value) && prefix + value == value;
      QuotedReadsBack(r, value);
    } else {
      PlainReadsBack(r, prefix);
      RunAppend(r, prefix, Quoted(value));
      QuotedReadsBack(Extend(r, prefix), value);
      assert "" + (prefix + value) == "" + prefix + value;
    }
  }

  lemma ArgReadsBack(r: Reader, a: Arg)
    requires r.Reader? && r.mode == Closed && r.word == None && Writable(a)
    ensures Run(r, Written(a)) == Extend(r, Meant(a))
  {
    match a
    case Bare(text) => PlainReadsBack(r, text);
    case Value(prefix, value) => ValueReadsBack(r, prefix, value);
  }

  lemma BlankEndsWord(r: Reader, a: Arg)
    requires r.Reader? && r.mode == Closed && r.word == None && Writable(a)
    ensures Run(r, Written(a) + " ") == r.(words := r.words + [Meant(a)])
  {
    ArgReadsBack(r, a);
    RunAppend(r, Written(a), " ");
    assert "" + Meant(a) == Meant(a) && " "[1..] == "";
  }

  lemma NewlineEndsCommand(r: Reader, a: Arg)
    requires r.Reader? && r.mode == Closed && r.word == None && Writable(a)
    ensures Run(r, Written(a) + "\n") == r.(commands := r.commands + [r.words + [Meant(a)]], words := [])
  {
    ArgReadsBack(r, a);
    RunAppend(r, Written(a), "\n");
    assert "" + Meant(a) == Meant(a) && "\n"[1..] == "";
  }

  /** The words of a line become the words of the current command, and end it. */
  lemma {:induction false} LineReadsBack(r: Reader, args: seq<Arg>)
    requires r.Reader? && r.mode == Closed && r.word == None && args != [] && AllWritable(args)
    ensures Run(r, Line(args)) == r.(commands := r.commands + [r.words + Words(args)], words := [])
    decreases |args|
  {
    var a, rest := args[0], args[1..];
    if |args| == 1 {
      NewlineEndsCommand(r, a);
      assert Words(args) == [Meant(a)];
    } else {
      var next := r.(words := r.words + [Meant(a)]);
      BlankEndsWord(r, a);
      RunAppend(r, Written(a) + " ", Line(rest));
      LineReadsBack(next, rest);
      WordsOneMore(r.words, args);
    }
  }

  lemma WordsOneMore(words: seq<string>, args: seq<Arg>)
    requires args != []
    ensures words + [Meant(args[0])] + Words(args[1..]) == words + Words(args)
  {
  }

  lemma MeaningsOneMore(commands: seq<seq<string>>, lines: seq<seq<Arg>>)
    requires lines != []
    ensures commands + [Words(lines[0])] + Meanings(lines[1..]) == commands + Meanings(lines)
  {
  }

  function Lines(lines: seq<seq<Arg>>): string
    requires forall i :: 0 <= i < |lines| ==> lines[i] != []
  {
    if lines == [] then "" else Line(lines[0]) + Lines(lines[1..])
  }

  function Meanings(lines: seq<seq<Arg>>): seq<seq<string>> {
    if lines == [] then [] else [Words(lines[0])] + Meanings(lines[1..])
  }

  predicate AllLinesWritable(lines: seq<seq<Arg>>) {
    forall i :: 0 <= i < |lines| ==> lines[i] != [] && AllWritable(lines[i])
  }

  lemma {:induction false} LinesReadBack(r: Reader, lines: seq<seq<Arg>>)
    requires r.Reader? && r.mode == Closed && r.word == None && r.words == [] && AllLinesWritable(lines)
    ensures Run(r, Lines(lines)) == r.(commands := r.commands + Meanings(lines))
    decreases |lines|
  {
    if lines == [] {
      assert r.commands + [] == r.commands;
    } else {
      var next := r.(commands := r.commands + [Words(lines[0])]);
      assert [] + Words(lines[0]) == Words(lines[0]);
      LineReadsBack(r, lines[0]);
      RunAppend(r, Line(lines[0]), Lines(lines[1..]));
      LinesReadBack(next, lines[1..]);
      MeaningsOneMore(r.commands, lines);
    }
  }

  /** Lines written from arguments read back as those arguments, whatever the values. */
  lemma LinesAreCommands(lines: seq<seq<Arg>>)
    requires AllLinesWritable(lines)
    ensures Commands(Lines(lines)) == Some(Meanings(lines))
  {
    LinesReadBack(START, lines);
    assert [] + Meanings(lines) == Meanings(lines);
  }
}
