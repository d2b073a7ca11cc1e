/** Every command that internal/nas prints around quoted values, with the tokens a shell
    makes of it: the runner and its launch, cancel, sweep, and the probe for share prefixes. */
module ShellCommands {
  import opened Common
  import opened Paths
  import opened ShellReader
  import opened ShellText

  const NEWLINE := Operator('\n')

  /** A word with something left to expand. */
  function Expanding(text: string): Token { Word(ShWord(text, true, [])) }

  // ------------------------------------------------------------ words and joints

  function Lit(text: string): Elem { Text([Bare(text)]) }

  function Given(value: string): Elem { Text([Value(value)]) }

  function InQuotes(text: string): Elem { Text([Doubled(text)]) }

  lemma OnePiece(p: Piece)
    ensures Means(Text([p])) == [Word(Added(NOTHING, p))]
  {
    assert [p][1..] == [];
    assert AllAdded(NOTHING, [p]) == Added(NOTHING, p);
  }

  lemma TwoPieces(p: Piece, q: Piece)
    ensures Means(Text([p, q])) == [Word(Added(Added(NOTHING, p), q))]
  {
    assert [p, q][1..] == [q] && [q][1..] == [];
    assert AllAdded(NOTHING, [p, q]) == AllAdded(Added(NOTHING, p), [q]) == Added(Added(NOTHING, p), q);
  }

  /** Words that can be written, and their tokens. */
  predicate Spelled(words: seq<Elem>, tokens: seq<Token>) {
    FitWords(words) && |tokens| == |words| && forall i :: 0 <= i < |words| ==> Means(words[i]) == [tokens[i]]
  }

  /** Nothing to the shell, wherever it stands. */
  predicate Dull(c: char) {
    !Delimits(c) && !Globs(c) && c != '\'' && c != '"' && c != '\\' && c != '`' && c != '$' && c != '#'
  }

  predicate DullWord(text: string) { text != "" && forall i :: 0 <= i < |text| ==> Dull(text[i]) }

  lemma {:induction false} NothingAsks(text: string)
    requires forall i :: 0 <= i < |text| ==> Dull(text[i])
    ensures !Live(text, false)
  {
    if text != "" { NothingAsks(text[1..]); }
  }

  lemma {:induction false} SomethingAsks(text: string, i: nat, doubled: bool)
    requires i < |text| && Asks(text[i], doubled)
    ensures Live(text, doubled)
  {
    if i > 0 { SomethingAsks(text[1..], i - 1, doubled); }
  }

  /** A dull word stands for itself. */
  lemma DullIs(text: string)
    requires DullWord(text)
    ensures Fit(Bare(text)) && Means(Lit(text)) == [Exactly(text)]
  {
    forall i | 0 <= i < |text| ensures TameAt(text, i, false) {
      assert Dull(text[i]);
    }
    assert Dull(text[0]);
    NothingAsks(text);
    OnePiece(Bare(text));
    assert "" + text == text;
  }

  lemma GivenIs(value: string)
    ensures Means(Given(value)) == [Exactly(value)]
  {
    OnePiece(Value(value));
    assert "" + value == value;
  }

  /** A name, then a value. */
  lemma NamedIs(name: string, value: string)
    requires DullWord(name)
    ensures Neat(Assignment(name, value), false)
    ensures LineMeans(Assignment(name, value)) == [Exactly(name + value)]
  {
    DullIs(name);
    NothingAsks(name);
    TwoPieces(Bare(name), Value(value));
    assert "" + name + value == name + value;
    OneElem(Assignment(name, value));
  }

  /** What ends a command, and a doubled operator between two commands. */
  function Closing(c: char): seq<Elem> { [Op(c), Blank] }

  function Between(c: char): seq<Elem> { [Blank, Op(c), Op(c), Blank] }

  lemma Joints()
    ensures Joint(Closing(';'), false) && Joint(Between('&'), false) && Joint(Between('|'), false)
  {
  }

  // ------------------------------------------------------------ the runner

  // Below, s, d and p are what the runner calls "$s", "$d" and "$p".

  function Exit(code: string): seq<Elem> { Phrase([Lit("exit"), Lit(code)]) }

  function Cleanup(s: string, d: string): seq<Elem> {
    Then([Lit("cleanup")], [Op('('), Op(')'), Blank],
         Then([Lit("{"), Lit("rm"), Lit("-rf"), InQuotes(d), InQuotes(s)], Closing(';'), Phrase([Lit("}")])))
  }

  function Trap(handler: string): seq<Elem> {
    Phrase([Lit("trap"), Lit(handler), Lit("EXIT"), Lit("INT"), Lit("TERM"), Lit("HUP")])
  }

  function Redirect(from: string, to: string): seq<Elem> {
    Then([Lit("exec"), Lit(from)], [Op('>'), Op('&')], Phrase([Lit(to)]))
  }

  function Restrict(mode: string, what: Elem): seq<Elem> { Then([Lit("chmod"), Lit(mode), what], Between('|'), Exit("1")) }

  function MakeDirectory(d: string): seq<Elem> {
    Then([Lit("rm"), Lit("-rf"), InQuotes(d)], Between('&'),
         Then([Lit("mkdir"), Lit("-p"), InQuotes(d)], Between('&'), Restrict("700", InQuotes(d))))
  }

  function Copy(s: string, d: string): seq<Elem> {
    Then([Lit("cp"), Text([Doubled(s), Bare("/cmds")]), Text([Doubled(s), Bare("/known_hosts")]),
          Text([Doubled(d), Bare("/")])],
         Between('|'), Exit("1"))
  }

  /** The credentials that are there, with sf and df the file in either directory. */
  function CopyCredentials(sf: string, df: string): seq<Elem> {
    Then([Lit("for"), Lit("f"), Lit("in"), Lit("key"), Lit("pass")], Closing(';'),
         Then([Lit("do"), Lit("["), Lit("-f"), InQuotes(sf), Lit("]")], Between('&'),
              Then([Lit("cp"), InQuotes(sf), InQuotes(df)], Closing(';'), Phrase([Lit("done")]))))
  }

  /** What the runner does before it starts lftp. */
  function SetUp(s: string, d: string): seq<seq<Elem>> {
    [Cleanup(s, d), Trap("cleanup"), Redirect("2", "1"), MakeDirectory(d), Copy(s, d),
     CopyCredentials(s + "/$f", d + "/$f"), Restrict("600", Text([Doubled(d), Bare("/*")]))]
  }

  function Start(lftp: string, d: string): seq<Elem> {
    Then([Given(lftp), Lit("-f"), InQuotes(d + "/cmds")], [Blank, Op('&')], [])
  }

  /** What it does while lftp runs, and after. */
  function Await(p: string, d: string): seq<seq<Elem>> {
    [Phrase([Lit("p=$!")]),
     Then([Lit("echo"), InQuotes(p)], [Blank, Op('>'), Blank], Phrase([InQuotes(d + "/pid")])),
     Phrase([Lit("wait"), InQuotes(p)]),
     Exit("$?")]
  }

  function Assignment(name: string, value: string): seq<Elem> { [Text([Bare(name), Value(value)])] }

  function RunnerLines(stage: string, dir: string, lftp: string): seq<seq<Elem>> {
    [Assignment("s=", stage), Assignment("d=", dir)] + SetUp("$s", "$d") + [Start(lftp, "$d")] + Await("$p", "$d")
  }

  function Scripted(lines: seq<seq<Elem>>): string { "#!/bin/sh\n" + LinesText(lines) }

  function Runner(stage: string, dir: string, lftp: string): string {
    Scripted(RunnerLines(stage, dir, lftp))
  }

  /** The runner's tokens. Three words depend on the values. */
  function RunnerTokens(stage: string, dir: string, lftp: string): seq<Token> {
    [NEWLINE, Exactly("s=" + stage), NEWLINE, Exactly("d=" + dir), NEWLINE]
    + LinesMean(SetUp("$s", "$d"))
    + [Exactly(lftp), Exactly("-f"), Expanding("$d/cmds"), Operator('&'), NEWLINE]
    + LinesMean(Await("$p", "$d"))
  }

  lemma Marks()
    ensures Fit(Bare("{")) && Fit(Bare("}")) && Fit(Bare("[")) && Fit(Bare("]")) && Fit(Bare("/")) && Fit(Bare("/*"))
    ensures Fit(Bare("1")) && Fit(Bare("2"))
  {
  }

  lemma Flags()
    ensures Fit(Bare("-rf")) && Fit(Bare("-p")) && Fit(Bare("-f")) && Fit(Bare("rm")) && Fit(Bare("cp"))
  {
  }

  lemma Modes()
    ensures Fit(Bare("700")) && Fit(Bare("600"))
  {
  }

  lemma Reserved()
    ensures Fit(Bare("for")) && Fit(Bare("in")) && Fit(Bare("do")) && Fit(Bare("done"))
  {
  }

  lemma Credentials()
    ensures Fit(Bare("f")) && Fit(Bare("key")) && Fit(Bare("pass"))
  {
  }

  lemma Signals()
    ensures Fit(Bare("EXIT")) && Fit(Bare("INT")) && Fit(Bare("TERM")) && Fit(Bare("HUP"))
  {
  }

  lemma Builtins()
    ensures Fit(Bare("trap")) && Fit(Bare("exec")) && Fit(Bare("exit"))
  {
  }

  lemma CleanupFits()
    ensures Fit(Bare("cleanup"))
  {
  }

  lemma Utilities()
    ensures Fit(Bare("mkdir")) && Fit(Bare("chmod"))
  {
  }

  lemma Afterwards()
    ensures Fit(Bare("echo")) && Fit(Bare("wait"))
  {
  }

  lemma FileNames()
    ensures Fit(Bare("/cmds")) && Fit(Bare("/known_hosts"))
  {
    KnownHostsFits();
  }

  lemma KnownHostsFits()
    ensures Fit(Bare("/known_hosts"))
  {
  }

  lemma Parameters()
    ensures Tame("$d", true) && Tame("$s", true) && Tame("$p", true) && Tame("/$f", true)
    ensures Tame("/cmds", true) && Tame("/pid", true)
  {
  }

  lemma TameAppend(a: string, b: string, doubled: bool)
    requires Tame(a, doubled) && Tame(b, doubled)
    ensures Tame(a + b, doubled)
  {
    forall i | 0 <= i < |a + b| ensures TameAt(a + b, i, doubled) {
      if i < |a| { assert TameAt(a, i, doubled); } else { assert TameAt(b, i - |a|, doubled); }
    }
  }

  lemma ExitIsNeat(code: string)
    requires Fit(Bare(code))
    ensures Neat(Exit(code), false)
  {
    Builtins();
    PhraseIsNeat([Lit("exit"), Lit(code)], false);
  }

  lemma BodyIsNeat(s: string, d: string)
    requires Tame(s, true) && Tame(d, true)
    ensures Neat(Then([Lit("{"), Lit("rm"), Lit("-rf"), InQuotes(d), InQuotes(s)], Closing(';'), Phrase([Lit("}")])), false)
  {
    var body := [Lit("{"), Lit("rm"), Lit("-rf"), InQuotes(d), InQuotes(s)];
    Marks();
    Flags();
    Joints();
    PhraseIsNeat([Lit("}")], false);
    ThenReads(body, Closing(';'), Phrase([Lit("}")]), false);
  }

  lemma CleanupIsNeat(s: string, d: string)
    requires Tame(s, true) && Tame(d, true)
    ensures Neat(Cleanup(s, d), false)
  {
    var body := [Lit("{"), Lit("rm"), Lit("-rf"), InQuotes(d), InQuotes(s)];
    CleanupFits();
    BodyIsNeat(s, d);
    ThenReads([Lit("cleanup")], [Op('('), Op(')'), Blank], Then(body, Closing(';'), Phrase([Lit("}")])), false);
  }

  lemma TrapIsNeat(handler: string)
    requires Fit(Bare(handler))
    ensures Neat(Trap(handler), false)
  {
    Signals();
    Builtins();
    CleanupFits();
    PhraseIsNeat([Lit("trap"), Lit(handler), Lit("EXIT"), Lit("INT"), Lit("TERM"), Lit("HUP")], false);
  }

  lemma RedirectIsNeat(from: string, to: string)
    requires Fit(Bare(from)) && Fit(Bare(to))
    ensures Neat(Redirect(from, to), false)
  {
    Builtins();
    PhraseIsNeat([Lit(to)], false);
    ThenReads([Lit("exec"), Lit(from)], [Op('>'), Op('&')], Phrase([Lit(to)]), false);
  }

  lemma RestrictIsNeat(mode: string, what: Elem)
    requires Fit(Bare(mode)) && what.Text? && FitElem(what)
    ensures Neat(Restrict(mode, what), false)
  {
    Marks();
    Utilities();
    Joints();
    ExitIsNeat("1");
    ThenReads([Lit("chmod"), Lit(mode), what], Between('|'), Exit("1"), false);
  }

  lemma RemoveIsNeat(d: string, rest: seq<Elem>)
    requires Tame(d, true) && Neat(rest, false)
    ensures Neat(Then([Lit("rm"), Lit("-rf"), InQuotes(d)], Between('&'), rest), false)
  {
    Flags();
    Joints();
    ThenReads([Lit("rm"), Lit("-rf"), InQuotes(d)], Between('&'), rest, false);
  }

  lemma CreateIsNeat(d: string, rest: seq<Elem>)
    requires Tame(d, true) && Neat(rest, false)
    ensures Neat(Then([Lit("mkdir"), Lit("-p"), InQuotes(d)], Between('&'), rest), false)
  {
    Flags();
    Utilities();
    Joints();
    ThenReads([Lit("mkdir"), Lit("-p"), InQuotes(d)], Between('&'), rest, false);
  }

  lemma MakeDirectoryIsNeat(d: string)
    requires Tame(d, true)
    ensures Neat(MakeDirectory(d), false)
  {
    Modes();
    RestrictIsNeat("700", InQuotes(d));
    CreateIsNeat(d, Restrict("700", InQuotes(d)));
    RemoveIsNeat(d, Then([Lit("mkdir"), Lit("-p"), InQuotes(d)], Between('&'), Restrict("700", InQuotes(d))));
  }

  lemma CopyIsNeat(s: string, d: string)
    requires Tame(s, true) && Tame(d, true)
    ensures Neat(Copy(s, d), false)
  {
    Flags();
    Marks();
    FileNames();
    Joints();
    ExitIsNeat("1");
    ThenReads([Lit("cp"), Text([Doubled(s), Bare("/cmds")]), Text([Doubled(s), Bare("/known_hosts")]),
               Text([Doubled(d), Bare("/")])],
              Between('|'), Exit("1"), false);
  }

  lemma CopyOneIsNeat(sf: string, df: string)
    requires Tame(sf, true) && Tame(df, true)
    ensures Neat(Then([Lit("cp"), InQuotes(sf), InQuotes(df)], Closing(';'), Phrase([Lit("done")])), false)
  {
    Reserved();
    Flags();
    Joints();
    PhraseIsNeat([Lit("done")], false);
    ThenReads([Lit("cp"), InQuotes(sf), InQuotes(df)], Closing(';'), Phrase([Lit("done")]), false);
  }

  lemma TestIsNeat(sf: string, rest: seq<Elem>)
    requires Tame(sf, true) && Neat(rest, false)
    ensures Neat(Then([Lit("do"), Lit("["), Lit("-f"), InQuotes(sf), Lit("]")], Between('&'), rest), false)
  {
    Reserved();
    Flags();
    Marks();
    Joints();
    ThenReads([Lit("do"), Lit("["), Lit("-f"), InQuotes(sf), Lit("]")], Between('&'), rest, false);
  }

  lemma ForIsNeat(rest: seq<Elem>)
    requires Neat(rest, false)
    ensures Neat(Then([Lit("for"), Lit("f"), Lit("in"), Lit("key"), Lit("pass")], Closing(';'), rest), false)
  {
    Reserved();
    Credentials();
    Joints();
    ThenReads([Lit("for"), Lit("f"), Lit("in"), Lit("key"), Lit("pass")], Closing(';'), rest, false);
  }

  lemma CopyCredentialsIsNeat(sf: string, df: string)
    requires Tame(sf, true) && Tame(df, true)
    ensures Neat(CopyCredentials(sf, df), false)
  {
    var copy := Then([Lit("cp"), InQuotes(sf), InQuotes(df)], Closing(';'), Phrase([Lit("done")]));
    CopyOneIsNeat(sf, df);
    TestIsNeat(sf, copy);
    ForIsNeat(Then([Lit("do"), Lit("["), Lit("-f"), InQuotes(sf), Lit("]")], Between('&'), copy));
  }

  lemma SetUpIsNeat(s: string, d: string)
    requires Tame(s, true) && Tame(d, true)
    ensures AllNeat(SetUp(s, d))
  {
    Marks();
    Modes();
    CleanupFits();
    Parameters();
    TameAppend(s, "/$f", true);
    TameAppend(d, "/$f", true);
    CleanupIsNeat(s, d);
    TrapIsNeat("cleanup");
    RedirectIsNeat("2", "1");
    MakeDirectoryIsNeat(d);
    CopyIsNeat(s, d);
    CopyCredentialsIsNeat(s + "/$f", d + "/$f");
    RestrictIsNeat("600", Text([Doubled(d), Bare("/*")]));
  }

  lemma EchoIsNeat(p: string, file: string)
    requires Tame(p, true) && Tame(file, true)
    ensures Neat(Then([Lit("echo"), InQuotes(p)], [Blank, Op('>'), Blank], Phrase([InQuotes(file)])), false)
  {
    Afterwards();
    PhraseIsNeat([InQuotes(file)], false);
    ThenReads([Lit("echo"), InQuotes(p)], [Blank, Op('>'), Blank], Phrase([InQuotes(file)]), false);
  }

  lemma WaitIsNeat(p: string)
    requires Tame(p, true)
    ensures Neat(Phrase([Lit("wait"), InQuotes(p)]), false)
  {
    Afterwards();
    PhraseIsNeat([Lit("wait"), InQuotes(p)], false);
  }

  lemma LastWords()
    ensures Fit(Bare("p=$!")) && Fit(Bare("$?"))
  {
  }

  lemma AwaitIsNeat(p: string, d: string)
    requires Tame(p, true) && Tame(d, true)
    ensures AllNeat(Await(p, d))
  {
    Parameters();
    LastWords();
    TameAppend(d, "/pid", true);
    ExitIsNeat("$?");
    PhraseIsNeat([Lit("p=$!")], false);
    EchoIsNeat(p, d + "/pid");
    WaitIsNeat(p);
  }

  lemma CommandsFile()
    ensures FitElem(InQuotes("$d/cmds")) && Means(InQuotes("$d/cmds")) == [Expanding("$d/cmds")]
    ensures "$d" + "/cmds" == "$d/cmds"
  {
    Parameters();
    TameAppend("$d", "/cmds", true);
    assert "$d" + "/cmds" == "$d/cmds";
    OnePiece(Doubled("$d/cmds"));
    SomethingAsks("$d/cmds", 0, true);
    assert "" + "$d/cmds" == "$d/cmds";
  }

  lemma StartReads(lftp: string)
    ensures Neat(Start(lftp, "$d"), false)
    ensures LineMeans(Start(lftp, "$d")) == [Exactly(lftp), Exactly("-f"), Expanding("$d/cmds"), Operator('&')]
  {
    CommandsFile();
    DashF();
    GivenIs(lftp);
    ThreeInBackground(Given(lftp), Lit("-f"), InQuotes("$d/cmds"), Exactly(lftp), Exactly("-f"), Expanding("$d/cmds"));
  }

  lemma DashF()
    ensures FitElem(Lit("-f")) && Means(Lit("-f")) == [Exactly("-f")]
  {
    DullIs("-f");
  }

  lemma ThreeInBackground(a: Elem, b: Elem, c: Elem, ta: Token, tb: Token, tc: Token)
    requires a.Text? && b.Text? && c.Text? && FitElem(a) && FitElem(b) && FitElem(c)
    requires Means(a) == [ta] && Means(b) == [tb] && Means(c) == [tc]
    ensures Neat(Then([a, b, c], [Blank, Op('&')], []), false)
    ensures LineMeans(Then([a, b, c], [Blank, Op('&')], [])) == [ta, tb, tc, Operator('&')]
  {
    InBackground([a, b, c], [ta, tb, tc]);
  }

  lemma InBackground(words: seq<Elem>, tokens: seq<Token>)
    requires Spelled(words, tokens)
    ensures Neat(Then(words, [Blank, Op('&')], []), false)
    ensures LineMeans(Then(words, [Blank, Op('&')], [])) == tokens + [Operator('&')]
  {
    ThenReads(words, [Blank, Op('&')], [], false);
    PhraseMeans(words, tokens);
    OneElem([Op('&')]);
    assert [Blank, Op('&')][1..] == [Op('&')];
  }

  /** What holds of any script with these parts. */
  lemma PartsRead(s: seq<Elem>, d: seq<Elem>, setUp: seq<seq<Elem>>, start: seq<Elem>, after: seq<seq<Elem>>)
    requires Neat(s, false) && Neat(d, false) && AllNeat(setUp) && Neat(start, false) && AllNeat(after)
    ensures AllNeat([s, d] + setUp + [start] + after)
    ensures LinesMean([s, d] + setUp + [start] + after) ==
            LineMeans(s) + [NEWLINE] + LineMeans(d) + [NEWLINE] + LinesMean(setUp)
            + LineMeans(start) + [NEWLINE] + LinesMean(after)
  {
    AddLine([], s);
    AddLine([s], d);
    AddLines([s, d], setUp);
    AddLine([s, d] + setUp, start);
    AddLines([s, d] + setUp + [start], after);
    assert [] + [s] == [s] && [s] + [d] == [s, d];
    assert [] + LineMeans(s) == LineMeans(s);
  }

  lemma AddLines(a: seq<seq<Elem>>, b: seq<seq<Elem>>)
    requires AllNeat(a) && AllNeat(b)
    ensures AllNeat(a + b) && LinesMean(a + b) == LinesMean(a) + LinesMean(b)
  {
    LinesMeanAppend(a, b);
  }

  lemma AddLine(a: seq<seq<Elem>>, line: seq<Elem>)
    requires AllNeat(a) && Neat(line, false)
    ensures AllNeat(a + [line]) && LinesMean(a + [line]) == LinesMean(a) + LineMeans(line) + [NEWLINE]
  {
    LinesMeanAppend(a, [line]);
    OneLine(line);
  }

  lemma OneLine(line: seq<Elem>)
    ensures LinesMean([line]) == LineMeans(line) + [NEWLINE]
  {
    assert [line][1..] == [];
  }

  lemma RunnerMeans(stage: string, dir: string, lftp: string)
    ensures AllNeat(RunnerLines(stage, dir, lftp))
    ensures [NEWLINE] + LinesMean(RunnerLines(stage, dir, lftp)) == RunnerTokens(stage, dir, lftp)
  {
    Parameters();
    Names();
    NamedIs("s=", stage);
    NamedIs("d=", dir);
    SetUpIsNeat("$s", "$d");
    StartReads(lftp);
    AwaitIsNeat("$p", "$d");
    PartsRead(Assignment("s=", stage), Assignment("d=", dir), SetUp("$s", "$d"), Start(lftp, "$d"), Await("$p", "$d"));
    FiveParts(Exactly("s=" + stage), Exactly("d=" + dir), LinesMean(SetUp("$s", "$d")),
              Exactly(lftp), Exactly("-f"), Expanding("$d/cmds"), LinesMean(Await("$p", "$d")));
  }

  lemma Names()
    ensures DullWord("s=") && DullWord("d=")
  {
  }

  lemma FiveParts(s: Token, d: Token, setUp: seq<Token>, lftp: Token, flag: Token, file: Token, after: seq<Token>)
    ensures [NEWLINE] + ([s] + [NEWLINE] + [d] + [NEWLINE] + setUp + [lftp, flag, file, Operator('&')] + [NEWLINE] + after)
            == [NEWLINE, s, NEWLINE, d, NEWLINE] + setUp + [lftp, flag, file, Operator('&'), NEWLINE] + after
  {
  }

  lemma {:induction false} CommentReads(t: Shell, s: string)
    requires t.Shell? && t.mode == Comment && forall i :: 0 <= i < |s| ==> s[i] != '\n'
    ensures ShRun(t, s) == t
    decreases |s|
  {
    if s != "" { CommentReads(t, s[1..]); }
  }

  lemma HashReads()
    ensures ShRun(SH_START, "#") == Shell([], None, Comment, [])
    ensures ShRun(Shell([], None, Comment, []), "\n") == Shell([NEWLINE], None, Unquoted, [])
  {
    ShRunOne(SH_START, '#');
    ShRunOne(Shell([], None, Comment, []), '\n');
    assert "#" == ['#'] && "\n" == ['\n'];
    assert [] + [NEWLINE] == [NEWLINE];
  }

  /** A comment line at the start of a text. */
  lemma CommentLine(comment: string)
    requires forall i :: 0 <= i < |comment| ==> comment[i] != '\n'
    ensures ShRun(SH_START, "#" + comment + "\n") == Shell([NEWLINE], None, Unquoted, [])
  {
    var t := Shell([], None, Comment, []);
    HashReads();
    ShRunAppend(SH_START, "#", comment);
    CommentReads(t, comment);
    ShRunAppend(SH_START, "#" + comment, "\n");
  }

  lemma Shebang()
    ensures ShRun(SH_START, "#!/bin/sh\n") == Shell([NEWLINE], None, Unquoted, [])
  {
    assert "#" + "!/bin/sh" + "\n" == "#!/bin/sh\n";
    CommentLine("!/bin/sh");
  }

  lemma ScriptReads(lines: seq<seq<Elem>>)
    requires AllNeat(lines)
    ensures Tokens(Scripted(lines)) == Some([NEWLINE] + LinesMean(lines))
  {
    Shebang();
    ShRunAppend(SH_START, "#!/bin/sh\n", LinesText(lines));
    LinesRead(Shell([NEWLINE], None, Unquoted, []), lines);
  }

  /** For every directory and every path of lftp: the shell reads the runner as the fixed
      commands, with the three values each inside one word where it belongs. In particular
      the word before -f is exactly the path of lftp. */
  lemma RunnerIsIntended(stage: string, dir: string, lftp: string)
    ensures Tokens(Runner(stage, dir, lftp)) == Some(RunnerTokens(stage, dir, lftp))
  {
    RunnerMeans(stage, dir, lftp);
    ScriptReads(RunnerLines(stage, dir, lftp));
  }

  // ------------------------------------------------------------ launch and sweep

  lemma TwoWordsRead(a: Elem, b: Elem, ta: Token, tb: Token)
    requires a.Text? && b.Text? && FitElem(a) && FitElem(b) && Means(a) == [ta] && Means(b) == [tb]
    ensures Tokens(LineText(Phrase([a, b]))) == Some([ta, tb])
  {
    PhraseIsNeat([a, b], false);
    LineIsTokens(Phrase([a, b]));
    PhraseMeans([a, b], [ta, tb]);
  }

  function Launch(stage: string): string { LineText(Phrase([Lit("/bin/sh"), Given(JoinPath(stage, "run.sh"))])) }

  lemma BinSh()
    ensures FitElem(Lit("/bin/sh")) && Means(Lit("/bin/sh")) == [Exactly("/bin/sh")]
  {
    hide DullWord;
    BinShIsDull();
    DullAppend("/bin", "/sh");
    DullIs("/bin/sh");
  }

  lemma BinShIsDull()
    ensures DullWord("/bin") && DullWord("/sh") && "/bin" + "/sh" == "/bin/sh"
  {
  }

  /** The command that starts the job is exactly /bin/sh and the runner's path. */
  lemma LaunchIsTwoWords(stage: string)
    ensures Tokens(Launch(stage)) == Some([Exactly("/bin/sh"), Exactly(JoinPath(stage, "run.sh"))])
  {
    var run := JoinPath(stage, "run.sh");
    BinSh();
    GivenIs(run);
    TwoWordsRead(Lit("/bin/sh"), Given(run), Exactly("/bin/sh"), Exactly(run));
  }

  /** The words, then true. */
  function ThenTrue(words: seq<Elem>): seq<Elem> { Then(words, Closing(';'), Phrase([Lit("true")])) }

  lemma TrueIs()
    ensures FitElem(Lit("true")) && Means(Lit("true")) == [Exactly("true")]
  {
    DullIs("true");
  }

  lemma EndMeans(last: Elem, token: Token)
    requires last.Text? && FitElem(last) && Means(last) == [token]
    ensures Neat(Phrase([last]), false) && Joint(Closing(';'), false)
    ensures LineMeans(Closing(';')) + LineMeans(Phrase([last])) == [Operator(';'), token]
  {
    PhraseIsNeat([last], false);
    PhraseMeans([last], [token]);
    WordAndBlank(Op(';'));
  }

  lemma ThenTrueReads(words: seq<Elem>, tokens: seq<Token>)
    requires Spelled(words, tokens)
    ensures Tokens(LineText(ThenTrue(words))) == Some(tokens + [Operator(';'), Exactly("true")])
  {
    TrueIs();
    EndMeans(Lit("true"), Exactly("true"));
    ThenReads(words, Closing(';'), Phrase([Lit("true")]), false);
    LineIsTokens(ThenTrue(words));
    PhraseMeans(words, tokens);
    var end, last := LineMeans(Closing(';')), LineMeans(Phrase([Lit("true")]));
    assert tokens + end + last == tokens + (end + last);
  }

  function Staged(tmp: string): Elem { Text([Value(tmp), Bare("/job-*")]) }

  lemma StagedIs(tmp: string)
    ensures FitElem(Staged(tmp)) && Means(Staged(tmp)) == [Expanding(tmp + "/job-*")]
  {
    TwoPieces(Value(tmp), Bare("/job-*"));
    JobsFit();
    JobsAreLive();
    assert "" + tmp == tmp;
  }

  lemma JobsFit()
    ensures Fit(Bare("/job-*"))
  {
  }

  lemma JobsAreLive()
    ensures Live("/job-*", false)
  {
    SomethingAsks("/job-*", 5, false);
  }

  lemma RuntimeFits()
    ensures Fit(Bare("/tmp/sftp-relay-job-*"))
  {
    RuntimeHalves();
    TameAppend("/tmp/sftp-", "relay-job-*", false);
    assert "/tmp/sftp-" + "relay-job-*" == "/tmp/sftp-relay-job-*";
  }

  lemma RuntimeHalves()
    ensures Tame("/tmp/sftp-", false) && Tame("relay-job-*", false)
  {
  }

  lemma RuntimeIsLive()
    ensures Live("/tmp/sftp-relay-job-*", false)
  {
    SomethingAsks("/tmp/sftp-relay-job-*", 20, false);
  }

  lemma RuntimeIs()
    ensures FitElem(Lit("/tmp/sftp-relay-job-*"))
    ensures Means(Lit("/tmp/sftp-relay-job-*")) == [Expanding("/tmp/sftp-relay-job-*")]
  {
    OnePiece(Bare("/tmp/sftp-relay-job-*"));
    RuntimeFits();
    RuntimeIsLive();
    NothingBefore("/tmp/sftp-relay-job-*");
  }

  lemma NothingBefore(text: string)
    ensures "" + text == text
  {
  }

  lemma RemoveIs()
    ensures FitElem(Lit("rm")) && Means(Lit("rm")) == [Exactly("rm")]
    ensures FitElem(Lit("-rf")) && Means(Lit("-rf")) == [Exactly("-rf")]
  {
    DullIs("rm");
    DullIs("-rf");
  }

  function SweepCommand(tmp: string): string {
    LineText(ThenTrue([Lit("rm"), Lit("-rf"), Staged(tmp), Lit("/tmp/sftp-relay-job-*")]))
  }

  lemma FourThenTrue(a: Elem, b: Elem, c: Elem, d: Elem, ta: Token, tb: Token, tc: Token, td: Token)
    requires a.Text? && b.Text? && c.Text? && d.Text? && FitElem(a) && FitElem(b) && FitElem(c) && FitElem(d)
    requires Means(a) == [ta] && Means(b) == [tb] && Means(c) == [tc] && Means(d) == [td]
    ensures Tokens(LineText(ThenTrue([a, b, c, d]))) == Some([ta, tb, tc, td, Operator(';'), Exactly("true")])
  {
    ThenTrueReads([a, b, c, d], [ta, tb, tc, td]);
    assert [ta, tb, tc, td] + [Operator(';'), Exactly("true")] == [ta, tb, tc, td, Operator(';'), Exactly("true")];
  }

  /** Whatever the staging area is called, sweeping is one rm over its job directories and
      the runtime ones. */
  lemma SweepIsIntended(tmp: string)
    ensures Tokens(SweepCommand(tmp)) ==
            Some([Exactly("rm"), Exactly("-rf"), Expanding(tmp + "/job-*"), Expanding("/tmp/sftp-relay-job-*"),
                  Operator(';'), Exactly("true")])
  {
    RemoveIs();
    StagedIs(tmp);
    RuntimeIs();
    FourThenTrue(Lit("rm"), Lit("-rf"), Staged(tmp), Lit("/tmp/sftp-relay-job-*"),
                 Exactly("rm"), Exactly("-rf"), Expanding(tmp + "/job-*"), Expanding("/tmp/sftp-relay-job-*"));
  }

  // ------------------------------------------------------------ cancel

  /** The command inside the substitution. */
  function ReadPid(file: string): seq<Elem> {
    Then([Lit("cat"), Given(file), Lit("2")], [Op('>')], Phrase([Lit("/dev/null")]))
  }

  /** What follows it, with p the shell's "$p". */
  function TermPid(p: string): seq<Elem> {
    Closing(';') + Then([Lit("["), Lit("-n"), InQuotes(p), Lit("]")], Between('&'),
               Then([Lit("kill"), Lit("-TERM"), InQuotes(p), Lit("2")], [Op('>')], ThenTrue([Lit("/dev/null")])))
  }

  function CancelCommand(file: string): string {
    "p=$(" + LineText(ReadPid(file)) + ")" + LineText(TermPid("$p"))
  }

  function InSubstitution(tokens: seq<Token>): Shell {
    Shell(tokens, None, Unquoted, [Outer([], ShWord("p=$", true, []), Unquoted)])
  }

  /** The assignment of what a substitution gives. */
  function Substituted(inside: seq<Token>): ShWord { ShWord("p=$()", true, [inside]) }

  lemma NameIsRead()
    ensures ShRun(SH_START, "p=") == Shell([], Some(ShWord("p=", false, [])), Unquoted, [])
  {
    var t := Shell([], Some(ShWord("p", false, [])), Unquoted, []);
    assert "" + ['p'] == "p" && "p" + ['='] == "p=";
    assert ShStep(SH_START, 'p') == t;
    assert "p="[1..] == "=" && "="[1..] == "";
  }

  lemma SubstitutionIsOpened()
    ensures ShRun(Shell([], Some(ShWord("p=", false, [])), Unquoted, []), "$(") == InSubstitution([])
  {
    var t := Shell([], Some(ShWord("p=$", true, [])), Dollar, []);
    assert "p=" + ['$'] == "p=$";
    assert ShStep(Shell([], Some(ShWord("p=", false, [])), Unquoted, []), '$') == t;
    assert [] + [Outer([], ShWord("p=$", true, []), Unquoted)] == [Outer([], ShWord("p=$", true, []), Unquoted)];
    assert ShStep(t, '(') == InSubstitution([]);
    assert "$("[1..] == "(" && "("[1..] == "";
  }

  lemma SubstitutionBegins()
    ensures ShRun(SH_START, "p=$(") == InSubstitution([])
  {
    hide ShRun, InSubstitution;
    NameIsRead();
    SubstitutionIsOpened();
    ShRunAppend(SH_START, "p=", "$(");
    assert "p=" + "$(" == "p=$(";
  }

  lemma SubstitutionEnds(r: Shell, tokens: seq<Token>)
    requires Reads(r, InSubstitution(tokens))
    ensures ShRun(r, ")") == Shell([], Some(Substituted(tokens)), Unquoted, [])
  {
    var closed := InSubstitution(tokens);
    assert ")" == [')'];
    ShRunOne(r, ')');
    assert r.outer == closed.outer;
    assert closed.outer[..0] == [] && "p=$" + "()" == "p=$()" && [] + [tokens] == [tokens];
    assert ShStep(r, ')') == Leave(closed);
  }

  lemma PidIsRead(file: string)
    ensures Neat(ReadPid(file), true)
    ensures LineMeans(ReadPid(file)) == [Exactly("cat"), Exactly(file), Exactly("2"), Operator('>'), Exactly("/dev/null")]
  {
    CatWords();
    NullIs();
    GivenIs(file);
    Redirected(Lit("cat"), Given(file), Lit("2"), Lit("/dev/null"),
               Exactly("cat"), Exactly(file), Exactly("2"), Exactly("/dev/null"));
  }

  lemma CatWords()
    ensures FitElem(Lit("cat")) && Means(Lit("cat")) == [Exactly("cat")]
    ensures FitElem(Lit("2")) && Means(Lit("2")) == [Exactly("2")]
  {
    DullIs("cat");
    DullIs("2");
  }

  lemma DullAppend(a: string, b: string)
    requires DullWord(a) && DullWord(b)
    ensures DullWord(a + b)
  {
    hide Dull;
  }

  lemma NullIsDull()
    ensures DullWord("/dev") && DullWord("/null") && "/dev" + "/null" == "/dev/null"
  {
  }

  lemma NullIs()
    ensures FitElem(Lit("/dev/null")) && Means(Lit("/dev/null")) == [Exactly("/dev/null")]
  {
    hide DullWord;
    NullIsDull();
    DullAppend("/dev", "/null");
    DullIs("/dev/null");
  }

  lemma Redirected(a: Elem, b: Elem, c: Elem, d: Elem, ta: Token, tb: Token, tc: Token, td: Token)
    requires a.Text? && b.Text? && c.Text? && d.Text? && FitElem(a) && FitElem(b) && FitElem(c) && FitElem(d)
    requires Means(a) == [ta] && Means(b) == [tb] && Means(c) == [tc] && Means(d) == [td]
    ensures Neat(Then([a, b, c], [Op('>')], Phrase([d])), true)
    ensures LineMeans(Then([a, b, c], [Op('>')], Phrase([d]))) == [ta, tb, tc, Operator('>'), td]
  {
    Into([a, b, c], [ta, tb, tc], [d], [td]);
  }

  /** The output of a phrase goes where the other says. */
  lemma Into(words: seq<Elem>, tokens: seq<Token>, file: seq<Elem>, name: seq<Token>)
    requires Spelled(words, tokens) && Spelled(file, name)
    ensures Neat(Then(words, [Op('>')], Phrase(file)), true)
    ensures LineMeans(Then(words, [Op('>')], Phrase(file))) == tokens + [Operator('>')] + name
  {
    PhraseIsNeat(file, true);
    ThenReads(words, [Op('>')], Phrase(file), true);
    PhraseMeans(words, tokens);
    PhraseMeans(file, name);
    OneElem([Op('>')]);
  }

  lemma KillWords()
    ensures Fit(Bare("-n")) && Fit(Bare("kill")) && Fit(Bare("-TERM"))
  {
  }

  lemma KillIsNeat(p: string, rest: seq<Elem>)
    requires Tame(p, true) && Neat(rest, false)
    ensures Neat(Then([Lit("kill"), Lit("-TERM"), InQuotes(p), Lit("2")], [Op('>')], rest), false)
  {
    KillWords();
    Marks();
    ThenReads([Lit("kill"), Lit("-TERM"), InQuotes(p), Lit("2")], [Op('>')], rest, false);
  }

  lemma TermIsNeat(p: string)
    requires Tame(p, true)
    ensures Neat(TermPid(p), false)
  {
    var quiet := ThenTrue([Lit("/dev/null")]);
    var kill := Then([Lit("kill"), Lit("-TERM"), InQuotes(p), Lit("2")], [Op('>')], quiet);
    NullIs();
    TrueIs();
    Joints();
    PhraseIsNeat([Lit("true")], false);
    ThenReads([Lit("/dev/null")], Closing(';'), Phrase([Lit("true")]), false);
    KillIsNeat(p, quiet);
    TestPidIsNeat(p, kill);
    NeatAppend(Closing(';'), Then([Lit("["), Lit("-n"), InQuotes(p), Lit("]")], Between('&'), kill), false);
  }

  lemma TestPidIsNeat(p: string, rest: seq<Elem>)
    requires Tame(p, true) && Neat(rest, false)
    ensures Neat(Then([Lit("["), Lit("-n"), InQuotes(p), Lit("]")], Between('&'), rest), false)
  {
    KillWords();
    Marks();
    Joints();
    ThenReads([Lit("["), Lit("-n"), InQuotes(p), Lit("]")], Between('&'), rest, false);
  }

  /** A line that goes on after a substitution. */
  lemma AfterSubstitution(word: ShWord, line: seq<Elem>)
    requires line != [] && !line[0].Text? && Neat(line, false)
    ensures var r := ShRun(Shell([], Some(word), Unquoted, []), LineText(line));
            Complete(r) && Delimit(r).tokens == [Word(word)] + LineMeans(line)
  {
    var t := Shell([], Some(word), Unquoted, []);
    StartsWithDelimiter(line);
    OpenOrClosed(t, LineText(line));
    assert [] + [Word(word)] == [Word(word)];
    LineReads(Shell([Word(word)], None, Unquoted, []), line);
  }

  /** Whatever the file is called, the substitution runs cat on exactly that file, and what
      follows is fixed. */
  lemma CancelIsIntended(file: string)
    ensures Tokens(CancelCommand(file)) ==
            Some([Word(Substituted([Exactly("cat"), Exactly(file), Exactly("2"), Operator('>'), Exactly("/dev/null")]))]
                 + LineMeans(TermPid("$p")))
  {
    PidIsRead(file);
    Parameters();
    TermIsNeat("$p");
    SubstitutionIsRead(ReadPid(file), TermPid("$p"));
  }

  lemma SubstitutionIsRead(inside: seq<Elem>, after: seq<Elem>)
    requires Neat(inside, true) && after != [] && !after[0].Text? && Neat(after, false)
    ensures Tokens("p=$(" + LineText(inside) + ")" + LineText(after)) ==
            Some([Word(Substituted(LineMeans(inside)))] + LineMeans(after))
  {
    SubstitutionBegins();
    ShRunAppend(SH_START, "p=$(", LineText(inside));
    LineReads(InSubstitution([]), inside);
    assert [] + LineMeans(inside) == LineMeans(inside);
    ShRunAppend(SH_START, "p=$(" + LineText(inside), ")");
    SubstitutionEnds(ShRun(InSubstitution([]), LineText(inside)), LineMeans(inside));
    ShRunAppend(SH_START, "p=$(" + LineText(inside) + ")", LineText(after));
    AfterSubstitution(Substituted(LineMeans(inside)), after);
  }

  // ------------------------------------------------------------ the probe of ShellPath

  /** Where the share would be if it had this prefix. */
  function Root(prefix: string, share: string): string { prefix + "/" + share }

  function ProbeLine(root: string, prefix: string): seq<Elem> {
    Then([Lit("["), Lit("-e"), Given(root), Lit("]")], Between('&'),
         Then([Lit("{"), Lit("printf"), Given("%s\n"), Given(prefix)], Closing(';'),
              Then([Lit("exit"), Lit("0")], Closing(';'), Then([Lit("}")], [Op(';')], []))))
  }

  function Test(root: string): seq<Token> { [Expanding("["), Exactly("-e"), Exactly(root), Exactly("]")] }

  function Reply(prefix: string): seq<Token> { [Exactly("{"), Exactly("printf"), Exactly("%s\n"), Exactly(prefix)] }

  /** If the root exists, print the prefix and stop. */
  function Question(root: string, prefix: string): seq<Token> {
    Test(root) + [Operator('&'), Operator('&')] + Reply(prefix) + [Operator(';')]
    + [Exactly("exit"), Exactly("0")] + [Operator(';')] + [Exactly("}")] + [Operator(';')] + [NEWLINE]
  }

  /** What a shell prints for a list of such questions that ends with true, if `exists_` says
      which paths exist: the first prefix whose root does, on a line of its own. None if the
      text is anything else. */
  function Printed(tokens: seq<Token>, exists_: string -> bool): Option<string> {
    if tokens == [Exactly("true")] then Some("")
    else if |tokens| < 17 || !tokens[2].Word? || !tokens[9].Word? then None
    else
      var root, prefix := tokens[2].word.text, tokens[9].word.text;
      if tokens[..17] != Question(root, prefix) then None
      else if exists_(root) then Some(prefix + "\n")
      else Printed(tokens[17..], exists_)
  }

  lemma FourPhrases(w1: seq<Elem>, t1: seq<Token>, w2: seq<Elem>, t2: seq<Token>,
                    w3: seq<Elem>, t3: seq<Token>, w4: seq<Elem>, t4: seq<Token>)
    requires Spelled(w1, t1) && Spelled(w2, t2) && Spelled(w3, t3) && Spelled(w4, t4)
    ensures var line := Then(w1, Between('&'), Then(w2, Closing(';'), Then(w3, Closing(';'), Then(w4, [Op(';')], []))));
            && Neat(line, false)
            && LineMeans(line) == t1 + [Operator('&'), Operator('&')] + t2 + [Operator(';')]
                                  + t3 + [Operator(';')] + t4 + [Operator(';')]
  {
    Joints();
    JointsMean();
    PhraseMeans(w1, t1);
    PhraseMeans(w2, t2);
    PhraseMeans(w3, t3);
    PhraseMeans(w4, t4);
    ThenReads(w4, [Op(';')], [], false);
    ThenReads(w3, Closing(';'), Then(w4, [Op(';')], []), false);
    ThenReads(w2, Closing(';'), Then(w3, Closing(';'), Then(w4, [Op(';')], [])), false);
    ThenReads(w1, Between('&'), Then(w2, Closing(';'), Then(w3, Closing(';'), Then(w4, [Op(';')], []))), false);
    Regroup(t1, t2, t3, t4);
  }

  lemma JointsMean()
    ensures LineMeans(Between('&')) == [Operator('&'), Operator('&')] && LineMeans(Closing(';')) == [Operator(';')]
    ensures LineMeans([Op(';')]) == [Operator(';')]
  {
    OneElem([Op(';')]);
    WordAndBlank(Op(';'));
    WordAndBlank(Op('&'));
    assert Between('&')[1..] == [Op('&'), Op('&'), Blank] && Between('&')[1..][1..] == [Op('&'), Blank];
  }

  lemma Regroup(t1: seq<Token>, t2: seq<Token>, t3: seq<Token>, t4: seq<Token>)
    ensures t1 + [Operator('&'), Operator('&')]
            + (t2 + [Operator(';')] + (t3 + [Operator(';')] + (t4 + [Operator(';')] + [])))
            == t1 + [Operator('&'), Operator('&')] + t2 + [Operator(';')] + t3 + [Operator(';')] + t4 + [Operator(';')]
  {
  }

  lemma FourSpelled(a: Elem, b: Elem, c: Elem, d: Elem, ta: Token, tb: Token, tc: Token, td: Token)
    requires a.Text? && b.Text? && c.Text? && d.Text? && FitElem(a) && FitElem(b) && FitElem(c) && FitElem(d)
    requires Means(a) == [ta] && Means(b) == [tb] && Means(c) == [tc] && Means(d) == [td]
    ensures Spelled([a, b, c, d], [ta, tb, tc, td])
  {
  }

  lemma ExistsIs()
    ensures FitElem(Lit("-e")) && Means(Lit("-e")) == [Exactly("-e")]
    ensures FitElem(Lit("]")) && Means(Lit("]")) == [Exactly("]")]
  {
    DullIs("-e");
    DullIs("]");
  }

  lemma TestIs(root: string)
    ensures Spelled([Lit("["), Lit("-e"), Given(root), Lit("]")], Test(root))
  {
    BracketIs();
    ExistsIs();
    GivenIs(root);
    FourSpelled(Lit("["), Lit("-e"), Given(root), Lit("]"), Expanding("["), Exactly("-e"), Exactly(root), Exactly("]"));
  }

  lemma BracketIs()
    ensures FitElem(Lit("[")) && Means(Lit("[")) == [Expanding("[")]
  {
    Marks();
    OnePiece(Bare("["));
    SomethingAsks("[", 0, false);
    NothingBefore("[");
  }

  lemma PrintfIs()
    ensures FitElem(Lit("{")) && Means(Lit("{")) == [Exactly("{")]
    ensures FitElem(Lit("printf")) && Means(Lit("printf")) == [Exactly("printf")]
    ensures Means(Given("%s\n")) == [Exactly("%s\n")]
  {
    DullIs("{");
    DullIs("printf");
    GivenIs("%s\n");
  }

  lemma ReplyIs(prefix: string)
    ensures Spelled([Lit("{"), Lit("printf"), Given("%s\n"), Given(prefix)], Reply(prefix))
  {
    PrintfIs();
    GivenIs(prefix);
    FourSpelled(Lit("{"), Lit("printf"), Given("%s\n"), Given(prefix),
                Exactly("{"), Exactly("printf"), Exactly("%s\n"), Exactly(prefix));
  }

  lemma StopIs()
    ensures Spelled([Lit("exit"), Lit("0")], [Exactly("exit"), Exactly("0")])
  {
    ExitWord();
    ZeroWord();
    TwoSpelled(Lit("exit"), Lit("0"), Exactly("exit"), Exactly("0"));
  }

  lemma TwoSpelled(a: Elem, b: Elem, ta: Token, tb: Token)
    requires a.Text? && b.Text? && FitElem(a) && FitElem(b) && Means(a) == [ta] && Means(b) == [tb]
    ensures Spelled([a, b], [ta, tb])
  {
  }

  lemma ZeroWord()
    ensures FitElem(Lit("0")) && Means(Lit("0")) == [Exactly("0")]
  {
    DullIs("0");
  }

  lemma ExitWord()
    ensures FitElem(Lit("exit")) && Means(Lit("exit")) == [Exactly("exit")]
  {
    DullIs("exit");
  }

  lemma BraceIs()
    ensures Spelled([Lit("}")], [Exactly("}")])
  {
    DullIs("}");
  }

  lemma ProbeLineReads(root: string, prefix: string)
    ensures Neat(ProbeLine(root, prefix), false)
    ensures LineMeans(ProbeLine(root, prefix)) + [NEWLINE] == Question(root, prefix)
  {
    TestIs(root);
    ReplyIs(prefix);
    StopIs();
    BraceIs();
    FourPhrases([Lit("["), Lit("-e"), Given(root), Lit("]")], Test(root),
                [Lit("{"), Lit("printf"), Given("%s\n"), Given(prefix)], Reply(prefix),
                [Lit("exit"), Lit("0")], [Exactly("exit"), Exactly("0")], [Lit("}")], [Exactly("}")]);
  }

  function ProbeLines(prefixes: seq<string>, share: string): seq<seq<Elem>> {
    if prefixes == [] then [] else [ProbeLine(Root(prefixes[0], share), prefixes[0])] + ProbeLines(prefixes[1..], share)
  }

  function Questions(prefixes: seq<string>, share: string): seq<Token> {
    if prefixes == [] then [] else Question(Root(prefixes[0], share), prefixes[0]) + Questions(prefixes[1..], share)
  }

  lemma {:induction false} ProbeLinesRead(prefixes: seq<string>, share: string)
    ensures AllNeat(ProbeLines(prefixes, share))
    ensures LinesMean(ProbeLines(prefixes, share)) == Questions(prefixes, share)
  {
    if prefixes != [] {
      var line := ProbeLine(Root(prefixes[0], share), prefixes[0]);
      ProbeLineReads(Root(prefixes[0], share), prefixes[0]);
      ProbeLinesRead(prefixes[1..], share);
      AddLines([line], ProbeLines(prefixes[1..], share));
      OneLine(line);
    }
  }

  /** The probe as ShellPath puts it together. */
  function ProbeText(prefixes: seq<string>, share: string): string { LinesText(ProbeLines(prefixes, share)) + "true" }

  lemma ProbeReads(prefixes: seq<string>, share: string)
    ensures Tokens(ProbeText(prefixes, share)) == Some(Questions(prefixes, share) + [Exactly("true")])
  {
    ProbeLinesRead(prefixes, share);
    LinesRead(SH_START, ProbeLines(prefixes, share));
    assert [] + Questions(prefixes, share) == Questions(prefixes, share);
    LastTrue(Questions(prefixes, share));
    ShRunAppend(SH_START, LinesText(ProbeLines(prefixes, share)), "true");
  }

  lemma LastTrue(tokens: seq<Token>)
    ensures var r := ShRun(Shell(tokens, None, Unquoted, []), "true");
            Complete(r) && Delimit(r).tokens == tokens + [Exactly("true")]
  {
    TrueIs();
    OneElem([Lit("true")]);
    assert [Bare("true")][1..] == [] && "true" + "" == "true";
    assert LineText([Lit("true")]) == ElemText(Lit("true")) == PiecesText([Bare("true")]) == "true";
    LineReads(Shell(tokens, None, Unquoted, []), [Lit("true")]);
  }

  /** Which prefix the questions are answered with. */
  function Answer(prefixes: seq<string>, share: string, exists_: string -> bool): string {
    if prefixes == [] then ""
    else if exists_(Root(prefixes[0], share)) then prefixes[0] + "\n"
    else Answer(prefixes[1..], share, exists_)
  }

  lemma {:induction false} QuestionsAnswered(prefixes: seq<string>, share: string, exists_: string -> bool)
    ensures Printed(Questions(prefixes, share) + [Exactly("true")], exists_) == Some(Answer(prefixes, share, exists_))
  {
    if prefixes == [] {
      assert [] + [Exactly("true")] == [Exactly("true")];
    } else {
      var q := Question(Root(prefixes[0], share), prefixes[0]);
      var rest := Questions(prefixes[1..], share) + [Exactly("true")];
      assert Questions(prefixes, share) + [Exactly("true")] == q + rest;
      FirstQuestion(Root(prefixes[0], share), prefixes[0], rest, exists_);
      QuestionsAnswered(prefixes[1..], share, exists_);
    }
  }

  lemma FirstQuestion(root: string, prefix: string, rest: seq<Token>, exists_: string -> bool)
    ensures Printed(Question(root, prefix) + rest, exists_) ==
            if exists_(root) then Some(prefix + "\n") else Printed(rest, exists_)
  {
    var tokens := Question(root, prefix) + rest;
    QuestionAt(root, prefix);
    assert tokens[..17] == Question(root, prefix) && tokens[17..] == rest;
    assert tokens[2] == Exactly(root) && tokens[9] == Exactly(prefix);
  }

  lemma QuestionAt(root: string, prefix: string)
    ensures var q := Question(root, prefix); |q| == 17 && q[2] == Exactly(root) && q[9] == Exactly(prefix)
  {
  }

  /** Whatever the share is called, a shell that runs the probe prints the first prefix under
      which the share exists, or nothing. */
  lemma ProbeAsksInOrder(prefixes: seq<string>, share: string, exists_: string -> bool)
    ensures Tokens(ProbeText(prefixes, share)).Some?
    ensures Printed(Tokens(ProbeText(prefixes, share)).value, exists_) == Some(Answer(prefixes, share, exists_))
  {
    ProbeReads(prefixes, share);
    QuestionsAnswered(prefixes, share, exists_);
  }

  method WriteProbe(prefixes: seq<string>, share: string) returns (cmd: string)
    ensures cmd == ProbeText(prefixes, share)
  {
    cmd := "";
    for i := 0 to |prefixes|
      invariant cmd + LinesText(ProbeLines(prefixes[i..], share)) == LinesText(ProbeLines(prefixes, share))
    {
      var root := prefixes[i] + "/" + share;
      ghost var before := cmd;
      cmd := cmd + (LineText(ProbeLine(root, prefixes[i])) + "\n");
      assert prefixes[i..][0] == prefixes[i] && prefixes[i..][1..] == prefixes[i + 1..];
      NextLine(before, ProbeLine(root, prefixes[i]), ProbeLines(prefixes[i + 1..], share));
    }
    cmd := cmd + "true";
  }

  lemma NextLine(before: string, line: seq<Elem>, rest: seq<seq<Elem>>)
    ensures before + (LineText(line) + "\n") + LinesText(rest) == before + LinesText([line] + rest)
  {
    assert ([line] + rest)[1..] == rest;
  }
}
