/** render of internal/nas/lftp.go: the files of a job's workspace and the command that
    starts it. */
module Render {
  import opened Common
  import opened Text
  import opened Paths
  import opened Quoting
  import opened Script
  import opened ShellCommands
  import opened Workspace
  import ShellReader
  import CheckPath
  import Pem

  // ------------------------------------------------------------ the commands for lftp

  function Setting(name: string, value: string): seq<Arg> { [Bare("set"), Bare(name), Bare(value)] }

  function Settings(): (lines: seq<seq<Arg>>)
    ensures forall i :: 0 <= i < |lines| ==> lines[i] != []
  {
    [Setting("cmd:fail-exit", "yes"),
     Setting("net:max-retries", "3"),
     Setting("net:timeout", "30"),
     Setting("xfer:use-temp-file", "yes"),
     Setting("xfer:clobber", "yes"),
     Setting("sftp:auto-confirm", "no")]
  }

  function Local(t: Transfer): string { JoinPath(t.dest, Base(t.remote)) }

  function Pget(t: Transfer): seq<Arg> {
    [Bare("pget"), Bare("-n"), Bare(Decimal(AtLeastOne(t.segments))), Bare("-c"), Value("", t.remote),
     Bare("-o"), Value("", Local(t))]
  }

  function Mirror(t: Transfer): seq<Arg> {
    [Bare("mirror"), Bare("--continue"), Bare("--parallel=" + Decimal(AtLeastOne(t.parallel))),
     Bare("--use-pget-n=" + Decimal(AtLeastOne(t.segments))), Value("", t.remote), Value("", Local(t))]
  }

  function TransferArgs(t: Transfer): seq<Arg> { if t.kind == "file" then Pget(t) else Mirror(t) }

  function Login(server: Server): string { server.username + "," + server.password }

  function Program(program: string): seq<Arg> {
    [Bare("set"), Bare("sftp:connect-program"), Value("", program)]
  }

  function OpenArgs(server: Server): seq<Arg> {
    [Bare("open"), Bare("-u"), Value("", Login(server)), Value("sftp://", server.host)]
  }

  function JobLines(t: Transfer, program: string): (lines: seq<seq<Arg>>)
    ensures forall i :: 0 <= i < |lines| ==> lines[i] != []
  {
    [Program(program), OpenArgs(t.server), TransferArgs(t), [Bare("bye")]]
  }

  function ScriptLines(t: Transfer, program: string): (lines: seq<seq<Arg>>)
    ensures forall i :: 0 <= i < |lines| ==> lines[i] != []
  {
    Settings() + JobLines(t, program)
  }

  /** The transfer, argument by argument. */
  function TransferCommand(t: Transfer): seq<string> {
    if t.kind == "file" then
      ["pget", "-n", Decimal(AtLeastOne(t.segments)), "-c", t.remote, "-o", Local(t)]
    else
      ["mirror", "--continue", "--parallel=" + Decimal(AtLeastOne(t.parallel)),
       "--use-pget-n=" + Decimal(AtLeastOne(t.segments)), t.remote, Local(t)]
  }

  function OpenCommand(server: Server): seq<string> {
    ["open", "-u", server.username + "," + server.password, "sftp://" + server.host]
  }

  /** What lftp is meant to do, command by command and argument by argument. */
  function Intended(t: Transfer, program: string): seq<seq<string>> {
    [["set", "cmd:fail-exit", "yes"],
     ["set", "net:max-retries", "3"],
     ["set", "net:timeout", "30"],
     ["set", "xfer:use-temp-file", "yes"],
     ["set", "xfer:clobber", "yes"],
     ["set", "sftp:auto-confirm", "no"],
     ["set", "sftp:connect-program", program],
     OpenCommand(t.server),
     TransferCommand(t),
     ["bye"]]
  }

  lemma {:induction false} WordsAt(args: seq<Arg>)
    ensures |Words(args)| == |args| && forall i :: 0 <= i < |args| ==> Words(args)[i] == Meant(args[i])
  {
    if args != [] { WordsAt(args[1..]); }
  }

  lemma {:induction false} MeaningsAt(lines: seq<seq<Arg>>)
    ensures |Meanings(lines)| == |lines| && forall i :: 0 <= i < |lines| ==> Meanings(lines)[i] == Words(lines[i])
  {
    if lines != [] { MeaningsAt(lines[1..]); }
  }

  lemma {:induction false} MeaningsAppend(a: seq<seq<Arg>>, b: seq<seq<Arg>>)
    ensures Meanings(a + b) == Meanings(a) + Meanings(b)
  {
    if a == [] {
      assert a + b == b;
    } else {
      assert (a + b)[1..] == a[1..] + b;
      MeaningsAppend(a[1..], b);
    }
  }

  lemma SettingMeans(name: string, value: string)
    ensures Words(Setting(name, value)) == ["set", name, value]
  {
    WordsAt(Setting(name, value));
  }

  lemma SettingsMean()
    ensures Meanings(Settings()) ==
            [["set", "cmd:fail-exit", "yes"], ["set", "net:max-retries", "3"], ["set", "net:timeout", "30"],
             ["set", "xfer:use-temp-file", "yes"], ["set", "xfer:clobber", "yes"], ["set", "sftp:auto-confirm", "no"]]
  {
    MeaningsAt(Settings());
    SettingMeans("cmd:fail-exit", "yes");
    SettingMeans("net:max-retries", "3");
    SettingMeans("net:timeout", "30");
    SettingMeans("xfer:use-temp-file", "yes");
    SettingMeans("xfer:clobber", "yes");
    SettingMeans("sftp:auto-confirm", "no");
  }

  /** The meaning of an argument list, given the meaning of each argument. */
  lemma WordsAre(args: seq<Arg>, words: seq<string>)
    requires |words| == |args| && forall i :: 0 <= i < |args| ==> Meant(args[i]) == words[i]
    ensures Words(args) == words
  {
    WordsAt(args);
  }

  lemma NoPrefix(value: string)
    ensures Meant(Value("", value)) == value && Written(Value("", value)) == Quoted(value)
  {
    assert "" + value == value && "" + Quoted(value) == Quoted(value);
  }

  lemma PgetWordsMean(n: string, remote: string, local: string)
    ensures Words([Bare("pget"), Bare("-n"), Bare(n), Bare("-c"), Value("", remote), Bare("-o"), Value("", local)])
            == ["pget", "-n", n, "-c", remote, "-o", local]
  {
    hide Words;
    NoPrefix(remote);
    NoPrefix(local);
    WordsAre([Bare("pget"), Bare("-n"), Bare(n), Bare("-c"), Value("", remote), Bare("-o"), Value("", local)],
             ["pget", "-n", n, "-c", remote, "-o", local]);
  }

  lemma PgetMeans(t: Transfer)
    requires t.kind == "file"
    ensures Words(Pget(t)) == TransferCommand(t)
  {
    hide Words, Local, Decimal;
    PgetWordsMean(Decimal(AtLeastOne(t.segments)), t.remote, Local(t));
  }

  lemma MirrorMeans(t: Transfer)
    requires t.kind != "file"
    ensures Words(Mirror(t)) == TransferCommand(t)
  {
    hide Words, Local, Decimal;
    MirrorWordsMean("--parallel=" + Decimal(AtLeastOne(t.parallel)), "--use-pget-n=" + Decimal(AtLeastOne(t.segments)),
                    t.remote, Local(t));
  }

  lemma MirrorWordsMean(parallel: string, segments: string, remote: string, local: string)
    ensures Words([Bare("mirror"), Bare("--continue"), Bare(parallel), Bare(segments), Value("", remote), Value("", local)])
            == ["mirror", "--continue", parallel, segments, remote, local]
  {
    hide Words;
    NoPrefix(remote);
    NoPrefix(local);
    WordsAre([Bare("mirror"), Bare("--continue"), Bare(parallel), Bare(segments), Value("", remote), Value("", local)],
             ["mirror", "--continue", parallel, segments, remote, local]);
  }

  lemma TransferMeans(t: Transfer)
    ensures Words(TransferArgs(t)) == TransferCommand(t)
  {
    if t.kind == "file" { PgetMeans(t); } else { MirrorMeans(t); }
  }

  lemma ProgramMeans(program: string)
    ensures Words(Program(program)) == ["set", "sftp:connect-program", program]
  {
    NoPrefix(program);
    WordsAre(Program(program), ["set", "sftp:connect-program", program]);
  }

  lemma OpenMeans(server: Server)
    ensures Words(OpenArgs(server)) == OpenCommand(server)
  {
    NoPrefix(Login(server));
    WordsAre(OpenArgs(server), OpenCommand(server));
  }

  lemma JobLinesMean(t: Transfer, program: string)
    ensures Meanings(JobLines(t, program)) == Intended(t, program)[6..]
  {
    MeaningsAt(JobLines(t, program));
    ProgramMeans(program);
    OpenMeans(t.server);
    TransferMeans(t);
    WordsAre([Bare("bye")], ["bye"]);
  }

  lemma LinesMean(t: Transfer, program: string)
    ensures Meanings(Settings() + JobLines(t, program)) == Intended(t, program)
  {
    hide Meanings;
    MeaningsAppend(Settings(), JobLines(t, program));
    SettingsMean();
    JobLinesMean(t, program);
    var all := Intended(t, program);
    assert all == all[..6] + all[6..];
  }

  // ------------------------------------------------------------ every argument can be written

  lemma SettingWritable(name: string, value: string)
    requires name != "" && AllPlain(name) && value != "" && AllPlain(value)
    ensures AllWritable(Setting(name, value))
  {
    assert AllPlain("set");
  }

  lemma SettingsWritable()
    ensures AllLinesWritable(Settings())
  {
    PlainSettings();
    PlainTransferSettings();
    PlainValues();
    SettingWritable("cmd:fail-exit", "yes");
    SettingWritable("net:max-retries", "3");
    SettingWritable("net:timeout", "30");
    SettingWritable("xfer:use-temp-file", "yes");
    SettingWritable("xfer:clobber", "yes");
    SettingWritable("sftp:auto-confirm", "no");
  }

  lemma PlainSettings()
    ensures AllPlain("cmd:fail-exit") && AllPlain("net:max-retries") && AllPlain("net:timeout")
  {
  }

  lemma PlainTransferSettings()
    ensures AllPlain("xfer:use-temp-file") && AllPlain("xfer:clobber") && AllPlain("sftp:auto-confirm")
  {
  }

  lemma PlainValues()
    ensures AllPlain("yes") && AllPlain("no") && AllPlain("3") && AllPlain("30")
  {
  }

  lemma NumberIsPlain(n: int)
    ensures AllPlain(Decimal(n))
  {
    var s := Decimal(n);
    forall i | 0 <= i < |s| ensures Plain(s[i]) {
    }
  }

  lemma PgetWritable(t: Transfer)
    ensures AllWritable(Pget(t))
  {
    NumberIsPlain(AtLeastOne(t.segments));
    assert AllPlain("pget") && AllPlain("-n") && AllPlain("-c") && AllPlain("-o") && AllPlain("");
  }

  lemma PlainMirror()
    ensures AllPlain("mirror") && AllPlain("--continue") && AllPlain("--parallel=") && AllPlain("--use-pget-n=")
  {
  }

  lemma NumberedOption(option: string, n: int)
    requires AllPlain(option)
    ensures Writable(Bare(option + Decimal(n)))
  {
    NumberIsPlain(n);
  }

  lemma MirrorWritable(t: Transfer)
    ensures AllWritable(Mirror(t))
  {
    PlainMirror();
    NumberedOption("--parallel=", AtLeastOne(t.parallel));
    NumberedOption("--use-pget-n=", AtLeastOne(t.segments));
    assert AllPlain("");
  }

  lemma ProgramWritable(program: string)
    ensures AllWritable(Program(program)) && AllWritable([Bare("bye")])
  {
    PlainProgram();
    assert AllPlain("") && AllPlain("bye");
  }

  lemma PlainProgram()
    ensures AllPlain("set") && AllPlain("sftp:connect-program")
  {
  }

  lemma OpenWritable(server: Server)
    ensures AllWritable(OpenArgs(server))
  {
    assert AllPlain("open") && AllPlain("-u") && AllPlain("sftp://") && AllPlain("");
  }

  lemma JobLinesWritable(t: Transfer, program: string)
    ensures AllLinesWritable(JobLines(t, program))
  {
    PgetWritable(t);
    MirrorWritable(t);
    ProgramWritable(program);
    OpenWritable(t.server);
    forall i | 0 <= i < 4 ensures JobLines(t, program)[i] != [] && AllWritable(JobLines(t, program)[i]) {
    }
  }

  /** Read back by lftp's rules, the lines are exactly the intended commands, for every
      path, name and password. */
  lemma ScriptIsIntended(t: Transfer, program: string)
    ensures Commands(Lines(ScriptLines(t, program))) == Some(Intended(t, program))
  {
    SettingsWritable();
    JobLinesWritable(t, program);
    LinesAreCommands(ScriptLines(t, program));
    LinesMean(t, program);
  }

  // ------------------------------------------------------------ the text as it is printed

  function SetText(name: string, value: string): string { "set " + name + " " + value + "\n" }

  function ProgramText(program: string): string { "set sftp:connect-program " + Quoted(program) + "\n" }

  function OpenText(server: Server): string {
    "open -u " + Quoted(Login(server)) + " sftp://" + Quoted(server.host) + "\n"
  }

  function PgetText(t: Transfer): string {
    "pget -n " + Decimal(AtLeastOne(t.segments)) + " -c " + Quoted(t.remote) + " -o " + Quoted(Local(t))
  }

  function MirrorText(t: Transfer): string {
    "mirror --continue --parallel=" + Decimal(AtLeastOne(t.parallel)) + " --use-pget-n="
    + Decimal(AtLeastOne(t.segments)) + " " + Quoted(t.remote) + " " + Quoted(Local(t))
  }

  lemma OneMore(a: Arg, rest: seq<Arg>)
    requires rest != []
    ensures Line([a] + rest) == Written(a) + " " + Line(rest)
  {
    assert ([a] + rest)[1..] == rest;
  }

  /** Arguments with blanks between, and no newline yet. */
  function Spaced(args: seq<Arg>): string
    requires args != []
  {
    var n := |args| - 1;
    if n == 0 then Written(args[0]) else Spaced(args[..n]) + " " + Written(args[n])
  }

  lemma {:induction false} SpacedOneMore(a: Arg, rest: seq<Arg>)
    requires rest != []
    ensures Spaced([a] + rest) == Written(a) + " " + Spaced(rest)
    decreases |rest|
  {
    var n := |rest| - 1;
    var all := [a] + rest;
    assert all[|rest|] == rest[n] && all[..|rest|] == [a] + rest[..n];
    if n > 0 {
      SpacedOneMore(a, rest[..n]);
      Pair(Written(a) + " ", Spaced(rest[..n]), " " + Written(rest[n]));
      Pair(Spaced(rest[..n]), " ", Written(rest[n]));
      Pair(Written(a) + " " + Spaced(rest[..n]), " ", Written(rest[n]));
    } else {
      assert [a] + rest[..n] == [a];
    }
  }

  lemma {:induction false} LineIsSpaced(args: seq<Arg>)
    requires args != []
    ensures Line(args) == Spaced(args) + "\n"
    decreases |args|
  {
    if |args| > 1 {
      var rest := args[1..];
      assert args == [args[0]] + rest;
      OneMore(args[0], rest);
      SpacedOneMore(args[0], rest);
      LineIsSpaced(rest);
      Pair(Written(args[0]) + " ", Spaced(rest), "\n");
    }
  }

  lemma Pair(a: string, b: string, c: string)
    ensures a + (b + c) == a + b + c
  {
  }

  /** A word in the middle, with its blanks. */
  lemma Middle(before: string, word: string, spaced: string)
    requires spaced == " " + word + " "
    ensures before + " " + word + " " == before + spaced
  {
  }

  lemma Spaced3(a: Arg, b: Arg, c: Arg)
    ensures Spaced([a, b, c]) == Written(a) + " " + Written(b) + " " + Written(c)
  {
    assert [a, b, c][..2] == [a, b] && [a, b][..1] == [a];
    assert Spaced([a, b]) == Spaced([a]) + " " + Written(b);
  }

  lemma Spaced4(a: Arg, b: Arg, c: Arg, d: Arg)
    ensures Spaced([a, b, c, d]) == Written(a) + " " + Written(b) + " " + Written(c) + " " + Written(d)
  {
    assert [a, b, c, d][..3] == [a, b, c];
    Spaced3(a, b, c);
  }

  lemma SetTextIsLine(name: string, value: string)
    ensures SetText(name, value) == Line(Setting(name, value))
  {
    LineIsSpaced(Setting(name, value));
    Spaced3(Bare("set"), Bare(name), Bare(value));
    assert "set" + " " == "set ";
  }

  lemma ProgramWords()
    ensures "set" + " " + "sftp:connect-program" + " " == "set sftp:connect-program "
  {
  }

  lemma ProgramTextIsLine(program: string)
    ensures ProgramText(program) == Line(Program(program))
  {
    NoPrefix(program);
    LineIsSpaced(Program(program));
    Spaced3(Bare("set"), Bare("sftp:connect-program"), Value("", program));
    ProgramWords();
  }

  lemma OpenTextIsLine(server: Server)
    ensures OpenText(server) == Line(OpenArgs(server))
  {
    var login, host := Quoted(Login(server)), Quoted(server.host);
    NoPrefix(Login(server));
    LineIsSpaced(OpenArgs(server));
    Spaced4(Bare("open"), Bare("-u"), Value("", Login(server)), Value("sftp://", server.host));
    OpenWords(login, host);
  }

  lemma OpenWords(login: string, host: string)
    ensures "open" + " " + "-u" + " " + login + " " + ("sftp://" + host) == "open -u " + login + " sftp://" + host
  {
    assert "open" + " " + "-u" + " " == "open -u ";
    assert " " + "sftp://" == " sftp://";
    Pair("open -u " + login, " ", "sftp://" + host);
    Pair(" ", "sftp://", host);
    Pair("open -u " + login, " sftp://", host);
  }

  lemma PgetTextIsLine(t: Transfer)
    ensures PgetText(t) + "\n" == Line(Pget(t))
  {
    var args := Pget(t);
    var n, remote, local := Decimal(AtLeastOne(t.segments)), Quoted(t.remote), Quoted(Local(t));
    NoPrefix(t.remote);
    NoPrefix(Local(t));
    LineIsSpaced(args);
    assert args[..6][..5] == args[..5] && args[..5][..4] == args[..4];
    assert args[..4] == [Bare("pget"), Bare("-n"), Bare(n), Bare("-c")];
    Spaced4(Bare("pget"), Bare("-n"), Bare(n), Bare("-c"));
    assert Spaced(args[..5]) == Spaced(args[..4]) + " " + remote;
    assert Spaced(args[..6]) == Spaced(args[..5]) + " " + "-o";
    PgetWords(n, remote, local);
  }

  lemma PgetWords(n: string, remote: string, local: string)
    ensures "pget" + " " + "-n" + " " + n + " " + "-c" + " " + remote + " " + "-o" + " " + local
            == "pget -n " + n + " -c " + remote + " -o " + local
  {
    assert "pget" + " " + "-n" + " " == "pget -n ";
    Middle("pget -n " + n, "-c", " -c ");
    Middle("pget -n " + n + " -c " + remote, "-o", " -o ");
  }

  lemma MirrorTextIsLine(t: Transfer)
    ensures MirrorText(t) + "\n" == Line(Mirror(t))
  {
    var args := Mirror(t);
    var p, n := Decimal(AtLeastOne(t.parallel)), Decimal(AtLeastOne(t.segments));
    NoPrefix(t.remote);
    NoPrefix(Local(t));
    LineIsSpaced(args);
    assert args[..5][..4] == args[..4];
    assert args[..4] == [Bare("mirror"), Bare("--continue"), Bare("--parallel=" + p), Bare("--use-pget-n=" + n)];
    Spaced4(Bare("mirror"), Bare("--continue"), Bare("--parallel=" + p), Bare("--use-pget-n=" + n));
    MirrorWords(p, n);
  }

  lemma MirrorWords(p: string, n: string)
    ensures "mirror" + " " + "--continue" + " " + ("--parallel=" + p) + " " + ("--use-pget-n=" + n)
            == "mirror --continue --parallel=" + p + " --use-pget-n=" + n
  {
    var head := "mirror" + " " + "--continue" + " ";
    MirrorLiteral();
    Pair(head, "--parallel=", p);
    var front := head + "--parallel=" + p;
    Pair(front + " ", "--use-pget-n=", n);
    Pair(front, " ", "--use-pget-n=");
    assert " " + "--use-pget-n=" == " --use-pget-n=";
  }

  lemma MirrorLiteral()
    ensures "mirror" + " " + "--continue" + " " + "--parallel=" == "mirror --continue --parallel="
  {
  }

  lemma {:induction false} AddLine(lines: seq<seq<Arg>>, line: seq<Arg>)
    requires line != [] && forall i :: 0 <= i < |lines| ==> lines[i] != []
    ensures Lines(lines + [line]) == Lines(lines) + Line(line)
    decreases |lines|
  {
    if lines == [] {
      assert [] + [line] == [line] && [line][1..] == [];
    } else {
      assert (lines + [line])[1..] == lines[1..] + [line];
      AddLine(lines[1..], line);
      Pair(Line(lines[0]), Lines(lines[1..]), Line(line));
    }
  }

  predicate NoneEmpty(lines: seq<seq<Arg>>) { forall i :: 0 <= i < |lines| ==> lines[i] != [] }

  lemma LinesOneMore(line: seq<Arg>, rest: seq<seq<Arg>>)
    requires line != [] && NoneEmpty(rest)
    ensures Lines([line] + rest) == Line(line) + Lines(rest)
  {
    assert ([line] + rest)[1..] == rest;
  }

  lemma {:induction false} LinesAppend(a: seq<seq<Arg>>, b: seq<seq<Arg>>)
    requires NoneEmpty(a) && NoneEmpty(b)
    ensures Lines(a + b) == Lines(a) + Lines(b)
    decreases |a|
  {
    if a == [] {
      assert a + b == b;
    } else {
      var rest := a[1..];
      assert a == [a[0]] + rest && a + b == [a[0]] + (rest + b);
      LinesOneMore(a[0], rest);
      LinesOneMore(a[0], rest + b);
      LinesAppend(rest, b);
      Pair(Line(a[0]), Lines(rest), Lines(b));
    }
  }

  lemma SettingsText()
    ensures SetText("cmd:fail-exit", "yes") + SetText("net:max-retries", "3") + SetText("net:timeout", "30")
            + SetText("xfer:use-temp-file", "yes") + SetText("xfer:clobber", "yes")
            + SetText("sftp:auto-confirm", "no") == Lines(Settings())
  {
    var lines := Settings();
    SetTextIsLine("cmd:fail-exit", "yes");
    SetTextIsLine("net:max-retries", "3");
    SetTextIsLine("net:timeout", "30");
    SetTextIsLine("xfer:use-temp-file", "yes");
    SetTextIsLine("xfer:clobber", "yes");
    SetTextIsLine("sftp:auto-confirm", "no");
    SixLines(lines[0], lines[1], lines[2], lines[3], lines[4], lines[5]);
  }

  lemma SixLines(a: seq<Arg>, b: seq<Arg>, c: seq<Arg>, d: seq<Arg>, e: seq<Arg>, f: seq<Arg>)
    requires a != [] && b != [] && c != [] && d != [] && e != [] && f != []
    ensures Lines([a, b, c, d, e, f]) == Line(a) + Line(b) + Line(c) + Line(d) + Line(e) + Line(f)
  {
    hide Line, Lines;
    FourLines(a, b, c, d);
    AddLine([a, b, c, d], e);
    AddLine([a, b, c, d] + [e], f);
    assert [a, b, c, d] + [e] + [f] == [a, b, c, d, e, f];
  }

  lemma FourLines(a: seq<Arg>, b: seq<Arg>, c: seq<Arg>, d: seq<Arg>)
    requires a != [] && b != [] && c != [] && d != []
    ensures Lines([a, b, c, d]) == Line(a) + Line(b) + Line(c) + Line(d)
  {
    hide Line;
    AddLine([], a);
    AddLine([a], b);
    AddLine([a] + [b], c);
    AddLine([a] + [b] + [c], d);
    assert [] + [a] == [a] && [a] + [b] + [c] + [d] == [a, b, c, d];
    assert "" + Line(a) == Line(a);
  }

  function TransferText(t: Transfer): string { if t.kind == "file" then PgetText(t) else MirrorText(t) }

  /** The buffer `cmds`. Read by lftp's rules, it is exactly the intended commands. */
  method WriteCommands(t: Transfer, program: string, transfer: string) returns (cmds: string)
    requires transfer == TransferText(t)
    ensures Commands(cmds) == Some(Intended(t, program))
  {
    cmds := SetText("cmd:fail-exit", "yes");
    cmds := cmds + SetText("net:max-retries", "3");
    cmds := cmds + SetText("net:timeout", "30");
    cmds := cmds + SetText("xfer:use-temp-file", "yes");
    cmds := cmds + SetText("xfer:clobber", "yes");
    cmds := cmds + SetText("sftp:auto-confirm", "no");
    SettingsText();
    ghost var head := cmds;
    cmds := cmds + ProgramText(program);
    cmds := cmds + OpenText(t.server);
    cmds := cmds + (transfer + "\n");
    cmds := cmds + "bye\n";
    ScriptText(t, program, head);
    ScriptIsIntended(t, program);
  }

  lemma TailText(t: Transfer, program: string)
    ensures ProgramText(program) + OpenText(t.server) + (TransferText(t) + "\n") + "bye\n" == Lines(JobLines(t, program))
  {
    ProgramTextIsLine(program);
    OpenTextIsLine(t.server);
    PgetTextIsLine(t);
    MirrorTextIsLine(t);
    assert "bye\n" == "bye" + "\n" == Line([Bare("bye")]);
    FourLines(Program(program), OpenArgs(t.server), TransferArgs(t), [Bare("bye")]);
  }

  lemma ScriptText(t: Transfer, program: string, head: string)
    requires head == Lines(Settings())
    ensures head + ProgramText(program) + OpenText(t.server) + (TransferText(t) + "\n") + "bye\n"
            == Lines(ScriptLines(t, program))
  {
    TailText(t, program);
    LinesAppend(Settings(), JobLines(t, program));
    Together(head, ProgramText(program), OpenText(t.server), TransferText(t) + "\n", "bye\n");
  }

  lemma Together(h: string, p: string, o: string, x: string, b: string)
    ensures h + p + o + x + b == h + (p + o + x + b)
  {
  }

  /** The numbers on the transfer's command line: at least one of each, and otherwise what
      the settings ask for. */
  lemma TransferNumbersAreRead(t: Transfer)
    ensures var c := TransferCommand(t); var pget, parallel := |"--use-pget-n="|, |"--parallel="|;
            if t.kind == "file" then NumberOf(c[2]) == Max(1, t.segments)
            else NumberOf(c[2][parallel..]) == Max(1, t.parallel) && NumberOf(c[3][pget..]) == Max(1, t.segments)
  {
    hide NumberOf, Decimal;
    NumberOfDecimal(AtLeastOne(t.segments));
    NumberOfDecimal(AtLeastOne(t.parallel));
    var n, p := Decimal(AtLeastOne(t.segments)), Decimal(AtLeastOne(t.parallel));
    assert ("--use-pget-n=" + n)[|"--use-pget-n="|..] == n && ("--parallel=" + p)[|"--parallel="|..] == p;
  }

  // ------------------------------------------------------------ known hosts

  function KnownHostsLine(host: string, port: int, key: string): string {
    (if port != 22 then "[" + host + "]:" + Decimal(port) else host) + " " + CheckPath.TrimSpace(key) + "\n"
  }

  /** A name that stands for itself in a known_hosts file. */
  predicate PlainHost(host: string) {
    host != "" && forall i :: 0 <= i < |host| ==> host[i] !in " \t,*?![]|@#"
  }

  datatype Known = Known(host: string, port: int, key: string)

  /** The first field, by sshd(8): [host]:port, or a host on port 22. */
  function ReadHost(field: string): Option<(string, int)> {
    if field == "" || field[0] != '[' then Some((field, 22))
    else
      var i := Find(field, ']');
      if i + 1 < |field| && field[i + 1] == ':' then Some((field[1..i], NumberOf(field[i + 2..]))) else None
  }

  /** A line that names one host, and the key on it. */
  function ReadKnown(line: string): Option<Known> {
    var i := Find(line, ' ');
    if i == |line| then None
    else match ReadHost(line[..i])
      case None => None
      case Some((host, port)) =>
        var rest := line[i + 1..];
        if PlainHost(host) then Some(Known(host, port, rest[..Find(rest, '\n')])) else None
  }

  function HostField(host: string, port: int): string {
    if port != 22 then "[" + host + "]:" + Decimal(port) else host
  }

  lemma HostFieldIsRead(host: string, port: int)
    requires PlainHost(host)
    ensures ReadHost(HostField(host, port)) == Some((host, port)) && ' ' !in HostField(host, port)
  {
    PlainHasNone(host);
    if port != 22 { BracketedIsRead(host, port); } else { assert host[0] in host; }
  }

  lemma PlainHasNone(host: string)
    requires PlainHost(host)
    ensures ' ' !in host && ']' !in host && '[' !in host
  {
    assert forall i :: 0 <= i < |host| ==> host[i] != ' ' && host[i] != ']' && host[i] != '[';
  }

  lemma BracketedIsRead(host: string, port: int)
    requires ' ' !in host && ']' !in host
    ensures var field := "[" + host + "]:" + Decimal(port);
            ReadHost(field) == Some((host, port)) && ' ' !in field
  {
    hide Decimal, NumberOf;
    var d, front := Decimal(port), "[" + host;
    var field := "[" + host + "]:" + d;
    NumberOfDecimal(port);
    assert forall i :: 0 <= i < |d| ==> d[i] != ' ';
    assert field == front + [']'] + (":" + d);
    FindAt(front, ']', ":" + d);
    assert field[1..|front|] == host && field[|front| + 2..] == d;
  }

  lemma OwnLine(field: string, key: string)
    requires ' ' !in field && '\n' !in key
    ensures var line := field + " " + key + "\n"; var rest := key + "\n";
            && Find(line, ' ') == |field| && line[..|field|] == field && line[|field| + 1..] == rest
            && rest[..Find(rest, '\n')] == key
  {
    var line := field + " " + key + "\n";
    assert line == field + [' '] + (key + "\n");
    FindAt(field, ' ', key + "\n");
    assert line[|field| + 1..] == key + "\n";
    assert key + "\n" == key + ['\n'] + "";
    FindAt(key, '\n', "");
  }

  /** The line names the server's host, its port, and its key, exactly when the host stands
      for itself and the key is one line. */
  lemma KnownHostIsRead(host: string, port: int, key: string)
    ensures ReadKnown(KnownHostsLine(host, port, key)) == Some(Known(host, port, CheckPath.TrimSpace(key))) <==>
            PlainHost(host) && '\n' !in CheckPath.TrimSpace(key)
  {
    hide PlainHost, ReadKnown, HostField;
    var k := CheckPath.TrimSpace(key);
    ReadNamesOneHost(KnownHostsLine(host, port, key));
    if PlainHost(host) && '\n' !in k { OwnLineIsRead(host, port, k); }
    FieldFirst(host, port, key);
  }

  lemma FieldFirst(host: string, port: int, key: string)
    ensures KnownHostsLine(host, port, key) == HostField(host, port) + " " + CheckPath.TrimSpace(key) + "\n"
  {
  }

  lemma OwnLineIsRead(host: string, port: int, k: string)
    requires PlainHost(host) && '\n' !in k
    ensures ReadKnown(HostField(host, port) + " " + k + "\n") == Some(Known(host, port, k))
  {
    hide PlainHost, ReadHost, HostField;
    HostFieldIsRead(host, port);
    OwnLine(HostField(host, port), k);
  }

  /** What is read never holds a special character or a line break. */
  lemma ReadNamesOneHost(line: string)
    ensures ReadKnown(line).Some? ==> PlainHost(ReadKnown(line).value.host) && '\n' !in ReadKnown(line).value.key
  {
    hide PlainHost, ReadHost;
  }

  // ------------------------------------------------------------ render

  /** The credential goes into a file of its own. `key` is the decrypted private key,
      None if it cannot be had. */
  function Credential(server: Server, tools: Tools, key: Option<string>): Result<GenFile, RenderError> {
    if server.auth == "key" then
      (if key.None? then Err(BadKey) else Ok(GenFile("key", Private, Pem.Normalised(key.value))))
    else if server.auth == "password" then
      (if tools.sshpass == "" then Err(NoSshPass) else Ok(GenFile("pass", Private, server.password + "\n")))
    else Err(UnknownAuth(server.auth))
  }

  /** A file of the job's own, for its owner alone. A private key is written with its lines
      normalised; a password is the first line of its file. */
  predicate Holds(file: GenFile, server: Server, key: Option<string>) {
    && file.mode == Private
    && (server.auth == "key" ==> key.Some? && file.name == "key" && file.body == Pem.Normalised(key.value))
    && (server.auth == "password" ==> file.name == "pass" && file.body == server.password + "\n")
  }

  /** sshpass takes the first line: the password, unless there is a line break in it. */
  lemma PasswordIsRead(password: string)
    ensures var body := password + "\n"; body[..Find(body, '\n')] == password <==> '\n' !in password
  {
    var body := password + "\n";
    if '\n' !in password {
      assert body == password + ['\n'] + "";
      FindAt(password, '\n', "");
    } else {
      var i :| 0 <= i < |password| && password[i] == '\n';
      assert body[i] == '\n';
    }
  }

  /** Everything that is needed is there. */
  predicate Renderable(t: Transfer, tools: Tools, key: Option<string>) {
    && tools.lftp != "" && CheckPath.TrimSpace(t.server.hostKey) != ""
    && ((t.server.auth == "key" && key.Some?) || (t.server.auth == "password" && tools.sshpass != ""))
    && (t.kind == "file" || t.kind == "dir")
  }

  predicate KnownKind(kind: string) { kind == "file" || kind == "dir" }

  /** Why a workspace cannot be rendered; the first reason counts. */
  function Refusal(t: Transfer, tools: Tools, key: Option<string>): Option<RenderError> {
    if tools.lftp == "" then Some(NoLftp)
    else if CheckPath.TrimSpace(t.server.hostKey) == "" then Some(NoHostKey)
    else match Credential(t.server, tools, key)
      case Err(e) => Some(e)
      case Ok(_) => if KnownKind(t.kind) then None else Some(UnknownKind(t.kind))
  }

  lemma RefusedUnlessRenderable(t: Transfer, tools: Tools, key: Option<string>)
    ensures Refusal(t, tools, key) == None <==> Renderable(t, tools, key)
    ensures var c := Credential(t.server, tools, key); c.Ok? ==> Holds(c.value, t.server, key)
  {
  }

  /** The key that ssh is to use, or the password file that sshpass is to read, is the file
      that is written. */
  lemma CredentialIsUsed(server: Server, dir: string, sshpass: string, file: GenFile, key: Option<string>)
    requires Holds(file, server, key)
    ensures server.auth == "key" ==>
              var r := ReadOptions(Options(server, dir)); r.Some? && r.value.keys == [JoinPath(dir, file.name)]
    ensures server.auth == "password" ==>
              ConnectWords(server, dir, sshpass)[..4] == [sshpass, "-f", JoinPath(dir, file.name), "ssh"]
  {
    hide ReadOptions, Options;
    OptionsAreRead(server, dir);
  }

  method TransferLine(t: Transfer) returns (r: Result<string, RenderError>)
    ensures KnownKind(t.kind) ==> r == Ok(TransferText(t))
    ensures !KnownKind(t.kind) ==> r == Err(UnknownKind(t.kind))
  {
    if t.kind == "file" {
      return Ok(PgetText(t));
    } else if t.kind == "dir" {
      return Ok(MirrorText(t));
    }
    return Err(UnknownKind(t.kind));
  }

  /** The files: every credential is private, lftp's commands and the runner's are read as
      intended, and the runner is the only executable. */
  predicate WellMade(files: seq<GenFile>, t: Transfer, stage: string, dir: string, tools: Tools, credential: GenFile) {
    && |files| == 4 && files[0].mode == Private
    && (PlainHost(t.server.host) && '\n' !in CheckPath.TrimSpace(t.server.hostKey) ==>
          ReadKnown(files[0].body) == Some(Known(
            t.server.host, if t.server.port == 0 then 22 else t.server.port, CheckPath.TrimSpace(t.server.hostKey))))
    && files[0] == GenFile("known_hosts", Private, KnownHostsLine(t.server.host, Port(t.server), t.server.hostKey))
    && files[1] == credential
    && files[2].name == "cmds" && files[2].mode == Private
    && Commands(files[2].body) == Some(Intended(t, ConnectText(t.server, dir, tools.sshpass)))
    && files[3].name == "run.sh" && files[3].mode == PrivateExecutable
    && ShellReader.Tokens(files[3].body) == Some(RunnerTokens(stage, dir, tools.lftp))
  }

  method WriteFiles(t: Transfer, stage: string, dir: string, tools: Tools, credential: GenFile, transfer: string)
    returns (files: seq<GenFile>)
    requires transfer == TransferText(t)
    ensures WellMade(files, t, stage, dir, tools, credential)
    ensures |files| == 4 && files[1] == credential
  {
    hide RunnerTokens, Runner, Intended, Commands, KnownHostsLine, ConnectText, TransferText, ReadKnown, PlainHost;
    KnownHostIsRead(t.server.host, Port(t.server), t.server.hostKey);
    var knownHosts := KnownHostsLine(t.server.host, Port(t.server), t.server.hostKey);
    var cmds := WriteCommands(t, ConnectText(t.server, dir, tools.sshpass), transfer);
    var run := Runner(stage, dir, tools.lftp);
    RunnerIsIntended(stage, dir, tools.lftp);
    files := [GenFile("known_hosts", Private, knownHosts), credential, GenFile("cmds", Private, cmds),
              GenFile("run.sh", PrivateExecutable, run)];
  }

  /** The refusals, in the source's order, and what is left of them: the credential's file
      and the line of the transfer. */
  method Prepare(t: Transfer, tools: Tools, key: Option<string>) returns (r: Result<(GenFile, string), RenderError>)
    ensures r.Err? ==> Refusal(t, tools, key) == Some(r.error)
    ensures r.Ok? ==> Refusal(t, tools, key) == None && Credential(t.server, tools, key) == Ok(r.value.0)
                      && r.value.1 == TransferText(t)
  {
    if tools.lftp == "" { return Err(NoLftp); }
    if CheckPath.TrimSpace(t.server.hostKey) == "" { return Err(NoHostKey); }
    var credential := Credential(t.server, tools, key);
    if credential.Err? { return Err(credential.error); }
    var transfer := TransferLine(t);
    if transfer.Err? { return Err(transfer.error); }
    return Ok((credential.value, transfer.value));
  }

  method Render(t: Transfer, stage: string, dir: string, tools: Tools, key: Option<string>)
    returns (r: Result<Workspace, RenderError>)
    ensures r.Err? ==> Refusal(t, tools, key) == Some(r.error)
    ensures r.Ok? ==> Refusal(t, tools, key) == None && r.value.cmd == Launch(stage)
    ensures r.Ok? <==> Renderable(t, tools, key)
    ensures r.Ok? ==> Credential(t.server, tools, key).Ok? &&
                      WellMade(r.value.files, t, stage, dir, tools, Credential(t.server, tools, key).value)
    ensures r.Ok? ==> |r.value.files| == 4 && Holds(r.value.files[1], t.server, key)
  {
    hide TransferText, Launch, WellMade, Holds, Renderable, Refusal, Credential;
    RefusedUnlessRenderable(t, tools, key);
    var ready := Prepare(t, tools, key);
    if ready.Err? { return Err(ready.error); }
    var files := WriteFiles(t, stage, dir, tools, ready.value.0, ready.value.1);
    return Ok(Workspace(files, Launch(stage)));
  }
}
