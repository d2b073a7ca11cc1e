/** The paths of one transfer, from the request to the commands on the NAS: createJobs,
    Validate, ShellPath, render and pollDest taken together. */
module TransferPaths {
  import opened Common
  import opened Text
  import opened Paths
  import opened CheckPath
  import opened Confinement
  import opened RelativePaths
  import opened Workspace
  import opened Render

  /** The argument of pget or mirror that says where to write. */
  function WrittenTo(commands: seq<seq<string>>): string
    requires |commands| == 10 && commands[8] != []
  {
    commands[8][|commands[8]| - 1]
  }

  /** The transfer as it is handed to render: the destination is the shell's path. */
  function HandedOver(order: Order, prefixOf: string -> string, segments: int, parallel: int, server: Server): Transfer {
    Transfer(if order.isDir then "dir" else "file", order.remote, Shell(prefixOf, order.dest), segments, parallel, server)
  }

  /** For every accepted request, every batch and every fixed choice of share prefixes: the
      last argument of lftp's transfer command is the prefixed path of a direct child of the
      validated destination, inside an allowed root, and the path whose size is polled is
      that same child. The one exception is the destination "/", where the share of the
      child has a prefix of its own. */
  lemma LftpWritesTheConfinedChild(
      nfc: Nfc, requested: string, setting: string, resolve: Resolver, items: seq<Item>, i: nat,
      prefixOf: string -> string, segments: int, parallel: int, server: Server, program: string)
    requires Validated(nfc, requested, setting, resolve).Ok?
    requires i < |Orders(items, Validated(nfc, requested, setting, resolve).value)|
    requires forall s :: PrefixOk(prefixOf(s))
    ensures var dest := Validated(nfc, requested, setting, resolve).value;
            var order := Orders(items, dest)[i];
            var polled := Target(order.dest, order.remote);
            var written := WrittenTo(Intended(HandedOver(order, prefixOf, segments, parallel, server), program));
            && DirectChild(polled, dest)
            && InsideSome(polled, CleanRoots(nfc, RootsIn(setting)))
            && (written == Shell(prefixOf, polled) <==> dest != "/" || prefixOf(Base(order.remote)) == "")
  {
    var dest := Validated(nfc, requested, setting, resolve).value;
    var order := Orders(items, dest)[i];
    BatchIsConfined(nfc, requested, setting, resolve, items, i);
    ValidatedIsConfined(nfc, requested, setting, resolve);
    OrderAt(items, dest, i);
    WrittenToIsPolled(order, prefixOf, segments, parallel, server, program);
  }

  lemma WrittenToIsPolled(
      order: Order, prefixOf: string -> string, segments: int, parallel: int, server: Server, program: string)
    requires CleanAbs(order.dest) && CleanAbs(order.remote) && order.remote != "/"
    requires forall s :: PrefixOk(prefixOf(s))
    ensures var written := WrittenTo(Intended(HandedOver(order, prefixOf, segments, parallel, server), program));
            written == Shell(prefixOf, Target(order.dest, order.remote)) <==>
            order.dest != "/" || prefixOf(Base(order.remote)) == ""
  {
    WrittenIsPolled(prefixOf, order.dest, order.remote);
    WrittenToIsLocal(HandedOver(order, prefixOf, segments, parallel, server), program);
  }

  lemma WrittenToIsLocal(t: Transfer, program: string)
    ensures WrittenTo(Intended(t, program)) == Target(t.dest, t.remote)
  {
  }

  predicate EndsWith(segs: seq<string>, name: string) { segs != [] && segs[|segs| - 1] == name }

  lemma WorkspaceDirIsClean(tmp: string, id: int)
    requires TrimSpace(tmp) == "" || tmp[0] == '/'
    ensures CleanAbs(WorkspaceDir(tmp, id)) && WorkspaceDir(tmp, id) != "/"
    ensures EndsWith(Segs(WorkspaceDir(tmp, id)), "job-" + Decimal(id))
  {
    var base := if TrimSpace(tmp) == "" then "/tmp" else tmp;
    var name := "job-" + Decimal(id);
    var p := base + "/" + name;
    assert base[0] == '/' && p[0] == '/';
    NumberedIsProper("job-", id);
    CleanIsCleanAbs(p);
    SplitAppend(base, name);
    SplitNone(name);
    ResolveAppend([], Split(base), [name], true);
    var front := Resolve([], Split(base), true);
    assert [name][1..] == [];
    assert Resolve(front, [name], true) == front + [name];
    assert Segs("/") == [];
  }

  /** A relative setting gives a clean relative directory. */
  lemma WorkspaceDirIsRelative(tmp: string, id: int)
    requires TrimSpace(tmp) != "" && tmp[0] != '/'
    ensures CleanRelative(WorkspaceDir(tmp, id))
    ensures EndsWith(Split(WorkspaceDir(tmp, id)), "job-" + Decimal(id))
  {
    var name := "job-" + Decimal(id);
    var p := tmp + "/" + name;
    assert p[0] == tmp[0];
    NumberedIsProper("job-", id);
    SplitAppend(tmp, name);
    SplitNone(name);
    JoinSplit(tmp);
    ResolveAppend([], Split(tmp), [name], false);
    var front := Resolve([], Split(tmp), false);
    ResolveIsUpward([], Split(tmp));
    UpwardSnoc(front, name);
    assert [name][1..] == [];
    assert Resolve(front, [name], false) == front + [name];
    JoinedRelative(front + [name]);
  }

  lemma NumberedDiffer(prefix: string, m: int, n: int)
    requires m != n
    ensures prefix + Decimal(m) != prefix + Decimal(n)
  {
    DecimalsDiffer(m, n);
    assert (prefix + Decimal(m))[|prefix|..] == Decimal(m) && (prefix + Decimal(n))[|prefix|..] == Decimal(n);
  }

  predicate Rooted(tmp: string) { TrimSpace(tmp) == "" || tmp[0] == '/' }

  /** Two jobs never share a staging directory or a runtime directory, whatever the setting
      was when each of them started. */
  lemma JobsHaveTheirOwn(tmp: string, m: int, other: string, n: int)
    requires m != n
    ensures WorkspaceDir(tmp, m) != WorkspaceDir(other, n) && RuntimeDir(m) != RuntimeDir(n)
  {
    hide WorkspaceDir, Decimal;
    NumberedDiffer("job-", m, n);
    RuntimeDirIsClean(m);
    RuntimeDirIsClean(n);
    NumberedDiffer("sftp-relay-job-", m, n);
    if Rooted(tmp) { WorkspaceDirIsClean(tmp, m); } else { WorkspaceDirIsRelative(tmp, m); }
    if Rooted(other) { WorkspaceDirIsClean(other, n); } else { WorkspaceDirIsRelative(other, n); }
  }

  lemma RelativeShare(p: string)
    requires CleanRelative(p)
    ensures Share(p) == Split(p)[0] && Share(p) != ""
  {
    CleanFixesRelative(p);
  }

  lemma RelativeRunner(dir: string, name: string, prefixOf: string -> string)
    requires CleanRelative(dir) && Proper(name)
    requires forall s :: PrefixOk(prefixOf(s))
    ensures JoinPath(Shell(prefixOf, dir), name) == Shell(prefixOf, JoinPath(dir, name)) <==>
            prefixOf(Share(dir)) == "" || !ClimbsTwice(dir)
  {
    RelativeChild(dir, name);
    RelativeShare(dir);
    RelativeShare(dir + "/" + name);
    GluedChild(prefixOf(Share(dir)), dir, name);
  }

  lemma GluedChild(prefix: string, dir: string, name: string)
    requires CleanRelative(dir) && Proper(name) && PrefixOk(prefix)
    ensures JoinPath(prefix + dir, name) == prefix + (dir + "/" + name) <==> prefix == "" || !ClimbsTwice(dir)
  {
    RelativeChild(dir, name);
    var there := prefix + (dir + "/" + name);
    if prefix == "" {
      assert prefix + dir == dir && there == dir + "/" + name;
    } else {
      ThreeParts(prefix, dir, name);
      GluedIsClean(prefix, dir + "/" + name);
      CleanOrNot(there);
      OneDeeper(dir, name);
    }
  }

  lemma ThreeParts(prefix: string, dir: string, name: string)
    ensures prefix + dir + "/" + name == prefix + (dir + "/" + name)
  {
  }

  lemma OneDeeper(dir: string, name: string)
    requires CleanRelative(dir) && Proper(name)
    ensures ClimbsTwice(dir + "/" + name) <==> ClimbsTwice(dir)
  {
    RelativeChild(dir, name);
  }

  /** The runner that the launch command starts is the file that was uploaded: the two
      names are the same place, once over SFTP and once for the shell. For every setting of
      the staging area; the one exception is a relative setting that leaves two levels and
      whose share, "..", has been given a prefix. */
  lemma RunnerIsUploaded(tmp: string, id: int, prefixOf: string -> string)
    requires forall s :: PrefixOk(prefixOf(s))
    ensures var dir := WorkspaceDir(tmp, id);
            JoinPath(Shell(prefixOf, dir), "run.sh") == Shell(prefixOf, JoinPath(dir, "run.sh")) <==>
            prefixOf(Share(dir)) == "" || !ClimbsTwice(dir)
  {
    var dir := WorkspaceDir(tmp, id);
    assert '/' !in "run.sh";
    if TrimSpace(tmp) == "" || tmp[0] == '/' {
      WorkspaceDirIsClean(tmp, id);
      SharedChild(prefixOf, dir, "run.sh");
      AbsoluteNeverClimbs(dir);
    } else {
      WorkspaceDirIsRelative(tmp, id);
      RelativeRunner(dir, "run.sh", prefixOf);
    }
  }

  lemma SharedChild(prefixOf: string -> string, dir: string, name: string)
    requires CleanAbs(dir) && dir != "/" && Proper(name)
    requires forall s :: PrefixOk(prefixOf(s))
    ensures JoinPath(Shell(prefixOf, dir), name) == Shell(prefixOf, JoinPath(dir, name))
  {
    var remote := Abs([name]);
    SegsAbs([name]);
    assert remote != "/";
    BaseIsLast(remote);
    WrittenIsPolled(prefixOf, dir, remote);
  }

  // ------------------------------------------------------------ the two exceptions

  function Unchanged(): string -> string { s => s }

  function EverythingExists(): Resolver { (n, p) => Some(p) }

  function OnVolume1(): string -> string { share => Volume("1") }

  lemma OnVolume1Ok()
    ensures forall s :: PrefixOk(OnVolume1()(s))
    ensures forall s :: OnVolume1()(s) != ""
  {
    assert '/' !in "1";
    VolumeOk("1");
  }

  lemma RootIsNormal()
    ensures Normalise(Unchanged(), "/") == Ok("/") && CleanAbs("/")
  {
    assert TrimLeft("/") == "/" && TrimRight("/") == "/" && TrimSpace("/") == "/";
    CleanFixes("/");
    assert '\0' !in "/";
  }

  lemma RootRootIsUsable()
    ensures RootsIn("/") == ["/"] && CleanRoots(Unchanged(), ["/"]) == ["/"] && InsideSome("/", ["/"])
  {
    RootIsNormal();
    assert !IsSeparator('/') && FirstSeparator("/") == 1;
    assert "/"[..1] == "/";
    assert TrimSpace("/") == "/";
    assert ["/"][1..] == [];
    assert ["/"][0] == "/" && Inside("/", ["/"][0]);
  }

  lemma RootIsValid()
    ensures Validated(Unchanged(), "/", "/", EverythingExists()) == Ok("/")
  {
    RootIsNormal();
    RootRootIsUsable();
    assert Check(Unchanged(), "/", ["/"], None) == Ok("/");
    assert Accept(Unchanged(), ["/"], "/") == Ok("/");
  }

  lemma SlashA()
    ensures CleanAbs("/a") && "/a" != "/"
  {
    assert '/' !in "a" && Proper("a");
    SegsAbs(["a"]);
    assert Abs(["a"]) == "/a";
  }

  /** A validated destination at the root: a share that the shell sees on a volume is written
      beside the file that is polled. */
  lemma RootDestinationIsWrittenElsewhere()
    ensures Validated(Unchanged(), "/", "/", EverythingExists()) == Ok("/")
    ensures forall s :: PrefixOk(OnVolume1()(s))
    ensures Target(Shell(OnVolume1(), "/"), "/a") != Shell(OnVolume1(), Target("/", "/a"))
  {
    RootIsValid();
    RootIsNormal();
    SlashA();
    OnVolume1Ok();
    WrittenIsPolled(OnVolume1(), "/", "/a");
  }

  /** A relative setting that leaves two levels: the launched runner is not the uploaded one. */
  lemma ClimbingSettingMovesTheRunner(id: int)
    ensures var dir := WorkspaceDir("../..", id);
            JoinPath(Shell(OnVolume1(), dir), "run.sh") != Shell(OnVolume1(), JoinPath(dir, "run.sh"))
  {
    OnVolume1Ok();
    ClimbingDir(id);
    RunnerIsUploaded("../..", id, OnVolume1());
  }

  lemma ClimbingDir(id: int)
    ensures ClimbsTwice(WorkspaceDir("../..", id))
  {
    var name := "job-" + Decimal(id);
    var segs := ["..", "..", name];
    NumberedIsProper("job-", id);
    TwoUp(name);
    assert '/' !in "..";
    assert NoSlashes(segs);
    SplitJoin(segs);
    assert TrimLeft("../..") == "../..";
    TrimRightFits("../..");
    assert TrimSpace("../..") != "";
  }

  lemma TwoDots()
    ensures Split("../..") == ["..", ".."]
  {
    assert '/' !in "..";
    SplitNone("..");
    SplitFirst("..", "..");
    assert ".." + "/" + ".." == "../..";
  }

  lemma TwoUpIsUpward(name: string)
    requires Proper(name)
    ensures Upward(["..", "..", name])
  {
    var segs := ["..", "..", name];
    assert UpwardAt(segs, 0) && UpwardAt(segs, 1) && UpwardAt(segs, 2);
  }

  lemma TwoUp(name: string)
    requires Proper(name)
    ensures JoinPath("../..", name) == Join(["..", "..", name])
  {
    hide Split, Join, Upward, Resolve;
    TwoDots();
    SplitAppend("../..", name);
    SplitNone(name);
    var segs := ["..", "..", name];
    assert ["..", ".."] + [name] == segs && [] + segs == segs;
    TwoUpIsUpward(name);
    ResolveKeepsUpward([], segs);
  }
}
