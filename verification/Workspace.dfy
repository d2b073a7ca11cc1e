/** The workspace of a transfer job, rendered as text (render of internal/nas/lftp.go):
    what lftp, ssh and the shell on the NAS make of it. */
module Workspace {
  import opened Common
  import opened Text
  import opened Paths
  import CheckPath

  datatype Server = Server(
    host: string, port: int, username: string, auth: string, password: string, hostKey: string)

  datatype Transfer = Transfer(
    kind: string, remote: string, dest: string, segments: int, parallel: int, server: Server)

  /** The absolute paths found by the startup probes; "" if not found. */
  datatype Tools = Tools(lftp: string, sshpass: string)

  /** 0600 and 0700. */
  datatype Mode = Private | PrivateExecutable

  datatype GenFile = GenFile(name: string, mode: Mode, body: string)

  datatype Workspace = Workspace(files: seq<GenFile>, cmd: string)

  datatype RenderError =
    | NoLftp | NoHostKey | BadKey | NoSshPass | UnknownAuth(auth: string) | UnknownKind(kind: string)

  function AtLeastOne(n: int): int { if n < 1 then 1 else n }

  function Port(server: Server): int { if server.port == 0 then 22 else server.port }

  // ------------------------------------------------------------ the ssh command line

  /** The options ssh is to see. */
  function Options(server: Server, dir: string): seq<string> {
    ["-a", "-x",
     "-o", "StrictHostKeyChecking=yes",
     "-o", "UserKnownHostsFile=" + JoinPath(dir, "known_hosts"),
     "-o", "BatchMode=yes",
     "-p", Decimal(Port(server))]
    + if server.auth == "key" then ["-i", JoinPath(dir, "key"), "-o", "IdentitiesOnly=yes"] else []
  }

  /** What ssh makes of its options: -a and -x stand alone; -p, -o and -i take the next word. */
  datatype Ssh = Ssh(ports: seq<int>, settings: seq<string>, keys: seq<string>)

  function ReadOptions(words: seq<string>): Option<Ssh> {
    if words == [] then Some(Ssh([], [], []))
    else if words[0] == "-a" || words[0] == "-x" then ReadOptions(words[1..])
    else if |words| == 1 then None
    else match ReadOptions(words[2..])
      case None => None
      case Some(r) => ReadPair(words[0], words[1], r)
  }

  function ReadPair(flag: string, value: string, r: Ssh): Option<Ssh> {
    if flag == "-p" then Some(r.(ports := [NumberOf(value)] + r.ports))
    else if flag == "-o" then Some(r.(settings := [value] + r.settings))
    else if flag == "-i" then Some(r.(keys := [value] + r.keys))
    else None
  }

  lemma PairIsRead(flag: string, value: string, rest: seq<string>)
    requires flag != "-a" && flag != "-x" && ReadOptions(rest).Some?
    ensures ReadOptions([flag, value] + rest) == ReadPair(flag, value, ReadOptions(rest).value)
  {
    assert ([flag, value] + rest)[2..] == rest;
  }

  lemma AloneIsRead(flag: string, rest: seq<string>)
    requires flag == "-a" || flag == "-x"
    ensures ReadOptions([flag] + rest) == ReadOptions(rest)
  {
    assert ([flag] + rest)[1..] == rest;
  }

  lemma KeyIsRead(key: string)
    ensures ReadOptions(["-i", key, "-o", "IdentitiesOnly=yes"]) == Some(Ssh([], ["IdentitiesOnly=yes"], [key]))
  {
    hide ReadOptions;
    NothingIsRead();
    PairIsRead("-o", "IdentitiesOnly=yes", []);
    assert ["-o", "IdentitiesOnly=yes"] + [] == ["-o", "IdentitiesOnly=yes"];
    PairIsRead("-i", key, ["-o", "IdentitiesOnly=yes"]);
    assert ["-i", key] + ["-o", "IdentitiesOnly=yes"] == ["-i", key, "-o", "IdentitiesOnly=yes"];
    assert ["IdentitiesOnly=yes"] + [] == ["IdentitiesOnly=yes"] && [key] + [] == [key];
  }

  lemma NothingIsRead()
    ensures ReadOptions([]) == Some(Ssh([], [], []))
  {
  }

  /** ssh is told the server's port, or 22 if it is 0; to check the host key against the
      job's own file and never to ask; and, with a key, to use the job's own key alone. */
  lemma OptionsAreRead(server: Server, dir: string)
    ensures var key := server.auth == "key";
            ReadOptions(Options(server, dir)) == Some(Ssh(
              [if server.port == 0 then 22 else server.port],
              ["StrictHostKeyChecking=yes", "UserKnownHostsFile=" + JoinPath(dir, "known_hosts"), "BatchMode=yes"]
              + if key then ["IdentitiesOnly=yes"] else [],
              if key then [JoinPath(dir, "key")] else []))
  {
    hide ReadOptions, Pairs;
    var known, port := "UserKnownHostsFile=" + JoinPath(dir, "known_hosts"), Decimal(Port(server));
    var last := if server.auth == "key" then ["-i", JoinPath(dir, "key"), "-o", "IdentitiesOnly=yes"] else [];
    NothingIsRead();
    KeyIsRead(JoinPath(dir, "key"));
    NumberOfDecimal(Port(server));
    FixedIsRead(known, port, last);
    InPairs(known, port, last);
    assert Options(server, dir) == ["-a", "-x", "-o", "StrictHostKeyChecking=yes", "-o", known, "-o", "BatchMode=yes",
                                    "-p", port] + last;
  }

  function Pairs(known: string, port: string, last: seq<string>): seq<string> {
    ["-o", "StrictHostKeyChecking=yes"] + (["-o", known] + (["-o", "BatchMode=yes"] + (["-p", port] + last)))
  }

  lemma InPairs(known: string, port: string, last: seq<string>)
    ensures ["-a"] + (["-x"] + Pairs(known, port, last)) ==
            ["-a", "-x", "-o", "StrictHostKeyChecking=yes", "-o", known, "-o", "BatchMode=yes", "-p", port] + last
  {
  }

  lemma FixedIsRead(known: string, port: string, last: seq<string>)
    requires ReadOptions(last).Some? && ReadOptions(last).value.ports == []
    ensures var r := ReadOptions(last).value;
            ReadOptions(["-a"] + (["-x"] + Pairs(known, port, last))) ==
            Some(Ssh([NumberOf(port)], ["StrictHostKeyChecking=yes", known, "BatchMode=yes"] + r.settings, r.keys))
  {
    hide ReadOptions, NumberOf;
    var withPort := ["-p", port] + last;
    var withBatch := ["-o", "BatchMode=yes"] + withPort;
    var withKnown := ["-o", known] + withBatch;
    var r := ReadOptions(last).value;
    PairIsRead("-p", port, last);
    PairIsRead("-o", "BatchMode=yes", withPort);
    PairIsRead("-o", known, withBatch);
    PairIsRead("-o", "StrictHostKeyChecking=yes", withKnown);
    AloneIsRead("-x", ["-o", "StrictHostKeyChecking=yes"] + withKnown);
    AloneIsRead("-a", ["-x"] + (["-o", "StrictHostKeyChecking=yes"] + withKnown));
    assert [NumberOf(port)] + [] == [NumberOf(port)];
    assert ["StrictHostKeyChecking=yes"] + ([known] + (["BatchMode=yes"] + r.settings))
        == ["StrictHostKeyChecking=yes", known, "BatchMode=yes"] + r.settings;
  }

  /** The whole argument list of the connect program. */
  function ConnectWords(server: Server, dir: string, sshpass: string): seq<string> {
    (if server.auth == "password" then [sshpass, "-f", JoinPath(dir, "pass"), "ssh"] else ["ssh"])
    + Options(server, dir)
  }

  function Blanked(words: seq<string>): string {
    if words == [] then ""
    else if |words| == 1 then words[0]
    else words[0] + " " + Blanked(words[1..])
  }

  /** The text the script carries: connect + " " + strings.Join(sshOpts, " "). */
  function ConnectText(server: Server, dir: string, sshpass: string): string {
    (if server.auth == "password" then sshpass + " -f " + JoinPath(dir, "pass") + " ssh" else "ssh")
    + " " + Blanked(Options(server, dir))
  }

  /** Splitting at blanks, empty pieces dropped. */
  function SplitBlanks(s: string): seq<string>
    decreases |s|
  {
    if s == "" then []
    else
      var i := Find(s, ' ');
      var rest := if i == |s| then "" else s[i + 1..];
      if i == 0 then SplitBlanks(rest) else [s[..i]] + SplitBlanks(rest)
  }

  predicate BlankFree(w: string) { w != "" && ' ' !in w }

  lemma {:induction false} SplitBlanksGivesBlankFree(s: string)
    ensures forall i :: 0 <= i < |SplitBlanks(s)| ==> BlankFree(SplitBlanks(s)[i])
    decreases |s|
  {
    if s != "" {
      var i := Find(s, ' ');
      SplitBlanksGivesBlankFree(if i == |s| then "" else s[i + 1..]);
    }
  }

  lemma {:induction false} SplitBlanksUndoesBlanked(words: seq<string>)
    requires forall i :: 0 <= i < |words| ==> BlankFree(words[i])
    ensures SplitBlanks(Blanked(words)) == words
    decreases |words|
  {
    if |words| == 1 {
      var w := words[0];
      assert forall k :: 0 <= k < |w| ==> w[k] in w;
      assert Find(w, ' ') == |w| && w[..|w|] == w;
      assert SplitBlanks("") == [] && SplitBlanks(w) == [w] + SplitBlanks("");
    } else if |words| > 1 {
      var w, rest := words[0], Blanked(words[1..]);
      var s := w + " " + rest;
      FindAt(w, ' ', rest);
      assert s == w + [' '] + rest && s[..|w|] == w && s[|w| + 1..] == rest;
      SplitBlanksUndoesBlanked(words[1..]);
    }
  }

  /** A list survives being written with blanks between exactly when no word is empty or
      contains a blank. */
  lemma BlankedRoundTrip(words: seq<string>)
    ensures SplitBlanks(Blanked(words)) == words <==> forall i :: 0 <= i < |words| ==> BlankFree(words[i])
  {
    SplitBlanksGivesBlankFree(Blanked(words));
    if forall i :: 0 <= i < |words| ==> BlankFree(words[i]) { SplitBlanksUndoesBlanked(words); }
  }

  lemma {:induction false} BlankedAppend(a: seq<string>, b: seq<string>)
    requires a != [] && b != []
    ensures Blanked(a + b) == Blanked(a) + " " + Blanked(b)
    decreases |a|
  {
    if |a| == 1 {
      assert (a + b)[1..] == b;
    } else {
      assert (a + b)[1..] == a[1..] + b && (a + b)[0] == a[0];
      BlankedAppend(a[1..], b);
      assert a[0] + " " + (Blanked(a[1..]) + " " + Blanked(b)) == (a[0] + " " + Blanked(a[1..])) + " " + Blanked(b);
    }
  }

  lemma Regroup(a: string, b: string, c: string, d: string, e: string, f: string, g: string)
    ensures a + b + (c + d + (e + f + g)) == a + (b + c + d) + e + (f + g)
  {
  }

  lemma SshPassText(sshpass: string, pass: string)
    ensures Blanked([sshpass, "-f", pass, "ssh"]) == sshpass + " -f " + pass + " ssh"
  {
    var words := [sshpass, "-f", pass, "ssh"];
    var three := words[1..];
    var two := three[1..];
    assert three == ["-f", pass, "ssh"] && two == [pass, "ssh"] && two[1..] == ["ssh"];
    assert Blanked(two) == pass + " " + "ssh";
    assert Blanked(three) == "-f" + " " + Blanked(two);
    assert Blanked(words) == sshpass + " " + Blanked(three);
    assert " -f " == " " + "-f" + " " && " ssh" == " " + "ssh";
    Regroup(sshpass, " ", "-f", " ", pass, " ", "ssh");
  }

  lemma ConnectTextIsBlanked(server: Server, dir: string, sshpass: string)
    ensures ConnectText(server, dir, sshpass) == Blanked(ConnectWords(server, dir, sshpass))
  {
    SshPassText(sshpass, JoinPath(dir, "pass"));
    var first := if server.auth == "password" then [sshpass, "-f", JoinPath(dir, "pass"), "ssh"] else ["ssh"];
    BlankedAppend(first, Options(server, dir));
  }

  // ------------------------------------------------------------ the job's two directories

  /** WorkspaceDir. */
  function WorkspaceDir(tmp: string, id: int): string {
    JoinPath(if CheckPath.TrimSpace(tmp) == "" then "/tmp" else tmp, "job-" + Decimal(id))
  }

  /** RuntimeDir. */
  function RuntimeDir(id: int): string { "/tmp/sftp-relay-job-" + Decimal(id) }

  lemma NumberedIsProper(prefix: string, id: int)
    requires '/' !in prefix && |prefix| > 2
    ensures Proper(prefix + Decimal(id))
  {
    var s := prefix + Decimal(id);
    assert forall i :: 0 <= i < |Decimal(id)| ==> Decimal(id)[i] != '/';
  }

  lemma RuntimeDirIsClean(id: int)
    ensures CleanAbs(RuntimeDir(id)) && Segs(RuntimeDir(id)) == ["tmp", "sftp-relay-job-" + Decimal(id)]
  {
    var name := "sftp-relay-job-" + Decimal(id);
    var segs := ["tmp", name];
    NumberedIsProper("sftp-relay-job-", id);
    assert segs[1..] == [name];
    assert Join(segs) == "tmp" + "/" + name;
    assert Abs(segs) == RuntimeDir(id);
    SegsAbs(segs);
  }

  /** A file of the runtime directory has the directory's name in front. */
  lemma RuntimeFile(id: int, name: string)
    requires Proper(name)
    ensures JoinPath(RuntimeDir(id), name) == RuntimeDir(id) + "/" + name
  {
    RuntimeDirIsClean(id);
    JoinAppendsOne(RuntimeDir(id), name);
    AbsSnoc(Segs(RuntimeDir(id)), name);
    AbsSegs(RuntimeDir(id));
  }

  lemma RuntimeFileBlankFree(id: int, name: string)
    requires Proper(name) && ' ' !in name
    ensures BlankFree(JoinPath(RuntimeDir(id), name))
  {
    RuntimeFile(id, name);
    var n := Decimal(id);
    assert ' ' !in n by {
      assert forall i :: 0 <= i < |n| ==> n[i] != ' ';
    }
    assert ' ' !in "/tmp/sftp-relay-job-";
    assert ' ' !in RuntimeDir(id);
  }

  predicate AllBlankFree(words: seq<string>) { forall i :: 0 <= i < |words| ==> BlankFree(words[i]) }

  lemma AllBlankFreeAppend(a: seq<string>, b: seq<string>)
    ensures AllBlankFree(a + b) <==> AllBlankFree(a) && AllBlankFree(b)
  {
    if AllBlankFree(a + b) {
      assert forall i :: 0 <= i < |a| ==> a[i] == (a + b)[i];
      assert forall i :: 0 <= i < |b| ==> b[i] == (a + b)[|a| + i];
    }
  }

  lemma PortIsBlankFree(port: int)
    ensures BlankFree(Decimal(port))
  {
    var n := Decimal(port);
    assert forall i :: 0 <= i < |n| ==> n[i] != ' ';
  }

  lemma FixedOptionsAreBlankFree()
    ensures AllBlankFree(["-a", "-x", "-o", "StrictHostKeyChecking=yes", "-o"])
  {
    assert ' ' !in "StrictHostKeyChecking=yes";
  }

  lemma KeyOptionsAreBlankFree(id: int)
    ensures AllBlankFree(["-i", JoinPath(RuntimeDir(id), "key"), "-o", "IdentitiesOnly=yes"])
  {
    RuntimeFileBlankFree(id, "key");
    assert ' ' !in "IdentitiesOnly=yes";
  }

  lemma HostOptionsAreBlankFree(id: int, port: int)
    ensures AllBlankFree(["UserKnownHostsFile=" + JoinPath(RuntimeDir(id), "known_hosts"),
                          "-o", "BatchMode=yes", "-p", Decimal(port)])
  {
    RuntimeFileBlankFree(id, "known_hosts");
    PortIsBlankFree(port);
    assert ' ' !in "UserKnownHostsFile=";
    assert ' ' !in "BatchMode=yes";
  }

  lemma OptionsAreBlankFree(server: Server, id: int)
    ensures AllBlankFree(Options(server, RuntimeDir(id)))
  {
    var fixed := ["-a", "-x", "-o", "StrictHostKeyChecking=yes", "-o"];
    var known := "UserKnownHostsFile=" + JoinPath(RuntimeDir(id), "known_hosts");
    var host := [known, "-o", "BatchMode=yes", "-p", Decimal(Port(server))];
    var key := if server.auth == "key" then ["-i", JoinPath(RuntimeDir(id), "key"), "-o", "IdentitiesOnly=yes"] else [];
    FixedOptionsAreBlankFree();
    HostOptionsAreBlankFree(id, Port(server));
    KeyOptionsAreBlankFree(id);
    AllBlankFreeAppend(fixed, host);
    AllBlankFreeAppend(fixed + host, key);
    assert Options(server, RuntimeDir(id)) == fixed + host + key;
  }

  /** Splitting the connect program at blanks gives its argument list exactly when the
      sshpass path, if it is used, is not empty and contains no blank: nothing else in it
      can, because RuntimeDir has none. */
  lemma ConnectProgramSplits(server: Server, id: int, sshpass: string)
    ensures SplitBlanks(ConnectText(server, RuntimeDir(id), sshpass)) == ConnectWords(server, RuntimeDir(id), sshpass) <==>
            (server.auth == "password" ==> BlankFree(sshpass))
  {
    var dir := RuntimeDir(id);
    var words := ConnectWords(server, dir, sshpass);
    ConnectTextIsBlanked(server, dir, sshpass);
    BlankedRoundTrip(words);
    OptionsAreBlankFree(server, id);
    RuntimeFileBlankFree(id, "pass");
    var first := if server.auth == "password" then [sshpass, "-f", JoinPath(dir, "pass"), "ssh"] else ["ssh"];
    AllBlankFreeAppend(first, Options(server, dir));
    assert AllBlankFree(words) <==> forall i :: 0 <= i < |words| ==> BlankFree(words[i]);
    assert server.auth == "password" ==> first[0] == sshpass;
  }
}
