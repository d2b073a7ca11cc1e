/** Where a job's bytes end up: from the allowed roots and the requested destination to
    the path lftp writes and the path whose size is polled (internal/nas/nas.go,
    internal/api/jobs.go, internal/sftpclient/sftpclient.go). */
module Confinement {
  import opened Common
  import opened Paths
  import opened CheckPath
  import ShellCommands
  import ShellReader

  // ------------------------------------------------------------ the allowed roots

  predicate IsSeparator(c: char) { c == ',' || c == '\n' }

  function FirstSeparator(v: string): (i: nat)
    ensures i <= |v|
    ensures i < |v| ==> IsSeparator(v[i])
    ensures forall k :: 0 <= k < i ==> !IsSeparator(v[k])
  {
    if v == "" || IsSeparator(v[0]) then 0 else 1 + FirstSeparator(v[1..])
  }

  /** strings.FieldsFunc: the nonempty stretches between separators. */
  function Fields(v: string): seq<string>
    decreases |v|
  {
    if v == "" then []
    else
      var i := FirstSeparator(v);
      var rest := if i == |v| then "" else v[i + 1..];
      if i == 0 then Fields(rest) else [v[..i]] + Fields(rest)
  }

  /** Each field trimmed, blank ones dropped. */
  function Trimmed(fields: seq<string>): seq<string> {
    if fields == [] then []
    else
      var r := TrimSpace(fields[0]);
      if r == "" then Trimmed(fields[1..]) else [r] + Trimmed(fields[1..])
  }

  function RootsIn(v: string): seq<string> { Trimmed(Fields(v)) }

  method SplitRoots(v: string) returns (out: seq<string>)
    ensures out == RootsIn(v)
  {
    var fields := Fields(v);
    out := [];
    for i := 0 to |fields|
      invariant out + Trimmed(fields[i..]) == RootsIn(v)
    {
      assert fields[i..][0] == fields[i] && fields[i..][1..] == fields[i + 1..];
      var r := TrimSpace(fields[i]);
      if r != "" {
        out := out + [r];
      }
    }
    assert fields[|fields|..] == [];
  }

  /** A root that can be written in the setting: not blank, no outer blanks, no separator. */
  predicate Writable(r: string) {
    r != "" && TrimSpace(r) == r && forall i :: 0 <= i < |r| ==> !IsSeparator(r[i])
  }

  /** Roots written one after the other, each followed by the separator of its position. */
  function Written(roots: seq<string>, separators: string): string
    requires |separators| == |roots|
  {
    if roots == [] then "" else roots[0] + [separators[0]] + Written(roots[1..], separators[1..])
  }

  /** Whatever mixture of commas and newlines is used, the roots read back are the roots
      written. */
  lemma {:induction false} RootsRoundTrip(roots: seq<string>, separators: string)
    requires |separators| == |roots|
    requires forall i :: 0 <= i < |roots| ==> Writable(roots[i])
    requires forall i :: 0 <= i < |separators| ==> IsSeparator(separators[i])
    ensures RootsIn(Written(roots, separators)) == roots
    decreases |roots|
  {
    if roots != [] {
      var r, c := roots[0], separators[0];
      var rest := Written(roots[1..], separators[1..]);
      var v := r + [c] + rest;
      assert v[|r|] == c && forall k :: 0 <= k < |r| ==> v[k] == r[k];
      assert FirstSeparator(v) == |r|;
      assert v[..|r|] == r && v[|r| + 1..] == rest;
      assert Fields(v) == [r] + Fields(rest);
      assert ([r] + Fields(rest))[1..] == Fields(rest);
      RootsRoundTrip(roots[1..], separators[1..]);
    }
  }

  // ------------------------------------------------------------ validation and the job's paths

  /** Validate: once on the text alone, once following links. */
  function Validated(nfc: Nfc, p: string, setting: string, resolve: Resolver): Checked {
    var roots := RootsIn(setting);
    match Check(nfc, p, roots, None)
    case Err(e) => Err(e)
    case Ok(clean) => Check(nfc, clean, roots, Some(resolve))
  }

  /** Which destinations are accepted, and as what: the text has to name a place in a usable
      root, and following the links of that place has to end in one. */
  ghost predicate Accepted(nfc: Nfc, p: string, setting: string, resolve: Resolver, out: string) {
    var roots := RootsIn(setting);
    && Normalise(nfc, p).Ok? && InsideUsable(nfc, Normalise(nfc, p).value, roots)
    && Admitted(nfc, Normalise(nfc, p).value, roots, resolve, out)
  }

  lemma ValidatedExactly(nfc: Nfc, p: string, setting: string, resolve: Resolver)
    ensures forall out :: Validated(nfc, p, setting, resolve) == Ok(out) <==> Accepted(nfc, p, setting, resolve, out)
  {
    hide Check, Normalise, InsideUsable, Admitted;
    var roots := RootsIn(setting);
    CheckDecides(nfc, p, roots, None);
    var text := Check(nfc, p, roots, None);
    if text.Ok? {
      assert Named(nfc, p, roots, text.value);
      CheckDecides(nfc, text.value, roots, Some(resolve));
    } else if Normalise(nfc, p).Ok? {
      assert !Named(nfc, p, roots, Normalise(nfc, p).value);
    }
  }

  method Validate(nfc: Nfc, p: string, setting: string, resolve: Resolver) returns (r: Checked)
    ensures r == Validated(nfc, p, setting, resolve)
    ensures forall out :: r == Ok(out) <==> Accepted(nfc, p, setting, resolve, out)
  {
    hide Accepted;
    ValidatedExactly(nfc, p, setting, resolve);
    var roots := SplitRoots(setting);
    var clean := Validator(nfc, p, roots, None);
    if clean.Err? { return clean; }
    r := Validator(nfc, clean.value, roots, Some(resolve));
  }

  /** CleanPath of the SFTP client. */
  function CleanPath(p: string): (r: string)
    ensures CleanAbs(r)
  {
    var q := if p == "" then "/" else if p[0] != '/' then "/" + p else p;
    CleanIsCleanAbs(q);
    assert p == "" ==> CleanAbs("/");
    if p == "" then "/" else Clean(q)
  }

  /** The file or directory a job writes: path.Join(dest, path.Base(remote)). */
  function Target(dest: string, remote: string): string { JoinPath(dest, Base(remote)) }

  /** One segment deeper than `dest`. */
  predicate DirectChild(p: string, dest: string) {
    && CleanAbs(p) && CleanAbs(dest)
    && |Segs(p)| == |Segs(dest)| + 1 && Segs(dest) == Segs(p)[..|Segs(dest)|]
  }

  lemma ValidatedIsConfined(nfc: Nfc, requested: string, setting: string, resolve: Resolver)
    requires Validated(nfc, requested, setting, resolve).Ok?
    ensures var dest := Validated(nfc, requested, setting, resolve).value;
            CleanAbs(dest) && InsideSome(dest, CleanRoots(nfc, RootsIn(setting)))
  {
    var clean := Check(nfc, requested, RootsIn(setting), None);
    AcceptedIsConfined(nfc, clean.value, RootsIn(setting), Some(resolve));
  }

  lemma TargetIsChild(dest: string, remote: string)
    requires CleanAbs(dest) && CleanAbs(remote) && remote != "/"
    ensures var target := Target(dest, remote);
            && DirectChild(target, dest) && Dir(target) == dest
            && Base(target) == Base(remote) == Segs(remote)[|Segs(remote)| - 1]
  {
    var target := Target(dest, remote);
    BaseIsLast(remote);
    JoinAppendsOne(dest, Base(remote));
    AbsSegs(dest);
    DirDropsLast(target);
    assert Segs(target)[..|Segs(dest)|] == Segs(dest);
    assert target != "/";
    BaseIsLast(target);
  }

  /** For whatever was requested, and whatever the server answers about links: a job that
      is created writes a direct child of its validated destination, named like the remote
      item, inside one of the roots that were allowed then. */
  lemma TargetIsConfined(nfc: Nfc, requested: string, setting: string, resolve: Resolver, item: string)
    requires Validated(nfc, requested, setting, resolve).Ok? && CleanPath(item) != "/"
    ensures var dest := Validated(nfc, requested, setting, resolve).value;
            var target := Target(dest, CleanPath(item));
            && DirectChild(target, dest) && Dir(target) == dest
            && Base(target) == Base(CleanPath(item))
            && InsideSome(target, CleanRoots(nfc, RootsIn(setting)))
  {
    var roots := CleanRoots(nfc, RootsIn(setting));
    var dest := Validated(nfc, requested, setting, resolve).value;
    ValidatedIsConfined(nfc, requested, setting, resolve);
    TargetIsChild(dest, CleanPath(item));
    var i :| 0 <= i < |roots| && Inside(dest, roots[i]);
    assert Inside(Target(dest, CleanPath(item)), roots[i]);
  }

  // ------------------------------------------------------------ creating the jobs of a batch

  datatype Item = Item(path: string, isDir: bool)

  /** What CreateJob is given. */
  datatype Order = Order(remote: string, dest: string, isDir: bool)

  datatype Batch = Created(orders: seq<Order>) | Rejected(orders: seq<Order>)

  function OrderOf(item: Item, dest: string): Order { Order(CleanPath(item.path), dest, item.isDir) }

  /** One job for each item in front of the first one that names the remote root. */
  function Orders(items: seq<Item>, dest: string): (r: seq<Order>)
    ensures |r| <= |items|
  {
    if items == [] || CleanPath(items[0].path) == "/" then []
    else [OrderOf(items[0], dest)] + Orders(items[1..], dest)
  }

  lemma {:induction false} OrderAt(items: seq<Item>, dest: string, i: nat)
    requires i < |Orders(items, dest)|
    ensures Orders(items, dest)[i] == OrderOf(items[i], dest) && CleanPath(items[i].path) != "/"
    decreases i
  {
    if i > 0 { OrderAt(items[1..], dest, i - 1); }
  }

  /** What ends a batch early is an item that names the remote root. */
  lemma {:induction false} OrdersStop(items: seq<Item>, dest: string)
    ensures var n := |Orders(items, dest)|; n < |items| ==> CleanPath(items[n].path) == "/"
    decreases |items|
  {
    if items != [] && CleanPath(items[0].path) != "/" { OrdersStop(items[1..], dest); }
  }

  /** The orders made so far, and those of the remaining items, make up the batch. */
  predicate Underway(items: seq<Item>, dest: string, created: seq<Order>) {
    |created| <= |items| && created + Orders(items[|created|..], dest) == Orders(items, dest)
  }

  lemma OrdersFrom(items: seq<Item>, dest: string, i: nat)
    requires i < |items|
    ensures Orders(items[i..], dest) ==
            if CleanPath(items[i].path) == "/" then [] else [OrderOf(items[i], dest)] + Orders(items[i + 1..], dest)
  {
    assert items[i..][0] == items[i] && items[i..][1..] == items[i + 1..];
  }

  lemma OneMoreOrder(items: seq<Item>, dest: string, created: seq<Order>)
    requires Underway(items, dest, created) && |created| < |items| && CleanPath(items[|created|].path) != "/"
    ensures Underway(items, dest, created + [OrderOf(items[|created|], dest)])
  {
    var i := |created|;
    var o, rest := OrderOf(items[i], dest), Orders(items[i + 1..], dest);
    OrdersFrom(items, dest, i);
    assert |created + [o]| == i + 1;
    Regroup(created, [o], rest);
  }

  lemma Regroup<T>(a: seq<T>, b: seq<T>, c: seq<T>)
    ensures a + b + c == a + (b + c)
  {
  }

  lemma NoMoreOrders(items: seq<Item>, dest: string, created: seq<Order>)
    requires Underway(items, dest, created) && |created| < |items| && CleanPath(items[|created|].path) == "/"
    ensures created == Orders(items, dest)
  {
    OrdersFrom(items, dest, |created|);
  }

  lemma AllOrders(items: seq<Item>, dest: string, created: seq<Order>)
    requires Underway(items, dest, created) && |created| == |items|
    ensures created == Orders(items, dest)
  {
    assert items[|items|..] == [];
    assert created + [] == created;
  }

  lemma NoOrders(items: seq<Item>, dest: string)
    ensures Underway(items, dest, [])
  {
    assert items[0..] == items && [] + Orders(items, dest) == Orders(items, dest);
  }

  /** createJobs, after the destination has been validated. A rejected batch leaves the
      jobs that were created before the offending item. */
  method CreateJobs(items: seq<Item>, dest: string) returns (r: Batch)
    ensures r.orders == Orders(items, dest)
    ensures r.Created? <==> |Orders(items, dest)| == |items|
  {
    var created: seq<Order> := [];
    NoOrders(items, dest);
    for i := 0 to |items|
      invariant |created| == i && Underway(items, dest, created)
    {
      var remote := CleanPath(items[i].path);
      if remote == "/" {
        NoMoreOrders(items, dest, created);
        return Rejected(created);
      }
      OneMoreOrder(items, dest, created);
      created := created + [Order(remote, dest, items[i].isDir)];
    }
    AllOrders(items, dest, created);
    return Created(created);
  }

  /** Every order of a batch, rejected or not, is confined. */
  lemma BatchIsConfined(nfc: Nfc, requested: string, setting: string, resolve: Resolver, items: seq<Item>, i: nat)
    requires Validated(nfc, requested, setting, resolve).Ok?
    requires i < |Orders(items, Validated(nfc, requested, setting, resolve).value)|
    ensures var dest := Validated(nfc, requested, setting, resolve).value;
            var order := Orders(items, dest)[i];
            && order.dest == dest && order.remote == CleanPath(items[i].path) && order.isDir == items[i].isDir
            && DirectChild(Target(order.dest, order.remote), dest)
            && InsideSome(Target(order.dest, order.remote), CleanRoots(nfc, RootsIn(setting)))
  {
    var dest := Validated(nfc, requested, setting, resolve).value;
    OrderAt(items, dest, i);
    TargetIsConfined(nfc, requested, setting, resolve, items[i].path);
  }

  // ------------------------------------------------------------ the path a shell sees

  function Volume(suffix: string): string { "/" + ("volume" + suffix) }

  const VOLUMES: seq<string> := ["1", "2", "3", "4", "USB1", "USB2"]

  /** No prefix first, then the volumes in order. */
  const VOLUME_PREFIXES: seq<string> :=
    [""] + seq(|VOLUMES|, i requires 0 <= i < |VOLUMES| => Volume(VOLUMES[i]))

  /** Empty, or an absolute path below the root. */
  predicate PrefixOk(prefix: string) {
    prefix == "" || (CleanAbs(prefix) && prefix != "/")
  }

  /** The first segment of the cleaned path; "" for the root. */
  function Share(p: string): string {
    var c := Clean(p);
    var q := if c != "" && c[0] == '/' then c[1..] else c;
    Split(q)[0]
  }

  /** The path of p for a shell, when each share has a fixed prefix. */
  function Shell(prefixOf: string -> string, p: string): string {
    if Share(p) == "" then p else prefixOf(Share(p)) + p
  }

  /** The shell command tries the prefixes in order; the empty answer if none fits. */
  function FirstFit(prefixes: seq<string>, exists_: string -> bool, share: string): string {
    if prefixes == [] then ""
    else if exists_(prefixes[0] + "/" + share) then prefixes[0]
    else FirstFit(prefixes[1..], exists_, share)
  }

  lemma {:induction false} FirstFitOk(prefixes: seq<string>, exists_: string -> bool, share: string)
    requires forall i :: 0 <= i < |prefixes| ==> PrefixOk(prefixes[i])
    ensures PrefixOk(FirstFit(prefixes, exists_, share))
  {
    if prefixes != [] { FirstFitOk(prefixes[1..], exists_, share); }
  }

  lemma VolumeOk(suffix: string)
    requires '/' !in suffix
    ensures PrefixOk(Volume(suffix))
  {
    var name := "volume" + suffix;
    assert |name| >= 6;
    assert Proper(name);
    SegsAbs([name]);
    assert Abs([name]) == Volume(suffix);
  }

  lemma VolumePrefixesOk()
    ensures forall i :: 0 <= i < |VOLUME_PREFIXES| ==> PrefixOk(VOLUME_PREFIXES[i])
  {
    forall i | 0 <= i < |VOLUMES| ensures PrefixOk(Volume(VOLUMES[i])) {
      assert forall k :: 0 <= k < |VOLUMES[i]| ==> VOLUMES[i][k] != '/';
      VolumeOk(VOLUMES[i]);
    }
  }

  predicate Untrimmed(s: string) { s == "" || (!IsSpace(s[0]) && !IsSpace(s[|s| - 1])) }

  lemma TrimLine(s: string)
    requires Untrimmed(s)
    ensures TrimSpace(s + "\n") == s && TrimSpace(s) == s
  {
    var line := s + "\n";
    assert IsSpace('\n') && line[..|line| - 1] == s;
    if s == "" {
      assert line[0] == '\n' && line[1..] == "";
      assert TrimLeft("") == "" && TrimLeft(line) == TrimLeft(line[1..]);
    } else {
      assert TrimLeft(line) == line && TrimLeft(s) == s;
      assert TrimRight(line) == TrimRight(s) == s;
    }
  }

  lemma VolumePrefixesUntrimmed()
    ensures forall i :: 0 <= i < |VOLUME_PREFIXES| ==> Untrimmed(VOLUME_PREFIXES[i])
  {
    forall i | 0 <= i < |VOLUMES| ensures Untrimmed(Volume(VOLUMES[i])) {
      assert Volume(VOLUMES[i])[0] == '/';
      var last := VOLUMES[i][|VOLUMES[i]| - 1];
      assert last == '1' || last == '2' || last == '3' || last == '4';
      assert !IsSpace(last) && !IsSpace('/');
    }
  }

  /** What the shell prints, trimmed, is the first prefix that fits. */
  lemma {:induction false} AnswerIsFirstFit(prefixes: seq<string>, exists_: string -> bool, share: string)
    requires forall i :: 0 <= i < |prefixes| ==> Untrimmed(prefixes[i])
    ensures TrimSpace(ShellCommands.Answer(prefixes, share, exists_)) == FirstFit(prefixes, exists_, share)
  {
    if prefixes != [] {
      TrimLine(prefixes[0]);
      AnswerIsFirstFit(prefixes[1..], exists_, share);
    }
  }

  lemma ProbeFindsFirstFit(exists_: string -> bool, share: string)
    ensures var cmd := ShellCommands.ProbeText(VOLUME_PREFIXES, share);
            && ShellReader.Tokens(cmd).Some?
            && ShellCommands.Printed(ShellReader.Tokens(cmd).value, exists_).Some?
            && TrimSpace(ShellCommands.Printed(ShellReader.Tokens(cmd).value, exists_).value)
               == FirstFit(VOLUME_PREFIXES, exists_, share)
  {
    ShellCommands.ProbeAsksInOrder(VOLUME_PREFIXES, share, exists_);
    VolumePrefixesUntrimmed();
    AnswerIsFirstFit(VOLUME_PREFIXES, exists_, share);
  }

  /** The part of the NAS client that remembers where each share lives. */
  class ShareCache {
    var prefixes: map<string, string>

    ghost predicate Valid()
      reads this
    {
      forall s :: s in prefixes ==> PrefixOk(prefixes[s])
    }

    constructor ()
      ensures Valid() && prefixes == map[]
    {
      prefixes := map[];
    }

    /** The prefixes known so far. */
    function PrefixOf(): string -> string
      reads this
    {
      var known := prefixes;
      share => if share in known then known[share] else ""
    }

    /** ShellPath. `probe` is what the NAS would say exists; None if it cannot be asked.
        An entry, once made, is never changed, so the prefix of a share is fixed from its
        first use on. */
    method ShellPath(p: string, probe: Option<string -> bool>) returns (r: string)
      requires Valid()
      modifies this
      ensures Valid()
      ensures Share(p) == "" || (Share(p) !in old(prefixes) && probe.None?) ==>
                r == p && prefixes == old(prefixes)
      ensures Share(p) != "" && Share(p) in old(prefixes) ==>
                r == old(prefixes)[Share(p)] + p && prefixes == old(prefixes)
      ensures Share(p) != "" && Share(p) !in old(prefixes) && probe.Some? ==>
                var prefix := FirstFit(VOLUME_PREFIXES, probe.value, Share(p));
                r == prefix + p && prefixes == old(prefixes)[Share(p) := prefix]
      ensures Share(p) in prefixes ==> r == Shell(PrefixOf(), p)
      ensures forall share :: share in old(prefixes) ==>
                share in prefixes && prefixes[share] == old(prefixes)[share]
    {
      var share := Share(p);
      if share == "" { return p; }
      if share !in prefixes {
        if probe.None? { return p; }
        var cmd := ShellCommands.WriteProbe(VOLUME_PREFIXES, share);
        ProbeFindsFirstFit(probe.value, share);
        var out := ShellCommands.Printed(ShellReader.Tokens(cmd).value, probe.value);
        VolumePrefixesOk();
        FirstFitOk(VOLUME_PREFIXES, probe.value, share);
        prefixes := prefixes[share := TrimSpace(out.value)];
      }
      r := prefixes[share] + p;
    }
  }

  lemma AbsAppend(a: seq<string>, b: seq<string>)
    requires a != [] && b != []
    ensures Abs(a + b) == Abs(a) + Abs(b)
  {
    JoinAppend(a, b);
    assert "/" + (Join(a) + "/" + Join(b)) == ("/" + Join(a)) + ("/" + Join(b));
  }

  /** The segments a prefix adds in front. */
  function Front(prefix: string): seq<string> { if prefix == "" then [] else Segs(prefix) }

  lemma PrefixedIsClean(prefix: string, p: string)
    requires PrefixOk(prefix) && CleanAbs(p) && p != "/"
    ensures CleanAbs(prefix + p)
    ensures Segs(prefix + p) == Front(prefix) + Segs(p)
  {
    if prefix == "" {
      assert prefix + p == p;
    } else {
      var a, b := Segs(prefix), Segs(p);
      AbsSegs(p);
      AbsSegs(prefix);
      AbsAppend(a, b);
      SegsAbs(a + b);
    }
  }

  /** Prefixing commutes with appending the name. */
  lemma PrefixThenTarget(prefix: string, dest: string, remote: string)
    requires PrefixOk(prefix) && CleanAbs(dest) && dest != "/" && CleanAbs(remote) && remote != "/"
    ensures Target(prefix + dest, remote) == prefix + Target(dest, remote)
  {
    var name := Base(remote);
    BaseIsLast(remote);
    JoinAppendsOne(dest, name);
    PrefixedIsClean(prefix, dest);
    JoinAppendsOne(prefix + dest, name);
    PrefixedIsClean(prefix, Target(dest, remote));
    AbsSegs(prefix + Target(dest, remote));
    var front := Front(prefix);
    assert front + Segs(dest) + [name] == front + (Segs(dest) + [name]);
  }

  lemma ShareIsFirst(p: string)
    requires CleanAbs(p)
    ensures Share(p) == if p == "/" then "" else Segs(p)[0]
  {
    CleanFixes(p);
    if p == "/" {
      SplitNone("");
      assert p[1..] == "";
    } else {
      assert |p| > 1;
    }
  }

  lemma TargetShare(dest: string, remote: string)
    requires CleanAbs(dest) && CleanAbs(remote) && remote != "/"
    ensures Share(Target(dest, remote)) == if dest == "/" then Base(remote) else Share(dest)
    ensures Share(dest) == "" <==> dest == "/"
  {
    var target := Target(dest, remote);
    TargetIsChild(dest, remote);
    BaseIsLast(remote);
    JoinAppendsOne(dest, Base(remote));
    ShareIsFirst(dest);
    ShareIsFirst(target);
    AbsSegs(target);
    AbsSegs(dest);
    if dest != "/" { BaseIsLast(dest); }
  }

  /** The path handed to lftp is the shell path of the file whose size is polled, exactly
      when the destination is not the root, or the share named like the transferred item
      has no prefix: ShellPath leaves "/" alone, but gives a path below it its share's
      prefix. */
  lemma WrittenIsPolled(prefixOf: string -> string, dest: string, remote: string)
    requires forall s :: PrefixOk(prefixOf(s))
    requires CleanAbs(dest) && CleanAbs(remote) && remote != "/"
    ensures Target(Shell(prefixOf, dest), remote) == Shell(prefixOf, Target(dest, remote)) <==>
            dest != "/" || prefixOf(Base(remote)) == ""
  {
    TargetShare(dest, remote);
    if dest == "/" {
      BaseIsLast(remote);
      assert Shell(prefixOf, dest) == dest;
      assert Shell(prefixOf, Target(dest, remote)) == prefixOf(Base(remote)) + Target(dest, remote);
      LongerIsOther(prefixOf(Base(remote)), Target(dest, remote));
    } else {
      assert Shell(prefixOf, dest) == prefixOf(Share(dest)) + dest;
      PrefixThenTarget(prefixOf(Share(dest)), dest, remote);
    }
  }

  lemma LongerIsOther(prefix: string, p: string)
    ensures p == prefix + p <==> prefix == ""
  {
    assert |prefix + p| == |prefix| + |p|;
    if prefix == "" { assert prefix + p == p; }
  }
}
