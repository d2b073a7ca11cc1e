/** Slash-separated paths: Go's path.Clean, path.Dir, path.Base and path.Join on strings,
    and what they do to the list of segments of a clean absolute path. */
module Paths {
  import opened Text

  // ------------------------------------------------------------ splitting and joining

  function Split(s: string): (r: seq<string>)
    ensures r != []
    decreases |s|
  {
    var i := Find(s, '/');
    if i == |s| then [s] else [s[..i]] + Split(s[i + 1..])
  }

  function Join(segs: seq<string>): string
    decreases |segs|
  {
    if segs == [] then ""
    else if |segs| == 1 then segs[0]
    else segs[0] + "/" + Join(segs[1..])
  }

  /** A segment that names something: not empty, not dots, no slash. */
  predicate Proper(seg: string) {
    seg != "" && seg != "." && seg != ".." && '/' !in seg
  }

  predicate AllProper(segs: seq<string>) {
    forall i :: 0 <= i < |segs| ==> Proper(segs[i])
  }

  predicate NoSlashes(segs: seq<string>) {
    forall i :: 0 <= i < |segs| ==> '/' !in segs[i]
  }

  /** The absolute path with these segments. */
  function Abs(segs: seq<string>): string { "/" + Join(segs) }

  /** The segments of an absolute path written without redundancy. */
  function Segs(p: string): seq<string> {
    if |p| <= 1 then [] else Split(p[1..])
  }

  /** Absolute and clean: "/" or "/a/b" with proper segments. */
  predicate CleanAbs(p: string) {
    p != "" && p[0] == '/' && AllProper(Segs(p))
  }

  // ------------------------------------------------------------ the functions of Go's path package

  /** Work through the segments: drop "" and ".", let ".." take back the last one. */
  function Resolve(acc: seq<string>, segs: seq<string>, rooted: bool): seq<string>
    decreases |segs|
  {
    if segs == [] then acc
    else if segs[0] == "" || segs[0] == "." then Resolve(acc, segs[1..], rooted)
    else if segs[0] == ".." then
      if acc != [] && acc[|acc| - 1] != ".." then Resolve(acc[..|acc| - 1], segs[1..], rooted)
      else if rooted then Resolve(acc, segs[1..], rooted)
      else Resolve(acc + [".."], segs[1..], rooted)
    else Resolve(acc + [segs[0]], segs[1..], rooted)
  }

  /** path.Clean. */
  function Clean(p: string): string {
    if p == "" then "."
    else
      var rooted := p[0] == '/';
      var segs := Resolve([], Split(p), rooted);
      if rooted then Abs(segs) else if segs == [] then "." else Join(segs)
  }

  /** One past the last slash; 0 if there is none. */
  function AfterLastSlash(p: string): (i: nat)
    ensures i <= |p|
    ensures i > 0 ==> p[i - 1] == '/'
    ensures forall k :: i <= k < |p| ==> p[k] != '/'
  {
    if p == "" then 0
    else if p[|p| - 1] == '/' then |p|
    else AfterLastSlash(p[..|p| - 1])
  }

  /** path.Dir. */
  function Dir(p: string): string { Clean(p[..AfterLastSlash(p)]) }

  function TrimSlashes(p: string): string {
    if p != "" && p[|p| - 1] == '/' then TrimSlashes(p[..|p| - 1]) else p
  }

  /** path.Base. */
  function Base(p: string): string {
    if p == "" then "."
    else
      var q := TrimSlashes(p);
      var name := q[AfterLastSlash(q)..];
      if name == "" then "/" else name
  }

  /** path.Join of two elements. */
  function JoinPath(a: string, b: string): string {
    if a == "" then (if b == "" then "" else Clean(b))
    else if b == "" then Clean(a)
    else Clean(a + "/" + b)
  }

  // ------------------------------------------------------------ strings and segments agree

  lemma JoinOneMore(a: string, rest: seq<string>)
    requires rest != []
    ensures Join([a] + rest) == a + "/" + Join(rest)
    ensures '/' !in a && NoSlashes(rest) ==> NoSlashes([a] + rest)
  {
    assert ([a] + rest)[1..] == rest;
  }

  lemma {:induction false} JoinSplit(s: string)
    ensures Join(Split(s)) == s && NoSlashes(Split(s))
    decreases |s|
  {
    var i := Find(s, '/');
    if i < |s| {
      JoinSplit(s[i + 1..]);
      assert '/' !in s[..i];
      JoinOneMore(s[..i], Split(s[i + 1..]));
      assert s == s[..i] + "/" + s[i + 1..];
    }
  }

  lemma SplitFirst(a: string, rest: string)
    requires '/' !in a
    ensures Split(a + "/" + rest) == [a] + Split(rest)
  {
    FindAt(a, '/', rest);
    assert (a + "/" + rest)[..|a|] == a && (a + "/" + rest)[|a| + 1..] == rest;
  }

  lemma SplitNone(a: string)
    requires '/' !in a
    ensures Split(a) == [a]
  {
    assert forall k :: 0 <= k < |a| ==> a[k] in a;
  }

  lemma {:induction false} SplitJoin(segs: seq<string>)
    requires segs != [] && NoSlashes(segs)
    ensures Split(Join(segs)) == segs
    decreases |segs|
  {
    if |segs| == 1 {
      SplitNone(segs[0]);
    } else {
      SplitJoin(segs[1..]);
      SplitFirst(segs[0], Join(segs[1..]));
    }
  }

  lemma {:induction false} SplitAppend(a: string, b: string)
    ensures Split(a + "/" + b) == Split(a) + Split(b)
    decreases |a|
  {
    var i := Find(a, '/');
    if i == |a| {
      assert '/' !in a;
      SplitFirst(a, b);
    } else {
      var h, t := a[..i], a[i + 1..];
      assert '/' !in h;
      assert a + "/" + b == h + "/" + (t + "/" + b);
      SplitFirst(h, t + "/" + b);
      SplitAppend(t, b);
    }
  }

  lemma {:induction false} JoinAppend(a: seq<string>, b: seq<string>)
    requires a != [] && b != []
    ensures Join(a + b) == Join(a) + "/" + Join(b)
    decreases |a|
  {
    if |a| == 1 {
      assert (a + b)[1..] == b;
    } else {
      assert (a + b)[1..] == a[1..] + b && (a + b)[0] == a[0];
      JoinAppend(a[1..], b);
      assert a[0] + "/" + (Join(a[1..]) + "/" + Join(b)) == (a[0] + "/" + Join(a[1..])) + "/" + Join(b);
    }
  }

  lemma {:induction false} JoinNonempty(segs: seq<string>)
    requires segs != [] && AllProper(segs)
    ensures Join(segs) != "" && Join(segs)[|Join(segs)| - 1] != '/'
    decreases |segs|
  {
    if |segs| == 1 {
      var x := segs[0];
      assert x[|x| - 1] in x;
    } else {
      JoinNonempty(segs[1..]);
    }
  }

  /** Proper segments survive the trip through the string. */
  lemma SegsAbs(segs: seq<string>)
    requires AllProper(segs)
    ensures Segs(Abs(segs)) == segs && CleanAbs(Abs(segs))
  {
    if segs != [] {
      JoinNonempty(segs);
      SplitJoin(segs);
      assert Abs(segs)[1..] == Join(segs);
    }
  }

  /** A clean absolute path is the one with its own segments. */
  lemma AbsSegs(p: string)
    requires p != "" && p[0] == '/'
    ensures Abs(Segs(p)) == p
  {
    if |p| > 1 {
      JoinSplit(p[1..]);
      assert p == "/" + p[1..];
    } else {
      assert p == "/" + "";
    }
  }

  // ------------------------------------------------------------ Clean

  lemma {:induction false} ResolveProper(acc: seq<string>, segs: seq<string>)
    requires AllProper(acc) && NoSlashes(segs)
    ensures AllProper(Resolve(acc, segs, true))
    decreases |segs|
  {
    if segs != [] {
      var rest := segs[1..];
      assert NoSlashes(rest);
      if segs[0] == "" || segs[0] == "." {
        ResolveProper(acc, rest);
      } else if segs[0] == ".." {
        if acc != [] && acc[|acc| - 1] != ".." { ResolveProper(acc[..|acc| - 1], rest); }
        else { ResolveProper(acc, rest); }
      } else {
        ResolveProper(acc + [segs[0]], rest);
      }
    }
  }

  lemma {:induction false} ResolveKeepsProper(acc: seq<string>, segs: seq<string>, rooted: bool)
    requires AllProper(segs)
    ensures Resolve(acc, segs, rooted) == acc + segs
    decreases |segs|
  {
    if segs != [] {
      ResolveKeepsProper(acc + [segs[0]], segs[1..], rooted);
      assert acc + [segs[0]] + segs[1..] == acc + segs;
    } else {
      assert acc + segs == acc;
    }
  }

  lemma {:induction false} ResolveAppend(acc: seq<string>, a: seq<string>, b: seq<string>, rooted: bool)
    ensures Resolve(acc, a + b, rooted) == Resolve(Resolve(acc, a, rooted), b, rooted)
    decreases |a|
  {
    if a == [] {
      assert a + b == b;
    } else {
      assert (a + b)[0] == a[0] && (a + b)[1..] == a[1..] + b;
      ResolveAppend(acc, a[1..], b, rooted);
      ResolveAppend(acc + [".."], a[1..], b, rooted);
      ResolveAppend(acc + [a[0]], a[1..], b, rooted);
      if acc != [] { ResolveAppend(acc[..|acc| - 1], a[1..], b, rooted); }
    }
  }

  /** Cleaning any absolute path gives a clean absolute path. */
  lemma CleanIsCleanAbs(p: string)
    requires p != "" && p[0] == '/'
    ensures CleanAbs(Clean(p)) && Segs(Clean(p)) == Resolve([], Split(p), true)
  {
    JoinSplit(p);
    ResolveProper([], Split(p));
    SegsAbs(Resolve([], Split(p), true));
  }

  /** What a cleaned path means, move by move from the root: an empty segment and a dot stay,
      two dots go up and stay at the root, and any other segment goes down. */
  lemma CleanFollows(p: string, seg: string)
    requires p != "" && p[0] == '/' && '/' !in seg
    ensures Clean("/") == "/"
    ensures var at := Segs(Clean(p));
            Segs(Clean(p + "/" + seg)) ==
            if seg == "" || seg == "." then at
            else if seg == ".." then (if at == [] then [] else at[..|at| - 1])
            else at + [seg]
  {
    var q := p + "/" + seg;
    assert q[0] == '/';
    CleanIsCleanAbs(p);
    CleanIsCleanAbs(q);
    CleanIsCleanAbs("/");
    SplitAppend(p, seg);
    SplitNone(seg);
    ResolveAppend([], Split(p), [seg], true);
    OneMove(Segs(Clean(p)), seg);
    assert Split("/") == ["", ""] && ["", ""][1..] == [""];
    AbsSegs(Clean("/"));
  }

  lemma OneMove(at: seq<string>, seg: string)
    requires AllProper(at)
    ensures Resolve(at, [seg], true) ==
            if seg == "" || seg == "." then at
            else if seg == ".." then (if at == [] then [] else at[..|at| - 1])
            else at + [seg]
  {
    assert [seg][1..] == [];
    assert at != [] ==> Proper(at[|at| - 1]);
  }

  /** A character that occurs in none of the segments. */
  predicate Free(segs: seq<string>, c: char) { forall i :: 0 <= i < |segs| ==> c !in segs[i] }

  lemma {:induction false} SplitFree(s: string, c: char)
    requires c !in s
    ensures Free(Split(s), c)
    decreases |s|
  {
    var i := Find(s, '/');
    if i < |s| {
      var rest := s[i + 1..];
      assert forall x :: x in rest ==> x in s;
      SplitFree(rest, c);
    }
  }

  lemma {:induction false} ResolveFree(acc: seq<string>, segs: seq<string>, c: char)
    requires Free(acc, c) && Free(segs, c)
    ensures Free(Resolve(acc, segs, true), c)
    decreases |segs|
  {
    if segs != [] {
      var rest := segs[1..];
      assert c !in segs[0] && Free(rest, c);
      if segs[0] == "" || segs[0] == "." { ResolveFree(acc, rest, c); }
      else if segs[0] == ".." && acc != [] && acc[|acc| - 1] != ".." { ResolveFree(acc[..|acc| - 1], rest, c); }
      else if segs[0] == ".." { ResolveFree(acc, rest, c); }
      else { ResolveFree(acc + [segs[0]], rest, c); }
    }
  }

  lemma {:induction false} JoinFree(segs: seq<string>, c: char)
    requires Free(segs, c) && c != '/'
    ensures c !in Join(segs)
    decreases |segs|
  {
    if |segs| > 1 {
      assert Free(segs[1..], c);
      JoinFree(segs[1..], c);
    }
  }

  /** Cleaning brings no character in but slashes. */
  lemma CleanFree(p: string, c: char)
    requires p != "" && p[0] == '/' && c !in p
    ensures c !in Clean(p)
  {
    assert p[0] in p;
    SplitFree(p, c);
    assert Free([], c);
    ResolveFree([], Split(p), c);
    JoinFree(Resolve([], Split(p), true), c);
  }

  lemma SplitAbs(segs: seq<string>)
    requires AllProper(segs)
    ensures Split(Abs(segs)) == [""] + (if segs == [] then [""] else segs)
  {
    SplitFirst("", Join(segs));
    assert "" + "/" + Join(segs) == Abs(segs);
    if segs == [] { SplitNone(""); } else { SplitJoin(segs); }
  }

  /** ...and a clean absolute path is left as it is. */
  lemma CleanFixes(p: string)
    requires CleanAbs(p)
    ensures Clean(p) == p
  {
    var segs := Segs(p);
    AbsSegs(p);
    SplitAbs(segs);
    var s := Split(p);
    assert s[0] == "" && s[1..] == if segs == [] then [""] else segs;
    if segs != [] { ResolveKeepsProper([], segs, true); assert [] + segs == segs; }
    else {
      var one: seq<string> := [""];
      assert one[1..] == [] && s[1..] == one;
      assert Resolve([], s, true) == Resolve([], one, true);
      assert Resolve([], one, true) == [];
    }
  }

  // ------------------------------------------------------------ Dir, Base, Join on clean paths

  /** What follows the last slash of a path is its last segment. */
  lemma {:induction false} LastSlash(a: string, name: string)
    requires '/' !in name
    ensures AfterLastSlash(a + "/" + name) == |a| + 1
    decreases |name|
  {
    var p := a + "/" + name;
    var n := |name|;
    if n == 0 {
      assert p[|p| - 1] == '/';
    } else {
      assert name[n - 1] in name && p[|p| - 1] == name[n - 1];
      assert p[..|p| - 1] == a + "/" + name[..n - 1];
      LastSlash(a, name[..n - 1]);
    }
  }

  /** A clean path below the root: its parent's spelling, a slash, its last segment. */
  function Stem(segs: seq<string>): string { if segs == [] then "" else Abs(segs) }

  lemma Snoc(p: string)
    requires CleanAbs(p) && Segs(p) != []
    ensures var segs := Segs(p); var n := |segs| - 1;
            p == Stem(segs[..n]) + "/" + segs[n] && AfterLastSlash(p) == |Stem(segs[..n])| + 1
  {
    var segs := Segs(p);
    var n := |segs| - 1;
    AbsSegs(p);
    assert segs == segs[..n] + [segs[n]];
    AbsSnoc(segs[..n], segs[n]);
    LastSlash(Stem(segs[..n]), segs[n]);
  }

  lemma AbsSnoc(segs: seq<string>, name: string)
    ensures Abs(segs + [name]) == Stem(segs) + "/" + name
  {
    if segs == [] {
      assert [] + [name] == [name];
    } else {
      JoinAppend(segs, [name]);
      assert "/" + (Join(segs) + "/" + name) == ("/" + Join(segs)) + "/" + name;
    }
  }

  /** Dir drops the last segment; the parent of the root is the root. */
  lemma DirDropsLast(p: string)
    requires CleanAbs(p)
    ensures var segs := Segs(p);
            Dir(p) == Abs(if segs == [] then [] else segs[..|segs| - 1]) && CleanAbs(Dir(p))
  {
    if Segs(p) == [] { DirOfRoot(p); } else { DirBelowRoot(p); }
  }

  lemma DirOfRoot(p: string)
    requires CleanAbs(p) && Segs(p) == []
    ensures Dir(p) == Abs([]) && CleanAbs(Dir(p))
  {
    AbsSegs(p);
    assert p == "/" && p[..1] == "/";
    CleanFixes("/");
    SegsAbs([]);
  }

  lemma DirBelowRoot(p: string)
    requires CleanAbs(p) && Segs(p) != []
    ensures Dir(p) == Abs(Segs(p)[..|Segs(p)| - 1]) && CleanAbs(Dir(p))
  {
    var front := Segs(p)[..|Segs(p)| - 1];
    Snoc(p);
    assert p[..|Stem(front)| + 1] == Stem(front) + "/";
    SegsAbs(front);
    CleanTrailingSlash(front);
  }

  lemma CleanTrailingSlash(segs: seq<string>)
    requires AllProper(segs)
    ensures Clean(Stem(segs) + "/") == Abs(segs)
  {
    if segs == [] {
      assert "" + "/" == "/" == Abs([]);
      SegsAbs([]);
      CleanFixes("/");
    } else {
      var p := Abs(segs) + "/";
      assert p == Abs(segs) + "/" + "";
      SplitAppend(Abs(segs), "");
      SplitAbs(segs);
      SplitNone("");
      ResolveAppend([], [""] + segs, [""], true);
      assert ([""] + segs)[1..] == segs && [""][1..] == [];
      ResolveKeepsProper([], segs, true);
      assert [] + segs == segs;
    }
  }

  lemma NoTrailingSlash(p: string)
    requires CleanAbs(p) && Segs(p) != []
    ensures p[|p| - 1] != '/' && TrimSlashes(p) == p
  {
    AbsSegs(p);
    JoinNonempty(Segs(p));
    assert p[|p| - 1] == Join(Segs(p))[|Join(Segs(p))| - 1];
  }

  /** Base is the last segment of anything below the root. */
  lemma BaseIsLast(p: string)
    requires CleanAbs(p) && p != "/"
    ensures Segs(p) != [] && Base(p) == Segs(p)[|Segs(p)| - 1] && Proper(Base(p))
  {
    var segs := Segs(p);
    var n := |segs| - 1;
    Snoc(p);
    NoTrailingSlash(p);
    assert p[|Stem(segs[..n])| + 1..] == segs[n];
  }

  /** Joining a proper name to a clean absolute path appends one segment. */
  lemma JoinAppendsOne(p: string, name: string)
    requires CleanAbs(p) && Proper(name)
    ensures JoinPath(p, name) == Abs(Segs(p) + [name])
    ensures Segs(JoinPath(p, name)) == Segs(p) + [name] && CleanAbs(JoinPath(p, name))
  {
    var segs := Segs(p);
    AbsSegs(p);
    SplitAppend(p, name);
    SplitNone(name);
    SplitAbs(segs);
    var all := Split(p) + [name];
    ResolveAppend([], Split(p), [name], true);
    ResolvedSelf(p);
    ResolveKeepsProper(segs, [name], true);
    SegsAbs(segs + [name]);
    assert (p + "/" + name)[0] == p[0];
  }

  lemma ResolvedSelf(p: string)
    requires CleanAbs(p)
    ensures Resolve([], Split(p), true) == Segs(p)
  {
    CleanIsCleanAbs(p);
    CleanFixes(p);
  }

  // ------------------------------------------------------------ Clean never lengthens

  /** The characters a list of segments needs, with a slash in front of each. */
  function Room(segs: seq<string>): nat {
    if segs == [] then 0 else |segs[0]| + 1 + Room(segs[1..])
  }

  lemma {:induction false} RoomAppend(a: seq<string>, b: seq<string>)
    ensures Room(a + b) == Room(a) + Room(b)
    decreases |a|
  {
    if a == [] {
      assert a + b == b;
    } else {
      assert (a + b)[0] == a[0] && (a + b)[1..] == a[1..] + b;
      RoomAppend(a[1..], b);
    }
  }

  lemma {:induction false} RoomOfJoin(segs: seq<string>)
    requires segs != []
    ensures |Join(segs)| + 1 == Room(segs)
    decreases |segs|
  {
    if |segs| > 1 { RoomOfJoin(segs[1..]); }
  }

  lemma RoomOfFront(segs: seq<string>)
    requires segs != []
    ensures Room(segs[..|segs| - 1]) <= Room(segs)
  {
    var n := |segs| - 1;
    assert segs == segs[..n] + segs[n..];
    RoomAppend(segs[..n], segs[n..]);
  }

  lemma {:induction false} ResolveFits(acc: seq<string>, segs: seq<string>)
    ensures Room(Resolve(acc, segs, true)) <= Room(acc) + Room(segs)
    decreases |segs|
  {
    if segs != [] {
      var rest := segs[1..];
      if segs[0] == "" || segs[0] == "." {
        ResolveFits(acc, rest);
      } else if segs[0] == ".." {
        if acc != [] && acc[|acc| - 1] != ".." {
          RoomOfFront(acc);
          ResolveFits(acc[..|acc| - 1], rest);
        } else {
          ResolveFits(acc, rest);
        }
      } else {
        RoomAppend(acc, [segs[0]]);
        assert Room([segs[0]]) == |segs[0]| + 1;
        ResolveFits(acc + [segs[0]], rest);
      }
    }
  }

  lemma CleanFits(p: string)
    requires p != "" && p[0] == '/'
    ensures |Clean(p)| <= |p|
  {
    var segs := Resolve([], Split(p), true);
    var tail := p[1..];
    assert p == "" + "/" + tail;
    SplitFirst("", tail);
    assert Split(p)[1..] == Split(tail);
    assert Resolve([], Split(p), true) == Resolve([], Split(tail), true);
    ResolveFits([], Split(tail));
    JoinSplit(tail);
    RoomOfJoin(Split(tail));
    if segs != [] { RoomOfJoin(segs); }
  }
}
