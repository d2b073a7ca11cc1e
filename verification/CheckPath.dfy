/** The one validator of NAS destinations (internal/nas/path.go, and Validate and
    SplitRoots of internal/nas/nas.go). NFC normalisation is an arbitrary function; the
    resolver is arbitrary too, and may answer the same question differently each time. */
module CheckPath {
  import opened Common
  import opened Paths

  type Nfc = string -> string

  /** The answer to the n-th question; None is an error. */
  type Resolver = (nat, string) -> Option<string>

  datatype PathError = Empty | NullByte | NotAbsolute | NoRoots | Outside(path: string) | Unusable | Unresolvable

  type Checked = Result<string, PathError>

  // ------------------------------------------------------------ normalise

  /** unicode.IsSpace. */
  predicate IsSpace(c: char) {
    || c == ' ' || '\t' <= c <= '\r' || c == '\U{85}' || c == '\U{A0}' || c == '\U{1680}'
    || '\U{2000}' <= c <= '\U{200A}' || c == '\U{2028}' || c == '\U{2029}' || c == '\U{202F}'
    || c == '\U{205F}' || c == '\U{3000}'
  }

  function TrimLeft(s: string): string {
    if s != "" && IsSpace(s[0]) then TrimLeft(s[1..]) else s
  }

  function TrimRight(s: string): string {
    if s != "" && IsSpace(s[|s| - 1]) then TrimRight(s[..|s| - 1]) else s
  }

  /** strings.TrimSpace. */
  function TrimSpace(s: string): string { TrimRight(TrimLeft(s)) }

  function Normalise(nfc: Nfc, p: string): (r: Checked)
    ensures r.Ok? ==> CleanAbs(r.value)
  {
    var q := nfc(TrimSpace(p));
    if q == "" then Err(Empty)
    else if '\0' in q then Err(NullByte)
    else if q[0] != '/' then Err(NotAbsolute)
    else
      CleanIsCleanAbs(q);
      Ok(Clean(q))
  }

  lemma {:induction false} TrimRightFits(s: string)
    ensures TrimRight(s) <= s
    ensures TrimRight(s) == s <==> s == "" || !IsSpace(s[|s| - 1])
    ensures s != "" && !IsSpace(s[0]) ==> TrimRight(s) != ""
    decreases |s|
  {
    if s != "" && IsSpace(s[|s| - 1]) { TrimRightFits(s[..|s| - 1]); }
  }

  lemma {:induction false} TrimLeftFits(s: string) returns (i: nat)
    ensures i <= |s| && TrimLeft(s) == s[i..] && forall k :: 0 <= k < i ==> IsSpace(s[k])
    ensures TrimLeft(s) != "" ==> !IsSpace(TrimLeft(s)[0])
    decreases |s|
  {
    hide IsSpace;
    i := 0;
    if s != "" && IsSpace(s[0]) {
      var j := TrimLeftFits(s[1..]);
      i := j + 1;
      assert forall k :: 0 < k < i ==> s[k] == s[1..][k - 1];
    }
  }

  lemma {:induction false} TrimRightDrops(s: string)
    ensures TrimRight(s) <= s && forall k :: |TrimRight(s)| <= k < |s| ==> IsSpace(s[k])
    ensures TrimRight(s) != "" ==> !IsSpace(TrimRight(s)[|TrimRight(s)| - 1])
    decreases |s|
  {
    hide IsSpace;
    if s != "" && IsSpace(s[|s| - 1]) { TrimRightDrops(s[..|s| - 1]); }
  }

  /** What is left is one piece of the text: only spaces are cut off around it, and it
      neither begins nor ends with one. */
  lemma TrimSpaceIs(s: string) returns (i: nat, j: nat)
    ensures i <= j <= |s| && TrimSpace(s) == s[i..j]
    ensures forall k :: 0 <= k < |s| && !(i <= k < j) ==> IsSpace(s[k])
    ensures i < j ==> !IsSpace(s[i]) && !IsSpace(s[j - 1])
  {
    hide IsSpace;
    i := TrimLeftFits(s);
    var t := TrimLeft(s);
    TrimRightDrops(t);
    j := i + |TrimRight(t)|;
    assert forall k :: j <= k < |s| ==> s[k] == t[k - i];
    assert TrimRight(t) == t[..|TrimRight(t)|] == s[i..j];
    assert t != "" ==> t[0] == s[i];
  }

  /** A path is refused exactly when, trimmed and normalised, it is empty, has a null byte
      or does not start at the root; otherwise the result has no null byte either, and names
      the place that the path leads to. */
  lemma NormaliseExactly(nfc: Nfc, p: string)
    ensures var q := nfc(TrimSpace(p)); var r := Normalise(nfc, p);
            && (r == Err(Empty) <==> q == "")
            && (r == Err(NullByte) <==> q != "" && '\0' in q)
            && (r == Err(NotAbsolute) <==> q != "" && '\0' !in q && q[0] != '/')
            && (r.Ok? <==> q != "" && '\0' !in q && q[0] == '/')
            && (r.Ok? ==> r.value == Clean(q) && '\0' !in r.value)
  {
    var q := nfc(TrimSpace(p));
    if q != "" && '\0' !in q && q[0] == '/' { CleanFree(q, '\0'); }
  }

  /** Normalising a second time changes a clean path exactly when it ends in a space: "/a /"
      becomes "/a ", and that becomes "/a". So the path on which the links are checked need
      not be the one whose text was checked first. */
  lemma NormaliseAgain(nfc: Nfc, c: string)
    requires CleanAbs(c) && '\0' !in c && nfc(TrimSpace(c)) == TrimSpace(c)
    ensures Normalise(nfc, c).Ok?
    ensures Normalise(nfc, c) == Ok(c) <==> !IsSpace(c[|c| - 1])
  {
    assert TrimLeft(c) == c;
    var q := TrimRight(c);
    TrimRightFits(c);
    assert q[0] == c[0] && forall i :: 0 <= i < |q| ==> q[i] == c[i];
    if IsSpace(c[|c| - 1]) {
      CleanFits(q);
    } else {
      CleanFixes(c);
    }
  }

  // ------------------------------------------------------------ containment

  function TrimOneSlash(r: string): string {
    if r != "" && r[|r| - 1] == '/' then r[..|r| - 1] else r
  }

  /** The string test: the root itself, or the root's spelling followed by a slash. */
  predicate InsideText(p: string, r: string) {
    p == r || TrimOneSlash(r) + "/" <= p
  }

  /** The meaning: the root's segments are the first segments of the path. */
  predicate Inside(p: string, r: string) {
    Segs(r) <= Segs(p)
  }

  predicate Contained(p: string, roots: seq<string>) {
    exists i :: 0 <= i < |roots| && InsideText(p, roots[i])
  }

  predicate InsideSome(p: string, roots: seq<string>) {
    exists i :: 0 <= i < |roots| && Inside(p, roots[i])
  }

  predicate AllClean(roots: seq<string>) {
    forall i :: 0 <= i < |roots| ==> CleanAbs(roots[i])
  }

  lemma RootWithoutSlash(r: string)
    requires CleanAbs(r)
    ensures TrimOneSlash(r) == Stem(Segs(r))
  {
    AbsSegs(r);
    if Segs(r) != [] { NoTrailingSlash(r); }
  }

  lemma PrefixSegs(rs: seq<string>, p: string)
    requires AllProper(rs) && CleanAbs(p) && Stem(rs) + "/" <= p
    ensures rs <= Segs(p)
  {
    if rs != [] {
      var t := p[|Stem(rs)| + 1..];
      assert p == Abs(rs) + "/" + t;
      assert p[1..] == Join(rs) + "/" + t;
      SplitAppend(Join(rs), t);
      SplitJoin(rs);
      assert rs <= rs + Split(t);
    }
  }

  lemma SegsPrefix(rs: seq<string>, rest: seq<string>)
    requires AllProper(rs) && rest != []
    ensures Stem(rs) + "/" <= Abs(rs + rest)
  {
    if rs == [] {
      assert rs + rest == rest;
      assert "" + "/" == "/";
    } else {
      JoinAppend(rs, rest);
      assert "/" + (Join(rs) + "/" + Join(rest)) == (Abs(rs) + "/") + Join(rest);
    }
  }

  /** On clean absolute paths, the root "/" included, the two are the same. */
  lemma InsideTextIsInside(p: string, r: string)
    requires CleanAbs(p) && CleanAbs(r)
    ensures InsideText(p, r) <==> Inside(p, r)
  {
    var ps, rs := Segs(p), Segs(r);
    RootWithoutSlash(r);
    AbsSegs(p);
    AbsSegs(r);
    if Stem(rs) + "/" <= p { PrefixSegs(rs, p); }
    if rs <= ps && rs != ps {
      var rest := ps[|rs|..];
      assert ps == rs + rest;
      SegsPrefix(rs, rest);
    }
  }

  lemma ContainedIsInsideSome(p: string, roots: seq<string>)
    requires CleanAbs(p) && AllClean(roots)
    ensures Contained(p, roots) <==> InsideSome(p, roots)
  {
    forall i | 0 <= i < |roots| ensures InsideText(p, roots[i]) <==> Inside(p, roots[i]) {
      InsideTextIsInside(p, roots[i]);
    }
    if Contained(p, roots) {
      var i :| 0 <= i < |roots| && InsideText(p, roots[i]);
      assert Inside(p, roots[i]);
    }
    if InsideSome(p, roots) {
      var i :| 0 <= i < |roots| && Inside(p, roots[i]);
      assert InsideText(p, roots[i]);
    }
  }

  // ------------------------------------------------------------ specification, on segments

  /** The usable roots: blank and relative ones are ignored. */
  function CleanRoots(nfc: Nfc, roots: seq<string>): (r: seq<string>)
    ensures AllClean(r)
    decreases |roots|
  {
    if roots == [] then []
    else
      var rest := CleanRoots(nfc, roots[1..]);
      match Normalise(nfc, roots[0])
      case Ok(c) => [c] + rest
      case Err(_) => rest
  }

  /** A resolved path is accepted when it is usable and inside a root. */
  function Accept(nfc: Nfc, roots: seq<string>, resolved: string): (r: Checked)
    ensures r.Ok? ==> CleanAbs(r.value) && InsideSome(r.value, roots)
  {
    match Normalise(nfc, resolved)
    case Err(_) => Err(Unusable)
    case Ok(rc) => if InsideSome(rc, roots) then Ok(rc) else Err(Outside(rc))
  }

  /** Ask about this directory, then its parent, and so on up to the root: the first answer. */
  function FirstAnswer(resolve: Resolver, asked: nat, segs: seq<string>): Option<string>
    decreases |segs|
  {
    match resolve(asked, Abs(segs))
    case Some(resolved) => Some(resolved)
    case None => if segs == [] then None else FirstAnswer(resolve, asked + 1, segs[..|segs| - 1])
  }

  /** It decides. */
  function Nearest(nfc: Nfc, roots: seq<string>, resolve: Resolver, asked: nat, segs: seq<string>): Checked {
    match FirstAnswer(resolve, asked, segs)
    case Some(resolved) => Accept(nfc, roots, resolved)
    case None => Err(Unresolvable)
  }

  function Parent(segs: seq<string>): seq<string> {
    if segs == [] then [] else segs[..|segs| - 1]
  }

  function Check(nfc: Nfc, p: string, roots: seq<string>, resolve: Option<Resolver>): Checked {
    match Normalise(nfc, p)
    case Err(e) => Err(e)
    case Ok(clean) =>
      var cleanRoots := CleanRoots(nfc, roots);
      if cleanRoots == [] then Err(NoRoots)
      else if !InsideSome(clean, cleanRoots) then Err(Outside(clean))
      else
        match resolve
        case None => Ok(clean)
        case Some(ask) =>
          match ask(0, clean)
          case Some(resolved) => Accept(nfc, cleanRoots, resolved)
          case None =>
            match Nearest(nfc, cleanRoots, ask, 1, Parent(Segs(clean)))
            case Ok(_) => Ok(clean)
            case Err(e) => Err(e)
  }

  // ------------------------------------------------------------ the code

  method AcceptResolved(nfc: Nfc, roots: seq<string>, resolved: string) returns (r: Checked)
    requires AllClean(roots)
    ensures r == Accept(nfc, roots, resolved)
  {
    var n := Normalise(nfc, resolved);
    match n
    case Err(_) => return Err(Unusable);
    case Ok(rc) =>
      ContainedIsInsideSome(rc, roots);
      if !Contained(rc, roots) { return Err(Outside(rc)); }
      return Ok(rc);
  }

  /** resolveAncestor: the loop ends because every parent has one segment fewer. */
  method ResolveAncestor(nfc: Nfc, p: string, roots: seq<string>, resolve: Resolver) returns (r: Checked)
    requires CleanAbs(p) && AllClean(roots)
    ensures r == Nearest(nfc, roots, resolve, 1, Parent(Segs(p)))
  {
    DirDropsLast(p);
    var cur, asked := Dir(p), 1;
    SegsAbs(Parent(Segs(p)));
    while true
      invariant CleanAbs(cur)
      invariant FirstAnswer(resolve, asked, Segs(cur)) == FirstAnswer(resolve, 1, Parent(Segs(p)))
      decreases |Segs(cur)|
    {
      AbsSegs(cur);
      var answer := resolve(asked, cur);
      if answer.Some? {
        r := AcceptResolved(nfc, roots, answer.value);
        return;
      }
      if cur == "/" {
        return Err(Unresolvable);
      }
      assert |cur| > 1;
      DirDropsLast(cur);
      SegsAbs(Parent(Segs(cur)));
      cur, asked := Dir(cur), asked + 1;
    }
  }

  /** The roots found so far, and those still to be found, are all usable roots. */
  predicate RootsUnderway(nfc: Nfc, roots: seq<string>, i: nat, found: seq<string>) {
    i <= |roots| && found + CleanRoots(nfc, roots[i..]) == CleanRoots(nfc, roots)
  }

  lemma OneMoreRoot(nfc: Nfc, roots: seq<string>, i: nat, found: seq<string>)
    requires i < |roots| && RootsUnderway(nfc, roots, i, found)
    ensures var cr := Normalise(nfc, roots[i]);
            RootsUnderway(nfc, roots, i + 1, if cr.Ok? then found + [cr.value] else found)
  {
    assert roots[i..][0] == roots[i] && roots[i..][1..] == roots[i + 1..];
    var cr := Normalise(nfc, roots[i]);
    var rest := CleanRoots(nfc, roots[i + 1..]);
    if cr.Ok? { assert found + [cr.value] + rest == found + ([cr.value] + rest); }
  }

  lemma AllRoots(nfc: Nfc, roots: seq<string>, found: seq<string>)
    ensures RootsUnderway(nfc, roots, 0, [])
    ensures RootsUnderway(nfc, roots, |roots|, found) ==> found == CleanRoots(nfc, roots)
  {
    assert roots[0..] == roots && roots[|roots|..] == [];
    assert [] + CleanRoots(nfc, roots) == CleanRoots(nfc, roots) && found + [] == found;
  }

  /** The loop over the configured roots. */
  method UsableRoots(nfc: Nfc, roots: seq<string>) returns (cleanRoots: seq<string>)
    ensures cleanRoots == CleanRoots(nfc, roots)
  {
    cleanRoots := [];
    AllRoots(nfc, roots, []);
    for i := 0 to |roots|
      invariant RootsUnderway(nfc, roots, i, cleanRoots)
    {
      OneMoreRoot(nfc, roots, i, cleanRoots);
      var cr := Normalise(nfc, roots[i]);
      if cr.Ok? {
        cleanRoots := cleanRoots + [cr.value];
      }
    }
    AllRoots(nfc, roots, cleanRoots);
  }

  /** CheckPath. */
  method Validator(nfc: Nfc, p: string, roots: seq<string>, resolve: Option<Resolver>) returns (r: Checked)
    ensures r == Check(nfc, p, roots, resolve)
    ensures Decided(nfc, p, roots, resolve, r)
  {
    hide Decided;
    CheckDecides(nfc, p, roots, resolve);
    var normalised := Normalise(nfc, p);
    if normalised.Err? { return Err(normalised.error); }
    var clean := normalised.value;

    var cleanRoots := UsableRoots(nfc, roots);
    if |cleanRoots| == 0 { return Err(NoRoots); }

    ContainedIsInsideSome(clean, cleanRoots);
    if !Contained(clean, cleanRoots) { return Err(Outside(clean)); }
    if resolve.None? { return Ok(clean); }

    var answer := resolve.value(0, clean);
    if answer.None? {
      var ancestor := ResolveAncestor(nfc, clean, cleanRoots, resolve.value);
      if ancestor.Err? { return Err(ancestor.error); }
      return Ok(clean);
    }
    r := AcceptResolved(nfc, cleanRoots, answer.value);
  }

  // ------------------------------------------------------------ what an accepted path is

  /** Whatever the resolver answers, an accepted path is clean, absolute and inside one of
      the configured roots. */
  lemma AcceptedIsConfined(nfc: Nfc, p: string, roots: seq<string>, resolve: Option<Resolver>)
    requires Check(nfc, p, roots, resolve).Ok?
    ensures var out := Check(nfc, p, roots, resolve).value;
            CleanAbs(out) && InsideSome(out, CleanRoots(nfc, roots))
  {
  }

  /** Every usable root is one of the configured roots, normalised. */
  lemma {:induction false} CleanRootsAreConfigured(nfc: Nfc, roots: seq<string>, i: nat) returns (k: nat)
    requires i < |CleanRoots(nfc, roots)|
    ensures k < |roots| && Normalise(nfc, roots[k]) == Ok(CleanRoots(nfc, roots)[i])
    decreases |roots|
  {
    hide Normalise, AllClean, CleanAbs;
    var first := Normalise(nfc, roots[0]);
    if first.Ok? && i == 0 {
      k := 0;
    } else {
      var j := CleanRootsAreConfigured(nfc, roots[1..], if first.Ok? then i - 1 else i);
      k := j + 1;
    }
  }

  /** The j-th directory upwards, counted from `segs` itself. */
  function Up(segs: seq<string>, j: nat): seq<string> {
    if j == 0 || segs == [] then segs else Up(segs[..|segs| - 1], j - 1)
  }

  /** What the resolver says about it. */
  function Answer(resolve: Resolver, asked: nat, segs: seq<string>, j: nat): Option<string> {
    resolve(asked + j, Abs(Up(segs, j)))
  }

  /** The first k directories upwards do not resolve. */
  predicate Silent(resolve: Resolver, asked: nat, segs: seq<string>, k: nat)
    decreases k
  {
    k == 0 || (Silent(resolve, asked, segs, k - 1) && Answer(resolve, asked, segs, k - 1).None?)
  }

  /** The k-th directory upwards is the nearest one that resolves. */
  predicate NearestUpwards(resolve: Resolver, asked: nat, segs: seq<string>, k: nat, resolved: string) {
    k <= |segs| && Silent(resolve, asked, segs, k) && Answer(resolve, asked, segs, k) == Some(resolved)
  }

  lemma AnswerShift(resolve: Resolver, asked: nat, segs: seq<string>, j: nat)
    requires segs != []
    ensures Answer(resolve, asked, segs, j + 1) == Answer(resolve, asked + 1, segs[..|segs| - 1], j)
  {
    assert asked + (j + 1) == asked + 1 + j;
  }

  lemma {:induction false} SilentUp(resolve: Resolver, asked: nat, segs: seq<string>, k: nat)
    requires segs != [] && Answer(resolve, asked, segs, 0).None?
    ensures Silent(resolve, asked + 1, segs[..|segs| - 1], k) <==> Silent(resolve, asked, segs, k + 1)
    decreases k
  {
    if k > 0 {
      SilentUp(resolve, asked, segs, k - 1);
      AnswerShift(resolve, asked, segs, k - 1);
    } else {
      assert Silent(resolve, asked, segs, 0);
    }
  }

  lemma {:induction false} SilentFirst(resolve: Resolver, asked: nat, segs: seq<string>, k: nat)
    requires k > 0 && Silent(resolve, asked, segs, k)
    ensures Answer(resolve, asked, segs, 0).None?
    decreases k
  {
    if k > 1 { SilentFirst(resolve, asked, segs, k - 1); }
  }

  lemma {:induction false} FirstIsNearest(resolve: Resolver, asked: nat, segs: seq<string>) returns (k: nat)
    requires FirstAnswer(resolve, asked, segs).Some?
    ensures NearestUpwards(resolve, asked, segs, k, FirstAnswer(resolve, asked, segs).value)
    decreases |segs|
  {
    assert Answer(resolve, asked, segs, 0) == resolve(asked, Abs(segs));
    if Answer(resolve, asked, segs, 0).Some? {
      k := 0;
    } else {
      var j := FirstIsNearest(resolve, asked + 1, segs[..|segs| - 1]);
      k := j + 1;
      SilentUp(resolve, asked, segs, j);
      AnswerShift(resolve, asked, segs, j);
    }
  }

  lemma {:induction false} NearestIsFirst(resolve: Resolver, asked: nat, segs: seq<string>, k: nat, resolved: string)
    requires NearestUpwards(resolve, asked, segs, k, resolved)
    ensures FirstAnswer(resolve, asked, segs) == Some(resolved)
    decreases k
  {
    assert Answer(resolve, asked, segs, 0) == resolve(asked, Abs(segs));
    if k > 0 {
      SilentFirst(resolve, asked, segs, k);
      SilentUp(resolve, asked, segs, k - 1);
      AnswerShift(resolve, asked, segs, k - 1);
      NearestIsFirst(resolve, asked + 1, segs[..|segs| - 1], k - 1, resolved);
    }
  }

  ghost predicate InsideUpwards(nfc: Nfc, roots: seq<string>, resolve: Resolver, asked: nat, segs: seq<string>, k: nat) {
    var answer := Answer(resolve, asked, segs, k);
    answer.Some? && NearestUpwards(resolve, asked, segs, k, answer.value) && Accept(nfc, roots, answer.value).Ok?
  }

  /** The fallback for a path that does not resolve succeeds exactly when the nearest
      ancestor that does resolve, resolves inside a root. */
  lemma FallbackIff(nfc: Nfc, roots: seq<string>, resolve: Resolver, asked: nat, segs: seq<string>)
    ensures Nearest(nfc, roots, resolve, asked, segs).Ok? <==>
            exists k: nat :: InsideUpwards(nfc, roots, resolve, asked, segs, k)
  {
    if Nearest(nfc, roots, resolve, asked, segs).Ok? {
      var k := FirstIsNearest(resolve, asked, segs);
      assert InsideUpwards(nfc, roots, resolve, asked, segs, k);
    }
    if k: nat :| InsideUpwards(nfc, roots, resolve, asked, segs, k) {
      NearestIsFirst(resolve, asked, segs, k, Answer(resolve, asked, segs, k).value);
    }
  }

  // ------------------------------------------------------------ exactly which paths are accepted

  predicate InRoot(nfc: Nfc, c: string, root: string) {
    Normalise(nfc, root).Ok? && Inside(c, Normalise(nfc, root).value)
  }

  /** The path lies in one of the configured roots that can be used. */
  predicate InsideUsable(nfc: Nfc, c: string, roots: seq<string>) {
    exists i :: 0 <= i < |roots| && InRoot(nfc, c, roots[i])
  }

  /** An answer of the server that names a place inside. */
  predicate LeadsInside(nfc: Nfc, roots: seq<string>, answer: string) {
    Normalise(nfc, answer).Ok? && InsideUsable(nfc, Normalise(nfc, answer).value, roots)
  }

  /** Asked on the text alone: the path normalises to this one, which is inside. */
  predicate Named(nfc: Nfc, p: string, roots: seq<string>, out: string) {
    Normalise(nfc, p) == Ok(out) && InsideUsable(nfc, out, roots)
  }

  /** The k-th directory upwards from the path's parent is the first that resolves, and it
      resolves inside. */
  predicate AncestorInside(nfc: Nfc, roots: seq<string>, ask: Resolver, c: string, k: nat) {
    var answer := Answer(ask, 1, Parent(Segs(c)), k);
    answer.Some? && NearestUpwards(ask, 1, Parent(Segs(c)), k, answer.value) && LeadsInside(nfc, roots, answer.value)
  }

  /** Following links: what the path resolves to is inside, and is what is returned; or the
      path does not resolve, but the nearest directory above it that does, resolves inside. */
  ghost predicate Admitted(nfc: Nfc, p: string, roots: seq<string>, ask: Resolver, out: string) {
    Normalise(nfc, p).Ok? &&
    var c := Normalise(nfc, p).value;
    InsideUsable(nfc, c, roots) &&
    match ask(0, c)
    case Some(x) => Normalise(nfc, x) == Ok(out) && InsideUsable(nfc, out, roots)
    case None => out == c && exists k: nat :: AncestorInside(nfc, roots, ask, c, k)
  }

  lemma {:induction false} UsableRootIsClean(nfc: Nfc, roots: seq<string>, i: nat) returns (k: nat)
    requires i < |roots| && Normalise(nfc, roots[i]).Ok?
    ensures k < |CleanRoots(nfc, roots)| && CleanRoots(nfc, roots)[k] == Normalise(nfc, roots[i]).value
    decreases |roots|
  {
    hide Normalise, AllClean, CleanAbs;
    if i == 0 {
      k := 0;
    } else {
      var j := UsableRootIsClean(nfc, roots[1..], i - 1);
      k := if Normalise(nfc, roots[0]).Ok? then j + 1 else j;
    }
  }

  lemma UsableIsClean(nfc: Nfc, c: string, roots: seq<string>)
    ensures InsideUsable(nfc, c, roots) <==> InsideSome(c, CleanRoots(nfc, roots))
  {
    var clean := CleanRoots(nfc, roots);
    if i :| 0 <= i < |roots| && InRoot(nfc, c, roots[i]) {
      var k := UsableRootIsClean(nfc, roots, i);
      assert Inside(c, clean[k]);
    }
    if i :| 0 <= i < |clean| && Inside(c, clean[i]) {
      var k := CleanRootsAreConfigured(nfc, roots, i);
      assert InRoot(nfc, c, roots[k]);
    }
  }

  lemma AcceptIsInside(nfc: Nfc, roots: seq<string>, answer: string)
    ensures var r := Accept(nfc, CleanRoots(nfc, roots), answer);
            r.Ok? <==> LeadsInside(nfc, roots, answer)
    ensures var r := Accept(nfc, CleanRoots(nfc, roots), answer);
            r.Ok? ==> Ok(r.value) == Normalise(nfc, answer)
  {
    hide CleanRoots;
    if Normalise(nfc, answer).Ok? { UsableIsClean(nfc, Normalise(nfc, answer).value, roots); }
  }

  lemma NearestIsInside(nfc: Nfc, roots: seq<string>, ask: Resolver, c: string)
    ensures Nearest(nfc, CleanRoots(nfc, roots), ask, 1, Parent(Segs(c))).Ok? <==>
            exists k: nat :: AncestorInside(nfc, roots, ask, c, k)
  {
    hide Accept, LeadsInside, Nearest, NearestUpwards, CleanRoots;
    var clean, up := CleanRoots(nfc, roots), Parent(Segs(c));
    FallbackIff(nfc, clean, ask, 1, up);
    forall k: nat ensures InsideUpwards(nfc, clean, ask, 1, up, k) <==> AncestorInside(nfc, roots, ask, c, k) {
      if Answer(ask, 1, up, k).Some? { AcceptIsInside(nfc, roots, Answer(ask, 1, up, k).value); }
    }
  }

  /** Which paths are accepted, and what is returned for them. */
  ghost predicate Decided(nfc: Nfc, p: string, roots: seq<string>, resolve: Option<Resolver>, r: Checked) {
    match resolve
    case None => forall out :: r == Ok(out) <==> Named(nfc, p, roots, out)
    case Some(ask) => forall out :: r == Ok(out) <==> Admitted(nfc, p, roots, ask, out)
  }

  lemma OnTheText(nfc: Nfc, p: string, roots: seq<string>, c: string)
    requires Normalise(nfc, p) == Ok(c)
    ensures InsideUsable(nfc, c, roots) <==> Check(nfc, p, roots, None) == Ok(c)
    ensures !InsideUsable(nfc, c, roots) ==> forall resolve :: Check(nfc, p, roots, resolve).Err?
  {
    hide Normalise, Inside, CleanRoots, InsideUsable, Nearest, Accept;
    UsableIsClean(nfc, c, roots);
  }

  lemma OverLinks(nfc: Nfc, p: string, roots: seq<string>, ask: Resolver, c: string, out: string)
    requires Normalise(nfc, p) == Ok(c) && InsideUsable(nfc, c, roots)
    ensures Check(nfc, p, roots, Some(ask)) == Ok(out) <==> Admitted(nfc, p, roots, ask, out)
  {
    hide Normalise, Inside, CleanRoots, InsideUsable, Nearest, Accept, AncestorInside;
    UsableIsClean(nfc, c, roots);
    if ask(0, c).Some? { AcceptIsInside(nfc, roots, ask(0, c).value); }
    else { NearestIsInside(nfc, roots, ask, c); }
  }

  lemma CheckDecides(nfc: Nfc, p: string, roots: seq<string>, resolve: Option<Resolver>)
    ensures Decided(nfc, p, roots, resolve, Check(nfc, p, roots, resolve))
  {
    var n := Normalise(nfc, p);
    if n.Ok? {
      hide Normalise, Check, InsideUsable;
      OnTheText(nfc, p, roots, n.value);
      if resolve.Some? && InsideUsable(nfc, n.value, roots) {
        forall out ensures Check(nfc, p, roots, resolve) == Ok(out) <==> Admitted(nfc, p, roots, resolve.value, out) {
          OverLinks(nfc, p, roots, resolve.value, n.value, out);
        }
      }
    }
  }
}
