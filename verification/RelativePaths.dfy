/** Clean relative paths, and what becomes of one when the prefix of an absolute path is put
    in front of it. */
module RelativePaths {
  import opened Paths

  /** A proper segment, or a step up with nothing but steps up in front. */
  predicate UpwardAt(segs: seq<string>, i: nat)
    requires i < |segs|
  {
    Proper(segs[i]) || (segs[i] == ".." && (i == 0 || segs[i - 1] == ".."))
  }

  /** Segments of a clean relative path: some steps up, then proper segments. */
  predicate Upward(segs: seq<string>) { forall i :: 0 <= i < |segs| ==> UpwardAt(segs, i) }

  lemma UpwardSlashes(segs: seq<string>)
    requires Upward(segs)
    ensures NoSlashes(segs)
  {
    forall i | 0 <= i < |segs| ensures '/' !in segs[i] {
      assert UpwardAt(segs, i);
      assert '/' !in "..";
    }
  }

  lemma UpwardSnoc(acc: seq<string>, s: string)
    requires Upward(acc) && (Proper(s) || (s == ".." && (acc == [] || acc[|acc| - 1] == "..")))
    ensures Upward(acc + [s])
  {
    forall i | 0 <= i < |acc + [s]| ensures UpwardAt(acc + [s], i) {
      if i < |acc| { assert UpwardAt(acc, i); }
    }
  }

  lemma UpwardFront(segs: seq<string>, k: nat)
    requires Upward(segs) && k <= |segs|
    ensures Upward(segs[..k])
  {
    forall i | 0 <= i < k ensures UpwardAt(segs[..k], i) {
      assert UpwardAt(segs, i);
    }
  }

  lemma {:induction false} ResolveIsUpward(acc: seq<string>, segs: seq<string>)
    requires Upward(acc) && NoSlashes(segs)
    ensures Upward(Resolve(acc, segs, false))
    decreases |segs|
  {
    if segs != [] {
      var s, rest := segs[0], segs[1..];
      assert '/' !in s && NoSlashes(rest);
      if s == "" || s == "." {
        ResolveIsUpward(acc, rest);
      } else if s == ".." && acc != [] && acc[|acc| - 1] != ".." {
        UpwardFront(acc, |acc| - 1);
        ResolveIsUpward(acc[..|acc| - 1], rest);
      } else {
        UpwardSnoc(acc, s);
        ResolveIsUpward(acc + [s], rest);
      }
    }
  }

  lemma {:induction false} ResolveKeepsUpward(acc: seq<string>, segs: seq<string>)
    requires Upward(acc + segs)
    ensures Resolve(acc, segs, false) == acc + segs
    decreases |segs|
  {
    if segs == [] {
      assert acc + segs == acc;
    } else {
      var all := acc + segs;
      assert UpwardAt(all, |acc|);
      assert all[|acc|] == segs[0] && (acc != [] ==> all[|acc| - 1] == acc[|acc| - 1]);
      assert all == acc + [segs[0]] + segs[1..];
      ResolveKeepsUpward(acc + [segs[0]], segs[1..]);
    }
  }

  /** A clean relative path. */
  predicate CleanRelative(p: string) { p != "" && p[0] != '/' && Upward(Split(p)) && Split(p)[0] != "" }

  lemma JoinedRelative(segs: seq<string>)
    requires segs != [] && Upward(segs)
    ensures Split(Join(segs)) == segs && CleanRelative(Join(segs))
  {
    UpwardSlashes(segs);
    SplitJoin(segs);
    assert UpwardAt(segs, 0);
    assert segs[0] != "" && segs[0][0] in segs[0];
    if |segs| > 1 { assert Join(segs)[0] == segs[0][0]; }
  }

  lemma CleanFixesRelative(p: string)
    requires CleanRelative(p)
    ensures Clean(p) == p
  {
    assert [] + Split(p) == Split(p);
    ResolveKeepsUpward([], Split(p));
    JoinSplit(p);
  }

  /** A child of a clean relative path. */
  lemma RelativeChild(p: string, name: string)
    requires CleanRelative(p) && Proper(name)
    ensures Split(p + "/" + name) == Split(p) + [name] && CleanRelative(p + "/" + name)
    ensures JoinPath(p, name) == p + "/" + name
  {
    SplitAppend(p, name);
    SplitNone(name);
    UpwardSnoc(Split(p), name);
    CleanFixesRelative(p + "/" + name);
  }

  /** Gluing a prefix to a relative path joins the prefix's last segment to the first one. */
  lemma Glued(prefix: string, p: string)
    requires CleanAbs(prefix) && prefix != "/" && CleanRelative(p)
    ensures var ps, segs := Segs(prefix), Split(p);
            ps != [] && prefix + p == Abs(ps[..|ps| - 1] + [ps[|ps| - 1] + segs[0]] + segs[1..])
  {
    var ps := Segs(prefix);
    AbsSegs(prefix);
    assert ps == ps[..|ps| - 1] + [ps[|ps| - 1]];
    JoinSplit(p);
    GluedText(ps[..|ps| - 1], ps[|ps| - 1], Split(p));
  }

  lemma GluedText(front: seq<string>, last: string, segs: seq<string>)
    requires segs != []
    ensures Abs(front + [last]) + Join(segs) == Abs(front + [last + segs[0]] + segs[1..])
  {
    GluedJoin(front, last, segs);
    assert "/" + Join(front + [last]) + Join(segs) == "/" + (Join(front + [last]) + Join(segs));
  }

  lemma GluedIsProper(last: string, first: string)
    requires Proper(last) && first != "" && '/' !in first
    ensures Proper(last + first)
  {
    var glued := last + first;
    assert glued[0] == last[0] && |glued| == |last| + |first|;
  }

  lemma GluedLast(front: seq<string>, last: string, first: string)
    ensures Join(front + [last + first]) == Join(front + [last]) + first
  {
    OneMoreSegment(front, last);
    OneMoreSegment(front, last + first);
    Associate(if front == [] then "" else Join(front) + "/", last, first);
  }

  lemma Associate(a: string, b: string, c: string)
    ensures a + (b + c) == a + b + c
  {
  }

  lemma GluedJoin(front: seq<string>, last: string, segs: seq<string>)
    requires segs != []
    ensures Join(front + [last]) + Join(segs) == Join(front + [last + segs[0]] + segs[1..])
  {
    var first, rest := segs[0], segs[1..];
    GluedLast(front, last, first);
    if rest == [] {
      assert front + [last + first] + rest == front + [last + first];
    } else {
      JoinAppend(front + [last + first], rest);
      Slashed(Join(front + [last]), first, Join(rest));
    }
  }

  lemma Slashed(a: string, b: string, c: string)
    ensures a + (b + "/" + c) == a + b + "/" + c
  {
  }

  lemma OneMoreSegment(front: seq<string>, last: string)
    ensures Join(front + [last]) == (if front == [] then "" else Join(front) + "/") + last
  {
    if front == [] {
      assert front + [last] == [last];
    } else {
      JoinAppend(front, [last]);
    }
  }

  /** A clean relative directory leaves at least two levels. */
  predicate ClimbsTwice(dir: string) { |Split(dir)| >= 2 && Split(dir)[1] == ".." }

  lemma {:induction false} AllProperAfter(segs: seq<string>, k: nat)
    requires Upward(segs) && k < |segs| && segs[k] != ".."
    ensures forall i :: k <= i < |segs| ==> Proper(segs[i])
    decreases |segs| - k
  {
    assert UpwardAt(segs, k);
    if k + 1 < |segs| {
      assert UpwardAt(segs, k + 1);
      AllProperAfter(segs, k + 1);
    }
  }

  lemma SegmentsDecide(segs: seq<string>, head: seq<string>)
    requires segs != [] && AllProper(head) && head != []
    requires Upward(segs) && NoSlashes(segs)
    ensures CleanAbs(Abs(head + segs[1..])) <==> !(|segs| >= 2 && segs[1] == "..")
  {
    var all := head + segs[1..];
    if |segs| >= 2 && segs[1] == ".." {
      assert all[|head|] == "..";
      SplitJoin(all);
      assert Split(Abs(all)[1..]) == all;
      assert !Proper(all[|head|]);
    } else {
      if |segs| >= 2 { AllProperAfter(segs, 1); }
      assert AllProper(all);
      SegsAbs(all);
    }
  }

  /** A prefix in front of a relative path is clean unless the path climbs twice. */
  lemma GluedIsClean(prefix: string, p: string)
    requires CleanAbs(prefix) && prefix != "/" && CleanRelative(p)
    ensures CleanAbs(prefix + p) <==> !ClimbsTwice(p)
  {
    var ps, segs := Segs(prefix), Split(p);
    Glued(prefix, p);
    UpwardSlashes(segs);
    GluedIsProper(ps[|ps| - 1], segs[0]);
    var head := ps[..|ps| - 1] + [ps[|ps| - 1] + segs[0]];
    assert AllProper(head);
    SegmentsDecide(segs, head);
  }

  lemma CleanOrNot(p: string)
    requires p != "" && p[0] == '/'
    ensures Clean(p) == p <==> CleanAbs(p)
  {
    CleanIsCleanAbs(p);
    if CleanAbs(p) { CleanFixes(p); }
  }

  lemma AbsoluteNeverClimbs(dir: string)
    requires CleanAbs(dir)
    ensures !ClimbsTwice(dir)
  {
    AbsSegs(dir);
    SplitAbs(Segs(dir));
  }
}
