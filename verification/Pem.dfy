/** normalizePEM of internal/nas/lftp.go: the form in which a stored key is acceptable to
    OpenSSH. Only line endings matter, so a byte is a character here. */
module Pem {
  import opened LineScanner

  /** bytes.ReplaceAll(b, "\r", "\n"). */
  function CrToLf(s: string): (r: string)
    ensures '\r' !in r
  {
    if s == "" then "" else (if s[0] == '\r' then "\n" else [s[0]]) + CrToLf(s[1..])
  }

  /** bytes.TrimRight(b, "\n"). */
  function TrimNewlines(s: string): (r: string)
    ensures r <= s
    ensures r != "" ==> r[|r| - 1] != '\n'
  {
    if s != "" && s[|s| - 1] == '\n' then TrimNewlines(s[..|s| - 1]) else s
  }

  function Normalised(b: string): string { TrimNewlines(CrToLf(CrlfToLf(b))) + "\n" }

  lemma {:induction false} WithoutCr(s: string)
    requires '\r' !in s
    ensures CrToLf(s) == s && CrlfToLf(s) == s
    decreases |s|
  {
    if s != "" {
      assert s[0] in s && forall i :: 0 <= i < |s[1..]| ==> s[1..][i] == s[i + 1];
      assert '\r' !in s[1..];
      WithoutCr(s[1..]);
    }
  }

  lemma {:induction false} CrSplits(line: string, s: string)
    ensures SplitFrom(line, CrToLf(s)) == SplitFrom(line, s)
    decreases |s|
  {
    if s != "" {
      var t := CrToLf(s[1..]);
      assert CrToLf(s)[1..] == t;
      if s[0] == '\r' || s[0] == '\n' { CrSplits("", s[1..]); } else { CrSplits(line + [s[0]], s[1..]); }
    }
  }

  lemma {:induction false} FinalNewline(line: string, s: string)
    ensures Kept(SplitFrom(line, s + "\n")) == Kept(SplitFrom(line, s))
    decreases |s|
  {
    if s == "" {
      assert (s + "\n")[0] == '\n' && (s + "\n")[1..] == "";
      assert SplitFrom(line, s + "\n") == [line];
    } else {
      assert (s + "\n")[0] == s[0] && (s + "\n")[1..] == s[1..] + "\n";
      if s[0] == '\r' || s[0] == '\n' {
        FinalNewline("", s[1..]);
        KeptAppend([line], SplitFrom("", s[1..]));
        KeptAppend([line], SplitFrom("", s[1..] + "\n"));
      } else {
        FinalNewline(line + [s[0]], s[1..]);
      }
    }
  }

  lemma {:induction false} FinalNewlines(s: string)
    ensures Kept(SplitFrom("", TrimNewlines(s))) == Kept(SplitFrom("", s))
    decreases |s|
  {
    if s != "" && s[|s| - 1] == '\n' {
      var u := s[..|s| - 1];
      assert s == u + "\n";
      FinalNewlines(u);
      FinalNewline("", u);
    }
  }

  /** The result holds no \r and ends in exactly one newline; its nonblank lines are those
      of the stored key; and normalising again changes nothing. */
  lemma NormalisedKeepsLines(b: string)
    ensures var n := Normalised(b);
            && '\r' !in n
            && n[|n| - 1] == '\n' && (|n| > 1 ==> n[|n| - 2] != '\n')
            && Kept(SplitLines(n)) == Kept(SplitLines(b))
            && Normalised(n) == n
  {
    var unified := CrToLf(CrlfToLf(b));
    var t := TrimNewlines(unified);
    var n := t + "\n";
    assert '\r' !in t by { assert forall i :: 0 <= i < |t| ==> t[i] == unified[i]; }
    CrSplits("", CrlfToLf(b));
    CrlfKept("", b);
    FinalNewlines(unified);
    FinalNewline("", t);
    SplitFromIsSplit("", n);
    SplitFromIsSplit("", b);
    assert "" + n == n && "" + b == b;
    WithoutCr(n);
    assert n[..|n| - 1] == t;
    assert TrimNewlines(n) == TrimNewlines(t) == t;
  }
}
