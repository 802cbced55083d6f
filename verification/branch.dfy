/**
 * Server-version branch comparison: two version strings are on the same
 * branch when they agree up to (not including) their second dot, so "8.2"
 * and "8.2.5" match while "8.2" and "8.20" do not.
 */
module Branch {

  const NUL: char := '\0'

  /** The character C code reads at index i of the NUL-terminated string s. */
  function At(s: string, i: nat): char
  {
    if i < |s| then s[i] else NUL
  }

  /** The string as C sees it: everything before the first NUL. */
  function CStr(s: string): (r: string)
    ensures r <= s && NUL !in r
    ensures |r| < |s| ==> s[|r|] == NUL
  {
    if s == [] || s[0] == NUL then [] else [s[0]] + CStr(s[1..])
  }

  /** Number of dots in s. */
  function Dots(s: string): nat
  {
    if s == [] then 0 else (if s[0] == '.' then 1 else 0) + Dots(s[1..])
  }

  lemma {:induction false} DotsSnoc(p: string, c: char)
    ensures Dots(p + [c]) == Dots(p) + (if c == '.' then 1 else 0)
    decreases |p|
  {
    if p != [] {
      assert (p + [c])[1..] == p[1..] + [c];
      DotsSnoc(p[1..], c);
    }
  }

  /**
   * The part of s before its second dot, given whether a first dot has
   * already been passed.
   */
  function Cut(s: string, dotSeen: bool): (r: string)
    ensures r <= s
    ensures |r| < |s| ==> s[|r|] == '.'
  {
    if s == [] || (s[0] == '.' && dotSeen) then []
    else [s[0]] + Cut(s[1..], dotSeen || s[0] == '.')
  }

  /** The "MAJ.MIN" branch of a version string. */
  function MajMin(s: string): string
  {
    Cut(s, false)
  }

  /** Two C version strings are on the same branch. */
  predicate SameBranch(a: string, b: string)
  {
    MajMin(CStr(a)) == MajMin(CStr(b))
  }

  lemma {:induction false} AtCStr(s: string, i: nat)
    requires i <= |CStr(s)|
    ensures At(s, i) == At(CStr(s), i)
    ensures At(s, i) == NUL <==> i == |CStr(s)|
  {
    var c := CStr(s);
    if i < |c| {
      assert c[i] in c;
    }
  }

  /** One step of Cut: a character that is not a stopping dot is kept. */
  lemma CutStep(s: string, i: nat, seen: bool)
    requires i < |s|
    requires !(s[i] == '.' && seen)
    ensures Cut(s[i..], seen) == [s[i]] + Cut(s[i + 1..], seen || s[i] == '.')
  {
    assert s[i..][1..] == s[i + 1..];
  }

  /** Cut runs through a prefix that holds no stopping dot. */
  lemma {:induction false} CutOverPrefix(p: string, s: string, seen: bool)
    requires Dots(p) + (if seen then 1 else 0) <= 1
    ensures Cut(p + s, seen) == p + Cut(s, seen || Dots(p) == 1)
    decreases |p|
  {
    if p == [] {
      assert p + s == s;
    } else {
      var q := p[1..];
      var seen' := seen || p[0] == '.';
      DotsHead(p);
      CutHead(p, s, seen);
      CutOverPrefix(q, s, seen');
      assert [p[0]] + (q + Cut(s, seen' || Dots(q) == 1)) == p + Cut(s, seen' || Dots(q) == 1);
    }
  }

  lemma DotsHead(p: string)
    requires p != []
    ensures Dots(p) == (if p[0] == '.' then 1 else 0) + Dots(p[1..])
  {
  }

  /** Cut keeps the first character of p + s when it is not a stopping dot. */
  lemma CutHead(p: string, s: string, seen: bool)
    requires p != [] && !(p[0] == '.' && seen)
    ensures Cut(p + s, seen) == [p[0]] + Cut(p[1..] + s, seen || p[0] == '.')
  {
    assert (p + s)[0] == p[0];
    assert (p + s)[1..] == p[1..] + s;
  }

  /** cmp_branch: compare the branches of two C version strings character by character. */
  method CmpBranch(mine: string, theirs: string) returns (same: bool)
    ensures same <==> SameBranch(mine, theirs)
  {
    ghost var a, b := CStr(mine), CStr(theirs);
    var dot := 0;
    var i := 0;
    AtCStr(mine, 0);
    AtCStr(theirs, 0);
    while At(mine, i) != NUL || At(theirs, i) != NUL
      invariant i <= |a| && i <= |b|
      invariant At(mine, i) == At(a, i) && At(theirs, i) == At(b, i)
      invariant At(mine, i) == NUL <==> i == |a|
      invariant At(theirs, i) == NUL <==> i == |b|
      invariant a[..i] == b[..i]
      invariant dot == Dots(a[..i]) && dot <= 1
      decreases |a| - i
    {
      // a bare "MAJ.MIN" matches any "MAJ.MIN.*"
      if dot != 0 && At(mine, i) == '.' && At(theirs, i) == NUL {
        SplitAt(a, b, i, true);
        return true;
      }
      if dot != 0 && At(theirs, i) == '.' && At(mine, i) == NUL {
        SplitAt(a, b, i, true);
        return true;
      }
      // different characters, or different lengths
      if At(mine, i) != At(theirs, i) {
        SplitAt(a, b, i, dot == 1);
        CutsDiffer(a, b, i, dot == 1);
        return false;
      }
      // stop on the second dot
      if At(mine, i) == '.' {
        if dot != 0 {
          SplitAt(a, b, i, true);
          return true;
        }
        dot := dot + 1;
      }
      PrefixStep(a, b, i);
      i := i + 1;
      AtCStr(mine, i);
      AtCStr(theirs, i);
    }
    SplitAt(a, b, i, dot == 1);
    assert a[i..] == [] && b[i..] == [];
    return true;
  }

  /** The common prefix grows by one equal character. */
  lemma PrefixStep(a: string, b: string, i: nat)
    requires i < |a| && i < |b| && a[..i] == b[..i] && a[i] == b[i]
    ensures a[..i + 1] == b[..i + 1]
    ensures Dots(a[..i + 1]) == Dots(a[..i]) + (if a[i] == '.' then 1 else 0)
  {
    assert a[..i + 1] == a[..i] + [a[i]];
    assert b[..i + 1] == b[..i] + [b[i]];
    DotsSnoc(a[..i], a[i]);
  }

  /** Both branches, split at a common prefix of length i. */
  lemma SplitAt(a: string, b: string, i: nat, seen: bool)
    requires i <= |a| && i <= |b| && a[..i] == b[..i]
    requires Dots(a[..i]) <= 1 && (seen <==> Dots(a[..i]) == 1)
    ensures MajMin(a) == a[..i] + Cut(a[i..], seen)
    ensures MajMin(b) == b[..i] + Cut(b[i..], seen)
  {
    assert a[..i] + a[i..] == a;
    assert b[..i] + b[i..] == b;
    CutOverPrefix(a[..i], a[i..], false);
    CutOverPrefix(b[..i], b[i..], false);
  }

  /** The case where cmp_branch answers false: the two branches really differ. */
  lemma CutsDiffer(a: string, b: string, i: nat, seen: bool)
    requires i <= |a| && i <= |b| && a[..i] == b[..i]
    requires At(a, i) != At(b, i)
    requires !(seen && i < |a| && a[i] == '.' && i == |b|)
    requires !(seen && i < |b| && b[i] == '.' && i == |a|)
    ensures a[..i] + Cut(a[i..], seen) != b[..i] + Cut(b[i..], seen)
  {
    var x, y := Cut(a[i..], seen), Cut(b[i..], seen);
    if i < |a| && !(a[i] == '.' && seen) {
      CutStep(a, i, seen);
    }
    if i < |b| && !(b[i] == '.' && seen) {
      CutStep(b, i, seen);
    }
    if |x| == |y| && |x| > 0 {
      assert (a[..i] + x)[i] == x[0];
      assert (b[..i] + y)[i] == y[0];
    }
  }

  /** Everything from the second dot on is cut off. */
  lemma MajMinOfDotted(p: string, s: string)
    requires Dots(p) == 1
    ensures MajMin(p + "." + s) == p
  {
    assert p + "." + s == p + ("." + s);
    CutOverPrefix(p, "." + s, false);
    assert ("." + s)[0] == '.';
  }

  /** A C string with no NUL inside is read whole. */
  lemma CStrOfDotted(p: string, s: string)
    requires NUL !in p && NUL !in s
    ensures CStr(p + "." + s) == p + "." + s
  {
    var w := p + "." + s;
    assert NUL !in w by { assert forall k :: 0 <= k < |w| ==> w[k] != NUL; }
    NoNulCStr(w);
  }

  /** A bare "MAJ.MIN" is on the same branch as every "MAJ.MIN.*". */
  lemma MajorMinorMatchesRelease(v: string, rest: string)
    requires Dots(v) == 1
    requires NUL !in v && NUL !in rest
    ensures SameBranch(v, v + "." + rest)
  {
    NoNulCStr(v);
    CStrOfDotted(v, rest);
    CutOverPrefix(v, [], false);
    assert v + [] == v;
    MajMinOfDotted(v, rest);
  }

  /** Comparison stops at the second dot: whatever follows it is ignored. */
  lemma StopsAtSecondDot(p: string, s1: string, s2: string)
    requires Dots(p) == 1
    requires NUL !in p && NUL !in s1 && NUL !in s2
    ensures SameBranch(p + "." + s1, p + "." + s2)
  {
    CStrOfDotted(p, s1);
    CStrOfDotted(p, s2);
    MajMinOfDotted(p, s1);
    MajMinOfDotted(p, s2);
  }

  /**
   * A difference before the second dot gives different branches, whether it
   * is a different character or one string ending early ("8.2" and "8.20").
   */
  lemma DifferenceBeforeSecondDot(a: string, b: string, k: nat)
    requires NUL !in a && NUL !in b
    requires k < |MajMin(a)| && k <= |b| && a[..k] == b[..k]
    requires k < |b| ==> a[k] != b[k]
    ensures !SameBranch(a, b)
  {
    NoNulCStr(a);
    NoNulCStr(b);
    var x, y := MajMin(a), MajMin(b);
    assert x[k] == a[k];
    if |y| > k {
      assert y[k] == b[k];
    }
  }

  lemma {:induction false} NoNulCStr(s: string)
    requires NUL !in s
    ensures CStr(s) == s
    decreases |s|
  {
    if s != [] {
      assert s[0] in s;
      assert NUL !in s[1..] by {
        forall c | c in s[1..] ensures c != NUL { assert c in s; }
      }
      NoNulCStr(s[1..]);
    }
  }

  /**
   * cmp_branch is an equivalence: reflexive, symmetric and transitive,
   * since it compares the branch each string names.
   */
  lemma SameBranchEquivalence(a: string, b: string, c: string)
    ensures SameBranch(a, a)
    ensures SameBranch(a, b) <==> SameBranch(b, a)
    ensures SameBranch(a, b) && SameBranch(b, c) ==> SameBranch(a, c)
  {
  }

  /** The examples of the branch rule. */
  lemma BranchExamples()
    ensures SameBranch("8.2", "8.2.5")
    ensures !SameBranch("8.2", "8.20")
    ensures SameBranch("8.3.1", "8.3.7")
  {
    ReleaseExample();
    LengthExample();
    PatchExample();
  }

  lemma ReleaseExample()
    ensures SameBranch("8.2", "8.2.5")
  {
    assert Dots("8.2") == 1;
    MajorMinorMatchesRelease("8.2", "5");
    assert "8.2" + "." + "5" == "8.2.5";
  }

  lemma LengthExample()
    ensures !SameBranch("8.2", "8.20")
  {
    NoNulCStr("8.20");
    assert MajMin("8.20") == "8.20";
    DifferenceBeforeSecondDot("8.20", "8.2", 3);
  }

  lemma PatchExample()
    ensures SameBranch("8.3.1", "8.3.7")
  {
    StopsAtSecondDot("8.3", "1", "7");
    assert "8.3" + "." + "1" == "8.3.1";
    assert "8.3" + "." + "7" == "8.3.7";
  }
}
