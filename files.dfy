/**
 * java.io.File on a Unix host, where '/' is the name separator: the path a
 * File keeps (getPath) and its last name (getName).
 */
module Files {

  /** No two separators stand next to each other. */
  predicate NoDoubleSeparator(s: string) {
    forall i :: 0 < i < |s| ==> !(s[i - 1] == '/' && s[i] == '/')
  }

  /** A path as File keeps it: no "//" and no trailing separator unless the path is "/" itself. */
  predicate IsNormal(p: string) {
    NoDoubleSeparator(p) && (|p| > 1 ==> p[|p| - 1] != '/')
  }

  /** s with every run of separators shortened to one separator. */
  function Collapse(s: string): string
    decreases |s|
  {
    if |s| <= 1 then s
    else if s[0] == '/' && s[1] == '/' then Collapse(s[1..])
    else [s[0]] + Collapse(s[1..])
  }

  /** Collapsing keeps the first and the last character and leaves no "//". */
  lemma {:induction false} CollapseShape(s: string)
    ensures var r := Collapse(s);
      (|s| > 0 ==> |r| > 0 && r[0] == s[0] && r[|r| - 1] == s[|s| - 1]) && NoDoubleSeparator(r)
    decreases |s|
  {
    if |s| > 1 {
      CollapseShape(s[1..]);
      if !(s[0] == '/' && s[1] == '/') {
        var t := Collapse(s[1..]);
        assert Collapse(s) == [s[0]] + t;
        assert forall i :: 1 < i < |t| + 1 ==> ([s[0]] + t)[i] == t[i - 1];
      }
    }
  }

  lemma {:induction false} CollapseOfCollapsed(s: string)
    requires NoDoubleSeparator(s)
    ensures Collapse(s) == s
    decreases |s|
  {
    if |s| > 1 {
      assert !(s[0] == '/' && s[1] == '/');
      CollapseOfCollapsed(s[1..]);
    }
  }

  /** Collapsing commutes with appending a stretch that has no separator. */
  lemma {:induction false} CollapseAppendPlain(x: string, y: string)
    requires '/' !in y
    ensures Collapse(x + y) == Collapse(x) + y
    decreases |x|
  {
    if |x| == 0 {
      assert x + y == y;
      CollapseOfCollapsed(y);
    } else if |x| == 1 {
      if |y| > 0 {
        assert (x + y)[1..] == y;
        assert (x + y)[1] == y[0];
        CollapseOfCollapsed(y);
      } else {
        assert x + y == x;
      }
    } else {
      assert (x + y)[0] == x[0] && (x + y)[1] == x[1];
      assert (x + y)[1..] == x[1..] + y;
      CollapseAppendPlain(x[1..], y);
    }
  }

  /** File(path).getPath(): separators collapsed, a trailing one dropped. */
  function Normalize(path: string): string
  {
    var c := Collapse(path);
    if |c| > 1 && c[|c| - 1] == '/' then c[..|c| - 1] else c
  }

  /** What Normalize gives back is a normal path. */
  lemma NormalizeIsNormal(path: string)
    ensures IsNormal(Normalize(path))
  {
    CollapseShape(path);
  }

  /** The paths Normalize leaves alone are exactly the normal ones; in particular it is idempotent. */
  lemma NormalizeFixedPoints(p: string)
    ensures Normalize(p) == p <==> IsNormal(p)
    ensures Normalize(Normalize(p)) == Normalize(p)
  {
    if IsNormal(p) {
      CollapseOfCollapsed(p);
    }
    NormalizeIsNormal(p);
    CollapseOfCollapsed(Normalize(p));
  }

  /** The longest suffix of p without a separator. */
  function LastSegment(p: string): string
  {
    if p == [] || p[|p| - 1] == '/' then [] else LastSegment(p[..|p| - 1]) + [p[|p| - 1]]
  }

  /** The last segment is a suffix without a separator, and either all of p or preceded by a separator. */
  lemma {:induction false} LastSegmentIsLongestSuffix(p: string)
    ensures var r := LastSegment(p);
      && '/' !in r
      && |r| <= |p| && r == p[|p| - |r|..]
      && (|r| < |p| ==> p[|p| - |r| - 1] == '/')
  {
    if p != [] && p[|p| - 1] != '/' {
      var q := p[..|p| - 1];
      LastSegmentIsLongestSuffix(q);
      var r' := LastSegment(q);
      assert p[|p| - |r'| - 1..] == r' + [p[|p| - 1]];
    }
  }

  /** After a separator, the last segment is the separator-free text that follows it. */
  lemma {:induction false} LastSegmentAfterSeparator(w: string, n: string)
    requires |w| > 0 && w[|w| - 1] == '/' && '/' !in n
    ensures LastSegment(w + n) == n
    decreases |n|
  {
    if n == [] {
      assert w + n == w;
    } else {
      var m := n[..|n| - 1];
      assert (w + n)[..|w + n| - 1] == w + m;
      assert n[|n| - 1] in n;
      LastSegmentAfterSeparator(w, m);
      assert m + [n[|n| - 1]] == n;
    }
  }

  /** File(path).getName(): the part of the normalised path after its last separator. */
  function GetName(path: string): string
  {
    LastSegment(Normalize(path))
  }

  /** A name holds no separator. */
  lemma GetNameHasNoSeparator(path: string)
    ensures '/' !in GetName(path)
  {
    LastSegmentIsLongestSuffix(Normalize(path));
  }

  /** A name with no separator is its own name. */
  lemma {:induction false} GetNameOfPlainName(n: string)
    requires '/' !in n
    ensures Normalize(n) == n && GetName(n) == n
  {
    CollapseOfCollapsed(n);
    LastSegmentIsLongestSuffix(n);
  }

  /** The directory part of a path does not change its name. */
  lemma GetNameAfterDirectory(dir: string, n: string)
    requires n != [] && '/' !in n
    ensures GetName(dir + "/" + n) == n
  {
    var d := dir + "/";
    assert dir + "/" + n == d + n;
    CollapseAppendPlain(d, n);
    var cd := Collapse(d);
    var c := cd + n;
    CollapseShape(d);
    assert cd[|cd| - 1] == '/';
    assert c[|c| - 1] == n[|n| - 1] && n[|n| - 1] in n;
    assert Normalize(d + n) == c;
    LastSegmentAfterSeparator(cd, n);
  }

  /** Taking the name again changes nothing. */
  lemma GetNameIdempotent(path: string)
    ensures GetName(GetName(path)) == GetName(path)
  {
    GetNameHasNoSeparator(path);
    GetNameOfPlainName(GetName(path));
  }
}
