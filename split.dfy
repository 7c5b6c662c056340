/**
 * Splitting strings the two ways the discovery code does: String.split on a
 * single character, and java.util.StringTokenizer over a set of delimiters.
 */
module Split {

  /** The index of the first c in s, or |s| when s has none. */
  function FirstIndex(s: string, c: char): (k: nat)
    ensures k <= |s| && c !in s[..k]
    ensures k < |s| ==> s[k] == c
  {
    if s == [] || s[0] == c then 0 else 1 + FirstIndex(s[1..], c)
  }

  /** The pieces of s between the occurrences of c, empty pieces included. */
  function Pieces(s: string, c: char): (r: seq<string>)
    ensures |r| >= 1
    ensures forall i :: 0 <= i < |r| ==> c !in r[i]
    decreases |s|
  {
    var k := FirstIndex(s, c);
    if k == |s| then [s] else [s[..k]] + Pieces(s[k + 1..], c)
  }

  /** The pieces joined back together with c between consecutive ones. */
  function Join(ps: seq<string>, c: char): string
    requires |ps| >= 1
  {
    if |ps| == 1 then ps[0] else ps[0] + [c] + Join(ps[1..], c)
  }

  lemma {:induction false} JoinPieces(s: string, c: char)
    ensures Join(Pieces(s, c), c) == s
    decreases |s|
  {
    var k := FirstIndex(s, c);
    if k < |s| {
      var rest := Pieces(s[k + 1..], c);
      var ps := [s[..k]] + rest;
      assert Pieces(s, c) == ps;
      assert ps[1..] == rest;
      assert Join(ps, c) == s[..k] + [c] + Join(rest, c);
      JoinPieces(s[k + 1..], c);
      assert s == s[..k] + [c] + s[k + 1..];
    }
  }

  lemma {:induction false} PiecesOfJoin(ps: seq<string>, c: char)
    requires |ps| >= 1
    requires forall i :: 0 <= i < |ps| ==> c !in ps[i]
    ensures Pieces(Join(ps, c), c) == ps
  {
    if |ps| == 1 {
      assert FirstIndex(ps[0], c) == |ps[0]|;
    } else {
      var s := Join(ps, c);
      var tail := Join(ps[1..], c);
      assert s == ps[0] + [c] + tail;
      assert s[|ps[0]|] == c;
      assert s[..|ps[0]|] == ps[0];
      assert FirstIndex(s, c) == |ps[0]|;
      assert s[|ps[0]| + 1..] == tail;
      PiecesOfJoin(ps[1..], c);
    }
  }

  /** ps without its trailing empty strings. */
  function DropTrailingEmpty(ps: seq<string>): (r: seq<string>)
    ensures |r| <= |ps| && r == ps[..|r|]
    ensures r == [] || r[|r| - 1] != ""
    ensures forall i :: |r| <= i < |ps| ==> ps[i] == ""
  {
    if ps == [] then []
    else if ps[|ps| - 1] == "" then DropTrailingEmpty(ps[..|ps| - 1])
    else ps
  }

  /**
   * String.split on the regular expression of one ordinary character c: with
   * no c in s the result is s alone (even when s is empty); otherwise the
   * pieces between the occurrences of c, trailing empty pieces removed.
   */
  function JavaSplit(s: string, c: char): (r: seq<string>)
    ensures forall i :: 0 <= i < |r| ==> c !in r[i]
    ensures c !in s ==> r == [s]
    ensures c in s ==> r == [] || r[|r| - 1] != ""
  {
    if c !in s then [s] else DropTrailingEmpty(Pieces(s, c))
  }

  /**
   * Splitting inverts joining: pieces free of c whose last one is not empty
   * come back from String.split unchanged.
   */
  lemma {:induction false} JavaSplitOfJoin(ps: seq<string>, c: char)
    requires |ps| >= 1 && ps[|ps| - 1] != ""
    requires forall i :: 0 <= i < |ps| ==> c !in ps[i]
    ensures JavaSplit(Join(ps, c), c) == ps
  {
    if |ps| > 1 {
      var s := Join(ps, c);
      assert s == ps[0] + [c] + Join(ps[1..], c);
      assert s[|ps[0]|] == c;
      PiecesOfJoin(ps, c);
    }
  }

  /** Joining undoes splitting, up to the trailing empty pieces that split removed. */
  lemma {:induction false} JavaSplitKeepsLeadingPieces(s: string, c: char)
    requires c in s
    ensures var ps := Pieces(s, c);
      var r := JavaSplit(s, c);
      r == ps[..|r|] && (forall i :: |r| <= i < |ps| ==> ps[i] == "") && Join(ps, c) == s
  {
    JoinPieces(s, c);
  }

  // ---- java.util.StringTokenizer ----

  /** None of the characters of t is a delimiter. */
  predicate DelimiterFree(t: string, delims: string) {
    forall j :: 0 <= j < |t| ==> t[j] !in delims
  }

  /** The tokens still to come when the run cur has been read and s is left: cur, once a delimiter or the end closes it, and then the rest. */
  function TokensFrom(cur: string, s: string, delims: string): (r: seq<string>)
    requires DelimiterFree(cur, delims)
    ensures forall i :: 0 <= i < |r| ==> r[i] != "" && DelimiterFree(r[i], delims)
    decreases |s|
  {
    if s == [] then Flush(cur)
    else if s[0] in delims then Flush(cur) + TokensFrom([], s[1..], delims)
    else TokensFrom(cur + [s[0]], s[1..], delims)
  }

  /** The run just closed, as a token when it is not empty. */
  function Flush(cur: string): seq<string> {
    if cur == [] then [] else [cur]
  }

  /** The tokens StringTokenizer(s, delims) returns: the maximal non-empty runs of non-delimiters. */
  function Tokens(s: string, delims: string): (r: seq<string>)
    ensures forall i :: 0 <= i < |r| ==> r[i] != "" && DelimiterFree(r[i], delims)
  {
    TokensFrom([], s, delims)
  }

  /** Reading a delimiter-free stretch only extends the current run. */
  lemma {:induction false} TokensFromRun(cur: string, x: string, y: string, delims: string)
    requires DelimiterFree(cur, delims) && DelimiterFree(x, delims)
    ensures DelimiterFree(cur + x, delims)
    ensures TokensFrom(cur, x + y, delims) == TokensFrom(cur + x, y, delims)
    decreases |x|
  {
    if x == [] {
      assert x + y == y && cur + x == cur;
    } else {
      assert (x + y)[0] == x[0] && (x + y)[1..] == x[1..] + y;
      assert cur + [x[0]] + x[1..] == cur + x;
      TokensFromRun(cur + [x[0]], x[1..], y, delims);
    }
  }

  /** A non-empty run of non-delimiters followed by a delimiter or the end is one token. */
  lemma TokensOfRun(run: string, rest: string, delims: string)
    requires run != [] && DelimiterFree(run, delims)
    requires rest == [] || rest[0] in delims
    ensures Tokens(run + rest, delims) == [run] + Tokens(rest, delims)
  {
    TokensFromRun([], run, rest, delims);
    assert [] + run == run;
  }

  /** A leading delimiter is skipped. */
  lemma TokensSkipDelimiter(s: string, delims: string)
    requires s != [] && s[0] in delims
    ensures Tokens(s, delims) == Tokens(s[1..], delims)
  {
  }

  /** A delimiter separates: the tokens of a + [d] + b are those of a followed by those of b. */
  lemma TokensSplitAtDelimiter(a: string, d: char, b: string, delims: string)
    requires d in delims
    ensures Tokens(a + [d] + b, delims) == Tokens(a, delims) + Tokens(b, delims)
  {
    TokensFromSplit([], a, d, b, delims);
  }

  lemma {:induction false} TokensFromSplit(cur: string, a: string, d: char, b: string, delims: string)
    requires d in delims && DelimiterFree(cur, delims)
    ensures TokensFrom(cur, a + [d] + b, delims) == TokensFrom(cur, a, delims) + Tokens(b, delims)
    decreases |a|
  {
    var s := a + [d] + b;
    if a == [] {
      assert s[0] == d && s[1..] == b;
    } else {
      assert s[0] == a[0] && s[1..] == a[1..] + [d] + b;
      if a[0] in delims {
        TokensFromSplit([], a[1..], d, b, delims);
      } else {
        TokensFromSplit(cur + [a[0]], a[1..], d, b, delims);
      }
    }
  }

  /** Tokenizing inverts joining non-empty, delimiter-free tokens with a delimiter. */
  lemma {:induction false} TokensOfJoin(ts: seq<string>, d: char, delims: string)
    requires |ts| >= 1 && d in delims
    requires forall i :: 0 <= i < |ts| ==> ts[i] != "" && DelimiterFree(ts[i], delims)
    ensures Tokens(Join(ts, d), delims) == ts
  {
    var t := ts[0];
    assert t + [] == t;
    TokensOfRun(t, [], delims);
    if |ts| > 1 {
      var tail := Join(ts[1..], d);
      assert Join(ts, d) == t + [d] + tail;
      TokensSplitAtDelimiter(t, d, tail, delims);
      TokensOfJoin(ts[1..], d, delims);
      assert [t] + ts[1..] == ts;
    }
  }
}
