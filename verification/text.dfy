/**
 * The two string operations the tag scanner applies to every line it reads:
 * Python 2 `str.strip()` and `str.split()`, both called without arguments.
 */
module Text {

  /** Python 2 ASCII whitespace: space, tab, line feed, carriage return, vertical tab, form feed. */
  predicate IsSpace(c: char) {
    c == ' ' || c == '\t' || c == '\n' || c == '\r' || c == '\U{000B}' || c == '\U{000C}'
  }

  predicate AllSpace(s: string) {
    forall i :: 0 <= i < |s| ==> IsSpace(s[i])
  }

  /** A token as `split()` yields it: non-empty and free of whitespace. */
  predicate IsToken(w: string) {
    w != [] && forall i :: 0 <= i < |w| ==> !IsSpace(w[i])
  }

  /** `s.lstrip()`: the suffix of s left after its leading whitespace. */
  function DropLeading(s: string): (r: string)
    ensures |r| <= |s| && r == s[|s| - |r|..]
    ensures AllSpace(s[..|s| - |r|])
    ensures r == [] || !IsSpace(r[0])
  {
    if s != [] && IsSpace(s[0]) then DropLeading(s[1..]) else s
  }

  /** `s.rstrip()`: the prefix of s left before its trailing whitespace. */
  function DropTrailing(s: string): (r: string)
    ensures |r| <= |s| && r == s[..|r|]
    ensures AllSpace(s[|r|..])
    ensures r == [] || !IsSpace(r[|r| - 1])
  {
    if s != [] && IsSpace(s[|s| - 1]) then
      var r := DropTrailing(s[..|s| - 1]);
      assert s[|r|..] == s[..|s| - 1][|r|..] + [s[|s| - 1]];
      r
    else s
  }

  /**
   * `s.strip()`: what is left of s once its leading and its trailing whitespace
   * are dropped; it begins and ends with a non-whitespace character, and it is
   * empty exactly when s is all whitespace.
   */
  function Strip(s: string): (r: string)
    ensures r == [] || (!IsSpace(r[0]) && !IsSpace(r[|r| - 1]))
    ensures r == [] <==> AllSpace(s)
  {
    var t := DropLeading(s);
    assert t == [] ==> AllSpace(s) by {
      assert t == [] ==> s[..|s| - |t|] == s;
    }
    assert AllSpace(s) ==> t == [];
    DropTrailing(t)
  }

  /** Strip keeps a contiguous slice of s, with only whitespace on either side of it. */
  lemma StripSlice(s: string) returns (i: nat)
    ensures i + |Strip(s)| <= |s|
    ensures Strip(s) == s[i..i + |Strip(s)|]
    ensures AllSpace(s[..i]) && AllSpace(s[i + |Strip(s)|..])
  {
    var t := DropLeading(s);
    var r := DropTrailing(t);
    assert Strip(s) == r;
    i := |s| - |t|;
    PrefixOfSuffix(s, t, r);
  }

  /** A prefix r of a suffix t of s, with only whitespace cut off, is a slice of s with only whitespace around it. */
  lemma PrefixOfSuffix(s: string, t: string, r: string)
    requires |t| <= |s| && t == s[|s| - |t|..] && AllSpace(s[..|s| - |t|])
    requires |r| <= |t| && r == t[..|r|] && AllSpace(t[|r|..])
    ensures r == s[|s| - |t|..|s| - |t| + |r|]
    ensures AllSpace(s[|s| - |t| + |r|..])
  {
    var i := |s| - |t|;
    assert s[i + |r|..] == t[|r|..];
  }

  /** Length of the run of non-whitespace characters at the start of s. */
  function WordLen(s: string): (n: nat)
    ensures n <= |s|
    ensures forall i :: 0 <= i < n ==> !IsSpace(s[i])
    ensures n == |s| || IsSpace(s[n])
  {
    if s == [] || IsSpace(s[0]) then 0 else 1 + WordLen(s[1..])
  }

  /**
   * `s.split()`: the maximal runs of non-whitespace characters of s, in order.
   * Every piece is a token, and there are none exactly when s is all whitespace.
   */
  function Split(s: string): (r: seq<string>)
    ensures forall k :: 0 <= k < |r| ==> IsToken(r[k])
    ensures r == [] <==> AllSpace(s)
    decreases |s|
  {
    if s == [] then []
    else if IsSpace(s[0]) then Split(s[1..])
    else
      var n := WordLen(s);
      [s[..n]] + Split(s[n..])
  }

  /** `" ".join(ws)`. */
  function JoinSpaced(ws: seq<string>): string
  {
    if ws == [] then ""
    else if |ws| == 1 then ws[0]
    else ws[0] + " " + JoinSpaced(ws[1..])
  }

  /** The run that starts s ends exactly where the first whitespace character is. */
  lemma WordLenAt(s: string, m: nat)
    requires m <= |s|
    requires forall i :: 0 <= i < m ==> !IsSpace(s[i])
    requires m == |s| || IsSpace(s[m])
    ensures WordLen(s) == m
  {
  }

  /** Leading whitespace does not change the tokens. */
  lemma {:induction false} SplitSkipsLeadingSpace(ws: string, s: string)
    requires AllSpace(ws)
    ensures Split(ws + s) == Split(s)
    decreases |ws|
  {
    if ws != [] {
      var u := ws + s;
      assert u[0] == ws[0];
      assert IsSpace(u[0]);
      assert u[1..] == ws[1..] + s;
      assert Split(u) == Split(u[1..]);
      SplitSkipsLeadingSpace(ws[1..], s);
    } else {
      assert ws + s == s;
    }
  }

  /** Trailing whitespace does not change the tokens. */
  lemma {:induction false} SplitSkipsTrailingSpace(s: string, ws: string)
    requires AllSpace(ws)
    ensures Split(s + ws) == Split(s)
    decreases |s|
  {
    var u := s + ws;
    if s == [] {
      assert u == ws;
    } else if IsSpace(s[0]) {
      assert u[1..] == s[1..] + ws;
      SplitSkipsTrailingSpace(s[1..], ws);
    } else {
      var m := WordLen(s);
      WordLenAt(u, m);
      assert u[..m] == s[..m];
      assert u[m..] == s[m..] + ws;
      SplitSkipsTrailingSpace(s[m..], ws);
    }
  }

  lemma SliceThree(s: string, i: nat, j: nat)
    requires i <= j <= |s|
    ensures s == s[..i] + (s[i..j] + s[j..])
  {
  }

  /** Whitespace on either side does not change the tokens. */
  lemma SplitPadded(s: string, lead: string, r: string, trail: string)
    requires AllSpace(lead) && AllSpace(trail)
    requires s == lead + (r + trail)
    ensures Split(s) == Split(r)
  {
    SplitSkipsLeadingSpace(lead, r + trail);
    SplitSkipsTrailingSpace(r, trail);
  }

  /** Stripping before splitting, as the scanner does, yields the same tokens as splitting alone. */
  lemma SplitOfStrip(s: string)
    ensures Split(Strip(s)) == Split(s)
  {
    var i := StripSlice(s);
    SplitAround(s, Strip(s), i);
  }

  /** The tokens of s are those of a slice r of it when only whitespace lies on either side of r. */
  lemma SplitAround(s: string, r: string, i: nat)
    requires i + |r| <= |s| && r == s[i..i + |r|]
    requires AllSpace(s[..i]) && AllSpace(s[i + |r|..])
    ensures Split(s) == Split(r)
  {
    SliceThree(s, i, i + |r|);
    SplitPadded(s, s[..i], r, s[i + |r|..]);
  }

  /** A token followed by whitespace (or nothing) splits off as the first piece. */
  lemma SplitLeadingToken(w: string, rest: string)
    requires IsToken(w)
    requires rest == [] || IsSpace(rest[0])
    ensures Split(w + rest) == [w] + Split(rest)
  {
    var u := w + rest;
    WordLenAt(u, |w|);
    assert u[..|w|] == w;
    assert u[|w|..] == rest;
  }

  /** A token is its own strip. */
  lemma StripToken(w: string)
    requires IsToken(w)
    ensures Strip(w) == w
  {
    assert DropLeading(w) == w;
    assert DropTrailing(w) == w;
  }

  /** A string with no whitespace at either end that splits into one token is that token. */
  lemma TrimmedSingleToken(r: string, w: string)
    requires r == [] || (!IsSpace(r[0]) && !IsSpace(r[|r| - 1]))
    requires Split(r) == [w]
    ensures r == w
  {
    assert r != [];
    var n := WordLen(r);
    assert Split(r) == [r[..n]] + Split(r[n..]);
    assert AllSpace(r[n..]);
    assert n == |r|;
    assert r[..n] == r;
  }

  /** A string that splits into a single token strips to that token. */
  lemma StripOfSingleToken(s: string, w: string)
    requires Split(s) == [w]
    ensures Strip(s) == w
  {
    SplitOfStrip(s);
    TrimmedSingleToken(Strip(s), w);
  }

  /** A token splits into itself. */
  lemma SplitToken(w: string)
    requires IsToken(w)
    ensures Split(w) == [w]
  {
    SplitLeadingToken(w, []);
    assert w + [] == w;
  }

  /** Round trip: joining tokens with single spaces and splitting again gives the tokens back. */
  lemma {:induction false} SplitJoin(ws: seq<string>)
    requires forall k :: 0 <= k < |ws| ==> IsToken(ws[k])
    ensures Split(JoinSpaced(ws)) == ws
    decreases |ws|
  {
    if ws == [] {
    } else if |ws| == 1 {
      SplitToken(ws[0]);
    } else {
      var rest := JoinSpaced(ws[1..]);
      assert ws[0] + " " + rest == ws[0] + (" " + rest);
      SplitLeadingToken(ws[0], " " + rest);
      SplitSkipsLeadingSpace(" ", rest);
      SplitJoin(ws[1..]);
    }
  }
}
