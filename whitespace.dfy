/** `String.prototype.trim` as the registration form uses it on the custom
    interest text: leading and trailing white space and line terminators
    are removed, everything in between is kept. */
module Whitespace {

  /** The characters ECMAScript counts as WhiteSpace or LineTerminator:
      tab, line tabulation, form feed, space, no-break space, the byte order
      mark, the space separators of Unicode category Zs, line feed, carriage
      return, line separator and paragraph separator. */
  predicate IsWhiteSpace(c: char) {
    || c == '\t' || c == '\U{000B}' || c == '\U{000C}' || c == ' '
    || c == '\U{00A0}' || c == '\U{FEFF}'
    || c == '\U{1680}' || ('\U{2000}' <= c <= '\U{200A}')
    || c == '\U{202F}' || c == '\U{205F}' || c == '\U{3000}'
    || c == '\n' || c == '\r' || c == '\U{2028}' || c == '\U{2029}'
  }

  predicate AllWhiteSpace(s: string) {
    forall k :: 0 <= k < |s| ==> IsWhiteSpace(s[k])
  }

  /** Drops the leading white space: the result is a suffix of `s` that
      does not start with white space. */
  function TrimStart(s: string): (r: string)
    ensures |r| <= |s| && r == s[|s| - |r|..]
    ensures r == [] || !IsWhiteSpace(r[0])
  {
    if s != [] && IsWhiteSpace(s[0]) then TrimStart(s[1..]) else s
  }

  /** Drops the trailing white space: the result is a prefix of `s` that
      does not end with white space. */
  function TrimEnd(s: string): (r: string)
    ensures |r| <= |s| && r == s[..|r|]
    ensures r == [] || !IsWhiteSpace(r[|r| - 1])
  {
    if s != [] && IsWhiteSpace(s[|s| - 1]) then TrimEnd(s[..|s| - 1]) else s
  }

  /** What `TrimStart` drops is all white space. */
  lemma {:induction false} TrimStartDropsWhiteSpace(s: string)
    ensures AllWhiteSpace(s[..|s| - |TrimStart(s)|])
  {
    if s != [] && IsWhiteSpace(s[0]) {
      TrimStartDropsWhiteSpace(s[1..]);
      var n := |s| - |TrimStart(s)|;
      assert s[..n] == [s[0]] + s[1..][..n - 1];
    }
  }

  /** What `TrimEnd` drops is all white space. */
  lemma {:induction false} TrimEndDropsWhiteSpace(s: string)
    ensures AllWhiteSpace(s[|TrimEnd(s)|..])
  {
    if s != [] && IsWhiteSpace(s[|s| - 1]) {
      var p := s[..|s| - 1];
      TrimEndDropsWhiteSpace(p);
      var n := |TrimEnd(s)|;
      assert s[n..] == p[n..] + [s[|s| - 1]];
    }
  }

  /** `s.trim()`: no white space is left at either end. */
  function Trim(s: string): (r: string)
    ensures |r| <= |s|
    ensures r == [] || (!IsWhiteSpace(r[0]) && !IsWhiteSpace(r[|r| - 1]))
  {
    var a := TrimStart(s);
    var r := TrimEnd(a);
    assert r != [] ==> r[0] == a[0];
    r
  }

  /** A prefix of a suffix is a slice, and a suffix of a suffix is a suffix. */
  lemma SliceOfSuffix(s: string, i: nat, n: nat)
    requires i + n <= |s|
    ensures s[i..][..n] == s[i..i + n]
    ensures s[i..][n..] == s[i + n..]
  {
  }

  /** The trimmed text is a contiguous slice of the input with only white
      space cut off either side. */
  lemma TrimIsSlice(s: string)
    ensures exists i, j {:trigger s[i..j]} ::
      0 <= i <= j <= |s| && Trim(s) == s[i..j]
      && AllWhiteSpace(s[..i]) && AllWhiteSpace(s[j..])
  {
    var a := TrimStart(s);
    var r := TrimEnd(a);
    var i := |s| - |a|;
    TrimStartDropsWhiteSpace(s);
    TrimEndDropsWhiteSpace(a);
    SliceOfSuffix(s, i, |r|);
    assert Trim(s) == s[i..i + |r|];
  }

  /** The trimmed text is empty exactly when the input is all white space. */
  lemma TrimEmpty(s: string)
    ensures Trim(s) == [] <==> AllWhiteSpace(s)
  {
    var a := TrimStart(s);
    TrimStartDropsWhiteSpace(s);
    TrimEndDropsWhiteSpace(a);
    if Trim(s) == [] {
      assert a[0..] == a;
      assert a == [];
      assert s[..|s|] == s;
    } else {
      assert Trim(s)[0] == a[0] == s[|s| - |a|];
    }
  }

  lemma {:induction false} TrimStartFixed(s: string)
    requires s == [] || !IsWhiteSpace(s[0])
    ensures TrimStart(s) == s
  {
  }

  lemma {:induction false} TrimEndFixed(s: string)
    requires s == [] || !IsWhiteSpace(s[|s| - 1])
    ensures TrimEnd(s) == s
  {
  }

  /** Trimming twice is trimming once. */
  lemma TrimIdempotent(s: string)
    ensures Trim(Trim(s)) == Trim(s)
  {
    var t := Trim(s);
    var a := TrimStart(s);
    if t != [] {
      assert t[0] == a[0];
    }
    TrimStartFixed(t);
    TrimEndFixed(t);
  }
}
