/** The avatar fallback in the sidebar footer: a display name becomes the
    upper-cased first letters of its space-separated parts. */
module Initials {

  /** `s.split(" ")`: the pieces between single spaces, in order. There is
      always at least one piece; consecutive, leading or trailing spaces
      give empty pieces. */
  function Split(s: string): (parts: seq<string>)
    ensures |parts| >= 1
    ensures forall k :: 0 <= k < |parts| ==> ' ' !in parts[k]
  {
    if s == [] then [[]]
    else if s[0] == ' ' then [[]] + Split(s[1..])
    else
      var rest := Split(s[1..]);
      [[s[0]] + rest[0]] + rest[1..]
  }

  /** `parts.join(sep)`. */
  function Join(parts: seq<string>, sep: string): string {
    if parts == [] then []
    else if |parts| == 1 then parts[0]
    else parts[0] + sep + Join(parts[1..], sep)
  }

  /** `part[0]` as `join` renders it: an empty part gives `undefined`, which
      `join` turns into the empty string. */
  function Initial(part: string): (r: string)
    ensures |r| <= 1
    ensures r == [] <==> part == []
    ensures r != [] ==> r[0] == part[0]
  {
    if part == [] then [] else [part[0]]
  }

  /** `parts.map((part) => part[0]).join("")`: one character per non-empty
      part, none for an empty one. */
  function FirstChars(parts: seq<string>): (r: string)
    ensures |r| == CountNonEmpty(parts)
  {
    if parts == [] then [] else Initial(parts[0]) + FirstChars(parts[1..])
  }

  /** The number of non-empty parts. */
  function CountNonEmpty(parts: seq<string>): nat {
    if parts == [] then 0 else (if parts[0] == [] then 0 else 1) + CountNonEmpty(parts[1..])
  }

  /** `toUpperCase` on one character, for the ASCII letters: the result is
      never a lower-case letter, and a character that changes was a
      lower-case letter and moves to its upper-case partner. */
  function UpperChar(c: char): (u: char)
    ensures !('a' <= u <= 'z')
    ensures u != c ==> 'a' <= c <= 'z' && u as int == c as int - 32
  {
    if 'a' <= c <= 'z' then (c as int - 32) as char else c
  }

  /** `toUpperCase` on a string: same length, no lower-case letter left, and
      every character that changes was a lower-case letter now upper-cased. */
  function ToUpper(s: string): (r: string)
    ensures |r| == |s|
    ensures forall k :: 0 <= k < |r| ==> !('a' <= r[k] <= 'z')
    ensures forall k :: 0 <= k < |s| && r[k] != s[k] ==>
      'a' <= s[k] <= 'z' && r[k] as int == s[k] as int - 32
  {
    seq(|s|, k requires 0 <= k < |s| => UpperChar(s[k]))
  }

  /** `getInitials(name)`: the upper-cased first letter of every word, in
      order; one letter per non-empty piece, so an empty name has none. */
  function GetInitials(name: string): (r: string)
    ensures r == ToUpper(WordStarts(name, true))
    ensures |r| == CountNonEmpty(Split(name))
    ensures name == [] ==> r == []
  {
    FirstCharsAreWordStarts(name);
    ToUpper(FirstChars(Split(name)))
  }

  /** Reference definition: the characters that begin a word, i.e. that are
      not a space and come first or right after a space. */
  function WordStarts(s: string, afterSpace: bool): string {
    if s == [] then []
    else (if s[0] != ' ' && afterSpace then [s[0]] else []) + WordStarts(s[1..], s[0] == ' ')
  }

  /** Joining the pieces with a space gives back the original text. */
  lemma {:induction false} SplitJoin(s: string)
    ensures Join(Split(s), " ") == s
  {
    if s != [] {
      SplitJoin(s[1..]);
      var rest := Split(s[1..]);
      if s[0] == ' ' {
        assert ([[]] + rest)[1..] == rest;
      } else if |rest| == 1 {
        assert Join(rest, " ") == rest[0];
      } else {
        assert (rest[0] + " " + Join(rest[1..], " ")) == Join(rest, " ");
        var p := [[s[0]] + rest[0]] + rest[1..];
        assert p[1..] == rest[1..];
        assert Join(p, " ") == [s[0]] + rest[0] + " " + Join(rest[1..], " ");
      }
    }
  }

  /** Splitting yields one more piece than there are spaces. */
  lemma {:induction false} SplitCount(s: string)
    ensures |Split(s)| == multiset(s)[' '] + 1
  {
    if s != [] {
      SplitCount(s[1..]);
      assert s == [s[0]] + s[1..];
    }
  }

  /** The first characters of the pieces are exactly the word starts; those
      after the first piece are the word starts that follow a space. */
  lemma {:induction false} FirstCharsAreWordStarts(s: string)
    ensures FirstChars(Split(s)) == WordStarts(s, true)
    ensures FirstChars(Split(s)[1..]) == WordStarts(s, false)
  {
    if s != [] {
      FirstCharsAreWordStarts(s[1..]);
      var rest := Split(s[1..]);
      if s[0] == ' ' {
        assert ([[]] + rest)[1..] == rest;
      } else {
        var p := [[s[0]] + rest[0]] + rest[1..];
        assert p[1..] == rest[1..];
        assert FirstChars(p) == [s[0]] + FirstChars(rest[1..]);
      }
    }
  }

  /** A double space leaves an empty piece, which adds no letter. */
  lemma InitialsExample()
    ensures GetInitials("a  b") == "AB"
  {
    var s := "a  b";
    assert s[1..][1..][1..][1..] == [];
    assert WordStarts(s[1..][1..][1..], true) == "b";
    assert WordStarts(s[1..][1..], false) == "b";
    assert WordStarts(s[1..], false) == "b";
    assert WordStarts(s, true) == "ab";
    assert UpperChar('a') == 'A' && UpperChar('b') == 'B';
  }
}
