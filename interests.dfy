/** The list transforms behind the registration form's "Areas of Interest":
    an ordered list of interest names that the form keeps free of duplicates. */
module Interests {

  /** No name occurs twice in the list. */
  predicate NoDuplicates(s: seq<string>) {
    forall i, j :: 0 <= i < j < |s| ==> s[i] != s[j]
  }

  /** `prev.filter((i) => i !== x)`: every occurrence of `x` is dropped,
      everything else is kept with its multiplicity. */
  function RemoveAll(s: seq<string>, x: string): (r: seq<string>)
    ensures x !in r
    ensures multiset(r) == multiset(s)[x := 0]
    ensures |r| <= |s|
  {
    if s == [] then []
    else
      assert s == [s[0]] + s[1..];
      if s[0] == x then RemoveAll(s[1..], x)
      else [s[0]] + RemoveAll(s[1..], x)
  }

  /** The checkbox handler's list update: remove `x` if present, otherwise
      append it at the end. */
  function Toggle(s: seq<string>, x: string): (r: seq<string>)
    ensures x in r <==> x !in s
    ensures forall y :: y != x ==> multiset(r)[y] == multiset(s)[y]
  {
    if x in s then RemoveAll(s, x) else (assert x in s + [x]; s + [x])
  }

  /** Greedy subsequence test: `r` can be obtained from `s` by deleting elements. */
  predicate Subsequence(r: seq<string>, s: seq<string>)
    decreases |s|
  {
    if r == [] then true
    else if s == [] then false
    else if r[0] == s[0] then Subsequence(r[1..], s[1..])
    else Subsequence(r, s[1..])
  }

  /** Filtering a list that does not hold `x` changes nothing. */
  lemma {:induction false} RemoveAllAbsent(s: seq<string>, x: string)
    requires x !in s
    ensures RemoveAll(s, x) == s
  {
    if s != [] {
      assert s[0] != x;
      assert x !in s[1..];
      RemoveAllAbsent(s[1..], x);
      assert s == [s[0]] + s[1..];
    }
  }

  /** Filtering distributes over concatenation: the surviving elements keep
      their relative order. */
  lemma {:induction false} RemoveAllAppend(a: seq<string>, b: seq<string>, x: string)
    ensures RemoveAll(a + b, x) == RemoveAll(a, x) + RemoveAll(b, x)
  {
    if a == [] {
      assert a + b == b;
    } else {
      assert (a + b)[0] == a[0];
      assert (a + b)[1..] == a[1..] + b;
      RemoveAllAppend(a[1..], b, x);
    }
  }

  /** The result of filtering is an order-preserving selection of the input. */
  lemma {:induction false} RemoveAllIsSubsequence(s: seq<string>, x: string)
    ensures Subsequence(RemoveAll(s, x), s)
  {
    if s != [] {
      RemoveAllIsSubsequence(s[1..], x);
      var t := RemoveAll(s[1..], x);
      if s[0] != x {
        assert ([s[0]] + t)[1..] == t;
      } else if t != [] {
        assert t[0] in multiset(t);
        assert t[0] != s[0];
      }
    }
  }

  /** Removing is idempotent. */
  lemma RemoveAllIdempotent(s: seq<string>, x: string)
    ensures RemoveAll(RemoveAll(s, x), x) == RemoveAll(s, x)
  {
    RemoveAllAbsent(RemoveAll(s, x), x);
  }

  /** Every name other than `x` is kept with its exact number of occurrences;
      in particular its membership does not change. */
  lemma RemoveAllKeepsOthers(s: seq<string>, x: string, y: string)
    requires y != x
    ensures multiset(RemoveAll(s, x))[y] == multiset(s)[y]
    ensures y in RemoveAll(s, x) <==> y in s
  {
    assert y in RemoveAll(s, x) <==> y in multiset(RemoveAll(s, x));
    assert y in s <==> y in multiset(s);
  }

  lemma {:induction false} NoDuplicatesCount(s: seq<string>, y: string)
    requires NoDuplicates(s)
    ensures multiset(s)[y] <= 1
  {
    if s != [] {
      assert s == [s[0]] + s[1..];
      assert NoDuplicates(s[1..]);
      NoDuplicatesCount(s[1..], y);
      if s[0] == y {
        assert y !in s[1..];
        assert multiset(s[1..])[y] == 0;
      }
    }
  }

  lemma RepeatCounted(s: seq<string>, i: nat, j: nat)
    requires i < j < |s|
    ensures s[i] == s[j] ==> multiset(s)[s[i]] >= 2
  {
    assert s == s[..i] + [s[i]] + s[i+1..j] + [s[j]] + s[j+1..];
  }

  lemma CountNoDuplicates(s: seq<string>)
    requires forall y :: multiset(s)[y] <= 1
    ensures NoDuplicates(s)
  {
    forall i, j | 0 <= i < j < |s| ensures s[i] != s[j] {
      RepeatCounted(s, i, j);
    }
  }

  /** Filtering never introduces a duplicate. */
  lemma RemoveAllNoDuplicates(s: seq<string>, x: string)
    requires NoDuplicates(s)
    ensures NoDuplicates(RemoveAll(s, x))
  {
    forall y ensures multiset(RemoveAll(s, x))[y] <= 1 {
      NoDuplicatesCount(s, y);
    }
    CountNoDuplicates(RemoveAll(s, x));
  }

  /** Appending a name that is not yet there keeps the list duplicate-free. */
  lemma AppendFreshNoDuplicates(s: seq<string>, x: string)
    requires NoDuplicates(s) && x !in s
    ensures NoDuplicates(s + [x])
  {
    var t := s + [x];
    forall i, j | 0 <= i < j < |t| ensures t[i] != t[j] {
      if j == |s| {
        assert t[i] == s[i];
      } else {
        assert t[i] == s[i] && t[j] == s[j];
      }
    }
  }

  /** Where toggling puts things: an absent `x` lands at the end, a present
      one is dropped and the rest keep their order. */
  lemma ToggleOrder(s: seq<string>, x: string)
    ensures x !in s ==> Toggle(s, x) == s + [x]
    ensures x in s ==> |Toggle(s, x)| < |s|
    ensures x in s ==> Subsequence(Toggle(s, x), s)
  {
    if x in s {
      assert x in multiset(s);
      RemoveAllIsSubsequence(s, x);
    }
  }

  /** Toggling keeps the list duplicate-free. */
  lemma ToggleNoDuplicates(s: seq<string>, x: string)
    requires NoDuplicates(s)
    ensures NoDuplicates(Toggle(s, x))
  {
    if x in s {
      RemoveAllNoDuplicates(s, x);
    } else {
      AppendFreshNoDuplicates(s, x);
    }
  }

  /** Ticking an unticked box and unticking it again restores the list. */
  lemma ToggleTwice(s: seq<string>, x: string)
    requires x !in s
    ensures Toggle(Toggle(s, x), x) == s
  {
    assert x in s + [x];
    RemoveAllAppend(s, [x], x);
    RemoveAllAbsent(s, x);
    assert RemoveAll([x], x) == [];
  }
}
