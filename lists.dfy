/** Array operations of JavaScript that the components build their new state with:
    `filter`, and `filter(x => x !== v)` in particular. */
module Lists {

  /** `s.filter(keep)`: the elements of `s` that satisfy `keep`, in their order. */
  function Filter<T(==,!new)>(s: seq<T>, keep: T -> bool): (r: seq<T>)
    ensures |r| <= |s|
    ensures forall x :: x in r <==> x in s && keep(x)
  {
    if s == [] then []
    else (if keep(s[0]) then [s[0]] else []) + Filter(s[1..], keep)
  }

  /** Filtering distributes over concatenation, so it keeps the relative order of what it keeps. */
  lemma {:induction false} FilterConcat<T(!new)>(a: seq<T>, b: seq<T>, keep: T -> bool)
    ensures Filter(a + b, keep) == Filter(a, keep) + Filter(b, keep)
  {
    if a == [] {
      assert a + b == b;
    } else {
      assert (a + b)[0] == a[0];
      assert (a + b)[1..] == a[1..] + b;
      FilterConcat(a[1..], b, keep);
    }
  }

  /** When every element passes, filtering changes nothing. */
  lemma {:induction false} FilterKeepsAll<T(!new)>(s: seq<T>, keep: T -> bool)
    requires forall x :: x in s ==> keep(x)
    ensures Filter(s, keep) == s
  {
    if s != [] {
      assert s[0] in s;
      assert forall x :: x in s[1..] ==> x in s;
      FilterKeepsAll(s[1..], keep);
    }
  }

  /** When no element passes, the result is empty. */
  lemma {:induction false} FilterKeepsNone<T(!new)>(s: seq<T>, keep: T -> bool)
    requires forall x :: x in s ==> !keep(x)
    ensures Filter(s, keep) == []
  {
    if s != [] {
      assert s[0] in s;
      assert forall x :: x in s[1..] ==> x in s;
      FilterKeepsNone(s[1..], keep);
    }
  }

  /** `s.filter(y => y !== x)`: every copy of `x` dropped, the rest in order. */
  function RemoveAll<T(==,!new)>(s: seq<T>, x: T): (r: seq<T>)
    ensures |r| <= |s|
    ensures x !in r
    ensures forall y :: y != x ==> (y in r <==> y in s)
  {
    Filter(s, y => y != x)
  }

  /** Removing every copy of something absent changes nothing. */
  lemma RemoveAllAbsent<T(!new)>(s: seq<T>, x: T)
    requires x !in s
    ensures RemoveAll(s, x) == s
  {
    FilterKeepsAll(s, y => y != x);
  }

  /** Appending `x` to a list without it and then removing every `x` restores the list. */
  lemma AppendThenRemoveAll<T(!new)>(s: seq<T>, x: T)
    requires x !in s
    ensures RemoveAll(s + [x], x) == s
  {
    FilterConcat(s, [x], y => y != x);
    RemoveAllAbsent(s, x);
    assert Filter([x], y => y != x) == [];
  }

  /** RemoveAll keeps relative order: it distributes over concatenation. */
  lemma RemoveAllConcat<T(!new)>(a: seq<T>, b: seq<T>, x: T)
    ensures RemoveAll(a + b, x) == RemoveAll(a, x) + RemoveAll(b, x)
  {
    FilterConcat(a, b, y => y != x);
  }

  /** RemoveAll drops every copy of `x` and keeps every copy of everything else. */
  lemma {:induction false} RemoveAllCounts<T(!new)>(s: seq<T>, x: T)
    ensures multiset(RemoveAll(s, x)) == multiset(s)[x := 0]
  {
    if s != [] {
      assert s == [s[0]] + s[1..];
      RemoveAllConcat([s[0]], s[1..], x);
      RemoveAllCounts(s[1..], x);
      assert RemoveAll([s[0]], x) == (if s[0] == x then [] else [s[0]]);
      assert multiset(s) == multiset([s[0]]) + multiset(s[1..]);
    }
  }

  /** Removing the only copy of `x` closes the gap around it. */
  lemma RemoveOnlyCopy<T(!new)>(before: seq<T>, x: T, after: seq<T>)
    requires x !in before && x !in after
    ensures RemoveAll(before + [x] + after, x) == before + after
  {
    RemoveAllConcat(before + [x], after, x);
    AppendThenRemoveAll(before, x);
    RemoveAllAbsent(after, x);
  }

  /** No element occurs twice. */
  predicate NoDuplicates<T(==,!new)>(s: seq<T>) {
    forall i, j :: 0 <= i < j < |s| ==> s[i] != s[j]
  }

  /** Appending an element not yet present keeps a list free of duplicates. */
  lemma AppendKeepsNoDuplicates<T(!new)>(s: seq<T>, x: T)
    requires NoDuplicates(s) && x !in s
    ensures NoDuplicates(s + [x])
  {
    forall i, j | 0 <= i < j < |s + [x]| ensures (s + [x])[i] != (s + [x])[j] {
      if j == |s| {
        assert (s + [x])[i] == s[i] && s[i] in s;
      }
    }
  }
}
