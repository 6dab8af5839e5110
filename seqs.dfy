/** Generic sequence operations behind the array methods the source calls:
    `filter`, `findIndex`, `slice(0, n)` and `Array.from(new Set(...))`. */
module Seqs {
  import opened Wrappers

  /** `a` is obtained from `b` by deleting elements, keeping the order of the rest. */
  ghost predicate IsSubsequence<T>(a: seq<T>, b: seq<T>)
    decreases |b|
  {
    if a == [] then true
    else if b == [] then false
    else if a[0] == b[0] then IsSubsequence(a[1..], b[1..])
    else IsSubsequence(a, b[1..])
  }

  /** Every sequence is a subsequence of itself. */
  lemma {:induction false} SubsequenceRefl<T>(s: seq<T>)
    ensures IsSubsequence(s, s)
  {
    if s != [] {
      SubsequenceRefl(s[1..]);
    }
  }

  /** Removing the last element of `b` keeps a subsequence of its prefix a subsequence. */
  lemma {:induction false} SubsequenceOfPrefix<T>(a: seq<T>, b: seq<T>, x: T)
    requires IsSubsequence(a, b)
    ensures IsSubsequence(a, b + [x])
    decreases |b|
  {
    if a == [] {
    } else if b == [] {
    } else {
      assert (b + [x])[0] == b[0];
      assert (b + [x])[1..] == b[1..] + [x];
      if a[0] == b[0] {
        SubsequenceOfPrefix(a[1..], b[1..], x);
      } else {
        SubsequenceOfPrefix(a, b[1..], x);
      }
    }
  }

  /** Appending the same element to both keeps the relation. */
  lemma {:induction false} SubsequenceAppend<T>(a: seq<T>, b: seq<T>, x: T)
    requires IsSubsequence(a, b)
    ensures IsSubsequence(a + [x], b + [x])
    decreases |b|
  {
    if a == [] {
      assert a + [x] == [x];
      if b == [] {
        assert IsSubsequence([x][1..], ([] + [x])[1..]);
      } else {
        assert (b + [x])[1..] == b[1..] + [x];
        if b[0] == x {
          assert [x][1..] == [];
        } else {
          SubsequenceAppend(a, b[1..], x);
        }
      }
    } else {
      assert b != [];
      assert (a + [x])[0] == a[0] && (a + [x])[1..] == a[1..] + [x];
      assert (b + [x])[0] == b[0] && (b + [x])[1..] == b[1..] + [x];
      if a[0] == b[0] {
        SubsequenceAppend(a[1..], b[1..], x);
      } else {
        SubsequenceAppend(a, b[1..], x);
      }
    }
  }

  /** Dropping the first element of a subsequence keeps a subsequence. */
  lemma {:induction false} SubsequenceDropHead<T>(a: seq<T>, b: seq<T>)
    requires a != [] && IsSubsequence(a, b)
    ensures IsSubsequence(a[1..], b)
    decreases |b|
  {
    if a[0] == b[0] {
      if |a| > 1 && a[1] == b[0] {
        SubsequenceDropHead(a[1..], b[1..]);
        assert a[1..][1..] == a[2..];
      }
    } else {
      SubsequenceDropHead(a, b[1..]);
      if |a| > 1 && a[1] == b[0] {
        SubsequenceDropHead(a[1..], b[1..]);
        assert a[1..][1..] == a[2..];
      }
    }
  }

  /** Being a subsequence is transitive. */
  lemma {:induction false} SubsequenceTrans<T>(a: seq<T>, b: seq<T>, c: seq<T>)
    requires IsSubsequence(a, b) && IsSubsequence(b, c)
    ensures IsSubsequence(a, c)
    decreases |c|
  {
    if a == [] {
    } else if b[0] == c[0] {
      if a[0] == b[0] {
        SubsequenceTrans(a[1..], b[1..], c[1..]);
      } else {
        SubsequenceTrans(a, b[1..], c[1..]);
      }
    } else {
      SubsequenceTrans(a, b, c[1..]);
      if a[0] == c[0] {
        SubsequenceDropHead(a, c[1..]);
      }
    }
  }

  /** Concatenation is associative. */
  lemma ConcatAssoc<T>(a: seq<T>, b: seq<T>, c: seq<T>)
    ensures (a + b) + c == a + (b + c)
  {
  }

  /** `Array.prototype.filter`: the elements satisfying `p`, in their original order. */
  function Filter<T(!new)>(s: seq<T>, p: T -> bool): (r: seq<T>)
    ensures |r| <= |s|
    ensures forall x :: x in r <==> x in s && p(x)
    ensures forall x :: multiset(r)[x] == if p(x) then multiset(s)[x] else 0
    ensures IsSubsequence(r, s)
    decreases |s|
  {
    if s == [] then []
    else
      var rest := Filter(s[1..], p);
      assert s == [s[0]] + s[1..];
      if p(s[0]) then [s[0]] + rest else rest
  }

  /** `filter` with a predicate that holds everywhere returns the input itself. */
  lemma {:induction false} FilterAll<T(!new)>(s: seq<T>, p: T -> bool)
    requires forall x :: x in s ==> p(x)
    ensures Filter(s, p) == s
    decreases |s|
  {
    if s != [] {
      FilterAll(s[1..], p);
    }
  }

  /** `filter` distributes over concatenation. */
  lemma {:induction false} FilterAppend<T(!new)>(a: seq<T>, b: seq<T>, p: T -> bool)
    ensures Filter(a + b, p) == Filter(a, p) + Filter(b, p)
    decreases |a|
  {
    if a == [] {
      assert a + b == b;
    } else {
      assert (a + b)[0] == a[0] && (a + b)[1..] == a[1..] + b;
      FilterAppend(a[1..], b, p);
    }
  }

  /** `slice(0, n)`: the first `min(n, |s|)` elements. */
  function Take<T>(s: seq<T>, n: nat): (r: seq<T>)
    ensures |r| == if n < |s| then n else |s|
    ensures forall i :: 0 <= i < |r| ==> r[i] == s[i]
  {
    if n < |s| then s[..n] else s
  }

  /** The elements of a sequence are pairwise distinct. */
  ghost predicate Distinct<T>(s: seq<T>) {
    forall i, j :: 0 <= i < j < |s| ==> s[i] != s[j]
  }

  /** The elements of `r` are in the order of their first occurrence in `s`: an earlier
      element of `r` occurs in `s` before every occurrence of a later one. */
  ghost predicate FirstOccurrenceOrder<T>(r: seq<T>, s: seq<T>) {
    forall i, j, k :: 0 <= i < j < |r| && 0 <= k < |s| && s[k] == r[j] ==> r[i] in s[..k]
  }

  /** `Array.from(new Set(s))`: a `Set` keeps the first occurrence of each element, in insertion order. */
  function Dedup<T(==,!new)>(s: seq<T>): (r: seq<T>)
    ensures Distinct(r)
    ensures forall x :: x in r <==> x in s
    ensures FirstOccurrenceOrder(r, s)
    ensures IsSubsequence(r, s)
    ensures |r| <= |s|
    decreases |s|
  {
    if s == [] then []
    else
      var init := s[..|s| - 1];
      var last := s[|s| - 1];
      assert s == init + [last];
      var rest := Dedup(init);
      SubsequenceOfPrefix(rest, init, last);
      if last in rest then
        OrderKeptByRepeat(rest, init, last);
        rest
      else
        SubsequenceAppend(rest, init, last);
        OrderKeptByNew(rest, init, last);
        rest + [last]
  }

  /** Appending an element that already occurs keeps the first-occurrence order. */
  lemma OrderKeptByRepeat<T>(r: seq<T>, s: seq<T>, x: T)
    requires FirstOccurrenceOrder(r, s) && x in s
    ensures FirstOccurrenceOrder(r, s + [x])
  {
    var t := s + [x];
    forall i, j, k | 0 <= i < j < |r| && 0 <= k < |t| && t[k] == r[j]
      ensures r[i] in t[..k]
    {
      if k < |s| {
        assert t[k] == s[k] && t[..k] == s[..k];
      } else {
        assert t[..k] == s;
        var k' :| 0 <= k' < |s| && s[k'] == x;
        assert r[i] in s[..k'];
      }
    }
  }

  /** Appending a new element after all of `r`'s elements keeps the first-occurrence order. */
  lemma OrderKeptByNew<T>(r: seq<T>, s: seq<T>, x: T)
    requires FirstOccurrenceOrder(r, s) && x !in s
    requires forall y :: y in r ==> y in s
    ensures FirstOccurrenceOrder(r + [x], s + [x])
  {
    var t, u := s + [x], r + [x];
    forall i, j, k | 0 <= i < j < |u| && 0 <= k < |t| && t[k] == u[j]
      ensures u[i] in t[..k]
    {
      assert u[i] == r[i] && r[i] in r;
      if j < |r| {
        assert u[j] == r[j] && r[j] in r;
        assert k < |s|;
        assert t[k] == s[k] && t[..k] == s[..k];
      } else {
        assert u[j] == x;
        assert k == |s|;
        assert t[..k] == s;
      }
    }
  }

  /** `findIndex`: the position of the first element satisfying `p`, if there is one. */
  function FirstIndex<T>(s: seq<T>, p: T -> bool): (r: Option<nat>)
    ensures r.None? <==> forall k :: 0 <= k < |s| ==> !p(s[k])
    ensures r.Some? ==> r.value < |s| && p(s[r.value])
    ensures r.Some? ==> forall k :: 0 <= k < r.value ==> !p(s[k])
    decreases |s|
  {
    if s == [] then None
    else if p(s[0]) then Some(0)
    else
      match FirstIndex(s[1..], p)
      case None => None
      case Some(i) => Some(i + 1)
  }
}
