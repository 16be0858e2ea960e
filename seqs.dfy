/** The array primitives the application uses (`filter`, `find`,
    `findIndex`, `slice`, `splice`), stated once over sequences. */
module Seqs {
  import opened Common

  /** `s.filter(keep)`: the elements satisfying `keep`, in their original order. */
  function Filter<T>(s: seq<T>, keep: T -> bool): (r: seq<T>)
    ensures |r| <= |s|
    ensures forall i :: 0 <= i < |r| ==> keep(r[i])
  {
    if s == [] then []
    else if keep(s[0]) then [s[0]] + Filter(s[1..], keep)
    else Filter(s[1..], keep)
  }

  /** Filtering keeps exactly the accepted elements: everything it returns
      comes from the input, and every accepted element of the input is kept. */
  lemma {:induction false} FilterMembers<T>(s: seq<T>, keep: T -> bool)
    ensures forall i :: 0 <= i < |Filter(s, keep)| ==> Filter(s, keep)[i] in s
    ensures forall i :: 0 <= i < |s| && keep(s[i]) ==> s[i] in Filter(s, keep)
  {
    if s != [] {
      FilterMembers(s[1..], keep);
      var r := Filter(s, keep);
      var t := Filter(s[1..], keep);
      forall i | 0 <= i < |r| ensures r[i] in s {
        if keep(s[0]) && i > 0 {
          assert r[i] == t[i - 1];
          assert t[i - 1] in s[1..];
        } else if !keep(s[0]) {
          assert r[i] in s[1..];
        }
      }
      forall i | 0 <= i < |s| && keep(s[i]) ensures s[i] in r {
        if i > 0 {
          assert s[i] == s[1..][i - 1];
          assert s[i] in t;
        }
      }
    }
  }

  /** Filtering removes every occurrence of a rejected value and keeps every
      occurrence of an accepted one. */
  lemma {:induction false} FilterCount<T>(s: seq<T>, keep: T -> bool, x: T)
    ensures multiset(Filter(s, keep))[x] == if keep(x) then multiset(s)[x] else 0
  {
    if s != [] {
      FilterCount(s[1..], keep, x);
      assert s == [s[0]] + s[1..];
    }
  }

  /** Filtering a sequence whose elements all pass leaves it unchanged. */
  lemma {:induction false} FilterKeepsAll<T>(s: seq<T>, keep: T -> bool)
    requires forall i :: 0 <= i < |s| ==> keep(s[i])
    ensures Filter(s, keep) == s
  {
    if s != [] {
      FilterKeepsAll(s[1..], keep);
    }
  }

  /** Filtering with a test no element passes leaves nothing. */
  lemma {:induction false} FilterDropsAll<T>(s: seq<T>, keep: T -> bool)
    requires forall i :: 0 <= i < |s| ==> !keep(s[i])
    ensures Filter(s, keep) == []
  {
    if s != [] {
      FilterDropsAll(s[1..], keep);
    }
  }

  /** When exactly the first `k` elements pass, filtering keeps that prefix. */
  lemma FilterKeepsPrefix<T>(s: seq<T>, keep: T -> bool, k: nat)
    requires k <= |s|
    requires forall i :: 0 <= i < k ==> keep(s[i])
    requires forall i :: k <= i < |s| ==> !keep(s[i])
    ensures Filter(s, keep) == s[..k]
  {
    assert s == s[..k] + s[k..];
    FilterAppend(s[..k], s[k..], keep);
    FilterKeepsAll(s[..k], keep);
    FilterDropsAll(s[k..], keep);
  }

  /** When exactly the elements from `k` on pass, filtering keeps that suffix. */
  lemma FilterKeepsSuffix<T>(s: seq<T>, keep: T -> bool, k: nat)
    requires k <= |s|
    requires forall i :: 0 <= i < k ==> !keep(s[i])
    requires forall i :: k <= i < |s| ==> keep(s[i])
    ensures Filter(s, keep) == s[k..]
  {
    assert s == s[..k] + s[k..];
    FilterAppend(s[..k], s[k..], keep);
    FilterDropsAll(s[..k], keep);
    FilterKeepsAll(s[k..], keep);
  }

  /** Filtering distributes over concatenation. */
  lemma {:induction false} FilterAppend<T>(a: seq<T>, b: seq<T>, keep: T -> bool)
    ensures Filter(a + b, keep) == Filter(a, keep) + Filter(b, keep)
  {
    if a != [] {
      FilterAppend(a[1..], b, keep);
      assert (a + b)[0] == a[0] && (a + b)[1..] == a[1..] + b;
    } else {
      assert a + b == b;
    }
  }

  /** Filtering out the one rejected element of a sequence removes just it. */
  lemma FilterDropsOne<T>(before: seq<T>, x: T, after: seq<T>, keep: T -> bool)
    requires forall i :: 0 <= i < |before| ==> keep(before[i])
    requires !keep(x)
    requires forall i :: 0 <= i < |after| ==> keep(after[i])
    ensures Filter(before + [x] + after, keep) == before + after
  {
    var front := before + [x];
    FilterAppend(front, after, keep);
    FilterAppend(before, [x], keep);
    FilterKeepsAll(before, keep);
    FilterKeepsAll(after, keep);
    assert Filter([x], keep) == [] by {
      assert [x][1..] == [];
    }
    assert Filter(front, keep) == before;
  }

  /** `s.findIndex(p)`, with -1 modelled as None: the first index whose element satisfies `p`. */
  function FirstIndex<T>(s: seq<T>, p: T -> bool): (r: Option<nat>)
    ensures r.Some? ==> r.value < |s| && p(s[r.value])
    ensures r.Some? ==> forall j :: 0 <= j < r.value ==> !p(s[j])
    ensures r.None? <==> forall j :: 0 <= j < |s| ==> !p(s[j])
  {
    if s == [] then None
    else if p(s[0]) then Some(0)
    else match FirstIndex(s[1..], p)
      case None => None
      case Some(i) => Some(i + 1)
  }

  /** `s.slice(0, n)`. */
  function Take<T>(s: seq<T>, n: nat): seq<T>
  {
    if n <= |s| then s[..n] else s
  }

  /** The elements of `b` sit after those of `a` in `a + b`. */
  lemma AppendedAt<T>(a: seq<T>, b: seq<T>)
    ensures forall k :: 0 <= k < |b| ==> (a + b)[|a| + k] == b[k]
  {
  }

  /** Concatenation regroups freely. */
  lemma AppendAssoc<T>(a: seq<T>, b: seq<T>, c: seq<T>)
    ensures a + (b + c) == a + b + c
  {
  }

  /** Appending one element after a concatenation. */
  lemma AppendOneAssoc<T>(a: seq<T>, b: seq<T>, x: T)
    ensures a + b + [x] == a + (b + [x])
  {
  }

  /** `s.slice(start, end)` for non-negative bounds: both are clamped to the length. */
  function Slice<T>(s: seq<T>, start: nat, end: nat): (r: seq<T>)
    ensures |r| <= |s| && (start <= end ==> |r| <= end - start)
    ensures forall k :: 0 <= k < |r| ==> start + k < |s| && r[k] == s[start + k]
    ensures start <= end && end <= |s| ==> r == s[start..end]
  {
    var lo := if start <= |s| then start else |s|;
    var hi := if end <= |s| then end else |s|;
    if lo <= hi then s[lo..hi] else []
  }

  /** The first `b` elements are the first `a` followed by the slice between. */
  lemma TakeSlice<T>(s: seq<T>, a: nat, b: nat)
    requires a <= b
    ensures Take(s, b) == Take(s, a) + Slice(s, a, b)
  {
    if b <= |s| {
      assert s[..b] == s[..a] + s[a..b];
    } else if a <= |s| {
      assert s == s[..a] + s[a..];
    }
  }

  /** `items.splice(i, 1)`: the sequence without position `i`. */
  function RemoveAt<T>(s: seq<T>, i: nat): seq<T>
    requires i < |s|
  {
    s[..i] + s[i + 1..]
  }

  /** `items.splice(i, 0, x)`: `x` inserted so that it ends at position `i`. */
  function InsertAt<T>(s: seq<T>, i: nat, x: T): seq<T>
    requires i <= |s|
  {
    s[..i] + [x] + s[i..]
  }

  /** The drag-and-drop move: take the element at `from` out and put it back at `to`. */
  function Moved<T>(s: seq<T>, from: nat, to: nat): seq<T>
    requires from < |s| && to < |s|
  {
    InsertAt(RemoveAt(s, from), to, s[from])
  }

  /** The moved element lands at `to`, nothing is lost or added, and taking the moved
      element back out leaves exactly the other elements in their original order. */
  lemma MovedSpec<T>(s: seq<T>, from: nat, to: nat)
    requires from < |s| && to < |s|
    ensures |Moved(s, from, to)| == |s|
    ensures Moved(s, from, to)[to] == s[from]
    ensures RemoveAt(Moved(s, from, to), to) == RemoveAt(s, from)
    ensures multiset(Moved(s, from, to)) == multiset(s)
  {
    var rest := RemoveAt(s, from);
    var m := Moved(s, from, to);
    assert m == rest[..to] + [s[from]] + rest[to..];
    assert RemoveAt(m, to) == rest by {
      assert m[..to] == rest[..to];
      assert m[to + 1..] == rest[to..];
    }
    assert multiset(m) == multiset(rest) + multiset([s[from]]) by {
      assert rest == rest[..to] + rest[to..];
    }
    assert multiset(rest) + multiset([s[from]]) == multiset(s) by {
      assert s == s[..from] + [s[from]] + s[from + 1..];
    }
  }

  /** `s.map(f)`. */
  function Map<A, B>(s: seq<A>, f: A -> B): (r: seq<B>)
    ensures |r| == |s| && forall i :: 0 <= i < |s| ==> r[i] == f(s[i])
  {
    seq(|s|, i requires 0 <= i < |s| => f(s[i]))
  }

  /** Where each element of a moved sequence comes from. */
  lemma MovedAt<T>(s: seq<T>, from: nat, to: nat, k: nat)
    requires from < |s| && to < |s| && k < |s|
    ensures |Moved(s, from, to)| == |s|
    ensures Moved(s, from, to)[k] ==
      if k == to then s[from]
      else
        var m := if k < to then k else k - 1;
        if m < from then s[m] else s[m + 1]
  {
    var rest := RemoveAt(s, from);
    assert |rest| == |s| - 1;
    var r := Moved(s, from, to);
    assert r == rest[..to] + [s[from]] + rest[to..];
    if k < to {
      assert r[k] == rest[k];
    } else if k > to {
      assert r[k] == rest[k - 1];
    }
  }

  /** Mapping commutes with the drag-and-drop move. */
  lemma MapMoved<A, B>(s: seq<A>, f: A -> B, from: nat, to: nat)
    requires from < |s| && to < |s|
    ensures Map(Moved(s, from, to), f) == Moved(Map(s, f), from, to)
  {
    var l := Map(Moved(s, from, to), f);
    var r := Moved(Map(s, f), from, to);
    MovedSpec(s, from, to);
    MovedSpec(Map(s, f), from, to);
    forall k | 0 <= k < |s| ensures l[k] == r[k] {
      MovedAt(s, from, to, k);
      MovedAt(Map(s, f), from, to, k);
    }
  }

  /** Mapping commutes with filtering when the two tests agree through the map. */
  lemma {:induction false} MapFilter<A, B>(s: seq<A>, f: A -> B, keep: A -> bool, keepB: B -> bool)
    requires forall x :: keep(x) == keepB(f(x))
    ensures Map(Filter(s, keep), f) == Filter(Map(s, f), keepB)
  {
    if s != [] {
      MapFilter(s[1..], f, keep, keepB);
      assert Map(s, f)[1..] == Map(s[1..], f);
      assert keep(s[0]) == keepB(f(s[0]));
    }
  }

  /** Filtering never adds occurrences. */
  lemma FilterSubMultiset<T>(s: seq<T>, keep: T -> bool)
    ensures multiset(Filter(s, keep)) <= multiset(s)
  {
    forall x ensures multiset(Filter(s, keep))[x] <= multiset(s)[x] {
      FilterCount(s, keep, x);
    }
  }

  /** No value occurs twice. */
  predicate NoDup<T(==)>(s: seq<T>)
  {
    forall i, j :: 0 <= i < j < |s| ==> s[i] != s[j]
  }

  /** A sequence has no duplicates exactly when every value occurs at most once. */
  lemma {:induction false} NoDupCounts<T>(s: seq<T>)
    ensures NoDup(s) <==> forall x :: multiset(s)[x] <= 1
  {
    if s != [] {
      var t := s[1..];
      assert s == [s[0]] + t;
      NoDupCounts(t);
      if NoDup(s) {
        forall k | 0 <= k < |t| ensures t[k] != s[0] {
          assert t[k] == s[k + 1];
        }
        assert multiset(t)[s[0]] == 0;
        assert NoDup(t) by {
          forall i, j | 0 <= i < j < |t| ensures t[i] != t[j] {
            assert t[i] == s[i + 1] && t[j] == s[j + 1];
          }
        }
      }
      if forall x :: multiset(s)[x] <= 1 {
        assert multiset(s)[s[0]] == 1 + multiset(t)[s[0]];
        forall x ensures multiset(t)[x] <= 1 {
          assert multiset(s)[x] >= multiset(t)[x];
        }
        forall i, j | 0 <= i < j < |s| ensures s[i] != s[j] {
          if i == 0 {
            assert s[j] == t[j - 1];
            assert s[j] in t;
          } else {
            assert s[i] == t[i - 1] && s[j] == t[j - 1];
          }
        }
      }
    }
  }

  /** Dropping or rearranging elements cannot create a duplicate. */
  lemma NoDupSubMultiset<T>(s: seq<T>, t: seq<T>)
    requires NoDup(s) && multiset(t) <= multiset(s)
    ensures NoDup(t)
  {
    NoDupCounts(s);
    NoDupCounts(t);
    forall x ensures multiset(t)[x] <= 1 {
      assert multiset(t)[x] <= multiset(s)[x];
    }
  }

  /** `r` is `s` with some elements left out and the rest in their order. */
  predicate SubsequenceOf<T(==)>(r: seq<T>, s: seq<T>)
    decreases |s|
  {
    if r == [] then true
    else if s == [] then false
    else (r[0] == s[0] && SubsequenceOf(r[1..], s[1..])) || SubsequenceOf(r, s[1..])
  }

  /** A prefix of a subsequence is a subsequence. */
  lemma {:induction false} PrefixSubsequence<T>(r: seq<T>, s: seq<T>, n: nat)
    requires SubsequenceOf(r, s) && n <= |r|
    ensures SubsequenceOf(r[..n], s)
    decreases |s|
  {
    if n > 0 {
      if r[0] == s[0] && SubsequenceOf(r[1..], s[1..]) {
        PrefixSubsequence(r[1..], s[1..], n - 1);
        assert r[..n][1..] == r[1..][..n - 1];
      } else {
        PrefixSubsequence(r, s[1..], n);
      }
    }
  }

  /** Filtering keeps the surviving elements in their original order. */
  lemma {:induction false} FilterSubsequence<T>(s: seq<T>, keep: T -> bool)
    ensures SubsequenceOf(Filter(s, keep), s)
  {
    if s != [] {
      FilterSubsequence(s[1..], keep);
      if keep(s[0]) {
        assert Filter(s, keep)[1..] == Filter(s[1..], keep);
      }
    }
  }

  /** Every sequence is a subsequence of itself. */
  lemma {:induction false} SubsequenceOfSelf<T>(s: seq<T>)
    ensures SubsequenceOf(s, s)
  {
    if s != [] {
      SubsequenceOfSelf(s[1..]);
    }
  }
}
