/** Sequence operations shared by the Binance averaging and the CLI:
    Python slicing, sums and means, ascending sort, and order-preserving
    de-duplication. */
module Seqs {

  // ---------------------------------------------------------------------
  // Python slicing
  // ---------------------------------------------------------------------

  /** The index Python uses for a slice bound `k` on a sequence of length
      `n`: negative bounds count from the end, and both are clamped. */
  function SliceIndex(k: int, n: nat): (r: nat)
    ensures r <= n
    ensures 0 <= k <= n ==> r == k
    ensures -(n as int) <= k < 0 ==> r == n + k
    ensures k < -(n as int) ==> r == 0
    ensures k > n ==> r == n
  {
    if k < 0 then (if n + k < 0 then 0 else n + k)
    else if k > n then n else k
  }

  /** `s[k:]`. */
  function SliceFrom<T>(s: seq<T>, k: int): seq<T> {
    s[SliceIndex(k, |s|)..]
  }

  /** `s[:k]`. */
  function SliceTo<T>(s: seq<T>, k: int): seq<T> {
    s[..SliceIndex(k, |s|)]
  }

  /** `s[-n:]` keeps the last `n` elements when `0 < n <= |s|`, everything
      when `n == 0` (since `-0 == 0`), and drops the first `-n` when `n < 0`. */
  lemma LastN<T>(s: seq<T>, n: int)
    ensures 0 < n <= |s| ==> SliceFrom(s, -n) == s[|s| - n..] && |SliceFrom(s, -n)| == n
    ensures n == 0 ==> SliceFrom(s, -n) == s
    ensures n < 0 && -n <= |s| ==> SliceFrom(s, -n) == s[-n..]
    ensures n < 0 && -n >= |s| ==> SliceFrom(s, -n) == []
  {
  }

  // ---------------------------------------------------------------------
  // Sums and means
  // ---------------------------------------------------------------------

  function Sum(s: seq<real>): real {
    if s == [] then 0.0 else s[0] + Sum(s[1..])
  }

  /** `sum(s) / float(len(s))`. */
  function Mean(s: seq<real>): real
    requires s != []
  {
    Sum(s) / (|s| as real)
  }

  lemma {:induction false} SumBounds(s: seq<real>, lo: real, hi: real)
    requires forall i :: 0 <= i < |s| ==> lo <= s[i] <= hi
    ensures (|s| as real) * lo <= Sum(s) <= (|s| as real) * hi
  {
    if s != [] {
      SumBounds(s[1..], lo, hi);
    }
  }

  /** Any bound that every element satisfies, the mean satisfies too. */
  lemma MeanWithin(s: seq<real>, lo: real, hi: real)
    requires s != []
    requires forall i :: 0 <= i < |s| ==> lo <= s[i] <= hi
    ensures lo <= Mean(s) <= hi
  {
    SumBounds(s, lo, hi);
    var n := |s| as real;
    assert Sum(s) / n >= (n * lo) / n;
    assert Sum(s) / n <= (n * hi) / n;
  }

  /** The mean lies between the least and the greatest element. */
  lemma MeanBetween(s: seq<real>)
    requires s != []
    ensures s[MinIndex(s)] <= Mean(s) <= s[MaxIndex(s)]
  {
    MeanWithin(s, s[MinIndex(s)], s[MaxIndex(s)]);
  }

  /** A mean of elements drawn from `whole` lies between the least and the
      greatest element of `whole`, and is positive when `whole` is. */
  lemma MeanOfDrawn(xs: seq<real>, whole: seq<real>)
    requires xs != []
    requires forall i :: 0 <= i < |xs| ==> xs[i] in whole
    ensures whole != []
    ensures whole[MinIndex(whole)] <= Mean(xs) <= whole[MaxIndex(whole)]
    ensures (forall j :: 0 <= j < |whole| ==> whole[j] > 0.0) ==> Mean(xs) > 0.0
  {
    assert xs[0] in whole;
    var lo := whole[MinIndex(whole)];
    var hi := whole[MaxIndex(whole)];
    forall i | 0 <= i < |xs| ensures lo <= xs[i] <= hi {
      var j :| 0 <= j < |whole| && whole[j] == xs[i];
    }
    MeanWithin(xs, lo, hi);
    if forall j :: 0 <= j < |whole| ==> whole[j] > 0.0 {
      forall i | 0 <= i < |xs| ensures xs[i] > 0.0 {
        var j :| 0 <= j < |whole| && whole[j] == xs[i];
      }
      MeanPositive(xs);
    }
  }

  /** The mean of positive numbers is positive. */
  lemma MeanPositive(s: seq<real>)
    requires s != []
    requires forall i :: 0 <= i < |s| ==> s[i] > 0.0
    ensures Mean(s) > 0.0
  {
    var lo := MinIndex(s);
    MeanWithin(s, s[lo], s[MaxIndex(s)]);
  }

  function MinIndex(s: seq<real>): (k: nat)
    requires s != []
    ensures k < |s|
    ensures forall i :: 0 <= i < |s| ==> s[k] <= s[i]
  {
    if |s| == 1 then 0
    else
      var k := MinIndex(s[1..]) + 1;
      if s[0] <= s[k] then 0 else k
  }

  function MaxIndex(s: seq<real>): (k: nat)
    requires s != []
    ensures k < |s|
    ensures forall i :: 0 <= i < |s| ==> s[i] <= s[k]
  {
    if |s| == 1 then 0
    else
      var k := MaxIndex(s[1..]) + 1;
      if s[0] >= s[k] then 0 else k
  }

  lemma {:induction false} SumThree(a: real, b: real, c: real)
    ensures Sum([a, b, c]) == a + b + c
  {
    assert [c][1..] == [];
    assert Sum([c]) == c;
    assert [b, c][1..] == [c];
    assert Sum([b, c]) == b + c;
    assert [a, b, c][1..] == [b, c];
  }

  // ---------------------------------------------------------------------
  // Ascending sort
  // ---------------------------------------------------------------------

  predicate Sorted(s: seq<real>) {
    forall i, j :: 0 <= i < j < |s| ==> s[i] <= s[j]
  }

  /** Inserts `x` into an ascending sequence, after every element `<= x`. */
  function Insert(x: real, s: seq<real>): (r: seq<real>)
    requires Sorted(s)
    ensures |r| == |s| + 1
    ensures Sorted(r)
    ensures multiset(r) == multiset(s) + multiset{x}
  {
    if s == [] then [x]
    else if x <= s[0] then [x] + s
    else
      var t := Insert(x, s[1..]);
      assert multiset(s) == multiset{s[0]} + multiset(s[1..]) by {
        assert s == [s[0]] + s[1..];
      }
      LowerBoundOfMultiset(s[0], t, s[1..], x);
      [s[0]] + t
  }

  /** A lower bound of `u` and of `x` bounds every element of `t` when `t`
      holds the elements of `u` plus `x`. */
  lemma LowerBoundOfMultiset(lo: real, t: seq<real>, u: seq<real>, x: real)
    requires multiset(t) == multiset(u) + multiset{x}
    requires lo <= x && forall k :: 0 <= k < |u| ==> lo <= u[k]
    ensures forall k :: 0 <= k < |t| ==> lo <= t[k]
  {
    forall k | 0 <= k < |t| ensures lo <= t[k] {
      assert t[k] in multiset(t);
      if t[k] != x {
        assert t[k] in multiset(u);
      }
    }
  }

  /** The head of a sorted sequence is its least element. */
  lemma SortedHeadLeast(a: seq<real>, y: real)
    requires Sorted(a) && y in multiset(a)
    ensures a[0] <= y
  {
    var j :| 0 <= j < |a| && a[j] == y;
  }

  /** Dropping the head drops one copy of it from the multiset. */
  lemma MultisetTail<T>(a: seq<T>)
    requires a != []
    ensures multiset(a[1..]) == multiset(a) - multiset{a[0]}
  {
    assert a == [a[0]] + a[1..];
  }

  /** Ascending sort: a sorted permutation of the input. */
  function Sort(s: seq<real>): (r: seq<real>)
    ensures |r| == |s|
    ensures Sorted(r)
    ensures multiset(r) == multiset(s)
  {
    if s == [] then []
    else
      assert s == [s[0]] + s[1..];
      Insert(s[0], Sort(s[1..]))
  }

  /** A multiset has exactly one ascending arrangement: any two sorted
      sequences with the same elements are equal. */
  lemma {:induction false} SortedUnique(a: seq<real>, b: seq<real>)
    requires Sorted(a) && Sorted(b)
    requires multiset(a) == multiset(b)
    ensures a == b
  {
    if a != [] {
      assert |b| == |a| by {
        assert |multiset(a)| == |a| && |multiset(b)| == |b|;
      }
      SortedSameHead(a, b);
      MultisetTail(a);
      MultisetTail(b);
      SortedUnique(a[1..], b[1..]);
      assert a == [a[0]] + a[1..];
      assert b == [b[0]] + b[1..];
    }
  }

  /** Two sorted arrangements of one multiset start alike. */
  lemma SortedSameHead(a: seq<real>, b: seq<real>)
    requires Sorted(a) && Sorted(b) && a != [] && b != []
    requires multiset(a) == multiset(b)
    ensures a[0] == b[0]
  {
    assert a[0] in multiset(b);
    assert b[0] in multiset(a);
    SortedHeadLeast(a, b[0]);
    SortedHeadLeast(b, a[0]);
  }

  /** The outcome of sorting depends only on the elements, not their order. */
  lemma SortPermutationInvariant(a: seq<real>, b: seq<real>)
    requires multiset(a) == multiset(b)
    ensures Sort(a) == Sort(b)
  {
    SortedUnique(Sort(a), Sort(b));
  }

  // ---------------------------------------------------------------------
  // Order-preserving de-duplication
  // ---------------------------------------------------------------------

  predicate NoDuplicates<T(==)>(s: seq<T>) {
    forall i, j :: 0 <= i < j < |s| ==> s[i] != s[j]
  }

  /** Index of the first occurrence of `x` in `s`. */
  function FirstIndex<T(==)>(s: seq<T>, x: T): (k: nat)
    requires x in s
    ensures k < |s| && s[k] == x
    ensures forall i :: 0 <= i < k ==> s[i] != x
  {
    if s[0] == x then 0 else 1 + FirstIndex(s[1..], x)
  }

  /** The elements of `s` not in `seen`, each at its first occurrence. */
  function DedupFrom<T(==)>(s: seq<T>, seen: set<T>): seq<T> {
    if s == [] then []
    else if s[0] in seen then DedupFrom(s[1..], seen)
    else [s[0]] + DedupFrom(s[1..], seen + {s[0]})
  }

  /** The first occurrence of every element, in input order. */
  function Dedup<T(==)>(s: seq<T>): seq<T> {
    DedupFrom(s, {})
  }

  /** The kept elements are those of `s` not yet seen. */
  lemma {:induction false} DedupFromMembers<T>(s: seq<T>, seen: set<T>)
    ensures forall x :: x in DedupFrom(s, seen) <==> x in s && x !in seen
  {
    if s != [] {
      var seen' := if s[0] in seen then seen else seen + {s[0]};
      DedupFromMembers(s[1..], seen');
      assert s == [s[0]] + s[1..];
      assert forall x :: x in s <==> x == s[0] || x in s[1..];
    }
  }

  /** A kept element is one of `s` not yet seen. */
  lemma DedupFromKept<T>(s: seq<T>, seen: set<T>, x: T)
    requires x in DedupFrom(s, seen)
    ensures x in s && x !in seen
  {
    DedupFromMembers(s, seen);
  }

  /** What is kept from the tail `t` of `[h] + t`, after `h` is seen, comes
      later in `[h] + t` than `h`. */
  lemma DedupFromTail<T>(h: T, t: seq<T>, seen: set<T>, y: T)
    requires y in DedupFrom(t, seen + {h})
    ensures y in t && y != h && FirstIndex([h] + t, y) == 1 + FirstIndex(t, y)
  {
    DedupFromMembers(t, seen + {h});
    assert ([h] + t)[1..] == t;
  }

  /** No element is kept twice. */
  lemma {:induction false} DedupFromNoDuplicates<T>(s: seq<T>, seen: set<T>)
    ensures NoDuplicates(DedupFrom(s, seen))
  {
    if s != [] && s[0] !in seen {
      var rest := DedupFrom(s[1..], seen + {s[0]});
      DedupFromNoDuplicates(s[1..], seen + {s[0]});
      var r := [s[0]] + rest;
      assert DedupFrom(s, seen) == r;
      forall i, j | 0 <= i < j < |r| ensures r[i] != r[j] {
        DedupFromTail(s[0], s[1..], seen, rest[j - 1]);
        assert r[j] == rest[j - 1];
        if i > 0 {
          assert r[i] == rest[i - 1];
        }
      }
    } else if s != [] {
      DedupFromNoDuplicates(s[1..], seen);
    }
  }

  /** Putting the head of `s` in front of elements of its tail that are in
      first-occurrence order keeps them in that order. */
  lemma ConsInOrder<T>(s: seq<T>, rest: seq<T>)
    requires s != []
    requires forall k :: 0 <= k < |rest| ==> rest[k] in s && rest[k] != s[0]
    requires forall i, j :: 0 <= i < j < |rest| ==> FirstIndex(s, rest[i]) < FirstIndex(s, rest[j])
    ensures forall i, j :: 0 <= i < j < |[s[0]] + rest| ==>
      FirstIndex(s, ([s[0]] + rest)[i]) < FirstIndex(s, ([s[0]] + rest)[j])
  {
    var r := [s[0]] + rest;
    forall i, j | 0 <= i < j < |r| ensures FirstIndex(s, r[i]) < FirstIndex(s, r[j]) {
      assert r[j] == rest[j - 1];
      if i > 0 {
        assert r[i] == rest[i - 1];
      }
    }
  }

  /** The kept elements appear in the order of their first occurrences. */
  lemma {:induction false} DedupFromOrder<T>(s: seq<T>, seen: set<T>)
    ensures forall k :: 0 <= k < |DedupFrom(s, seen)| ==> DedupFrom(s, seen)[k] in s
    ensures forall i, j :: 0 <= i < j < |DedupFrom(s, seen)| ==>
      FirstIndex(s, DedupFrom(s, seen)[i]) < FirstIndex(s, DedupFrom(s, seen)[j])
  {
    var d := DedupFrom(s, seen);
    forall k | 0 <= k < |d| ensures d[k] in s {
      assert d[k] in d;
      DedupFromKept(s, seen, d[k]);
    }
    if s != [] {
      var seen' := seen + {s[0]};
      var rest := DedupFrom(s[1..], seen');
      assert (forall k :: 0 <= k < |rest| ==> rest[k] in s && rest[k] != s[0])
        && (forall i, j :: 0 <= i < j < |rest| ==> FirstIndex(s, rest[i]) < FirstIndex(s, rest[j]))
      by {
        DedupFromOrder(s[1..], seen');
        assert s == [s[0]] + s[1..];
        forall k | 0 <= k < |rest|
          ensures rest[k] in s && rest[k] != s[0] && FirstIndex(s, rest[k]) == 1 + FirstIndex(s[1..], rest[k])
        {
          DedupFromTail(s[0], s[1..], seen, rest[k]);
        }
      }
      if s[0] !in seen {
        ConsInOrder(s, rest);
        assert DedupFrom(s, seen) == [s[0]] + rest;
      } else {
        assert seen' == seen;
        assert DedupFrom(s, seen) == rest;
      }
    }
  }

  lemma DedupFromProperties<T>(s: seq<T>, seen: set<T>)
    ensures forall x :: x in DedupFrom(s, seen) <==> x in s && x !in seen
    ensures NoDuplicates(DedupFrom(s, seen))
    ensures forall i, j :: 0 <= i < j < |DedupFrom(s, seen)| ==>
      FirstIndex(s, DedupFrom(s, seen)[i]) < FirstIndex(s, DedupFrom(s, seen)[j])
  {
    DedupFromMembers(s, seen);
    DedupFromNoDuplicates(s, seen);
    DedupFromOrder(s, seen);
  }

  /** `_parse_fiats` de-duplication: no element twice, exactly the input's
      elements, and in the order of their first occurrences. */
  lemma DedupProperties<T>(s: seq<T>)
    ensures NoDuplicates(Dedup(s))
    ensures forall x :: x in Dedup(s) <==> x in s
    ensures forall i, j :: 0 <= i < j < |Dedup(s)| ==>
      FirstIndex(s, Dedup(s)[i]) < FirstIndex(s, Dedup(s)[j])
  {
    DedupFromProperties(s, {});
  }

  /** The loop of `_parse_fiats`: a `seen` set and an output list, appending
      each element the first time it appears. */
  method DedupInOrder<T(==)>(s: seq<T>) returns (ordered: seq<T>)
    ensures ordered == Dedup(s)
  {
    var seen: set<T> := {};
    ordered := [];
    var i := 0;
    while i < |s|
      invariant 0 <= i <= |s|
      invariant ordered + DedupFrom(s[i..], seen) == Dedup(s)
    {
      var rest := s[i + 1..];
      assert s[i..][0] == s[i] && s[i..][1..] == rest;
      if s[i] !in seen {
        assert DedupFrom(s[i..], seen) == [s[i]] + DedupFrom(rest, seen + {s[i]});
        ordered := ordered + [s[i]];
        seen := seen + {s[i]};
      } else {
        assert DedupFrom(s[i..], seen) == DedupFrom(rest, seen);
      }
      i := i + 1;
    }
  }
}
