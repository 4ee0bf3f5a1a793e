/**
 Sequence operations behind the list view: `Array.prototype.filter`,
 de-duplication through a `Set` (first-occurrence order), `sort` under a
 caller-given ordering, and `reverse`.
 */
module Seqs {

  /** `s.filter(f)`. */
  function Filter<T>(s: seq<T>, f: T -> bool): (r: seq<T>)
    ensures |r| <= |s|
    ensures forall x :: x in r ==> x in s && f(x)
    ensures forall i :: 0 <= i < |s| && f(s[i]) ==> s[i] in r
  {
    if |s| == 0 then []
    else (if f(s[0]) then [s[0]] else []) + Filter(s[1..], f)
  }

  /** `idx` lists strictly increasing positions of `s` whose elements, in order, are `r`. */
  ghost predicate SelectedBy<T>(r: seq<T>, s: seq<T>, idx: seq<int>) {
    && |idx| == |r|
    && (forall i :: 0 <= i < |idx| ==> 0 <= idx[i] < |s| && r[i] == s[idx[i]])
    && (forall i, j :: 0 <= i < j < |idx| ==> idx[i] < idx[j])
  }

  function Shift(idx: seq<int>): (r: seq<int>)
    ensures |r| == |idx| && forall i :: 0 <= i < |idx| ==> r[i] == idx[i] + 1
  {
    seq(|idx|, i requires 0 <= i < |idx| => idx[i] + 1)
  }

  /**
   The filter result is the ordered subsequence of `s` made of exactly the
   positions whose element satisfies `f`.
   */
  lemma {:induction false} FilterSelects<T>(s: seq<T>, f: T -> bool) returns (idx: seq<int>)
    ensures SelectedBy(Filter(s, f), s, idx)
    ensures forall j :: 0 <= j < |s| ==> (f(s[j]) <==> j in idx)
  {
    if |s| == 0 {
      idx := [];
    } else {
      var rest := FilterSelects(s[1..], f);
      var t := Filter(s[1..], f);
      var shifted := Shift(rest);
      if f(s[0]) {
        idx := [0] + shifted;
        SelectedCons(s, t, rest, idx);
      } else {
        idx := shifted;
        SelectedSkip(s, t, rest, idx);
      }
      forall j | 0 <= j < |s|
        ensures f(s[j]) <==> j in idx
      {
        if j > 0 {
          assert s[j] == s[1..][j - 1];
          ShiftMember(rest, j);
        }
      }
    }
  }

  lemma ShiftMember(idx: seq<int>, j: int)
    ensures j in Shift(idx) <==> j - 1 in idx
  {
    if j - 1 in idx {
      var i :| 0 <= i < |idx| && idx[i] == j - 1;
      assert Shift(idx)[i] == j;
    }
  }

  lemma SelectedCons<T>(s: seq<T>, t: seq<T>, rest: seq<int>, idx: seq<int>)
    requires |s| > 0 && SelectedBy(t, s[1..], rest) && idx == [0] + Shift(rest)
    ensures SelectedBy([s[0]] + t, s, idx)
  {
  }

  lemma SelectedSkip<T>(s: seq<T>, t: seq<T>, rest: seq<int>, idx: seq<int>)
    requires |s| > 0 && SelectedBy(t, s[1..], rest) && idx == Shift(rest)
    ensures SelectedBy(t, s, idx)
  {
  }

  /** Filtering an already filtered sequence again with the same predicate changes nothing. */
  lemma {:induction false} FilterIdempotent<T>(s: seq<T>, f: T -> bool)
    ensures Filter(Filter(s, f), f) == Filter(s, f)
  {
    if |s| > 0 {
      FilterIdempotent(s[1..], f);
      FilterAppend(if f(s[0]) then [s[0]] else [], Filter(s[1..], f), f);
    }
  }

  lemma {:induction false} FilterAppend<T>(a: seq<T>, b: seq<T>, f: T -> bool)
    ensures Filter(a + b, f) == Filter(a, f) + Filter(b, f)
  {
    if |a| == 0 {
      assert a + b == b;
    } else {
      assert (a + b)[1..] == a[1..] + b;
      FilterAppend(a[1..], b, f);
    }
  }

  /** Filtering twice is filtering once by the conjunction. */
  lemma {:induction false} FilterFuse<T>(s: seq<T>, f: T -> bool, g: T -> bool, h: T -> bool)
    requires forall x :: h(x) == (f(x) && g(x))
    ensures Filter(Filter(s, f), g) == Filter(s, h)
  {
    if |s| > 0 {
      FilterFuse(s[1..], f, g, h);
      FilterAppend(if f(s[0]) then [s[0]] else [], Filter(s[1..], f), g);
    }
  }

  /** Two filters commute. */
  lemma FilterCommute<T>(s: seq<T>, f: T -> bool, g: T -> bool)
    ensures Filter(Filter(s, f), g) == Filter(Filter(s, g), f)
  {
    var h := (x: T) => f(x) && g(x);
    FilterFuse(s, f, g, h);
    FilterFuse(s, g, f, h);
  }

  /** A predicate every element satisfies keeps the whole sequence. */
  lemma {:induction false} FilterKeepsAll<T>(s: seq<T>, f: T -> bool)
    requires forall i :: 0 <= i < |s| ==> f(s[i])
    ensures Filter(s, f) == s
  {
    if |s| > 0 {
      FilterKeepsAll(s[1..], f);
      assert s == [s[0]] + s[1..];
    }
  }

  predicate NoDuplicates<T(==)>(s: seq<T>) {
    forall i, j :: 0 <= i < j < |s| ==> s[i] != s[j]
  }

  /** `Array.from(new Set(s))`: each value of `s` exactly once. */
  function Distinct<T(==)>(s: seq<T>): (r: seq<T>)
    ensures NoDuplicates(r)
    ensures forall i :: 0 <= i < |r| ==> r[i] in s
    ensures forall i :: 0 <= i < |s| ==> s[i] in r
  {
    if |s| == 0 then []
    else
      var d := Distinct(s[..|s| - 1]);
      var x := s[|s| - 1];
      assert forall i :: 0 <= i < |s| - 1 ==> s[i] == s[..|s| - 1][i];
      if x in d then d else d + [x]
  }

  /** `leq` is a total preorder: what a consistent sort comparator provides. */
  ghost predicate TotalPreorder<T(!new)>(leq: (T, T) -> bool) {
    && (forall a, b :: leq(a, b) || leq(b, a))
    && (forall a, b, c :: leq(a, b) && leq(b, c) ==> leq(a, c))
  }

  ghost predicate Sorted<T>(s: seq<T>, leq: (T, T) -> bool) {
    forall i, j :: 0 <= i < j < |s| ==> leq(s[i], s[j])
  }

  /** Inserts `x` before the first element it may precede. */
  function Insert<T(!new)>(x: T, s: seq<T>, leq: (T, T) -> bool): (r: seq<T>)
    requires TotalPreorder(leq) && Sorted(s, leq)
    ensures multiset(r) == multiset(s) + multiset{x}
    ensures Sorted(r, leq)
  {
    if |s| == 0 then [x]
    else if leq(x, s[0]) then [x] + s
    else
      var t := Insert(x, s[1..], leq);
      assert s == [s[0]] + s[1..];
      assert forall j :: 0 <= j < |t| ==> leq(s[0], t[j]) by {
        forall j | 0 <= j < |t| ensures leq(s[0], t[j]) {
          assert t[j] in multiset(t);
          if t[j] != x {
            assert t[j] in multiset(s[1..]);
            var k :| 0 <= k < |s[1..]| && s[1..][k] == t[j];
            assert s[k + 1] == t[j];
          }
        }
      }
      [s[0]] + t
  }

  /** `s.sort(cmp)` for a consistent comparator: a sorted permutation of `s`. */
  function SortBy<T(!new)>(s: seq<T>, leq: (T, T) -> bool): (r: seq<T>)
    requires TotalPreorder(leq)
    ensures multiset(r) == multiset(s)
    ensures Sorted(r, leq)
  {
    if |s| == 0 then []
    else
      assert s == [s[0]] + s[1..];
      Insert(s[0], SortBy(s[1..], leq), leq)
  }

  /** A permutation of a duplicate-free sequence is duplicate-free. */
  lemma PermutationKeepsNoDuplicates<T>(a: seq<T>, b: seq<T>)
    requires multiset(a) == multiset(b) && NoDuplicates(a)
    ensures NoDuplicates(b)
  {
    forall i, j | 0 <= i < j < |b| ensures b[i] != b[j] {
      if b[i] == b[j] {
        assert b == b[..j] + b[j..];
        assert b[i] in b[..j];
        assert multiset(b)[b[i]] >= 2;
        NoDuplicatesCount(a, b[i]);
        assert false;
      }
    }
  }

  lemma {:induction false} NoDuplicatesCount<T>(s: seq<T>, x: T)
    requires NoDuplicates(s)
    ensures multiset(s)[x] <= 1
  {
    if |s| > 0 {
      var init := s[..|s| - 1];
      assert s == init + [s[|s| - 1]];
      NoDuplicatesCount(init, x);
      if x == s[|s| - 1] {
        assert x !in init;
      }
    }
  }

  /** `s.reverse()` (on a copy). */
  function Reverse<T>(s: seq<T>): (r: seq<T>)
    ensures |r| == |s|
    ensures forall i :: 0 <= i < |s| ==> r[i] == s[|s| - 1 - i]
  {
    if |s| == 0 then [] else Reverse(s[1..]) + [s[0]]
  }

  /** Reversing twice gives back the sequence. */
  lemma ReverseInvolution<T>(s: seq<T>)
    ensures Reverse(Reverse(s)) == s
  {
  }
}
