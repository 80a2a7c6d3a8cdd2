/**
 * The transformations a generic list offers, as functions over the sequence
 * of its elements, together with the properties that give them meaning.
 */
module ListOps {
  import opened Wrappers
  import opened Elements

  // ---------------------------------------------------------------------
  // Selection (filter and search)
  // ---------------------------------------------------------------------

  /**
   * The elements `e` of `s` at index `i` for which `p(e, i)` holds, in index
   * order. Indices passed to `p` are those of `s`; the result is re-indexed
   * from zero.
   */
  function Select(s: seq<Elem>, p: (Elem, nat) -> bool): (r: seq<Elem>)
    ensures |r| <= |s|
    ensures forall e :: e in r ==> e in s
    decreases |s|
  {
    if s == [] then []
    else
      var last := |s| - 1;
      var front := Select(s[..last], p);
      assert forall e :: e in front ==> e in s by {
        forall e | e in front ensures e in s {
          var k :| 0 <= k < last && s[..last][k] == e;
          assert s[k] == e;
        }
      }
      if p(s[last], last) then front + [s[last]] else front
  }

  predicate StrictlyIncreasing(idx: seq<nat>)
  {
    forall j, k :: 0 <= j < k < |idx| ==> idx[j] < idx[k]
  }

  /**
   * Select keeps exactly the matching positions, in their original order:
   * the result is `s` read at a strictly increasing sequence of indices, and
   * an index occurs there if and only if its element matches.
   */
  lemma {:induction false} SelectIndices(s: seq<Elem>, p: (Elem, nat) -> bool) returns (idx: seq<nat>)
    ensures |idx| == |Select(s, p)|
    ensures StrictlyIncreasing(idx)
    ensures forall j :: 0 <= j < |idx| ==> idx[j] < |s| && Select(s, p)[j] == s[idx[j]]
    ensures forall i :: 0 <= i < |s| ==> (p(s[i], i) <==> i in idx)
    decreases |s|
  {
    if s == [] {
      idx := [];
    } else {
      var last := |s| - 1;
      var front := SelectIndices(s[..last], p);
      assert forall i :: 0 <= i < last ==> s[..last][i] == s[i];
      if p(s[last], last) {
        idx := front + [last];
      } else {
        idx := front;
        assert last !in idx;
      }
    }
  }

  /** Select yields nothing exactly when no element matches. */
  lemma SelectEmptyIff(s: seq<Elem>, p: (Elem, nat) -> bool)
    ensures Select(s, p) == [] <==> forall i :: 0 <= i < |s| ==> !p(s[i], i)
  {
    var idx := SelectIndices(s, p);
    if Select(s, p) != [] {
      assert p(s[idx[0]], idx[0]);
    }
  }

  /** Extending the input by one element extends the selection by that element if it matches. */
  lemma SelectExtend(s: seq<Elem>, p: (Elem, nat) -> bool, n: nat)
    requires n < |s|
    ensures Select(s[..n + 1], p) == Select(s[..n], p) + (if p(s[n], n) then [s[n]] else [])
  {
    assert s[..n + 1][..n] == s[..n];
  }

  /** Selecting from elements that all have type `t` gives elements of type `t`. */
  lemma SelectConforms(s: seq<Elem>, p: (Elem, nat) -> bool, t: TypeTag)
    requires Conforms(s, t)
    ensures Conforms(Select(s, p), t)
  {
  }

  /** Turns a test on elements into a test on (element, index) pairs that ignores the index. */
  function Unindexed(q: Elem -> bool): (p: (Elem, nat) -> bool)
    ensures forall e, i :: p(e, i) == q(e)
  {
    (e: Elem, i: nat) => q(e)
  }

  /** Every element Select keeps matches at some index where it occurs in `s`. */
  lemma SelectMatching(s: seq<Elem>, p: (Elem, nat) -> bool)
    ensures forall e :: e in Select(s, p) ==> exists i :: 0 <= i < |s| && s[i] == e && p(e, i)
  {
    var r := Select(s, p);
    var idx := SelectIndices(s, p);
    forall e | e in r ensures exists i :: 0 <= i < |s| && s[i] == e && p(e, i) {
      var j :| 0 <= j < |r| && r[j] == e;
      assert s[idx[j]] == e && p(e, idx[j]);
    }
  }

  /**
   * The elements of `s` that satisfy `q`, in their original order (the order
   * is that of Select, characterised by SelectIndices).
   */
  function Search(s: seq<Elem>, q: Elem -> bool): (r: seq<Elem>)
    ensures forall e :: e in r ==> e in s && q(e)
    ensures r == [] <==> forall e :: e in s ==> !q(e)
  {
    SelectMatching(s, Unindexed(q));
    SelectEmptyIff(s, Unindexed(q));
    Select(s, Unindexed(q))
  }

  /** Extending the input by one element extends the search result by it if it matches. */
  lemma SearchExtend(s: seq<Elem>, q: Elem -> bool, n: nat)
    requires n < |s|
    ensures Search(s[..n + 1], q) == Search(s[..n], q) + (if q(s[n]) then [s[n]] else [])
  {
    SelectExtend(s, Unindexed(q), n);
  }

  /** Search misses no match: every matching element of `s` is in the result. */
  lemma SearchMembers(s: seq<Elem>, q: Elem -> bool)
    ensures forall e :: e in s && q(e) ==> e in Search(s, q)
  {
    var r := Search(s, q);
    var idx := SelectIndices(s, Unindexed(q));
    forall e | e in s && q(e) ensures e in r {
      var i :| 0 <= i < |s| && s[i] == e;
      assert Unindexed(q)(s[i], i);
      var j :| 0 <= j < |idx| && idx[j] == i;
      assert r[j] == e;
    }
  }

  // ---------------------------------------------------------------------
  // Find
  // ---------------------------------------------------------------------

  /** The index of the first element of `s` that satisfies `q`, if any. */
  function FindIndex(s: seq<Elem>, q: Elem -> bool): (r: Option<nat>)
    ensures r.Some? ==> r.value < |s| && q(s[r.value])
    ensures r.Some? ==> forall j :: 0 <= j < r.value ==> !q(s[j])
    ensures r.None? <==> forall j :: 0 <= j < |s| ==> !q(s[j])
    decreases |s|
  {
    if s == [] then None
    else if q(s[0]) then Some(0)
    else
      match FindIndex(s[1..], q)
      case None => None
      case Some(k) => Some(k + 1)
  }

  /** Find and search agree: the first element found is the head of the search result. */
  lemma FindIsFirstOfSearch(s: seq<Elem>, q: Elem -> bool)
    ensures FindIndex(s, q).None? <==> Search(s, q) == []
    ensures FindIndex(s, q).Some? ==> Search(s, q) != [] && Search(s, q)[0] == s[FindIndex(s, q).value]
  {
    var idx := SelectIndices(s, Unindexed(q));
    match FindIndex(s, q)
    case None =>
      SelectEmptyIff(s, Unindexed(q));
    case Some(k) =>
      assert Unindexed(q)(s[k], k);
      assert k in idx;
      var first := idx[0];
      assert Unindexed(q)(s[first], first);
      assert first <= k by {
        var j :| 0 <= j < |idx| && idx[j] == k;
        assert j == 0 || idx[0] < idx[j];
      }
      assert !(first < k);
  }

  // ---------------------------------------------------------------------
  // Map
  // ---------------------------------------------------------------------

  /** `f` applied to every element of `s`, index by index. */
  function Apply(s: seq<Elem>, f: Elem -> Elem): (r: seq<Elem>)
    ensures |r| == |s|
    ensures forall i :: 0 <= i < |s| ==> r[i] == f(s[i])
    decreases |s|
  {
    if s == [] then [] else [f(s[0])] + Apply(s[1..], f)
  }

  /** Mapping the identity gives the list back. */
  lemma ApplyIdentity(s: seq<Elem>)
    ensures Apply(s, (e: Elem) => e) == s
  {
  }

  // ---------------------------------------------------------------------
  // Reverse
  // ---------------------------------------------------------------------

  /** The elements of `s` in reverse order. */
  function Reversed(s: seq<Elem>): (r: seq<Elem>)
    ensures |r| == |s|
    ensures forall k :: 0 <= k < |s| ==> r[k] == s[|s| - 1 - k]
    decreases |s|
  {
    if s == [] then [] else Reversed(s[1..]) + [s[0]]
  }

  /** Reversing twice restores the original order. */
  lemma ReversedTwice(s: seq<Elem>)
    ensures Reversed(Reversed(s)) == s
  {
  }

  /** Reversing keeps the elements: no element is added or lost. */
  lemma {:induction false} ReversedPermutes(s: seq<Elem>)
    ensures multiset(Reversed(s)) == multiset(s)
    decreases |s|
  {
    if s != [] {
      ReversedPermutes(s[1..]);
      assert s == [s[0]] + s[1..];
    }
  }

  // ---------------------------------------------------------------------
  // Sort
  // ---------------------------------------------------------------------

  /**
   * A three-way comparator (`cmp(a, b)` negative, zero or positive) read as
   * "a goes no later than b" when `cmp(a, b) <= 0` is a total preorder.
   */
  ghost predicate TotalPreorder(cmp: (Elem, Elem) -> int)
  {
    && (forall a, b :: cmp(a, b) <= 0 || cmp(b, a) <= 0)
    && (forall a, b, c :: cmp(a, b) <= 0 && cmp(b, c) <= 0 ==> cmp(a, c) <= 0)
  }

  /** No element of `s` is ordered after a later one. */
  predicate Sorted(s: seq<Elem>, cmp: (Elem, Elem) -> int)
  {
    forall i, j :: 0 <= i < j < |s| ==> cmp(s[i], s[j]) <= 0
  }

  /** `x` placed in `s` before the first element it does not compare after. */
  function Insert(x: Elem, s: seq<Elem>, cmp: (Elem, Elem) -> int): (r: seq<Elem>)
    ensures multiset(r) == multiset(s) + multiset{x}
    decreases |s|
  {
    if s == [] then [x]
    else if cmp(x, s[0]) <= 0 then [x] + s
    else
      assert s == [s[0]] + s[1..];
      [s[0]] + Insert(x, s[1..], cmp)
  }

  /** The elements of `s` rearranged by insertion under `cmp`. */
  function SortBy(s: seq<Elem>, cmp: (Elem, Elem) -> int): (r: seq<Elem>)
    ensures multiset(r) == multiset(s)
    decreases |s|
  {
    if s == [] then []
    else
      assert s == [s[0]] + s[1..];
      Insert(s[0], SortBy(s[1..], cmp), cmp)
  }

  lemma SortedCons(a: Elem, t: seq<Elem>, cmp: (Elem, Elem) -> int)
    requires Sorted(t, cmp)
    requires forall y :: y in t ==> cmp(a, y) <= 0
    ensures Sorted([a] + t, cmp)
  {
    var s := [a] + t;
    forall i, j | 0 <= i < j < |s| ensures cmp(s[i], s[j]) <= 0 {
      if i == 0 {
        assert s[j] == t[j - 1] && s[j] in t;
      } else {
        assert s[i] == t[i - 1] && s[j] == t[j - 1];
      }
    }
  }

  /** A tail of a sorted sequence is sorted. */
  lemma SortedTail(s: seq<Elem>, cmp: (Elem, Elem) -> int)
    requires Sorted(s, cmp) && s != []
    ensures Sorted(s[1..], cmp)
  {
    var tail := s[1..];
    forall i, j | 0 <= i < j < |tail| ensures cmp(tail[i], tail[j]) <= 0 {
      assert tail[i] == s[i + 1] && tail[j] == s[j + 1];
    }
  }

  /** An element no later than the head of a sorted sequence is no later than any of it. */
  lemma BeforeHead(x: Elem, s: seq<Elem>, cmp: (Elem, Elem) -> int)
    requires TotalPreorder(cmp)
    requires Sorted(s, cmp) && s != [] && cmp(x, s[0]) <= 0
    ensures forall y :: y in s ==> cmp(x, y) <= 0
  {
    forall y | y in s ensures cmp(x, y) <= 0 {
      var k :| 0 <= k < |s| && s[k] == y;
      if k > 0 {
        assert cmp(s[0], s[k]) <= 0;
      }
    }
  }

  /** The head of a sorted sequence is no later than anything inserted behind it. */
  lemma HeadBeforeInserted(x: Elem, s: seq<Elem>, cmp: (Elem, Elem) -> int)
    requires TotalPreorder(cmp)
    requires Sorted(s, cmp) && s != [] && cmp(x, s[0]) > 0
    ensures forall y :: y in Insert(x, s[1..], cmp) ==> cmp(s[0], y) <= 0
  {
    var tail := s[1..];
    var r := Insert(x, tail, cmp);
    assert cmp(s[0], x) <= 0;
    forall y | y in r ensures cmp(s[0], y) <= 0 {
      assert y in multiset(r);
      if y != x {
        assert y in multiset(tail);
        var k :| 0 <= k < |tail| && tail[k] == y;
        assert s[k + 1] == y;
      }
    }
  }

  /** Inserting into a sorted sequence keeps it sorted. */
  lemma {:induction false} InsertSorted(x: Elem, s: seq<Elem>, cmp: (Elem, Elem) -> int)
    requires TotalPreorder(cmp)
    requires Sorted(s, cmp)
    ensures Sorted(Insert(x, s, cmp), cmp)
    decreases |s|
  {
    if s == [] {
    } else if cmp(x, s[0]) <= 0 {
      BeforeHead(x, s, cmp);
      SortedCons(x, s, cmp);
    } else {
      SortedTail(s, cmp);
      InsertSorted(x, s[1..], cmp);
      HeadBeforeInserted(x, s, cmp);
      SortedCons(s[0], Insert(x, s[1..], cmp), cmp);
    }
  }

  /** Under a total preorder, SortBy yields a sorted rearrangement of its input. */
  lemma {:induction false} SortBySorted(s: seq<Elem>, cmp: (Elem, Elem) -> int)
    requires TotalPreorder(cmp)
    ensures Sorted(SortBy(s, cmp), cmp)
    decreases |s|
  {
    if s != [] {
      SortBySorted(s[1..], cmp);
      InsertSorted(s[0], SortBy(s[1..], cmp), cmp);
    }
  }

  /** The first element of a sorted non-empty sequence is a least one. */
  lemma SortedHeadIsLeast(s: seq<Elem>, cmp: (Elem, Elem) -> int)
    requires TotalPreorder(cmp)
    requires Sorted(s, cmp) && s != []
    ensures forall e :: e in s ==> cmp(s[0], e) <= 0
  {
    forall e | e in s ensures cmp(s[0], e) <= 0 {
      var k :| 0 <= k < |s| && s[k] == e;
      if k == 0 {
        assert cmp(e, e) <= 0;
      }
    }
  }
}
