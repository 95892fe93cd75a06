/**
 * The draw order of src/renderer.rs and src/renderers.rs: the drawables are
 * sorted by non-increasing z index, so that the farthest is painted first and
 * nearer ones cover it. `sort_by` is a stable sort, so drawables at the same
 * depth keep the order in which they were produced.
 */
module DrawOrder {
  import opened Seqs

  /** Non-increasing in `z`: the farthest first. */
  predicate SortedDesc<T>(s: seq<T>, z: T -> real) {
    forall i, j :: 0 <= i < j < |s| ==> z(s[j]) <= z(s[i])
  }

  /** Insert `x` into a sorted sequence after every element at least as far as `x`. */
  function InsertDesc<T>(s: seq<T>, x: T, z: T -> real): (r: seq<T>)
    ensures |r| == |s| + 1
    decreases |s|
  {
    if s == [] || z(x) <= z(s[|s| - 1]) then s + [x]
    else InsertDesc(s[..|s| - 1], x, z) + [s[|s| - 1]]
  }

  /** The reference sort: insertion of each element in turn, from the left. */
  function SortDesc<T>(s: seq<T>, z: T -> real): (r: seq<T>)
    ensures |r| == |s|
    decreases |s|
  {
    if s == [] then [] else InsertDesc(SortDesc(s[..|s| - 1], z), s[|s| - 1], z)
  }

  lemma {:induction false} InsertDescMultiset<T>(s: seq<T>, x: T, z: T -> real)
    ensures multiset(InsertDesc(s, x, z)) == multiset(s) + multiset{x}
    decreases |s|
  {
    if s != [] && z(s[|s| - 1]) < z(x) {
      var init, last := s[..|s| - 1], s[|s| - 1];
      InsertDescMultiset(init, x, z);
      assert s == init + [last];
    }
  }

  lemma {:induction false} InsertDescSorted<T>(s: seq<T>, x: T, z: T -> real)
    requires SortedDesc(s, z)
    ensures SortedDesc(InsertDesc(s, x, z), z)
    decreases |s|
  {
    if s != [] && z(s[|s| - 1]) < z(x) {
      var init, last := s[..|s| - 1], s[|s| - 1];
      InsertDescSorted(init, x, z);
      InsertDescMultiset(init, x, z);
      var r := InsertDesc(init, x, z);
      forall i | 0 <= i < |r|
        ensures z(last) <= z(r[i])
      {
        assert r[i] in multiset(init) + multiset{x};
        if r[i] in multiset(init) {
          var k :| 0 <= k < |init| && init[k] == r[i];
          assert s[k] == init[k];
        }
      }
    }
  }

  /** The sort orders by non-increasing z. */
  lemma {:induction false} SortDescSorted<T>(s: seq<T>, z: T -> real)
    ensures SortedDesc(SortDesc(s, z), z)
    decreases |s|
  {
    if s != [] {
      SortDescSorted(s[..|s| - 1], z);
      InsertDescSorted(SortDesc(s[..|s| - 1], z), s[|s| - 1], z);
    }
  }

  /** The sort is a permutation of its input. */
  lemma {:induction false} SortDescPermutation<T>(s: seq<T>, z: T -> real)
    ensures multiset(SortDesc(s, z)) == multiset(s)
    decreases |s|
  {
    if s != [] {
      SortDescPermutation(s[..|s| - 1], z);
      InsertDescMultiset(SortDesc(s[..|s| - 1], z), s[|s| - 1], z);
      assert s == s[..|s| - 1] + [s[|s| - 1]];
    }
  }

  /** The drawables at depth `depth`. */
  function AtDepth<T>(z: T -> real, depth: real): T -> bool {
    t => z(t) == depth
  }

  lemma {:induction false} InsertDescKeepsDepthOrder<T>(s: seq<T>, x: T, z: T -> real, depth: real)
    requires SortedDesc(s, z)
    ensures Filter(InsertDesc(s, x, z), AtDepth(z, depth)) == Filter(s, AtDepth(z, depth)) + Filter([x], AtDepth(z, depth))
    decreases |s|
  {
    var p := AtDepth(z, depth);
    if s == [] || z(x) <= z(s[|s| - 1]) {
      FilterAppend(s, [x], p);
    } else {
      var init, last := s[..|s| - 1], s[|s| - 1];
      InsertDescKeepsDepthOrder(init, x, z, depth);
      FilterAppend(InsertDesc(init, x, z), [last], p);
      FilterAppend(init, [last], p);
      assert s == init + [last];
      assert [x][1..] == [] && [last][1..] == [];
      assert Filter([x], p) == [] || Filter([last], p) == [];
    }
  }

  /**
   * Stability: for every depth, the drawables at that depth come out in the
   * order they went in.
   */
  lemma {:induction false} SortDescStable<T>(s: seq<T>, z: T -> real, depth: real)
    ensures Filter(SortDesc(s, z), AtDepth(z, depth)) == Filter(s, AtDepth(z, depth))
    decreases |s|
  {
    if s != [] {
      var init, last := s[..|s| - 1], s[|s| - 1];
      SortDescStable(init, z, depth);
      SortDescSorted(init, z);
      InsertDescKeepsDepthOrder(SortDesc(init, z), last, z, depth);
      FilterAppend(init, [last], AtDepth(z, depth));
      assert s == init + [last];
    }
  }

  /**
   * The shape of the array loop's insertion: in a sorted sequence, `x` goes
   * in at the position `j` after which every element is strictly nearer.
   */
  lemma {:induction false} InsertDescAt<T>(s: seq<T>, x: T, z: T -> real, j: nat)
    requires j <= |s|
    requires j == 0 || z(x) <= z(s[j - 1])
    requires forall k :: j <= k < |s| ==> z(s[k]) < z(x)
    ensures InsertDesc(s, x, z) == s[..j] + [x] + s[j..]
    decreases |s|
  {
    if j < |s| {
      var init := s[..|s| - 1];
      InsertDescAt(init, x, z, j);
      assert init[..j] == s[..j];
      assert init[j..] + [s[|s| - 1]] == s[j..];
    } else {
      assert s[..j] == s;
    }
  }

  /**
   * One step of the insertion sort: `a[i]` moves left past the strictly
   * nearer drawables of the sorted prefix `a[..i]`.
   */
  method InsertStep<T>(a: array<T>, i: nat, z: T -> real)
    requires i < a.Length
    requires SortedDesc(a[..i], z)
    modifies a
    ensures a[..i + 1] == InsertDesc(old(a[..i]), old(a[i]), z)
    ensures a[i + 1..] == old(a[i + 1..])
  {
    ghost var prefix := a[..i];
    var x := a[i];
    var j := i;
    while j > 0 && z(a[j - 1]) < z(x)
      invariant 0 <= j <= i
      invariant a[..j] == prefix[..j]
      invariant a[j] == x
      invariant a[j + 1..i + 1] == prefix[j..i]
      invariant a[i + 1..] == old(a[i + 1..])
      invariant forall k :: j <= k < i ==> z(prefix[k]) < z(x)
    {
      a[j - 1], a[j] := a[j], a[j - 1];
      j := j - 1;
    }
    InsertDescAt(prefix, x, z, j);
    assert a[..i + 1] == a[..j] + [a[j]] + a[j + 1..i + 1];
  }

  /**
   * The in-place sort of src/renderers.rs: an insertion sort, which like
   * `sort_by` is stable.
   */
  method SortInPlace<T>(a: array<T>, z: T -> real)
    modifies a
    ensures a[..] == SortDesc(old(a[..]), z)
  {
    ghost var input := a[..];
    var i := 0;
    while i < a.Length
      invariant 0 <= i <= a.Length
      invariant a[..i] == SortDesc(input[..i], z)
      invariant a[i..] == input[i..]
    {
      SortDescSorted(input[..i], z);
      InsertStep(a, i, z);
      assert input[..i + 1][..i] == input[..i];
      i := i + 1;
    }
    assert input[..a.Length] == input;
  }

  /**
   * `sort_drawables` of src/renderer.rs: the drawables copied into a new
   * vector, which is then sorted in place.
   */
  method SortDrawables<T>(toDraw: seq<T>, z: T -> real) returns (r: seq<T>)
    ensures r == SortDesc(toDraw, z)
  {
    var a := new T[|toDraw|](i requires 0 <= i < |toDraw| => toDraw[i]);
    assert a[..] == toDraw;
    SortInPlace(a, z);
    r := a[..];
  }
}
