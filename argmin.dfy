/**
 * Rust's `Iterator::min_by` over a key into the reals. On ties it keeps the
 * element that comes first, which the callers of the game rely on when two
 * candidates are equally good.
 */
module ArgMin {
  import opened Wrappers
  import opened Seqs

  /** The first element of `s` whose key is minimal, or None for the empty sequence. */
  function MinBy<T>(s: seq<T>, key: T -> real): (r: Option<T>)
    ensures r.None? <==> s == []
    ensures r.Some? ==> exists i :: 0 <= i < |s| && s[i] == r.value
    ensures r.Some? ==> forall j :: 0 <= j < |s| ==> key(r.value) <= key(s[j])
    decreases |s|
  {
    if s == [] then None
    else
      match MinBy(s[1..], key)
      case None => Some(s[0])
      case Some(m) =>
        assert forall j :: 1 <= j < |s| ==> s[j] == s[1..][j - 1];
        if key(m) < key(s[0]) then Some(m)
        else Some(s[0])
  }

  /** The index of the element MinBy picks: every earlier element has a strictly larger key. */
  function MinIndex<T>(s: seq<T>, key: T -> real): (i: nat)
    requires s != []
    ensures i < |s|
    ensures forall j :: 0 <= j < |s| ==> key(s[i]) <= key(s[j])
    ensures forall j :: 0 <= j < i ==> key(s[i]) < key(s[j])
    decreases |s|
  {
    if |s| == 1 then 0
    else
      var k := MinIndex(s[1..], key);
      assert forall j :: 1 <= j < |s| ==> s[j] == s[1..][j - 1];
      if key(s[1..][k]) < key(s[0]) then k + 1 else 0
  }

  /** MinBy picks the element at MinIndex, that is the first of the minimal elements. */
  lemma {:induction false} MinByIsFirstMinimum<T>(s: seq<T>, key: T -> real)
    requires s != []
    ensures MinBy(s, key) == Some(s[MinIndex(s, key)])
    decreases |s|
  {
    if |s| > 1 {
      MinByIsFirstMinimum(s[1..], key);
    }
  }

  /** A minimal element that comes before every other minimal element is the one picked. */
  lemma FirstMinimumPicked<T>(s: seq<T>, key: T -> real, i: nat)
    requires i < |s|
    requires forall j :: 0 <= j < |s| ==> key(s[i]) <= key(s[j])
    requires forall j :: 0 <= j < i ==> key(s[i]) < key(s[j])
    ensures MinBy(s, key) == Some(s[i])
  {
    MinByIsFirstMinimum(s, key);
  }
  /**
   * Index `i` of `s` holds the first element satisfying `p` whose key is
   * minimal among the elements satisfying `p`.
   */
  ghost predicate IsFirstMinimalWhere<T>(s: seq<T>, p: T -> bool, key: T -> real, i: int) {
    && 0 <= i < |s|
    && p(s[i])
    && (forall j :: 0 <= j < |s| && p(s[j]) ==> key(s[i]) <= key(s[j]))
    && (forall j :: 0 <= j < i && p(s[j]) ==> key(s[i]) < key(s[j]))
  }

  /** The first minimal element of the tail stays first when the head does not compete. */
  lemma FirstMinimalShift<T>(s: seq<T>, p: T -> bool, key: T -> real, k: int)
    requires s != [] && IsFirstMinimalWhere(s[1..], p, key, k)
    requires !p(s[0]) || key(s[1..][k]) < key(s[0])
    ensures IsFirstMinimalWhere(s, p, key, k + 1)
  {
    assert forall j :: 1 <= j < |s| ==> s[j] == s[1..][j - 1];
  }

  /** A head that satisfies `p` and is no larger than any qualifying tail element is first. */
  lemma FirstMinimalHead<T>(s: seq<T>, p: T -> bool, key: T -> real)
    requires s != [] && p(s[0])
    requires forall j :: 0 <= j < |s[1..]| && p(s[1..][j]) ==> key(s[0]) <= key(s[1..][j])
    ensures IsFirstMinimalWhere(s, p, key, 0)
  {
    assert forall j :: 1 <= j < |s| ==> s[j] == s[1..][j - 1];
  }

  lemma {:induction false} MinByOfFilterNone<T>(s: seq<T>, p: T -> bool, key: T -> real)
    requires forall j :: 0 <= j < |s| ==> !p(s[j])
    ensures MinBy(Filter(s, p), key) == None
  {
    FilterNone(s, p);
  }

  /** `filter(p).min_by(key)`: when some element satisfies `p`, the first minimal one that does. */
  lemma {:induction false} MinByOfFilterSome<T>(s: seq<T>, p: T -> bool, key: T -> real)
    requires exists j :: 0 <= j < |s| && p(s[j])
    ensures exists i :: IsFirstMinimalWhere(s, p, key, i) && MinBy(Filter(s, p), key) == Some(s[i])
    decreases |s|
  {
    var t := s[1..];
    var f := Filter(t, p);
    if p(s[0]) {
      assert Filter(s, p) == [s[0]] + f;
      assert ([s[0]] + f)[1..] == f;
      if forall j :: 0 <= j < |t| ==> !p(t[j]) {
        MinByOfFilterNone(t, p, key);
        FirstMinimalHead(s, p, key);
      } else {
        MinByOfFilterSome(t, p, key);
        var k :| IsFirstMinimalWhere(t, p, key, k) && MinBy(f, key) == Some(t[k]);
        if key(t[k]) < key(s[0]) {
          FirstMinimalShift(s, p, key, k);
        } else {
          FirstMinimalHead(s, p, key);
        }
      }
    } else {
      assert Filter(s, p) == f;
      assert exists j :: 0 <= j < |t| && p(t[j]) by {
        var j :| 0 <= j < |s| && p(s[j]);
        assert j > 0 && t[j - 1] == s[j];
      }
      MinByOfFilterSome(t, p, key);
      var k :| IsFirstMinimalWhere(t, p, key, k) && MinBy(f, key) == Some(t[k]);
      FirstMinimalShift(s, p, key, k);
    }
  }

  /** `filter(p).min_by(key)`: nothing when no element satisfies `p`, else the first minimal one that does. */
  lemma MinByOfFilter<T>(s: seq<T>, p: T -> bool, key: T -> real)
    ensures (forall j :: 0 <= j < |s| ==> !p(s[j])) ==> MinBy(Filter(s, p), key) == None
    ensures (exists j :: 0 <= j < |s| && p(s[j]))
            ==> exists i :: IsFirstMinimalWhere(s, p, key, i) && MinBy(Filter(s, p), key) == Some(s[i])
  {
    if exists j :: 0 <= j < |s| && p(s[j]) {
      MinByOfFilterSome(s, p, key);
    } else {
      MinByOfFilterNone(s, p, key);
    }
  }
}
