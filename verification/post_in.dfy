/** Reconciling the looked-up event ids with the `post__in` list the query may
    already carry. */
module PostIn {
  import opened PhpValues

  /** `array_map( 'absint', $post__in )`. */
  function Absints(xs: seq<int>): (r: seq<nat>)
    ensures |r| == |xs|
    ensures forall i :: 0 <= i < |xs| ==> r[i] == Absint(xs[i])
  {
    seq(|xs|, i requires 0 <= i < |xs| => Absint(xs[i]))
  }

  /** `array_intersect( $xs, $ids )`, values only: the elements of `xs`, in
      their order and with their repetitions, that occur somewhere in `ids`. */
  function Intersect(xs: seq<nat>, ids: seq<nat>): (r: seq<nat>)
    ensures forall x :: x in r <==> x in xs && x in ids
    ensures |r| <= |xs|
    decreases |xs|
  {
    if |xs| == 0 then []
    else (if xs[0] in ids then [xs[0]] else []) + Intersect(xs[1..], ids)
  }

  /** `a` can be obtained from `b` by deleting elements. */
  ghost predicate Subsequence<T>(a: seq<T>, b: seq<T>)
    decreases |b|
  {
    |a| == 0
    || (|b| > 0 && (if a[0] == b[0] then Subsequence(a[1..], b[1..]) else Subsequence(a, b[1..])))
  }

  /** The intersection keeps the order of the first list. */
  lemma {:induction false} IntersectIsSubsequence(xs: seq<nat>, ids: seq<nat>)
    ensures Subsequence(Intersect(xs, ids), xs)
    decreases |xs|
  {
    if |xs| > 0 {
      var tail := Intersect(xs[1..], ids);
      IntersectIsSubsequence(xs[1..], ids);
      if xs[0] in ids {
        assert ([xs[0]] + tail)[1..] == tail;
      } else {
        assert Intersect(xs, ids) == tail;
        if |tail| > 0 {
          assert tail[0] in ids && tail[0] != xs[0];
        }
      }
    }
  }

  /** Every element of the first list that occurs in `ids` is kept as many
      times as it appears; every other element is dropped. */
  lemma {:induction false} IntersectCounts(xs: seq<nat>, ids: seq<nat>, x: nat)
    ensures multiset(Intersect(xs, ids))[x] == if x in ids then multiset(xs)[x] else 0
    decreases |xs|
  {
    if |xs| > 0 {
      IntersectCounts(xs[1..], ids, x);
      assert xs == [xs[0]] + xs[1..];
      assert multiset(xs) == multiset([xs[0]]) + multiset(xs[1..]);
    }
  }

  /** The `post__in` value the handler computes: the looked-up ids when the
      query has no inclusion list, otherwise the existing list (through
      `absint`) intersected with them. */
  function Reconcile(existing: seq<int>, ids: seq<nat>): (r: seq<nat>)
    ensures |existing| == 0 ==> r == ids
    ensures |existing| > 0 ==> forall x :: x in r <==> x in Absints(existing) && x in ids
    ensures forall x :: x in r ==> x in ids
  {
    if |existing| == 0 then ids else Intersect(Absints(existing), ids)
  }

  /** With an existing list the result is a subsequence of it, and each
      surviving id keeps its multiplicity: together these fix the result. */
  lemma ReconcileKeepsOrder(existing: seq<int>, ids: seq<nat>, x: nat)
    requires |existing| > 0
    ensures Subsequence(Reconcile(existing, ids), Absints(existing))
    ensures multiset(Reconcile(existing, ids))[x]
            == if x in ids then multiset(Absints(existing))[x] else 0
  {
    IntersectIsSubsequence(Absints(existing), ids);
    IntersectCounts(Absints(existing), ids, x);
  }

  /** Intersecting a list whose elements all occur in `ids` changes nothing. */
  lemma {:induction false} IntersectWithin(xs: seq<nat>, ids: seq<nat>)
    requires forall i :: 0 <= i < |xs| ==> xs[i] in ids
    ensures Intersect(xs, ids) == xs
    decreases |xs|
  {
    if |xs| > 0 {
      IntersectWithin(xs[1..], ids);
      assert xs == [xs[0]] + xs[1..];
    }
  }

  /** Reconciling a non-empty result again with the same ids is a no-op. */
  lemma ReconcileStable(existing: seq<int>, ids: seq<nat>)
    requires |Reconcile(existing, ids)| > 0
    ensures Reconcile(Reconcile(existing, ids), ids) == Reconcile(existing, ids)
  {
    var r := Reconcile(existing, ids);
    assert Absints(r) == r;
    IntersectWithin(r, ids);
  }
}
