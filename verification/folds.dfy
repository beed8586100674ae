/** Folding a sorted sequence, when elements that tie may be taken in either order. */
module Folds {
  import opened Sorting

  function FoldBy<T>(s: seq<T>, step: (T, real) -> real, start: real): real {
    if s == [] then start else step(s[|s| - 1], FoldBy(s[..|s| - 1], step, start))
  }

  ghost predicate Swappable<T(!new)>(step: (T, real) -> real, a: T, b: T) {
    forall x :: step(a, step(b, x)) == step(b, step(a, x))
  }

  ghost predicate TiesSwap<T(!new)>(s: seq<T>, le: (T, T) -> bool, step: (T, real) -> real) {
    forall a, b :: a in s && b in s && le(a, b) && le(b, a) ==> Swappable(step, a, b)
  }

  function Without<T>(s: seq<T>, i: nat): seq<T>
    requires i < |s|
  {
    s[..i] + s[i + 1..]
  }

  lemma FoldSnoc<T>(s: seq<T>, last: T, step: (T, real) -> real, start: real)
    ensures FoldBy(s + [last], step, start) == step(last, FoldBy(s, step, start))
  {
    assert (s + [last])[..|s|] == s;
  }

  lemma WithoutElements<T>(s: seq<T>, i: nat)
    requires i < |s|
    ensures multiset(Without(s, i)) == multiset(s) - multiset{s[i]}
  {
    assert s == s[..i] + ([s[i]] + s[i + 1..]);
  }

  /** An element may be postponed past later ones it swaps with. */
  lemma {:induction false} Postpone<T(!new)>(s: seq<T>, i: nat, step: (T, real) -> real, start: real)
    requires i < |s|
    requires forall k :: i < k < |s| ==> Swappable(step, s[i], s[k])
    ensures FoldBy(s, step, start) == FoldBy(Without(s, i) + [s[i]], step, start)
    decreases |s|
  {
    var x, n := s[i], |s| - 1;
    if i == n {
      assert Without(s, i) + [x] == s;
    } else {
      var init, last := s[..n], s[n];
      var rest := Without(init, i);
      Postpone(init, i, step, start);
      assert Swappable(step, x, last);
      FoldSnoc(rest, x, step, start);
      FoldSnoc(rest, last, step, start);
      FoldSnoc(rest + [last], x, step, start);
      assert Without(s, i) == rest + [last];
    }
  }

  lemma LastOf<T(!new)>(s: seq<T>, t: seq<T>, le: (T, T) -> bool) returns (i: nat)
    requires multiset(s) == multiset(t) && t != []
    requires TotalPreorder(le) && Sorted(s, le) && Sorted(t, le)
    ensures i < |s| && s[i] == t[|t| - 1]
    ensures forall k :: i < k < |s| ==> le(s[k], s[i]) && le(s[i], s[k])
  {
    SameElements(s, t);
    var x := t[|t| - 1];
    assert x in s;
    i :| 0 <= i < |s| && s[i] == x;
    forall k | i < k < |s|
      ensures le(s[k], s[i])
    {
      assert s[k] in t;
      var j :| 0 <= j < |t| && t[j] == s[k];
      assert le(t[j], t[|t| - 1]);
    }
  }

  lemma WithoutKeepsOrder<T(!new)>(s: seq<T>, i: nat, le: (T, T) -> bool)
    requires i < |s| && Sorted(s, le)
    ensures Sorted(Without(s, i), le)
  {
  }

  lemma WithoutKeepsTies<T(!new)>(s: seq<T>, i: nat, le: (T, T) -> bool, step: (T, real) -> real)
    requires i < |s| && TiesSwap(s, le, step)
    ensures TiesSwap(Without(s, i), le, step)
  {
    assert forall x :: x in Without(s, i) ==> x in s;
  }

  /** The fold of a sorted sequence is determined by its elements as soon as ties swap. */
  lemma {:induction false} SameFold<T(!new)>(s: seq<T>, t: seq<T>, le: (T, T) -> bool,
                                             step: (T, real) -> real, start: real)
    requires multiset(s) == multiset(t) && TotalPreorder(le) && TiesSwap(s, le, step)
    requires Sorted(s, le) && Sorted(t, le)
    ensures FoldBy(s, step, start) == FoldBy(t, step, start)
    decreases |t|
  {
    assert |multiset(s)| == |s| && |multiset(t)| == |t|;
    if t != [] {
      var n := |t| - 1;
      var i := LastOf(s, t, le);
      assert forall k :: i < k < |s| ==> Swappable(step, s[i], s[k]);
      Postpone(s, i, step, start);
      WithoutKeepsOrder(s, i, le);
      WithoutKeepsTies(s, i, le, step);
      WithoutElements(s, i);
      WithoutElements(t, n);
      assert Without(t, n) == t[..n];
      FoldSnoc(Without(s, i), s[i], step, start);
      SameFold(Without(s, i), t[..n], le, step, start);
    }
  }
}
