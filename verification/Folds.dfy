/** Folds whose steps commute do not see the order of their input. */
module Folds {
  import opened Common

  function Fold<S, T>(step: (S, T) -> S, s: S, xs: seq<T>): S {
    if xs == [] then s else step(Fold(step, s, Init(xs)), Last(xs))
  }

  /** Any two elements of xs can be taken in either order, from any state. */
  ghost predicate Commutes<S(!new), T(!new)>(step: (S, T) -> S, xs: seq<T>) {
    forall s: S, x: T, y: T :: x in xs && y in xs ==> step(step(s, x), y) == step(step(s, y), x)
  }

  function Without<T>(xs: seq<T>, i: nat): seq<T>
    requires i < |xs|
  {
    xs[..i] + xs[i + 1..]
  }

  lemma {:induction false} FoldOfAppend<S, T>(step: (S, T) -> S, s: S, xs: seq<T>, x: T)
    ensures Fold(step, s, xs + [x]) == step(Fold(step, s, xs), x)
  {
    InitOfAppend(xs, x);
  }

  lemma {:induction false} MoveToEnd<S(!new), T(!new)>(step: (S, T) -> S, s: S, xs: seq<T>, i: nat)
    requires Commutes(step, xs) && i < |xs|
    ensures Fold(step, s, xs) == Fold(step, s, Without(xs, i) + [xs[i]])
  {
    var init, x := Init(xs), xs[i];
    assert xs == init + [Last(xs)];
    if i < |init| {
      var last := Last(xs);
      MoveToEnd(step, s, init, i);
      assert Without(xs, i) == Without(init, i) + [last];
      FoldOfAppend(step, s, Without(init, i), x);
      FoldOfAppend(step, s, Without(init, i), last);
      FoldOfAppend(step, s, Without(xs, i), x);
      assert x in xs && last in xs;
    } else {
      assert Without(xs, i) == init;
      FoldOfAppend(step, s, init, x);
    }
  }

  lemma {:induction false} WithoutContents<T>(xs: seq<T>, i: nat)
    requires i < |xs|
    ensures multiset(Without(xs, i)) == multiset(xs) - multiset{xs[i]}
    ensures forall x :: x in Without(xs, i) ==> x in xs
  {
    assert xs == xs[..i] + ([xs[i]] + xs[i + 1..]);
  }

  lemma {:induction false} SameMembers<T>(a: seq<T>, b: seq<T>)
    requires multiset(a) == multiset(b)
    ensures |a| == |b| && forall x :: x in a <==> x in b
  {
    assert |multiset(a)| == |a| && |multiset(b)| == |b|;
    forall x ensures x in a <==> x in b {
      assert x in multiset(a) <==> x in multiset(b);
    }
  }

  /** A permutation can be brought to end with the same element without changing its fold. */
  lemma {:induction false} BringToEnd<S(!new), T(!new)>(step: (S, T) -> S, s: S, b: seq<T>, x: T) returns (rest: seq<T>)
    requires Commutes(step, b) && x in b
    ensures multiset(rest) == multiset(b) - multiset{x} && |rest| == |b| - 1
    ensures Fold(step, s, b) == step(Fold(step, s, rest), x)
  {
    var i :| 0 <= i < |b| && b[i] == x;
    rest := Without(b, i);
    WithoutContents(b, i);
    MoveToEnd(step, s, b, i);
    FoldOfAppend(step, s, rest, x);
  }

  lemma {:induction false} CommutesWithin<S(!new), T(!new)>(step: (S, T) -> S, a: seq<T>, b: seq<T>)
    requires Commutes(step, a) && forall x :: x in b ==> x in a
    ensures Commutes(step, b)
  {
  }

  /** A fold of commuting steps depends on the multiset of its elements only. */
  lemma {:induction false} FoldOfPermutation<S(!new), T(!new)>(step: (S, T) -> S, s: S, a: seq<T>, b: seq<T>)
    requires Commutes(step, a) && multiset(a) == multiset(b)
    ensures Fold(step, s, a) == Fold(step, s, b)
    decreases |a|
  {
    hide Commutes;
    SameMembers(a, b);
    if a != [] {
      var init, x := Init(a), Last(a);
      assert a == init + [x];
      LastIsMember(a);
      CommutesWithin(step, a, b);
      CommutesWithin(step, a, init);
      var rest := BringToEnd(step, s, b, x);
      assert multiset(init) == multiset(a) - multiset{x};
      FoldOfPermutation(step, s, init, rest);
    }
  }
}
