/** How many threads of a machine are at a given kind of program point. */
module Counting {

  function Count<A>(xs: seq<A>, f: A -> bool): nat {
    if xs == [] then 0 else (if f(xs[0]) then 1 else 0) + Count(xs[1..], f)
  }

  function One(b: bool): nat {
    if b then 1 else 0
  }

  lemma {:induction false} CountUpdate<A>(xs: seq<A>, i: nat, x: A, f: A -> bool)
    requires i < |xs|
    ensures Count(xs[i := x], f) + One(f(xs[i])) == Count(xs, f) + One(f(x))
  {
    if i == 0 {
      assert xs[i := x][1..] == xs[1..];
    } else {
      CountUpdate(xs[1..], i - 1, x, f);
      assert xs[i := x][1..] == xs[1..][i - 1 := x];
    }
  }

  lemma {:induction false} CountZero<A>(xs: seq<A>, f: A -> bool)
    ensures Count(xs, f) == 0 <==> forall i :: 0 <= i < |xs| ==> !f(xs[i])
  {
    if xs != [] {
      CountZero(xs[1..], f);
      assert forall i :: 1 <= i < |xs| ==> xs[i] == xs[1..][i - 1];
      assert forall i :: 0 <= i < |xs[1..]| ==> xs[1..][i] == xs[i + 1];
    }
  }

  lemma {:induction false} CountSame<A>(xs: seq<A>, ys: seq<A>, f: A -> bool)
    requires |xs| == |ys| && forall i :: 0 <= i < |xs| ==> f(xs[i]) == f(ys[i])
    ensures Count(xs, f) == Count(ys, f)
  {
    if xs != [] {
      CountSame(xs[1..], ys[1..], f);
    }
  }

  lemma {:induction false} CountAppend<A>(xs: seq<A>, x: A, f: A -> bool)
    ensures Count(xs + [x], f) == Count(xs, f) + One(f(x))
  {
    if xs == [] {
      assert xs + [x] == [x];
    } else {
      CountAppend(xs[1..], x, f);
      assert (xs + [x])[1..] == xs[1..] + [x];
    }
  }
}
