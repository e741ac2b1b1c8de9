// Sums of a weight over a table of threads: the counting argument behind every
// token-accounting invariant of the project.
module Sums {

  function Sum<T>(ts: seq<T>, w: T -> int): int {
    if ts == [] then 0 else w(ts[0]) + Sum(ts[1..], w)
  }

  // Replacing one entry changes the sum by the difference of its weights.
  lemma {:induction false} Update<T>(ts: seq<T>, i: nat, t: T, w: T -> int)
    requires i < |ts|
    ensures Sum(ts[i := t], w) == Sum(ts, w) - w(ts[i]) + w(t)
  {
    if i == 0 {
      assert ts[i := t][1..] == ts[1..];
    } else {
      assert ts[i := t][1..] == ts[1..][i - 1 := t];
      Update(ts[1..], i - 1, t, w);
    }
  }

  lemma {:induction false} NonNegative<T>(ts: seq<T>, w: T -> int)
    requires forall t :: t in ts ==> w(t) >= 0
    ensures Sum(ts, w) >= 0
  {
    if ts != [] {
      NonNegative(ts[1..], w);
    }
  }

  lemma {:induction false} AtLeast<T>(ts: seq<T>, i: nat, w: T -> int)
    requires i < |ts| && forall t :: t in ts ==> w(t) >= 0
    ensures Sum(ts, w) >= w(ts[i])
  {
    if i == 0 {
      NonNegative(ts[1..], w);
    } else {
      AtLeast(ts[1..], i - 1, w);
    }
  }

  lemma {:induction false} AtLeastTwo<T>(ts: seq<T>, i: nat, j: nat, w: T -> int)
    requires i < j < |ts| && forall t :: t in ts ==> w(t) >= 0
    ensures Sum(ts, w) >= w(ts[i]) + w(ts[j])
  {
    if i == 0 {
      AtLeast(ts[1..], j - 1, w);
    } else {
      AtLeastTwo(ts[1..], i - 1, j - 1, w);
    }
  }

  lemma {:induction false} AllZero<T>(ts: seq<T>, w: T -> int)
    requires forall t :: t in ts ==> w(t) == 0
    ensures Sum(ts, w) == 0
  {
    if ts != [] {
      AllZero(ts[1..], w);
    }
  }

  lemma {:induction false} OnlyOne<T>(ts: seq<T>, i: nat, w: T -> int)
    requires i < |ts| && forall j: nat :: j < |ts| && j != i ==> w(ts[j]) == 0
    ensures Sum(ts, w) == w(ts[i])
  {
    if i == 0 {
      AllZero(ts[1..], w);
    } else {
      OnlyOne(ts[1..], i - 1, w);
    }
  }

  lemma {:induction false} SameSum<T, U>(ts: seq<T>, us: seq<U>, w: T -> int, x: U -> int)
    requires |ts| == |us| && forall i: nat :: i < |ts| ==> w(ts[i]) == x(us[i])
    ensures Sum(ts, w) == Sum(us, x)
  {
    if ts != [] {
      SameSum(ts[1..], us[1..], w, x);
    }
  }

  // What the threads of a table hold, in the order of the table.
  function Gather<T, U>(ts: seq<T>, f: T -> seq<U>): seq<U> {
    if ts == [] then [] else f(ts[0]) + Gather(ts[1..], f)
  }

  lemma {:induction false} SameGather<T, U, V>(ts: seq<T>, us: seq<U>, f: T -> seq<V>, g: U -> seq<V>)
    requires |ts| == |us| && forall i: nat :: i < |ts| ==> f(ts[i]) == g(us[i])
    ensures Gather(ts, f) == Gather(us, g)
  {
    if ts != [] {
      SameGather(ts[1..], us[1..], f, g);
    }
  }

  lemma {:induction false} GatherConcat<T, U>(ts: seq<T>, us: seq<T>, f: T -> seq<U>)
    ensures Gather(ts + us, f) == Gather(ts, f) + Gather(us, f)
  {
    if ts == [] {
      assert ts + us == us;
    } else {
      assert (ts + us)[1..] == ts[1..] + us;
      GatherConcat(ts[1..], us, f);
    }
  }

  lemma {:induction false} GatherNothing<T, U>(ts: seq<T>, f: T -> seq<U>)
    requires forall t :: t in ts ==> f(t) == []
    ensures Gather(ts, f) == []
  {
    if ts != [] {
      GatherNothing(ts[1..], f);
    }
  }

  lemma {:induction false} GatherOne<T, U>(ts: seq<T>, i: nat, f: T -> seq<U>)
    requires i < |ts| && forall j: nat :: j < |ts| && j != i ==> f(ts[j]) == []
    ensures Gather(ts, f) == f(ts[i])
  {
    if i == 0 {
      GatherNothing(ts[1..], f);
    } else {
      GatherOne(ts[1..], i - 1, f);
    }
  }
}
