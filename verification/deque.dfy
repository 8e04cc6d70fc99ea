/** `collections.deque(maxlen=cap)` used as a FIFO: `append` at the right end drops the
    leftmost element once the deque is full, `popleft` takes the oldest. */
module Deque {
  import opened Wrappers

  predicate Fits<T>(q: seq<T>, cap: nat)
  {
    |q| <= cap
  }

  /** `append`: the new element goes last; when full, the oldest is dropped first. */
  function Push<T>(q: seq<T>, x: T, cap: nat): (r: seq<T>)
    requires cap >= 1 && Fits(q, cap)
    ensures Fits(r, cap) && |r| > 0 && r[|r| - 1] == x
    ensures |q| < cap ==> r == q + [x]
    ensures |q| == cap ==> |r| == cap && r[..cap - 1] == q[1..]
  {
    if |q| >= cap then q[1..] + [x] else q + [x]
  }

  /** `popleft` guarded by emptiness, as every backend's `poll` does it. */
  function Pop<T>(q: seq<T>): (r: (Option<T>, seq<T>))
    ensures |q| == 0 <==> r.0.None?
    ensures |q| == 0 ==> r.1 == q
    ensures |q| > 0 ==> [r.0.value] + r.1 == q
  {
    if |q| == 0 then (None, q) else (Some(q[0]), q[1..])
  }

  /** Pushing `xs` one by one. */
  function PushAll<T>(q: seq<T>, xs: seq<T>, cap: nat): (r: seq<T>)
    requires cap >= 1 && Fits(q, cap)
    ensures Fits(r, cap)
    decreases |xs|
  {
    if |xs| == 0 then q else PushAll(Push(q, xs[0], cap), xs[1..], cap)
  }

  /** The newest `cap` elements of `s`, in order. */
  function Newest<T>(s: seq<T>, cap: nat): (r: seq<T>)
    ensures |r| == if |s| > cap then cap else |s|
  {
    if |s| > cap then s[|s| - cap..] else s
  }

  /** What a run of pushes keeps: the newest `cap` elements of everything, in order. */
  lemma {:induction false} PushAllKeepsNewest<T>(q: seq<T>, xs: seq<T>, cap: nat)
    requires cap >= 1 && Fits(q, cap)
    ensures PushAll(q, xs, cap) == Newest(q + xs, cap)
    decreases |xs|
  {
    if |xs| == 0 {
      assert q + xs == q;
    } else {
      var q1 := Push(q, xs[0], cap);
      assert PushAll(q, xs, cap) == PushAll(q1, xs[1..], cap);
      PushAllKeepsNewest(q1, xs[1..], cap);
      NewestStep(q, xs[0], xs[1..], cap);
      assert q + [xs[0]] + xs[1..] == q + xs;
    }
  }

  lemma NewestStep<T>(q: seq<T>, x: T, rest: seq<T>, cap: nat)
    requires cap >= 1 && Fits(q, cap)
    ensures Newest(Push(q, x, cap) + rest, cap) == Newest(q + [x] + rest, cap)
  {
    var all := q + [x] + rest;
    var all1 := Push(q, x, cap) + rest;
    if |q| == cap {
      assert all1 == all[1..];
      assert Newest(all1, cap) == all1[|all1| - cap..];
      assert all1[|all1| - cap..] == all[|all| - cap..];
    } else {
      assert all1 == all;
    }
  }

  /** Below capacity nothing is lost: popping after a push returns the oldest element, the
      pushed element when the deque was empty. */
  lemma PushPop<T>(q: seq<T>, x: T, cap: nat)
    requires cap >= 1 && |q| < cap
    ensures Pop(Push(q, x, cap)).0 == Some(if |q| == 0 then x else q[0])
    ensures Pop(Push(q, x, cap)).1 == (q + [x])[1..]
  {
  }
}
