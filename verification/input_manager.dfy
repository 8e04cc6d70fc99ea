/** The input manager: a list of backends in registration order, merged by priority.
    A backend is reduced to what the manager sees of it: whether it is available, the
    events it has queued (its `poll` hands out the oldest), whether it has a numeric-mode
    switch and how it is set, and whether it has been started. */
module InputManager {
  import opened Wrappers
  import opened Events

  datatype Backend = Backend(
    name: string,
    available: bool,
    queue: seq<InputEvent>,
    hasNumericMode: bool,
    numericMode: bool,
    started: bool)

  /** A backend the manager would take an event from now. */
  predicate Ready(b: Backend)
  {
    b.available && |b.queue| > 0
  }

  /** `add_backend`: the new backend comes last, below every earlier one. */
  function AddBackend(bs: seq<Backend>, b: Backend): (r: seq<Backend>)
    ensures |r| == |bs| + 1 && r[|bs|] == b
    ensures r[..|bs|] == bs
  {
    bs + [b]
  }

  /** `start`: start every backend in order; one whose start raises stays unstarted and the
      rest are still started. `raises[i]` says whether backend `i` raises. */
  function Start(bs: seq<Backend>, raises: seq<bool>): (r: seq<Backend>)
    requires |raises| == |bs|
    ensures |r| == |bs|
    ensures forall i :: 0 <= i < |bs| ==> r[i] == bs[i].(started := bs[i].started || !raises[i])
  {
    if |bs| == 0 then []
    else [bs[0].(started := bs[0].started || !raises[0])] + Start(bs[1..], raises[1..])
  }

  /** `poll`: the oldest event of the first backend, in registration order, that is available
      and has one. Backends before it had nothing to give; it alone loses its event; the
      unavailable ones and the ones after it are not touched. */
  function Poll(bs: seq<Backend>): (r: (Option<InputEvent>, seq<Backend>))
    ensures |r.1| == |bs|
    ensures r.0.None? <==> forall i :: 0 <= i < |bs| ==> !Ready(bs[i])
    ensures r.0.None? ==> r.1 == bs
    ensures r.0.Some? ==> exists k :: ServedAt(bs, k, r.0.value, r.1)
  {
    if |bs| == 0 then (None, [])
    else if Ready(bs[0]) then
      assert ServedAt(bs, 0, bs[0].queue[0], [bs[0].(queue := bs[0].queue[1..])] + bs[1..]);
      (Some(bs[0].queue[0]), [bs[0].(queue := bs[0].queue[1..])] + bs[1..])
    else
      var (e, rest) := Poll(bs[1..]);
      PollSkip(bs, e, rest);
      (e, [bs[0]] + rest)
  }

  /** Backend `k` is the first ready one, `e` is its oldest event and `rs` is the list with
      that event taken from it alone. */
  ghost predicate ServedAt(bs: seq<Backend>, k: int, e: InputEvent, rs: seq<Backend>)
  {
    0 <= k < |bs| && Ready(bs[k]) && (forall j :: 0 <= j < k ==> !Ready(bs[j]))
    && e == bs[k].queue[0]
    && rs == bs[k := bs[k].(queue := bs[k].queue[1..])]
  }

  /** A poll that skips an unready first backend answers as the poll of the others does. */
  lemma PollSkip(bs: seq<Backend>, e: Option<InputEvent>, rest: seq<Backend>)
    requires |bs| > 0 && !Ready(bs[0]) && |rest| == |bs| - 1
    requires e.None? <==> forall i :: 0 <= i < |bs| - 1 ==> !Ready(bs[1..][i])
    requires e.None? ==> rest == bs[1..]
    requires e.Some? ==> exists k :: ServedAt(bs[1..], k, e.value, rest)
    ensures e.None? <==> forall i :: 0 <= i < |bs| ==> !Ready(bs[i])
    ensures e.None? ==> [bs[0]] + rest == bs
    ensures e.Some? ==> exists k :: ServedAt(bs, k, e.value, [bs[0]] + rest)
  {
    assert forall i :: 1 <= i < |bs| ==> bs[i] == bs[1..][i - 1];
    if e.Some? {
      var k :| ServedAt(bs[1..], k, e.value, rest);
      ConsUpdate(bs, k, bs[k + 1].(queue := bs[k + 1].queue[1..]));
      assert ServedAt(bs, k + 1, e.value, [bs[0]] + rest);
    } else {
      assert [bs[0]] + rest == bs;
    }
  }

  lemma ConsUpdate<T>(s: seq<T>, k: nat, v: T)
    requires k + 1 < |s|
    ensures [s[0]] + s[1..][k := v] == s[k + 1 := v]
  {
  }

  /** With no backends there is never an event. */
  lemma PollEmpty()
    ensures Poll([]) == (None, [])
  {
  }

  /** An unavailable backend keeps its queue through any poll. */
  lemma PollSkipsUnavailable(bs: seq<Backend>, i: nat)
    requires i < |bs| && !bs[i].available
    ensures Poll(bs).1[i] == bs[i]
  {
  }

  /** Priority is strict: a ready backend is always served before any backend after it. */
  lemma PollPriority(bs: seq<Backend>, i: nat)
    requires i < |bs| && Ready(bs[i])
    ensures Poll(bs).0.Some?
    ensures forall j :: i < j < |bs| ==> Poll(bs).1[j] == bs[j]
  {
  }

  /** `set_numeric_mode(b)`: every backend with the switch gets `b`, the others are unchanged;
      no queue is touched. */
  function SetNumericMode(bs: seq<Backend>, enabled: bool): (r: seq<Backend>)
    ensures |r| == |bs|
    ensures forall i :: 0 <= i < |bs| ==>
      r[i] == if bs[i].hasNumericMode then bs[i].(numericMode := enabled) else bs[i]
  {
    if |bs| == 0 then []
    else [if bs[0].hasNumericMode then bs[0].(numericMode := enabled) else bs[0]] + SetNumericMode(bs[1..], enabled)
  }

  /** Switching the mode never changes which backend a poll serves or what it returns. */
  lemma {:induction false} SetNumericModeKeepsPoll(bs: seq<Backend>, enabled: bool)
    ensures Poll(SetNumericMode(bs, enabled)).0 == Poll(bs).0
  {
    if |bs| > 0 {
      var ms := SetNumericMode(bs, enabled);
      assert ms[1..] == SetNumericMode(bs[1..], enabled);
      if !Ready(bs[0]) {
        SetNumericModeKeepsPoll(bs[1..], enabled);
      }
    }
  }
}
