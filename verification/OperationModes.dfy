/** Switching all sub-HALs to another operation mode, and putting back those that were switched when one refuses. */
module OperationModes {

  datatype Mode = Normal | DataInjection

  /** How a sub-HAL answers a `setOperationMode` call, and the mode it is in afterwards. */
  datatype Reply = Reply(ok: bool, mode: Mode)

  /** The index of the first refusal among the first `n` replies, or `n`. */
  function FirstRefusal(replies: seq<Reply>, n: nat): (r: nat)
    requires n <= |replies|
    ensures r <= n
    ensures r < n ==> !replies[r].ok
    ensures forall i :: 0 <= i < r ==> replies[i].ok
  {
    if n == 0 then 0
    else
      var before := FirstRefusal(replies, n - 1);
      if before < n - 1 then before else if replies[n - 1].ok then n else n - 1
  }

  /** The modes of the sub-HALs after the call: those before the refusal have been asked twice, the refusing one
      once, and those after it not at all. */
  function ModesAfter(modes: seq<Mode>, replies: seq<Reply>, undo: seq<Reply>): (r: seq<Mode>)
    requires |replies| == |undo| == |modes|
    ensures |r| == |modes|
  {
    var k := FirstRefusal(replies, |modes|);
    seq(|modes|, i requires 0 <= i < |modes| =>
      if k == |modes| then replies[i].mode
      else if i < k then undo[i].mode
      else if i == k then replies[i].mode
      else modes[i])
  }

  function CurrentAfter(current: Mode, mode: Mode, replies: seq<Reply>): Mode {
    if FirstRefusal(replies, |replies|) == |replies| then mode else current
  }

  predicate Agree(modes: seq<Mode>, current: Mode) {
    forall i :: 0 <= i < |modes| ==> modes[i] == current
  }

  /** What an all-or-nothing switch needs of the sub-HALs: a success adopts the mode; a refusal keeps the old mode
      and every sub-HAL switched before it goes back to it. */
  predicate Dependable(current: Mode, mode: Mode, replies: seq<Reply>, undo: seq<Reply>) {
    var k := FirstRefusal(replies, |replies|);
    if k == |replies| then forall i :: 0 <= i < |replies| ==> replies[i].mode == mode
    else replies[k].mode == current && forall i :: 0 <= i < k && i < |undo| ==> undo[i].mode == current
  }

  /** All or nothing: from agreement, the sub-HALs agree with `mCurrentOperationMode` after the call precisely when
      they have been dependable, whichever of them refused. */
  lemma AllOrNothing(modes: seq<Mode>, current: Mode, mode: Mode, replies: seq<Reply>, undo: seq<Reply>)
    requires Agree(modes, current) && |replies| == |undo| == |modes|
    ensures Agree(ModesAfter(modes, replies, undo), CurrentAfter(current, mode, replies))
       <==> Dependable(current, mode, replies, undo)
  {
    var after := ModesAfter(modes, replies, undo);
    var k := FirstRefusal(replies, |modes|);
    if Agree(after, CurrentAfter(current, mode, replies)) {
      forall i | 0 <= i < |modes|
        ensures k == |modes| ==> replies[i].mode == mode
        ensures i < k < |modes| ==> undo[i].mode == current
        ensures i == k ==> replies[i].mode == current
      {
        assert after[i] == CurrentAfter(current, mode, replies);
      }
    }
  }

  datatype Switch = Switch(mode: Mode, replies: seq<Reply>, undo: seq<Reply>)

  /** The sub-HALs' modes and the proxy's own, after a sequence of calls. */
  function AfterSwitches(modes: seq<Mode>, current: Mode, calls: seq<Switch>): (seq<Mode>, Mode)
    requires forall i :: 0 <= i < |calls| ==> |calls[i].replies| == |calls[i].undo| == |modes|
    decreases |calls|
  {
    if calls == [] then (modes, current)
    else AfterSwitches(ModesAfter(modes, calls[0].replies, calls[0].undo),
                       CurrentAfter(current, calls[0].mode, calls[0].replies), calls[1..])
  }

  predicate AllDependable(modes: seq<Mode>, current: Mode, calls: seq<Switch>)
    requires forall i :: 0 <= i < |calls| ==> |calls[i].replies| == |calls[i].undo| == |modes|
    decreases |calls|
  {
    calls == [] || (
      && Dependable(current, calls[0].mode, calls[0].replies, calls[0].undo)
      && AllDependable(ModesAfter(modes, calls[0].replies, calls[0].undo),
                       CurrentAfter(current, calls[0].mode, calls[0].replies), calls[1..]))
  }

  lemma {:induction false} SwitchesStayInStep(modes: seq<Mode>, current: Mode, calls: seq<Switch>)
    requires forall i :: 0 <= i < |calls| ==> |calls[i].replies| == |calls[i].undo| == |modes|
    requires Agree(modes, current) && AllDependable(modes, current, calls)
    ensures var (after, now) := AfterSwitches(modes, current, calls); |after| == |modes| && Agree(after, now)
    decreases |calls|
  {
    if calls == [] {
    } else {
      AllOrNothing(modes, current, calls[0].mode, calls[0].replies, calls[0].undo);
      SwitchesStayInStep(ModesAfter(modes, calls[0].replies, calls[0].undo),
                         CurrentAfter(current, calls[0].mode, calls[0].replies), calls[1..]);
    }
  }
}
