/**
  Progress coalescing of one running tool (`executePreparedToolCall`). A frame that
  arrives while another is being delivered replaces the one that waits. Tool, listener
  and the awaiting loop interleave freely; frames are named by their position among
  the accepted ones.
*/
module Progress {
  import opened Wrappers

  datatype State = State(
    accepting: bool,
    delivering: bool,
    waiting: Option<nat>,     // the replacement snapshot, if any
    failed: bool,             // a listener failure was recorded
    returned: bool,           // the result went back to the loop
    inFlight: nat,            // deliveries begun and not ended
    accepted: seq<nat>,       // every frame the tool forwarded while frames were accepted
    delivered: seq<nat>)      // positions of the frames handed to the listener

  const INIT := State(true, false, None, false, false, 0, [], [])

  datatype Step = Forward(frame: nat) | DeliveryEnds | DeliveryFails | ToolSettles | Return

  /** Hand a frame to the listener. */
  function Deliver(s: State, frame: nat): State {
    s.(delivering := true, waiting := None, inFlight := s.inFlight + 1, delivered := s.delivered + [frame])
  }

  predicate Enabled(s: State, step: Step) {
    match step
    case Forward(_) => true
    case DeliveryEnds => s.inFlight > 0
    case DeliveryFails => s.inFlight > 0
    case ToolSettles => s.accepting
    case Return => !s.accepting && !s.delivering && !s.returned
  }

  function Next(s: State, step: Step): State
    requires Enabled(s, step)
  {
    match step
    case Forward(frame) =>
      if !s.accepting then s
      else
        var t := s.(accepted := s.accepted + [frame]);
        if s.delivering then t.(waiting := Some(|s.accepted|)) else Deliver(t, |s.accepted|)
    case DeliveryEnds =>
      var t := s.(inFlight := s.inFlight - 1);
      if s.waiting.Some? then Deliver(t, s.waiting.value) else t.(delivering := false)
    case DeliveryFails => s.(inFlight := s.inFlight - 1, delivering := false, failed := true)
    case ToolSettles => s.(accepting := false)
    case Return => s.(returned := true)
  }

  /** The state after a schedule, if every step of it was enabled. */
  function Run(steps: seq<Step>): Option<State> {
    if steps == [] then Some(INIT)
    else
      var before := Run(steps[..|steps|-1]);
      if before.Some? && Enabled(before.value, steps[|steps|-1]) then Some(Next(before.value, steps[|steps|-1])) else None
  }

  ghost predicate Increasing(s: seq<nat>) {
    forall i, j :: 0 <= i < j < |s| ==> s[i] < s[j]
  }

  ghost predicate Inv(s: State) {
    && s.inFlight == (if s.delivering then 1 else 0)
    && Increasing(s.delivered)
    && (forall i :: 0 <= i < |s.delivered| ==> s.delivered[i] < |s.accepted|)
    && (s.waiting.Some? ==>
          && s.waiting.value == |s.accepted| - 1
          && forall i :: 0 <= i < |s.delivered| ==> s.delivered[i] < s.waiting.value)
    && (s.waiting.None? && s.accepted != [] ==> s.delivered != [] && s.delivered[|s.delivered|-1] == |s.accepted| - 1)
    && (!s.delivering && s.waiting.Some? ==> s.failed)
    && (s.returned ==> !s.accepting && !s.delivering)
  }

  lemma DeliverKeepsInv(s: State, frame: nat)
    requires s.inFlight == 0 && Increasing(s.delivered) && !s.returned && frame == |s.accepted| - 1
    requires forall i :: 0 <= i < |s.delivered| ==> s.delivered[i] < frame
    ensures Inv(Deliver(s, frame))
  {
  }

  lemma ForwardKeepsInv(s: State, frame: nat)
    requires Inv(s)
    ensures Inv(Next(s, Forward(frame)))
  {
    if s.accepting && !s.delivering {
      DeliverKeepsInv(s.(accepted := s.accepted + [frame]), |s.accepted|);
    }
  }

  lemma EndKeepsInv(s: State)
    requires Inv(s) && Enabled(s, DeliveryEnds)
    ensures Inv(Next(s, DeliveryEnds))
  {
    if s.waiting.Some? {
      DeliverKeepsInv(s.(inFlight := s.inFlight - 1), s.waiting.value);
    }
  }

  lemma NextKeepsInv(s: State, step: Step)
    requires Inv(s) && Enabled(s, step)
    ensures Inv(Next(s, step))
  {
    match step
    case Forward(frame) => ForwardKeepsInv(s, frame);
    case DeliveryEnds => EndKeepsInv(s);
    case _ =>
  }

  lemma {:induction false} RunKeepsInv(steps: seq<Step>)
    requires Run(steps).Some?
    ensures Inv(Run(steps).value)
  {
    if steps != [] {
      RunKeepsInv(steps[..|steps|-1]);
      NextKeepsInv(Run(steps[..|steps|-1]).value, steps[|steps|-1]);
    }
  }

  /** At most one delivery is in flight, and what is delivered is a subsequence of what was accepted. */
  lemma DeliversASubsequence(steps: seq<Step>)
    requires Run(steps).Some?
    ensures var s := Run(steps).value;
            && s.inFlight <= 1
            && Increasing(s.delivered)
            && forall i :: 0 <= i < |s.delivered| ==> s.delivered[i] < |s.accepted|
  {
    RunKeepsInv(steps);
  }

  // ----- When the last frame is lost -----

  lemma {:induction false} PrefixRuns(steps: seq<Step>, i: nat)
    requires i <= |steps| && Run(steps).Some?
    ensures Run(steps[..i]).Some? && |Run(steps[..i]).value.accepted| <= |Run(steps).value.accepted|
  {
    if i == |steps| {
      assert steps[..i] == steps;
    } else {
      assert steps[..|steps|-1][..i] == steps[..i];
      PrefixRuns(steps[..|steps|-1], i);
    }
  }

  /** The i-th step is a failing delivery while a frame waits, and no frame is accepted after it. */
  ghost predicate LosesLastAt(steps: seq<Step>, i: nat)
    requires i < |steps| && Run(steps).Some?
  {
    steps[i].DeliveryFails? && LeavesWaiting(Run(steps[..i]), |Run(steps).value.accepted|)
  }

  /** A frame waits, and it is the last of `count` accepted ones. */
  ghost predicate LeavesWaiting(r: Option<State>, count: nat) {
    r.Some? && r.value.waiting.Some? && |r.value.accepted| == count
  }

  ghost predicate LosesLast(steps: seq<Step>)
    requires Run(steps).Some?
  {
    exists i :: 0 <= i < |steps| && LosesLastAt(steps, i)
  }

  lemma LosesLastBefore(steps: seq<Step>, before: seq<Step>, i: nat)
    requires steps != [] && before == steps[..|steps|-1] && i < |before| && Run(steps).Some?
    ensures Run(before).Some?
    ensures LosesLastAt(steps, i) <==>
            LosesLastAt(before, i) && |Run(before).value.accepted| == |Run(steps).value.accepted|
  {
    PrefixRuns(steps, |before|);
    PrefixRuns(before, i);
    SamePrefix(steps, before, i);
    WaitingAmong(Run(before[..i]), |Run(before).value.accepted|, |Run(steps).value.accepted|);
  }

  lemma SamePrefix(steps: seq<Step>, before: seq<Step>, i: nat)
    requires steps != [] && before == steps[..|steps|-1] && i < |before|
    ensures steps[..i] == before[..i] && steps[i] == before[i]
  {
  }

  lemma WaitingAmong(r: Option<State>, fewer: nat, more: nat)
    requires r.Some? && |r.value.accepted| <= fewer <= more
    ensures LeavesWaiting(r, more) <==> LeavesWaiting(r, fewer) && fewer == more
  {
  }

  /** A frame waits with no delivery under way exactly when a failing delivery left it waiting and no frame came after. */
  lemma {:induction false} LeftWaiting(steps: seq<Step>)
    requires Run(steps).Some?
    ensures !Run(steps).value.delivering && Run(steps).value.waiting.Some? <==> LosesLast(steps)
  {
    if steps != [] {
      var n := |steps| - 1;
      var before := steps[..n];
      LeftWaiting(before);
      RunKeepsInv(before);
      PrefixRuns(steps, n);
      forall i | 0 <= i < n
        ensures LosesLastAt(steps, i) <==>
                LosesLastAt(before, i) && |Run(before).value.accepted| == |Run(steps).value.accepted|
      {
        LosesLastBefore(steps, before, i);
      }
      if LosesLast(before) {
        var i :| 0 <= i < n && LosesLastAt(before, i);
        assert LosesLastAt(steps, i) <==> |Run(before).value.accepted| == |Run(steps).value.accepted|;
      }
      if LosesLast(steps) {
        var i :| 0 <= i <= n && LosesLastAt(steps, i);
      }
      assert LosesLastAt(steps, n) <==> steps[n].DeliveryFails? && Run(before).value.waiting.Some?;
    }
  }

  /**
    When the call returns nothing is in flight. The last accepted frame was delivered,
    except exactly when a delivery failed while that frame was waiting.
  */
  lemma LastFrameDelivered(steps: seq<Step>)
    requires Run(steps).Some? && Run(steps).value.returned
    ensures var s := Run(steps).value;
            && s.inFlight == 0
            && (s.accepted != [] ==>
                  (LosesLast(steps) <==> !(s.delivered != [] && s.delivered[|s.delivered|-1] == |s.accepted| - 1)))
  {
    RunKeepsInv(steps);
    LeftWaiting(steps);
  }

  /** Nothing is delivered, and nothing accepted, after the call returned. */
  lemma {:induction false} NothingAfterReturn(steps: seq<Step>, more: seq<Step>)
    requires Run(steps).Some? && Run(steps).value.returned
    requires Run(steps + more).Some?
    ensures Run(steps + more).value.returned
    ensures Run(steps + more).value.delivered == Run(steps).value.delivered
    ensures Run(steps + more).value.accepted == Run(steps).value.accepted
  {
    if more == [] {
      assert steps + more == steps;
    } else {
      var shorter := more[..|more|-1];
      assert (steps + more)[..|steps + more|-1] == steps + shorter;
      NothingAfterReturn(steps, shorter);
      RunKeepsInv(steps + shorter);
    }
  }

  lemma RunSnoc(steps: seq<Step>, step: Step)
    requires Run(steps).Some? && Enabled(Run(steps).value, step)
    ensures Run(steps + [step]) == Some(Next(Run(steps).value, step))
  {
    assert (steps + [step])[..|steps|] == steps;
  }

  /** A listener failure can cost the last frame: forward, forward, fail, settle, return. */
  lemma FailureMayLoseTheLastFrame() returns (steps: seq<Step>)
    ensures Run(steps).Some? && Run(steps).value.returned
    ensures Run(steps).value.accepted == [7, 8] && Run(steps).value.delivered == [0]
  {
    steps := [];
    RunSnoc(steps, Forward(7));
    steps := steps + [Forward(7)];
    RunSnoc(steps, Forward(8));
    steps := steps + [Forward(8)];
    RunSnoc(steps, DeliveryFails);
    steps := steps + [DeliveryFails];
    RunSnoc(steps, ToolSettles);
    steps := steps + [ToolSettles];
    RunSnoc(steps, Return);
    steps := steps + [Return];
  }

  /** A listener failure is recorded exactly when a delivery failed. */
  lemma {:induction false} FailedExactly(steps: seq<Step>)
    requires Run(steps).Some?
    ensures Run(steps).value.failed <==> exists i :: 0 <= i < |steps| && steps[i].DeliveryFails?
    ensures Run(steps).value.accepting <==> forall i :: 0 <= i < |steps| ==> !steps[i].ToolSettles?
  {
    if steps != [] {
      var before := steps[..|steps|-1];
      FailedExactly(before);
      assert forall i :: 0 <= i < |steps| - 1 ==> steps[i] == before[i];
    }
  }

  /** What the tool forwards is accepted until it settles, and dropped afterwards. */
  lemma AcceptedExactly(s: State, frame: nat)
    ensures Next(s, Forward(frame)).accepted == if s.accepting then s.accepted + [frame] else s.accepted
    ensures !s.accepting ==> Next(s, Forward(frame)) == s
  {
  }

  /** However the tool and the listener behaved, the call can still return. */
  lemma CanReturn(steps: seq<Step>) returns (more: seq<Step>)
    requires Run(steps).Some? && !Run(steps).value.returned
    ensures Run(steps + more).Some? && Run(steps + more).value.returned
  {
    RunKeepsInv(steps);
    var s := Run(steps).value;
    more := [];
    assert steps + more == steps;
    if s.accepting {
      RunSnoc(steps, ToolSettles);
      more := [ToolSettles];
    }
    while Run(steps + more).value.delivering
      invariant Run(steps + more).Some? && !Run(steps + more).value.accepting && !Run(steps + more).value.returned
      decreases Run(steps + more).value.waiting.Some?, Run(steps + more).value.delivering
    {
      RunKeepsInv(steps + more);
      RunSnoc(steps + more, DeliveryEnds);
      Associative(steps, more, [DeliveryEnds]);
      more := more + [DeliveryEnds];
    }
    RunSnoc(steps + more, Return);
    Associative(steps, more, [Return]);
    more := more + [Return];
  }

  lemma Associative(a: seq<Step>, b: seq<Step>, c: seq<Step>)
    ensures (a + b) + c == a + (b + c)
  {
  }
}
