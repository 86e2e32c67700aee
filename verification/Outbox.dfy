/**
 The write side of client.go in its own form. The object's ghost state is the state of the shutdown
 model; every method is one of its steps, or a run of them, so what is proved of every run holds of
 whatever these methods do between them.
 */
module Outbox {
  import opened Bytes
  import opened Closing

  class Queue {
    var sendCh: seq<Frame>
    var inFlight: Option<Frame>
    var inFlightErr: bool
    ghost var state: State

    /** The queue and the in-flight frame are the model's. */
    ghost predicate Valid()
      reads this
    {
      state.queue == sendCh && state.inFlight == if inFlight.Some? then [inFlight.value] else []
    }

    constructor ()
      ensures Valid() && state == INITIAL
    {
      sendCh, inFlight, inFlightErr, state := [], None, false, INITIAL;
    }

    /** The send case of enqueue's select; a full queue leaves the producer waiting. */
    method Enqueue(f: Frame) returns (ok: bool)
      requires Valid()
      modifies `sendCh, `state
      ensures Valid() && ok == Enabled(old(state), Step.Enqueue(f))
      ensures state == if ok then Apply(old(state), Step.Enqueue(f)) else old(state)
    {
      ok := |sendCh| < CAPACITY;
      if ok {
        sendCh := sendCh + [f];
        state := Apply(state, Step.Enqueue(f));
      }
    }

    /** The receive of the write loop's select, or of the drain's. */
    method Receive() returns (f: Frame)
      requires Valid() && Enabled(state, Take)
      modifies `sendCh, `state
      ensures Valid() && state == Apply(old(state), Take) && f == old(sendCh)[0] && sendCh == old(sendCh)[1..]
      ensures state.writer == Taken(f, Next(old(state).writer.mode)) && state.handled == old(state).handled
    {
      f := sendCh[0];
      sendCh := sendCh[1..];
      state := Apply(state, Take);
    }

    method BeginSend(f: Frame)
      requires Valid() && Enabled(state, Begin) && state.writer.frame == f
      modifies `inFlight, `inFlightErr, `state
      ensures Valid() && state == Apply(old(state), Begin)
      ensures inFlight == Some(f) && state.writer == Sending(f, old(state).writer.mode) && Beside(old(state), state) && state.handled == old(state).handled
    {
      inFlight, inFlightErr := Some(f), false;
      state := Apply(state, Begin);
    }

    method EndSend(ok: bool)
      requires Valid() && Enabled(state, if ok then EndOk else EndErr)
      modifies `inFlight, `inFlightErr, `state
      ensures Valid() && state == Apply(old(state), if ok then EndOk else EndErr)
      ensures state.writer == (if ok then Idle(old(state).writer.mode) else Exited)
      ensures Beside(old(state), state) && state.handled == old(state).handled
      ensures if ok then inFlight.None? else inFlight == old(inFlight)
    {
      if ok {
        inFlight := None;
      } else {
        inFlightErr := true;
      }
      state := Apply(state, if ok then EndOk else EndErr);
    }

    /**
     writeEnvelope, of the frame just received: one that does not marshal is skipped; one that is sent
     is handled; one that fails stays in flight and ends the write loop.
     */
    method WriteEnvelope(f: Frame, transport: Frame -> bool) returns (ok: bool, ghost steps: seq<Step>)
      requires Valid() && state.writer.Taken? && state.writer.frame == f
      modifies `inFlight, `inFlightErr, `state
      ensures Valid() && IsRun(old(state), steps, state)
      ensures ok == (!f.marshals || transport(f))
      ensures Beside(old(state), state)
      ensures ok ==> state.writer == Idle(old(state).writer.mode) && state.handled == old(state).handled + [f]
                     && (old(inFlight).None? ==> inFlight.None?)
      ensures !ok ==> state.writer.Exited? && state.handled == old(state).handled && inFlight == Some(f)
    {
      hide IsRun, Apply;
      EmptyRun(state);
      ghost var s0 := state;
      if !f.marshals {
        steps := RunOn(s0, [], state, Skip, Apply(state, Skip));
        SkipHandles(state);
        state := Apply(state, Skip);
        return true, steps;
      }
      steps := RunOn(s0, [], state, Begin, Apply(state, Begin));
      BeginSend(f);
      ghost var mid := state;
      ok := Transmit(f, transport);
      steps := RunOn(s0, steps, mid, if ok then SendOk else SendErr, state);
      mid := state;
      EndSend(ok);
      steps := RunOn(s0, steps, mid, if ok then EndOk else EndErr, state);
    }

    /** transport.Send. */
    method Transmit(f: Frame, transport: Frame -> bool) returns (ok: bool)
      requires Valid() && state.writer.Sending? && state.writer.frame == f
      modifies `state
      ensures Valid() && ok == transport(f) && state == Apply(old(state), if ok then SendOk else SendErr)
      ensures state.writer == (if ok then Sent(f, old(state).writer.mode) else Failed(f, old(state).writer.mode))
      ensures Beside(old(state), state) && state.handled == (if ok then old(state).handled + [f] else old(state).handled)
      ensures state.inFlight == old(state).inFlight
    {
      ok := transport(f);
      state := Apply(state, if ok then SendOk else SendErr);
    }

    /** Producers running beside the drain: each appends while there is room. */
    method Produce(arrivals: seq<Frame>) returns (ghost steps: seq<Step>)
      requires Valid()
      modifies `sendCh, `state
      ensures Valid() && IsRun(old(state), steps, state)
      ensures old(sendCh) <= sendCh && state.writer == old(state).writer && state.handled == old(state).handled
    {
      hide IsRun;
      EmptyRun(state);
      steps := [];
      for i := 0 to |arrivals|
        invariant Valid() && IsRun(old(state), steps, state)
        invariant old(sendCh) <= sendCh && state.writer == old(state).writer && state.handled == old(state).handled
      {
        if |sendCh| < CAPACITY {
          steps := RunOn(old(state), steps, state, Step.Enqueue(arrivals[i]), Apply(state, Step.Enqueue(arrivals[i])));
        }
        var _ := Enqueue(arrivals[i]);
      }
    }

    /**
     drainForClose, while producers keep appending: arrivals(k) is what they offer during the k-th
     pass. Exactly the frames queued at the start are tried, in order, up to the first transport
     error; nothing that arrives meanwhile is sent; and the whole is a run of the model.
     */
    method DrainForClose(transport: Frame -> bool, arrivals: nat -> seq<Frame>) returns (ghost steps: seq<Step>)
      requires Valid() && inFlight.None? && Enabled(state, ObserveClosing)
      modifies this
      ensures Valid() && IsRun(old(state), steps, state) && state.writer.Exited?
      ensures |old(state).handled| <= |state.handled| <= |old(state).handled| + |old(sendCh)|
      ensures state.handled == old(state).handled + old(sendCh)[..|state.handled| - |old(state).handled|]
      ensures inFlight.None? ==> |state.handled| == |old(state).handled| + |old(sendCh)|
      ensures inFlight.Some? ==> |state.handled| < |old(state).handled| + |old(sendCh)|
      ensures inFlight.Some? ==> inFlight.value == old(sendCh)[|state.handled| - |old(state).handled|] && !transport(inFlight.value)
    {
      hide IsRun, Apply;
      ghost var s0, start := state, sendCh;
      EmptyRun(state);
      DrainSteps(state);
      steps := RunOn(s0, [], state, ObserveClosing, Apply(state, ObserveClosing));
      state := Apply(state, ObserveClosing);
      var k := 0;
      var queued := |sendCh|;
      while queued > 0
        invariant 0 <= queued <= |start| && k == |start| - queued
        invariant Valid() && inFlight.None? && state.writer == Idle(Drain(queued)) && IsRun(s0, steps, state)
        invariant state.handled == s0.handled + start[..k] && start[k..] <= sendCh
      {
        assert sendCh[0] == start[k..][0] == start[k];
        assert start[k + 1..] == start[k..][1..] <= sendCh[1..];
        ghost var mid := state;
        var f := Receive();
        steps := RunOn(s0, steps, mid, Take, state);
        mid := state;
        var ok, more := WriteEnvelope(f, transport);
        RunsAppend(s0, steps, mid, more, state);
        steps := steps + more;
        if !ok {
          return;
        }
        assert start[..k + 1] == start[..k] + [start[k]];
        mid := state;
        ghost var added := Produce(arrivals(k));
        RunsAppend(s0, steps, mid, added, state);
        steps := steps + added;
        queued := queued - 1;
        k := k + 1;
      }
      assert start[..k] == start;
      DrainSteps(state);
      steps := RunOn(s0, steps, state, DrainEnds, Apply(state, DrainEnds));
      state := Apply(state, DrainEnds);
    }

    /**
     takeUnflushed: the frame in flight, then everything still queued, in order. With the write loop
     gone these and the handled frames are all that was accepted.
     */
    method TakeUnflushed() returns (ops: seq<Frame>, ghost steps: seq<Step>)
      requires Valid() && Enabled(state, Look)
      modifies `sendCh, `inFlight, `inFlightErr, `state
      ensures Valid() && IsRun(old(state), steps, state) && state.closer == Closed(ops)
      ensures ops == old(state).inFlight + old(sendCh) && sendCh == []
      ensures InOrder(old(state)) && old(state).writer.Exited? ==>
        state.handled + ops == state.accepted && (ops == [] <==> state.handled == state.accepted)
    {
      hide IsRun, InOrder, Apply;
      ghost var s0 := state;
      EmptyRun(state);
      ops := Seize();
      steps := RunOn(s0, [], s0, Look, state);
      while sendCh != []
        invariant Valid() && IsRun(s0, steps, state) && state.closer == Accounting(ops)
        invariant ops + sendCh == s0.inFlight + s0.queue && state.handled == s0.handled && state.accepted == s0.accepted
        decreases |sendCh|
      {
        assert ops + sendCh == ops + [sendCh[0]] + sendCh[1..];
        ghost var mid := state;
        var f := Withdraw();
        steps := RunOn(s0, steps, mid, Collect, state);
        ops := ops + [f];
      }
      steps := RunOn(s0, steps, state, Finish, Apply(state, Finish));
      FinishCloses(state);
      state := Apply(state, Finish);
      assert ops + [] == ops;
      if InOrder(s0) && s0.writer.Exited? {
        ReportsTheRest(s0, ops);
      }
    }

    /** The locked section of takeUnflushed. */
    method Seize() returns (ops: seq<Frame>)
      requires Valid() && Enabled(state, Look)
      modifies `inFlight, `inFlightErr, `state
      ensures Valid() && state == Apply(old(state), Look) && ops == old(state).inFlight
      ensures state.closer == Accounting(ops) && state.handled == old(state).handled && state.accepted == old(state).accepted
    {
      ops := if inFlight.Some? then [inFlight.value] else [];
      inFlight, inFlightErr := None, false;
      state := Apply(state, Look);
    }

    /** One receive of takeUnflushed's loop. */
    method Withdraw() returns (f: Frame)
      requires Valid() && Enabled(state, Collect)
      modifies `sendCh, `state
      ensures Valid() && state == Apply(old(state), Collect) && f == old(sendCh)[0] && sendCh == old(sendCh)[1..]
      ensures state.closer == Accounting(old(state).closer.ops + [f])
      ensures state.handled == old(state).handled && state.accepted == old(state).accepted
    {
      f := sendCh[0];
      sendCh := sendCh[1..];
      state := Apply(state, Collect);
    }
  }

  /** Everything the writer does not touch. */
  ghost predicate Beside(s: State, t: State) {
    t.queue == s.queue && t.accepted == s.accepted && t.closer == s.closer
  }

  lemma SkipHandles(s: State)
    requires Enabled(s, Skip)
    ensures var t := Apply(s, Skip);
            Beside(s, t) && t.writer == Idle(s.writer.mode) && t.handled == s.handled + [s.writer.frame] && t.inFlight == s.inFlight
  {
  }

  lemma DrainSteps(s: State)
    ensures Enabled(s, ObserveClosing) ==>
      Apply(s, ObserveClosing) == s.(writer := Idle(Drain(|s.queue|)), drain := Some(Bound(|s.handled|, |s.queue|)))
    ensures Enabled(s, DrainEnds) ==> Apply(s, DrainEnds) == s.(writer := Exited)
  {
  }

  lemma FinishCloses(s: State)
    requires Enabled(s, Finish)
    ensures var t := Apply(s, Finish);
            t == s.(closer := Closed(s.closer.ops))
  {
  }

  lemma ReportsTheRest(s: State, ops: seq<Frame>)
    requires InOrder(s) && s.writer.Exited? && ops == s.inFlight + s.queue
    ensures s.handled + ops == s.accepted && (ops == [] <==> s.handled == s.accepted)
  {
    assert s.handled + s.inFlight + s.queue == s.handled + ops;
  }

  lemma {:induction false} RunsAppend(s: State, a: seq<Step>, mid: State, b: seq<Step>, end: State)
    requires IsRun(s, a, mid) && IsRun(mid, b, end)
    ensures IsRun(s, a + b, end)
    decreases |a|
  {
    hide Apply, Enabled;
    if a == [] {
      assert a + b == b;
    } else {
      assert (a + b)[1..] == a[1..] + b;
      RunsAppend(Apply(s, a[0]), a[1..], mid, b, end);
    }
  }
}
