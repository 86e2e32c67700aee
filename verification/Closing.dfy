/**
 Shutdown accounting: producers, the write loop and Close, interleaved at every point where they
 touch the queue, the in-flight frame or the transport. Channel operations, the two locked
 sections and the transport's Send are each one step.
 */
module Closing {
  import opened Bytes

  /** An envelope: what it is, and whether it can be marshalled at all. */
  datatype Frame = Frame(id: nat, op: nat, marshals: bool)

  /** The write loop's select, or its drain loop with sends left to make. */
  datatype Mode = Normal | Drain(left: nat)

  datatype Writer =
    | Idle(mode: Mode)
    | Taken(frame: Frame, mode: Mode)    // received from the queue, nothing recorded yet
    | Sending(frame: Frame, mode: Mode)  // beginSend done, the transport holds it
    | Sent(frame: Frame, mode: Mode)     // Send returned nil, endSend still to come
    | Failed(frame: Frame, mode: Mode)   // Send returned an error, endSend still to come
    | Exited

  datatype Closer =
    | Open
    | Waiting                            // closing is closed, waiting for the flush or the budget
    | Cancelled                          // the context is cancelled
    | Accounting(ops: seq<Frame>)        // in-flight frame looked at, queue being emptied
    | Closed(ops: seq<Frame>)            // what UnflushedError names; no error when empty

  const CAPACITY := 64

  datatype State = State(
    queue: seq<Frame>, inFlight: seq<Frame>, writer: Writer, closer: Closer, closing: bool, done: bool,
    // history
    accepted: seq<Frame>,                // every frame enqueue put on the queue, in order
    handled: seq<Frame>,                 // every frame the transport took or writeEnvelope skipped, in order
    claimed: bool,                       // the writer's frame has been reported as unflushed
    doubled: seq<Frame>,                 // reported as unflushed, and sent all the same
    vanished: seq<Frame>,                // failed after Close had looked, so neither sent nor reported
    drain: Option<Bound>)                // the drain's snapshot, once it has begun

  /** A drain that began with from frames handled and count frames queued. */
  datatype Bound = Bound(from: nat, count: nat)

  const INITIAL := State([], [], Idle(Normal), Open, false, false, [], [], false, [], [], None)

  datatype Step =
    | Enqueue(frame: Frame)
    | ObserveDone | ObserveClosing | Take | DrainEnds
    | Skip | Begin | SendOk | SendErr | EndOk | EndErr
    | Close | Cancel | Look | Collect | Finish

  predicate Looked(s: State) {
    s.closer.Accounting? || s.closer.Closed?
  }

  predicate Enabled(s: State, step: Step) {
    match step
    case Enqueue(_) => |s.queue| < CAPACITY
    case ObserveDone => s.writer == Idle(Normal) && s.done
    case ObserveClosing => s.writer == Idle(Normal) && s.closing
    case Take => s.writer.Idle? && s.queue != [] && (s.writer.mode.Drain? ==> s.writer.mode.left > 0)
    case DrainEnds => s.writer.Idle? && s.writer.mode.Drain? && (s.writer.mode.left == 0 || s.queue == [])
    case Skip => s.writer.Taken? && !s.writer.frame.marshals
    case Begin => s.writer.Taken? && s.writer.frame.marshals
    case SendOk => s.writer.Sending?
    case SendErr => s.writer.Sending?
    case EndOk => s.writer.Sent?
    case EndErr => s.writer.Failed?
    case Close => s.closer.Open?
    case Cancel => s.closer.Waiting?
    case Look => s.closer.Cancelled?
    case Collect => s.closer.Accounting? && s.queue != []
    case Finish => s.closer.Accounting? && s.queue == []
  }

  function Next(m: Mode): Mode
    requires m.Drain? ==> m.left > 0
  {
    if m.Drain? then Drain(m.left - 1) else m
  }

  function Apply(s: State, step: Step): State
    requires Enabled(s, step)
  {
    match step
    case Enqueue(f) => s.(queue := s.queue + [f], accepted := s.accepted + [f])
    case ObserveDone => s.(writer := Exited)
    case ObserveClosing => s.(writer := Idle(Drain(|s.queue|)), drain := Some(Bound(|s.handled|, |s.queue|)))
    case Take => s.(writer := Taken(s.queue[0], Next(s.writer.mode)), queue := s.queue[1..])
    case DrainEnds => s.(writer := Exited)
    case Skip => s.(writer := Idle(s.writer.mode), handled := s.handled + [s.writer.frame])
    case Begin => s.(writer := Sending(s.writer.frame, s.writer.mode), inFlight := [s.writer.frame])
    case SendOk =>
      s.(writer := Sent(s.writer.frame, s.writer.mode), handled := s.handled + [s.writer.frame],
         doubled := if s.claimed then s.doubled + [s.writer.frame] else s.doubled)
    case SendErr => s.(writer := Failed(s.writer.frame, s.writer.mode))
    case EndOk => s.(writer := Idle(s.writer.mode), inFlight := [], claimed := false)
    case EndErr =>
      s.(writer := Exited, done := s.done || s.writer.mode.Normal?, claimed := false,
         vanished := if Looked(s) && !s.claimed then s.vanished + [s.writer.frame] else s.vanished)
    case Close => s.(closer := Waiting, closing := true)
    case Cancel => s.(closer := Cancelled, done := true)
    case Look =>
      s.(closer := Accounting(s.inFlight), inFlight := [],
         claimed := s.writer.Sending? || s.writer.Sent? || s.writer.Failed?,
         doubled := if s.writer.Sent? then s.doubled + [s.writer.frame] else s.doubled)
    case Collect => s.(closer := Accounting(s.closer.ops + [s.queue[0]]), queue := s.queue[1..])
    case Finish => s.(closer := Closed(s.closer.ops))
  }

  ghost predicate IsRun(s: State, steps: seq<Step>, end: State)
    decreases |steps|
  {
    if steps == [] then end == s else Enabled(s, steps[0]) && IsRun(Apply(s, steps[0]), steps[1..], end)
  }

  // ---- before Close looks: nothing is out of order, nothing is unaccounted for ----

  /** The frame in the writer's hands that has not reached the wire. */
  function Pending(w: Writer): seq<Frame> {
    match w
    case Taken(f, _) => [f]
    case Sending(f, _) => [f]
    case Failed(f, _) => [f]
    case _ => []
  }

  /** Handled, then the frame the writer holds or failed on, then the queue: the accepted frames in order. */
  ghost predicate InOrder(s: State) {
    && !s.claimed && s.doubled == [] && s.vanished == []
    && s.accepted == s.handled + (if s.writer.Exited? then s.inFlight else Pending(s.writer)) + s.queue
    && (s.writer.Idle? || s.writer.Taken? ==> s.inFlight == [])
    && (s.writer.Sending? || s.writer.Sent? || s.writer.Failed? ==> s.inFlight == [s.writer.frame])
    && (s.writer.Sent? ==> s.writer.frame in s.handled)
  }

  // ---- after: everything is accounted for up to two named discrepancies ----

  function Ops(c: Closer): seq<Frame> {
    match c
    case Accounting(ops) => ops
    case Closed(ops) => ops
    case _ => []
  }

  function Unclaimed(s: State): seq<Frame> {
    if s.claimed then [] else Pending(s.writer)
  }

  /** How often a frame occurs. */
  function Occ(x: Frame, q: seq<Frame>): nat {
    multiset(q)[x]
  }

  /** Of every frame, as many were accepted, or wrongly reported, as are accounted for somewhere. */
  predicate BalancedAt(s: State, x: Frame) {
    Occ(x, s.accepted) + Occ(x, s.doubled) ==
      Occ(x, s.handled) + Occ(x, Ops(s.closer)) + Occ(x, s.queue) + Occ(x, Unclaimed(s)) + Occ(x, s.vanished)
  }

  ghost predicate Balanced(s: State) {
    && (forall x :: BalancedAt(s, x))
    && (s.claimed ==> s.writer.Sending? || s.writer.Sent? || s.writer.Failed?)
    && |s.vanished| <= 1 && (s.vanished != [] ==> s.writer.Exited?)
  }

  /** The drain: what it has handled, what it holds and what it may still take stay within its snapshot. */
  ghost predicate DrainBounded(s: State) {
    && (!s.writer.Exited? ==> (s.drain.Some? <==> s.writer.mode.Drain?))
    && (s.drain.Some? ==>
          && s.drain.value.from <= |s.handled|
          && |s.handled| - s.drain.value.from + |Pending(s.writer)| + (if s.writer.Exited? then 0 else s.writer.mode.left)
               <= s.drain.value.count)
  }

  /** A doubly counted frame is at most one, the one whose Send was under way when Close looked. */
  ghost predicate DoublesOk(s: State) {
    && (s.claimed ==> (s.writer.Sending? || s.writer.Sent? || s.writer.Failed?) && s.writer.frame in Ops(s.closer))
    && |s.doubled| <= 1
    && (s.doubled != [] ==> s.doubled[0] in s.handled && s.doubled[0] in Ops(s.closer) && (!s.claimed || s.writer.Sent?))
  }

  ghost predicate Inv(s: State) {
    && DrainBounded(s)
    && if Looked(s) then Balanced(s) && DoublesOk(s) else InOrder(s)
  }

  lemma DrainKept(s: State, step: Step)
    requires DrainBounded(s) && Enabled(s, step)
    ensures DrainBounded(Apply(s, step))
  {
  }

  lemma OrderKept(s: State, step: Step)
    requires InOrder(s) && !Looked(s) && Enabled(s, step) && !step.Look?
    ensures InOrder(Apply(s, step)) && !Looked(Apply(s, step))
  {
    match step {
      case Enqueue(f) =>
        var held := if s.writer.Exited? then s.inFlight else Pending(s.writer);
        assert s.handled + held + s.queue + [f] == s.handled + held + (s.queue + [f]);
      case Take =>
        assert s.handled + [] + s.queue == s.handled + [s.queue[0]] + s.queue[1..];
      case Skip => HandOver(s);
      case SendOk => HandOver(s);
      case _ =>
    }
  }

  lemma HandOver(s: State)
    requires Pending(s.writer) != []
    ensures s.handled + Pending(s.writer) + s.queue == s.handled + [s.writer.frame] + [] + s.queue
  {
  }

  lemma OccBasics(x: Frame, f: Frame)
    ensures Occ(x, []) == 0 && Occ(x, [f]) == if x == f then 1 else 0
  {
  }

  lemma OccConcat(x: Frame, a: seq<Frame>, b: seq<Frame>)
    ensures Occ(x, a + b) == Occ(x, a) + Occ(x, b)
  {
  }

  lemma OccHead(x: Frame, q: seq<Frame>)
    requires q != []
    ensures Occ(x, q) == Occ(x, [q[0]]) + Occ(x, q[1..])
  {
    assert q == [q[0]] + q[1..];
  }

  lemma LookBalances(s: State)
    requires InOrder(s) && s.closer.Cancelled?
    ensures Balanced(Apply(s, Look))
  {
    hide Occ;
    var s' := Apply(s, Look);
    var held := if s.writer.Exited? then s.inFlight else Pending(s.writer);
    forall x
      ensures BalancedAt(s', x)
    {
      OccConcat(x, s.handled + held, s.queue);
      OccConcat(x, s.handled, held);
      if s.writer.Sent? {
        assert s'.doubled == [s.writer.frame] == Ops(s'.closer);
        OccBasics(x, s.writer.frame);
      } else if s.inFlight == [] {
        OccBasics(x, Frame(0, 0, true));
      } else {
        OccBasics(x, s.inFlight[0]);
      }
    }
  }

  lemma BalanceKeptAt(s: State, step: Step, x: Frame)
    requires Balanced(s) && Looked(s) && Enabled(s, step)
    ensures BalancedAt(Apply(s, step), x)
  {
    hide Occ;
    var s' := Apply(s, step);
    assert BalancedAt(s, x);
    OccBasics(x, Frame(0, 0, true));
    match step {
      case Enqueue(f) =>
        OccConcat(x, s.queue, [f]);
        OccConcat(x, s.accepted, [f]);
      case Take => OccHead(x, s.queue);
      case Collect =>
        OccHead(x, s.queue);
        OccConcat(x, Ops(s.closer), [s.queue[0]]);
      case Skip => OccConcat(x, s.handled, [s.writer.frame]);
      case SendOk =>
        OccConcat(x, s.handled, [s.writer.frame]);
        OccConcat(x, s.doubled, [s.writer.frame]);
      case EndErr => OccConcat(x, s.vanished, [s.writer.frame]);
      case _ =>
    }
  }

  lemma BalanceKept(s: State, step: Step)
    requires Balanced(s) && Looked(s) && Enabled(s, step)
    ensures Balanced(Apply(s, step)) && Looked(Apply(s, step))
  {
    hide BalancedAt;
    forall x
      ensures BalancedAt(Apply(s, step), x)
    {
      BalanceKeptAt(s, step, x);
    }
  }

  lemma DoublesKept(s: State, step: Step)
    requires DoublesOk(s) && Looked(s) && Enabled(s, step)
    ensures DoublesOk(Apply(s, step))
  {
  }

  lemma LookDoubles(s: State)
    requires InOrder(s) && s.closer.Cancelled?
    ensures DoublesOk(Apply(s, Look))
  {
  }

  lemma StepKeeps(s: State, step: Step)
    requires Inv(s) && Enabled(s, step)
    ensures Inv(Apply(s, step))
  {
    hide DrainBounded, Balanced, InOrder, DoublesOk;
    DrainKept(s, step);
    if Looked(s) {
      BalanceKept(s, step);
      DoublesKept(s, step);
    } else if step.Look? {
      LookBalances(s);
      LookDoubles(s);
    } else {
      OrderKept(s, step);
    }
  }

  lemma {:induction false} RunKeeps(s: State, steps: seq<Step>, end: State)
    requires Inv(s) && IsRun(s, steps, end)
    ensures Inv(end)
    decreases |steps|
  {
    hide Inv, Apply, Enabled;
    if steps != [] {
      StepKeeps(s, steps[0]);
      RunKeeps(Apply(s, steps[0]), steps[1..], end);
    }
  }

  // ---- what Close reports ----

  predicate AllMarshal(q: seq<Frame>) {
    forall i :: 0 <= i < |q| ==> q[i].marshals
  }

  /** The frames that went onto the wire: what was handled and could be marshalled. */
  function OnWire(handled: seq<Frame>): seq<Frame> {
    if handled == [] then []
    else OnWire(handled[..|handled| - 1]) + if handled[|handled| - 1].marshals then [handled[|handled| - 1]] else []
  }

  lemma {:induction false} AllOnWire(q: seq<Frame>)
    ensures OnWire(q) == q <==> AllMarshal(q)
    ensures |OnWire(q)| <= |q|
  {
    if q != [] {
      var n := |q| - 1;
      AllOnWire(q[..n]);
      assert q == q[..n] + [q[n]];
    }
  }

  ghost predicate ExitedFirst(s: State) {
    && Looked(s) && s.writer.Exited? && s.doubled == [] && s.vanished == []
    && s.accepted == s.handled + Ops(s.closer) + s.queue
  }

  lemma ExitedFirstKept(s: State, step: Step)
    requires ExitedFirst(s) && Enabled(s, step)
    ensures ExitedFirst(Apply(s, step))
  {
    match step {
      case Enqueue(f) =>
        assert s.handled + Ops(s.closer) + s.queue + [f] == s.handled + Ops(s.closer) + (s.queue + [f]);
      case Collect =>
        assert s.handled + Ops(s.closer) + s.queue == s.handled + (Ops(s.closer) + [s.queue[0]]) + s.queue[1..];
      case _ =>
    }
  }

  lemma {:induction false} ExitedFirstRun(s: State, steps: seq<Step>, end: State)
    requires ExitedFirst(s) && IsRun(s, steps, end)
    ensures ExitedFirst(end)
    decreases |steps|
  {
    hide ExitedFirst, Apply, Enabled;
    if steps != [] {
      ExitedFirstKept(s, steps[0]);
      ExitedFirstRun(Apply(s, steps[0]), steps[1..], end);
    }
  }

  lemma InitialInv()
    ensures Inv(INITIAL)
  {
  }

  /**
   Close conserves frames. If the write loop has exited when Close looks, then whatever producers do
   meanwhile, the frames handled followed by the frames UnflushedError names are, in order, every
   frame accepted; no error is returned exactly when every one was handled; and when every accepted
   frame marshals, handled is sent.
   */
  lemma CloseConserves(before: seq<Step>, s: State, during: seq<Step>, pre: State)
    requires IsRun(INITIAL, before, s) && s.writer.Exited? && Enabled(s, Look)
    requires IsRun(Apply(s, Look), during, pre) && Enabled(pre, Finish)
    ensures var end := Apply(pre, Finish);
            && end.accepted == end.handled + end.closer.ops
            && (end.closer.ops == [] <==> end.handled == end.accepted)
            && (AllMarshal(end.accepted) ==>
                  OnWire(end.handled) + end.closer.ops == end.accepted
                  && (end.closer.ops == [] <==> OnWire(end.handled) == end.accepted))
  {
    hide IsRun, ExitedFirst, Inv, AllMarshal, OnWire;
    InitialInv();
    RunKeeps(INITIAL, before, s);
    LookAfterExit(s);
    ExitedFirstRun(Apply(s, Look), during, pre);
    FinishedConserves(pre);
  }

  lemma LookAfterExit(s: State)
    requires Inv(s) && s.writer.Exited? && Enabled(s, Look)
    ensures ExitedFirst(Apply(s, Look))
  {
  }

  lemma FinishedConserves(s: State)
    requires ExitedFirst(s) && s.closer.Accounting? && s.queue == []
    ensures s.accepted == s.handled + s.closer.ops
    ensures s.closer.ops == [] <==> s.handled == s.accepted
    ensures AllMarshal(s.accepted) ==>
      OnWire(s.handled) + s.closer.ops == s.accepted && (s.closer.ops == [] <==> OnWire(s.handled) == s.accepted)
  {
    assert s.handled + s.closer.ops + [] == s.handled + s.closer.ops;
    if AllMarshal(s.accepted) {
      assert forall i :: 0 <= i < |s.handled| ==> s.handled[i] == s.accepted[i];
      AllOnWire(s.handled);
    }
  }

  /** Until Close looks, what was handled is always a prefix of what was accepted: frames leave in the order they came. */
  lemma SentInOrder(steps: seq<Step>, s: State)
    requires IsRun(INITIAL, steps, s) && !Looked(s)
    ensures s.handled <= s.accepted
  {
    InitialInv();
    RunKeeps(INITIAL, steps, s);
  }

  /** The drain never handles more frames than were queued when it began, however fast producers are. */
  lemma DrainHandlesAtMostSnapshot(steps: seq<Step>, s: State)
    requires IsRun(INITIAL, steps, s) && s.drain.Some?
    ensures s.drain.value.from <= |s.handled| <= s.drain.value.from + s.drain.value.count
  {
    InitialInv();
    RunKeeps(INITIAL, steps, s);
  }

  // ---- and when it is exact ----

  predicate Distinct(q: seq<Frame>) {
    forall i, j :: 0 <= i < j < |q| ==> q[i] != q[j]
  }

  lemma {:induction false} DistinctOnce(q: seq<Frame>, x: Frame)
    requires Distinct(q)
    ensures Occ(x, q) <= 1
  {
    if q != [] {
      OccHead(x, q);
      OccBasics(x, q[0]);
      DistinctOnce(q[1..], x);
      if x == q[0] {
        assert x !in q[1..];
      }
    }
  }

  /** Every frame accepted is accounted for exactly as often as it was accepted. */
  ghost predicate Exact(s: State) {
    forall x :: Occ(x, s.accepted) == Occ(x, s.handled) + Occ(x, Ops(s.closer)) + Occ(x, s.queue)
  }

  /** Close looks when no frame can be missed or counted twice afterwards. */
  predicate LooksSafely(w: Writer) {
    w.Exited? || w.Failed? || w == Idle(Drain(0))
  }

  /** The writer is through: nothing it still does touches the accounting. */
  ghost predicate Settled(s: State) {
    && Looked(s) && s.doubled == [] && s.vanished == []
    && (s.writer.Exited? || s.writer == Idle(Drain(0)) || (s.writer.Failed? && s.claimed))
  }

  lemma SettledKept(s: State, step: Step)
    requires Settled(s) && Enabled(s, step)
    ensures Settled(Apply(s, step))
  {
  }

  lemma {:induction false} SettledRun(s: State, steps: seq<Step>, end: State)
    requires Settled(s) && IsRun(s, steps, end)
    ensures Settled(end)
    decreases |steps|
  {
    hide Settled, Apply, Enabled;
    if steps != [] {
      SettledKept(s, steps[0]);
      SettledRun(Apply(s, steps[0]), steps[1..], end);
    }
  }

  lemma SettledExact(s: State)
    requires Settled(s) && Balanced(s)
    ensures Exact(s)
  {
    hide Occ;
    assert Unclaimed(s) == [];
    forall x
      ensures Occ(x, s.accepted) == Occ(x, s.handled) + Occ(x, Ops(s.closer)) + Occ(x, s.queue)
    {
      assert BalancedAt(s, x);
      OccBasics(x, x);
    }
  }

  /** Every way the run can go on from s keeps the accounting exact. */
  ghost predicate StaysExact(s: State) {
    forall steps, end :: IsRun(s, steps, end) ==> Exact(end)
  }

  lemma SafeLookStaysExact(s: State)
    requires Inv(s) && Enabled(s, Look) && LooksSafely(s.writer)
    ensures StaysExact(Apply(s, Look))
  {
    var s' := Apply(s, Look);
    StepKeeps(s, Look);
    forall steps, end | IsRun(s', steps, end)
      ensures Exact(end)
    {
      RunKeeps(s', steps, end);
      SettledRun(s', steps, end);
      SettledExact(end);
    }
  }

  /** One discrepancy of either kind is enough. */
  lemma OffByOne(s: State, x: Frame)
    requires Balanced(s) && Looked(s)
    requires (s.doubled == [x] && Unclaimed(s) == [] && s.vanished == []) || (s.doubled == [] && Unclaimed(s) == [x] && s.vanished == [])
    ensures !Exact(s)
  {
    hide Occ;
    assert BalancedAt(s, x);
    OccBasics(x, x);
    assert Occ(x, s.accepted) != Occ(x, s.handled) + Occ(x, Ops(s.closer)) + Occ(x, s.queue);
  }

  /** From every other writer state there is a way to go wrong: at once, by one Send, or by one more frame taken. */
  lemma UnsafeLookGoesWrong(s: State) returns (steps: seq<Step>, end: State)
    requires Inv(s) && Enabled(s, Look) && !LooksSafely(s.writer)
    ensures IsRun(Apply(s, Look), steps, end) && !Exact(end)
  {
    hide IsRun, Balanced;
    var s' := Apply(s, Look);
    StepKeeps(s, Look);
    EmptyRun(s');
    steps, end := [], s';
    if s.writer.Taken? || s.writer.Sent? {
      OffByOne(s', s.writer.frame);
    } else if s.writer.Sending? {
      end := Apply(s', SendOk);
      steps := RunOn(s', [], s', SendOk, end);
      StepKeeps(s', SendOk);
      OffByOne(end, s.writer.frame);
    } else {
      var ready := s';
      if s'.queue == [] {
        var f := Frame(0, 0, true);
        ready := Apply(s', Enqueue(f));
        steps := RunOn(s', [], s', Enqueue(f), ready);
        StepKeeps(s', Enqueue(f));
      }
      end := Apply(ready, Take);
      steps := RunOn(s', steps, ready, Take, end);
      StepKeeps(ready, Take);
      OffByOne(end, ready.queue[0]);
    }
  }

  /**
   When Close may account, exactly. From any reachable state in which it is about to look at the
   in-flight frame, the accounting is exact however the run goes on if and only if the write loop has
   then exited, has failed on the frame it holds, or has drained its snapshot. A frame taken but not
   begun, a Send under way or just done, or a loop still free to take another, each allow a run that
   misses a frame or counts one twice.
   */
  lemma ExactWhen(before: seq<Step>, s: State)
    requires IsRun(INITIAL, before, s) && Enabled(s, Look)
    ensures StaysExact(Apply(s, Look)) <==> LooksSafely(s.writer)
  {
    hide IsRun, Exact;
    InitialInv();
    RunKeeps(INITIAL, before, s);
    if LooksSafely(s.writer) {
      SafeLookStaysExact(s);
    } else {
      var steps, end := UnsafeLookGoesWrong(s);
    }
  }

  /** At any moment after Close has looked the only discrepancies are these three, and any of them shows. */
  lemma DiscrepanciesShow(steps: seq<Step>, s: State)
    requires IsRun(INITIAL, steps, s) && Looked(s) && Distinct(s.accepted)
    ensures Exact(s) <==> Unclaimed(s) == [] && s.vanished == [] && s.doubled == []
  {
    hide IsRun;
    InitialInv();
    RunKeeps(INITIAL, steps, s);
    ExactWhenBalanced(s);
  }

  lemma ExactWhenBalanced(s: State)
    requires Balanced(s) && DoublesOk(s) && Distinct(s.accepted)
    ensures Exact(s) <==> Unclaimed(s) == [] && s.vanished == [] && s.doubled == []
  {
    hide Occ, Pending, Ops;
    if s.doubled != [] {
      DoubledShows(s, s.doubled[0]);
    } else if s.vanished != [] {
      MissingShows(s, s.vanished[0]);
    } else if Unclaimed(s) != [] {
      MissingShows(s, Unclaimed(s)[0]);
    } else {
      forall x
        ensures Occ(x, s.accepted) == Occ(x, s.handled) + Occ(x, Ops(s.closer)) + Occ(x, s.queue)
      {
        assert BalancedAt(s, x);
        OccBasics(x, x);
      }
    }
  }

  lemma MissingShows(s: State, x: Frame)
    requires BalancedAt(s, x) && s.doubled == [] && (x in s.vanished || x in Unclaimed(s))
    ensures !Exact(s)
  {
  }

  lemma InOcc(x: Frame, q: seq<Frame>)
    requires x in q
    ensures Occ(x, q) >= 1
  {
  }

  lemma DoubledShows(s: State, x: Frame)
    requires Distinct(s.accepted) && x in s.handled && x in Ops(s.closer)
    ensures !Exact(s)
  {
    DistinctOnce(s.accepted, x);
    InOcc(x, s.handled);
    InOcc(x, Ops(s.closer));
    assert Occ(x, s.accepted) < Occ(x, s.handled) + Occ(x, Ops(s.closer)) + Occ(x, s.queue);
  }

  /** One frame, taken from the queue and nothing else done. */
  function OneTaken(f: Frame): State {
    INITIAL.(accepted := [f], writer := Taken(f, Normal))
  }

  lemma ReachesTaken(f: Frame) returns (steps: seq<Step>)
    ensures IsRun(INITIAL, steps, OneTaken(f))
  {
    hide IsRun;
    EmptyRun(INITIAL);
    var s1 := INITIAL.(queue := [f], accepted := [f]);
    var p1 := RunOn(INITIAL, [], INITIAL, Enqueue(f), s1);
    steps := RunOn(INITIAL, p1, s1, Take, OneTaken(f));
  }

  /** Close, with its budget spent at once. */
  lemma Cancels(p: seq<Step>, s: State) returns (steps: seq<Step>)
    requires IsRun(INITIAL, p, s) && s.closer.Open?
    ensures IsRun(INITIAL, steps, s.(closer := Cancelled, closing := true, done := true))
  {
    hide IsRun;
    var s1 := s.(closer := Waiting, closing := true);
    var p1 := RunOn(INITIAL, p, s, Close, s1);
    steps := RunOn(INITIAL, p1, s1, Cancel, s.(closer := Cancelled, closing := true, done := true));
  }

  /** A frame taken from the queue but not yet recorded as in flight is missed: no error, and not sent. */
  lemma TakenFrameIsMissed(f: Frame)
    requires f.marshals
    ensures exists steps, end :: IsRun(INITIAL, steps, end) && end.closer == Closed([]) && end.accepted == [f] && end.handled == []
                                 && end.vanished == [f]
  {
    hide IsRun;
    var p := ReachesTaken(f);
    p := Cancels(p, OneTaken(f));
    var s1 := OneTaken(f).(closer := Cancelled, closing := true, done := true);
    var s2 := s1.(closer := Accounting([]));
    var s3 := s1.(closer := Closed([]));
    p := RunOn(INITIAL, p, s1, Look, s2);
    p := RunOn(INITIAL, p, s2, Finish, s3);
    FailsUnseen(p, s3, f);
  }

  lemma FailsUnseen(p: seq<Step>, s: State, f: Frame)
    requires IsRun(INITIAL, p, s) && f.marshals && s.writer == Taken(f, Normal) && Looked(s) && !s.claimed && s.vanished == []
    ensures exists steps, end :: IsRun(INITIAL, steps, end) && end.closer == s.closer && end.accepted == s.accepted
                                 && end.handled == s.handled && end.vanished == [f]
  {
    hide IsRun;
    var s1 := s.(writer := Sending(f, Normal), inFlight := [f]);
    var s2 := s1.(writer := Failed(f, Normal));
    var p1 := RunOn(INITIAL, p, s, Begin, s1);
    var p2 := RunOn(INITIAL, p1, s1, SendErr, s2);
    var p3 := RunOn(INITIAL, p2, s2, EndErr, Apply(s2, EndErr));
  }

  /** A frame the transport is holding is reported, and may be sent after all. */
  lemma InFlightFrameIsCountedTwice(f: Frame)
    requires f.marshals
    ensures exists steps, end :: IsRun(INITIAL, steps, end) && end.closer == Closed([f]) && end.accepted == [f] && end.handled == [f]
  {
    hide IsRun;
    var p := ReachesTaken(f);
    var s0 := OneTaken(f).(writer := Sending(f, Normal), inFlight := [f]);
    p := RunOn(INITIAL, p, OneTaken(f), Begin, s0);
    p := Cancels(p, s0);
    var s1 := s0.(closer := Cancelled, closing := true, done := true);
    SentAfterLook(p, s1, f);
  }

  lemma SentAfterLook(p: seq<Step>, s: State, f: Frame)
    requires IsRun(INITIAL, p, s) && s.writer == Sending(f, Normal) && s.closer.Cancelled? && s.inFlight == [f] && s.queue == []
    requires s.accepted == [f] && s.handled == []
    ensures exists steps, end :: IsRun(INITIAL, steps, end) && end.closer == Closed([f]) && end.accepted == [f] && end.handled == [f]
  {
    hide IsRun;
    var s1 := Apply(s, Look);
    var s2 := Apply(s1, Finish);
    var p1 := RunOn(INITIAL, p, s, Look, s1);
    var p2 := RunOn(INITIAL, p1, s1, Finish, s2);
    var p3 := RunOn(INITIAL, p2, s2, SendOk, Apply(s2, SendOk));
    assert Apply(s2, SendOk).handled == [f];
  }

  lemma EmptyRun(s: State)
    ensures IsRun(s, [], s)
  {
  }

  lemma RunOn(s: State, steps: seq<Step>, mid: State, step: Step, end: State) returns (longer: seq<Step>)
    requires IsRun(s, steps, mid) && Enabled(mid, step) && end == Apply(mid, step)
    ensures IsRun(s, longer, end)
  {
    longer := steps + [step];
    RunSnoc(s, steps, mid, step);
  }

  lemma {:induction false} RunSnoc(s: State, steps: seq<Step>, mid: State, step: Step)
    requires IsRun(s, steps, mid) && Enabled(mid, step)
    ensures IsRun(s, steps + [step], Apply(mid, step))
    decreases |steps|
  {
    hide Apply;
    if steps == [] {
      assert ([] + [step])[1..] == [];
    } else {
      assert (steps + [step])[1..] == steps[1..] + [step];
      RunSnoc(Apply(s, steps[0]), steps[1..], mid, step);
    }
  }
}
