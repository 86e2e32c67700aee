/**
 Flow control of a file transfer: the sender keeps a window of chunks ahead of the largest
 acknowledgement it has absorbed; the receiver acknowledges every sixteenth chunk and the last.
 */
module FileWindow {
  import opened Bytes

  const WINDOW := 64
  const ACK_EVERY := 16
  const BOX := 128  // the sender's acknowledgement channel

  /** The received counts a receiver acknowledges. */
  predicate AckPoint(n: nat, total: nat) {
    n > 0 && (n % ACK_EVERY == 0 || n == total)
  }

  /** The acknowledgement points in (lo, hi], ascending. */
  function Due(lo: nat, hi: nat, total: nat): seq<nat>
    decreases hi
  {
    if hi <= lo then [] else Due(lo, hi - 1, total) + if AckPoint(hi, total) then [hi] else []
  }

  lemma {:induction false} DueHead(lo: nat, hi: nat, total: nat)
    requires Due(lo, hi, total) != []
    ensures var k := Due(lo, hi, total)[0];
            lo < k <= hi && AckPoint(k, total) && Due(lo, hi, total)[1..] == Due(k, hi, total)
    decreases hi
  {
    var before := Due(lo, hi - 1, total);
    if before != [] {
      DueHead(lo, hi - 1, total);
      var last := if AckPoint(hi, total) then [hi] else [];
      assert (before + last)[1..] == before[1..] + last;
    } else {
      assert Due(lo, hi, total) == [hi];
      assert Due(hi, hi, total) == [];
    }
  }

  lemma {:induction false} DueCount(lo: nat, hi: nat, total: nat)
    requires lo % ACK_EVERY == 0 && lo <= hi <= total
    ensures |Due(lo, hi, total)| == (hi - lo) / ACK_EVERY + if lo < hi == total && hi % ACK_EVERY != 0 then 1 else 0
    decreases hi
  {
    if lo < hi {
      DueCount(lo, hi - 1, total);
    }
  }

  /** A window never has more than four acknowledgements due. */
  lemma DueWithinWindow(lo: nat, hi: nat, total: nat)
    requires (lo == 0 || AckPoint(lo, total)) && lo <= hi <= total && hi <= lo + WINDOW
    ensures |Due(lo, hi, total)| <= WINDOW / ACK_EVERY
  {
    if lo % ACK_EVERY == 0 {
      DueCount(lo, hi, total);
    }
  }

  // ---- one receiver, chunks and acknowledgements in order and not lost ----

  datatype Link = Link(sent: nat, maxAck: nat, received: nat,
                       acks: seq<nat>,   // travelling to the sender
                       box: seq<nat>,    // in its channel
                       dropped: nat)     // found the channel full

  const START := Link(0, 0, 0, [], [], 0)

  datatype Step = Send | Receive | Carry | Absorb

  predicate Enabled(total: nat, s: Link, step: Step) {
    match step
    case Send => s.sent < total && s.sent - s.maxAck < WINDOW
    case Receive => s.received < s.sent
    case Carry => s.acks != []
    case Absorb => s.box != []
  }

  function Apply(total: nat, s: Link, step: Step): Link
    requires Enabled(total, s, step)
  {
    match step
    case Send => s.(sent := s.sent + 1)
    case Receive =>
      var n := s.received + 1;
      s.(received := n, acks := if n % ACK_EVERY == 0 || n == total then s.acks + [n] else s.acks)
    case Carry =>
      if |s.box| < BOX then s.(box := s.box + [s.acks[0]], acks := s.acks[1..])
      else s.(acks := s.acks[1..], dropped := s.dropped + 1)
    case Absorb => s.(maxAck := if s.box[0] > s.maxAck then s.box[0] else s.maxAck, box := s.box[1..])
  }

  ghost predicate IsRun(total: nat, s: Link, steps: seq<Step>, end: Link)
    decreases |steps|
  {
    if steps == [] then end == s else Enabled(total, s, steps[0]) && IsRun(total, Apply(total, s, steps[0]), steps[1..], end)
  }

  /** Outstanding acknowledgements are exactly the points between what was absorbed and what was received. */
  ghost predicate Inv(total: nat, s: Link) {
    && s.maxAck <= s.received <= s.sent <= total
    && s.sent <= s.maxAck + WINDOW
    && (s.maxAck == 0 || AckPoint(s.maxAck, total))
    && s.box + s.acks == Due(s.maxAck, s.received, total)
    && s.dropped == 0
  }

  lemma Outstanding(total: nat, s: Link)
    requires Inv(total, s)
    ensures |s.box| + |s.acks| <= WINDOW / ACK_EVERY
  {
    DueWithinWindow(s.maxAck, s.received, total);
    assert |s.box + s.acks| == |s.box| + |s.acks|;
  }

  lemma StepKeeps(total: nat, s: Link, step: Step)
    requires Inv(total, s) && Enabled(total, s, step)
    ensures Inv(total, Apply(total, s, step))
  {
    Outstanding(total, s);
    match step {
      case Send =>
      case Receive =>
        var n := s.received + 1;
        assert Due(s.maxAck, n, total) == Due(s.maxAck, s.received, total) + if AckPoint(n, total) then [n] else [];
        assert s.box + (s.acks + [n]) == (s.box + s.acks) + [n];
      case Carry => assert (s.box + [s.acks[0]]) + s.acks[1..] == s.box + s.acks;
      case Absorb =>
        assert (s.box + s.acks)[0] == s.box[0] && (s.box + s.acks)[1..] == s.box[1..] + s.acks;
        DueHead(s.maxAck, s.received, total);
    }
  }

  lemma {:induction false} RunKeeps(total: nat, s: Link, steps: seq<Step>, end: Link)
    requires Inv(total, s) && IsRun(total, s, steps, end)
    ensures Inv(total, end)
    decreases |steps|
  {
    hide Inv, Apply, Enabled;
    if steps != [] {
      StepKeeps(total, s, steps[0]);
      RunKeeps(total, Apply(total, s, steps[0]), steps[1..], end);
    }
  }

  /**
   In every run with one in-order lossless receiver: at most four acknowledgements are outstanding,
   so the 128-slot channel never drops one; the sender never runs more than a window ahead; and when
   its window is full there is an acknowledgement above its mark still to come.
   */
  lemma WindowSafe(total: nat, steps: seq<Step>, s: Link)
    requires IsRun(total, START, steps, s)
    ensures |s.box| + |s.acks| <= 4 && s.dropped == 0
    ensures s.sent - s.maxAck <= WINDOW && s.received - s.maxAck <= WINDOW
    ensures s.sent - s.maxAck == WINDOW ==> s.box + s.acks != [] || (s.received < s.maxAck + ACK_EVERY <= s.sent)
  {
    assert Inv(total, START);
    RunKeeps(total, START, steps, s);
    Outstanding(total, s);
    if s.sent - s.maxAck == WINDOW {
      FullWindowHasAck(total, s);
    }
  }

  lemma FullWindowHasAck(total: nat, s: Link)
    requires Inv(total, s) && s.sent - s.maxAck == WINDOW
    ensures s.box + s.acks != [] || (s.received < s.maxAck + ACK_EVERY <= s.sent)
  {
    assert s.maxAck < total && s.maxAck % ACK_EVERY == 0;
    DueCount(s.maxAck, s.received, total);
  }

  // ---- no transfer gets stuck ----

  /** What is left to do. Every step does some of it. */
  function Work(total: nat, s: Link): int {
    4 * (total - s.sent) + 3 * (s.sent - s.received) + 2 * |s.acks| + |s.box|
  }

  lemma StepWorks(total: nat, s: Link, step: Step)
    requires Inv(total, s) && Enabled(total, s, step)
    ensures 0 <= Work(total, Apply(total, s, step)) < Work(total, s)
  {
  }

  /** With nothing left to do, every chunk was received and the last acknowledgement absorbed: never a deadlock on a full window. */
  lemma StuckMeansDone(total: nat, s: Link)
    requires Inv(total, s) && forall step :: !Enabled(total, s, step)
    ensures s.received == s.sent == s.maxAck == total
  {
    assert !Enabled(total, s, Receive) && !Enabled(total, s, Carry) && !Enabled(total, s, Absorb) && !Enabled(total, s, Send);
    assert s.received == s.sent && Due(s.maxAck, s.received, total) == [] by {
      assert s.box + s.acks == [];
    }
    if s.maxAck % ACK_EVERY == 0 {
      DueCount(s.maxAck, s.received, total);
    }
  }

  /** Every run is finite, and one that cannot be continued has delivered and acknowledged every chunk. */
  lemma {:induction false} TransferCompletes(total: nat, s: Link, steps: seq<Step>, end: Link)
    requires Inv(total, s) && IsRun(total, s, steps, end)
    ensures |steps| <= Work(total, s) - Work(total, end)
    ensures (forall step :: !Enabled(total, end, step)) ==> end.received == end.sent == end.maxAck == total
    decreases |steps|
  {
    hide Work;
    if steps == [] {
      if forall step :: !Enabled(total, end, step) {
        StuckMeansDone(total, end);
      }
    } else {
      StepKeeps(total, s, steps[0]);
      StepWorks(total, s, steps[0]);
      TransferCompletes(total, Apply(total, s, steps[0]), steps[1..], end);
    }
  }

  // ---- several receivers: the window follows the fastest ----

  datatype Room = Room(sent: nat, maxAck: nat, got: seq<nat>, box: seq<nat>)

  datatype RoomStep = Push | Deliver(who: nat) | Take

  predicate RoomEnabled(total: nat, s: Room, step: RoomStep) {
    match step
    case Push => s.sent < total && s.sent - s.maxAck < WINDOW
    case Deliver(who) => who < |s.got| && s.got[who] < s.sent
    case Take => s.box != []
  }

  function RoomApply(total: nat, s: Room, step: RoomStep): Room
    requires RoomEnabled(total, s, step)
  {
    match step
    case Push => s.(sent := s.sent + 1)
    case Deliver(who) =>
      var n := s.got[who] + 1;
      s.(got := s.got[who := n], box := if AckPoint(n, total) && |s.box| < BOX then s.box + [n] else s.box)
    case Take => s.(maxAck := if s.box[0] > s.maxAck then s.box[0] else s.maxAck, box := s.box[1..])
  }

  ghost predicate IsRoomRun(total: nat, s: Room, steps: seq<RoomStep>, end: Room)
    decreases |steps|
  {
    if steps == [] then end == s
    else RoomEnabled(total, s, steps[0]) && IsRoomRun(total, RoomApply(total, s, steps[0]), steps[1..], end)
  }

  ghost predicate Reached(got: seq<nat>, n: nat) {
    exists r :: 0 <= r < |got| && n <= got[r]
  }

  /** The sender stays within a window of some receiver: the one whose acknowledgement is largest. */
  ghost predicate RoomInv(total: nat, s: Room) {
    && s.sent <= s.maxAck + WINDOW && s.sent <= total
    && (s.maxAck == 0 || Reached(s.got, s.maxAck))
    && forall i :: 0 <= i < |s.box| ==> Reached(s.got, s.box[i])
  }

  /** A transfer to r receivers, nothing sent. */
  function Empty(r: nat): Room {
    Room(0, 0, seq(r, _ => 0), [])
  }

  lemma RoomStepKeeps(total: nat, s: Room, step: RoomStep)
    requires RoomInv(total, s) && RoomEnabled(total, s, step)
    ensures RoomInv(total, RoomApply(total, s, step)) && |RoomApply(total, s, step).got| == |s.got|
  {
    var s' := RoomApply(total, s, step);
    forall n | Reached(s.got, n)
      ensures Reached(s'.got, n)
    {
      var r :| 0 <= r < |s.got| && n <= s.got[r];
      assert n <= s'.got[r];
    }
    if step.Deliver? {
      assert s.got[step.who] + 1 <= s'.got[step.who];
      assert Reached(s'.got, s.got[step.who] + 1);
    }
  }

  lemma {:induction false} RoomRunKeeps(total: nat, s: Room, steps: seq<RoomStep>, end: Room)
    requires RoomInv(total, s) && IsRoomRun(total, s, steps, end)
    ensures RoomInv(total, end) && |end.got| == |s.got|
    decreases |steps|
  {
    if steps != [] {
      RoomStepKeeps(total, s, steps[0]);
      RoomRunKeeps(total, RoomApply(total, s, steps[0]), steps[1..], end);
    }
  }

  /** In every transfer the sender stays within a window of the largest acknowledgement, which some receiver reached. */
  lemma WindowFollowsLargestAck(total: nat, r: nat, steps: seq<RoomStep>, end: Room)
    requires IsRoomRun(total, Empty(r), steps, end)
    ensures end.sent <= end.maxAck + WINDOW && (end.maxAck == 0 || Reached(end.got, end.maxAck)) && |end.got| == r
  {
    RoomRunKeeps(total, Empty(r), steps, end);
  }

  /** What the sender has absorbed once n chunks were sent, received by one member and acknowledged. */
  function Mark(total: nat, n: nat): nat {
    if n == total then n else n / ACK_EVERY * ACK_EVERY
  }

  /** One receiver has everything sent, the others nothing: the fast one keeps the window moving. */
  function Lagging(total: nat, r: nat, n: nat): Room
    requires r >= 1
  {
    Room(n, Mark(total, n), [n] + seq(r - 1, _ => 0), [])
  }

  lemma {:induction false} RoomRunAppends(total: nat, s: Room, a: seq<RoomStep>, mid: Room, b: seq<RoomStep>, end: Room)
    requires IsRoomRun(total, s, a, mid) && IsRoomRun(total, mid, b, end)
    ensures IsRoomRun(total, s, a + b, end)
    decreases |a|
  {
    if a == [] {
      assert a + b == b;
    } else {
      assert (a + b)[1..] == a[1..] + b;
      RoomRunAppends(total, RoomApply(total, s, a[0]), a[1..], mid, b, end);
    }
  }

  lemma LagsOneMore(total: nat, r: nat, n: nat) returns (steps: seq<RoomStep>)
    requires r >= 1 && n < total
    ensures IsRoomRun(total, Lagging(total, r, n), steps, Lagging(total, r, n + 1))
  {
    var s0 := Lagging(total, r, n);
    var s1 := RoomApply(total, s0, Push);
    var s2 := RoomApply(total, s1, Deliver(0));
    steps := [Push, Deliver(0)];
    assert steps[1..][1..] == [];
    assert s0.got[0 := n + 1] == Lagging(total, r, n + 1).got;
    if AckPoint(n + 1, total) {
      var s3 := RoomApply(total, s2, Take);
      assert s3 == Lagging(total, r, n + 1);
      steps := [Push, Deliver(0), Take];
      assert steps[1..][1..][1..] == [];
      assert IsRoomRun(total, s2, steps[1..][1..], s3);
      assert IsRoomRun(total, s1, steps[1..], s3);
    } else {
      assert s2 == Lagging(total, r, n + 1);
      assert IsRoomRun(total, s1, steps[1..], s2);
    }
  }

  lemma NoRoomSteps(total: nat, s: Room)
    ensures IsRoomRun(total, s, [], s)
  {
  }

  /** A slow receiver does not hold the window back: the sender can be any number of chunks ahead of it, up to the whole artifact. */
  lemma {:induction false} SlowReceiverLags(total: nat, r: nat, n: nat) returns (steps: seq<RoomStep>)
    requires r >= 1 && n <= total
    ensures IsRoomRun(total, Empty(r), steps, Lagging(total, r, n))
    ensures forall i :: 1 <= i < r ==> Lagging(total, r, n).sent - Lagging(total, r, n).got[i] == n
  {
    hide IsRoomRun;
    if n == 0 {
      steps := [];
      assert Empty(r).got == Lagging(total, r, 0).got;
      NoRoomSteps(total, Empty(r));
    } else {
      var a := SlowReceiverLags(total, r, n - 1);
      var b := LagsOneMore(total, r, n - 1);
      RoomRunAppends(total, Empty(r), a, Lagging(total, r, n - 1), b, Lagging(total, r, n));
      steps := a + b;
    }
  }

  lemma LagShows(total: nat, r: nat)
    requires r >= 2
    ensures !WithinSlowest(Lagging(total, r, WINDOW + 1))
  {
    var end := Lagging(total, r, WINDOW + 1);
    assert end.sent - end.got[1] == WINDOW + 1;
  }

  /** The sender is within a window of every receiver. */
  predicate WithinSlowest(s: Room) {
    forall i :: 0 <= i < |s.got| ==> s.sent - s.got[i] <= WINDOW
  }

  /**
   The window follows the slowest receiver, in every run, if and only if there is at most one
   receiver or the whole artifact fits one window.
   */
  lemma SlowestBoundsExactly(total: nat, r: nat)
    ensures (forall steps, end :: IsRoomRun(total, Empty(r), steps, end) ==> WithinSlowest(end)) <==> r <= 1 || total <= WINDOW
  {
    hide IsRoomRun, Lagging;
    if r <= 1 || total <= WINDOW {
      forall steps, end | IsRoomRun(total, Empty(r), steps, end)
        ensures WithinSlowest(end)
      {
        RoomRunKeeps(total, Empty(r), steps, end);
      }
    } else {
      var steps := SlowReceiverLags(total, r, WINDOW + 1);
      var end := Lagging(total, r, WINDOW + 1);
      assert IsRoomRun(total, Empty(r), steps, end);
      LagShows(total, r);
    }
  }

  // ---- the sending loop in its own form ----

  /** The larger of the mark and every acknowledgement in a list. */
  function Highest(mark: nat, ks: seq<nat>): (m: nat)
    ensures m >= mark && forall i :: 0 <= i < |ks| ==> ks[i] <= m
    ensures m == mark || m in ks
  {
    if ks == [] then mark else
      var m := Highest(mark, ks[..|ks| - 1]);
      if ks[|ks| - 1] > m then ks[|ks| - 1] else m
  }

  lemma {:induction false} RunSnoc(total: nat, s: Link, steps: seq<Step>, mid: Link, step: Step)
    requires IsRun(total, s, steps, mid) && Enabled(total, mid, step)
    ensures IsRun(total, s, steps + [step], Apply(total, mid, step))
    decreases |steps|
  {
    hide Apply, Enabled;
    if steps == [] {
      assert ([] + [step])[1..] == [];
    } else {
      assert (steps + [step])[1..] == steps[1..] + [step];
      RunSnoc(total, Apply(total, s, steps[0]), steps[1..], mid, step);
    }
  }

  /** The sender's side of a link: every method is one of its steps, or a run of them. */
  class Sender {
    const total: nat
    var next: nat
    var maxAck: nat
    var acks: seq<nat>  // the buffered channel
    ghost var link: Link

    ghost predicate Valid()
      reads this
    {
      link.sent == next && link.maxAck == maxAck && link.box == acks
    }

    constructor (total: nat)
      ensures Valid() && this.total == total && link == START
    {
      this.total, next, maxAck, acks, link := total, 0, 0, [], START;
    }

    /** onFileAck, of the acknowledgement that arrives next: a non-blocking send, lost when the channel is full. */
    method OnFileAck(k: nat) returns (kept: bool)
      requires Valid() && Enabled(total, link, Carry) && link.acks[0] == k
      modifies `acks, `link
      ensures Valid() && link == Apply(total, old(link), Carry)
      ensures kept <==> link.dropped == old(link).dropped
      ensures Inv(total, old(link)) ==> kept
    {
      if Inv(total, link) {
        Outstanding(total, link);
      }
      kept := |acks| < BOX;
      if kept {
        acks := acks + [k];
      }
      link := Apply(total, link, Carry);
    }

    /** One receive from the acknowledgement channel. */
    method Absorb()
      requires Valid() && acks != []
      modifies `maxAck, `acks, `link
      ensures Valid() && link == Apply(total, old(link), Step.Absorb)
      ensures acks == old(acks)[1..] && maxAck == Highest(old(maxAck), [old(acks)[0]])
    {
      assert [acks[0]][..0] == [];
      if acks[0] > maxAck {
        maxAck := acks[0];
      }
      acks := acks[1..];
      link := Apply(total, link, Step.Absorb);
    }

    /**
     One iteration of streamChunks: wait for room in the window, send the next chunk, absorb at most
     one acknowledgement more. None when it would have to wait for one that has not arrived. It is a
     run of the link, so a chunk goes out only within a window of the largest acknowledgement absorbed.
     */
    method StreamNext() returns (index: Option<nat>, ghost steps: seq<Step>)
      requires Valid() && next < total
      modifies `next, `maxAck, `acks, `link
      ensures Valid() && IsRun(total, old(link), steps, link)
      ensures index.Some? ==> index.value == old(next) == next - 1 && Send in steps
      ensures index.None? ==> next == old(next) && next - maxAck >= WINDOW && acks == []
      ensures exists n :: 0 <= n <= |old(acks)| && acks == old(acks)[n..] && maxAck == Highest(old(maxAck), old(acks)[..n])
    {
      hide IsRun;
      ghost var n := 0;
      steps := [];
      NoSteps(total, link);
      while next - maxAck >= WINDOW
        invariant Valid() && next == old(next) && IsRun(total, old(link), steps, link)
        invariant 0 <= n <= |old(acks)| && acks == old(acks)[n..] && maxAck == Highest(old(maxAck), old(acks)[..n])
        decreases |acks|
      {
        if acks == [] {
          return None, steps;
        }
        HighestSnoc(old(maxAck), old(acks), n);
        RunSnoc(total, old(link), steps, link, Step.Absorb);
        Absorb();
        steps, n := steps + [Step.Absorb], n + 1;
      }
      RunSnoc(total, old(link), steps, link, Send);
      index := Some(next);
      next := next + 1;
      link := Apply(total, link, Send);
      steps := steps + [Send];
      if acks != [] {
        HighestSnoc(old(maxAck), old(acks), n);
        RunSnoc(total, old(link), steps, link, Step.Absorb);
        Absorb();
        steps, n := steps + [Step.Absorb], n + 1;
      }
    }
  }

  lemma NoSteps(total: nat, s: Link)
    ensures IsRun(total, s, [], s)
  {
  }

  lemma HighestSnoc(mark: nat, ks: seq<nat>, n: nat)
    requires n < |ks|
    ensures Highest(mark, ks[..n + 1]) == Highest(Highest(mark, ks[..n]), [ks[n]])
  {
    assert ks[..n + 1][..n] == ks[..n];
    assert [ks[n]][..0] == [];
  }
}
