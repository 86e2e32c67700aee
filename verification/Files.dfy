/** The artifact courier: cutting an artifact into chunks, and reassembling it from any delivery of them. */
module Files {
  import opened Bytes
  import opened Crypto

  const CHUNK_SIZE := 65536
  const ACK_EVERY := 16

  // ---- cutting ----

  /** SendFile's chunk count: a zero-byte artifact is one empty chunk. */
  function ChunkCount(n: nat): (c: nat)
    ensures c >= 1 && (c - 1) * CHUNK_SIZE <= n <= c * CHUNK_SIZE
    ensures n > 0 ==> (c - 1) * CHUNK_SIZE < n
  {
    var c := (n + CHUNK_SIZE - 1) / CHUNK_SIZE;
    if c == 0 then 1 else c
  }

  /** Bytes lo..hi of chunk i. */
  function Piece(data: Bytes, i: nat): (p: Bytes)
    requires i < ChunkCount(|data|)
    ensures |p| <= CHUNK_SIZE
  {
    var lo := i * CHUNK_SIZE;
    var hi := if lo + CHUNK_SIZE > |data| then |data| else lo + CHUNK_SIZE;
    assert lo <= (ChunkCount(|data|) - 1) * CHUNK_SIZE <= |data|;
    data[lo..hi]
  }

  function Pieces(data: Bytes): (ps: seq<Bytes>)
    ensures |ps| == ChunkCount(|data|)
  {
    seq(ChunkCount(|data|), i requires 0 <= i < ChunkCount(|data|) => Piece(data, i))
  }

  function Joined(ps: seq<Bytes>): Bytes {
    if ps == [] then [] else Joined(ps[..|ps| - 1]) + ps[|ps| - 1]
  }

  lemma {:induction false} JoinedPrefix(data: Bytes, n: nat)
    requires n <= ChunkCount(|data|)
    ensures Joined(Pieces(data)[..n]) == data[..if n * CHUNK_SIZE > |data| then |data| else n * CHUNK_SIZE]
  {
    if n > 0 {
      JoinedPrefix(data, n - 1);
      var ps := Pieces(data);
      assert ps[..n][..n - 1] == ps[..n - 1] && ps[..n][n - 1] == Piece(data, n - 1);
      assert (n - 1) * CHUNK_SIZE <= |data|;
    }
  }

  /** Cutting loses nothing: the empty and exact-multiple artifacts included. */
  lemma PiecesRejoin(data: Bytes)
    ensures Joined(Pieces(data)) == data
  {
    JoinedPrefix(data, ChunkCount(|data|));
    assert Pieces(data)[..ChunkCount(|data|)] == Pieces(data);
    assert data[..|data|] == data;
  }

  /** The sending loop's cutting, chunk by chunk. */
  method Cut(data: Bytes) returns (chunks: seq<Bytes>)
    ensures chunks == Pieces(data) && Joined(chunks) == data
  {
    var total := (|data| + CHUNK_SIZE - 1) / CHUNK_SIZE;
    if total == 0 {
      total := 1;
    }
    chunks := [];
    for i := 0 to total
      invariant total == ChunkCount(|data|)
      invariant chunks == Pieces(data)[..i]
    {
      var lo := i * CHUNK_SIZE;
      var hi := lo + CHUNK_SIZE;
      if hi > |data| {
        hi := |data|;
      }
      assert lo <= (ChunkCount(|data|) - 1) * CHUNK_SIZE <= |data|;
      chunks := chunks + [data[lo..hi]];
      assert Pieces(data)[i] == Piece(data, i);
    }
    PiecesRejoin(data);
  }

  // ---- reassembling ----

  datatype Ending = Aborted | Corrupt | Written(buf: Bytes)

  /** recvState: what is filled, whether the transfer is still tracked, what was acknowledged, and how it ended. */
  datatype Transfer = Transfer(sum: Str, slots: seq<Option<Bytes>>, live: bool, acks: seq<nat>, endings: seq<Ending>)

  function Offer(sum: Str, chunks: nat): Transfer {
    Transfer(sum, seq(chunks, _ => None), true, [], [])
  }

  function Filled(slots: seq<Option<Bytes>>): (n: nat)
    ensures n <= |slots|
    ensures n == |slots| <==> forall i :: 0 <= i < |slots| ==> slots[i].Some?
  {
    if slots == [] then 0
    else
      var m := |slots| - 1;
      assert slots[..m] + [slots[m]] == slots;
      Filled(slots[..m]) + if slots[m].Some? then 1 else 0
  }

  function Contents(slots: seq<Option<Bytes>>): (ps: seq<Bytes>)
    ensures |ps| == |slots|
  {
    seq(|slots|, i requires 0 <= i < |slots| => if slots[i].Some? then slots[i].value else [])
  }

  function Size(slots: seq<Option<Bytes>>): nat {
    |Joined(Contents(slots))|
  }

  /** onFileChunk and finalizeRecv. plain is the decrypted chunk, None when decryption fails. */
  function Deliver(cr: Suite, cap: nat, t: Transfer, index: int, plain: Option<Bytes>): Transfer {
    if !t.live || index < 0 || index >= |t.slots| then t
    else if plain.None? then t.(live := false, endings := t.endings + [Aborted])
    else
      var slots := if t.slots[index].Some? then t.slots else t.slots[index := plain];
      if Size(slots) > cap then t.(slots := slots, live := false, endings := t.endings + [Aborted])
      else
        var n := Filled(slots);
        var acks := if n % ACK_EVERY == 0 || n == |slots| then t.acks + [n] else t.acks;
        if n == |slots| then
          var buf := Joined(Contents(slots));
          t.(slots := slots, acks := acks, live := false,
             endings := t.endings + [if cr.hex(cr.hash(buf)) == t.sum then Written(buf) else Corrupt])
        else t.(slots := slots, acks := acks)
  }

  lemma {:induction false} FilledSet(slots: seq<Option<Bytes>>, i: nat, p: Bytes)
    requires i < |slots| && slots[i].None?
    ensures Filled(slots[i := Some(p)]) == Filled(slots) + 1
  {
    var n := |slots| - 1;
    var next := slots[i := Some(p)];
    if i < n {
      FilledSet(slots[..n], i, p);
      assert next[..n] == slots[..n][i := Some(p)];
    } else {
      assert next[..n] == slots[..n];
    }
  }

  // ---- the acknowledgements ----

  /** A chunk as it arrives: its stated index, and what it decrypts to if it does. */
  datatype Chunk = Chunk(index: int, plain: Option<Bytes>)

  function DeliverSeq(cr: Suite, cap: nat, t: Transfer, chunks: seq<Chunk>): Transfer {
    if chunks == [] then t
    else
      var n := |chunks| - 1;
      Deliver(cr, cap, DeliverSeq(cr, cap, t, chunks[..n]), chunks[n].index, chunks[n].plain)
  }

  /** Acknowledged are exactly the multiples of the stride reached, and the whole once it is reached. */
  ghost predicate AckedSoFar(t: Transfer) {
    forall m: nat :: m in t.acks <==> 1 <= m <= Filled(t.slots) && (m % ACK_EVERY == 0 || m == |t.slots|)
  }

  /** Not given up on: still open, or ended with every slot filled. */
  predicate Unabandoned(t: Transfer) {
    t.live || (t.endings != [] && !t.endings[|t.endings| - 1].Aborted?)
  }

  lemma {:induction false} SomeFilled(slots: seq<Option<Bytes>>, i: nat)
    requires i < |slots| && slots[i].Some?
    ensures Filled(slots) >= 1
  {
    var n := |slots| - 1;
    if i < n {
      SomeFilled(slots[..n], i);
    }
  }

  /** Acknowledging on reaching n keeps the acknowledgements exact. */
  lemma AckOne(acks: seq<nat>, before: nat, n: nat, total: nat)
    requires forall m: nat :: m in acks <==> 1 <= m <= before && (m % ACK_EVERY == 0 || m == total)
    requires 1 <= n && before <= n <= before + 1
    ensures var acks' := if n % ACK_EVERY == 0 || n == total then acks + [n] else acks;
            forall m: nat :: m in acks' <==> 1 <= m <= n && (m % ACK_EVERY == 0 || m == total)
  {
  }

  lemma DeliverAcks(cr: Suite, cap: nat, t: Transfer, c: Chunk)
    requires Unabandoned(t) ==> AckedSoFar(t)
    ensures var t' := Deliver(cr, cap, t, c.index, c.plain);
            Unabandoned(t') ==> AckedSoFar(t')
  {
    hide Joined, Contents, Filled;
    if t.live && 0 <= c.index < |t.slots| && c.plain.Some? {
      var slots := if t.slots[c.index].Some? then t.slots else t.slots[c.index := c.plain];
      if t.slots[c.index].None? {
        FilledSet(t.slots, c.index, c.plain.value);
      } else {
        SomeFilled(t.slots, c.index);
      }
      AckOne(t.acks, Filled(t.slots), Filled(slots), |t.slots|);
    }
  }

  /**
   Whatever chunks arrive, honest or not, a transfer that was not aborted has acknowledged exactly the
   multiples of the stride among the numbers of distinct chunks reached, and the total on completion.
   */
  lemma {:induction false} AcksFollow(cr: Suite, cap: nat, sum: Str, total: nat, chunks: seq<Chunk>)
    ensures var t := DeliverSeq(cr, cap, Offer(sum, total), chunks);
            Unabandoned(t) ==> AckedSoFar(t)
  {
    hide Deliver, Filled;
    if chunks == [] {
      NothingFilled(total);
    } else {
      var n := |chunks| - 1;
      AcksFollow(cr, cap, sum, total, chunks[..n]);
      DeliverAcks(cr, cap, DeliverSeq(cr, cap, Offer(sum, total), chunks[..n]), chunks[n]);
    }
  }

  lemma {:induction false} NothingFilled(n: nat)
    ensures Filled(seq(n, _ => None)) == 0 && Size(seq(n, _ => None)) == 0
  {
    var none: seq<Option<Bytes>> := seq(n, _ => None);
    if n > 0 {
      NothingFilled(n - 1);
      assert none[..n - 1] == seq(n - 1, _ => None);
      assert Contents(none)[..n - 1] == Contents(none[..n - 1]);
    }
  }

  // ---- any order, any repetition ----

  predicate InRange(data: Bytes, order: seq<nat>) {
    forall i :: 0 <= i < |order| ==> order[i] < ChunkCount(|data|)
  }

  function DeliverAll(cr: Suite, cap: nat, t: Transfer, data: Bytes, order: seq<nat>): Transfer
    requires InRange(data, order)
  {
    if order == [] then t
    else
      var n := |order| - 1;
      Deliver(cr, cap, DeliverAll(cr, cap, t, data, order[..n]), order[n], Some(Piece(data, order[n])))
  }

  /** The slots hold exactly the chunks delivered so far. */
  ghost predicate Holds(slots: seq<Option<Bytes>>, data: Bytes, got: set<nat>) {
    && |slots| == ChunkCount(|data|)
    && forall i :: 0 <= i < |slots| ==> slots[i] == if i in got then Some(Piece(data, i)) else None
  }

  /** Every chunk has arrived. */
  ghost predicate Complete(data: Bytes, got: set<nat>) {
    forall i: nat :: i < ChunkCount(|data|) ==> i in got
  }

  lemma {:induction false} JoinedWithin(ps: seq<Bytes>, qs: seq<Bytes>)
    requires |ps| == |qs| && forall i :: 0 <= i < |ps| ==> |ps[i]| <= |qs[i]|
    ensures |Joined(ps)| <= |Joined(qs)|
  {
    if ps != [] {
      var n := |ps| - 1;
      JoinedWithin(ps[..n], qs[..n]);
    }
  }

  /** A partial transfer is never larger than the artifact, so an artifact within the cap never trips it. */
  lemma HoldsSize(slots: seq<Option<Bytes>>, data: Bytes, got: set<nat>)
    requires Holds(slots, data, got)
    ensures Size(slots) <= |data|
  {
    hide Piece, Joined, ChunkCount;
    PiecesRejoin(data);
    forall i | 0 <= i < |slots|
      ensures |Contents(slots)[i]| <= |Pieces(data)[i]|
    {
    }
    JoinedWithin(Contents(slots), Pieces(data));
  }

  lemma HoldsAll(slots: seq<Option<Bytes>>, data: Bytes, got: set<nat>)
    requires Holds(slots, data, got) && Complete(data, got)
    ensures Joined(Contents(slots)) == data
  {
    hide Piece, Joined, ChunkCount;
    PiecesRejoin(data);
    forall i | 0 <= i < |slots|
      ensures Contents(slots)[i] == Pieces(data)[i]
    {
      assert i in got;
    }
    assert Contents(slots) == Pieces(data);
  }

  lemma HoldsFilled(slots: seq<Option<Bytes>>, data: Bytes, got: set<nat>)
    requires Holds(slots, data, got)
    ensures Filled(slots) == |slots| <==> Complete(data, got)
  {
  }

  ghost predicate Progress(t: Transfer, data: Bytes, got: set<nat>) {
    && t.live == !Complete(data, got)
    && (t.live ==> Holds(t.slots, data, got) && t.endings == [])
    && (!t.live ==> t.endings == [Written(data)])
  }

  lemma DeliverProgress(cr: Suite, cap: nat, t: Transfer, data: Bytes, got: set<nat>, k: nat)
    requires |data| <= cap && k < ChunkCount(|data|) && t.sum == cr.hex(cr.hash(data)) && Progress(t, data, got)
    ensures Progress(Deliver(cr, cap, t, k, Some(Piece(data, k))), data, got + {k})
  {
    hide Piece, Joined, Filled, Contents;
    if t.live {
      var slots := if t.slots[k].Some? then t.slots else t.slots[k := Some(Piece(data, k))];
      assert Holds(slots, data, got + {k});
      HoldsSize(slots, data, got + {k});
      HoldsFilled(slots, data, got + {k});
      if Complete(data, got + {k}) {
        HoldsAll(slots, data, got + {k});
      }
    }
  }

  function Seen(order: seq<nat>): set<nat> {
    set k | k in order
  }

  /**
   Whatever order the chunks of an artifact within the cap arrive in, and however often each, the
   transfer is finalized exactly once, when and only when every chunk has arrived, and what is
   written is the artifact; until then the slots hold exactly the chunks that arrived.
   */
  lemma {:induction false} AnyDeliveryReassembles(cr: Suite, cap: nat, data: Bytes, order: seq<nat>)
    requires |data| <= cap && InRange(data, order)
    ensures Progress(DeliverAll(cr, cap, Offer(cr.hex(cr.hash(data)), ChunkCount(|data|)), data, order), data, Seen(order))
    ensures DeliverAll(cr, cap, Offer(cr.hex(cr.hash(data)), ChunkCount(|data|)), data, order).sum == cr.hex(cr.hash(data))
  {
    hide Piece, Filled, Joined, Deliver;
    var t := Offer(cr.hex(cr.hash(data)), ChunkCount(|data|));
    if order == [] {
      assert 0 !in Seen(order);
    } else {
      var n := |order| - 1;
      AnyDeliveryReassembles(cr, cap, data, order[..n]);
      var before := DeliverAll(cr, cap, t, data, order[..n]);
      DeliverProgress(cr, cap, before, data, Seen(order[..n]), order[n]);
      DeliverKeepsSum(cr, cap, before, order[n], Some(Piece(data, order[n])));
      assert order == order[..n] + [order[n]];
      assert Seen(order) == Seen(order[..n]) + {order[n]};
    }
  }

  lemma DeliverKeepsSum(cr: Suite, cap: nat, t: Transfer, index: int, plain: Option<Bytes>)
    ensures Deliver(cr, cap, t, index, plain).sum == t.sum
  {
  }

  // ---- the whole inbox ----

  /** A buffer is written only with the digest that was offered, and within the cap. */
  predicate Allowed(cr: Suite, cap: nat, sum: Str, e: Ending) {
    e.Written? ==> cr.hex(cr.hash(e.buf)) == sum && |e.buf| <= cap
  }

  /** One delivery to an open transfer, honest or not: it stays open, or ends once, within bounds. */
  lemma DeliverEnds(cr: Suite, cap: nat, t: Transfer, index: int, plain: Option<Bytes>)
    requires t.live && t.endings == []
    ensures var t' := Deliver(cr, cap, t, index, plain);
            && t'.sum == t.sum
            && (t'.live ==> t'.endings == [])
            && (!t'.live ==> |t'.endings| == 1 && Allowed(cr, cap, t.sum, t'.endings[0]))
  {
  }

  datatype Accepted = Accepted(tid: Str, sum: Str)

  datatype Ended = Ended(tid: Str, sum: Str, ending: Ending)

  /**
   recvs, whether the program is still there, and the history of accepted offers, of ends, and of
   transfers a later offer pushed out.
   */
  datatype Inbox = Inbox(recvs: map<Str, Transfer>, running: bool, offers: seq<Accepted>, ended: seq<Ended>, displaced: seq<Str>)

  const EMPTY_INBOX := Inbox(map[], true, [], [], [])

  /** What may arrive: a verified offer whose stated size is within the cap, any chunk, any abort. */
  datatype Arrival =
    | FileOffer(tid: Str, sum: Str, chunks: int)
    | FileChunk(tid: Str, index: int, plain: Option<Bytes>)
    | FileAbort(tid: Str)

  /** The size cap of an artifact, and the largest count make accepts. */
  datatype Limits = Limits(cap: nat, slots: nat)

  /** The chunk count of an offer is not checked, and make panics on one it cannot serve. */
  predicate Panics(l: Limits, a: Arrival) {
    a.FileOffer? && !(0 <= a.chunks <= l.slots)
  }

  function Arrive(cr: Suite, l: Limits, b: Inbox, a: Arrival): Inbox {
    if !b.running then b
    else if Panics(l, a) then b.(running := false)
    else
      match a
      case FileOffer(tid, sum, chunks) =>
        // an offer under an id in use replaces the transfer without a word
        b.(recvs := b.recvs[tid := Offer(sum, chunks)], offers := b.offers + [Accepted(tid, sum)],
           displaced := if tid in b.recvs then b.displaced + [tid] else b.displaced)
      case FileChunk(tid, index, plain) =>
        if tid !in b.recvs then b
        else
          var t := Deliver(cr, l.cap, b.recvs[tid], index, plain);
          if t.live || t.endings == [] then b.(recvs := b.recvs[tid := t])
          else b.(recvs := b.recvs - {tid}, ended := b.ended + [Ended(tid, t.sum, t.endings[0])])
      case FileAbort(tid) =>
        if tid !in b.recvs then b
        else b.(recvs := b.recvs - {tid}, ended := b.ended + [Ended(tid, b.recvs[tid].sum, Aborted)])
  }

  function ArriveAll(cr: Suite, l: Limits, b: Inbox, arrivals: seq<Arrival>): Inbox {
    if arrivals == [] then b
    else
      var n := |arrivals| - 1;
      Arrive(cr, l, ArriveAll(cr, l, b, arrivals[..n]), arrivals[n])
  }

  function OfferIds(xs: seq<Accepted>): seq<Str> {
    seq(|xs|, i requires 0 <= i < |xs| => xs[i].tid)
  }

  function EndedIds(xs: seq<Ended>): seq<Str> {
    seq(|xs|, i requires 0 <= i < |xs| => xs[i].tid)
  }

  /** Every accepted offer is exactly one of: ended, pushed out by a later offer of its id, still open. */
  ghost predicate Balanced(b: Inbox) {
    multiset(OfferIds(b.offers)) == multiset(EndedIds(b.ended)) + multiset(b.displaced) + multiset(b.recvs.Keys)
  }

  ghost predicate InboxOk(cr: Suite, cap: nat, b: Inbox) {
    && Balanced(b)
    && (forall tid :: tid in b.recvs ==>
          b.recvs[tid].live && b.recvs[tid].endings == [] && Accepted(tid, b.recvs[tid].sum) in b.offers)
    && (forall i :: 0 <= i < |b.ended| ==>
          Accepted(b.ended[i].tid, b.ended[i].sum) in b.offers && Allowed(cr, cap, b.ended[i].sum, b.ended[i].ending))
  }

  lemma OfferBalances(b: Inbox, tid: Str, sum: Str, t: Transfer)
    requires Balanced(b)
    ensures Balanced(b.(recvs := b.recvs[tid := t], offers := b.offers + [Accepted(tid, sum)],
                        displaced := if tid in b.recvs then b.displaced + [tid] else b.displaced))
  {
    assert OfferIds(b.offers + [Accepted(tid, sum)]) == OfferIds(b.offers) + [tid];
    assert b.recvs[tid := t].Keys == b.recvs.Keys + {tid};
  }

  lemma EndBalances(b: Inbox, tid: Str, e: Ended)
    requires Balanced(b) && tid in b.recvs && e.tid == tid
    ensures Balanced(b.(recvs := b.recvs - {tid}, ended := b.ended + [e]))
  {
    assert EndedIds(b.ended + [e]) == EndedIds(b.ended) + [tid];
    assert (b.recvs - {tid}).Keys == b.recvs.Keys - {tid};
  }

  lemma SameBalance(b: Inbox, b': Inbox)
    requires Balanced(b) && b'.recvs.Keys == b.recvs.Keys && b'.offers == b.offers && b'.ended == b.ended && b'.displaced == b.displaced
    ensures Balanced(b')
  {
  }

  lemma ArriveKeeps(cr: Suite, l: Limits, b: Inbox, a: Arrival)
    requires InboxOk(cr, l.cap, b)
    ensures InboxOk(cr, l.cap, Arrive(cr, l, b, a))
  {
    hide Deliver, Balanced, Allowed;
    var b' := Arrive(cr, l, b, a);
    if !b.running || Panics(l, a) {
      SameBalance(b, b');
    } else {
      match a
      case FileOffer(tid, sum, chunks) => OfferBalances(b, tid, sum, Offer(sum, chunks));
      case FileChunk(tid, index, plain) =>
        if tid in b.recvs {
          var t := Deliver(cr, l.cap, b.recvs[tid], index, plain);
          DeliverEnds(cr, l.cap, b.recvs[tid], index, plain);
          if t.live {
            SameBalance(b, b');
          } else {
            EndBalances(b, tid, Ended(tid, t.sum, t.endings[0]));
          }
        }
      case FileAbort(tid) =>
        if tid in b.recvs {
          EndBalances(b, tid, Ended(tid, b.recvs[tid].sum, Aborted));
          AbortAllowed(cr, l.cap, b.recvs[tid].sum);
        }
    }
  }

  lemma AbortAllowed(cr: Suite, cap: nat, sum: Str)
    ensures Allowed(cr, cap, sum, Aborted)
  {
  }

  /**
   Whatever arrives, honest or not, in any order, under any ids: the accepted offers of each id are
   exactly those that ended, those a later offer of the same id pushed out and the one still open,
   so an offer ends at most once; and only a buffer with the digest of an accepted offer of that id,
   within the cap, is ever written.
   */
  lemma {:induction false} EndsOnce(cr: Suite, l: Limits, arrivals: seq<Arrival>)
    ensures InboxOk(cr, l.cap, ArriveAll(cr, l, EMPTY_INBOX, arrivals))
  {
    hide Arrive;
    if arrivals != [] {
      var n := |arrivals| - 1;
      EndsOnce(cr, l, arrivals[..n]);
      ArriveKeeps(cr, l, ArriveAll(cr, l, EMPTY_INBOX, arrivals[..n]), arrivals[n]);
    }
  }

  // ---- exactly when no accepted offer is lost, and when the program survives ----

  /** Every accepted offer has ended or is still open. */
  ghost predicate NoneLost(b: Inbox) {
    multiset(OfferIds(b.offers)) == multiset(EndedIds(b.ended)) + multiset(b.recvs.Keys)
  }

  /** No offer is accepted while its id is in use. */
  predicate FreshOffers(cr: Suite, l: Limits, arrivals: seq<Arrival>) {
    arrivals == [] ||
    (var n := |arrivals| - 1;
     var b := ArriveAll(cr, l, EMPTY_INBOX, arrivals[..n]);
     FreshOffers(cr, l, arrivals[..n]) &&
     !(b.running && !Panics(l, arrivals[n]) && arrivals[n].FileOffer? && arrivals[n].tid in b.recvs))
  }

  lemma {:induction false} DisplacedExactly(cr: Suite, l: Limits, arrivals: seq<Arrival>)
    ensures ArriveAll(cr, l, EMPTY_INBOX, arrivals).displaced == [] <==> FreshOffers(cr, l, arrivals)
  {
    hide Deliver;
    if arrivals != [] {
      DisplacedExactly(cr, l, arrivals[..|arrivals| - 1]);
    }
  }

  /** Every accepted offer ends or stays open if and only if none is accepted under an id in use. */
  lemma NoneLostExactly(cr: Suite, l: Limits, arrivals: seq<Arrival>)
    ensures NoneLost(ArriveAll(cr, l, EMPTY_INBOX, arrivals)) <==> FreshOffers(cr, l, arrivals)
  {
    hide ArriveAll, FreshOffers;
    EndsOnce(cr, l, arrivals);
    DisplacedExactly(cr, l, arrivals);
    var b := ArriveAll(cr, l, EMPTY_INBOX, arrivals);
    var rest := multiset(EndedIds(b.ended)) + multiset(b.recvs.Keys);
    assert multiset(OfferIds(b.offers)) == rest + multiset(b.displaced);
    if b.displaced != [] {
      assert b.displaced[0] in multiset(b.displaced);
      assert (rest + multiset(b.displaced))[b.displaced[0]] > rest[b.displaced[0]];
    }
  }

  /** Two offers of one id: both accepted, none ended, one open. */
  lemma SecondOfferDisplaces(cr: Suite, l: Limits, tid: Str, x: Str, y: Str)
    requires l.slots >= 1
    ensures var b := ArriveAll(cr, l, EMPTY_INBOX, [FileOffer(tid, x, 1), FileOffer(tid, y, 1)]);
            |b.offers| == 2 && b.ended == [] && b.recvs.Keys == {tid} && b.recvs[tid].sum == y && !NoneLost(b)
  {
    var arrivals := [FileOffer(tid, x, 1), FileOffer(tid, y, 1)];
    var one := [FileOffer(tid, x, 1)];
    assert arrivals[..1] == one && one[..0] == [];
    assert ArriveAll(cr, l, EMPTY_INBOX, one[..0]) == EMPTY_INBOX;
    assert ArriveAll(cr, l, EMPTY_INBOX, one) == Arrive(cr, l, EMPTY_INBOX, one[0]);
    assert !FreshOffers(cr, l, arrivals);
    NoneLostExactly(cr, l, arrivals);
  }

  /** The program survives exactly the arrivals without an offer whose chunk count make refuses. */
  lemma {:induction false} RunsOnExactly(cr: Suite, l: Limits, arrivals: seq<Arrival>)
    ensures ArriveAll(cr, l, EMPTY_INBOX, arrivals).running <==> forall i :: 0 <= i < |arrivals| ==> !Panics(l, arrivals[i])
  {
    hide Deliver;
    if arrivals != [] {
      var n := |arrivals| - 1;
      RunsOnExactly(cr, l, arrivals[..n]);
      assert arrivals == arrivals[..n] + [arrivals[n]];
    }
  }
}
