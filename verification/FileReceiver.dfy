/** The receiving half of file.go in its own form: chunk and presence arrays filled in place, with running counts. */
module FileReceiver {
  import opened Bytes
  import opened Crypto
  import opened Files

  lemma {:induction false} JoinedSet(ps: seq<Bytes>, i: nat, p: Bytes)
    requires i < |ps| && ps[i] == []
    ensures |Joined(ps[i := p])| == |Joined(ps)| + |p|
  {
    var n := |ps| - 1;
    var next := ps[i := p];
    if i < n {
      JoinedSet(ps[..n], i, p);
      assert next[..n] == ps[..n][i := p];
    } else {
      assert next[..n] == ps[..n];
    }
  }

  lemma SizeSet(slots: seq<Option<Bytes>>, i: nat, p: Bytes)
    requires i < |slots| && slots[i].None?
    ensures Size(slots[i := Some(p)]) == Size(slots) + |p|
  {
    hide Joined;
    JoinedSet(Contents(slots), i, p);
    assert Contents(slots[i := Some(p)]) == Contents(slots)[i := p];
  }

  function SlotsOf(chunks: seq<Bytes>, have: seq<bool>): (s: seq<Option<Bytes>>)
    requires |chunks| == |have|
    ensures |s| == |chunks|
    ensures forall i :: 0 <= i < |s| ==> s[i] == if have[i] then Some(chunks[i]) else None
  {
    seq(|chunks|, i requires 0 <= i < |chunks| => if have[i] then Some(chunks[i]) else None)
  }

  class Receiver {
    const cr: Suite
    const cap: nat
    const sum: Str
    const chunks: array<Bytes>
    const have: array<bool>

    var live: bool     // still in c.recvs
    var received: nat
    var bytes: nat
    ghost var acks: seq<nat>
    ghost var endings: seq<Ending>

    ghost function Slots(): (s: seq<Option<Bytes>>)
      reads chunks, have
      requires chunks.Length == have.Length
      ensures |s| == chunks.Length
      ensures forall i :: 0 <= i < |s| ==> s[i] == if have[i] then Some(chunks[i]) else None
    {
      SlotsOf(chunks[..], have[..])
    }

    ghost function View(): Transfer
      reads this, chunks, have
      requires chunks.Length == have.Length
    {
      Transfer(sum, Slots(), live, acks, endings)
    }

    /** received counts the filled slots and bytes is their total size. */
    ghost predicate Valid()
      reads this, chunks, have
    {
      && chunks.Length == have.Length
      && received == Filled(Slots())
      && bytes == Size(Slots())
    }

    constructor (cr: Suite, cap: nat, sum: Str, total: nat)
      ensures Valid() && View() == Offer(sum, total) && this.cr == cr && this.cap == cap
      ensures fresh(chunks) && fresh(have)
    {
      this.cr, this.cap, this.sum := cr, cap, sum;
      chunks := new Bytes[total](_ => []);
      have := new bool[total](_ => false);
      live, received, bytes, acks, endings := true, 0, 0, [], [];
      new;
      assert Slots() == seq(total, _ => None);
      NothingFilled(total);
    }

    /** onFileChunk: exactly the delivery the reassembly theorem is about. */
    method OnFileChunk(index: int, plain: Option<Bytes>)
      requires Valid()
      modifies this, chunks, have
      ensures Valid() && View() == Deliver(cr, cap, old(View()), index, plain)
    {
      hide Filled, Joined, Contents;
      if !live || index < 0 || index >= chunks.Length {
        return;
      }
      if plain.None? {
        live, endings := false, endings + [Aborted];
        return;
      }
      Fill(index, plain.value);
      if bytes > cap {
        live, endings := false, endings + [Aborted];
        return;
      }
      if received % ACK_EVERY == 0 || received == chunks.Length {
        acks := acks + [received];
      }
      if received == chunks.Length {
        FinalizeRecv();
      }
    }

    method Fill(index: nat, p: Bytes)
      requires Valid() && index < chunks.Length
      modifies `received, `bytes, chunks, have
      ensures Valid()
      ensures Slots() == if old(Slots())[index].Some? then old(Slots()) else old(Slots())[index := Some(p)]
    {
      hide Filled, Size;
      if !have[index] {
        FilledSet(Slots(), index, p);
        SizeSet(Slots(), index, p);
        chunks[index] := p;
        have[index] := true;
        received := received + 1;
        bytes := bytes + |p|;
        assert Slots() == old(Slots())[index := Some(p)];
      }
    }

    /** finalizeRecv: a digest mismatch writes nothing. */
    method FinalizeRecv()
      requires Valid() && live && received == chunks.Length
      modifies `live, `endings
      ensures Valid() && !live
      ensures var buf := Joined(Contents(Slots()));
              endings == old(endings) + [if cr.hex(cr.hash(buf)) == sum then Written(buf) else Corrupt]
    {
      live := false;
      ghost var all := Contents(Slots());
      var buf: Bytes := [];
      for i := 0 to chunks.Length
        invariant buf == Joined(all[..i])
      {
        assert Slots()[i].Some? && all[i] == chunks[i];
        buf := buf + chunks[i];
        assert all[..i + 1][..i] == all[..i];
      }
      assert all[..chunks.Length] == all;
      if cr.hex(cr.hash(buf)) != sum {
        endings := endings + [Corrupt];
        return;
      }
      endings := endings + [Written(buf)];
    }
  }
}
