/** receipt.go in its own form: the round, the latch, and the receipt a client writes alone. */
module ReceiptClient {
  import opened Bytes
  import opened Framing
  import opened Crypto
  import opened Cosigning
  import opened Receipts

  class Scuttler {
    const cr: Suite
    const js: Json
    const cfg: Config

    var facts: Facts
    var pending: Option<Pending>  // receiptRound, receiptCore, receiptHash
    var done: bool                // receiptDone
    ghost var issued: seq<Receipt>

    ghost function View(): Client
      reads this
    {
      Client(facts, pending, done, issued)
    }

    method ReceiptCore(reason: Str, at: Str) returns (core: Core)
      ensures core == CoreOf(cr, cfg, View(), reason, at)
      ensures core.room == cfg.room && core.first == facts.first && core.last == facts.last && core.reason == reason
      ensures core.scuttledAt == at && core.scuttledBy == cr.fingerprint(cfg.key) && core.keysZeroized
      ensures Sorted(core.memberFprs) && multiset(core.memberFprs) == multiset(facts.fprs)
    {
      core := Core(ReceiptVersion(), cfg.room, facts.first, facts.last, reason, at, cr.fingerprint(cfg.key), Sort(facts.fprs), true);
    }

    method StartReceiptRound(reason: Str, at: Str) returns (started: bool)
      modifies `pending
      ensures started == (facts.ready && !done && old(pending).None?)
      ensures View() == Apply(cr, js, cfg, old(View()), Start(reason, at))
    {
      hide HashOf, ReceiptBytes;
      if !facts.ready || done || pending.Some? {
        return false;
      }
      var core := ReceiptCore(reason, at);
      var h := HashOf(cr, js, core);
      var preimage := ReceiptBytes(h);
      var f := cr.fingerprint(cfg.key);
      pending := Some(Pending(core, h, Round(preimage, map[f := cr.sign(cfg.key, preimage)], map[f := cfg.key])));
      return true;
    }

    /** writeSelfReceiptIfNeeded: the latch stops a second one, an open round does not. */
    method WriteSelfReceipt(reason: Str, at: Str) returns (r: Option<Receipt>)
      modifies `done, `issued
      ensures r.Some? <==> !old(done) && facts.ready
      ensures r.Some? ==> issued == old(issued) + [r.value]
      ensures View() == Apply(cr, js, cfg, old(View()), WriteSelf(reason, at))
    {
      hide HashOf, ReceiptBytes;
      if done || !facts.ready {
        return None;
      }
      var core := ReceiptCore(reason, at);
      done := true;
      var sig := cr.sign(cfg.key, ReceiptBytes(HashOf(cr, js, core)));
      var f := cr.fingerprint(cfg.key);
      var out := NewReceipt(cr, js, core, Round([], map[f := sig], map[f := cfg.key]));
      issued := issued + [out];
      return Some(out);
    }

    /** onScuttleReceiptAck. */
    method OnReceiptAck(hash: Bytes, c: Cosig) returns (counted: bool)
      modifies `pending
      ensures counted == (old(pending).Some? && old(pending).value.hash == hash && Good(cr, old(pending).value.round.preimage, c))
      ensures View() == Apply(cr, js, cfg, old(View()), Acknowledge(hash, c))
    {
      if pending.None? || hash != pending.value.hash {
        return false;
      }
      var r := pending.value.round;
      if |c.pub| != KEY_SIZE || !cr.verify(c.pub, r.preimage, c.sig) {
        return false;
      }
      var f := cr.fingerprint(c.pub);
      pending := Some(pending.value.(round := Round(r.preimage, r.sigs[f := c.sig], r.keys[f := c.pub])));
      return true;
    }

    method FinalizeReceipt() returns (r: Option<Receipt>)
      modifies `pending, `done, `issued
      ensures r.Some? <==> old(pending).Some?
      ensures r.Some? ==> issued == old(issued) + [r.value]
      ensures View() == Apply(cr, js, cfg, old(View()), Finalize)
    {
      hide NewReceipt;
      if pending.None? {
        return None;
      }
      var out := NewReceipt(cr, js, pending.value.core, pending.value.round);
      pending, done, issued := None, true, issued + [out];
      return Some(out);
    }

    method ClearReceipt()
      modifies `pending
      ensures View() == Apply(cr, js, cfg, old(View()), Clear) && pending.None? && done == old(done) && issued == old(issued)
    {
      pending := None;
    }
  }
}
