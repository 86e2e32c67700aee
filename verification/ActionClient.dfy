/**
 tui/client/action.go in its own form: an object whose methods change the tracked requests. Each
 method is one critical section, and is proved to make exactly the transition the runs are made of.
 */
module ActionClient {
  import opened Bytes
  import opened Crypto
  import opened Actions

  datatype GateOutcome = Disabled | Performed | RelayRequired | Requested | NotReady

  class Gatekeeper {
    const cr: Suite
    const cfg: Config

    var actions: map<Str, Tracked>
    var ready: bool
    var receiptDone: bool
    var receiptOnDone: Option<Cause>
    var queued: seq<Emission>

    ghost var checked: Option<Checked>
    ghost var toCount: set<Request>
    ghost var due: set<Emission>
    ghost var performed: seq<Cause>
    ghost var seen: set<Str>
    ghost var own: set<Str>
    ghost var closed: set<Str>
    ghost var consents: set<(Request, Bytes)>

    ghost function View(): (s: Client)
      reads this
    {
      Client(actions, ready, receiptDone, receiptOnDone, checked, toCount, due, seen, own, closed, performed, queued, consents)
    }

    constructor (cr: Suite, cfg: Config)
      ensures this.cr == cr && this.cfg == cfg && View() == FRESH_CLIENT
    {
      this.cr, this.cfg := cr, cfg;
      actions, ready, receiptDone, receiptOnDone, queued := map[], false, false, None, [];
      checked, toCount, due, seen, own, closed, performed, consents := None, {}, {}, {}, {}, {}, [], {};
    }

    /** scuttleBurn, armCountdown, breakGlassSend, or the caller's callback. */
    method Fire(p: Perform, cause: Cause, signs: bool)
      modifies this
      ensures View() == Run(old(View()), p, cause, signs)
    {
      match p {
        case ScuttleNow =>
          var started := StartReceiptRound(cause, signs);
          if !started {
            queued := queued + [Emission(p, cause)];
          }
        case Callback(_) =>
        case _ =>
          queued := queued + [Emission(p, cause)];
      }
    }

    /** startReceiptRound, as far as the gate depends on it. */
    method StartReceiptRound(onDone: Cause, signs: bool) returns (started: bool)
      modifies this
      ensures started == (ready && !old(receiptDone) && old(receiptOnDone).None? && signs)
      ensures View() == if started then old(View()).(burn := Some(onDone)) else old(View())
    {
      if !ready || receiptDone || receiptOnDone.Some? || !signs {
        return false;
      }
      receiptOnDone := Some(onDone);
      return true;
    }

    method GateAction(p: Perform, id: Wire, nonce: Wire, signs: bool) returns (outcome: GateOutcome)
      modifies this
      ensures View() == Gate(cr, cfg, old(View()), p, id, nonce, signs)
      ensures !p.Callback? ==>
        var name := if p.BreakGlass? then Ascii("break_glass") else Ascii("scuttle");
        var q := if name in cfg.policy then cfg.policy[name] else 1;
        && (outcome.Disabled? <==> q == 0)
        && (outcome.Performed? <==> q != 0 && q <= 1)
        && (outcome.RelayRequired? <==> q >= 2 && !cfg.relay)
        && (outcome.Requested? <==> q >= 2 && cfg.relay && old(ready))
        && (!outcome.Performed? ==> queued == old(queued) && receiptOnDone == old(receiptOnDone))
        && (outcome.Requested? ==> id in actions && actions[id].req.quorum == q && actions[id].onApprove == Some(p))
        && (!outcome.Requested? ==> actions == old(actions))
    {
      var q := QuorumFor(cfg, ActionName(p));
      if q == 0 {
        return Disabled;
      }
      if q <= 1 {
        Fire(p, SingleActor, signs);
        return Performed;
      }
      if !cfg.relay {
        return RelayRequired;
      }
      var ok := RequestAction(ActionName(p), ParamsText(cr, cfg.room, p), q, id, nonce, p);
      return if ok then Requested else NotReady;
    }

    method RequestAction(action: Str, params: Str, quorum: int, id: Wire, nonce: Wire, onApprove: Perform) returns (ok: bool)
      modifies this
      ensures ok <==> quorum >= 2 && ready
      ensures ready == old(ready)
      ensures View() == Register(cr, cfg, old(View()), action, params, quorum, id, nonce, onApprove)
    {
      if quorum < 2 {
        return false;
      }
      if !ready {
        return false;
      }
      var req := Request(id, action, ParamsHash(cr, params), params, SelfFpr(cr, cfg), cfg.room, quorum, nonce);
      actions := actions[id := Tracked(req, {}, false, true, Some(onApprove))];
      seen, own := seen + {id}, own + {id};
      return true;
    }

    method OnActionRequest(senderFpr: Str, body: Request, expired: bool)
      modifies this
      ensures View() == Receive(old(View()), senderFpr, body, expired)
      ensures body.id !in old(actions) ==>
        (body.id in actions <==> body.id != [] && body.quorum >= 1 && body.requester == senderFpr && !expired)
      ensures body.id !in old(actions) && body.id in actions ==> actions[body.id] == Tracked(body, {}, false, false, None)
      ensures forall x :: x in old(actions) ==> x in actions && actions[x] == old(actions)[x]
    {
      if body.id == [] || body.quorum < 1 {
        return;
      }
      if body.requester != senderFpr {
        return;
      }
      if expired {
        return;
      }
      if body.id in actions {
        return;
      }
      actions := actions[body.id := Tracked(body, {}, false, false, None)];
      seen := seen + {body.id};
    }

    /** onActionApproval before it re-locks: the request it returns is a snapshot. */
    method VerifyApproval(senderPub: Bytes, body: Approval) returns (passed: Option<Checked>)
      modifies this
      ensures View() == Check(cr, old(View()), senderPub, body) && passed == checked
      ensures passed.Some? ==>
        && body.id in actions && passed.value.req == actions[body.id].req
        && passed.value.approver == body.approver == cr.fingerprint(senderPub)
        && body.paramsHash == passed.value.req.paramsHash
    {
      checked := None;
      if body.id !in actions {
        return None;
      }
      var req := actions[body.id].req;
      if body.paramsHash != req.paramsHash {
        return None;
      }
      var signer := cr.fingerprint(senderPub);
      if body.approver != signer {
        return None;
      }
      var preimage := ApprovalPreimage(req, body.approver, body.meaning, body.name, body.signedAt);
      if |senderPub| != KEY_SIZE || !cr.verify(senderPub, preimage, body.sig) {
        return None;
      }
      passed := Some(Checked(req, signer));
      checked := passed;
    }

    /** trackedAction.addApprover on the entry for id. */
    method AddApprover(id: Str, fpr: Str) returns (added: bool)
      requires id in actions
      modifies this`actions
      ensures added == (fpr != old(actions)[id].req.requester && fpr !in old(actions)[id].approvers)
      ensures actions == if added
                         then old(actions)[id := old(actions)[id].(approvers := old(actions)[id].approvers + {fpr})]
                         else old(actions)
    {
      var ta := actions[id];
      if fpr == ta.req.requester || fpr in ta.approvers {
        return false;
      }
      actions := actions[id := ta.(approvers := ta.approvers + {fpr})];
      return true;
    }

    /** countApproval under its lock: fires is the callback it calls once it has let go. */
    method CountApproval(id: Str, approver: Str) returns (fires: Option<Emission>)
      modifies this
      ensures View() == Count(old(View()), id, approver)
      ensures due == if fires.Some? then old(due) + {fires.value} else old(due)
    {
      fires := None;
      if id !in actions {
        return;
      }
      var added := AddApprover(id, approver);
      if !added {
        return;
      }
      var ta := actions[id];
      if 1 + |ta.approvers| < ta.req.quorum {
        return;
      }
      actions := actions - {id};
      assert actions == old(actions) - {id};
      if ta.onApprove.Some? {
        fires := Some(Emission(ta.onApprove.value, Approved(ta.req, ta.approvers)));
      }
      due := if fires.Some? then due + {fires.value} else due;
    }

    /** countApproval after its unlock. */
    method CallBack(e: Emission, signs: bool)
      requires e in due
      modifies this
      ensures View() == Release(old(View()), e, signs)
    {
      due, performed := due - {e}, performed + [e.cause];
      Fire(e.perform, e.cause, signs);
    }

    /** VetoAction, onActionVeto, expireAction, and RequestAction's failed send. */
    method Discard(id: Str) returns (found: bool)
      modifies this
      ensures found == (id in old(actions))
      ensures View() == Drop(old(View()), id)
      ensures id !in actions
      ensures forall x :: x != id ==> (x in actions <==> x in old(actions))
      ensures forall x :: x in actions ==> x in old(actions) && actions[x] == old(actions)[x]
    {
      if id !in actions {
        return false;
      }
      if actions[id].initiator {
        closed := closed + {id};
      }
      actions := actions - {id};
      return true;
    }

    /** ApproveActionAs up to the broadcast: the preimage signed, if every refusal was passed. */
    method SignApproval(id: Str, meaning: Wire, signedAt: Wire) returns (signed: Option<Bytes>)
      modifies this
      ensures View() == Sign(cr, cfg, old(View()), id, meaning, signedAt)
      ensures signed.Some? <==> && id in actions && ready && !actions[id].approved
                                && actions[id].req.requester != cr.fingerprint(cfg.key)
                                && cr.hex(cr.hash(actions[id].req.params)) == actions[id].req.paramsHash
      ensures (if signed.Some? then {(cfg.key, signed.value)} else {})
              == NewlySigned(cr, cfg, old(View()), Step.SignApproval(id, meaning, signedAt))
    {
      if id !in actions {
        return None;
      }
      var ta := actions[id];
      if ta.req.requester == SelfFpr(cr, cfg) {
        return None;
      }
      if ta.approved {
        return None;
      }
      if ParamsHash(cr, ta.req.params) != ta.req.paramsHash {
        return None;
      }
      if !ready {
        return None;
      }
      var preimage := ApprovalPreimage(ta.req, SelfFpr(cr, cfg), meaning, cfg.name, signedAt);
      toCount := toCount + {ta.req};
      consents := consents + {(ta.req, preimage)};
      return Some(preimage);
    }

    method FinalizeReceipt()
      modifies this
      ensures View() == Actions.FinalizeReceipt(old(View()))
    {
      if receiptOnDone.None? {
        return;
      }
      var cause := receiptOnDone.value;
      receiptOnDone, receiptDone := None, true;
      queued := queued + [Emission(ScuttleNow, cause)];
    }

    /** clearActionsLocked and clearReceiptLocked, as /vanish and a scuttle call them. */
    method Clear()
      modifies this
      ensures View() == Vanish(old(View())) && actions == map[] && receiptOnDone.None?
    {
      closed := closed + (set id | id in actions && actions[id].initiator);
      actions, receiptOnDone := map[], None;
    }
  }
}
