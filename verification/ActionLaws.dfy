/**
 The Two-Person Rule as its users see it: what a gated call does at each number the policy can give,
 what a veto, an expiry or a vanish takes away for good, and what a release lets through.
 */
module ActionLaws {
  import opened Bytes
  import opened Crypto
  import opened Statements
  import opened Actions
  import opened ActionProofs
  import opened ActionRuns

  // ---- the gate's answer ----

  /** p went through: its frame is queued, or it is the burn a receipt round now holds. */
  predicate Fires(s: Client, s': Client, p: Perform, cause: Cause, signs: bool) {
    if p.ScuttleNow? && s.ready && !s.receiptDone && s.burn.None? && signs
    then s'.burn == Some(cause) && s'.emitted == s.emitted
    else s'.burn == s.burn && s'.emitted == s.emitted + [Emission(p, cause)]
  }

  /** Nothing went through. */
  predicate Holds(s: Client, s': Client) {
    s'.emitted == s.emitted && s'.burn == s.burn && s'.due == s.due && s'.performed == s.performed
  }

  /**
   A gated call, at the number q its own name has in the policy, or 1 without one. At 0 nothing
   happens. At 1 or less the primitive runs on the caller's word alone. From 2 on nothing is queued
   or held by the call itself; over a relay with a key it opens a request of its own that asks for q
   endorsers and has none, and otherwise it changes nothing.
   */
  lemma GateAnswers(cr: Suite, cfg: Config, s: Client, p: Perform, id: Wire, nonce: Wire, signs: bool)
    requires !p.Callback?
    ensures var name := if p.BreakGlass? then Ascii("break_glass") else Ascii("scuttle");
            var q := if name in cfg.policy then cfg.policy[name] else 1;
            var s' := Apply(cr, cfg, s, GateCall(p, id, nonce, signs));
            && (q == 0 ==> s' == s)
            && (q != 0 && q <= 1 ==> Fires(s, s', p, SingleActor, signs) && s'.actions == s.actions)
            && (q >= 2 ==> Holds(s, s'))
            && (q >= 2 && !(cfg.relay && s.ready) ==> s' == s)
            && (q >= 2 && cfg.relay && s.ready ==>
                  && s'.actions.Keys == s.actions.Keys + {id}
                  && (forall x :: x in s.actions && x != id ==> s'.actions[x] == s.actions[x])
                  && var ta := s'.actions[id];
                     && ta.req.id == id && ta.req.nonce == nonce && ta.req.quorum == q && ta.req.room == cfg.room
                     && ta.req.action == name && ta.req.requester == cr.fingerprint(cfg.key)
                     && ta.req.params == ParamsText(cr, cfg.room, p) && ta.req.paramsHash == cr.hex(cr.hash(ta.req.params))
                     && ta.approvers == {} && ta.initiator && ta.onApprove == Some(p))
  {
    hide ParamsText, Run, Register;
    RunFires(s, p, SingleActor, signs);
    RegisterOpens(cr, cfg, s, ActionName(p), ParamsText(cr, cfg.room, p), QuorumFor(cfg, ActionName(p)), id, nonce, p);
  }

  lemma RunFires(s: Client, p: Perform, cause: Cause, signs: bool)
    requires !p.Callback?
    ensures Fires(s, Run(s, p, cause, signs), p, cause, signs) && Run(s, p, cause, signs).actions == s.actions
  {
  }

  lemma RegisterOpens(cr: Suite, cfg: Config, s: Client, action: Str, params: Str, quorum: int, id: Wire, nonce: Wire, p: Perform)
    ensures var s' := Register(cr, cfg, s, action, params, quorum, id, nonce, p);
            && Holds(s, s')
            && (!s.ready ==> s' == s)
            && (quorum >= 2 && s.ready ==>
                  && s'.actions.Keys == s.actions.Keys + {id}
                  && (forall x :: x in s.actions && x != id ==> s'.actions[x] == s.actions[x])
                  && s'.actions[id] == Tracked(Request(id, action, cr.hex(cr.hash(params)), params, cr.fingerprint(cfg.key), cfg.room, quorum, nonce),
                                               {}, false, true, Some(p)))
  {
  }

  /** A due callback that is called goes through, once: it is due no more, and it is on record. */
  lemma ReleaseFires(cr: Suite, cfg: Config, s: Client, e: Emission, signs: bool)
    requires e in s.due
    ensures var s' := Apply(cr, cfg, s, CallBack(e, signs));
            && s'.due == s.due - {e} && s'.performed == s.performed + [e.cause] && s'.actions == s.actions
            && (if e.perform.Callback? then s'.emitted == s.emitted && s'.burn == s.burn
                else Fires(s, s', e.perform, e.cause, signs))
  {
  }

  /** The burn a receipt round held is queued when the round is finalized, and not again. */
  lemma HeldBurnFires(cr: Suite, cfg: Config, s: Client)
    ensures var s' := Apply(cr, cfg, s, ReceiptDone);
            && (s.burn.None? ==> s' == s)
            && (s.burn.Some? ==>
                  s'.emitted == s.emitted + [Emission(ScuttleNow, s.burn.value)] && s'.burn.None? && s'.receiptDone)
  {
  }

  /** Once our own approval is on record, the same request is not signed again. */
  lemma MarkedSignsNoMore(cr: Suite, cfg: Config, s: Client, req: Request, meaning: Wire, at: Wire)
    requires req in s.toCount && req.id in s.actions
    ensures var s' := Apply(cr, cfg, s, MarkOwn(req));
            && req.id in s'.actions && s'.actions[req.id] == s.actions[req.id].(approved := true)
            && NewlySigned(cr, cfg, s', SignApproval(req.id, meaning, at)) == {}
            && Apply(cr, cfg, s', SignApproval(req.id, meaning, at)) == s'
  {
    hide ApprovalPreimage, ParamsHash;
  }

  // ---- a valid approval counts, and nothing else does ----

  /** What an approver's key must have signed: the request's id, hash and nonce, bare or with a declared meaning. */
  function Signable(req: Request, a: Approval): Bytes {
    if a.meaning == [] then Encode(ActionApproval(req.id, req.paramsHash, a.approver, req.nonce))
    else Encode(ActionApprovalV2(req.id, req.paramsHash, a.approver, req.nonce, a.meaning, a.name, a.signedAt))
  }

  /** An approval passes exactly when it names a tracked request and its hash, is by its sender, and verifies over that request. */
  lemma CheckPassesExactly(cr: Suite, cfg: Config, s: Client, pub: Bytes, a: Approval)
    ensures var s' := Apply(cr, cfg, s, CheckApproval(pub, a));
            && s' == s.(checked := s'.checked)
            && (s'.checked.Some? <==>
                  && a.id in s.actions && a.paramsHash == s.actions[a.id].req.paramsHash && a.approver == cr.fingerprint(pub)
                  && |pub| == KEY_SIZE && cr.verify(pub, Signable(s.actions[a.id].req, a), a.sig))
            && (s'.checked.Some? ==> s'.checked.value == Checked(s.actions[a.id].req, a.approver))
  {
    hide Encode;
  }

  /** f is counted for id: one more approver, or the last one needed, which resolves the request and makes its callback due. */
  predicate Counts(s: Client, s': Client, id: Str, f: Str)
    requires id in s.actions
  {
    var ta := s.actions[id];
    if |ta.approvers + {f}| < ta.req.quorum - 1
    then s'.actions == s.actions[id := ta.(approvers := ta.approvers + {f})] && s'.due == s.due
    else s'.actions == s.actions - {id}
         && s'.due == if ta.onApprove.None? then s.due
                      else s.due + {Emission(ta.onApprove.value, Approved(ta.req, ta.approvers + {f}))}
  }

  /**
   A valid approval of a tracked request, by somebody who is not its requester and not counted yet,
   is counted when its two critical sections have run; one by the requester or a repeated one changes
   nothing but the slot between them.
   */
  lemma ApprovalCounts(cr: Suite, cfg: Config, log: SignedLog, s: Client, pub: Bytes, a: Approval)
    requires ClientInv(cr, cfg, log, s)
    requires a.id in s.actions && a.paramsHash == s.actions[a.id].req.paramsHash && a.approver == cr.fingerprint(pub)
    requires |pub| == KEY_SIZE && cr.verify(pub, Signable(s.actions[a.id].req, a), a.sig)
    ensures var s' := Apply(cr, cfg, Apply(cr, cfg, s, CheckApproval(pub, a)), CountChecked);
            var ta := s.actions[a.id];
            if a.approver == ta.req.requester || a.approver in ta.approvers then s' == s.(checked := None)
            else Counts(s, s', a.id, a.approver)
  {
    hide CheckedOk, ConsentOk, Authorized, Endorsed, OwnOk, HistoryOk, Signable, PassesChecks, ApprovalPreimage;
    CheckPassesExactly(cr, cfg, s, pub, a);
    assert TrackedOk(cr, cfg, log, s, a.id);
  }

  // ---- veto, expiry, failed send and vanish ----

  /** A dropped request leaves the map; every other one is untouched, and nothing goes through. */
  lemma DropTakesOut(cr: Suite, cfg: Config, s: Client, id: Str)
    ensures var s' := Apply(cr, cfg, s, DropRequest(id));
            && s'.actions.Keys == s.actions.Keys - {id}
            && (forall x :: x in s'.actions ==> s'.actions[x] == s.actions[x])
            && Holds(s, s')
    ensures Apply(cr, cfg, s, VanishRoom).actions == map[] && Apply(cr, cfg, s, VanishRoom).burn.None?
  {
  }

  /** id was used here, is no request of ours waiting for approvals, and no callback of its is due or was called. */
  ghost predicate Gone(s: Client, id: Str) {
    && id in s.seen
    && !(id in s.actions && s.actions[id].initiator)
    && (forall e :: e in s.due ==> e.cause.Approved? && e.cause.req.id != id)
    && (forall i :: 0 <= i < |s.performed| ==> s.performed[i].Approved? && s.performed[i].req.id != id)
  }

  lemma DroppedIsGone(cr: Suite, cfg: Config, log: SignedLog, s: Client, step: Step, id: Str)
    requires ClientInv(cr, cfg, log, s) && id in s.actions && s.actions[id].initiator
    requires step == DropRequest(id) || step == VanishRoom
    ensures Gone(Apply(cr, cfg, s, step), id)
  {
    hide CheckedOk, ConsentOk, Authorized, Endorsed, OwnOk;
    assert TrackedOk(cr, cfg, log, s, id) && Waiting(s, id);
    forall e | e in s.due
      ensures e.cause.Approved? && e.cause.req.id != id
    {
      assert DueOk(s, e);
    }
  }

  /** What counting can change, as far as this goes: at most one callback becomes due, of the request counted. */
  lemma CountChanges(s: Client, x: Str, f: Str)
    ensures var s' := Count(s, x, f);
            && s'.seen == s.seen && s'.performed == s.performed
            && (forall y :: y in s'.actions ==> y in s.actions && s'.actions[y].initiator == s.actions[y].initiator)
            && (s'.due == s.due
                || (x in s.actions && s.actions[x].onApprove.Some?
                    && s'.due == s.due + {Emission(s.actions[x].onApprove.value, Approved(s.actions[x].req, s.actions[x].approvers + {f}))}))
  {
  }

  lemma CountStaysGone(cr: Suite, cfg: Config, log: SignedLog, s: Client, x: Str, f: Str, id: Str)
    requires ClientInv(cr, cfg, log, s) && Gone(s, id)
    ensures Gone(Count(s, x, f), id)
  {
    hide CheckedOk, ConsentOk, Authorized, Endorsed, OwnOk, HistoryOk, Count;
    CountChanges(s, x, f);
    if x in s.actions {
      assert TrackedOk(cr, cfg, log, s, x);
    }
  }

  /** Running a primitive touches neither the requests nor the callbacks. */
  lemma RunChanges(s: Client, p: Perform, cause: Cause, signs: bool)
    ensures var s' := Run(s, p, cause, signs);
            s'.seen == s.seen && s'.actions == s.actions && s'.due == s.due && s'.performed == s.performed
  {
  }

  lemma RegisterChanges(cr: Suite, cfg: Config, s: Client, action: Str, params: Str, quorum: int, id: Wire, nonce: Wire, p: Perform)
    ensures var s' := Register(cr, cfg, s, action, params, quorum, id, nonce, p);
            && s.seen <= s'.seen && s'.due == s.due && s'.performed == s.performed
            && forall y :: y in s'.actions && y != id ==> y in s.actions && s'.actions[y] == s.actions[y]
  {
  }

  lemma StepStaysGone(cr: Suite, cfg: Config, log: SignedLog, s: Client, step: Step, id: Str)
    requires ClientInv(cr, cfg, log, s) && Enabled(cr, s, log, step) && Gone(s, id)
    ensures Gone(Apply(cr, cfg, s, step), id)
  {
    hide ClientInv, Count, Register, Run, ApprovalPreimage, ParamsText, ParamsHash, PassesChecks, MaySign, QuorumFor, ActionName, Unforged;
    match step
    case GateCall(p, x, nonce, signs) =>
      RunChanges(s, p, SingleActor, signs);
      RegisterChanges(cr, cfg, s, ActionName(p), ParamsText(cr, cfg.room, p), QuorumFor(cfg, ActionName(p)), x, nonce, p);
    case OtherRequest(action, params, quorum, x, nonce, n) =>
      RegisterChanges(cr, cfg, s, action, params, quorum, x, nonce, Callback(n));
    case CallBack(e, signs) =>
      RunChanges(s.(due := s.due - {e}, performed := s.performed + [e.cause]), e.perform, e.cause, signs);
    case CountChecked =>
      if s.checked.Some? {
        CountStaysGone(cr, cfg, log, s, s.checked.value.req.id, s.checked.value.approver, id);
      }
    case CountOwn(req) => CountStaysGone(cr, cfg, log, s, req.id, SelfFpr(cr, cfg), id);
    case _ =>
  }

  lemma {:induction false} RunStaysGone(cr: Suite, cfgs: map<Bytes, Config>, w: World, steps: seq<WorldStep>, end: World, k: Bytes, id: Str)
    requires WorldInv(cr, cfgs, w) && IsRun(cr, cfgs, w, steps, end) && k in w.clients && Gone(w.clients[k], id)
    ensures k in end.clients && Gone(end.clients[k], id)
    decreases |steps|
  {
    hide Gone, Apply, Enabled, NotApproval, NewlySigned, ClientInv;
    if steps != [] {
      WorldStepKeeps(cr, cfgs, w, steps[0]);
      if steps[0].Local? && steps[0].key == k {
        StepStaysGone(cr, cfgs[k], w.log, w.clients[k], steps[0].step, id);
      }
      RunStaysGone(cr, cfgs, WorldApply(cr, cfgs, w, steps[0]), steps[1..], end, k, id);
    }
  }

  /**
   A request that was vetoed, expired, failed to send or was vanished never fires. In every run, once
   a client drops an own request that is still waiting, by name or with everything else, no later
   state of that client has it waiting, due or performed, whatever approvals are counted afterwards
   and whatever frames arrive under the same id.
   */
  lemma DroppedNeverFires(cr: Suite, cfgs: map<Bytes, Config>, w: World, before: seq<WorldStep>, mid: World,
                          k: Bytes, step: Step, after: seq<WorldStep>, end: World, id: Str)
    requires Configured(cfgs, w) && Initial(w) && IsRun(cr, cfgs, w, before, mid)
    requires k in mid.clients && id in mid.clients[k].actions && mid.clients[k].actions[id].initiator
    requires step == DropRequest(id) || step == VanishRoom
    requires cfgs.Keys == mid.clients.Keys && IsRun(cr, cfgs, WorldApply(cr, cfgs, mid, Local(k, step)), after, end)
    ensures k in end.clients && Gone(end.clients[k], id)
  {
    hide IsRun, ClientInv, Gone, Apply;
    InitialInv(cr, cfgs, w);
    RunKeepsInv(cr, cfgs, w, before, mid);
    WorldStepKeeps(cr, cfgs, mid, Local(k, step));
    DroppedIsGone(cr, cfgs[k], mid.log, mid.clients[k], step, id);
    RunStaysGone(cr, cfgs, WorldApply(cr, cfgs, mid, Local(k, step)), after, end, k, id);
  }
}
