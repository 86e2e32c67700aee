/** What every step of the Two-Person Rule keeps, and what follows for whole runs. */
module ActionProofs {
  import opened Bytes
  import opened Crypto
  import opened Statements
  import opened Actions

  // ---- the invariant of one client ----

  ghost predicate OwnOk(cr: Suite, cfg: Config, log: SignedLog, ta: Tracked) {
    && ta.onApprove.Some?
    && ta.req.requester == SelfFpr(cr, cfg)
    && ta.req.quorum >= 2
    && ta.req.paramsHash == ParamsHash(cr, ta.req.params)
    && (forall f :: f in ta.approvers ==> Endorsed(cr, log, ta.req, f))
    && (!ta.onApprove.value.Callback? ==>
          && cfg.relay
          && ta.req.quorum == QuorumFor(cfg, ActionName(ta.onApprove.value))
          && ta.req.params == ParamsText(cr, cfg.room, ta.onApprove.value))
  }

  ghost predicate TrackedOk(cr: Suite, cfg: Config, log: SignedLog, s: Client, id: Str)
    requires id in s.actions
  {
    var ta := s.actions[id];
    && ta.req.id == id && id in s.seen
    && ta.req.requester !in ta.approvers
    && (ta.approvers == {} || 1 + |ta.approvers| < ta.req.quorum)
    && (if ta.initiator then id in s.own && OwnOk(cr, cfg, log, ta) else ta.onApprove.None?)
  }

  ghost predicate CheckedOk(cr: Suite, log: SignedLog, s: Client) {
    s.checked.Some? ==>
      var c := s.checked.value;
      && c.req.id in s.seen
      && Endorsed(cr, log, c.req, c.approver)
      && (c.req.id in s.actions && s.actions[c.req.id].initiator ==> s.actions[c.req.id].req == c.req)
  }

  /** This id's own request is still waiting. */
  ghost predicate Waiting(s: Client, id: Str) {
    id in s.actions && s.actions[id].initiator
  }

  ghost predicate PerformedOk(s: Client, c: Cause) {
    c.Approved? && c.req.id in s.own && c.req.id !in s.closed && !Waiting(s, c.req.id)
    && |c.approvers| == c.req.quorum - 1
  }

  /** This id's own request reached its quorum: the callback ran, or is about to. */
  ghost predicate Released(s: Client, id: Str) {
    || (exists i :: 0 <= i < |s.performed| && s.performed[i].Approved? && s.performed[i].req.id == id)
    || (exists e :: e in s.due && e.cause.Approved? && e.cause.req.id == id)
  }

  ghost predicate DueOk(s: Client, e: Emission) {
    && PerformedOk(s, e.cause)
    && (forall i :: 0 <= i < |s.performed| && s.performed[i].Approved? ==> s.performed[i].req.id != e.cause.req.id)
    && (forall d :: d in s.due && d.cause.Approved? && d.cause.req.id == e.cause.req.id ==> d == e)
  }

  ghost predicate HistoryOk(s: Client) {
    && s.closed <= s.own <= s.seen
    && (forall id :: id in s.closed ==> !Waiting(s, id))
    && (forall i :: 0 <= i < |s.performed| ==> PerformedOk(s, s.performed[i]))
    && (forall i, j :: 0 <= i < j < |s.performed| ==> s.performed[i].req.id != s.performed[j].req.id)
    && (forall e :: e in s.due ==> DueOk(s, e))
    && (forall id :: id in s.own ==> Waiting(s, id) || id in s.closed || Released(s, id))
  }

  /** A recorded consent: the preimage is this client's approval of the request it was shown. */
  ghost predicate ConsentOk(cr: Suite, cfg: Config, c: (Request, Bytes)) {
    && c.0.requester != SelfFpr(cr, cfg)
    && c.0.paramsHash == ParamsHash(cr, c.0.params)
    && Endorses(c.1, c.0, SelfFpr(cr, cfg))
  }

  ghost predicate ClientInv(cr: Suite, cfg: Config, log: SignedLog, s: Client) {
    && (forall id :: id in s.actions ==> TrackedOk(cr, cfg, log, s, id))
    && CheckedOk(cr, log, s)
    && (forall r :: r in s.toCount ==> r.requester != SelfFpr(cr, cfg))
    && (forall c :: c in s.consents ==> ConsentOk(cr, cfg, c))
    && HistoryOk(s)
    && (forall e :: e in s.due ==> e.perform.Callback? || Authorized(cr, cfg, log, e))
    && (s.burn.Some? ==> Authorized(cr, cfg, log, Emission(ScuttleNow, s.burn.value)))
    && (forall i :: 0 <= i < |s.emitted| ==> Authorized(cr, cfg, log, s.emitted[i]))
  }

  // ---- the log only grows, and everything above survives growth ----

  lemma EndorsedGrows(cr: Suite, log: SignedLog, more: SignedLog, req: Request, f: Str)
    requires log <= more && Endorsed(cr, log, req, f)
    ensures Endorsed(cr, more, req, f)
  {
  }

  lemma AuthorizedGrows(cr: Suite, cfg: Config, log: SignedLog, more: SignedLog, e: Emission)
    requires log <= more && Authorized(cr, cfg, log, e)
    ensures Authorized(cr, cfg, more, e)
  {
  }

  lemma TrackedGrows(cr: Suite, cfg: Config, log: SignedLog, more: SignedLog, s: Client, id: Str)
    requires log <= more && id in s.actions && TrackedOk(cr, cfg, log, s, id)
    ensures TrackedOk(cr, cfg, more, s, id)
  {
  }

  lemma InvGrows(cr: Suite, cfg: Config, log: SignedLog, more: SignedLog, s: Client)
    requires log <= more && ClientInv(cr, cfg, log, s)
    ensures ClientInv(cr, cfg, more, s)
  {
    hide Authorized, Endorsed, ConsentOk, HistoryOk, OwnOk, TrackedOk;
    forall id | id in s.actions
      ensures TrackedOk(cr, cfg, more, s, id)
    {
      TrackedGrows(cr, cfg, log, more, s, id);
    }
    if s.checked.Some? {
      EndorsedGrows(cr, log, more, s.checked.value.req, s.checked.value.approver);
    }
    forall e | e in s.due && !e.perform.Callback?
      ensures Authorized(cr, cfg, more, e)
    {
      AuthorizedGrows(cr, cfg, log, more, e);
    }
    if s.burn.Some? {
      AuthorizedGrows(cr, cfg, log, more, Emission(ScuttleNow, s.burn.value));
    }
    forall i | 0 <= i < |s.emitted|
      ensures Authorized(cr, cfg, more, s.emitted[i])
    {
      AuthorizedGrows(cr, cfg, log, more, s.emitted[i]);
    }
  }

  // ---- each transition keeps the invariant ----

  lemma RunKeeps(cr: Suite, cfg: Config, log: SignedLog, s: Client, p: Perform, cause: Cause, signs: bool)
    requires ClientInv(cr, cfg, log, s)
    requires p.Callback? || Authorized(cr, cfg, log, Emission(p, cause))
    ensures ClientInv(cr, cfg, log, Run(s, p, cause, signs))
  {
    hide Authorized, Endorsed, ConsentOk, HistoryOk, OwnOk;
    var s' := Run(s, p, cause, signs);
    assert s'.actions == s.actions && s'.seen == s.seen && s'.own == s.own;
    forall id | id in s'.actions
      ensures TrackedOk(cr, cfg, log, s', id)
    {
      assert TrackedOk(cr, cfg, log, s, id);
    }
    HistoryFrame(s, s');
  }

  /** History facts depend only on these fields, and survive dropping entries. */
  lemma HistoryFrame(s: Client, s': Client)
    requires HistoryOk(s)
    requires s'.closed == s.closed && s'.own == s.own && s'.seen >= s.seen && s'.performed == s.performed && s'.due == s.due
    requires forall id :: Waiting(s', id) <==> Waiting(s, id)
    ensures HistoryOk(s')
  {
    forall e | e in s'.due
      ensures DueOk(s', e)
    {
      assert DueOk(s, e);
    }
    forall id | id in s'.own
      ensures Waiting(s', id) || id in s'.closed || Released(s', id)
    {
      assert Waiting(s, id) || id in s.closed || Released(s, id);
    }
  }

  /** A request dropped without quorum is closed. */
  lemma HistoryCloses(s: Client, id: Str)
    requires HistoryOk(s) && id in s.actions && (s.actions[id].initiator ==> id in s.own)
    ensures HistoryOk(Drop(s, id))
  {
    var s' := Drop(s, id);
    forall e | e in s'.due
      ensures DueOk(s', e)
    {
      assert DueOk(s, e);
    }
    forall x | x in s'.own
      ensures Waiting(s', x) || x in s'.closed || Released(s', x)
    {
      assert Waiting(s, x) || x in s.closed || Released(s, x);
    }
  }

  /** A request that reached its quorum leaves the map with its callback due. */
  lemma HistoryReaches(s: Client, e: Emission)
    requires HistoryOk(s)
    requires e.cause.Approved? && Waiting(s, e.cause.req.id) && e.cause.req.id in s.own
    requires |e.cause.approvers| == e.cause.req.quorum - 1
    ensures HistoryOk(s.(actions := s.actions - {e.cause.req.id}, due := s.due + {e}))
  {
    var s' := s.(actions := s.actions - {e.cause.req.id}, due := s.due + {e});
    forall d | d in s'.due
      ensures DueOk(s', d)
    {
      if d in s.due {
        assert DueOk(s, d);
      }
    }
    forall id | id in s'.own
      ensures Waiting(s', id) || id in s'.closed || Released(s', id)
    {
      assert Waiting(s, id) || id in s.closed || Released(s, id);
      if id == e.cause.req.id {
        assert e in s'.due;
      }
    }
  }

  /** A due callback that runs moves from due to performed. */
  lemma HistoryReleases(s: Client, e: Emission)
    requires HistoryOk(s) && e in s.due
    ensures HistoryOk(s.(due := s.due - {e}, performed := s.performed + [e.cause]))
  {
    var s' := s.(due := s.due - {e}, performed := s.performed + [e.cause]);
    assert DueOk(s, e);
    forall d | d in s'.due
      ensures DueOk(s', d)
    {
      assert DueOk(s, d);
    }
    forall id | id in s'.own
      ensures Waiting(s', id) || id in s'.closed || Released(s', id)
    {
      assert Waiting(s, id) || id in s.closed || Released(s, id);
      if Released(s, id) {
        ReleasedMoves(s, e, id);
      }
    }
  }

  lemma ReleasedMoves(s: Client, e: Emission, id: Str)
    requires Released(s, id) && e in s.due
    ensures Released(s.(due := s.due - {e}, performed := s.performed + [e.cause]), id)
  {
    var s' := s.(due := s.due - {e}, performed := s.performed + [e.cause]);
    if i :| 0 <= i < |s.performed| && s.performed[i].Approved? && s.performed[i].req.id == id {
      assert s'.performed[i] == s.performed[i];
    } else {
      var d :| d in s.due && d.cause.Approved? && d.cause.req.id == id;
      assert if d == e then s'.performed[|s.performed|] == d.cause else d in s'.due;
    }
  }

  lemma RegisterKeeps(cr: Suite, cfg: Config, log: SignedLog, s: Client, action: Str, params: Str, quorum: int, id: Wire, nonce: Wire, p: Perform)
    requires ClientInv(cr, cfg, log, s) && id !in s.seen
    requires !p.Callback? ==>
      cfg.relay && quorum == QuorumFor(cfg, ActionName(p)) && params == ParamsText(cr, cfg.room, p)
    ensures ClientInv(cr, cfg, log, Register(cr, cfg, s, action, params, quorum, id, nonce, p))
  {
    hide Authorized, Endorsed, ConsentOk, ParamsText, ActionName, QuorumFor;
    var s' := Register(cr, cfg, s, action, params, quorum, id, nonce, p);
    if s' != s {
      forall x | x in s'.actions
        ensures TrackedOk(cr, cfg, log, s', x)
      {
        if x != id {
          assert TrackedOk(cr, cfg, log, s, x);
        }
      }
      forall i | 0 <= i < |s'.performed|
        ensures PerformedOk(s', s'.performed[i])
      {
        assert PerformedOk(s, s.performed[i]);
      }
    }
  }

  lemma DropKeeps(cr: Suite, cfg: Config, log: SignedLog, s: Client, id: Str)
    requires ClientInv(cr, cfg, log, s)
    ensures ClientInv(cr, cfg, log, Drop(s, id))
  {
    hide Authorized, Endorsed, ConsentOk, OwnOk, HistoryOk, CheckedOk;
    var s' := Drop(s, id);
    forall x | x in s'.actions
      ensures TrackedOk(cr, cfg, log, s', x)
    {
      assert TrackedOk(cr, cfg, log, s, x);
    }
    CheckedShrinks(cr, log, s, s');
    if id in s.actions {
      assert TrackedOk(cr, cfg, log, s, id);
      HistoryCloses(s, id);
    }
  }

  lemma VanishKeeps(cr: Suite, cfg: Config, log: SignedLog, s: Client)
    requires ClientInv(cr, cfg, log, s)
    ensures ClientInv(cr, cfg, log, Vanish(s))
  {
    hide Authorized, Endorsed, ConsentOk, OwnOk;
    var s' := Vanish(s);
    forall id | id in s'.closed
      ensures id in s.own
    {
      if id !in s.closed {
        assert TrackedOk(cr, cfg, log, s, id);
      }
    }
    forall i | 0 <= i < |s'.performed|
      ensures PerformedOk(s', s'.performed[i])
    {
      assert PerformedOk(s, s.performed[i]);
    }
  }

  lemma ReceiveKeeps(cr: Suite, cfg: Config, log: SignedLog, s: Client, f: Str, req: Request, expired: bool)
    requires ClientInv(cr, cfg, log, s)
    ensures ClientInv(cr, cfg, log, Receive(s, f, req, expired))
  {
    hide Authorized, Endorsed, ConsentOk, OwnOk, HistoryOk;
    var s' := Receive(s, f, req, expired);
    if s' != s {
      forall x | x in s'.actions
        ensures TrackedOk(cr, cfg, log, s', x)
      {
        if x != req.id {
          assert TrackedOk(cr, cfg, log, s, x);
        }
      }
      HistoryFrame(s, s');
    }
  }

  /** What passes the checks was endorsed by the key that sent it. */
  lemma CheckedEndorses(cr: Suite, log: SignedLog, req: Request, pub: Bytes, a: Approval)
    requires Unforged(cr, log, pub, a.sig) && PassesChecks(cr, req, pub, a)
    ensures Endorsed(cr, log, req, a.approver)
  {
    hide ApprovalPreimage;
    var msg := ApprovalPreimage(req, a.approver, a.meaning, a.name, a.signedAt);
    assert (pub, msg) in log;
    assert Endorses(msg, req, a.approver);
  }

  lemma CheckKeeps(cr: Suite, cfg: Config, log: SignedLog, s: Client, pub: Bytes, a: Approval)
    requires ClientInv(cr, cfg, log, s) && Unforged(cr, log, pub, a.sig)
    ensures ClientInv(cr, cfg, log, Check(cr, s, pub, a))
  {
    hide Authorized, ConsentOk, OwnOk, HistoryOk, TrackedOk, Endorsed, PassesChecks;
    var s' := Check(cr, s, pub, a);
    forall x | x in s'.actions
      ensures TrackedOk(cr, cfg, log, s', x)
    {
      TrackedStays(cr, cfg, log, s, s', x);
    }
    if s'.checked.Some? {
      CheckedEndorses(cr, log, s.actions[a.id].req, pub, a);
      TrackedStays(cr, cfg, log, s, s', a.id);
    }
    HistoryFrame(s, s');
  }

  /** Counting is safe when an own request's newcomer has endorsed it. */
  lemma CountKeeps(cr: Suite, cfg: Config, log: SignedLog, s: Client, id: Str, f: Str)
    requires ClientInv(cr, cfg, log, s)
    requires Waiting(s, id) && f != SelfFpr(cr, cfg) ==> Endorsed(cr, log, s.actions[id].req, f)
    ensures ClientInv(cr, cfg, log, Count(s, id, f))
  {
    hide Authorized, Endorsed, ConsentOk, HistoryOk;
    var s' := Count(s, id, f);
    if s' != s {
      var ta := s.actions[id];
      var approvers := ta.approvers + {f};
      assert TrackedOk(cr, cfg, log, s, id);
      if 1 + |approvers| < ta.req.quorum {
        CountWaits(cr, cfg, log, s, id, f);
      } else {
        CountFires(cr, cfg, log, s, id, f);
      }
    }
  }

  /** An entry left alone stays in order. */
  lemma TrackedStays(cr: Suite, cfg: Config, log: SignedLog, s: Client, s': Client, x: Str)
    requires x in s.actions && TrackedOk(cr, cfg, log, s, x)
    requires x in s'.actions && s'.actions[x] == s.actions[x] && s'.seen == s.seen && s'.own == s.own
    ensures TrackedOk(cr, cfg, log, s', x) && s.actions[x].req.id == x && x in s.seen
  {
  }

  /** An own request stays good when an endorser is added. */
  lemma OwnGains(cr: Suite, cfg: Config, log: SignedLog, ta: Tracked, f: Str)
    requires OwnOk(cr, cfg, log, ta) && Endorsed(cr, log, ta.req, f)
    ensures OwnOk(cr, cfg, log, ta.(approvers := ta.approvers + {f}))
  {
    hide Endorsed, ParamsText, ParamsHash, ActionName, QuorumFor;
  }

  /** A checked approval stays good while tracked requests keep their content. */
  lemma CheckedSame(cr: Suite, log: SignedLog, s: Client, s': Client)
    requires CheckedOk(cr, log, s) && s'.checked == s.checked && s'.seen == s.seen
    requires forall x :: x in s'.actions ==>
      x in s.actions && s'.actions[x].req == s.actions[x].req && s'.actions[x].initiator == s.actions[x].initiator
    ensures CheckedOk(cr, log, s')
  {
  }

  /** One more approver, still short of the quorum, leaves the entry in order. */
  lemma TrackedGains(cr: Suite, cfg: Config, log: SignedLog, s: Client, s': Client, id: Str, f: Str)
    requires id in s.actions && TrackedOk(cr, cfg, log, s, id)
    requires f != s.actions[id].req.requester && f !in s.actions[id].approvers
    requires s.actions[id].initiator ==> Endorsed(cr, log, s.actions[id].req, f)
    requires 1 + |s.actions[id].approvers + {f}| < s.actions[id].req.quorum
    requires id in s'.actions && s'.actions[id] == s.actions[id].(approvers := s.actions[id].approvers + {f})
    requires s'.seen == s.seen && s'.own == s.own
    ensures TrackedOk(cr, cfg, log, s', id)
  {
    hide Endorsed, OwnOk;
    if s.actions[id].initiator {
      OwnGains(cr, cfg, log, s.actions[id], f);
    }
  }

  lemma CountWaits(cr: Suite, cfg: Config, log: SignedLog, s: Client, id: Str, f: Str)
    requires ClientInv(cr, cfg, log, s) && id in s.actions
    requires f != s.actions[id].req.requester && f !in s.actions[id].approvers
    requires Waiting(s, id) ==> Endorsed(cr, log, s.actions[id].req, f)
    requires 1 + |s.actions[id].approvers + {f}| < s.actions[id].req.quorum
    ensures ClientInv(cr, cfg, log, Count(s, id, f))
  {
    hide Authorized, Endorsed, ConsentOk, HistoryOk, OwnOk, CheckedOk, TrackedOk;
    var s' := Count(s, id, f);
    TrackedGains(cr, cfg, log, s, s', id, f);
    forall x | x in s'.actions
      ensures TrackedOk(cr, cfg, log, s', x)
    {
      if x != id {
        TrackedStays(cr, cfg, log, s, s', x);
      }
    }
    CheckedSame(cr, log, s, s');
    HistoryFrame(s, s');
  }

  lemma CountFires(cr: Suite, cfg: Config, log: SignedLog, s: Client, id: Str, f: Str)
    requires ClientInv(cr, cfg, log, s) && id in s.actions
    requires f != s.actions[id].req.requester && f !in s.actions[id].approvers
    requires Waiting(s, id) ==> Endorsed(cr, log, s.actions[id].req, f)
    requires 1 + |s.actions[id].approvers + {f}| >= s.actions[id].req.quorum
    ensures ClientInv(cr, cfg, log, Count(s, id, f))
  {
    hide Endorsed, ConsentOk, ParamsText, ParamsHash, HistoryOk, CheckedOk, QuorumBacked, Authorized, OwnOk;
    var ta, s' := s.actions[id], Count(s, id, f);
    assert TrackedOk(cr, cfg, log, s, id);
    forall x | x in s'.actions
      ensures TrackedOk(cr, cfg, log, s', x)
    {
      assert TrackedOk(cr, cfg, log, s, x);
    }
    CheckedShrinks(cr, log, s, s');
    if ta.initiator {
      OwnReaches(cr, cfg, log, ta, f);
      var e := Emission(ta.onApprove.value, Approved(ta.req, ta.approvers + {f}));
      HistoryReaches(s, e);
    } else {
      HistoryFrame(s, s');
    }
  }

  /** The newcomer that completes an own request authorizes what it names. */
  lemma OwnReaches(cr: Suite, cfg: Config, log: SignedLog, ta: Tracked, f: Str)
    requires OwnOk(cr, cfg, log, ta) && Endorsed(cr, log, ta.req, f)
    requires f != ta.req.requester && f !in ta.approvers && ta.req.requester !in ta.approvers
    requires ta.approvers == {} || 1 + |ta.approvers| < ta.req.quorum
    requires 1 + |ta.approvers + {f}| >= ta.req.quorum
    ensures |ta.approvers + {f}| == ta.req.quorum - 1 && ta.onApprove.Some?
    ensures ta.onApprove.value.Callback?
            || Authorized(cr, cfg, log, Emission(ta.onApprove.value, Approved(ta.req, ta.approvers + {f})))
  {
    hide Endorsed, ParamsText, ParamsHash;
    assert |ta.approvers + {f}| == |ta.approvers| + 1;
  }

  /** A checked approval stays good while tracked requests only leave. */
  lemma CheckedShrinks(cr: Suite, log: SignedLog, s: Client, s': Client)
    requires CheckedOk(cr, log, s) && s'.checked == s.checked && s'.seen == s.seen
    requires forall x :: x in s'.actions ==> x in s.actions && s'.actions[x] == s.actions[x]
    ensures CheckedOk(cr, log, s')
  {
  }

  lemma ReleaseKeeps(cr: Suite, cfg: Config, log: SignedLog, s: Client, e: Emission, signs: bool)
    requires ClientInv(cr, cfg, log, s)
    ensures ClientInv(cr, cfg, log, Release(s, e, signs))
  {
    hide Authorized, Endorsed, ConsentOk, OwnOk, HistoryOk, Run;
    if e in s.due {
      var s1 := s.(due := s.due - {e}, performed := s.performed + [e.cause]);
      forall x | x in s1.actions
        ensures TrackedOk(cr, cfg, log, s1, x)
      {
        assert TrackedOk(cr, cfg, log, s, x);
      }
      HistoryReleases(s, e);
      RunKeeps(cr, cfg, log, s1, e.perform, e.cause, signs);
    }
  }

  lemma SignKeeps(cr: Suite, cfg: Config, log: SignedLog, s: Client, id: Str, meaning: Wire, at: Wire)
    requires ClientInv(cr, cfg, log, s)
    ensures ClientInv(cr, cfg, log, Sign(cr, cfg, s, id, meaning, at))
  {
    hide Authorized, Endorsed, OwnOk, HistoryOk, ApprovalPreimage;
    var s' := Sign(cr, cfg, s, id, meaning, at);
    forall x | x in s'.actions
      ensures TrackedOk(cr, cfg, log, s', x)
    {
      assert TrackedOk(cr, cfg, log, s, x);
    }
    HistoryFrame(s, s');
  }

  lemma MarkKeeps(cr: Suite, cfg: Config, log: SignedLog, s: Client, id: Str)
    requires ClientInv(cr, cfg, log, s)
    ensures ClientInv(cr, cfg, log, MarkApproved(s, id))
  {
    hide Authorized, Endorsed, ConsentOk, HistoryOk, ParamsText, ActionName, QuorumFor, ParamsHash;
    var s' := MarkApproved(s, id);
    forall x | x in s'.actions
      ensures TrackedOk(cr, cfg, log, s', x)
    {
      assert TrackedOk(cr, cfg, log, s, x);
    }
    HistoryFrame(s, s');
  }

  lemma FlagKeeps(cr: Suite, cfg: Config, log: SignedLog, s: Client, s': Client)
    requires ClientInv(cr, cfg, log, s)
    requires s' == s.(ready := s'.ready, receiptDone := s'.receiptDone, checked := s'.checked, burn := s'.burn, emitted := s'.emitted)
    requires s'.checked.None? || s'.checked == s.checked
    requires s'.burn.None? || s'.burn == s.burn
    requires s'.emitted == s.emitted || (s.burn.Some? && s'.emitted == s.emitted + [Emission(ScuttleNow, s.burn.value)])
    ensures ClientInv(cr, cfg, log, s')
  {
    hide Authorized, Endorsed, ConsentOk, OwnOk, HistoryOk;
    forall x | x in s'.actions
      ensures TrackedOk(cr, cfg, log, s', x)
    {
      assert TrackedOk(cr, cfg, log, s, x);
    }
    HistoryFrame(s, s');
  }

  /** Every critical section of every handler keeps the client invariant. */
  lemma StepKeeps(cr: Suite, cfg: Config, log: SignedLog, s: Client, step: Step)
    requires ClientInv(cr, cfg, log, s) && Enabled(cr, s, log, step)
    ensures ClientInv(cr, cfg, log, Apply(cr, cfg, s, step))
  {
    hide QuorumBacked, Endorsed, ConsentOk, OwnOk, HistoryOk, ApprovalPreimage, ParamsText, TrackedOk;
    var s' := Apply(cr, cfg, s, step);
    match step
    case KeyReady => FlagKeeps(cr, cfg, log, s, s');
    case GateCall(p, id, nonce, signs) =>
      var q := QuorumFor(cfg, ActionName(p));
      if q != 0 && q <= 1 {
        RunKeeps(cr, cfg, log, s, p, SingleActor, signs);
      } else if q > 1 && cfg.relay {
        RegisterKeeps(cr, cfg, log, s, ActionName(p), ParamsText(cr, cfg.room, p), q, id, nonce, p);
      }
    case OtherRequest(action, params, quorum, id, nonce, n) =>
      RegisterKeeps(cr, cfg, log, s, action, params, quorum, id, nonce, Callback(n));
    case DropRequest(id) => DropKeeps(cr, cfg, log, s, id);
    case ReceiveRequest(f, req, expired) => ReceiveKeeps(cr, cfg, log, s, f, req, expired);
    case CheckApproval(pub, a) => CheckKeeps(cr, cfg, log, s, pub, a);
    case CountChecked =>
      if s.checked.Some? {
        var c := s.checked.value;
        CountKeeps(cr, cfg, log, s, c.req.id, c.approver);
        FlagKeeps(cr, cfg, log, Count(s, c.req.id, c.approver), s');
      }
    case SignApproval(id, meaning, at) => SignKeeps(cr, cfg, log, s, id, meaning, at);
    case CountOwn(req) =>
      if req in s.toCount {
        CountKeeps(cr, cfg, log, s, req.id, SelfFpr(cr, cfg));
      }
    case MarkOwn(req) =>
      if req in s.toCount {
        MarkKeeps(cr, cfg, log, s, req.id);
      }
    case CallBack(e, signs) => ReleaseKeeps(cr, cfg, log, s, e, signs);
    case ReceiptDone => FlagKeeps(cr, cfg, log, s, s');
    case ScuttleNotice => FlagKeeps(cr, cfg, log, s, s');
    case VanishRoom => VanishKeeps(cr, cfg, log, s);
  }
}
