/** Runs of any number of clients under the Two-Person Rule. */
module ActionRuns {
  import opened Bytes
  import opened Crypto
  import opened Framing
  import opened Statements
  import opened Actions
  import opened ActionProofs

  /** The modelled clients, by key, and every message any key has signed. */
  datatype World = World(clients: map<Bytes, Client>, log: SignedLog)

  datatype WorldStep =
    | Local(key: Bytes, step: Step)
    | Elsewhere(key: Bytes, msg: Bytes)  // a signature made outside the modelled handlers

  /** msg is no action approval: what a modelled client signs elsewhere (messages, seals, rosters, records). */
  ghost predicate NotApproval(msg: Bytes) {
    forall s: Statement :: (s.ActionApproval? || s.ActionApprovalV2?) && Encodable(s) ==> msg != Encode(s)
  }

  ghost predicate WorldEnabled(cr: Suite, w: World, ws: WorldStep) {
    match ws
    case Local(key, step) => key in w.clients && Enabled(cr, w.clients[key], w.log, step)
    case Elsewhere(key, msg) => key in w.clients ==> NotApproval(msg)
  }

  function WorldApply(cr: Suite, cfgs: map<Bytes, Config>, w: World, ws: WorldStep): World
    requires cfgs.Keys == w.clients.Keys
    requires ws.Local? ==> ws.key in w.clients
  {
    match ws
    case Local(key, step) =>
      World(w.clients[key := Apply(cr, cfgs[key], w.clients[key], step)],
            w.log + NewlySigned(cr, cfgs[key], w.clients[key], step))
    case Elsewhere(key, msg) => w.(log := w.log + {(key, msg)})
  }

  ghost predicate IsRun(cr: Suite, cfgs: map<Bytes, Config>, w: World, steps: seq<WorldStep>, end: World)
    decreases |steps|
  {
    if steps == [] then end == w
    else
      && WorldEnabled(cr, w, steps[0])
      && cfgs.Keys == w.clients.Keys
      && IsRun(cr, cfgs, WorldApply(cr, cfgs, w, steps[0]), steps[1..], end)
  }

  predicate Configured(cfgs: map<Bytes, Config>, w: World) {
    && cfgs.Keys == w.clients.Keys
    && forall k :: k in cfgs ==> cfgs[k].key == k && |k| == KEY_SIZE
  }

  ghost predicate Initial(w: World) {
    w.log == {} && forall k :: k in w.clients ==> w.clients[k] == FRESH_CLIENT
  }

  ghost predicate WorldInv(cr: Suite, cfgs: map<Bytes, Config>, w: World) {
    && Configured(cfgs, w)
    && forall k :: k in w.clients ==> ClientInv(cr, cfgs[k], w.log, w.clients[k])
  }

  lemma InitialInv(cr: Suite, cfgs: map<Bytes, Config>, w: World)
    requires Configured(cfgs, w) && Initial(w)
    ensures WorldInv(cr, cfgs, w)
  {
  }

  lemma WorldStepKeeps(cr: Suite, cfgs: map<Bytes, Config>, w: World, ws: WorldStep)
    requires WorldInv(cr, cfgs, w) && WorldEnabled(cr, w, ws)
    ensures WorldInv(cr, cfgs, WorldApply(cr, cfgs, w, ws))
  {
    hide ClientInv, Apply, NewlySigned, NotApproval, Enabled;
    var w' := WorldApply(cr, cfgs, w, ws);
    if ws.Local? {
      StepKeeps(cr, cfgs[ws.key], w.log, w.clients[ws.key], ws.step);
      assert w'.clients.Keys == w.clients.Keys;
    }
    forall k | k in w'.clients
      ensures ClientInv(cr, cfgs[k], w'.log, w'.clients[k])
    {
      InvGrows(cr, cfgs[k], w.log, w'.log, w'.clients[k]);
    }
  }

  lemma {:induction false} RunKeepsInv(cr: Suite, cfgs: map<Bytes, Config>, w: World, steps: seq<WorldStep>, end: World)
    requires WorldInv(cr, cfgs, w) && IsRun(cr, cfgs, w, steps, end)
    ensures WorldInv(cr, cfgs, end)
    decreases |steps|
  {
    if steps != [] {
      WorldStepKeeps(cr, cfgs, w, steps[0]);
      RunKeepsInv(cr, cfgs, WorldApply(cr, cfgs, w, steps[0]), steps[1..], end);
    }
  }

  /** At quorum q: not at 0, and from 2 on only over a relay and endorsed by q - 1 distinct others. */
  ghost predicate Seconded(cr: Suite, cfg: Config, log: SignedLog, cause: Cause, q: int) {
    && q != 0
    && (q >= 2 ==>
          && cfg.relay && cause.Approved?
          && |cause.approvers| == q - 1 && cr.fingerprint(cfg.key) !in cause.approvers
          && forall f :: f in cause.approvers ==> Endorsed(cr, log, cause.req, f))
  }

  /** The frame is one its sender's policy allows, at the number the policy itself gives or else 1. */
  ghost predicate WithinPolicy(cr: Suite, cfg: Config, log: SignedLog, e: Emission) {
    match e.perform
    case BreakGlass(_, _) =>
      Seconded(cr, cfg, log, e.cause, if Ascii("break_glass") in cfg.policy then cfg.policy[Ascii("break_glass")] else 1)
    case ScuttleNow => Seconded(cr, cfg, log, e.cause, if Ascii("scuttle") in cfg.policy then cfg.policy[Ascii("scuttle")] else 1)
    case ScuttleArm(_) => Seconded(cr, cfg, log, e.cause, if Ascii("scuttle") in cfg.policy then cfg.policy[Ascii("scuttle")] else 1)
    case Callback(_) => false
  }

  lemma AuthorizedWithinPolicy(cr: Suite, cfg: Config, log: SignedLog, e: Emission)
    requires Authorized(cr, cfg, log, e)
    ensures WithinPolicy(cr, cfg, log, e)
  {
    hide Endorsed, ParamsText, ParamsHash;
  }

  /**
   Safety of the gate. In every run of any number of clients, every scuttle, scuttle-arm and
   break-glass frame a client queues is within that client's own policy: never at quorum 0, and at
   quorum q >= 2 only over a relay and only after exactly q - 1 distinct other fingerprints signed
   this request's id, parameter hash and nonce; and where it took approvals, the request was the
   client's own and the hash is that of the text naming this very frame.
   */
  lemma GateIsSafe(cr: Suite, cfgs: map<Bytes, Config>, w: World, steps: seq<WorldStep>, end: World, k: Bytes, i: nat)
    requires Configured(cfgs, w) && Initial(w) && IsRun(cr, cfgs, w, steps, end)
    requires k in end.clients && i < |end.clients[k].emitted|
    ensures var e := end.clients[k].emitted[i];
            && k in cfgs && WithinPolicy(cr, cfgs[k], end.log, e)
            && (e.cause.Approved? ==>
                  && e.cause.req.requester == cr.fingerprint(k)
                  && e.cause.req.paramsHash == cr.hex(cr.hash(ParamsText(cr, cfgs[k].room, e.perform))))
  {
    hide Endorsed, ParamsText;
    InitialInv(cr, cfgs, w);
    RunKeepsInv(cr, cfgs, w, steps, end);
    assert ClientInv(cr, cfgs[k], end.log, end.clients[k]);
    assert Authorized(cr, cfgs[k], end.log, end.clients[k].emitted[i]);
    AuthorizedWithinPolicy(cr, cfgs[k], end.log, end.clients[k].emitted[i]);
  }

  /**
   Callbacks. In every run, for every request a client issued: its callback ran at most once, with
   exactly quorum - 1 approvers, and not if the request is on record as closed. That a request dropped
   by a veto, an expiry, a failed send or a vanish never fires is ActionLaws.DroppedNeverFires.
   */
  lemma CallbackAtMostOnce(cr: Suite, cfgs: map<Bytes, Config>, w: World, steps: seq<WorldStep>, end: World, k: Bytes)
    requires Configured(cfgs, w) && Initial(w) && IsRun(cr, cfgs, w, steps, end)
    requires k in end.clients
    ensures var s := end.clients[k];
            && (forall i :: 0 <= i < |s.performed| ==>
                  && s.performed[i].Approved?
                  && s.performed[i].req.id in s.own
                  && s.performed[i].req.id !in s.closed
                  && |s.performed[i].approvers| == s.performed[i].req.quorum - 1)
            && (forall i, j :: 0 <= i < j < |s.performed| ==> s.performed[i].req.id != s.performed[j].req.id)
  {
    hide TrackedOk, CheckedOk, ConsentOk, Authorized, WorldEnabled, WorldApply;
    InitialInv(cr, cfgs, w);
    RunKeepsInv(cr, cfgs, w, steps, end);
    var s := end.clients[k];
    assert ClientInv(cr, cfgs[k], end.log, s);
    forall i | 0 <= i < |s.performed|
      ensures PerformedOk(s, s.performed[i])
    {
    }
  }

  /** Exactly one of three. */
  predicate OneOf(a: bool, b: bool, c: bool) {
    (a || b || c) && !(a && b) && !(a && c) && !(b && c)
  }

  /** Every callback called for this request, or about to be, had exactly quorum - 1 approvers. */
  ghost predicate ReleasedAtQuorum(s: Client, id: Str) {
    && (forall i :: 0 <= i < |s.performed| && s.performed[i].Approved? && s.performed[i].req.id == id ==>
          |s.performed[i].approvers| == s.performed[i].req.quorum - 1)
    && (forall e :: e in s.due && e.cause.Approved? && e.cause.req.id == id ==>
          |e.cause.approvers| == e.cause.req.quorum - 1)
  }

  lemma HistoryAccounts(s: Client, id: Str)
    requires HistoryOk(s) && id in s.own
    ensures OneOf(Waiting(s, id), id in s.closed, Released(s, id)) && ReleasedAtQuorum(s, id)
  {
    forall e | e in s.due
      ensures PerformedOk(s, e.cause)
    {
      assert DueOk(s, e);
    }
  }

  /**
   The callback exactly at quorum. In every run, every request a client issued is in exactly one of
   three states: still waiting with fewer than quorum - 1 approvers, given up (vetoed, expired,
   vanished, or never sent), or released, its callback called or about to be, with exactly
   quorum - 1 approvers. So no run leaves a request that reached its quorum uncalled, and none calls
   one that did not.
   */
  lemma CallbackExactlyAtQuorum(cr: Suite, cfgs: map<Bytes, Config>, w: World, steps: seq<WorldStep>, end: World, k: Bytes, id: Str)
    requires Configured(cfgs, w) && Initial(w) && IsRun(cr, cfgs, w, steps, end)
    requires k in end.clients && id in end.clients[k].own
    ensures var s := end.clients[k];
            && OneOf(Waiting(s, id), id in s.closed, Released(s, id))
            && (Waiting(s, id) ==> |s.actions[id].approvers| < s.actions[id].req.quorum - 1)
            && ReleasedAtQuorum(s, id)
  {
    hide CheckedOk, ConsentOk, Authorized, Endorsed, WorldEnabled, WorldApply, HistoryOk, ReleasedAtQuorum, Released, OneOf;
    InitialInv(cr, cfgs, w);
    RunKeepsInv(cr, cfgs, w, steps, end);
    var s := end.clients[k];
    assert ClientInv(cr, cfgs[k], end.log, s);
    HistoryAccounts(s, id);
    if Waiting(s, id) {
      assert TrackedOk(cr, cfgs[k], end.log, s, id);
    }
  }

  // ---- what an approver consented to is what runs ----

  /** Everything a modelled client's key signed is either no approval, or one its operator consented to. */
  ghost predicate LogInv(w: World) {
    forall k, msg :: k in w.clients && (k, msg) in w.log ==>
      NotApproval(msg) || exists c :: c in w.clients[k].consents && c.1 == msg
  }

  lemma QuietHandlers(cr: Suite, cfg: Config, s: Client, step: Step)
    requires !step.SignApproval?
    ensures Apply(cr, cfg, s, step).consents == s.consents
  {
    hide ParamsHash, ParamsText, ActionName, QuorumFor, PassesChecks, SelfFpr, ApprovalPreimage, Count, Register;
    match step
    case GateCall(p, id, nonce, signs) =>
      RegisterConsents(cr, cfg, s, ActionName(p), ParamsText(cr, cfg.room, p), QuorumFor(cfg, ActionName(p)), id, nonce, p);
    case OtherRequest(action, params, quorum, id, nonce, n) =>
      RegisterConsents(cr, cfg, s, action, params, quorum, id, nonce, Callback(n));
    case CountChecked =>
      if s.checked.Some? {
        CountConsents(s, s.checked.value.req.id, s.checked.value.approver);
      }
    case CountOwn(req) => CountConsents(s, req.id, SelfFpr(cr, cfg));
    case _ =>
  }

  lemma CountConsents(s: Client, id: Str, approver: Str)
    ensures Count(s, id, approver).consents == s.consents
  {
  }

  lemma RegisterConsents(cr: Suite, cfg: Config, s: Client, action: Str, params: Str, quorum: int, id: Wire, nonce: Wire, p: Perform)
    ensures Register(cr, cfg, s, action, params, quorum, id, nonce, p).consents == s.consents
  {
  }

  lemma ApplyConsents(cr: Suite, cfg: Config, s: Client, step: Step)
    ensures s.consents <= Apply(cr, cfg, s, step).consents
    ensures forall e :: e in NewlySigned(cr, cfg, s, step) ==>
      exists c :: c in Apply(cr, cfg, s, step).consents && c.1 == e.1
  {
    hide ApprovalPreimage, ParamsHash, Count, Register, Gate, Receive, Check, Drop, Vanish, FinalizeReceipt;
    if !step.SignApproval? {
      QuietHandlers(cr, cfg, s, step);
    } else if MaySign(cr, cfg, s, step.tracked) {
      var req := s.actions[step.tracked].req;
      var msg := ApprovalPreimage(req, SelfFpr(cr, cfg), step.meaning, cfg.name, step.signedAt);
      assert (req, msg) in Apply(cr, cfg, s, step).consents && (req, msg).1 == msg;
    }
  }

  lemma LogStepKeeps(cr: Suite, cfgs: map<Bytes, Config>, w: World, ws: WorldStep)
    requires LogInv(w) && Configured(cfgs, w) && WorldEnabled(cr, w, ws)
    ensures LogInv(WorldApply(cr, cfgs, w, ws))
  {
    hide NotApproval, Apply, Enabled, ApprovalPreimage, MaySign;
    var w' := WorldApply(cr, cfgs, w, ws);
    if ws.Local? {
      ApplyConsents(cr, cfgs[ws.key], w.clients[ws.key], ws.step);
    }
    forall k, msg | k in w'.clients && (k, msg) in w'.log
      ensures NotApproval(msg) || exists c :: c in w'.clients[k].consents && c.1 == msg
    {
      if (k, msg) in w.log && !NotApproval(msg) {
        var c :| c in w.clients[k].consents && c.1 == msg;
        assert c in w'.clients[k].consents;
      }
    }
  }

  lemma {:induction false} RunKeepsLog(cr: Suite, cfgs: map<Bytes, Config>, w: World, steps: seq<WorldStep>, end: World)
    requires LogInv(w) && Configured(cfgs, w) && IsRun(cr, cfgs, w, steps, end)
    ensures LogInv(end)
    decreases |steps|
  {
    if steps != [] {
      LogStepKeeps(cr, cfgs, w, steps[0]);
      RunKeepsLog(cr, cfgs, WorldApply(cr, cfgs, w, steps[0]), steps[1..], end);
    }
  }

  function ApprovalStatement(req: Request, f: Str, meaning: Str, name: Str, at: Str): Statement {
    if meaning == [] then ActionApproval(req.id, req.paramsHash, f, req.nonce)
    else ActionApprovalV2(req.id, req.paramsHash, f, req.nonce, meaning, name, at)
  }

  lemma ApprovalEncodable(req: Request, f: Wire, meaning: Wire, name: Wire, at: Wire)
    ensures Encodable(ApprovalStatement(req, f, meaning, name, at))
    ensures Encode(ApprovalStatement(req, f, meaning, name, at)) == ApprovalPreimage(req, f, meaning, name, at)
  {
  }

  /** One preimage endorses one request: the layouts leave no second reading. */
  lemma EndorsesOne(msg: Bytes, a: Request, b: Request, f: Wire)
    requires Endorses(msg, a, f) && Endorses(msg, b, f)
    ensures a.id == b.id && a.paramsHash == b.paramsHash && a.nonce == b.nonce
    ensures !NotApproval(msg)
  {
    var m1: Wire, n1: Wire, t1: Wire :| msg == ApprovalPreimage(a, f, m1, n1, t1);
    var m2: Wire, n2: Wire, t2: Wire :| msg == ApprovalPreimage(b, f, m2, n2, t2);
    ApprovalEncodable(a, f, m1, n1, t1);
    ApprovalEncodable(b, f, m2, n2, t2);
    PreimagesDisjoint(ApprovalStatement(a, f, m1, n1, t1), ApprovalStatement(b, f, m2, n2, t2));
  }

  /** A modelled approver that endorsed req consented to a request indistinguishable from it on the wire. */
  lemma EndorserConsented(cr: Suite, cfgs: map<Bytes, Config>, w: World, req: Request, approver: Bytes)
    returns (shown: Request)
    requires FingerprintsDistinct(cr) && WorldInv(cr, cfgs, w) && LogInv(w)
    requires approver in w.clients && Endorsed(cr, w.log, req, cr.fingerprint(approver))
    ensures exists c :: c in w.clients[approver].consents && c.0 == shown
    ensures shown.id == req.id && shown.paramsHash == req.paramsHash && shown.nonce == req.nonce
    ensures shown.requester != cr.fingerprint(approver)
    ensures shown.paramsHash == ParamsHash(cr, shown.params)
  {
    var f := cr.fingerprint(approver);
    var key, msg :| |key| == KEY_SIZE && (key, msg) in w.log && cr.fingerprint(key) == f && Endorses(msg, req, f);
    assert |approver| == KEY_SIZE && key == approver;
    EndorsesOne(msg, req, req, f);
    var c :| c in w.clients[approver].consents && c.1 == msg;
    assert ClientInv(cr, cfgs[approver], w.log, w.clients[approver]);
    assert ConsentOk(cr, cfgs[approver], c);
    EndorsesOne(msg, c.0, req, f);
    shown := c.0;
  }

  /**
   What you approved is what runs. In every run, when a privileged frame was released by a quorum,
   each approver that is itself a modelled client had been shown, and had consented to, a request
   with this id, hash and nonce, made by somebody else, whose displayed parameters are the very
   text that names the frame, unless two parameter texts share a SHA-256 digest.
   */
  lemma ConsentMatchesFrame(cr: Suite, cfgs: map<Bytes, Config>, w: World, steps: seq<WorldStep>, end: World,
                            k: Bytes, i: nat, approver: Bytes)
    returns (shown: Request)
    requires FingerprintsDistinct(cr) && TextCodecs(cr)
    requires Configured(cfgs, w) && Initial(w) && IsRun(cr, cfgs, w, steps, end)
    requires k in end.clients && k in cfgs && i < |end.clients[k].emitted|
    requires end.clients[k].emitted[i].cause.Approved? && approver in end.clients
    requires cr.fingerprint(approver) in end.clients[k].emitted[i].cause.approvers
    ensures var e := end.clients[k].emitted[i];
            && (exists c :: c in end.clients[approver].consents && c.0 == shown)
            && shown.id == e.cause.req.id && shown.paramsHash == e.cause.req.paramsHash
            && shown.nonce == e.cause.req.nonce
            && shown.requester != cr.fingerprint(approver)
            && (shown.params == ParamsText(cr, cfgs[k].room, e.perform)
                || Collide(cr, shown.params, ParamsText(cr, cfgs[k].room, e.perform)))
  {
    InitialInv(cr, cfgs, w);
    RunKeepsInv(cr, cfgs, w, steps, end);
    RunKeepsLog(cr, cfgs, w, steps, end);
    var e := end.clients[k].emitted[i];
    assert ClientInv(cr, cfgs[k], end.log, end.clients[k]);
    assert Authorized(cr, cfgs[k], end.log, e);
    shown := EndorserConsented(cr, cfgs, end, e.cause.req, approver);
    HexedDigests(cr, shown.params, ParamsText(cr, cfgs[k].room, e.perform));
  }

  lemma HexedDigests(cr: Suite, a: Str, b: Str)
    requires TextCodecs(cr) && ParamsHash(cr, a) == ParamsHash(cr, b)
    ensures a == b || Collide(cr, a, b)
  {
  }
}
