/**
 The Two-Person Rule as a distributed state machine. One step is one critical section under
 Client.mu, so the checks an approval passes and the counting of it are two steps with anything in
 between. Frames may be lost, repeated and reordered; timers fire when they like; keys that belong
 to no modelled client may sign anything.
 */
module Actions {
  import opened Bytes
  import opened Crypto
  import opened Statements

  // ---- data ----

  /** protocol.ActionRequestBody; expiry is a nondeterministic step. */
  datatype Request = Request(id: Wire, action: Str, paramsHash: Wire, params: Str, requester: Str, room: Str,
                             quorum: int, nonce: Wire)

  /** protocol.ActionApprovalBody. */
  datatype Approval = Approval(id: Str, paramsHash: Str, approver: Str, sig: Bytes, meaning: Wire, name: Wire, signedAt: Wire)

  /** What an approved request runs: the three raw primitives, or some caller's own callback. */
  datatype Perform =
    | ScuttleNow
    | ScuttleArm(seconds: int)
    | BreakGlass(invitees: seq<Str>, ttl: int)
    | Callback(n: nat)

  /** trackedAction. A resolved request is one that has left the map. */
  datatype Tracked = Tracked(req: Request, approvers: set<Str>, approved: bool, initiator: bool, onApprove: Option<Perform>)

  /** Why a privileged frame went out. History only: nothing branches on it. */
  datatype Cause = SingleActor | Approved(req: Request, approvers: set<Str>)

  datatype Emission = Emission(perform: Perform, cause: Cause)

  /** An approval that passed every check of onActionApproval and is not yet counted. */
  datatype Checked = Checked(req: Request, approver: Str)

  datatype Config = Config(key: Bytes, name: Wire, room: Str, policy: map<Str, int>, relay: bool)

  /**
   actions, ready (rk != nil), receiptDone and burn (a receipt round whose onDone is the burn) are
   the program's, checked, toCount and due what handlers between two critical sections hold in
   locals; the rest is history. due holds the callbacks of requests that reached their quorum and
   left the map, not yet called; seen every request id ever tracked here, own the ids this client
   issued, closed the own ids dropped without quorum, performed the own requests whose callback ran,
   emitted the privileged frames queued, consents the approvals this client signed.
   */
  datatype Client = Client(
    actions: map<Str, Tracked>, ready: bool, receiptDone: bool, burn: Option<Cause>,
    checked: Option<Checked>, toCount: set<Request>, due: set<Emission>,
    seen: set<Str>, own: set<Str>, closed: set<Str>, performed: seq<Cause>, emitted: seq<Emission>,
    consents: set<(Request, Bytes)>)

  const FRESH_CLIENT := Client(map[], false, false, None, None, {}, {}, {}, {}, {}, [], [], {})

  // ---- names and parameters ----

  function ActionName(p: Perform): Str {
    match p
    case BreakGlass(_, _) => Ascii("break_glass")
    case Callback(_) => Ascii("runbook")
    case _ => Ascii("scuttle")
  }

  function Join(parts: seq<Str>, sep: Str): Str {
    if parts == [] then []
    else if |parts| == 1 then parts[0]
    else parts[0] + sep + Join(parts[1..], sep)
  }

  /** The canonical text bound into the approval hash. */
  function ParamsText(cr: Suite, room: Str, p: Perform): Str {
    match p
    case ScuttleNow => Ascii("room=") + room + Ascii(", reason=manual")
    case ScuttleArm(s) => Ascii("room=") + room + Ascii(", reason=armed, after=") + cr.duration(s)
    case BreakGlass(who, ttl) =>
      Ascii("invite=") + (if who == [] then Ascii("no one") else Join(who, Ascii(","))) + Ascii(", ttl=") + cr.duration(ttl)
    case Callback(_) => []
  }

  function ParamsHash(cr: Suite, params: Str): Wire {
    cr.hex(cr.hash(params))
  }

  function QuorumFor(cfg: Config, action: Str): int {
    if action in cfg.policy then cfg.policy[action] else 1
  }

  function SelfFpr(cr: Suite, cfg: Config): Wire {
    cr.fingerprint(cfg.key)
  }

  /** The preimage an approval of req covers: v1 bare, v2 when a meaning is declared. */
  function ApprovalPreimage(req: Request, approver: Str, meaning: Str, name: Str, signedAt: Str): Bytes {
    if meaning == [] then Encode(ActionApproval(req.id, req.paramsHash, approver, req.nonce))
    else Encode(ActionApprovalV2(req.id, req.paramsHash, approver, req.nonce, meaning, name, signedAt))
  }

  // ---- transitions: one per critical section ----

  /** The raw primitives: what a perform callback queues. */
  function Run(s: Client, p: Perform, cause: Cause, signs: bool): Client {
    match p
    case ScuttleNow =>
      // startReceiptRound refuses without a key, after a receipt, during a round, or if signing fails
      if !s.ready || s.receiptDone || s.burn.Some? || !signs then s.(emitted := s.emitted + [Emission(p, cause)])
      else s.(burn := Some(cause))
    case Callback(_) => s
    case _ => s.(emitted := s.emitted + [Emission(p, cause)])
  }

  /** RequestAction up to the broadcast. */
  function Register(cr: Suite, cfg: Config, s: Client, action: Str, params: Str, quorum: int, id: Wire, nonce: Wire, p: Perform): Client {
    if quorum < 2 || !s.ready then s
    else
      var req := Request(id, action, ParamsHash(cr, params), params, SelfFpr(cr, cfg), cfg.room, quorum, nonce);
      s.(actions := s.actions[id := Tracked(req, {}, false, true, Some(p))], seen := s.seen + {id}, own := s.own + {id})
  }

  /** gateAction: the choke point of ScuttleNow, ScuttleArm and BreakGlass. */
  function Gate(cr: Suite, cfg: Config, s: Client, p: Perform, id: Wire, nonce: Wire, signs: bool): Client {
    var q := QuorumFor(cfg, ActionName(p));
    if q == 0 then s
    else if q <= 1 then Run(s, p, SingleActor, signs)
    else if !cfg.relay then s
    else Register(cr, cfg, s, ActionName(p), ParamsText(cr, cfg.room, p), q, id, nonce, p)
  }

  /** Drop a request without quorum: veto (ours or a peer's), expiry, or a failed broadcast. */
  function Drop(s: Client, id: Str): Client {
    if id !in s.actions then s
    else
      s.(actions := s.actions - {id},
         closed := if s.actions[id].initiator then s.closed + {id} else s.closed)
  }

  /** onActionRequest. */
  function Receive(s: Client, senderFpr: Str, req: Request, expired: bool): Client {
    if req.id == [] || req.quorum < 1 || req.requester != senderFpr || expired || req.id in s.actions then s
    else s.(actions := s.actions[req.id := Tracked(req, {}, false, false, None)], seen := s.seen + {req.id})
  }

  predicate PassesChecks(cr: Suite, req: Request, senderPub: Bytes, a: Approval) {
    && a.paramsHash == req.paramsHash
    && a.approver == cr.fingerprint(senderPub)
    && Verifies(cr, senderPub, ApprovalPreimage(req, a.approver, a.meaning, a.name, a.signedAt), a.sig)
  }

  /** onActionApproval up to the second lock: snapshot the request, verify against the snapshot. */
  function Check(cr: Suite, s: Client, senderPub: Bytes, a: Approval): Client {
    if a.id in s.actions && PassesChecks(cr, s.actions[a.id].req, senderPub, a)
    then s.(checked := Some(Checked(s.actions[a.id].req, a.approver)))
    else s.(checked := None)
  }

  /** countApproval up to its unlock: on quorum the callback is due. */
  function Count(s: Client, id: Str, approver: Str): Client {
    if id !in s.actions then s
    else
      var ta := s.actions[id];
      if approver == ta.req.requester || approver in ta.approvers then s
      else
        var approvers := ta.approvers + {approver};
        if 1 + |approvers| < ta.req.quorum then s.(actions := s.actions[id := ta.(approvers := approvers)])
        else
          s.(actions := s.actions - {id},
             due := if ta.onApprove.None? then s.due
                    else s.due + {Emission(ta.onApprove.value, Approved(ta.req, approvers))})
  }

  /** countApproval after its unlock: the callback is called. */
  function Release(s: Client, e: Emission, signs: bool): Client {
    if e !in s.due then s
    else Run(s.(due := s.due - {e}, performed := s.performed + [e.cause]), e.perform, e.cause, signs)
  }

  predicate MaySign(cr: Suite, cfg: Config, s: Client, id: Str) {
    && id in s.actions && s.ready
    && s.actions[id].req.requester != SelfFpr(cr, cfg)
    && !s.actions[id].approved
    && ParamsHash(cr, s.actions[id].req.params) == s.actions[id].req.paramsHash
  }

  /** ApproveActionAs up to the broadcast; the log gains the preimage. */
  function Sign(cr: Suite, cfg: Config, s: Client, id: Str, meaning: Wire, signedAt: Wire): Client {
    if !MaySign(cr, cfg, s, id) then s
    else
      var req := s.actions[id].req;
      s.(toCount := s.toCount + {req},
         consents := s.consents + {(req, ApprovalPreimage(req, SelfFpr(cr, cfg), meaning, cfg.name, signedAt))})
  }

  function MarkApproved(s: Client, id: Str): Client {
    if id !in s.actions then s else s.(actions := s.actions[id := s.actions[id].(approved := true)])
  }

  /** finalizeReceipt: the receipt is out, so the queued burn is triggered. */
  function FinalizeReceipt(s: Client): Client {
    if s.burn.None? then s
    else s.(burn := None, receiptDone := true, emitted := s.emitted + [Emission(ScuttleNow, s.burn.value)])
  }

  /** resetCoordinationLocked, as far as this state goes. */
  function Vanish(s: Client): Client {
    s.(actions := map[], burn := None,
       closed := s.closed + (set id | id in s.actions && s.actions[id].initiator))
  }

  datatype Step =
    | KeyReady
    | GateCall(p: Perform, id: Wire, nonce: Wire, signs: bool)
    | OtherRequest(action: Str, params: Str, quorum: int, id: Wire, nonce: Wire, n: nat)
    | DropRequest(tracked: Str)
    | ReceiveRequest(senderFpr: Str, req: Request, expired: bool)
    | CheckApproval(senderPub: Bytes, approval: Approval)
    | CountChecked
    | SignApproval(tracked: Str, meaning: Wire, signedAt: Wire)
    | CountOwn(req: Request)
    | MarkOwn(req: Request)
    | CallBack(e: Emission, signs: bool)
    | ReceiptDone
    | ScuttleNotice
    | VanishRoom

  function Apply(cr: Suite, cfg: Config, s: Client, step: Step): Client {
    match step
    case KeyReady => s.(ready := true)
    case GateCall(p, id, nonce, signs) => Gate(cr, cfg, s, p, id, nonce, signs)
    case OtherRequest(action, params, quorum, id, nonce, n) =>
      Register(cr, cfg, s, action, params, quorum, id, nonce, Callback(n))
    case DropRequest(id) => Drop(s, id)
    case ReceiveRequest(f, req, expired) => Receive(s, f, req, expired)
    case CheckApproval(pub, a) => Check(cr, s, pub, a)
    case CountChecked =>
      if s.checked.None? then s
      else Count(s, s.checked.value.req.id, s.checked.value.approver).(checked := None)
    case SignApproval(id, meaning, at) => Sign(cr, cfg, s, id, meaning, at)
    case CountOwn(req) => if req in s.toCount then Count(s, req.id, SelfFpr(cr, cfg)) else s
    case MarkOwn(req) => if req in s.toCount then MarkApproved(s, req.id) else s
    case CallBack(e, signs) => Release(s, e, signs)
    case ReceiptDone => FinalizeReceipt(s)
    case ScuttleNotice => if s.ready then s.(receiptDone := true) else s
    case VanishRoom => Vanish(s)
  }

  /** What a step adds to the log of signed messages. */
  function NewlySigned(cr: Suite, cfg: Config, s: Client, step: Step): SignedLog {
    if step.SignApproval? && MaySign(cr, cfg, s, step.tracked)
    then {(cfg.key, ApprovalPreimage(s.actions[step.tracked].req, SelfFpr(cr, cfg), step.meaning, cfg.name, step.signedAt))}
    else {}
  }

  /**
   What the environment must respect: new request ids are fresh here, gated calls carry one of the
   gated primitives, and no signature verifies over a message its key never signed.
   */
  ghost predicate Enabled(cr: Suite, s: Client, log: SignedLog, step: Step) {
    match step
    case GateCall(p, id, _, _) => !p.Callback? && id !in s.seen
    case OtherRequest(_, _, _, id, _, _) => id !in s.seen
    case CheckApproval(pub, a) => Unforged(cr, log, pub, a.sig)
    case _ => true
  }

  // ---- what approval means ----

  /** msg is an approval of exactly this request by this fingerprint, bare or with a meaning. */
  ghost predicate Endorses(msg: Bytes, req: Request, approver: Str) {
    exists meaning: Wire, name: Wire, at: Wire :: msg == ApprovalPreimage(req, approver, meaning, name, at)
  }

  ghost predicate Endorsed(cr: Suite, log: SignedLog, req: Request, approver: Str) {
    exists key, msg :: |key| == KEY_SIZE && (key, msg) in log && cr.fingerprint(key) == approver && Endorses(msg, req, approver)
  }

  /** q - 1 distinct others signed this very request, which names this very perform. */
  ghost predicate QuorumBacked(cr: Suite, cfg: Config, log: SignedLog, p: Perform, q: int, cause: Cause) {
    && cause.Approved?
    && cause.req.quorum == q
    && cause.req.requester == SelfFpr(cr, cfg)
    && cause.req.params == ParamsText(cr, cfg.room, p)
    && cause.req.paramsHash == ParamsHash(cr, cause.req.params)
    && SelfFpr(cr, cfg) !in cause.approvers
    && |cause.approvers| == q - 1
    && forall f :: f in cause.approvers ==> Endorsed(cr, log, cause.req, f)
  }

  /** The gate's promise about one privileged frame. */
  ghost predicate Authorized(cr: Suite, cfg: Config, log: SignedLog, e: Emission) {
    var q := QuorumFor(cfg, ActionName(e.perform));
    && !e.perform.Callback?
    && q != 0
    && (q <= 1 ==> e.cause == SingleActor)
    && (q >= 2 ==> cfg.relay && QuorumBacked(cr, cfg, log, e.perform, q, e.cause))
  }
}
