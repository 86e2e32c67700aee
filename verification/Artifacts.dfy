/**
 Agent-decision attestation as a distributed state machine: proposals, role-typed approvals, the
 retained proofs, and the one client that writes the artifact entry. Steps are critical sections
 under Client.mu, as in module Actions.
 */
module Artifacts {
  import opened Bytes
  import opened Crypto
  import opened Statements

  // ---- data ----

  /** protocol.ArtifactProposalBody; expiry is a nondeterministic step. */
  datatype Proposal = Proposal(id: Wire, source: Str, ref: Str, hash: Wire, summary: Str, proposer: Str, quorum: int,
                               proposedAt: Str, nonce: Wire)

  /** protocol.ArtifactApprovalBody. */
  datatype Approval = Approval(id: Str, hash: Str, approver: Str, sig: Bytes, attestation: Bytes, role: Wire)

  /** capturedApproval; the attestation's role check is carried, never acted on. */
  datatype Proof = Proof(fpr: Str, key: Bytes, sig: Bytes, attestation: Bytes, role: Wire)

  /** trackedProposal. A resolved proposal is one that has left the map. */
  datatype Tracked = Tracked(prop: Proposal, approvers: set<Str>, order: seq<Str>, proofs: map<Str, Proof>,
                             approved: bool, initiator: bool)

  /** record.ArtifactMeta: the signed body of the artifact entry. */
  datatype Meta = Meta(source: Str, ref: Str, hash: Wire, approver: Str, proposedAt: Str, approvedAt: Str,
                       proposalID: Wire, nonce: Wire, proposer: Str)

  /** One artifact entry this client wrote, and the approver set that completed (history). */
  datatype Write = Write(prop: Proposal, counted: set<Str>, meta: Meta)

  /** An approval verified against a snapshot of the proposal, not yet counted. */
  datatype Checked = Checked(prop: Proposal, proof: Proof)

  /** credential: None, or the roles the carried attestation names. */
  datatype Config = Config(key: Bytes, credential: Option<seq<Wire>>)

  /**
   proposals, retained (artifactProofs) and ready are the program's. checked and signed are the
   approvals between verification and counting; seen, resolved (the proposal each retained list was
   collected for) and writes are history.
   */
  datatype Client = Client(
    proposals: map<Str, Tracked>, retained: map<Str, seq<Proof>>, ready: bool,
    checked: Option<Checked>, signed: set<Checked>,
    seen: set<Str>, resolved: map<Str, Proposal>, writes: seq<Write>)

  const FRESH_CLIENT := Client(map[], map[], false, None, {}, {}, map[], [])

  function SelfFpr(cr: Suite, cfg: Config): Wire {
    cr.fingerprint(cfg.key)
  }

  /** The preimage an approval covers, chosen by its own role: v1 without one, v2 with one. */
  function Preimage(id: Str, hash: Str, approver: Str, nonce: Str, role: Str): Bytes {
    if role == [] then Encode(ArtifactApproval(id, hash, approver, nonce))
    else Encode(ArtifactApprovalV2(id, hash, approver, nonce, role))
  }

  predicate ProofValid(cr: Suite, p: Proposal, proof: Proof) {
    && proof.fpr == cr.fingerprint(proof.key)
    && Verifies(cr, proof.key, Preimage(p.id, p.hash, proof.fpr, p.nonce, proof.role), proof.sig)
  }

  function MetaOf(p: Proposal, writer: Str, approvedAt: Str): Meta {
    Meta(p.source, p.ref, p.hash, writer, p.proposedAt, approvedAt, p.id, p.nonce, p.proposer)
  }

  /**
   Sealer.AddArtifactApproval and AddArtifactApprovalV2 behind assembleSealedLocked's dispatch on
   the captured role: the preimage is rebuilt from the entry's own body and the key's fingerprint.
   */
  predicate SealerAccepts(cr: Suite, m: Meta, proof: Proof) {
    && |proof.key| == KEY_SIZE
    && m.nonce != []
    && cr.verify(proof.key, Preimage(m.proposalID, m.hash, cr.fingerprint(proof.key), m.nonce, proof.role), proof.sig)
  }

  // ---- the designated writer ----

  function Elements(s: seq<Str>): set<Str> {
    set x | x in s
  }

  /** minFpr: the byte-wise least fingerprint, or "" of none. */
  function MinFpr(fprs: seq<Str>): (m: Str)
    ensures fprs != [] ==> IsLeast(m, Elements(fprs))
    ensures fprs == [] ==> m == []
  {
    if fprs == [] then []
    else if |fprs| == 1 then fprs[0]
    else
      var rest := fprs[..|fprs| - 1];
      var last := fprs[|fprs| - 1];
      var m := MinFpr(rest);
      MinExtends(rest, last, m);
      assert fprs == rest + [last];
      if Less(last, m) then last else m
  }

  lemma MinExtends(rest: seq<Str>, last: Str, m: Str)
    requires rest != [] && IsLeast(m, Elements(rest))
    ensures IsLeast(if Less(last, m) then last else m, Elements(rest + [last]))
  {
    var s := rest + [last];
    LessTotal(last, m);
    forall x | x in Elements(s)
      ensures AtMost(if Less(last, m) then last else m, x)
    {
      if x in rest {
        assert x in Elements(rest);
        if Less(last, m) {
          AtMostTransitive(last, m, x);
        }
      }
    }
    assert m in Elements(rest) && m in s;
  }

  // ---- the approver's role ----

  /** approvalRole: None refuses; Some([]) is the roleless approval. */
  function ApprovalRole(credential: Option<seq<Wire>>, requested: Wire): Option<Wire> {
    match credential
    case None => if requested != [] then None else Some([])
    case Some(roles) =>
      if requested == [] then
        if |roles| == 0 then Some([]) else if |roles| == 1 then Some(roles[0]) else None
      else if requested in roles then Some(requested) else None
  }

  /**
   The answer to a request for a role. Asked for a role by name: that role if the credential names
   it, otherwise a refusal. Not asked: no role without a credential or with one that names none, the
   sole role of one that names one, and a refusal to choose among several.
   */
  ghost predicate RoleAnswers(credential: Option<seq<Wire>>, requested: Wire, answer: Option<Wire>) {
    if requested != [] then
      if credential.Some? && requested in credential.value then answer == Some(requested) else answer == None
    else if credential.None? || |credential.value| == 0 then answer == Some([])
    else if |credential.value| == 1 then answer == Some(credential.value[0])
    else answer == None
  }

  lemma RoleExactly(credential: Option<seq<Wire>>, requested: Wire, answer: Option<Wire>)
    ensures RoleAnswers(credential, requested, answer) <==> answer == ApprovalRole(credential, requested)
  {
  }

  /** The body of an artifact entry says what was proposed, by whom, when, who wrote it and when it was approved. */
  ghost predicate BodyOf(p: Proposal, writer: Str, approvedAt: Str, m: Meta) {
    && m.source == p.source && m.ref == p.ref && m.hash == p.hash && m.proposedAt == p.proposedAt
    && m.proposalID == p.id && m.nonce == p.nonce && m.proposer == p.proposer
    && m.approver == writer && m.approvedAt == approvedAt
  }

  // ---- transitions ----

  function Track(s: Client, p: Proposal, mine: bool): Client {
    s.(proposals := s.proposals[p.id := Tracked(p, {}, [], map[], false, mine)], seen := s.seen + {p.id})
  }

  /** Propose, after trimming; the quorum is at least one. */
  function Propose(cr: Suite, cfg: Config, s: Client, p: Proposal): Client {
    if p.source == [] || p.ref == [] || p.hash == [] || !s.ready then s
    else Track(s, p.(proposer := SelfFpr(cr, cfg), quorum := if p.quorum < 1 then 1 else p.quorum), true)
  }

  /** onArtifactProposal. */
  function Receive(s: Client, senderFpr: Str, p: Proposal, expired: bool): Client {
    if p.id == [] || p.hash == [] || p.quorum < 1 || p.proposer != senderFpr || expired || p.id in s.proposals then s
    else Track(s, p, false)
  }

  predicate PassesChecks(cr: Suite, p: Proposal, senderPub: Bytes, a: Approval) {
    && a.hash == p.hash
    && a.approver == cr.fingerprint(senderPub)
    && Verifies(cr, senderPub, Preimage(p.id, p.hash, a.approver, p.nonce, a.role), a.sig)
  }

  /** onArtifactApproval up to the second lock. */
  function Check(cr: Suite, s: Client, senderPub: Bytes, a: Approval): Client {
    if a.id in s.proposals && PassesChecks(cr, s.proposals[a.id].prop, senderPub, a)
    then s.(checked := Some(Checked(s.proposals[a.id].prop, Proof(a.approver, senderPub, a.sig, a.attestation, a.role))))
    else s.(checked := None)
  }

  function Captured(tp: Tracked): seq<Proof>
    requires forall f :: f in tp.order ==> f in tp.proofs
  {
    seq(|tp.order|, i requires 0 <= i < |tp.order| => tp.proofs[tp.order[i]])
  }

  function Counted(tp: Tracked, proof: Proof): Tracked {
    tp.(approvers := tp.approvers + {proof.fpr}, order := tp.order + [proof.fpr], proofs := tp.proofs[proof.fpr := proof])
  }

  /** Every arrival in the order has its proof: what trackedProposal keeps. */
  predicate Paired(s: Client) {
    forall id :: id in s.proposals ==> forall f :: f in s.proposals[id].order ==> f in s.proposals[id].proofs
  }

  /** countArtifactApproval. */
  function Count(self: Str, s: Client, id: Str, proof: Proof, approvedAt: Str): Client
    requires Paired(s)
  {
    if id !in s.proposals then s
    else
      var tp := s.proposals[id];
      if proof.fpr == tp.prop.proposer || proof.fpr in tp.approvers then s
      else
        var tp' := Counted(tp, proof);
        if |tp'.approvers| < tp.prop.quorum then s.(proposals := s.proposals[id := tp'])
        else
          var writer := MinFpr(tp'.order);
          s.(proposals := s.proposals - {id},
             retained := s.retained[id := Captured(tp')],
             resolved := s.resolved[id := tp.prop],
             writes := if writer == self
                       then s.writes + [Write(tp.prop, tp'.approvers, MetaOf(tp.prop, writer, approvedAt))]
                       else s.writes)
  }

  predicate MaySign(cr: Suite, cfg: Config, s: Client, id: Str, requested: Wire) {
    && id in s.proposals && s.ready
    && s.proposals[id].prop.proposer != SelfFpr(cr, cfg)
    && !s.proposals[id].approved
    && s.proposals[id].prop.hash != []
    && ApprovalRole(cfg.credential, requested).Some?
  }

  function OwnPreimage(cr: Suite, cfg: Config, s: Client, id: Str, requested: Wire): Bytes
    requires MaySign(cr, cfg, s, id, requested)
  {
    var p := s.proposals[id].prop;
    Preimage(p.id, p.hash, SelfFpr(cr, cfg), p.nonce, ApprovalRole(cfg.credential, requested).value)
  }

  /** ApproveArtifact up to the broadcast. */
  function Sign(cr: Suite, cfg: Config, s: Client, id: Str, requested: Wire, attestation: Bytes): Client {
    if !MaySign(cr, cfg, s, id, requested) then s
    else
      var p := s.proposals[id].prop;
      var proof := Proof(SelfFpr(cr, cfg), cfg.key, cr.sign(cfg.key, OwnPreimage(cr, cfg, s, id, requested)),
                         attestation, ApprovalRole(cfg.credential, requested).value);
      s.(signed := s.signed + {Checked(p, proof)})
  }

  function MarkApproved(s: Client, id: Str): Client {
    if id !in s.proposals then s else s.(proposals := s.proposals[id := s.proposals[id].(approved := true)])
  }

  /** Rejection (ours or a peer's), expiry, or a failed broadcast. */
  function Drop(s: Client, id: Str): Client {
    s.(proposals := s.proposals - {id})
  }

  /** clearProposalsLocked. */
  function Vanish(s: Client): Client {
    s.(proposals := map[], retained := map[])
  }

  datatype Step =
    | KeyReady
    | ProposeCall(prop: Proposal)
    | ReceiveProposal(senderFpr: Str, prop: Proposal, expired: bool)
    | CheckApproval(senderPub: Bytes, approval: Approval)
    | CountChecked(approvedAt: Str)
    | SignApproval(tracked: Str, requested: Wire, attestation: Bytes)
    | CountOwn(own: Checked, approvedAt: Str)
    | MarkOwn(own: Checked)
    | DropProposal(tracked: Str)
    | VanishRoom

  function Apply(cr: Suite, cfg: Config, s: Client, step: Step): Client
    requires Paired(s)
  {
    match step
    case KeyReady => s.(ready := true)
    case ProposeCall(p) => Propose(cr, cfg, s, p)
    case ReceiveProposal(f, p, expired) => Receive(s, f, p, expired)
    case CheckApproval(pub, a) => Check(cr, s, pub, a)
    case CountChecked(at) =>
      if s.checked.None? then s
      else Count(SelfFpr(cr, cfg), s, s.checked.value.prop.id, s.checked.value.proof, at).(checked := None)
    case SignApproval(id, role, att) => Sign(cr, cfg, s, id, role, att)
    case CountOwn(c, at) => if c in s.signed then Count(SelfFpr(cr, cfg), s, c.prop.id, c.proof, at) else s
    case MarkOwn(c) => if c in s.signed then MarkApproved(s, c.prop.id) else s
    case DropProposal(id) => Drop(s, id)
    case VanishRoom => Vanish(s)
  }

  function NewlySigned(cr: Suite, cfg: Config, s: Client, step: Step): SignedLog {
    if step.SignApproval? && MaySign(cr, cfg, s, step.tracked, step.requested)
    then {(cfg.key, OwnPreimage(cr, cfg, s, step.tracked, step.requested))}
    else {}
  }

  /**
   What the environment must respect: a proposal id is tracked here once (ids are fresh and a
   proposal frame is delivered once), and signatures are not forged.
   */
  ghost predicate Enabled(cr: Suite, s: Client, log: SignedLog, step: Step) {
    match step
    case ProposeCall(p) => p.id !in s.seen
    case ReceiveProposal(_, p, _) => p.id !in s.seen
    case CheckApproval(pub, a) => Unforged(cr, log, pub, a.sig)
    case _ => true
  }
}
