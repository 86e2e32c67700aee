/** Runs of any number of clients through the artifact flow: one writer, and proofs that seal. */
module ArtifactRuns {
  import opened Bytes
  import opened Crypto
  import opened Artifacts
  import opened ArtifactProofs

  datatype World = World(clients: map<Bytes, Client>, log: SignedLog)

  datatype WorldStep =
    | Local(key: Bytes, step: Step)
    | Elsewhere(key: Bytes, msg: Bytes)

  ghost predicate WorldEnabled(cr: Suite, w: World, ws: WorldStep) {
    ws.Local? ==> ws.key in w.clients && Paired(w.clients[ws.key]) && Enabled(cr, w.clients[ws.key], w.log, ws.step)
  }

  function WorldApply(cr: Suite, cfgs: map<Bytes, Config>, w: World, ws: WorldStep): World
    requires cfgs.Keys == w.clients.Keys
    requires ws.Local? ==> ws.key in w.clients && Paired(w.clients[ws.key])
  {
    match ws
    case Local(key, step) =>
      World(w.clients[key := Apply(cr, cfgs[key], w.clients[key], step)],
            w.log + NewlySigned(cr, cfgs[key], w.clients[key], step))
    case Elsewhere(key, msg) => w.(log := w.log + {(key, msg)})
  }

  ghost predicate IsRun(cr: Suite, cfgs: map<Bytes, Config>, w: World, steps: seq<WorldStep>, end: World)
    decreases |steps|
  {
    if steps == [] then end == w
    else
      && WorldEnabled(cr, w, steps[0])
      && cfgs.Keys == w.clients.Keys
      && IsRun(cr, cfgs, WorldApply(cr, cfgs, w, steps[0]), steps[1..], end)
  }

  predicate Configured(cfgs: map<Bytes, Config>, w: World) {
    && cfgs.Keys == w.clients.Keys
    && forall k :: k in cfgs ==> cfgs[k].key == k && |k| == KEY_SIZE
  }

  ghost predicate Initial(w: World) {
    w.log == {} && forall k :: k in w.clients ==> w.clients[k] == FRESH_CLIENT
  }

  /** The proof verifies for this proposal, and its key really signed that preimage. */
  predicate Backed(cr: Suite, log: SignedLog, p: Proposal, proof: Proof) {
    ProofValid(cr, p, proof) && (proof.key, Preimage(p.id, p.hash, proof.fpr, p.nonce, proof.role)) in log
  }

  function RealBacking(cr: Suite, log: SignedLog): Backing {
    (p: Proposal, proof: Proof) => Backed(cr, log, p, proof)
  }

  ghost predicate WorldInv(cr: Suite, cfgs: map<Bytes, Config>, w: World) {
    && Configured(cfgs, w)
    && forall k :: k in w.clients ==> ClientInv(SelfFpr(cr, cfgs[k]), RealBacking(cr, w.log), w.clients[k])
  }

  lemma InitialInv(cr: Suite, cfgs: map<Bytes, Config>, w: World)
    requires Configured(cfgs, w) && Initial(w)
    ensures WorldInv(cr, cfgs, w)
  {
  }

  /** Whatever a step newly holds verified against its snapshot, and its signature was really made. */
  lemma StepBacks(cr: Suite, cfg: Config, log: SignedLog, s: Client, step: Step)
    requires SignsWhatVerifies(cr) && |cfg.key| == KEY_SIZE
    requires Paired(s) && Enabled(cr, s, log, step)
    ensures NewlyBacked(RealBacking(cr, log + NewlySigned(cr, cfg, s, step)), s, Apply(cr, cfg, s, step))
  {
    hide Backed, NewlyBacked, Apply, MaySign, OwnPreimage, Enabled;
    var more := log + NewlySigned(cr, cfg, s, step);
    match step
    case CheckApproval(pub, a) => CheckBacks(cr, cfg, log, s, pub, a);
    case SignApproval(id, requested, att) => SignBacks(cr, cfg, more, s, id, requested, att);
    case _ => OthersBack(cr, cfg, more, s, step);
  }

  lemma CheckBacks(cr: Suite, cfg: Config, log: SignedLog, s: Client, pub: Bytes, a: Approval)
    requires Paired(s) && Enabled(cr, s, log, CheckApproval(pub, a))
    ensures NewlyBacked(RealBacking(cr, log + NewlySigned(cr, cfg, s, CheckApproval(pub, a))), s, Apply(cr, cfg, s, CheckApproval(pub, a)))
  {
    hide Preimage;
    assert log + {} == log;
    if a.id in s.proposals && PassesChecks(cr, s.proposals[a.id].prop, pub, a) {
      CheckedWasSigned(cr, log, s.proposals[a.id].prop, pub, a);
    }
  }

  lemma CheckedWasSigned(cr: Suite, log: SignedLog, p: Proposal, pub: Bytes, a: Approval)
    requires Unforged(cr, log, pub, a.sig) && PassesChecks(cr, p, pub, a)
    ensures Backed(cr, log, p, Proof(a.approver, pub, a.sig, a.attestation, a.role))
  {
    hide Preimage;
    assert cr.verify(pub, Preimage(p.id, p.hash, a.approver, p.nonce, a.role), a.sig);
  }

  lemma SignBacks(cr: Suite, cfg: Config, more: SignedLog, s: Client, id: Str, requested: Wire, att: Bytes)
    requires SignsWhatVerifies(cr) && |cfg.key| == KEY_SIZE && Paired(s)
    requires NewlySigned(cr, cfg, s, SignApproval(id, requested, att)) <= more
    ensures NewlyBacked(RealBacking(cr, more), s, Apply(cr, cfg, s, SignApproval(id, requested, att)))
  {
    hide Preimage, ApprovalRole;
    if MaySign(cr, cfg, s, id, requested) {
      assert (cfg.key, OwnPreimage(cr, cfg, s, id, requested)) in more;
    }
  }

  lemma OthersBack(cr: Suite, cfg: Config, more: SignedLog, s: Client, step: Step)
    requires Paired(s) && !step.CheckApproval? && !step.SignApproval?
    ensures NewlyBacked(RealBacking(cr, more), s, Apply(cr, cfg, s, step))
  {
    hide Backed, Captured, MinFpr, MetaOf, Counted;
  }

  lemma BackingGrows(cr: Suite, log: SignedLog, more: SignedLog, self: Str, s: Client)
    requires log <= more && ClientInv(self, RealBacking(cr, log), s)
    ensures ClientInv(self, RealBacking(cr, more), s)
  {
    forall p: Proposal, proof: Proof | RealBacking(cr, log)(p, proof)
      ensures RealBacking(cr, more)(p, proof)
    {
    }
    InvGrows(self, RealBacking(cr, log), RealBacking(cr, more), s);
  }

  lemma LocalStepKeeps(cr: Suite, cfg: Config, log: SignedLog, s: Client, step: Step)
    requires SignsWhatVerifies(cr) && |cfg.key| == KEY_SIZE
    requires ClientInv(SelfFpr(cr, cfg), RealBacking(cr, log), s) && Paired(s) && Enabled(cr, s, log, step)
    ensures ClientInv(SelfFpr(cr, cfg), RealBacking(cr, log + NewlySigned(cr, cfg, s, step)), Apply(cr, cfg, s, step))
  {
    var more := log + NewlySigned(cr, cfg, s, step);
    BackingGrows(cr, log, more, SelfFpr(cr, cfg), s);
    StepBacks(cr, cfg, log, s, step);
    StepKeeps(cr, cfg, log, RealBacking(cr, more), s, step);
  }

  lemma WorldStepKeeps(cr: Suite, cfgs: map<Bytes, Config>, w: World, ws: WorldStep)
    requires SignsWhatVerifies(cr) && WorldInv(cr, cfgs, w) && WorldEnabled(cr, w, ws)
    ensures WorldInv(cr, cfgs, WorldApply(cr, cfgs, w, ws))
  {
    var w' := WorldApply(cr, cfgs, w, ws);
    assert w'.clients.Keys == w.clients.Keys;
    forall k | k in w'.clients
      ensures ClientInv(SelfFpr(cr, cfgs[k]), RealBacking(cr, w'.log), w'.clients[k])
    {
      if ws.Local? && k == ws.key {
        LocalStepKeeps(cr, cfgs[k], w.log, w.clients[k], ws.step);
      } else {
        BackingGrows(cr, w.log, w'.log, SelfFpr(cr, cfgs[k]), w.clients[k]);
      }
    }
  }

  lemma {:induction false} RunKeepsInv(cr: Suite, cfgs: map<Bytes, Config>, w: World, steps: seq<WorldStep>, end: World)
    requires SignsWhatVerifies(cr) && WorldInv(cr, cfgs, w) && IsRun(cr, cfgs, w, steps, end)
    ensures WorldInv(cr, cfgs, end)
    decreases |steps|
  {
    if steps != [] {
      WorldStepKeeps(cr, cfgs, w, steps[0]);
      RunKeepsInv(cr, cfgs, WorldApply(cr, cfgs, w, steps[0]), steps[1..], end);
    }
  }

  // ---- the retained proofs ----

  /** The body carries the id, hash and nonce the proof was signed over; only an empty nonce is refused. */
  lemma BackedSeals(cr: Suite, log: SignedLog, p: Proposal, proof: Proof, writer: Str, approvedAt: Str)
    requires Backed(cr, log, p, proof)
    ensures SealerAccepts(cr, MetaOf(p, writer, approvedAt), proof) <==> p.nonce != []
  {
  }

  /**
   When a proposal resolves by quorum, the retained list is exactly quorum proofs by distinct
   non-proposers, each verifying for the resolved proposal; and the Sealer, rebuilding the preimage
   from the entry body any writer would produce and dispatching on the proof's own role, accepts
   every one of them exactly when the proposal carried a nonce.
   */
  lemma RetainedProofsSeal(cr: Suite, cfgs: map<Bytes, Config>, w: World, steps: seq<WorldStep>, end: World,
                           k: Bytes, id: Str, writer: Str, approvedAt: Str)
    requires SignsWhatVerifies(cr) && Configured(cfgs, w) && Initial(w) && IsRun(cr, cfgs, w, steps, end)
    requires k in end.clients && id in end.clients[k].retained
    ensures var s := end.clients[k];
            && id in s.resolved && s.resolved[id].id == id
            && ListOk(RealBacking(cr, end.log), s.resolved[id], s.retained[id])
            && forall i :: 0 <= i < |s.retained[id]| ==>
                 (SealerAccepts(cr, MetaOf(s.resolved[id], writer, approvedAt), s.retained[id][i])
                  <==> s.resolved[id].nonce != [])
  {
    InitialInv(cr, cfgs, w);
    RunKeepsInv(cr, cfgs, w, steps, end);
    var s := end.clients[k];
    assert ClientInv(SelfFpr(cr, cfgs[k]), RealBacking(cr, end.log), s);
    assert RetainedOk(RealBacking(cr, end.log), s, id);
    forall i | 0 <= i < |s.retained[id]|
      ensures SealerAccepts(cr, MetaOf(s.resolved[id], writer, approvedAt), s.retained[id][i])
              <==> s.resolved[id].nonce != []
    {
      assert RealBacking(cr, end.log)(s.resolved[id], s.retained[id][i]);
      BackedSeals(cr, end.log, s.resolved[id], s.retained[id][i], writer, approvedAt);
    }
  }

  /** Every body a client writes says what was proposed, and names that client as the approver who wrote it. */
  lemma WrittenBodies(cr: Suite, cfgs: map<Bytes, Config>, w: World, steps: seq<WorldStep>, end: World, k: Bytes, i: nat)
    requires SignsWhatVerifies(cr) && Configured(cfgs, w) && Initial(w) && IsRun(cr, cfgs, w, steps, end)
    requires k in end.clients && i < |end.clients[k].writes|
    ensures var wr := end.clients[k].writes[i];
            BodyOf(wr.prop, cr.fingerprint(k), wr.meta.approvedAt, wr.meta) && |wr.counted| == wr.prop.quorum
            && cr.fingerprint(k) in wr.counted && wr.prop.proposer !in wr.counted
  {
    hide IsRun;
    InitialInv(cr, cfgs, w);
    RunKeepsInv(cr, cfgs, w, steps, end);
    assert ClientInv(SelfFpr(cr, cfgs[k]), RealBacking(cr, end.log), end.clients[k]);
    assert WriteOk(SelfFpr(cr, cfgs[k]), RealBacking(cr, end.log), end.clients[k], end.clients[k].writes[i]);
  }

  // ---- the roles a client signs under ----

  /** An approval a client signed is its own, and carries a role its credential names, or none. */
  ghost predicate OwnRole(cr: Suite, cfg: Config, c: Checked) {
    && c.proof.fpr == cr.fingerprint(cfg.key) && c.proof.key == cfg.key && c.prop.proposer != c.proof.fpr
    && (c.proof.role != [] ==> cfg.credential.Some? && c.proof.role in cfg.credential.value)
  }

  /** What one call signs: nothing, or one approval whose role answers the request. */
  lemma SignsAsAsked(cr: Suite, cfg: Config, s: Client, id: Str, requested: Wire, att: Bytes)
    ensures var s' := Sign(cr, cfg, s, id, requested, att);
            s' == s.(signed := s'.signed)
            && (s'.signed == s.signed
                || exists c :: s'.signed == s.signed + {c} && OwnRole(cr, cfg, c) && id in s.proposals && c.prop == s.proposals[id].prop
                               && RoleAnswers(cfg.credential, requested, Some(c.proof.role)))
  {
    hide Preimage;
    if MaySign(cr, cfg, s, id, requested) {
      var role := ApprovalRole(cfg.credential, requested).value;
      var c := Checked(s.proposals[id].prop,
                       Proof(SelfFpr(cr, cfg), cfg.key, cr.sign(cfg.key, OwnPreimage(cr, cfg, s, id, requested)), att, role));
      RoleExactly(cfg.credential, requested, Some(role));
      assert Sign(cr, cfg, s, id, requested, att).signed == s.signed + {c} && OwnRole(cr, cfg, c);
    }
  }

  /** Once our own approval is on record, the same proposal is not signed again, under any role. */
  lemma MarkedSignsNoMore(cr: Suite, cfg: Config, s: Client, c: Checked, requested: Wire, att: Bytes)
    requires Paired(s) && c in s.signed && c.prop.id in s.proposals
    ensures var s' := Apply(cr, cfg, s, MarkOwn(c));
            && Paired(s')
            && s'.proposals.Keys == s.proposals.Keys
            && s'.proposals[c.prop.id] == s.proposals[c.prop.id].(approved := true)
            && NewlySigned(cr, cfg, s', SignApproval(c.prop.id, requested, att)) == {}
            && Apply(cr, cfg, s', SignApproval(c.prop.id, requested, att)) == s'
  {
    hide Preimage, ApprovalRole;
  }

  lemma StepSigns(cr: Suite, cfg: Config, s: Client, step: Step)
    requires Paired(s)
    ensures forall c :: c in Apply(cr, cfg, s, step).signed && c !in s.signed ==> OwnRole(cr, cfg, c)
  {
    hide Preimage, MetaOf, Captured, MinFpr, PassesChecks, Counted;
    if step.SignApproval? {
      SignsAsAsked(cr, cfg, s, step.tracked, step.requested, step.attestation);
    }
  }

  /** In every run, everything a client signed is an approval of somebody else's proposal under a role it holds, or none. */
  lemma {:induction false} RolesHeld(cr: Suite, cfgs: map<Bytes, Config>, w: World, steps: seq<WorldStep>, end: World, k: Bytes, c: Checked)
    requires cfgs.Keys == w.clients.Keys && IsRun(cr, cfgs, w, steps, end) && k in w.clients
    requires forall x :: x in w.clients[k].signed ==> OwnRole(cr, cfgs[k], x)
    ensures k in end.clients && (c in end.clients[k].signed ==> OwnRole(cr, cfgs[k], c))
    decreases |steps|
  {
    hide OwnRole, Apply, Enabled, NewlySigned;
    if steps != [] {
      if steps[0].Local? {
        StepSigns(cr, cfgs[steps[0].key], w.clients[steps[0].key], steps[0].step);
      }
      var w1 := WorldApply(cr, cfgs, w, steps[0]);
      assert w1.clients.Keys == w.clients.Keys;
      RolesHeld(cr, cfgs, w1, steps[1..], end, k, c);
    }
  }

  // ---- one writer ----

  /** Nobody but these, and perhaps the proposer, ever signed an approval of p. */
  ghost predicate OnlyApprovers(cr: Suite, log: SignedLog, p: Proposal, approvers: set<Str>) {
    forall proof: Proof :: Backed(cr, log, p, proof) && proof.fpr != p.proposer ==> proof.fpr in approvers
  }

  lemma WriterIsLeast(cr: Suite, cfgs: map<Bytes, Config>, w: World, k: Bytes, i: nat, approvers: set<Str>)
    requires WorldInv(cr, cfgs, w) && k in w.clients && i < |w.clients[k].writes|
    requires OnlyApprovers(cr, w.log, w.clients[k].writes[i].prop, approvers)
    requires |approvers| <= w.clients[k].writes[i].prop.quorum
    ensures IsLeast(cr.fingerprint(k), approvers)
  {
    var wr := w.clients[k].writes[i];
    assert ClientInv(SelfFpr(cr, cfgs[k]), RealBacking(cr, w.log), w.clients[k]);
    assert WriteOk(SelfFpr(cr, cfgs[k]), RealBacking(cr, w.log), w.clients[k], wr);
    forall f | f in wr.counted
      ensures f in approvers
    {
      assert ApprovedBy(RealBacking(cr, w.log), wr.prop, f);
      var proof: Proof :| proof.fpr == f && RealBacking(cr, w.log)(wr.prop, proof);
    }
    SubsetSize(wr.counted, approvers);
  }

  /**
   Under once-only delivery, if no more than Quorum distinct members ever approve a proposal, at
   most one artifact entry for it is written in the whole room, by the client with the least
   fingerprint among them, whatever the order in which approvals arrive anywhere.
   */
  lemma OneWriter(cr: Suite, cfgs: map<Bytes, Config>, w: World, steps: seq<WorldStep>, end: World,
                  a: Bytes, i: nat, b: Bytes, j: nat, approvers: set<Str>)
    requires SignsWhatVerifies(cr) && FingerprintsDistinct(cr)
    requires Configured(cfgs, w) && Initial(w) && IsRun(cr, cfgs, w, steps, end)
    requires a in end.clients && i < |end.clients[a].writes|
    requires b in end.clients && j < |end.clients[b].writes|
    requires end.clients[a].writes[i].prop == end.clients[b].writes[j].prop
    requires OnlyApprovers(cr, end.log, end.clients[a].writes[i].prop, approvers)
    requires |approvers| <= end.clients[a].writes[i].prop.quorum
    ensures a == b && i == j && IsLeast(cr.fingerprint(a), approvers)
  {
    InitialInv(cr, cfgs, w);
    RunKeepsInv(cr, cfgs, w, steps, end);
    WriterIsLeast(cr, cfgs, end, a, i, approvers);
    WriterIsLeast(cr, cfgs, end, b, j, approvers);
    LeastUnique(approvers, cr.fingerprint(a), cr.fingerprint(b));
    assert |a| == |b| == KEY_SIZE;
    assert ClientInv(SelfFpr(cr, cfgs[a]), RealBacking(cr, end.log), end.clients[a]);
  }

  /** Whatever was delivered where: two clients whose completing sets coincide never both write. */
  lemma SameSetOneWriter(cr: Suite, cfgs: map<Bytes, Config>, w: World, steps: seq<WorldStep>, end: World,
                         a: Bytes, i: nat, b: Bytes, j: nat)
    requires SignsWhatVerifies(cr) && FingerprintsDistinct(cr)
    requires Configured(cfgs, w) && Initial(w) && IsRun(cr, cfgs, w, steps, end)
    requires a in end.clients && i < |end.clients[a].writes|
    requires b in end.clients && j < |end.clients[b].writes|
    requires end.clients[a].writes[i].counted == end.clients[b].writes[j].counted
    ensures a == b
  {
    InitialInv(cr, cfgs, w);
    RunKeepsInv(cr, cfgs, w, steps, end);
    var wa, wb := end.clients[a].writes[i], end.clients[b].writes[j];
    assert ClientInv(SelfFpr(cr, cfgs[a]), RealBacking(cr, end.log), end.clients[a]);
    assert ClientInv(SelfFpr(cr, cfgs[b]), RealBacking(cr, end.log), end.clients[b]);
    assert WriteOk(SelfFpr(cr, cfgs[a]), RealBacking(cr, end.log), end.clients[a], wa);
    assert WriteOk(SelfFpr(cr, cfgs[b]), RealBacking(cr, end.log), end.clients[b], wb);
    LeastUnique(wa.counted, cr.fingerprint(a), cr.fingerprint(b));
    assert |a| == |b| == KEY_SIZE;
  }
}
