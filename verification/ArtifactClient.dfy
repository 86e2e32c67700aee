/** tui/client/artifact.go in its own form: each method is one critical section, proved to make its transition. */
module ArtifactClient {
  import opened Bytes
  import opened Crypto
  import opened Statements
  import opened Artifacts

  /** minFpr's loop. */
  method LeastFingerprint(fprs: seq<Str>) returns (m: Str)
    ensures m == MinFpr(fprs)
    ensures fprs != [] ==> IsLeast(m, Elements(fprs))
  {
    if |fprs| == 0 {
      return [];
    }
    m := fprs[0];
    assert fprs[..1] == [fprs[0]];
    for i := 1 to |fprs|
      invariant m == MinFpr(fprs[..i])
    {
      assert fprs[..i + 1][..i] == fprs[..i];
      if Less(fprs[i], m) {
        m := fprs[i];
      }
    }
    assert fprs[..|fprs|] == fprs;
  }

  /** approvalRole's scan of the credential. */
  method ResolveRole(credential: Option<seq<Wire>>, requested: Wire) returns (role: Option<Wire>)
    ensures role == ApprovalRole(credential, requested)
    ensures RoleAnswers(credential, requested, role)
  {
    if credential.None? {
      return if requested != [] then None else Some([]);
    }
    var roles := credential.value;
    if requested == [] {
      if |roles| == 0 {
        return Some([]);
      } else if |roles| == 1 {
        return Some(roles[0]);
      } else {
        return None;
      }
    }
    for i := 0 to |roles|
      invariant forall j :: 0 <= j < i ==> roles[j] != requested
    {
      if roles[i] == requested {
        return Some(requested);
      }
    }
    assert requested !in roles;
    return None;
  }

  /** What an approval signs: the proposal's id, artifact hash and nonce, the approver, and its role if it has one. */
  function SignedApproval(p: Proposal, approver: Str, role: Str): Bytes {
    if role == [] then Encode(ArtifactApproval(p.id, p.hash, approver, p.nonce))
    else Encode(ArtifactApprovalV2(p.id, p.hash, approver, p.nonce, role))
  }

  lemma PairedCounted(tp: Tracked, proof: Proof)
    requires forall f :: f in tp.order ==> f in tp.proofs
    ensures forall f :: f in Counted(tp, proof).order ==> f in Counted(tp, proof).proofs
  {
  }

  class Approvals {
    const cr: Suite
    const cfg: Config

    var proposals: map<Str, Tracked>
    var artifactProofs: map<Str, seq<Proof>>
    var ready: bool
    var written: seq<Write>

    ghost var checked: Option<Checked>
    ghost var signed: set<Checked>
    ghost var seen: set<Str>
    ghost var resolved: map<Str, Proposal>

    ghost function View(): (s: Client)
      reads this
    {
      Client(proposals, artifactProofs, ready, checked, signed, seen, resolved, written)
    }

    constructor (cr: Suite, cfg: Config)
      ensures this.cr == cr && this.cfg == cfg && View() == FRESH_CLIENT
    {
      this.cr, this.cfg := cr, cfg;
      proposals, artifactProofs, ready, written := map[], map[], false, [];
      checked, signed, seen, resolved := None, {}, {}, map[];
    }

    method Propose(p: Proposal) returns (ok: bool)
      modifies this
      ensures ok <==> p.source != [] && p.ref != [] && p.hash != [] && old(ready)
      ensures View() == Artifacts.Propose(cr, cfg, old(View()), p)
      ensures ok ==> p.id in proposals && proposals[p.id].initiator && proposals[p.id].approvers == {}
                     && proposals[p.id].prop == p.(proposer := cr.fingerprint(cfg.key), quorum := proposals[p.id].prop.quorum)
                     && proposals[p.id].prop.quorum == (if p.quorum < 1 then 1 else p.quorum)
      ensures !ok ==> proposals == old(proposals)
    {
      if p.source == [] || p.ref == [] || p.hash == [] {
        return false;
      }
      var quorum := p.quorum;
      if quorum < 1 {
        quorum := 1;
      }
      if !ready {
        return false;
      }
      var body := p.(proposer := SelfFpr(cr, cfg), quorum := quorum);
      proposals := proposals[p.id := Tracked(body, {}, [], map[], false, true)];
      seen := seen + {p.id};
      return true;
    }

    method OnArtifactProposal(senderFpr: Str, body: Proposal, expired: bool)
      modifies this
      ensures View() == Receive(old(View()), senderFpr, body, expired)
      ensures body.id !in old(proposals) ==>
        (body.id in proposals <==> body.id != [] && body.hash != [] && body.quorum >= 1 && body.proposer == senderFpr && !expired)
      ensures body.id !in old(proposals) && body.id in proposals ==> proposals[body.id] == Tracked(body, {}, [], map[], false, false)
      ensures forall x :: x in old(proposals) ==> x in proposals && proposals[x] == old(proposals)[x]
    {
      if body.id == [] || body.hash == [] || body.quorum < 1 {
        return;
      }
      if body.proposer != senderFpr {
        return;
      }
      if expired {
        return;
      }
      if body.id in proposals {
        return;
      }
      proposals := proposals[body.id := Tracked(body, {}, [], map[], false, false)];
      seen := seen + {body.id};
    }

    /** onArtifactApproval before it re-locks. */
    method VerifyApproval(senderPub: Bytes, body: Approval) returns (passed: Option<Checked>)
      modifies this
      ensures View() == Check(cr, old(View()), senderPub, body) && passed == checked
      ensures passed.Some? ==>
        && body.id in proposals && passed.value.prop == proposals[body.id].prop && body.hash == passed.value.prop.hash
        && passed.value.proof == Proof(cr.fingerprint(senderPub), senderPub, body.sig, body.attestation, body.role)
    {
      checked := None;
      if body.id !in proposals {
        return None;
      }
      var prop := proposals[body.id].prop;
      if body.hash != prop.hash {
        return None;
      }
      var signer := cr.fingerprint(senderPub);
      if body.approver != signer {
        return None;
      }
      var preimage := Preimage(prop.id, prop.hash, body.approver, prop.nonce, body.role);
      if |senderPub| != KEY_SIZE || !cr.verify(senderPub, preimage, body.sig) {
        return None;
      }
      passed := Some(Checked(prop, Proof(signer, senderPub, body.sig, body.attestation, body.role)));
      checked := passed;
    }

    /** trackedProposal.addApprover on the entry for id. */
    method AddApprover(id: Str, fpr: Str) returns (added: bool)
      requires id in proposals
      modifies this`proposals
      ensures added == (fpr != old(proposals)[id].prop.proposer && fpr !in old(proposals)[id].approvers)
      ensures proposals == if !added then old(proposals)
                           else var tp := old(proposals)[id];
                                old(proposals)[id := tp.(approvers := tp.approvers + {fpr}, order := tp.order + [fpr])]
    {
      var tp := proposals[id];
      if fpr == tp.prop.proposer || fpr in tp.approvers {
        return false;
      }
      proposals := proposals[id := tp.(approvers := tp.approvers + {fpr}, order := tp.order + [fpr])];
      return true;
    }

    /** The proofs in arrival order, as countArtifactApproval snapshots them. */
    method Snapshot(tp: Tracked) returns (captured: seq<Proof>)
      requires forall f :: f in tp.order ==> f in tp.proofs
      ensures captured == Captured(tp)
      ensures |captured| == |tp.order| && forall i :: 0 <= i < |captured| ==> captured[i] == tp.proofs[tp.order[i]]
    {
      captured := [];
      for i := 0 to |tp.order|
        invariant captured == Captured(tp)[..i]
      {
        captured := captured + [tp.proofs[tp.order[i]]];
      }
    }

    method CountArtifactApproval(id: Str, proof: Proof, approvedAt: Str)
      requires Paired(View())
      modifies this
      ensures View() == Count(SelfFpr(cr, cfg), old(View()), id, proof, approvedAt)
    {
      hide Captured, MinFpr, MetaOf, Counted;
      var tp := Tally(id, proof);
      if tp.None? || |tp.value.approvers| < tp.value.prop.quorum {
        return;
      }
      PairedCounted(old(proposals)[id], proof);
      Resolve(id, tp.value, approvedAt);
      assert old(proposals)[id := tp.value] - {id} == old(proposals) - {id};
    }

    /** The tally: a tracked proposal, a new approver other than the proposer. */
    method Tally(id: Str, proof: Proof) returns (tp: Option<Tracked>)
      modifies this`proposals
      ensures tp.None? ==> proposals == old(proposals)
      ensures tp.None? <==> id !in old(proposals) || proof.fpr == old(proposals)[id].prop.proposer
                            || proof.fpr in old(proposals)[id].approvers
      ensures tp.Some? ==> tp.value == Counted(old(proposals)[id], proof) && proposals == old(proposals)[id := tp.value]
                           && tp.value.prop == old(proposals)[id].prop
    {
      if id !in proposals {
        return None;
      }
      var added := AddApprover(id, proof.fpr);
      if !added {
        return None;
      }
      var t := proposals[id].(proofs := proposals[id].proofs[proof.fpr := proof]);
      proposals := proposals[id := t];
      return Some(t);
    }

    /** The quorum branch: retain the proofs, drop the proposal, and write the entry if we are its writer. */
    method Resolve(id: Str, tp: Tracked, approvedAt: Str)
      requires forall f :: f in tp.order ==> f in tp.proofs
      modifies this`proposals, this`artifactProofs, this`resolved, this`written
      ensures proposals == old(proposals) - {id}
      ensures artifactProofs == old(artifactProofs)[id := Captured(tp)]
      ensures resolved == old(resolved)[id := tp.prop]
      ensures written == if MinFpr(tp.order) == SelfFpr(cr, cfg)
                         then old(written) + [Write(tp.prop, tp.approvers, MetaOf(tp.prop, MinFpr(tp.order), approvedAt))]
                         else old(written)
    {
      var captured := Snapshot(tp);
      artifactProofs := artifactProofs[id := captured];
      proposals := proposals - {id};
      resolved := resolved[id := tp.prop];
      var writer := LeastFingerprint(tp.order);
      if writer == SelfFpr(cr, cfg) {
        WriteArtifactEntry(tp.prop, tp.approvers, writer, approvedAt);
      }
    }

    method WriteArtifactEntry(prop: Proposal, counted: set<Str>, writer: Str, approvedAt: Str)
      modifies this`written
      ensures written == old(written) + [Write(prop, counted, MetaOf(prop, writer, approvedAt))]
      ensures BodyOf(prop, writer, approvedAt, written[|written| - 1].meta)
    {
      var meta := Meta(prop.source, prop.ref, prop.hash, writer, prop.proposedAt, approvedAt, prop.id, prop.nonce, prop.proposer);
      written := written + [Write(prop, counted, meta)];
    }

    method ApproveArtifact(id: Str, requested: Wire, attestation: Bytes) returns (preimage: Option<Bytes>)
      modifies this
      ensures View() == Sign(cr, cfg, old(View()), id, requested, attestation)
      ensures preimage.Some? ==> id in proposals && proposals[id].prop.proposer != cr.fingerprint(cfg.key) && !proposals[id].approved
      ensures preimage.Some? ==> exists role: Wire ::
        && RoleAnswers(cfg.credential, requested, Some(role))
        && preimage.value == SignedApproval(proposals[id].prop, cr.fingerprint(cfg.key), role)
      ensures preimage.None? <==> id !in proposals || !ready || proposals[id].approved || proposals[id].prop.hash == []
                                  || proposals[id].prop.proposer == cr.fingerprint(cfg.key) || RoleAnswers(cfg.credential, requested, None)
      ensures (if preimage.Some? then {(cfg.key, preimage.value)} else {})
              == NewlySigned(cr, cfg, old(View()), Step.SignApproval(id, requested, attestation))
    {
      if id !in proposals {
        return None;
      }
      var tp := proposals[id];
      if tp.prop.proposer == SelfFpr(cr, cfg) {
        return None;
      }
      if tp.approved {
        return None;
      }
      if tp.prop.hash == [] {
        return None;
      }
      if !ready {
        return None;
      }
      var role := ResolveRole(cfg.credential, requested);
      if role.None? {
        return None;
      }
      assert !RoleAnswers(cfg.credential, requested, None) && SignedApproval(tp.prop, SelfFpr(cr, cfg), role.value)
        == Preimage(tp.prop.id, tp.prop.hash, SelfFpr(cr, cfg), tp.prop.nonce, role.value);
      var msg := Preimage(tp.prop.id, tp.prop.hash, SelfFpr(cr, cfg), tp.prop.nonce, role.value);
      signed := signed + {Checked(tp.prop, Proof(SelfFpr(cr, cfg), cfg.key, cr.sign(cfg.key, msg), attestation, role.value))};
      return Some(msg);
    }

    /** onArtifactRejection, RejectArtifact, expireProposal, and Propose's failed send. */
    method Discard(id: Str) returns (found: bool)
      modifies this
      ensures found == (id in old(proposals))
      ensures View() == Drop(old(View()), id)
      ensures id !in proposals && artifactProofs == old(artifactProofs) && written == old(written)
      ensures forall x :: x != id ==> (x in proposals <==> x in old(proposals))
      ensures forall x :: x in proposals ==> x in old(proposals) && proposals[x] == old(proposals)[x]
    {
      found := id in proposals;
      proposals := proposals - {id};
    }

    /** clearProposalsLocked. */
    method Clear()
      modifies this
      ensures View() == Vanish(old(View())) && proposals == map[] && artifactProofs == map[]
    {
      proposals, artifactProofs := map[], map[];
    }
  }
}
