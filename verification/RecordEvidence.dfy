/**
 What a sealed record proves to somebody who holds nothing but the file: exactly when the offline
 verifier accepts it, spelled out, and who must then have signed what.
 */
module RecordEvidence {
  import opened Bytes
  import opened Crypto
  import opened Statements
  import opened Records
  import opened Sealing
  import opened Cosigning
  import Artifacts

  /** What a signer of the record signed: its room and its last entry's digest, and the meaning it declared if any. */
  function SealMessage(cr: Suite, r: SealedRecord, f: Str): Bytes {
    var head := if r.entries == [] then seq(32, _ => 0) else cr.hash(Canonical(r.entries[|r.entries| - 1]));
    if f in r.endorsements
    then Encode(SealV2(r.room, r.endorsements[f].meaning, r.endorsements[f].name, r.endorsements[f].signedAt, head))
    else Encode(Seal(r.room, head))
  }

  /** What an approver signed: the id, artifact hash and nonce of the entry, itself, and its role if any. */
  function ApprovalMessage(m: Meta, p: ApprovalProof): Bytes {
    if p.role == [] then Encode(ArtifactApproval(m.proposalID, m.hash, p.fpr, m.nonce))
    else Encode(ArtifactApprovalV2(m.proposalID, m.hash, p.fpr, m.nonce, p.role))
  }

  /** Entry i is an artifact entry whose body says m, and m names this proposal. */
  predicate Says(pm: MetaParser, r: SealedRecord, i: int, pid: Str, m: Meta) {
    0 <= i < |r.entries| && r.entries[i].kind == Ascii("artifact") && pm(r.entries[i].body) == Some(m) && m.proposalID == pid
  }

  /** Entry i is the first to name the proposal, its body m carries a nonce, and every proof filed under it verifies over m. */
  ghost predicate StandOn(cr: Suite, pm: MetaParser, r: SealedRecord, pid: Str, i: int, m: Meta)
    requires pid in r.approvals
  {
    && Says(pm, r, i, pid, m) && pid != [] && m.nonce != []
    && (forall j, n :: 0 <= j < i ==> !Says(pm, r, j, pid, n))
    && forall k :: 0 <= k < |r.approvals[pid]| ==>
         FiledBy(cr, r.approvals[pid][k].fpr, r.approvals[pid][k].key, r.approvals[pid][k].sig, ApprovalMessage(m, r.approvals[pid][k]))
  }

  ghost predicate ProofsStand(cr: Suite, pm: MetaParser, r: SealedRecord, pid: Str)
    requires pid in r.approvals
  {
    exists i, m :: StandOn(cr, pm, r, pid, i, m)
  }

  /** Two artifact entries name one proposal. */
  ghost predicate NamedTwice(pm: MetaParser, r: SealedRecord) {
    exists i, j, pid, m, n :: Says(pm, r, i, pid, m) && Says(pm, r, j, pid, n) && i < j && pid != []
  }

  /** Everything the file must show. */
  ghost predicate Evident(cr: Suite, pm: MetaParser, r: SealedRecord) {
    && (r.version == Ascii("v1") || r.version == Ascii("v2"))
    && (forall i :: 0 <= i < |r.entries| ==> SignedInPlace(cr, r.entries[..i], r.entries[i]))
    && cr.unhex(r.headHash) == Some(if r.entries == [] then seq(32, _ => 0) else cr.hash(Canonical(r.entries[|r.entries| - 1])))
    && r.signatures.Keys != {}
    && (forall f :: f in r.signatures ==> f in r.signerKeys && FiledBy(cr, f, r.signerKeys[f], r.signatures[f], SealMessage(cr, r, f)))
    && (r.approvals.Keys != {} ==> !NamedTwice(pm, r))
    && (forall pid :: pid in r.approvals ==> ProofsStand(cr, pm, r, pid))
  }

  lemma SealExactly(cr: Suite, r: SealedRecord, f: Str)
    requires f in r.signatures
    ensures SignatureOk(cr, r, f) <==> f in r.signerKeys && FiledBy(cr, f, r.signerKeys[f], r.signatures[f], SealMessage(cr, r, f))
  {
    hide Encode, Canonical;
    assert SealPreimage(r.room, Head(cr, r.entries), r.endorsements, f) == SealMessage(cr, r, f);
  }

  lemma ProofExactly(cr: Suite, m: Meta, p: ApprovalProof)
    ensures ProofOk(cr, m, p) <==> FiledBy(cr, p.fpr, p.key, p.sig, ApprovalMessage(m, p))
  {
    hide Encode;
    assert Artifacts.Preimage(m.proposalID, m.hash, p.fpr, m.nonce, p.role) == ApprovalMessage(m, p);
  }

  lemma SaysExactly(pm: MetaParser, r: SealedRecord, i: nat, pid: Str)
    requires i < |r.entries| && pid != []
    ensures Names(pm, r.entries[i], pid) <==> exists m :: Says(pm, r, i, pid, m)
    ensures forall m :: Says(pm, r, i, pid, m) ==> ProposalIn(pm, r.entries[i]) == Some(m)
  {
    if Names(pm, r.entries[i], pid) {
      assert Says(pm, r, i, pid, pm(r.entries[i].body).value);
    }
  }

  lemma {:induction false} FirstIsFirst(pm: MetaParser, entries: seq<Entry>, pid: Str, i: nat)
    requires FirstNaming(pm, entries, pid) == Some(i)
    ensures i < |entries| && Names(pm, entries[i], pid) && forall j :: 0 <= j < i ==> !Names(pm, entries[j], pid)
  {
    var n := |entries| - 1;
    if i < n {
      FirstIsFirst(pm, entries[..n], pid, i);
      assert forall j :: 0 <= j < i ==> entries[..n][j] == entries[j];
    } else {
      assert forall j :: 0 <= j < n ==> entries[..n][j] == entries[j];
    }
  }

  lemma ProofsExactly(cr: Suite, pm: MetaParser, r: SealedRecord, pid: Str)
    requires pid in r.approvals
    ensures ProofSetOk(cr, pm, r, pid) <==> ProofsStand(cr, pm, r, pid)
  {
    hide FirstNaming, ProofOk, FiledBy, ApprovalMessage;
    forall m: Meta, p: ApprovalProof
      ensures ProofOk(cr, m, p) <==> FiledBy(cr, p.fpr, p.key, p.sig, ApprovalMessage(m, p))
    {
      ProofExactly(cr, m, p);
    }
    if ProofSetOk(cr, pm, r, pid) {
      ProofsStandFor(cr, pm, r, pid);
    }
    if ProofsStand(cr, pm, r, pid) {
      StandingProofsOk(cr, pm, r, pid);
    }
  }

  lemma ProofsStandFor(cr: Suite, pm: MetaParser, r: SealedRecord, pid: Str)
    requires pid in r.approvals && ProofSetOk(cr, pm, r, pid)
    requires forall m: Meta, p: ApprovalProof :: ProofOk(cr, m, p) <==> FiledBy(cr, p.fpr, p.key, p.sig, ApprovalMessage(m, p))
    ensures ProofsStand(cr, pm, r, pid)
  {
    hide FirstNaming, ProofOk, FiledBy, ApprovalMessage;
    var i := FirstNaming(pm, r.entries, pid).value;
    var m := ProposalIn(pm, r.entries[i]).value;
    FirstIsFirst(pm, r.entries, pid, i);
    assert pid == m.proposalID;
    forall j, n | 0 <= j < i
      ensures !Says(pm, r, j, pid, n)
    {
      SaysExactly(pm, r, j, pid);
    }
    assert StandOn(cr, pm, r, pid, i, m);
  }

  lemma StandingProofsOk(cr: Suite, pm: MetaParser, r: SealedRecord, pid: Str)
    requires pid in r.approvals && ProofsStand(cr, pm, r, pid)
    requires forall m: Meta, p: ApprovalProof :: ProofOk(cr, m, p) <==> FiledBy(cr, p.fpr, p.key, p.sig, ApprovalMessage(m, p))
    ensures ProofSetOk(cr, pm, r, pid)
  {
    hide FirstNaming, ProofOk, FiledBy, ApprovalMessage;
    var i, m :| StandOn(cr, pm, r, pid, i, m);
    SaysExactly(pm, r, i, pid);
    assert FirstNaming(pm, r.entries, pid).Some?;
    var first := FirstNaming(pm, r.entries, pid).value;
    FirstIsFirst(pm, r.entries, pid, first);
    SaysExactly(pm, r, first, pid);
    assert first == i;
  }

  lemma DistinctExactly(pm: MetaParser, r: SealedRecord)
    ensures DistinctProposals(pm, r.entries) <==> !NamedTwice(pm, r)
  {
    if i, j, pid, m, n :| Says(pm, r, i, pid, m) && Says(pm, r, j, pid, n) && i < j && pid != [] {
      SaysExactly(pm, r, i, pid);
      SaysExactly(pm, r, j, pid);
    }
    forall i, j | 0 <= i < j < |r.entries| && ProposalIn(pm, r.entries[i]).Some? && ProposalIn(pm, r.entries[j]).Some?
                  && !NamedTwice(pm, r)
      ensures ProposalIn(pm, r.entries[i]).value.proposalID != ProposalIn(pm, r.entries[j]).value.proposalID
    {
      var m, n := ProposalIn(pm, r.entries[i]).value, ProposalIn(pm, r.entries[j]).value;
      assert Says(pm, r, i, m.proposalID, m) && Says(pm, r, j, n.proposalID, n);
    }
  }

  /** The verifier accepts a record if and only if the file shows all of it. */
  lemma VerifiesExactly(cr: Suite, pm: MetaParser, r: SealedRecord)
    ensures RecordVerifies(cr, pm, r) <==> Evident(cr, pm, r)
  {
    hide SignatureOk, FiledBy, SealMessage, ProofSetOk, ProofsStand, DistinctProposals, NamedTwice, SignedInPlace, ChainVerifies, Canonical;
    ChainExactly(cr, r.entries);
    DistinctExactly(pm, r);
    forall f | f in r.signatures
      ensures SignatureOk(cr, r, f) <==> f in r.signerKeys && FiledBy(cr, f, r.signerKeys[f], r.signatures[f], SealMessage(cr, r, f))
    {
      SealExactly(cr, r, f);
    }
    forall pid | pid in r.approvals
      ensures ProofSetOk(cr, pm, r, pid) <==> ProofsStand(cr, pm, r, pid)
    {
      ProofsExactly(cr, pm, r, pid);
    }
    assert r.approvals == map[] <==> r.approvals.Keys == {};
    assert r.signatures == map[] <==> r.signatures.Keys == {};
  }

  // ---- who signed what ----

  /** No signature the file carries was forged. */
  ghost predicate Genuine(cr: Suite, log: SignedLog, r: SealedRecord) {
    && (forall i :: 0 <= i < |r.entries| ==> Unforged(cr, log, r.entries[i].authorKey, r.entries[i].sig))
    && (forall f :: f in r.signatures && f in r.signerKeys ==> GenuineText(cr, log, r.signerKeys[f], r.signatures[f]))
    && (forall pid, k :: pid in r.approvals && 0 <= k < |r.approvals[pid]| ==>
          GenuineText(cr, log, r.approvals[pid][k].key, r.approvals[pid][k].sig))
  }

  /** For every proof filed under a proposal, its signer approved what one entry of the record says. */
  ghost predicate Approved(cr: Suite, pm: MetaParser, log: SignedLog, r: SealedRecord, pid: Str)
    requires pid in r.approvals
  {
    exists i, m :: Says(pm, r, i, pid, m) && m.nonce != []
      && forall k :: 0 <= k < |r.approvals[pid]| ==> DidSign(cr, log, r.approvals[pid][k].fpr, ApprovalMessage(m, r.approvals[pid][k]))
  }

  /**
   Soundness of the offline verifier. If a record verifies and no signature in it is forged, then
   every entry was signed, in its place, by the key with its author's fingerprint; every listed signer
   signed this room and this head, with the meaning shown; and every stored approval was signed, by
   the fingerprint it is filed under, over the id, hash and nonce of one entry of this very record.
   */
  lemma VerifiedWasSigned(cr: Suite, pm: MetaParser, log: SignedLog, r: SealedRecord)
    requires RecordVerifies(cr, pm, r) && Genuine(cr, log, r)
    ensures forall i :: 0 <= i < |r.entries| ==> DidSign(cr, log, r.entries[i].authorID, Canonical(r.entries[i]))
    ensures forall f :: f in r.signatures ==> DidSign(cr, log, f, SealMessage(cr, r, f))
    ensures forall pid :: pid in r.approvals ==> Approved(cr, pm, log, r, pid)
  {
    hide RecordVerifies, FiledBy, SealMessage, ApprovalMessage, GenuineText, DidSign, Canonical;
    VerifiesExactly(cr, pm, r);
    forall i | 0 <= i < |r.entries|
      ensures DidSign(cr, log, r.entries[i].authorID, Canonical(r.entries[i]))
    {
      EntryWasSigned(cr, log, r.entries[..i], r.entries[i]);
    }
    forall f | f in r.signatures
      ensures DidSign(cr, log, f, SealMessage(cr, r, f))
    {
      FiledWasSigned(cr, log, f, r.signerKeys[f], r.signatures[f], SealMessage(cr, r, f));
    }
    forall pid | pid in r.approvals
      ensures Approved(cr, pm, log, r, pid)
    {
      ProofsWereSigned(cr, pm, log, r, pid);
    }
  }

  lemma EntryWasSigned(cr: Suite, log: SignedLog, before: seq<Entry>, e: Entry)
    requires SignedInPlace(cr, before, e) && Unforged(cr, log, e.authorKey, e.sig)
    ensures DidSign(cr, log, e.authorID, Canonical(e))
  {
    hide Canonical;
    assert (e.authorKey, Canonical(e)) in log;
  }

  lemma ProofsWereSigned(cr: Suite, pm: MetaParser, log: SignedLog, r: SealedRecord, pid: Str)
    requires pid in r.approvals && ProofsStand(cr, pm, r, pid)
    requires forall k :: 0 <= k < |r.approvals[pid]| ==> GenuineText(cr, log, r.approvals[pid][k].key, r.approvals[pid][k].sig)
    ensures Approved(cr, pm, log, r, pid)
  {
    hide FiledBy, ApprovalMessage, GenuineText, DidSign;
    var i, m :| StandOn(cr, pm, r, pid, i, m);
    forall k | 0 <= k < |r.approvals[pid]|
      ensures DidSign(cr, log, r.approvals[pid][k].fpr, ApprovalMessage(m, r.approvals[pid][k]))
    {
      var p := r.approvals[pid][k];
      FiledWasSigned(cr, log, p.fpr, p.key, p.sig, ApprovalMessage(m, p));
    }
  }
}
