/**
 Assembling a sealed record from a seal snapshot, and the offline verifier that reads it: what a
 client seals is accepted with exactly the collected signers, and exactly when it must be.
 */
module Sealing {
  import opened Bytes
  import opened Crypto
  import opened Statements
  import opened Records
  import Artifacts
  import Cosigning

  type Meta = Artifacts.Meta
  type Proof = Artifacts.Proof

  /** ParseArtifactBody: the JSON decoding of an artifact entry's body. */
  type MetaParser = Str -> Option<Meta>

  datatype Endorsement = Endorsement(meaning: Wire, name: Wire, signedAt: Wire)

  /** sealSnapshot, and equally the active round's fields. */
  datatype Snapshot = Snapshot(head: Digest, entries: seq<Entry>, sigs: map<Str, Bytes>, keys: map<Str, Bytes>,
                               endorse: map<Str, Endorsement>)

  datatype ApprovalProof = ApprovalProof(fpr: Str, key: Str, sig: Str, role: Wire)

  datatype SealedRecord = SealedRecord(version: Str, room: Wire, sealedBy: Str, entries: seq<Entry>, headHash: Str,
                                       signatures: map<Str, Str>, signerKeys: map<Str, Str>,
                                       endorsements: map<Str, Endorsement>, approvals: map<Str, seq<ApprovalProof>>)

  function V1(): Str { Ascii("v1") }
  function V2(): Str { Ascii("v2") }

  /** v1 bare head, or v2 when the signer declared a meaning. */
  function SealPreimage(room: Str, head: Bytes, endorse: map<Str, Endorsement>, f: Str): Bytes {
    if f in endorse then Encode(SealV2(room, endorse[f].meaning, endorse[f].name, endorse[f].signedAt, head))
    else Encode(Seal(room, head))
  }

  /** Every collected signature verifies, under its signer's own key, over the preimage its endorsement selects. */
  ghost predicate Collected(cr: Suite, room: Str, snap: Snapshot) {
    && snap.sigs != map[]
    && snap.keys.Keys == snap.sigs.Keys
    && snap.endorse.Keys <= snap.sigs.Keys
    && forall f :: f in snap.sigs ==>
         cr.fingerprint(snap.keys[f]) == f && Verifies(cr, snap.keys[f], SealPreimage(room, snap.head, snap.endorse, f), snap.sigs[f])
  }

  // ---- artifact entries ----

  /** The metadata of an artifact entry that names a proposal. */
  function ProposalIn(pm: MetaParser, e: Entry): Option<Meta> {
    if e.kind == KindArtifact() && pm(e.body).Some? && pm(e.body).value.proposalID != [] then pm(e.body) else None
  }

  predicate Names(pm: MetaParser, e: Entry, pid: Str) {
    ProposalIn(pm, e).Some? && ProposalIn(pm, e).value.proposalID == pid
  }

  /** No two artifact entries name one proposal. */
  predicate DistinctProposals(pm: MetaParser, entries: seq<Entry>) {
    forall i, j :: 0 <= i < j < |entries| && ProposalIn(pm, entries[i]).Some? && ProposalIn(pm, entries[j]).Some? ==>
      ProposalIn(pm, entries[i]).value.proposalID != ProposalIn(pm, entries[j]).value.proposalID
  }

  /** artifactMetaByProposal: the first entry that names it. */
  function FirstNaming(pm: MetaParser, entries: seq<Entry>, pid: Str): (r: Option<nat>)
    ensures r.Some? ==> r.value < |entries| && Names(pm, entries[r.value], pid)
    ensures r.None? ==> forall i :: 0 <= i < |entries| ==> !Names(pm, entries[i], pid)
  {
    if entries == [] then None
    else
      var n := |entries| - 1;
      match FirstNaming(pm, entries[..n], pid)
      case Some(i) => Some(i)
      case None => if Names(pm, entries[n], pid) then Some(n) else None
  }

  /** The proofs the Sealer keeps out of a retained list, in order. */
  function Accepted(cr: Suite, m: Meta, proofs: seq<Proof>): (r: seq<ApprovalProof>)
    ensures (forall i :: 0 <= i < |proofs| ==> Artifacts.SealerAccepts(cr, m, proofs[i])) ==> |r| == |proofs|
  {
    if proofs == [] then []
    else
      var n := |proofs| - 1;
      var p := proofs[n];
      Accepted(cr, m, proofs[..n])
      + if Artifacts.SealerAccepts(cr, m, p)
        then [ApprovalProof(cr.fingerprint(p.key), cr.base64(p.key), cr.base64(p.sig), p.role)] else []
  }

  function Lookup<T>(m: map<Str, seq<T>>, k: Str): seq<T> {
    if k in m then m[k] else []
  }

  /** assembleSealedLocked's loop over the artifact entries, up to the n-th. */
  function ApprovalsUpTo(cr: Suite, pm: MetaParser, entries: seq<Entry>, retained: map<Str, seq<Proof>>, n: nat): (r: map<Str, seq<ApprovalProof>>)
    requires n <= |entries|
  {
    if n == 0 then map[]
    else
      var before := ApprovalsUpTo(cr, pm, entries, retained, n - 1);
      match ProposalIn(pm, entries[n - 1])
      case None => before
      case Some(m) =>
        assert Names(pm, entries[n - 1], m.proposalID);
        var first := FirstNaming(pm, entries, m.proposalID).value;
        var added := Accepted(cr, ProposalIn(pm, entries[first]).value, Lookup(retained, m.proposalID));
        if added == [] then before else before[m.proposalID := Lookup(before, m.proposalID) + added]
  }

  function ApprovalsOf(cr: Suite, pm: MetaParser, entries: seq<Entry>, retained: map<Str, seq<Proof>>): map<Str, seq<ApprovalProof>> {
    ApprovalsUpTo(cr, pm, entries, retained, |entries|)
  }

  /** recordVersion. */
  function VersionOf(entries: seq<Entry>, endorse: map<Str, Endorsement>, approvals: map<Str, seq<ApprovalProof>>): Str {
    if endorse != map[] || approvals != map[] || exists i :: 0 <= i < |entries| && Extended(entries[i]) then V2() else V1()
  }

  /** assembleSealedLocked over a snapshot whose signatures all verify: the Sealer keeps every one. */
  function Assemble(cr: Suite, pm: MetaParser, room: Wire, sealedBy: Str, snap: Snapshot, retained: map<Str, seq<Proof>>): SealedRecord {
    var approvals := ApprovalsOf(cr, pm, snap.entries, retained);
    SealedRecord(VersionOf(snap.entries, snap.endorse, approvals), room, sealedBy, snap.entries,
                 cr.hex(Head(cr, snap.entries)), Cosigning.Base64Map(cr, snap.sigs), Cosigning.Base64Map(cr, snap.keys), snap.endorse, approvals)
  }

  // ---- the offline verifier ----

  predicate SignatureOk(cr: Suite, r: SealedRecord, f: Str)
    requires f in r.signatures
  {
    && f in r.signerKeys
    && cr.unbase64(r.signerKeys[f]).Some? && cr.unbase64(r.signatures[f]).Some?
    && var key := cr.unbase64(r.signerKeys[f]).value;
       |key| == KEY_SIZE && cr.fingerprint(key) == f
       && cr.verify(key, SealPreimage(r.room, Head(cr, r.entries), r.endorsements, f), cr.unbase64(r.signatures[f]).value)
  }

  /** One stored approval proof, against the metadata of the entry it is filed under. */
  predicate ProofOk(cr: Suite, m: Meta, p: ApprovalProof) {
    && cr.unbase64(p.key).Some? && cr.unbase64(p.sig).Some?
    && var key := cr.unbase64(p.key).value;
       |key| == KEY_SIZE && cr.fingerprint(key) == p.fpr
       && cr.verify(key, Artifacts.Preimage(m.proposalID, m.hash, p.fpr, m.nonce, p.role), cr.unbase64(p.sig).value)
  }

  predicate ProofSetOk(cr: Suite, pm: MetaParser, r: SealedRecord, pid: Str)
    requires pid in r.approvals
  {
    && FirstNaming(pm, r.entries, pid).Some?
    && var m := ProposalIn(pm, r.entries[FirstNaming(pm, r.entries, pid).value]).value;
       m.nonce != [] && forall i :: 0 <= i < |r.approvals[pid]| ==> ProofOk(cr, m, r.approvals[pid][i])
  }

  predicate RecordVerifies(cr: Suite, pm: MetaParser, r: SealedRecord) {
    && (r.version == V1() || r.version == V2())
    && ChainVerifies(cr, r.entries)
    && cr.unhex(r.headHash) == Some(Head(cr, r.entries))
    && r.signatures != map[]
    && (forall f :: f in r.signatures ==> SignatureOk(cr, r, f))
    && (r.approvals != map[] ==>
          DistinctProposals(pm, r.entries) && forall pid :: pid in r.approvals ==> ProofSetOk(cr, pm, r, pid))
  }

  /** The approvers surfaced for a proposal: everyone with a proof, minus the entry's author and the proposer. */
  function Surfaced(pm: MetaParser, r: SealedRecord, pid: Str): set<Str>
    requires pid in r.approvals && FirstNaming(pm, r.entries, pid).Some?
  {
    var e := r.entries[FirstNaming(pm, r.entries, pid).value];
    (set i | 0 <= i < |r.approvals[pid]| :: r.approvals[pid][i].fpr) - {e.authorID, ProposalIn(pm, e).value.proposer}
  }

  // ---- what is sealed verifies ----

  lemma SignaturesSurvive(cr: Suite, pm: MetaParser, room: Wire, sealedBy: Str, snap: Snapshot, retained: map<Str, seq<Proof>>, f: Str)
    requires TextCodecs(cr) && Collected(cr, room, snap) && snap.head == Head(cr, snap.entries)
    requires f in snap.sigs
    ensures SignatureOk(cr, Assemble(cr, pm, room, sealedBy, snap, retained), f)
  {
    hide SealPreimage, ApprovalsOf;
    var r := Assemble(cr, pm, room, sealedBy, snap, retained);
    assert f in r.signatures && r.signatures[f] == cr.base64(snap.sigs[f]);
    assert f in r.signerKeys && r.signerKeys[f] == cr.base64(snap.keys[f]);
    assert cr.unbase64(cr.base64(snap.sigs[f])) == Some(snap.sigs[f]);
    assert cr.unbase64(cr.base64(snap.keys[f])) == Some(snap.keys[f]);
  }

  /** Everything the Sealer keeps passes the verifier's check against the same entry. */
  lemma {:induction false} AcceptedOk(cr: Suite, m: Meta, proofs: seq<Proof>)
    requires TextCodecs(cr)
    ensures forall i :: 0 <= i < |Accepted(cr, m, proofs)| ==> ProofOk(cr, m, Accepted(cr, m, proofs)[i])
    ensures Accepted(cr, m, proofs) != [] ==> m.nonce != []
  {
    hide Artifacts.Preimage;
    if proofs != [] {
      var n := |proofs| - 1;
      AcceptedOk(cr, m, proofs[..n]);
      var p := proofs[n];
      if Artifacts.SealerAccepts(cr, m, p) {
        assert cr.unbase64(cr.base64(p.key)) == Some(p.key);
        assert cr.unbase64(cr.base64(p.sig)) == Some(p.sig);
        assert ProofOk(cr, m, ApprovalProof(cr.fingerprint(p.key), cr.base64(p.key), cr.base64(p.sig), p.role));
      }
    }
  }

  /** Stored proofs are filed under a proposal some entry names, and pass against its first such entry. */
  ghost predicate Filed(cr: Suite, pm: MetaParser, entries: seq<Entry>, approvals: map<Str, seq<ApprovalProof>>, pid: Str)
    requires pid in approvals
  {
    && FirstNaming(pm, entries, pid).Some?
    && var m := ProposalIn(pm, entries[FirstNaming(pm, entries, pid).value]).value;
       m.nonce != [] && forall i :: 0 <= i < |approvals[pid]| ==> ProofOk(cr, m, approvals[pid][i])
  }

  lemma {:induction false} ApprovalsFiled(cr: Suite, pm: MetaParser, entries: seq<Entry>, retained: map<Str, seq<Proof>>, n: nat)
    requires TextCodecs(cr) && n <= |entries|
    ensures forall pid :: pid in ApprovalsUpTo(cr, pm, entries, retained, n) ==>
      Filed(cr, pm, entries, ApprovalsUpTo(cr, pm, entries, retained, n), pid)
  {
    hide ProofOk, Artifacts.SealerAccepts;
    if n > 0 {
      ApprovalsFiled(cr, pm, entries, retained, n - 1);
      var before := ApprovalsUpTo(cr, pm, entries, retained, n - 1);
      var all := ApprovalsUpTo(cr, pm, entries, retained, n);
      if ProposalIn(pm, entries[n - 1]).Some? {
        var pid := ProposalIn(pm, entries[n - 1]).value.proposalID;
        assert Names(pm, entries[n - 1], pid);
        var m := ProposalIn(pm, entries[FirstNaming(pm, entries, pid).value]).value;
        AcceptedOk(cr, m, Lookup(retained, pid));
        forall x | x in all
          ensures Filed(cr, pm, entries, all, x)
        {
          if x != pid || Accepted(cr, m, Lookup(retained, pid)) == [] {
            assert x in before && Filed(cr, pm, entries, before, x);
          } else if pid in before {
            assert Filed(cr, pm, entries, before, pid);
          }
        }
      }
    }
  }

  /**
   Producer and verifier agree. A record assembled from collected signatures over a verified chain
   is accepted by the offline verifier exactly when it carries no approval proofs or no two of its
   artifact entries name one proposal: a doubly written artifact is what makes a sealed record fail.
   */
  lemma AssembledVerifies(cr: Suite, pm: MetaParser, room: Wire, sealedBy: Str, snap: Snapshot, retained: map<Str, seq<Proof>>)
    requires TextCodecs(cr) && Collected(cr, room, snap)
    requires ChainVerifies(cr, snap.entries) && snap.head == Head(cr, snap.entries)
    ensures var r := Assemble(cr, pm, room, sealedBy, snap, retained);
            && r.signatures.Keys == snap.sigs.Keys
            && (RecordVerifies(cr, pm, r) <==> r.approvals == map[] || DistinctProposals(pm, snap.entries))
  {
    hide SignatureOk, ChainVerifies, DistinctProposals, ProofSetOk, ApprovalsOf, Head, VersionOf, Collected, V1, V2;
    var r := Assemble(cr, pm, room, sealedBy, snap, retained);
    SignaturesAllSurvive(cr, pm, room, sealedBy, snap, retained);
    assert cr.unhex(cr.hex(Head(cr, snap.entries))) == Some(Head(cr, snap.entries));
    VersionKnown(snap.entries, snap.endorse, r.approvals);
    ProofsSurvive(cr, pm, room, sealedBy, snap, retained);
  }

  lemma SignaturesAllSurvive(cr: Suite, pm: MetaParser, room: Wire, sealedBy: Str, snap: Snapshot, retained: map<Str, seq<Proof>>)
    requires TextCodecs(cr) && Collected(cr, room, snap) && snap.head == Head(cr, snap.entries)
    ensures var r := Assemble(cr, pm, room, sealedBy, snap, retained);
            r.signatures.Keys == snap.sigs.Keys && r.signatures != map[]
            && forall f :: f in r.signatures ==> SignatureOk(cr, r, f)
  {
    hide SignatureOk, ApprovalsOf, Head, VersionOf, SealPreimage;
    var r := Assemble(cr, pm, room, sealedBy, snap, retained);
    forall f | f in r.signatures
      ensures SignatureOk(cr, r, f)
    {
      SignaturesSurvive(cr, pm, room, sealedBy, snap, retained, f);
    }
    var f :| f in snap.sigs;
    assert f in r.signatures;
  }

  /** A record says v1 exactly when a v1 reader can read all of it: no meanings, no proofs, and every entry in the v1 layout. */
  lemma VersionKnown(entries: seq<Entry>, endorse: map<Str, Endorsement>, approvals: map<Str, seq<ApprovalProof>>)
    ensures VersionOf(entries, endorse, approvals) == V1() || VersionOf(entries, endorse, approvals) == V2()
    ensures VersionOf(entries, endorse, approvals) == Ascii("v1") <==>
      endorse == map[] && approvals == map[] && forall i :: 0 <= i < |entries| ==> StatementOf(entries[i]).Record?
  {
    assert Ascii("v1")[1] != Ascii("v2")[1];
    forall i | 0 <= i < |entries|
      ensures StatementOf(entries[i]).Record? <==> !Extended(entries[i])
    {
    }
  }

  lemma ProofsSurvive(cr: Suite, pm: MetaParser, room: Wire, sealedBy: Str, snap: Snapshot, retained: map<Str, seq<Proof>>)
    requires TextCodecs(cr)
    ensures var r := Assemble(cr, pm, room, sealedBy, snap, retained);
            forall pid :: pid in r.approvals ==> ProofSetOk(cr, pm, r, pid)
  {
    hide ApprovalsUpTo, ProofOk, Head, VersionOf;
    var r := Assemble(cr, pm, room, sealedBy, snap, retained);
    ApprovalsFiled(cr, pm, snap.entries, retained, |snap.entries|);
    forall pid | pid in r.approvals
      ensures ProofSetOk(cr, pm, r, pid)
    {
      assert Filed(cr, pm, snap.entries, r.approvals, pid);
    }
  }
}
