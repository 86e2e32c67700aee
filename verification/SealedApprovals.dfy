/**
 From an approval to the offline verifier: the quorum a client counted is the quorum anybody reads
 out of the sealed record, minus the one who wrote the entry.
 */
module SealedApprovals {
  import opened Bytes
  import opened Crypto
  import opened Records
  import opened Sealing
  import Artifacts
  import ArtifactProofs
  import ArtifactRuns

  /** With one entry per proposal, the stored list is exactly what the Sealer keeps of the retained one. */
  lemma {:induction false} StoredList(cr: Suite, pm: MetaParser, entries: seq<Entry>, retained: map<Str, seq<Proof>>, i: nat, n: nat)
    requires DistinctProposals(pm, entries) && i < |entries| && n <= |entries| && ProposalIn(pm, entries[i]).Some?
    ensures var m := ProposalIn(pm, entries[i]).value;
            var kept := Accepted(cr, m, Lookup(retained, m.proposalID));
            var all := ApprovalsUpTo(cr, pm, entries, retained, n);
            if i < n && kept != [] then m.proposalID in all && all[m.proposalID] == kept else m.proposalID !in all
  {
    hide Accepted, FirstNaming;
    if n > 0 {
      StoredList(cr, pm, entries, retained, i, n - 1);
      var m := ProposalIn(pm, entries[i]).value;
      if ProposalIn(pm, entries[n - 1]).Some? {
        var pid := ProposalIn(pm, entries[n - 1]).value.proposalID;
        assert Names(pm, entries[n - 1], pid);
        if n - 1 == i {
          OnlyNaming(pm, entries, i);
        } else {
          assert pid != m.proposalID by {
            if n - 1 < i {
              assert ProposalIn(pm, entries[n - 1]).Some? && ProposalIn(pm, entries[i]).Some?;
            }
          }
        }
      }
    }
  }

  lemma OnlyNaming(pm: MetaParser, entries: seq<Entry>, i: nat)
    requires DistinctProposals(pm, entries) && i < |entries| && ProposalIn(pm, entries[i]).Some?
    ensures FirstNaming(pm, entries, ProposalIn(pm, entries[i]).value.proposalID) == Some(i)
  {
  }

  /** When every proof is accepted, every proof is stored, under its key's fingerprint and in order. */
  lemma {:induction false} AcceptedAll(cr: Suite, m: Meta, proofs: seq<Proof>)
    requires forall i :: 0 <= i < |proofs| ==> Artifacts.SealerAccepts(cr, m, proofs[i])
    ensures |Accepted(cr, m, proofs)| == |proofs|
    ensures forall i :: 0 <= i < |proofs| ==> Accepted(cr, m, proofs)[i].fpr == cr.fingerprint(proofs[i].key)
  {
    hide Artifacts.SealerAccepts;
    if proofs != [] {
      var n := |proofs| - 1;
      AcceptedAll(cr, m, proofs[..n]);
    }
  }

  function Signers(list: seq<Proof>): set<Str> {
    set i | 0 <= i < |list| :: list[i].fpr
  }

  lemma {:induction false} DistinctSigners(list: seq<Proof>)
    requires forall i, j :: 0 <= i < j < |list| ==> list[i].fpr != list[j].fpr
    ensures |Signers(list)| == |list|
  {
    if list != [] {
      var n := |list| - 1;
      DistinctSigners(list[..n]);
      assert Signers(list) == Signers(list[..n]) + {list[n].fpr};
    }
  }

  /**
   A retained quorum, sealed. If the chain has one entry per proposal and p's entry carries p's own
   id, hash, nonce and proposer and was authored by one of its approvers, then the sealed record is
   accepted by the offline verifier, stores all quorum proofs, and surfaces exactly the quorum - 1
   approvers other than the author.
   */
  lemma QuorumSurfaces(cr: Suite, pm: MetaParser, room: Wire, sealedBy: Str, snap: Snapshot, retained: map<Str, seq<Proof>>,
                       log: SignedLog, p: Artifacts.Proposal, i: nat, writer: Str, at: Str)
    requires TextCodecs(cr) && Collected(cr, room, snap)
    requires ChainVerifies(cr, snap.entries) && snap.head == Head(cr, snap.entries) && DistinctProposals(pm, snap.entries)
    requires i < |snap.entries| && ProposalIn(pm, snap.entries[i]) == Some(Artifacts.MetaOf(p, writer, at)) && p.nonce != []
    requires p.id in retained && ArtifactProofs.ListOk(ArtifactRuns.RealBacking(cr, log), p, retained[p.id])
    requires snap.entries[i].authorID in Signers(retained[p.id])
    ensures var r := Assemble(cr, pm, room, sealedBy, snap, retained);
            && RecordVerifies(cr, pm, r)
            && p.id in r.approvals && |r.approvals[p.id]| == p.quorum
            && FirstNaming(pm, r.entries, p.id) == Some(i)
            && Surfaced(pm, r, p.id) == Signers(retained[p.id]) - {snap.entries[i].authorID}
            && |Surfaced(pm, r, p.id)| == p.quorum - 1
  {
    hide RecordVerifies, ChainVerifies, Collected, Head, DistinctProposals, ApprovalsUpTo, Accepted, VersionOf, FirstNaming,
         Artifacts.SealerAccepts, Artifacts.Preimage;
    var list := retained[p.id];
    var m := Artifacts.MetaOf(p, writer, at);
    AllAccepted(cr, log, p, list, writer, at);
    AcceptedAll(cr, m, list);
    StoredList(cr, pm, snap.entries, retained, i, |snap.entries|);
    AssembledVerifies(cr, pm, room, sealedBy, snap, retained);
    OnlyNaming(pm, snap.entries, i);
    var stored := Accepted(cr, m, list);
    SignersStored(cr, log, p, list, stored);
    DistinctSigners(list);
    NoProposer(cr, log, p, list);
  }

  lemma AllAccepted(cr: Suite, log: SignedLog, p: Artifacts.Proposal, list: seq<Proof>, writer: Str, at: Str)
    requires p.nonce != [] && ArtifactProofs.ListOk(ArtifactRuns.RealBacking(cr, log), p, list)
    ensures forall i :: 0 <= i < |list| ==> Artifacts.SealerAccepts(cr, Artifacts.MetaOf(p, writer, at), list[i])
  {
  }

  lemma SignersStored(cr: Suite, log: SignedLog, p: Artifacts.Proposal, list: seq<Proof>, stored: seq<ApprovalProof>)
    requires ArtifactProofs.ListOk(ArtifactRuns.RealBacking(cr, log), p, list)
    requires |stored| == |list| && forall i :: 0 <= i < |list| ==> stored[i].fpr == cr.fingerprint(list[i].key)
    ensures (set i | 0 <= i < |stored| :: stored[i].fpr) == Signers(list)
  {
  }

  lemma NoProposer(cr: Suite, log: SignedLog, p: Artifacts.Proposal, list: seq<Proof>)
    requires ArtifactProofs.ListOk(ArtifactRuns.RealBacking(cr, log), p, list)
    ensures p.proposer !in Signers(list)
  {
  }

  /** The same over whole runs of the artifact flow: whatever list a client retained is such a quorum. */
  lemma CountedQuorumSurfaces(cr: Suite, pm: MetaParser, cfgs: map<Bytes, Artifacts.Config>, w: ArtifactRuns.World,
                              steps: seq<ArtifactRuns.WorldStep>, end: ArtifactRuns.World, k: Bytes, id: Str,
                              room: Wire, sealedBy: Str, snap: Snapshot, i: nat, writer: Str, at: Str)
    requires SignsWhatVerifies(cr) && TextCodecs(cr)
    requires ArtifactRuns.Configured(cfgs, w) && ArtifactRuns.Initial(w) && ArtifactRuns.IsRun(cr, cfgs, w, steps, end)
    requires k in end.clients && id in end.clients[k].retained && id in end.clients[k].resolved
    requires Collected(cr, room, snap) && ChainVerifies(cr, snap.entries) && snap.head == Head(cr, snap.entries)
    requires DistinctProposals(pm, snap.entries) && i < |snap.entries|
    requires var p := end.clients[k].resolved[id];
             ProposalIn(pm, snap.entries[i]) == Some(Artifacts.MetaOf(p, writer, at)) && p.nonce != []
    requires snap.entries[i].authorID in Signers(end.clients[k].retained[id])
    ensures var s := end.clients[k];
            var r := Assemble(cr, pm, room, sealedBy, snap, s.retained);
            && RecordVerifies(cr, pm, r) && id in r.approvals && FirstNaming(pm, r.entries, id) == Some(i)
            && Surfaced(pm, r, id) == Signers(s.retained[id]) - {snap.entries[i].authorID}
            && |Surfaced(pm, r, id)| == s.resolved[id].quorum - 1
  {
    hide ArtifactRuns.IsRun, RecordVerifies, ChainVerifies, Collected, Head, DistinctProposals, ApprovalsOf, VersionOf, FirstNaming,
         ArtifactProofs.ListOk, Artifacts.SealerAccepts;
    ArtifactRuns.RetainedProofsSeal(cr, cfgs, w, steps, end, k, id, writer, at);
    var s := end.clients[k];
    QuorumSurfaces(cr, pm, room, sealedBy, snap, s.retained, end.log, s.resolved[id], i, writer, at);
  }
}
