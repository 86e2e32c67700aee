/** record.Verify in its own form: the chain walk, the seal signatures in fingerprint order, the approval proofs in proposal order. */
module RecordVerifier {
  import opened Bytes
  import opened Crypto
  import opened Statements
  import opened Records
  import opened Sealing
  import opened Cosigning
  import opened RecordEvidence
  import Artifacts

  datatype Verdict =
    | Malformed                                     // head_hash is not hex
    | BadVersion
    | BrokenChain
    | HeadMismatch
    | NoSignatures
    | BadSeal(fpr: Str)
    | DuplicateProposal
    | BadProofs(pid: Str)
    | Valid(signers: seq<Str>, approvers: map<Str, set<Str>>)

  /** The chain walk. */
  method WalkChain(cr: Suite, entries: seq<Entry>) returns (ok: bool, prev: Digest)
    ensures ok <==> ChainVerifies(cr, entries)
    ensures ok <==> forall i :: 0 <= i < |entries| ==> SignedInPlace(cr, entries[..i], entries[i])
    ensures ok ==> prev == Head(cr, entries)
  {
    hide EntryVerifies, Canonical, SignedInPlace;
    ChainExactly(cr, entries);
    prev := ZeroHash();
    var i := 0;
    while i < |entries|
      invariant 0 <= i <= |entries|
      invariant ChainVerifies(cr, entries[..i]) && prev == Head(cr, entries[..i])
    {
      var e := entries[i];
      assert entries[..i] + [e] == entries[..i + 1];
      ChainExtends(cr, entries[..i], e);
      if e.seqNo != i || e.prevHash != prev || !EntryVerifies(cr, e) {
        BrokenHere(cr, entries, i);
        return false, prev;
      }
      prev := cr.hash(Canonical(e));
      i := i + 1;
    }
    assert entries[..i] == entries;
    ok := true;
  }

  lemma BrokenHere(cr: Suite, entries: seq<Entry>, i: nat)
    requires i < |entries| && !(Continues(cr, entries[..i], entries[i]) && EntryVerifies(cr, entries[i]))
    ensures !ChainVerifies(cr, entries)
  {
  }

  ghost predicate FirstBadSeal(cr: Suite, r: SealedRecord, f: Str) {
    f in r.signatures && !SignatureOk(cr, r, f) && forall g :: g in r.signatures && !SignatureOk(cr, r, g) ==> AtMost(f, g)
  }

  method CheckSeal(cr: Suite, r: SealedRecord, head: Digest, f: Str) returns (ok: bool)
    requires f in r.signatures && head == Head(cr, r.entries)
    ensures ok == SignatureOk(cr, r, f)
  {
    hide Head, Encode;
    if f !in r.signerKeys {
      return false;
    }
    var key := cr.unbase64(r.signerKeys[f]);
    if key.None? || |key.value| != KEY_SIZE {
      return false;
    }
    if cr.fingerprint(key.value) != f {
      return false;
    }
    var sig := cr.unbase64(r.signatures[f]);
    if sig.None? {
      return false;
    }
    var preimage := Encode(Seal(r.room, head));
    if f in r.endorsements {
      var end := r.endorsements[f];
      preimage := Encode(SealV2(r.room, end.meaning, end.name, end.signedAt, head));
    }
    return cr.verify(key.value, preimage, sig.value);
  }

  /** The seal signatures in fingerprint order: the least faulty signer is the one blamed. */
  method CheckSeals(cr: Suite, r: SealedRecord, head: Digest) returns (bad: Option<Str>, signers: seq<Str>)
    requires head == Head(cr, r.entries)
    ensures bad.None? <==> forall f :: f in r.signatures ==> SignatureOk(cr, r, f)
    ensures bad.None? ==> Lists(r.signatures.Keys, signers)
    ensures bad.Some? ==> FirstBadSeal(cr, r, bad.value)
  {
    hide SignatureOk, Head;
    var order := SortedKeys(r.signatures);
    ListsMembers(r.signatures.Keys, order);
    var i := 0;
    while i < |order|
      invariant 0 <= i <= |order|
      invariant forall j :: 0 <= j < i ==> order[j] in r.signatures && SignatureOk(cr, r, order[j])
    {
      var ok := CheckSeal(cr, r, head, order[i]);
      if !ok {
        forall g | g in r.signatures && !SignatureOk(cr, r, g)
          ensures AtMost(order[i], g)
        {
          var j :| 0 <= j < |order| && order[j] == g;
          assert j >= i;
        }
        return Some(order[i]), [];
      }
      i := i + 1;
    }
    forall f | f in r.signatures
      ensures SignatureOk(cr, r, f)
    {
      var j :| 0 <= j < |order| && order[j] == f;
    }
    return None, order;
  }

  /** The index holds each named proposal's first entry. */
  ghost predicate Indexed(pm: MetaParser, entries: seq<Entry>, index: map<Str, nat>) {
    && (forall pid :: pid in index <==> FirstNaming(pm, entries, pid).Some?)
    && (forall pid :: pid in index ==> FirstNaming(pm, entries, pid) == Some(index[pid]))
  }

  /** Indexing the artifact entries by proposal: a repeated id is ambiguous. */
  method IndexProposals(pm: MetaParser, entries: seq<Entry>) returns (dup: bool, index: map<Str, nat>)
    ensures dup <==> !DistinctProposals(pm, entries)
    ensures !dup ==> Indexed(pm, entries, index)
  {
    hide FirstNaming;
    index := map[];
    var i := 0;
    while i < |entries|
      invariant 0 <= i <= |entries|
      invariant forall pid :: pid in index ==> index[pid] < i && Names(pm, entries[index[pid]], pid)
      invariant forall j :: 0 <= j < i && ProposalIn(pm, entries[j]).Some? ==>
        ProposalIn(pm, entries[j]).value.proposalID in index && index[ProposalIn(pm, entries[j]).value.proposalID] == j
    {
      var e := entries[i];
      if e.kind == KindArtifact() {
        var m := pm(e.body);
        if m.Some? && m.value.proposalID != [] {
          if m.value.proposalID in index {
            var j := index[m.value.proposalID];
            assert ProposalIn(pm, entries[j]).Some? && ProposalIn(pm, entries[i]).Some?;
            return true, index;
          }
          index := index[m.value.proposalID := i];
        }
      }
      i := i + 1;
    }
    dup := false;
    IndexFirst(pm, entries, index);
  }

  lemma IndexFirst(pm: MetaParser, entries: seq<Entry>, index: map<Str, nat>)
    requires forall pid :: pid in index ==> index[pid] < |entries| && Names(pm, entries[index[pid]], pid)
    requires forall j :: 0 <= j < |entries| && ProposalIn(pm, entries[j]).Some? ==>
      ProposalIn(pm, entries[j]).value.proposalID in index && index[ProposalIn(pm, entries[j]).value.proposalID] == j
    ensures DistinctProposals(pm, entries)
    ensures Indexed(pm, entries, index)
  {
  }

  /** One proof set against the entry it is filed under; the distinct approvers, minus author and proposer. */
  method CheckProofs(cr: Suite, m: Meta, author: Str, proofs: seq<ApprovalProof>) returns (ok: bool, others: set<Str>)
    ensures ok <==> m.nonce != [] && forall i :: 0 <= i < |proofs| ==> ProofOk(cr, m, proofs[i])
    ensures ok ==> others == (set i | 0 <= i < |proofs| :: proofs[i].fpr) - {author, m.proposer}
  {
    hide Artifacts.Preimage;
    others := {};
    if m.nonce == [] {
      return false, {};
    }
    var distinct: set<Str> := {};
    var i := 0;
    while i < |proofs|
      invariant 0 <= i <= |proofs|
      invariant forall j :: 0 <= j < i ==> ProofOk(cr, m, proofs[j])
      invariant distinct == set j | 0 <= j < i :: proofs[j].fpr
    {
      var p := proofs[i];
      var key, sig := cr.unbase64(p.key), cr.unbase64(p.sig);
      if key.None? || |key.value| != KEY_SIZE || cr.fingerprint(key.value) != p.fpr || sig.None?
         || !cr.verify(key.value, Artifacts.Preimage(m.proposalID, m.hash, p.fpr, m.nonce, p.role), sig.value) {
        assert !ProofOk(cr, m, proofs[i]);
        return false, {};
      }
      distinct := distinct + {p.fpr};
      i := i + 1;
    }
    return true, distinct - {author, m.proposer};
  }

  /** Somebody beyond author and proposer approved pid. */
  predicate Seconded(pm: MetaParser, r: SealedRecord, pid: Str) {
    pid in r.approvals && FirstNaming(pm, r.entries, pid).Some? && Surfaced(pm, r, pid) != {}
  }

  /** approvers names, for each of these proposals that was seconded, exactly who is surfaced. */
  ghost predicate Reports(pm: MetaParser, r: SealedRecord, pids: set<Str>, approvers: map<Str, set<Str>>) {
    && (forall pid :: pid in approvers <==> pid in pids && Seconded(pm, r, pid))
    && (forall pid :: pid in approvers ==> Seconded(pm, r, pid) && approvers[pid] == Surfaced(pm, r, pid))
  }

  lemma ReportsOneMore(pm: MetaParser, r: SealedRecord, pids: set<Str>, approvers: map<Str, set<Str>>, pid: Str)
    requires Reports(pm, r, pids, approvers) && pid in r.approvals && FirstNaming(pm, r.entries, pid).Some?
    ensures var others := Surfaced(pm, r, pid);
            Reports(pm, r, pids + {pid}, if others != {} then approvers[pid := others] else approvers)
  {
    hide FirstNaming, Surfaced;
  }

  ghost predicate FirstBadProofs(cr: Suite, pm: MetaParser, r: SealedRecord, pid: Str) {
    pid in r.approvals && !ProofSetOk(cr, pm, r, pid)
    && forall q :: q in r.approvals && !ProofSetOk(cr, pm, r, q) ==> AtMost(pid, q)
  }

  /** verifyArtifactApprovals over distinct proposals, in proposal order. */
  method CheckApprovals(cr: Suite, pm: MetaParser, r: SealedRecord, index: map<Str, nat>)
    returns (bad: Option<Str>, approvers: map<Str, set<Str>>)
    requires Indexed(pm, r.entries, index)
    ensures bad.None? <==> forall pid :: pid in r.approvals ==> ProofSetOk(cr, pm, r, pid)
    ensures bad.Some? ==> FirstBadProofs(cr, pm, r, bad.value)
    ensures bad.None? ==> Reports(pm, r, r.approvals.Keys, approvers)
  {
    hide FirstNaming, ProofSetOk, Surfaced, Reports, Indexed, Sofar, Lists;
    var keys := map pid | pid in r.approvals :: [];
    var order := SortedKeys(keys);
    SofarFacts(order);
    assert keys.Keys == r.approvals.Keys;
    ListsMembers(keys.Keys, order);
    approvers := map[];
    ReportsNone(pm, r);
    var i := 0;
    while i < |order|
      invariant 0 <= i <= |order|
      invariant forall pid :: pid in Sofar(order, i) ==> pid in r.approvals && ProofSetOk(cr, pm, r, pid)
      invariant Reports(pm, r, Sofar(order, i), approvers)
    {
      var pid := order[i];
      assert pid in order && pid in keys;
      var ok, others := CheckSet(cr, pm, r, index, pid);
      if !ok {
        FirstInList(cr, pm, r, order, i);
        return Some(pid), map[];
      }
      ReportsOneMore(pm, r, Sofar(order, i), approvers, pid);
      if others != {} {
        approvers := approvers[pid := others];
      }
      i := i + 1;
    }
    bad := None;
    assert Sofar(order, i) == r.approvals.Keys;
  }

  ghost function Sofar(order: seq<Str>, i: nat): set<Str>
    requires i <= |order|
  {
    set j | 0 <= j < i :: order[j]
  }

  lemma SofarFacts(order: seq<Str>)
    ensures Sofar(order, 0) == {}
    ensures forall i :: 0 <= i < |order| ==> Sofar(order, i + 1) == Sofar(order, i) + {order[i]}
    ensures forall pid :: pid in Sofar(order, |order|) <==> pid in order
  {
  }

  lemma FirstInList(cr: Suite, pm: MetaParser, r: SealedRecord, order: seq<Str>, i: nat)
    requires Lists(r.approvals.Keys, order) && i < |order| && order[i] in r.approvals && !ProofSetOk(cr, pm, r, order[i])
    requires forall pid :: pid in Sofar(order, i) ==> pid in r.approvals && ProofSetOk(cr, pm, r, pid)
    ensures FirstBadProofs(cr, pm, r, order[i])
  {
    hide ProofSetOk;
    ListsMembers(r.approvals.Keys, order);
    forall q | q in r.approvals && !ProofSetOk(cr, pm, r, q)
      ensures AtMost(order[i], q)
    {
      var j :| 0 <= j < |order| && order[j] == q;
      assert q !in Sofar(order, i);
      assert j >= i;
    }
  }

  lemma ReportsNone(pm: MetaParser, r: SealedRecord)
    ensures Reports(pm, r, {}, map[])
  {
  }

  method CheckSet(cr: Suite, pm: MetaParser, r: SealedRecord, index: map<Str, nat>, pid: Str) returns (ok: bool, others: set<Str>)
    requires Indexed(pm, r.entries, index)
    requires pid in r.approvals
    ensures ok == ProofSetOk(cr, pm, r, pid)
    ensures ok ==> FirstNaming(pm, r.entries, pid).Some? && others == Surfaced(pm, r, pid)
  {
    hide FirstNaming, ProofOk;
    if pid !in index {
      return false, {};
    }
    var e := r.entries[index[pid]];
    assert Names(pm, e, pid);
    ok, others := CheckProofs(cr, pm(e.body).value, e.authorID, r.approvals[pid]);
  }

  /**
   Verify. A record is valid exactly when its version is known, its chain verifies, its head is the
   recomputed one, every seal signature is sound and, if it carries approval proofs, no two entries
   name one proposal and every proof set is sound; the signers are listed in order, the approvers
   surfaced are those beyond author and proposer; and a failure blames the least fingerprint or
   proposal at fault, whatever the order of the maps.
   */
  method VerifyRecord(cr: Suite, pm: MetaParser, r: SealedRecord) returns (v: Verdict)
    ensures v.Valid? <==> Evident(cr, pm, r)
    ensures v.Valid? <==> RecordVerifies(cr, pm, r)
    ensures v.Valid? ==> Lists(r.signatures.Keys, v.signers)
    ensures v.Valid? ==> Reports(pm, r, r.approvals.Keys, v.approvers)
    ensures v.BadSeal? ==> FirstBadSeal(cr, r, v.fpr)
    ensures v.BadProofs? ==> FirstBadProofs(cr, pm, r, v.pid)
  {
    hide ChainVerifies, Head, SignatureOk, DistinctProposals, ProofSetOk, FirstNaming, Surfaced, FirstBadSeal, FirstBadProofs, Reports, Indexed,
         Evident;
    VerifiesExactly(cr, pm, r);
    if r.version != V1() && r.version != V2() {
      return BadVersion;
    }
    var walked, head := WalkChain(cr, r.entries);
    if !walked {
      return BrokenChain;
    }
    var stored := cr.unhex(r.headHash);
    if stored.None? {
      return Malformed;
    }
    if stored.value != head {
      return HeadMismatch;
    }
    if |r.signatures| == 0 {
      return NoSignatures;
    }
    var bad, signers := CheckSeals(cr, r, head);
    if bad.Some? {
      return BadSeal(bad.value);
    }
    if |r.approvals| == 0 {
      ReportsNone(pm, r);
      assert r.approvals.Keys == {};
      return Valid(signers, map[]);
    }
    var dup, index := IndexProposals(pm, r.entries);
    if dup {
      return DuplicateProposal;
    }
    var wrong, approvers := CheckApprovals(cr, pm, r, index);
    if wrong.Some? {
      return BadProofs(wrong.value);
    }
    return Valid(signers, approvers);
  }
}
