/**
 What a double write leaves behind: a room that followed every rule, in which one member seals a
 record that carries its approval proofs and that the offline verifier refuses.
 */
module DoubleWrites {
  import opened Bytes
  import opened Framing
  import opened Crypto
  import opened Records
  import opened Sealing
  import opened SealRounds
  import Artifacts
  import ArtifactRuns
  import ArtifactRaces
  import SealRuns

  /** The spec writeArtifactEntry appends. */
  function ArtifactSpec(body: Wire): (spec: Spec)
    ensures Recordable(spec)
  {
    Spec(KindArtifact(), [], body, [], [], [])
  }

  /** One member's artifact entry, then another's. */
  function BothEntries(cr: Suite, a: Author, x: Wire, b: Author, y: Wire, ts: I64): (r: seq<Entry>)
    ensures |r| == 2
  {
    var first := NewEntry(cr, [], a, ArtifactSpec(x), ts);
    [first, NewEntry(cr, [first], b, ArtifactSpec(y), ts)]
  }

  /** Two entries of one proposal with a proof the Sealer accepts: proofs are stored, and the proposal is named twice. */
  lemma BothNamed(cr: Suite, pm: MetaParser, a: Author, x: Wire, b: Author, y: Wire, ts: I64, retained: map<Str, seq<Proof>>,
                  ma: Meta, mb: Meta)
    requires pm(x) == Some(ma) && pm(y) == Some(mb) && ma.proposalID == mb.proposalID != []
    requires ma.proposalID in retained && retained[ma.proposalID] != []
    requires forall i :: 0 <= i < |retained[ma.proposalID]| ==>
      Artifacts.SealerAccepts(cr, ma, retained[ma.proposalID][i]) && Artifacts.SealerAccepts(cr, mb, retained[ma.proposalID][i])
    ensures var entries := BothEntries(cr, a, x, b, y, ts);
            ApprovalsOf(cr, pm, entries, retained) != map[] && !DistinctProposals(pm, entries)
  {
    hide Artifacts.SealerAccepts, Head, Canonical;
    var entries, pid := BothEntries(cr, a, x, b, y, ts), ma.proposalID;
    assert ProposalIn(pm, entries[0]) == Some(ma) && ProposalIn(pm, entries[1]) == Some(mb);
    var all := ApprovalsUpTo(cr, pm, entries, retained, 2);
    assert Names(pm, entries[1], pid);
    var first := FirstNaming(pm, entries, pid).value;
    assert |Accepted(cr, ProposalIn(pm, entries[first]).value, retained[pid])| == |retained[pid]|;
    assert pid in all;
  }

  /** A member records its own artifact entry, takes another's, holds the proofs and seals. */
  lemma SealsBoth(cr: Suite, cfg: Config, b: Author, x: Wire, y: Wire, ts: I64, at: Wire, retained: map<Str, seq<Proof>>)
    returns (steps: seq<SealRuns.WorldStep>, end: SealRuns.World)
    requires SignsWhatVerifies(cr) && |cfg.key| == KEY_SIZE && |b.key| == KEY_SIZE && cr.fingerprint(b.key) == b.id
    ensures SealRuns.IsRun(cr, map[cfg.key := cfg], SealRuns.World(map[cfg.key := FRESH_CLIENT], {}), steps, end)
    ensures cfg.key in end.clients && |end.clients[cfg.key].completions| == 1
    ensures var c := end.clients[cfg.key].completions[0];
            c.snap.entries == BothEntries(cr, Self(cr, cfg), x, b, y, ts) && c.retained == retained
  {
    hide SealRuns.IsRun, EntryVerifies, Head, SealBytes, Canonical;
    var w := SealRuns.World(map[cfg.key := FRESH_CLIENT], {});
    var both := BothEntries(cr, Self(cr, cfg), x, b, y, ts);
    NewEntryVerifies(cr, [both[0]], b, ArtifactSpec(y), ts);
    SealRuns.StartsHere(cr, map[cfg.key := cfg], w);
    var p1, w1 := SealRuns.LocalStep(cr, cfg, w, [], w, Establish);
    var p2, w2 := SealRuns.LocalStep(cr, cfg, w, p1, w1, Note(ArtifactSpec(x), ts));
    assert w2.clients[cfg.key].chain == [both[0]];
    var p3, w3 := SealRuns.LocalStep(cr, cfg, w, p2, w2, AddEntry(both[1]));
    assert w3.clients[cfg.key].chain == both;
    var p4, w4 := SealRuns.LocalStep(cr, cfg, w, p3, w3, Retain(retained));
    var p5, w5 := SealRuns.LocalStep(cr, cfg, w, p4, w4, Step.Seal([], at));
    steps, end := SealRuns.LocalStep(cr, cfg, w, p5, w5, Finalize);
  }

  /**
   A double write is what makes a sealed record fail, and it happens. Let more members approve a
   proposal than its quorum asks for. From the fresh room there is a run of the artifact flow, every
   frame delivered once, in which two members write the entry; and from the fresh client of one of
   them a run of the seal flow in which it appends what it wrote, takes the other's entry, holds the
   proofs it retained, seals and completes. The record it emits carries proofs, its chain names the
   proposal twice, and the offline verifier refuses it.
   */
  lemma DoubleWriteRefused(cr: Suite, pm: MetaParser, cfgs: map<Bytes, Artifacts.Config>, w: ArtifactRuns.World, p: Artifacts.Proposal,
                           at: Str, body: Meta -> Wire, room: Wire, name: Wire, ts: I64, sealedAt: Wire)
    returns (steps: seq<ArtifactRuns.WorldStep>, end: ArtifactRuns.World, a: Bytes, b: Bytes,
             sealing: seq<SealRuns.WorldStep>, sealed: SealRuns.World)
    requires SignsWhatVerifies(cr) && SignsExactly(cr) && TextCodecs(cr)
    requires ArtifactRaces.Room(cr, cfgs, w, p) && 1 <= p.quorum < |ArtifactRaces.Members(cr, cfgs)| && p.nonce != []
    requires forall f :: f in ArtifactRaces.Members(cr, cfgs) ==> pm(body(Artifacts.MetaOf(p, f, at))) == Some(Artifacts.MetaOf(p, f, at))
    ensures ArtifactRuns.IsRun(cr, cfgs, w, steps, end)
    ensures a in end.clients && b in end.clients && a != b && |end.clients[a].writes| == |end.clients[b].writes| == 1
    ensures var cfg := SealRounds.Config(room, a, name);
            SealRuns.IsRun(cr, map[a := cfg], SealRuns.World(map[a := FRESH_CLIENT], {}), sealing, sealed)
    ensures a in sealed.clients && |sealed.clients[a].completions| == 1
    ensures var c := sealed.clients[a].completions[0];
            var r := Assemble(cr, pm, room, cr.fingerprint(a), c.snap, c.retained);
            && c.retained == end.clients[a].retained
            && |r.entries| == 2
            && r.entries[0].authorID == cr.fingerprint(a) && r.entries[0].body == body(end.clients[a].writes[0].meta)
            && r.entries[1].authorID == cr.fingerprint(b) && r.entries[1].body == body(end.clients[b].writes[0].meta)
            && r.approvals != map[] && !RecordVerifies(cr, pm, r)
  {
    hide ArtifactRuns.IsRun, SealRuns.IsRun, RecordVerifies, Head, ApprovalsOf, DistinctProposals, VersionOf, Collected, ChainVerifies,
         EntryVerifies, Artifacts.SealerAccepts;
    steps, end, a, b := ArtifactRaces.TwoMembersWrite(cr, cfgs, w, p, at);
    var fa, fb := cr.fingerprint(a), cr.fingerprint(b);
    var ma, mb := Artifacts.MetaOf(p, fa, at), Artifacts.MetaOf(p, fb, at);
    var retained := end.clients[a].retained;
    assert fa in ArtifactRaces.Members(cr, cfgs) && fb in ArtifactRaces.Members(cr, cfgs);
    RetainedAccepted(cr, cfgs, w, steps, end, a, p, fa, at);
    RetainedAccepted(cr, cfgs, w, steps, end, a, p, fb, at);
    var cfg := SealRounds.Config(room, a, name);
    var other := Author(fb, [], b);
    sealing, sealed := SealsBoth(cr, cfg, other, body(ma), body(mb), ts, sealedAt, retained);
    BothNamed(cr, pm, Self(cr, cfg), body(ma), other, body(mb), ts, retained, ma, mb);
    CompletionGood(cr, cfg, sealing, sealed);
    AssembledVerifies(cr, pm, room, fa, sealed.clients[a].completions[0].snap, retained);
  }

  /** The proofs a member retained for p are some, and the Sealer accepts them against any member's entry. */
  lemma RetainedAccepted(cr: Suite, cfgs: map<Bytes, Artifacts.Config>, w: ArtifactRuns.World, steps: seq<ArtifactRuns.WorldStep>,
                         end: ArtifactRuns.World, k: Bytes, p: Artifacts.Proposal, writer: Str, at: Str)
    requires SignsWhatVerifies(cr) && ArtifactRuns.Configured(cfgs, w) && ArtifactRuns.Initial(w)
    requires ArtifactRuns.IsRun(cr, cfgs, w, steps, end) && p.nonce != [] && p.quorum >= 1
    requires k in end.clients && p.id in end.clients[k].retained && p.id in end.clients[k].resolved && end.clients[k].resolved[p.id] == p
    ensures end.clients[k].retained[p.id] != []
    ensures forall i :: 0 <= i < |end.clients[k].retained[p.id]| ==>
      Artifacts.SealerAccepts(cr, Artifacts.MetaOf(p, writer, at), end.clients[k].retained[p.id][i])
  {
    hide ArtifactRuns.IsRun, Artifacts.SealerAccepts;
    ArtifactRuns.RetainedProofsSeal(cr, cfgs, w, steps, end, k, p.id, writer, at);
  }

  lemma CompletionGood(cr: Suite, cfg: Config, steps: seq<SealRuns.WorldStep>, end: SealRuns.World)
    requires SignsWhatVerifies(cr) && |cfg.key| == KEY_SIZE
    requires SealRuns.IsRun(cr, map[cfg.key := cfg], SealRuns.World(map[cfg.key := FRESH_CLIENT], {}), steps, end)
    requires cfg.key in end.clients && |end.clients[cfg.key].completions| == 1
    ensures var snap := end.clients[cfg.key].completions[0].snap;
            Collected(cr, cfg.room, snap) && ChainVerifies(cr, snap.entries) && snap.head == Head(cr, snap.entries)
  {
    hide SealRuns.IsRun, Collected, ChainVerifies, Head, Linked;
    var cfgs, w := map[cfg.key := cfg], SealRuns.World(map[cfg.key := FRESH_CLIENT], {});
    SealRuns.InitialInv(cr, cfgs, w);
    SealRuns.RunKeeps(cr, cfgs, w, steps, end);
    assert SealRuns.ClientInv(cr, cfg, end.log, end.clients[cfg.key]);
    assert GoodSnapshot(cr, cfg, end.clients[cfg.key].vouched, end.clients[cfg.key].completions[0].snap);
  }
}
