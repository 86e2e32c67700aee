/**
 The seal handshake in the client's own form: record.Sealer and the seal fields of the client, as
 objects whose methods change them. Each handler is proved to make exactly the transition the runs
 are made of, and the assembling loops to yield the record the verifier theorem is about.
 */
module SealClient {
  import opened Bytes
  import opened Framing
  import opened Crypto
  import opened Statements
  import opened Records
  import opened Sealing
  import opened SealRounds
  import Artifacts
  import Cosigning

  // ---- record.Sealer ----

  lemma {:induction false} FirstNamingIs(pm: MetaParser, entries: seq<Entry>, pid: Str, i: nat)
    requires i < |entries| && Names(pm, entries[i], pid)
    requires forall j :: 0 <= j < i ==> !Names(pm, entries[j], pid)
    ensures FirstNaming(pm, entries, pid) == Some(i)
  {
    var n := |entries| - 1;
    if i < n {
      FirstNamingIs(pm, entries[..n], pid, i);
    } else {
      assert FirstNaming(pm, entries[..n], pid).None?;
    }
  }

  function MetaOf(pm: MetaParser, entries: seq<Entry>, pid: Str): Option<Meta> {
    match FirstNaming(pm, entries, pid)
    case None => None
    case Some(i) => ProposalIn(pm, entries[i])
  }

  function Stored(cr: Suite, p: Proof): ApprovalProof {
    ApprovalProof(cr.fingerprint(p.key), cr.base64(p.key), cr.base64(p.sig), p.role)
  }

  /** Appending proofs to a proposal's list; nothing to append leaves no empty list behind. */
  function FiledUnder(approvals: map<Str, seq<ApprovalProof>>, pid: Str, added: seq<ApprovalProof>): map<Str, seq<ApprovalProof>> {
    if added == [] then approvals else approvals[pid := Lookup(approvals, pid) + added]
  }

  lemma FiledNone(approvals: map<Str, seq<ApprovalProof>>, pid: Str)
    ensures FiledUnder(approvals, pid, []) == approvals
  {
  }

  lemma FiledTwice(approvals: map<Str, seq<ApprovalProof>>, pid: Str, a: seq<ApprovalProof>, b: seq<ApprovalProof>)
    ensures FiledUnder(FiledUnder(approvals, pid, a), pid, b) == FiledUnder(approvals, pid, a + b)
  {
    assert Lookup(approvals, pid) + a + b == Lookup(approvals, pid) + (a + b);
    assert b == [] ==> a + b == a;
    assert a == [] ==> a + b == b;
  }

  class Sealer {
    const cr: Suite
    const room: Wire
    const sealedBy: Str
    const entries: seq<Entry>
    const head: Digest

    var sigs: map<Str, Bytes>
    var keys: map<Str, Bytes>
    var endorsements: map<Str, Endorsement>
    var approvals: map<Str, seq<ApprovalProof>>

    constructor (cr: Suite, room: Wire, sealedBy: Str, entries: seq<Entry>)
      ensures this.cr == cr && this.room == room && this.sealedBy == sealedBy && this.entries == entries
      ensures head == Head(cr, entries) && sigs == map[] && keys == map[] && endorsements == map[] && approvals == map[]
    {
      this.cr, this.room, this.sealedBy, this.entries := cr, room, sealedBy, entries;
      head := Head(cr, entries);
      sigs, keys, endorsements, approvals := map[], map[], map[], map[];
    }

    /** addVerified: the signer is named by its key, and only if its signature verifies over the preimage. */
    method AddVerified(pub: Bytes, sig: Bytes, preimage: Bytes, end: Option<Endorsement>) returns (ok: bool)
      modifies `sigs, `keys, `endorsements
      ensures ok == Verifies(cr, pub, preimage, sig)
      ensures !ok ==> sigs == old(sigs) && keys == old(keys) && endorsements == old(endorsements)
      ensures ok ==> sigs == old(sigs)[cr.fingerprint(pub) := sig] && keys == old(keys)[cr.fingerprint(pub) := pub]
      ensures ok ==> endorsements == if end.Some? then old(endorsements)[cr.fingerprint(pub) := end.value] else old(endorsements)
    {
      if |pub| != KEY_SIZE {
        return false;
      }
      if !cr.verify(pub, preimage, sig) {
        return false;
      }
      var f := cr.fingerprint(pub);
      sigs := sigs[f := sig];
      keys := keys[f := pub];
      if end.Some? {
        endorsements := endorsements[f := end.value];
      }
      return true;
    }

    /** Re-adding a snapshot's signatures, walked in no particular order: every collected one is kept. */
    method AddSignatures(snap: Snapshot)
      requires sigs == map[] && keys == map[] && endorsements == map[]
      modifies `sigs, `keys, `endorsements
      ensures Collected(cr, room, snap) && snap.head == head ==>
        sigs == snap.sigs && keys == snap.keys && endorsements == snap.endorse && sigs != map[]
    {
      hide Encode, Carried, SealPreimage, Verifies;
      CarriedNone(snap);
      var todo := snap.sigs.Keys;
      assert snap.sigs.Keys - todo == {};
      while todo != {}
        invariant todo <= snap.sigs.Keys
        invariant Collected(cr, room, snap) && snap.head == head ==>
          Carried(snap, snap.sigs.Keys - todo, sigs, keys, endorsements)
        decreases todo
      {
        var f :| f in todo;
        ghost var before := (sigs, keys, endorsements);
        if f in snap.keys {
          AddOne(snap, f);
        }
        if Collected(cr, room, snap) && snap.head == head {
          CarriedStep(snap, snap.sigs.Keys - todo, f, before.0, before.1, before.2);
        }
        assert snap.sigs.Keys - (todo - {f}) == (snap.sigs.Keys - todo) + {f};
        todo := todo - {f};
      }
      assert snap.sigs.Keys - todo == snap.sigs.Keys;
      if Collected(cr, room, snap) && snap.head == head {
        AllCarried(cr, room, snap, sigs, keys, endorsements);
      }
    }

    method AddOne(snap: Snapshot, f: Str)
      requires f in snap.sigs && f in snap.keys
      modifies `sigs, `keys, `endorsements
      ensures Collected(cr, room, snap) && snap.head == head ==>
        && sigs == old(sigs)[f := snap.sigs[f]] && keys == old(keys)[f := snap.keys[f]]
        && endorsements == if f in snap.endorse then old(endorsements)[f := snap.endorse[f]] else old(endorsements)
    {
      hide Encode;
      var key, sig := snap.keys[f], snap.sigs[f];
      var ok: bool;
      if f in snap.endorse {
        var end := snap.endorse[f];
        ok := AddVerified(key, sig, Encode(SealV2(room, end.meaning, end.name, end.signedAt, head)), Some(end));
      } else {
        ok := AddVerified(key, sig, Encode(Statement.Seal(room, head)), None);
      }
      assert Collected(cr, room, snap) && snap.head == head ==> ok && cr.fingerprint(key) == f;
    }

    /** artifactMetaByProposal: the first artifact entry that carries the id. */
    method MetaByProposal(pm: MetaParser, pid: Str) returns (m: Option<Meta>)
      requires pid != []
      ensures m == MetaOf(pm, entries, pid)
    {
      var i := 0;
      while i < |entries|
        invariant 0 <= i <= |entries|
        invariant forall j :: 0 <= j < i ==> !Names(pm, entries[j], pid)
      {
        var e := entries[i];
        if e.kind == KindArtifact() {
          var parsed := pm(e.body);
          if parsed.Some? && parsed.value.proposalID == pid {
            FirstNamingIs(pm, entries, pid, i);
            return parsed;
          }
        }
        i := i + 1;
      }
      return None;
    }

    /** AddArtifactApproval and AddArtifactApprovalV2: the role picks the layout. */
    method AddApproval(pm: MetaParser, pid: Str, proof: Proof) returns (ok: bool)
      requires pid != []
      modifies `approvals
      ensures ok == (MetaOf(pm, entries, pid).Some? && Artifacts.SealerAccepts(cr, MetaOf(pm, entries, pid).value, proof))
      ensures approvals == FiledUnder(old(approvals), pid, if ok then [Stored(cr, proof)] else [])
    {
      if |proof.key| != KEY_SIZE {
        return false;
      }
      var m := MetaByProposal(pm, pid);
      if m.None? || m.value.nonce == [] {
        return false;
      }
      var f := cr.fingerprint(proof.key);
      assert m.value.proposalID == pid;
      if !cr.verify(proof.key, Artifacts.Preimage(pid, m.value.hash, f, m.value.nonce, proof.role), proof.sig) {
        return false;
      }
      approvals := FiledUnder(approvals, pid, [Stored(cr, proof)]);
      return true;
    }

    /** The inner loop of assembleSealedLocked: the retained proofs of one proposal, each re-verified. */
    method AddApprovals(pm: MetaParser, pid: Str, m: Meta, proofs: seq<Proof>)
      requires pid != [] && MetaOf(pm, entries, pid) == Some(m)
      modifies `approvals
      ensures approvals == FiledUnder(old(approvals), pid, Accepted(cr, m, proofs))
    {
      hide Artifacts.SealerAccepts, FiledUnder, MetaOf;
      FiledNone(approvals, pid);
      var i := 0;
      while i < |proofs|
        invariant 0 <= i <= |proofs|
        invariant approvals == FiledUnder(old(approvals), pid, Accepted(cr, m, proofs[..i]))
      {
        ghost var so := Accepted(cr, m, proofs[..i]);
        assert proofs[..i + 1][..i] == proofs[..i] && proofs[..i + 1][i] == proofs[i];
        var ok := AddApproval(pm, pid, proofs[i]);
        assert Accepted(cr, m, proofs[..i + 1]) == so + if ok then [Stored(cr, proofs[i])] else [];
        FiledTwice(old(approvals), pid, so, if ok then [Stored(cr, proofs[i])] else []);
        i := i + 1;
      }
      assert proofs[..i] == proofs;
    }

    /** The outer loop of assembleSealedLocked: every artifact entry's proofs. */
    method AddAllApprovals(pm: MetaParser, retained: map<Str, seq<Proof>>)
      requires approvals == map[]
      modifies `approvals
      ensures approvals == ApprovalsOf(cr, pm, entries, retained)
    {
      hide Accepted;
      var i := 0;
      while i < |entries|
        invariant 0 <= i <= |entries|
        invariant approvals == ApprovalsUpTo(cr, pm, entries, retained, i)
      {
        var e := entries[i];
        if e.kind == KindArtifact() {
          var m := pm(e.body);
          if m.Some? && m.value.proposalID != [] {
            var pid := m.value.proposalID;
            assert Names(pm, e, pid);
            AddApprovals(pm, pid, MetaOf(pm, entries, pid).value, Lookup(retained, pid));
          }
        }
        i := i + 1;
      }
    }

    method Finalize() returns (r: Option<SealedRecord>)
      ensures sigs == map[] ==> r.None?
      ensures sigs != map[] ==> r == Some(SealedRecord(VersionOf(entries, endorsements, approvals), room, sealedBy, entries, cr.hex(head),
                                                       Cosigning.Base64Map(cr, sigs), Cosigning.Base64Map(cr, keys), endorsements, approvals))
    {
      if |sigs| == 0 {
        return None;
      }
      return Some(SealedRecord(VersionOf(entries, endorsements, approvals), room, sealedBy, entries, cr.hex(head),
                               Cosigning.Base64Map(cr, sigs), Cosigning.Base64Map(cr, keys), endorsements, approvals));
    }
  }

  // ---- the client's seal fields ----

  function NoteSpec(line: Wire): (spec: Spec)
    ensures Recordable(spec)
  {
    Spec(KindNote(), [], line, [], [], [])
  }

  /** A run of own notes, one appendRecord each. */
  function Noted(cr: Suite, cfg: Config, s: Client, lines: seq<Wire>, ts: I64): Client {
    if lines == [] then s
    else Apply(cr, cfg, Noted(cr, cfg, s, lines[..|lines| - 1], ts), Note(NoteSpec(lines[|lines| - 1]), ts))
  }

  lemma NoteLength(cr: Suite, cfg: Config, s: Client, spec: Spec, ts: I64)
    ensures |ApplyNote(cr, cfg, s, spec, ts).chain| <= |s.chain| + 1
  {
  }

  class Handshake {
    const cr: Suite
    const cfg: Config
    const pm: MetaParser

    var chain: seq<Entry>
    var ready: bool
    var members: nat
    var round: Option<Snapshot>  // sealing, sealHead, sealEntries, sealSigs, sealKeys, sealEndorse
    var lastSeal: Option<Snapshot>
    var pendingSealHead: Option<Bytes>
    var artifactProofs: map<Str, seq<Proof>>

    ghost var acking: set<(Digest, Wire)>
    ghost var started: nat
    ghost var completions: seq<Completion>
    ghost var vouched: set<seq<Entry>>

    ghost function View(): Client
      reads this
    {
      Client(chain, ready, round, lastSeal, pendingSealHead, artifactProofs, acking, started, completions, vouched)
    }

    /** appendSpec: an own entry takes its place from the chain, is signed and appended. */
    method AppendSpec(spec: Spec, ts: I64) returns (ok: bool)
      requires |chain| < TWO64
      modifies this
      ensures ok == ready
      ensures !ok ==> chain == old(chain)
      ensures ok ==> |chain| == |old(chain)| + 1 && chain[..|old(chain)|] == old(chain)
                     && Carries(chain[|old(chain)|], Author(cr.fingerprint(cfg.key), cfg.name, cfg.key), spec, ts)
      ensures View() == ApplyNote(cr, cfg, old(View()), spec, ts) && members == old(members)
    {
      if !ready {
        return false;
      }
      var unsigned := Entry(|chain|, ts, SelfFpr(cr, cfg), cfg.name, cfg.key, spec.kind, spec.actionee, spec.body, Head(cr, chain), [],
                            spec.schema, spec.schemaVer, spec.links, false);
      chain := chain + [unsigned.(sig := cr.sign(cfg.key, Canonical(unsigned)))];
      return true;
    }

    /** appendClockNotes: one note per line the incident clock has to say, none or two. */
    method AppendClockNotes(lines: seq<Wire>, ts: I64)
      requires |chain| + |lines| < TWO64
      modifies this
      ensures View() == Noted(cr, cfg, old(View()), lines, ts) && members == old(members)
    {
      hide ApplyNote;
      var i := 0;
      while i < |lines|
        invariant 0 <= i <= |lines| && |chain| <= |old(chain)| + i
        invariant View() == Noted(cr, cfg, old(View()), lines[..i], ts) && members == old(members)
      {
        assert lines[..i + 1][..i] == lines[..i];
        NoteLength(cr, cfg, View(), NoteSpec(lines[i]), ts);
        var ok := AppendSpec(NoteSpec(lines[i]), ts);
        i := i + 1;
      }
      assert lines[..i] == lines;
    }

    /**
     sealWith: the clock's notes go in first, and only when this call looks like initiating a seal;
     then one more critical section takes one of the two roles, or says why neither.
     */
    method SealWith(clock: seq<Wire>, ts: I64, meaning: Wire, at: Wire) returns (outcome: SealOutcome)
      requires |chain| + |clock| < TWO64
      modifies this
      ensures var noted := if old(pendingSealHead).None? && old(round).None? then Noted(cr, cfg, old(View()), clock, ts) else old(View());
              && View() == ApplySeal(cr, cfg, noted, meaning, at)
              && (outcome.Initiated? <==> Initiates(noted))
      ensures members == old(members)
    {
      hide Noted, ApplySeal;
      var initiating := pendingSealHead.None? && round.None?;
      if initiating {
        AppendClockNotes(clock, ts);
      }
      outcome := TakeRole(meaning, at);
    }

    /** sealWith after its clock notes. The outcome says which of the two roles /seal took, or why neither. */
    method TakeRole(meaning: Wire, at: Wire) returns (outcome: SealOutcome)
      modifies this
      ensures View() == ApplySeal(cr, cfg, old(View()), meaning, at) && members == old(members)
      ensures outcome.Initiated? <==> ready && chain != [] && old(pendingSealHead).None? && old(round).None?
      ensures outcome.Initiated? ==> round.Some? && round.value.entries == chain && round.value.sigs.Keys == {cr.fingerprint(cfg.key)}
      ensures !outcome.Initiated? ==> round == old(round) && lastSeal == old(lastSeal)
      ensures chain == old(chain) && pendingSealHead == old(pendingSealHead) && ready == old(ready)
      ensures outcome.CoSign? <==> ready && chain != [] && old(pendingSealHead) == Some(Head(cr, chain))
      ensures outcome.Diverged? <==> ready && chain != [] && old(pendingSealHead).Some? && old(pendingSealHead).value != Head(cr, chain)
    {
      hide Head, Open;
      if !ready {
        return NotReady;
      }
      var head := Head(cr, chain);
      if |chain| == 0 {
        return NothingToSeal;
      }
      if pendingSealHead.Some? {
        if pendingSealHead.value != head {
          return Diverged;
        }
        acking, vouched := acking + {(head, meaning)}, vouched + {chain};
        return CoSign;
      }
      if round.Some? {
        return InProgress;
      }
      Initiate(meaning, at);
      return Initiated;
    }

    /** The signature of sealWith and sendSealAck: a meaning selects the v2 preimage. */
    method SignHead(head: Digest, meaning: Wire, at: Wire) returns (sig: Bytes)
      ensures sig == cr.sign(cfg.key, SealBytes(cfg.room, head, meaning, cfg.name, at))
    {
      if meaning != [] {
        sig := cr.sign(cfg.key, Encode(SealV2(cfg.room, meaning, cfg.name, at, head)));
      } else {
        sig := cr.sign(cfg.key, Encode(Statement.Seal(cfg.room, head)));
      }
    }

    /** The initiating half of sealWith: sign the head, seed the maps, close the amend window. */
    method Initiate(meaning: Wire, at: Wire)
      modifies `round, `lastSeal, `started, `vouched
      ensures View() == Open(cr, cfg, old(View()), meaning, at)
      ensures round.Some? && round.value.head == Head(cr, chain) && round.value.entries == chain && lastSeal.None?
      ensures round.value.sigs.Keys == round.value.keys.Keys == {cr.fingerprint(cfg.key)}
      ensures round.value.keys[cr.fingerprint(cfg.key)] == cfg.key
      ensures if meaning == [] then round.value.endorse == map[]
              else round.value.endorse == map[cr.fingerprint(cfg.key) := Endorsement(meaning, cfg.name, at)]
    {
      hide Head, SealBytes;
      var head := Head(cr, chain);
      var f := cr.fingerprint(cfg.key);
      var sig := SignHead(head, meaning, at);
      var endorse := if meaning != [] then map[f := Endorsement(meaning, cfg.name, at)] else map[];
      round, lastSeal := Some(Snapshot(head, chain, map[f := sig], map[f := cfg.key], endorse)), None;
      started, vouched := started + 1, vouched + {chain};
    }

    /** sendSealAck: co-sign a head decided on earlier; a member's acknowledgement is one the sealer will accept. */
    method SendSealAck(head: Digest, meaning: Wire, at: Wire) returns (ack: Ack)
      modifies `pendingSealHead, `acking
      ensures View() == Apply(cr, cfg, old(View()), SendAck(head, meaning, at))
      ensures SignsWhatVerifies(cr) && |cfg.key| == KEY_SIZE ==> ValidAck(cr, cfg.room, head, ack)
      ensures ack.pub == cfg.key && ack.meaning == meaning && ack.head == head && pendingSealHead.None?
    {
      hide SealBytes;
      var sig := SignHead(head, meaning, at);
      pendingSealHead, acking := None, acking - {(head, meaning)};
      ack := if meaning != [] then Ack(cfg.key, head, sig, meaning, cfg.name, at) else Ack(cfg.key, head, sig, [], [], []);
      BareBytes(cfg.room, head, cfg.name, at);
    }

    lemma BareBytes(room: Str, head: Bytes, name: Str, at: Str)
      ensures SealBytes(room, head, [], name, at) == SealBytes(room, head, [], [], [])
    {
    }

    /** onSealRequest: a client already sealing the same head co-signs at once, without a meaning. */
    method OnSealRequest(head: Bytes) returns (autoAck: bool)
      modifies `pendingSealHead, `acking
      ensures View() == ApplyRequest(old(View()), head) && pendingSealHead == Some(head)
      ensures acking == if old(round).Some? && old(round).value.head == head then old(acking) + {(old(round).value.head, [])} else old(acking)
      ensures autoAck <==> round.Some? && head == round.value.head
    {
      pendingSealHead := Some(head);
      autoAck := round.Some? && head == round.value.head;
      if autoAck {
        acking := acking + {(round.value.head, [])};
      }
    }

    /** recordCosignatureLocked, over either the active round's maps or the retained ones. */
    method RecordCosignature(snap: Snapshot, a: Ack) returns (recorded: bool, valid: bool, next: Snapshot)
      requires a.head == snap.head
      ensures valid == ValidAck(cr, cfg.room, snap.head, a)
      ensures recorded == (valid && cr.fingerprint(a.pub) !in snap.sigs)
      ensures next == if recorded then SealRounds.Record(cr, snap, a) else snap
    {
      var preimage := Encode(Statement.Seal(cfg.room, snap.head));
      if a.meaning != [] {
        preimage := Encode(SealV2(cfg.room, a.meaning, a.name, a.at, snap.head));
      }
      if |a.pub| != KEY_SIZE || !cr.verify(a.pub, preimage, a.sig) {
        return false, false, snap;
      }
      var f := cr.fingerprint(a.pub);
      if f in snap.sigs {
        return false, true, snap;
      }
      var endorse := snap.endorse;
      if a.meaning != [] {
        endorse := endorse[f := Endorsement(a.meaning, a.name, a.at)];
      }
      return true, true, Snapshot(snap.head, snap.entries, snap.sigs[f := a.sig], snap.keys[f := a.pub], endorse);
    }

    /** onSealAck: counted into the open round, amended into the retained one, or refused. */
    method OnSealAck(a: Ack) returns (rec: Option<SealedRecord>)
      requires round.Some? ==> lastSeal.None?
      modifies this
      ensures View() == ApplyAck(cr, cfg, old(View()), a) && members == old(members)
      ensures rec.Some? <==> completions != old(completions)
      ensures rec.Some? && Collected(cr, cfg.room, lastSeal.value) && lastSeal.value.head == Head(cr, lastSeal.value.entries) ==>
        rec.value == Assemble(cr, pm, cfg.room, SelfFpr(cr, cfg), lastSeal.value, artifactProofs)
    {
      hide ValidAck, Collected, Head;
      rec := None;
      var active := round.Some? && a.head == round.value.head;
      var amend := !active && lastSeal.Some? && a.head == lastSeal.value.head;
      if !active && !amend {
        HeadMatters(cr, cfg, View(), a);
        return;
      }
      if active {
        var _, _, next := RecordCosignature(round.value, a);
        round := Some(next);
        return;
      }
      var recorded, valid, next := RecordCosignature(lastSeal.value, a);
      if !valid || !recorded {
        return;
      }
      lastSeal := Some(next);
      completions := completions + [Completion(started, true, next, artifactProofs)];
      var r := AssembleSealed(next);
      rec := Some(r);
    }

    lemma HeadMatters(cr: Suite, cfg: Config, s: Client, a: Ack)
      requires Current(s).None? || a.head != Current(s).value.head
      ensures ApplyAck(cr, cfg, s, a) == s
    {
    }

    /** finalizeSeal: the first caller wins and the maps pass to the retained snapshot. */
    method FinalizeSeal() returns (rec: Option<SealedRecord>)
      modifies this
      ensures View() == ApplyFinalize(old(View())) && members == old(members)
      ensures round.None? && lastSeal == (if old(round).Some? then old(round) else old(lastSeal))
      ensures rec.Some? <==> old(round).Some?
      ensures rec.Some? && Collected(cr, cfg.room, lastSeal.value) && lastSeal.value.head == Head(cr, lastSeal.value.entries) ==>
        rec.value == Assemble(cr, pm, cfg.room, SelfFpr(cr, cfg), lastSeal.value, artifactProofs)
    {
      hide Collected, Head;
      if round.None? {
        return None;
      }
      var snap := round.value;
      var r := AssembleSealed(snap);
      lastSeal, round := Some(snap), None;
      completions := completions + [Completion(started, false, snap, artifactProofs)];
      return Some(r);
    }

    /** maybeFinalize: finalizes as soon as as many have signed as are present. */
    method MaybeFinalize() returns (rec: Option<SealedRecord>)
      modifies this
      ensures View() == if old(round).Some? && |old(round).value.sigs| >= old(members) then ApplyFinalize(old(View())) else old(View())
      ensures rec.Some? <==> old(round).Some? && |old(round).value.sigs| >= old(members)
    {
      hide Collected, Head;
      if round.Some? && |round.value.sigs| >= members {
        rec := FinalizeSeal();
      } else {
        rec := None;
      }
    }

    /**
     assembleSealedLocked. The signature map is walked in no particular order, and the record is the
     same for every order: each collected signature survives the Sealer's re-verification.
     */
    method AssembleSealed(snap: Snapshot) returns (rec: SealedRecord)
      ensures Collected(cr, cfg.room, snap) && snap.head == Head(cr, snap.entries) ==>
        rec == Assemble(cr, pm, cfg.room, SelfFpr(cr, cfg), snap, artifactProofs)
    {
      hide Head, ApprovalsOf, Collected, VersionOf;
      var sealer := new Sealer(cr, cfg.room, cr.fingerprint(cfg.key), snap.entries);
      sealer.AddSignatures(snap);
      sealer.AddAllApprovals(pm, artifactProofs);
      var out := sealer.Finalize();
      if out.None? {
        return SealedRecord(VersionOf(snap.entries, map[], map[]), cfg.room, cr.fingerprint(cfg.key), snap.entries, cr.hex(snap.head),
                            Cosigning.Base64Map(cr, snap.sigs), Cosigning.Base64Map(cr, snap.keys), map[], map[]);
      }
      return out.value;
    }

    /** clearSealLocked, with the chain reset that always accompanies it. */
    method Vanish()
      modifies this
      ensures View() == Apply(cr, cfg, old(View()), Step.Vanish) && members == old(members)
      ensures chain == [] && round.None? && lastSeal.None? && pendingSealHead.None?
    {
      chain := [];
      round, lastSeal, pendingSealHead := None, None, None;
    }
  }

  datatype SealOutcome = NotReady | NothingToSeal | Diverged | CoSign | InProgress | Initiated

  /** The Sealer holds exactly what the snapshot says about the signers added so far. */
  ghost predicate Carried(snap: Snapshot, done: set<Str>, sigs: map<Str, Bytes>, keys: map<Str, Bytes>, endorse: map<Str, Endorsement>) {
    && sigs.Keys == done && keys.Keys == done
    && (forall f :: f in sigs ==> f in snap.sigs && sigs[f] == snap.sigs[f])
    && (forall f :: f in keys ==> f in snap.keys && keys[f] == snap.keys[f])
    && (forall f :: f in endorse <==> f in done && f in snap.endorse)
    && (forall f :: f in endorse ==> f in snap.endorse && endorse[f] == snap.endorse[f])
  }

  lemma CarriedNone(snap: Snapshot)
    ensures Carried(snap, {}, map[], map[], map[])
  {
  }

  lemma CarriedStep(snap: Snapshot, done: set<Str>, f: Str, sigs: map<Str, Bytes>, keys: map<Str, Bytes>, endorse: map<Str, Endorsement>)
    requires Carried(snap, done, sigs, keys, endorse) && f in snap.sigs && f in snap.keys
    ensures Carried(snap, done + {f}, sigs[f := snap.sigs[f]], keys[f := snap.keys[f]],
                    if f in snap.endorse then endorse[f := snap.endorse[f]] else endorse)
  {
  }

  lemma AllCarried(cr: Suite, room: Str, snap: Snapshot, sigs: map<Str, Bytes>, keys: map<Str, Bytes>, endorse: map<Str, Endorsement>)
    requires Collected(cr, room, snap) && Carried(snap, snap.sigs.Keys, sigs, keys, endorse)
    ensures sigs == snap.sigs && keys == snap.keys && endorse == snap.endorse
  {
    hide SealPreimage, Verifies;
  }
}
