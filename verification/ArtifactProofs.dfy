/** What every step of the artifact flow keeps. */
module ArtifactProofs {
  import opened Bytes
  import opened Crypto
  import opened Artifacts

  /**
   What makes a proof count for a proposal. The invariant is proved for any such relation; the runs
   take the real one, a verified signature its key really made.
   */
  type Backing = (Proposal, Proof) -> bool

  ghost predicate Distinct(s: seq<Str>) {
    forall i, j :: 0 <= i < j < |s| ==> s[i] != s[j]
  }

  /** The approvers, their arrival order and their proofs agree, exclude the proposer, and are backed. */
  ghost predicate Collected(backed: Backing, tp: Tracked) {
    && Distinct(tp.order) && Elements(tp.order) == tp.approvers && |tp.order| == |tp.approvers|
    && tp.proofs.Keys == tp.approvers
    && tp.prop.proposer !in tp.approvers
    && forall f :: f in tp.approvers ==> tp.proofs[f].fpr == f && backed(tp.prop, tp.proofs[f])
  }

  ghost predicate TrackedOk(backed: Backing, s: Client, id: Str)
    requires id in s.proposals
  {
    var tp := s.proposals[id];
    && tp.prop.id == id && id in s.seen && id !in s.resolved
    && tp.prop.quorum >= 1 && |tp.order| < tp.prop.quorum
    && Collected(backed, tp)
  }

  /** A retained list: exactly quorum proofs, by distinct non-proposers, each backed. */
  ghost predicate ListOk(backed: Backing, p: Proposal, list: seq<Proof>) {
    && |list| == p.quorum
    && (forall i :: 0 <= i < |list| ==> list[i].fpr != p.proposer && backed(p, list[i]))
    && (forall i, j :: 0 <= i < j < |list| ==> list[i].fpr != list[j].fpr)
  }

  ghost predicate RetainedOk(backed: Backing, s: Client, id: Str)
    requires id in s.retained
  {
    id in s.resolved && s.resolved[id].id == id && ListOk(backed, s.resolved[id], s.retained[id])
  }

  ghost predicate ApprovedBy(backed: Backing, p: Proposal, f: Str) {
    exists proof: Proof :: proof.fpr == f && backed(p, proof)
  }

  ghost predicate WriteOk(self: Str, backed: Backing, s: Client, w: Write) {
    && w.prop.id in s.resolved
    && |w.counted| == w.prop.quorum
    && w.prop.proposer !in w.counted
    && IsLeast(self, w.counted)
    && (forall f :: f in w.counted ==> ApprovedBy(backed, w.prop, f))
    && w.meta == MetaOf(w.prop, self, w.meta.approvedAt)
  }

  /** A verified approval still matches whatever is tracked under its id. */
  ghost predicate PendingOk(backed: Backing, s: Client, c: Checked) {
    && backed(c.prop, c.proof)
    && c.prop.id in s.seen
    && (c.prop.id in s.proposals ==> s.proposals[c.prop.id].prop == c.prop)
  }

  ghost predicate ClientInv(self: Str, backed: Backing, s: Client) {
    && (forall id :: id in s.proposals ==> TrackedOk(backed, s, id))
    && (forall id :: id in s.retained ==> RetainedOk(backed, s, id))
    && (s.checked.Some? ==> PendingOk(backed, s, s.checked.value))
    && (forall c :: c in s.signed ==> PendingOk(backed, s, c))
    && s.resolved.Keys <= s.seen
    && (forall i :: 0 <= i < |s.writes| ==> WriteOk(self, backed, s, s.writes[i]))
    && (forall i, j :: 0 <= i < j < |s.writes| ==> s.writes[i].prop.id != s.writes[j].prop.id)
  }

  /** The invariant survives a weaker notion of backing: the log only grows. */
  lemma InvGrows(self: Str, backed: Backing, more: Backing, s: Client)
    requires forall p: Proposal, proof: Proof :: backed(p, proof) ==> more(p, proof)
    requires ClientInv(self, backed, s)
    ensures ClientInv(self, more, s)
  {
    forall id | id in s.proposals
      ensures TrackedOk(more, s, id)
    {
      assert TrackedOk(backed, s, id);
    }
    forall id | id in s.retained
      ensures RetainedOk(more, s, id)
    {
      assert RetainedOk(backed, s, id);
    }
    forall i | 0 <= i < |s.writes|
      ensures WriteOk(self, more, s, s.writes[i])
    {
      var w := s.writes[i];
      assert WriteOk(self, backed, s, w);
      forall f | f in w.counted
        ensures ApprovedBy(more, w.prop, f)
      {
        var proof: Proof :| proof.fpr == f && backed(w.prop, proof);
        assert more(w.prop, proof);
      }
    }
  }

  // ---- frames ----

  lemma WritesFrame(self: Str, backed: Backing, s: Client, s': Client)
    requires forall i :: 0 <= i < |s.writes| ==> WriteOk(self, backed, s, s.writes[i])
    requires s.resolved.Keys <= s'.resolved.Keys
    ensures forall i :: 0 <= i < |s.writes| ==> WriteOk(self, backed, s', s.writes[i])
  {
  }

  lemma RetainedFrame(backed: Backing, s: Client, s': Client)
    requires forall id :: id in s.retained ==> RetainedOk(backed, s, id)
    requires forall id :: id in s'.retained ==> id in s.retained && s'.retained[id] == s.retained[id]
    requires s'.resolved == s.resolved
    ensures forall id :: id in s'.retained ==> RetainedOk(backed, s', id)
  {
  }

  /** Entries left alone stay fine when seen grows. */
  lemma TrackedFrame(backed: Backing, s: Client, s': Client, id: Str)
    requires id in s.proposals && TrackedOk(backed, s, id)
    requires id in s'.proposals && s'.proposals[id] == s.proposals[id]
    requires s.seen <= s'.seen && id !in s'.resolved
    ensures TrackedOk(backed, s', id)
  {
  }

  lemma PendingFrame(backed: Backing, s: Client, s': Client)
    requires forall c :: c in s.signed ==> PendingOk(backed, s, c)
    requires s.checked.Some? ==> PendingOk(backed, s, s.checked.value)
    requires s'.checked == s.checked && s'.signed == s.signed && s.seen <= s'.seen
    requires forall id :: id in s'.proposals && id in s.seen ==>
      id in s.proposals && s'.proposals[id].prop == s.proposals[id].prop
    ensures forall c :: c in s'.signed ==> PendingOk(backed, s', c)
    ensures s'.checked.Some? ==> PendingOk(backed, s', s'.checked.value)
  {
  }

  /** Dropping entries and lists, marking approvals, key arrival: nothing new to check. */
  lemma QuietKeeps(self: Str, backed: Backing, s: Client, s': Client)
    requires ClientInv(self, backed, s)
    requires s' == s.(proposals := s'.proposals, retained := s'.retained, ready := s'.ready, checked := s'.checked)
    requires forall id :: id in s'.proposals ==>
      id in s.proposals && s'.proposals[id] == s.proposals[id]
    requires forall id :: id in s'.retained ==> id in s.retained && s'.retained[id] == s.retained[id]
    requires s'.checked.None? || s'.checked == s.checked
    ensures ClientInv(self, backed, s')
  {
    hide RetainedOk, WriteOk, Collected;
    forall id | id in s'.proposals
      ensures TrackedOk(backed, s', id)
    {
      TrackedFrame(backed, s, s', id);
    }
    RetainedFrame(backed, s, s');
    WritesFrame(self, backed, s, s');
  }

  lemma TrackKeeps(self: Str, backed: Backing, s: Client, p: Proposal, mine: bool)
    requires ClientInv(self, backed, s) && p.id !in s.seen && p.quorum >= 1
    ensures ClientInv(self, backed, Track(s, p, mine))
  {
    hide RetainedOk, WriteOk;
    var s' := Track(s, p, mine);
    forall id | id in s'.proposals
      ensures TrackedOk(backed, s', id)
    {
      if id != p.id {
        TrackedFrame(backed, s, s', id);
      } else {
        assert Collected(backed, s'.proposals[id]);
      }
    }
    RetainedFrame(backed, s, s');
    WritesFrame(self, backed, s, s');
  }

  /** A fresh snapshot or a fresh own approval, once backed, is pending correctly. */
  lemma PendingKeeps(self: Str, backed: Backing, s: Client, s': Client, c: Checked)
    requires ClientInv(self, backed, s)
    requires s' == s.(checked := s'.checked, signed := s'.signed)
    requires s'.checked == s.checked || s'.checked == Some(c)
    requires s'.signed <= s.signed + {c}
    requires backed(c.prop, c.proof) && c.prop.id in s.proposals && s.proposals[c.prop.id].prop == c.prop
    ensures ClientInv(self, backed, s')
  {
    hide RetainedOk, WriteOk, Collected;
    assert TrackedOk(backed, s, c.prop.id);
    assert PendingOk(backed, s', c);
    forall x | x in s'.signed
      ensures PendingOk(backed, s', x)
    {
      if x != c {
        assert PendingOk(backed, s, x);
      }
    }
    if s'.checked.Some? && s'.checked != Some(c) {
      assert PendingOk(backed, s, s.checked.value);
    }
    forall id | id in s'.proposals
      ensures TrackedOk(backed, s', id)
    {
      TrackedFrame(backed, s, s', id);
    }
    RetainedFrame(backed, s, s');
    WritesFrame(self, backed, s, s');
  }

  // ---- counting ----

  lemma CountedOk(backed: Backing, tp: Tracked, proof: Proof)
    requires Collected(backed, tp)
    requires backed(tp.prop, proof) && proof.fpr != tp.prop.proposer && proof.fpr !in tp.approvers
    ensures Collected(backed, Counted(tp, proof))
    ensures |Counted(tp, proof).order| == |tp.order| + 1
  {
    var t := Counted(tp, proof);
    OrderExtends(tp.order, proof.fpr);
    assert t.proofs.Keys == t.approvers;
  }

  lemma OrderExtends(order: seq<Str>, f: Str)
    requires Distinct(order) && f !in Elements(order)
    ensures Distinct(order + [f])
    ensures Elements(order + [f]) == Elements(order) + {f}
  {
  }

  lemma CapturedOk(backed: Backing, t: Tracked)
    requires Collected(backed, t) && |t.order| == t.prop.quorum
    ensures (forall f :: f in t.order ==> f in t.proofs) && ListOk(backed, t.prop, Captured(t))
  {
  }

  lemma EntryKeeps(self: Str, backed: Backing, s: Client, s': Client, id: Str, t: Tracked)
    requires ClientInv(self, backed, s) && id in s.proposals
    requires Collected(backed, t) && |t.order| < t.prop.quorum && t.prop == s.proposals[id].prop
    requires s' == s.(proposals := s.proposals[id := t])
    ensures ClientInv(self, backed, s')
  {
    hide RetainedOk, WriteOk, Collected, PendingOk;
    assert TrackedOk(backed, s, id);
    forall x | x in s'.proposals
      ensures TrackedOk(backed, s', x)
    {
      if x != id {
        TrackedFrame(backed, s, s', x);
      }
    }
    PendingFrame(backed, s, s');
    RetainedFrame(backed, s, s');
    WritesFrame(self, backed, s, s');
  }

  /** The write history as a whole: each entry fine, no proposal twice. */
  ghost predicate WritesOk(self: Str, backed: Backing, s: Client) {
    && (forall i :: 0 <= i < |s.writes| ==> WriteOk(self, backed, s, s.writes[i]))
    && (forall i, j :: 0 <= i < j < |s.writes| ==> s.writes[i].prop.id != s.writes[j].prop.id)
  }

  lemma WritesExtend(self: Str, backed: Backing, s: Client, s': Client, w: Write)
    requires WritesOk(self, backed, s)
    requires s.resolved.Keys <= s'.resolved.Keys && w.prop.id !in s.resolved
    requires s'.writes == s.writes || (s'.writes == s.writes + [w] && WriteOk(self, backed, s', w))
    ensures WritesOk(self, backed, s')
  {
  }

  lemma CountResolves(self: Str, backed: Backing, s: Client, s': Client, id: Str, t: Tracked, list: seq<Proof>)
    requires ClientInv(self, backed, s) && id in s.proposals
    requires ListOk(backed, t.prop, list) && t.prop == s.proposals[id].prop
    requires s' == s.(proposals := s.proposals - {id}, retained := s.retained[id := list],
                      resolved := s.resolved[id := t.prop], writes := s'.writes)
    requires WritesOk(self, backed, s')
    ensures ClientInv(self, backed, s')
  {
    assert TrackedOk(backed, s, id);
    forall x | x in s'.proposals
      ensures TrackedOk(backed, s', x)
    {
      TrackedFrame(backed, s, s', x);
    }
    PendingFrame(backed, s, s');
    forall x | x in s'.retained
      ensures RetainedOk(backed, s', x)
    {
      if x != id {
        assert RetainedOk(backed, s, x);
      }
    }
  }

  lemma NewWriteOk(self: Str, backed: Backing, s: Client, t: Tracked, at: Str)
    requires t.prop.id in s.resolved && |t.approvers| == t.prop.quorum && t.order != []
    requires Collected(backed, t) && MinFpr(t.order) == self
    ensures WriteOk(self, backed, s, Write(t.prop, t.approvers, MetaOf(t.prop, self, at)))
  {
  }

  lemma CountKeeps(self: Str, backed: Backing, s: Client, c: Checked, at: Str)
    requires ClientInv(self, backed, s) && Paired(s) && PendingOk(backed, s, c)
    ensures ClientInv(self, backed, Count(self, s, c.prop.id, c.proof, at))
  {
    var id := c.prop.id;
    var s' := Count(self, s, id, c.proof, at);
    if id in s.proposals {
      var tp := s.proposals[id];
      if c.proof.fpr != tp.prop.proposer && c.proof.fpr !in tp.approvers {
        assert TrackedOk(backed, s, id);
        CountedOk(backed, tp, c.proof);
        var t := Counted(tp, c.proof);
        if |t.approvers| < tp.prop.quorum {
          EntryKeeps(self, backed, s, s', id, t);
        } else {
          CapturedOk(backed, t);
          var w := Write(t.prop, t.approvers, MetaOf(t.prop, self, at));
          if MinFpr(t.order) == self {
            NewWriteOk(self, backed, s', t, at);
          }
          WritesExtend(self, backed, s, s', w);
          CountResolves(self, backed, s, s', id, t, Captured(t));
        }
      }
    }
  }

  /** Every approval a step newly holds, a peer's or our own, is backed. */
  ghost predicate NewlyBacked(backed: Backing, s: Client, s': Client) {
    && (s'.checked.Some? ==> s'.checked == s.checked || backed(s'.checked.value.prop, s'.checked.value.proof))
    && (forall c :: c in s'.signed ==> c in s.signed || backed(c.prop, c.proof))
  }

  lemma CheckShape(cr: Suite, s: Client, pub: Bytes, a: Approval)
    ensures var s' := Check(cr, s, pub, a);
            s' == s.(checked := s'.checked)
            && (s'.checked.Some? ==> a.id in s.proposals && s'.checked.value.prop == s.proposals[a.id].prop)
  {
  }

  lemma SnapshotKeeps(self: Str, backed: Backing, s: Client, s': Client, id: Str)
    requires ClientInv(self, backed, s) && NewlyBacked(backed, s, s')
    requires s' == s.(checked := s'.checked)
    requires s'.checked.Some? ==> id in s.proposals && s'.checked.value.prop == s.proposals[id].prop
    ensures ClientInv(self, backed, s')
  {
    if s'.checked.None? || s'.checked == s.checked {
      QuietKeeps(self, backed, s, s');
    } else {
      assert TrackedOk(backed, s, id);
      PendingKeeps(self, backed, s, s', s'.checked.value);
    }
  }

  lemma SignKeeps(cr: Suite, cfg: Config, backed: Backing, s: Client, id: Str, requested: Wire, att: Bytes)
    requires ClientInv(SelfFpr(cr, cfg), backed, s)
    requires NewlyBacked(backed, s, Sign(cr, cfg, s, id, requested, att))
    ensures ClientInv(SelfFpr(cr, cfg), backed, Sign(cr, cfg, s, id, requested, att))
  {
    var s' := Sign(cr, cfg, s, id, requested, att);
    if MaySign(cr, cfg, s, id, requested) {
      assert TrackedOk(backed, s, id);
      var p := s.proposals[id].prop;
      var proof := Proof(SelfFpr(cr, cfg), cfg.key, cr.sign(cfg.key, OwnPreimage(cr, cfg, s, id, requested)),
                         att, ApprovalRole(cfg.credential, requested).value);
      assert Checked(p, proof) in s'.signed;
      if Checked(p, proof) in s.signed {
        assert PendingOk(backed, s, Checked(p, proof));
      }
      PendingKeeps(SelfFpr(cr, cfg), backed, s, s', Checked(p, proof));
    }
  }

  lemma CountStepKeeps(cr: Suite, cfg: Config, backed: Backing, s: Client, step: Step)
    requires step.CountChecked? || step.CountOwn?
    requires ClientInv(SelfFpr(cr, cfg), backed, s) && Paired(s)
    ensures ClientInv(SelfFpr(cr, cfg), backed, Apply(cr, cfg, s, step))
  {
    var self := SelfFpr(cr, cfg);
    if step.CountChecked? && s.checked.Some? {
      var c := s.checked.value;
      CountKeeps(self, backed, s, c, step.approvedAt);
      var s1 := Count(self, s, c.prop.id, c.proof, step.approvedAt);
      QuietKeeps(self, backed, s1, s1.(checked := None));
    }
    if step.CountOwn? && step.own in s.signed {
      CountKeeps(self, backed, s, step.own, step.approvedAt);
    }
  }

  lemma TrackStepKeeps(cr: Suite, cfg: Config, log: SignedLog, backed: Backing, s: Client, step: Step)
    requires step.ProposeCall? || step.ReceiveProposal?
    requires ClientInv(SelfFpr(cr, cfg), backed, s) && Paired(s) && Enabled(cr, s, log, step)
    ensures ClientInv(SelfFpr(cr, cfg), backed, Apply(cr, cfg, s, step))
  {
    var self := SelfFpr(cr, cfg);
    var s' := Apply(cr, cfg, s, step);
    if s' != s {
      if step.ProposeCall? {
        var p := step.prop;
        TrackKeeps(self, backed, s, p.(proposer := self, quorum := if p.quorum < 1 then 1 else p.quorum), true);
      } else {
        TrackKeeps(self, backed, s, step.prop, false);
      }
    }
  }

  lemma MarkKeeps(self: Str, backed: Backing, s: Client, id: Str)
    requires ClientInv(self, backed, s)
    ensures ClientInv(self, backed, MarkApproved(s, id))
  {
    if id in s.proposals {
      var s' := MarkApproved(s, id);
      var t := s'.proposals[id];
      assert TrackedOk(backed, s, id);
      assert Collected(backed, t) && |t.order| < t.prop.quorum && t.prop == s.proposals[id].prop;
      EntryKeeps(self, backed, s, s', id, t);
    }
  }

  lemma ShedKeeps(self: Str, backed: Backing, s: Client, id: Str)
    requires ClientInv(self, backed, s)
    ensures ClientInv(self, backed, Drop(s, id)) && ClientInv(self, backed, Vanish(s))
    ensures ClientInv(self, backed, s.(ready := true))
  {
    QuietKeeps(self, backed, s, Drop(s, id));
    QuietKeeps(self, backed, s, Vanish(s));
    QuietKeeps(self, backed, s, s.(ready := true));
  }

  /** Every critical section keeps the client invariant. */
  lemma StepKeeps(cr: Suite, cfg: Config, log: SignedLog, backed: Backing, s: Client, step: Step)
    requires ClientInv(SelfFpr(cr, cfg), backed, s) && Paired(s) && Enabled(cr, s, log, step)
    requires NewlyBacked(backed, s, Apply(cr, cfg, s, step))
    ensures ClientInv(SelfFpr(cr, cfg), backed, Apply(cr, cfg, s, step))
  {
    match step
    case ProposeCall(_) => TrackStepKeeps(cr, cfg, log, backed, s, step);
    case ReceiveProposal(_, _, _) => TrackStepKeeps(cr, cfg, log, backed, s, step);
    case CheckApproval(pub, a) =>
      CheckShape(cr, s, pub, a);
      SnapshotKeeps(SelfFpr(cr, cfg), backed, s, Apply(cr, cfg, s, step), a.id);
    case CountChecked(_) => CountStepKeeps(cr, cfg, backed, s, step);
    case CountOwn(_, _) => CountStepKeeps(cr, cfg, backed, s, step);
    case SignApproval(id, role, att) => SignKeeps(cr, cfg, backed, s, id, role, att);
    case MarkOwn(c) => MarkKeeps(SelfFpr(cr, cfg), backed, s, c.prop.id);
    case DropProposal(id) => ShedKeeps(SelfFpr(cr, cfg), backed, s, id);
    case _ => ShedKeeps(SelfFpr(cr, cfg), backed, s, []);
  }
}
