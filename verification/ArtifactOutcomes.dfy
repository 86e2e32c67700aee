/** Exactly when somebody writes the entry of an approved artifact, over every run. */
module ArtifactOutcomes {
  import opened Bytes
  import opened Crypto
  import opened Artifacts
  import opened ArtifactProofs
  import opened ArtifactRuns
  import opened ArtifactWriters
  import opened ArtifactRaces

  /** This client saw p reach its quorum. */
  predicate Resolves(s: Client, p: Proposal) {
    p.id in s.resolved && s.resolved[p.id] == p
  }

  /** These completed p here: a quorum of backed non-proposers, and p is written if this client is the least of them. */
  ghost predicate Completes(self: Str, backed: Backing, s: Client, p: Proposal, counted: set<Str>) {
    && |counted| == p.quorum && p.proposer !in counted
    && (forall f :: f in counted ==> ApprovedBy(backed, p, f))
    && (IsLeast(self, counted) ==> exists i :: 0 <= i < |s.writes| && s.writes[i].prop == p)
  }

  ghost predicate Completed(self: Str, backed: Backing, s: Client, p: Proposal) {
    exists counted :: Completes(self, backed, s, p, counted)
  }

  /** Whatever resolved was completed, and whatever was written resolved. */
  ghost predicate OutcomesOk(self: Str, backed: Backing, s: Client) {
    && (forall id :: id in s.resolved ==> Completed(self, backed, s, s.resolved[id]))
    && (forall i :: 0 <= i < |s.writes| ==> Resolves(s, s.writes[i].prop))
  }

  // ---- kept by every step ----

  lemma CompletedGrows(self: Str, backed: Backing, more: Backing, s: Client, s': Client, p: Proposal)
    requires forall q: Proposal, proof: Proof :: backed(q, proof) ==> more(q, proof)
    requires s.writes <= s'.writes && Completed(self, backed, s, p)
    ensures Completed(self, more, s', p)
  {
    var counted :| Completes(self, backed, s, p, counted);
    forall f | f in counted
      ensures ApprovedBy(more, p, f)
    {
      var proof: Proof :| proof.fpr == f && backed(p, proof);
      assert more(p, proof);
    }
    if IsLeast(self, counted) {
      var i :| 0 <= i < |s.writes| && s.writes[i].prop == p;
      assert s'.writes[i].prop == p;
    }
    assert Completes(self, more, s', p, counted);
  }

  lemma OutcomesGrow(self: Str, backed: Backing, more: Backing, s: Client)
    requires forall q: Proposal, proof: Proof :: backed(q, proof) ==> more(q, proof)
    requires OutcomesOk(self, backed, s)
    ensures OutcomesOk(self, more, s)
  {
    hide Completed;
    forall id | id in s.resolved
      ensures Completed(self, more, s, s.resolved[id])
    {
      CompletedGrows(self, backed, more, s, s, s.resolved[id]);
    }
  }

  lemma OutcomesFrame(self: Str, backed: Backing, s: Client, s': Client)
    requires OutcomesOk(self, backed, s) && s'.resolved == s.resolved && s'.writes == s.writes
    ensures OutcomesOk(self, backed, s')
  {
    hide Completed;
    forall id | id in s'.resolved
      ensures Completed(self, backed, s', s'.resolved[id])
    {
      CompletedGrows(self, backed, backed, s, s', s.resolved[id]);
    }
  }

  /** The count that reaches the quorum: its own approvers are the completing set. */
  lemma QuorumCompletes(self: Str, backed: Backing, s: Client, t: Tracked)
    requires Collected(backed, t) && |t.order| == t.prop.quorum >= 1
    requires MinFpr(t.order) == self ==> s.writes != [] && s.writes[|s.writes| - 1].prop == t.prop
    ensures Completed(self, backed, s, t.prop)
  {
    forall f | f in t.approvers
      ensures ApprovedBy(backed, t.prop, f)
    {
      assert t.proofs[f].fpr == f && backed(t.prop, t.proofs[f]);
    }
    if IsLeast(self, t.approvers) {
      LeastUnique(t.approvers, self, MinFpr(t.order));
    }
    assert Completes(self, backed, s, t.prop, t.approvers);
  }

  lemma ResolveOutcomes(self: Str, backed: Backing, s: Client, s': Client, t: Tracked)
    requires OutcomesOk(self, backed, s) && t.prop.id !in s.resolved
    requires Collected(backed, t) && |t.order| == t.prop.quorum >= 1
    requires s'.resolved == s.resolved[t.prop.id := t.prop]
    requires if MinFpr(t.order) == self then |s'.writes| == |s.writes| + 1 && s.writes <= s'.writes && s'.writes[|s.writes|].prop == t.prop
             else s'.writes == s.writes
    ensures OutcomesOk(self, backed, s')
  {
    hide Completed, Collected;
    QuorumCompletes(self, backed, s', t);
    forall x | x in s'.resolved
      ensures Completed(self, backed, s', s'.resolved[x])
    {
      if x != t.prop.id {
        CompletedGrows(self, backed, backed, s, s', s.resolved[x]);
      }
    }
    forall i | 0 <= i < |s'.writes|
      ensures Resolves(s', s'.writes[i].prop)
    {
      if i < |s.writes| {
        assert Resolves(s, s.writes[i].prop);
      }
    }
  }

  lemma CountOutcomes(self: Str, backed: Backing, s: Client, c: Checked, at: Str)
    requires ClientInv(self, backed, s) && Paired(s) && PendingOk(backed, s, c) && OutcomesOk(self, backed, s)
    ensures OutcomesOk(self, backed, Count(self, s, c.prop.id, c.proof, at))
  {
    hide OutcomesOk, MetaOf, RetainedOk, WriteOk, Captured, Collected;
    var id := c.prop.id;
    var s' := Count(self, s, id, c.proof, at);
    if s'.resolved == s.resolved && s'.writes == s.writes {
      OutcomesFrame(self, backed, s, s');
    } else {
      var tp := s.proposals[id];
      assert TrackedOk(backed, s, id);
      CountedOk(backed, tp, c.proof);
      var t := Counted(tp, c.proof);
      CollectedSize(backed, t);
      ResolveOutcomes(self, backed, s, s', t);
    }
  }

  lemma CollectedSize(backed: Backing, t: Tracked)
    requires Collected(backed, t)
    ensures |t.order| == |t.approvers|
  {
  }

  lemma StepOutcomes(cr: Suite, cfg: Config, backed: Backing, s: Client, step: Step)
    requires ClientInv(SelfFpr(cr, cfg), backed, s) && Paired(s) && OutcomesOk(SelfFpr(cr, cfg), backed, s)
    ensures OutcomesOk(SelfFpr(cr, cfg), backed, Apply(cr, cfg, s, step))
  {
    hide OutcomesOk, Count, RetainedOk, WriteOk, TrackedOk, MaySign, OwnPreimage;
    var self, s' := SelfFpr(cr, cfg), Apply(cr, cfg, s, step);
    match step
    case CountChecked(at) =>
      if s.checked.Some? {
        CountOutcomes(self, backed, s, s.checked.value, at);
        OutcomesFrame(self, backed, Count(self, s, s.checked.value.prop.id, s.checked.value.proof, at), s');
      }
    case CountOwn(c, at) =>
      if c in s.signed {
        CountOutcomes(self, backed, s, c, at);
      }
    case _ => OutcomesFrame(self, backed, s, s');
  }

  ghost predicate WorldOutcomes(cr: Suite, cfgs: map<Bytes, Config>, w: World) {
    && cfgs.Keys == w.clients.Keys
    && forall k :: k in w.clients ==> OutcomesOk(SelfFpr(cr, cfgs[k]), RealBacking(cr, w.log), w.clients[k])
  }

  lemma WorldStepOutcomes(cr: Suite, cfgs: map<Bytes, Config>, w: World, ws: WorldStep)
    requires WorldInv(cr, cfgs, w) && WorldOutcomes(cr, cfgs, w) && WorldEnabled(cr, w, ws)
    ensures WorldOutcomes(cr, cfgs, WorldApply(cr, cfgs, w, ws))
  {
    hide ClientInv, OutcomesOk, Apply, NewlySigned, Enabled, Paired;
    var w' := WorldApply(cr, cfgs, w, ws);
    assert w'.clients.Keys == w.clients.Keys;
    forall k | k in w'.clients
      ensures OutcomesOk(SelfFpr(cr, cfgs[k]), RealBacking(cr, w'.log), w'.clients[k])
    {
      if ws.Local? && k == ws.key {
        StepOutcomes(cr, cfgs[k], RealBacking(cr, w.log), w.clients[k], ws.step);
      }
      OutcomesGrow(SelfFpr(cr, cfgs[k]), RealBacking(cr, w.log), RealBacking(cr, w'.log), w'.clients[k]);
    }
  }

  lemma {:induction false} RunOutcomes(cr: Suite, cfgs: map<Bytes, Config>, w: World, steps: seq<WorldStep>, end: World)
    requires SignsWhatVerifies(cr) && WorldInv(cr, cfgs, w) && WorldOutcomes(cr, cfgs, w) && IsRun(cr, cfgs, w, steps, end)
    ensures WorldOutcomes(cr, cfgs, end)
    decreases |steps|
  {
    hide WorldInv, WorldOutcomes;
    if steps != [] {
      WorldStepKeeps(cr, cfgs, w, steps[0]);
      WorldStepOutcomes(cr, cfgs, w, steps[0]);
      RunOutcomes(cr, cfgs, WorldApply(cr, cfgs, w, steps[0]), steps[1..], end);
    }
  }

  // ---- who writes ----

  ghost predicate SomeoneWrote(w: World, p: Proposal) {
    exists k, i :: Wrote(w, k, i, p)
  }

  /** The member with the least fingerprint of the approvers saw p reach its quorum. */
  ghost predicate LeastResolves(cr: Suite, w: World, p: Proposal, approvers: set<Str>) {
    exists k :: k in w.clients && IsLeast(cr.fingerprint(k), approvers) && Resolves(w.clients[k], p)
  }

  /** Whoever saw p reach its quorum counted quorum many of the approvers. */
  lemma CompletingSet(cr: Suite, cfgs: map<Bytes, Config>, w: World, p: Proposal, k: Bytes, approvers: set<Str>)
    returns (counted: set<Str>)
    requires WorldInv(cr, cfgs, w) && WorldOutcomes(cr, cfgs, w) && OnlyApprovers(cr, w.log, p, approvers)
    requires k in w.clients && Resolves(w.clients[k], p)
    ensures counted <= approvers && |counted| == p.quorum
    ensures IsLeast(cr.fingerprint(k), counted) ==> exists i :: Wrote(w, k, i, p)
  {
    var self, s := SelfFpr(cr, cfgs[k]), w.clients[k];
    assert OutcomesOk(self, RealBacking(cr, w.log), s);
    counted :| Completes(self, RealBacking(cr, w.log), s, p, counted);
    forall f | f in counted
      ensures f in approvers
    {
      assert ApprovedBy(RealBacking(cr, w.log), p, f);
      var proof: Proof :| proof.fpr == f && RealBacking(cr, w.log)(p, proof);
    }
    if IsLeast(self, counted) {
      var i :| 0 <= i < |s.writes| && s.writes[i].prop == p;
      assert Wrote(w, k, i, p);
    }
  }

  lemma LeastWrote(cr: Suite, cfgs: map<Bytes, Config>, w: World, p: Proposal, k: Bytes, approvers: set<Str>)
    requires WorldInv(cr, cfgs, w) && WorldOutcomes(cr, cfgs, w)
    requires OnlyApprovers(cr, w.log, p, approvers) && |approvers| <= p.quorum
    requires k in w.clients && IsLeast(cr.fingerprint(k), approvers) && Resolves(w.clients[k], p)
    ensures exists i :: Wrote(w, k, i, p)
  {
    hide WorldInv, WorldOutcomes, OnlyApprovers;
    var counted := CompletingSet(cr, cfgs, w, p, k, approvers);
    SubsetSize(counted, approvers);
  }

  /**
   "No 'nobody writes' race", exactly. In every run in which no more members than the quorum approve
   p, whatever is lost, dropped, expired or vanished anywhere: somebody has written the entry of p if
   and only if the client with the least fingerprint of the approvers saw p reach its quorum.
   */
  lemma SomeoneWritesExactly(cr: Suite, cfgs: map<Bytes, Config>, w: World, steps: seq<WorldStep>, end: World,
                             p: Proposal, approvers: set<Str>)
    requires SignsWhatVerifies(cr) && Configured(cfgs, w) && Initial(w) && IsRun(cr, cfgs, w, steps, end)
    requires OnlyApprovers(cr, end.log, p, approvers) && |approvers| <= p.quorum
    ensures SomeoneWrote(end, p) <==> LeastResolves(cr, end, p, approvers)
  {
    hide IsRun, OnlyApprovers, OutcomesOk, ClientInv;
    RunInvariants(cr, cfgs, w, steps, end);
    if k, i :| Wrote(end, k, i, p) {
      WriterIsLeast(cr, cfgs, end, k, i, approvers);
      WrittenResolved(SelfFpr(cr, cfgs[k]), RealBacking(cr, end.log), end.clients[k], i);
      assert LeastResolves(cr, end, p, approvers);
    }
    if k :| k in end.clients && IsLeast(cr.fingerprint(k), approvers) && Resolves(end.clients[k], p) {
      LeastWrote(cr, cfgs, end, p, k, approvers);
    }
  }

  lemma RunInvariants(cr: Suite, cfgs: map<Bytes, Config>, w: World, steps: seq<WorldStep>, end: World)
    requires SignsWhatVerifies(cr) && Configured(cfgs, w) && Initial(w) && IsRun(cr, cfgs, w, steps, end)
    ensures WorldInv(cr, cfgs, end) && WorldOutcomes(cr, cfgs, end)
  {
    hide IsRun;
    InitialInv(cr, cfgs, w);
    InitialOutcomes(cr, cfgs, w);
    RunKeepsInv(cr, cfgs, w, steps, end);
    RunOutcomes(cr, cfgs, w, steps, end);
  }

  lemma WrittenResolved(self: Str, backed: Backing, s: Client, i: nat)
    requires OutcomesOk(self, backed, s) && i < |s.writes|
    ensures Resolves(s, s.writes[i].prop)
  {
  }

  lemma InitialOutcomes(cr: Suite, cfgs: map<Bytes, Config>, w: World)
    requires Configured(cfgs, w) && Initial(w)
    ensures WorldOutcomes(cr, cfgs, w)
  {
  }

  /**
   The run in which it fails although no more members approve than the quorum: everybody signs, the
   proposal expires at the least member before it has counted, every other member counts every
   approval and sees the quorum reached, and nobody writes.
   */
  lemma ExpiryLeavesNoWriter(cr: Suite, cfgs: map<Bytes, Config>, w: World, p: Proposal, least: Bytes, at: Str)
    returns (steps: seq<WorldStep>, end: World)
    requires SignsWhatVerifies(cr) && SignsExactly(cr) && FingerprintsDistinct(cr) && Room(cr, cfgs, w, p)
    requires 1 <= p.quorum <= |Members(cr, cfgs)| && least in cfgs && IsLeast(cr.fingerprint(least), Members(cr, cfgs))
    ensures IsRun(cr, cfgs, w, steps, end) && end.clients.Keys == cfgs.Keys && OnlyApprovers(cr, end.log, p, Members(cr, cfgs))
    ensures forall k :: k in end.clients ==> end.clients[k].writes == [] && (k != least ==> Resolves(end.clients[k], p))
  {
    hide IsRun, OnlyApprovers, Members, AllMembers, Elects, ArrivalOrder, Approvable, Done, Room;
    var all := Members(cr, cfgs);
    var early := LeadingOrder(cr.fingerprint(least), all, p.quorum);
    var orders := map x | x in all :: early;
    steps, end := ExpiryRun(cr, cfgs, w, p, orders, least, at);
    OnlyMembers(cr, cfgs, w, p);
    forall k | k in end.clients && k != least
      ensures end.clients[k].writes == [] && Resolves(end.clients[k], p)
    {
      DoneAsElected(cr, cfgs, w, p, orders, k, at);
      RoomKeys(cr, cfgs, w, p, k, least);
      NotElected(cr, k, least, early, p.quorum);
    }
  }

  lemma RoomKeys(cr: Suite, cfgs: map<Bytes, Config>, w: World, p: Proposal, a: Bytes, b: Bytes)
    requires Room(cr, cfgs, w, p) && a in cfgs && b in cfgs
    ensures |a| == |b| == KEY_SIZE && cr.fingerprint(a) in Members(cr, cfgs)
  {
  }

  /** Everybody signs, everybody but one counts in its assigned order, and the proposal expires at that one. */
  lemma ExpiryRun(cr: Suite, cfgs: map<Bytes, Config>, w: World, p: Proposal, orders: map<Str, seq<Str>>, late: Bytes, at: Str)
    returns (steps: seq<WorldStep>, end: World)
    requires SignsWhatVerifies(cr) && SignsExactly(cr) && Room(cr, cfgs, w, p) && Assigns(Members(cr, cfgs), orders) && late in cfgs
    ensures IsRun(cr, cfgs, w, steps, end) && end.clients.Keys == cfgs.Keys
    ensures end.log == SignedWorld(cr, cfgs, p, cfgs.Keys).log && end.clients[late].writes == []
    ensures forall k :: k in cfgs && k != late ==>
      cr.fingerprint(k) in orders && AllMembers(cr, cfgs, orders[cr.fingerprint(k)]) && end.clients[k] == Done(cr, cfgs, p, orders, k, at)
  {
    hide IsRun, Members, AllMembers, Assigns, Signed, SignedWorld, OwnApproval, Approvable, Done;
    var mid := CountEverywhere(cr, cfgs, w, p, orders, cfgs.Keys - {late}, at);
    SignedMid(cr, cfgs[late], p);
    Steps(cr, cfgs, w, mid, late, DropProposal(p.id));
    assert mid.log + {} == mid.log;
    end := World(mid.clients[late := Drop(mid.clients[late], p.id)], mid.log);
    steps :| IsRun(cr, cfgs, w, steps, end);
  }

  /**
   And so for whole rooms: among the members of a fresh room, a proposal somebody saw reach its
   quorum is written by somebody in every run if and only if the room has at most one member or too
   few to reach the quorum at all.
   */
  lemma SomeoneAlwaysWritesExactly(cr: Suite, cfgs: map<Bytes, Config>, w: World, p: Proposal)
    requires SignsWhatVerifies(cr) && SignsExactly(cr) && FingerprintsDistinct(cr) && Room(cr, cfgs, w, p) && p.quorum >= 1
    ensures (forall steps, end, k ::
               (&& IsRun(cr, cfgs, w, steps, end) && OnlyApprovers(cr, end.log, p, Members(cr, cfgs))
                && k in end.clients && Resolves(end.clients[k], p)) ==>
                 SomeoneWrote(end, p))
            <==> |Members(cr, cfgs)| <= 1 || |Members(cr, cfgs)| < p.quorum
  {
    hide IsRun, OnlyApprovers, Members;
    var all := Members(cr, cfgs);
    if |all| <= 1 || |all| < p.quorum {
      forall steps, end, k | IsRun(cr, cfgs, w, steps, end) && OnlyApprovers(cr, end.log, p, all)
                             && k in end.clients && Resolves(end.clients[k], p)
        ensures SomeoneWrote(end, p)
      {
        SoleResolverWrote(cr, cfgs, w, p, steps, end, k);
      }
    } else {
      var a, b := TwoMembers(cr, cfgs);
      var steps, end := ExpiryLeavesNoWriter(cr, cfgs, w, p, a, []);
      assert b in end.clients && Resolves(end.clients[b], p);
    }
  }

  lemma SoleResolverWrote(cr: Suite, cfgs: map<Bytes, Config>, w: World, p: Proposal, steps: seq<WorldStep>, end: World, k: Bytes)
    requires SignsWhatVerifies(cr) && Room(cr, cfgs, w, p) && p.quorum >= 1
    requires IsRun(cr, cfgs, w, steps, end) && OnlyApprovers(cr, end.log, p, Members(cr, cfgs))
    requires k in end.clients && Resolves(end.clients[k], p)
    requires |Members(cr, cfgs)| <= 1 || |Members(cr, cfgs)| < p.quorum
    ensures SomeoneWrote(end, p)
  {
    hide IsRun, OnlyApprovers, OutcomesOk, ClientInv, IsLeast;
    RunInvariants(cr, cfgs, w, steps, end);
    var f := cr.fingerprint(k);
    assert f in Members(cr, cfgs);
    var counted := CompletingSet(cr, cfgs, end, p, k, Members(cr, cfgs));
    OneOfOne(counted, Members(cr, cfgs), f);
  }

  lemma OneOfOne(counted: set<Str>, all: set<Str>, f: Str)
    requires counted <= all && counted != {} && f in all && (|all| <= 1 || |all| < |counted|)
    ensures IsLeast(f, counted)
  {
    SubsetSize({f}, all);
    SubsetSize(counted, all);
  }

  /** The member with the least fingerprint, and another. */
  lemma TwoMembers(cr: Suite, cfgs: map<Bytes, Config>) returns (a: Bytes, b: Bytes)
    requires |Members(cr, cfgs)| >= 2
    ensures a in cfgs && b in cfgs && a != b && IsLeast(cr.fingerprint(a), Members(cr, cfgs))
  {
    var all := Members(cr, cfgs);
    var f := LeastExists(all);
    assert |all - {f}| >= 1;
    var g :| g in all - {f};
    a, b := KeyOf(cr, cfgs, f), KeyOf(cr, cfgs, g);
  }

  lemma NotElected(cr: Suite, k: Bytes, least: Bytes, order: seq<Str>, q: nat)
    requires FingerprintsDistinct(cr) && |k| == |least| == KEY_SIZE && k != least && Elects(cr.fingerprint(least), order, q)
    ensures !Elects(cr.fingerprint(k), order, q)
  {
  }
}
