/**
 Every assignment of arrival orders is a run. A room in which every member approves can deliver the
 approvals to each member in any order whatever, so what the elections say of orders happens in runs.
 */
module ArtifactRaces {
  import opened Bytes
  import opened Crypto
  import opened Artifacts
  import opened ArtifactProofs
  import opened ArtifactRuns
  import opened ArtifactWriters

  // ---- reaching a world ----

  ghost predicate Reaches(cr: Suite, cfgs: map<Bytes, Config>, w: World, end: World) {
    exists steps :: IsRun(cr, cfgs, w, steps, end)
  }

  lemma {:induction false} RunSnoc(cr: Suite, cfgs: map<Bytes, Config>, w: World, steps: seq<WorldStep>, mid: World, ws: WorldStep)
    requires IsRun(cr, cfgs, w, steps, mid) && cfgs.Keys == mid.clients.Keys && WorldEnabled(cr, mid, ws)
    ensures IsRun(cr, cfgs, w, steps + [ws], WorldApply(cr, cfgs, mid, ws))
    decreases |steps|
  {
    hide Enabled, Apply, NewlySigned;
    if steps == [] {
      assert ([ws])[1..] == [] && [] + [ws] == [ws];
    } else {
      RunSnoc(cr, cfgs, WorldApply(cr, cfgs, w, steps[0]), steps[1..], mid, ws);
      assert (steps + [ws])[1..] == steps[1..] + [ws];
    }
  }

  /** One more local step. */
  lemma Steps(cr: Suite, cfgs: map<Bytes, Config>, w: World, mid: World, k: Bytes, step: Step)
    requires Reaches(cr, cfgs, w, mid) && cfgs.Keys == mid.clients.Keys && k in cfgs
    requires Paired(mid.clients[k]) && Enabled(cr, mid.clients[k], mid.log, step)
    ensures Reaches(cr, cfgs, w, World(mid.clients[k := Apply(cr, cfgs[k], mid.clients[k], step)],
                                       mid.log + NewlySigned(cr, cfgs[k], mid.clients[k], step)))
  {
    hide IsRun, Apply, Enabled, NewlySigned;
    var steps :| IsRun(cr, cfgs, w, steps, mid);
    RunSnoc(cr, cfgs, w, steps, mid, Local(k, step));
  }

  // ---- everybody signs ----

  /** A fresh room whose members may all approve p. */
  ghost predicate Room(cr: Suite, cfgs: map<Bytes, Config>, w: World, p: Proposal) {
    && Configured(cfgs, w) && Initial(w)
    && forall k :: k in cfgs ==> Approvable(cr, cfgs[k], p)
  }

  function Signed(cr: Suite, cfg: Config, p: Proposal): Client {
    ReceiveAndSign(cr, cfg, FRESH_CLIENT.(ready := true), p)
  }

  function Message(cr: Suite, p: Proposal, k: Bytes): Bytes {
    Preimage(p.id, p.hash, cr.fingerprint(k), p.nonce, [])
  }

  function SignedWorld(cr: Suite, cfgs: map<Bytes, Config>, p: Proposal, ks: set<Bytes>): World {
    World(map k | k in cfgs :: if k in ks then Signed(cr, cfgs[k], p) else FRESH_CLIENT,
          set k | k in ks :: (k, Message(cr, p, k)))
  }

  lemma SignOne(cr: Suite, cfgs: map<Bytes, Config>, w: World, mid: World, p: Proposal, k: Bytes)
    requires Reaches(cr, cfgs, w, mid) && cfgs.Keys == mid.clients.Keys && k in cfgs
    requires cfgs[k].key == k && Approvable(cr, cfgs[k], p) && mid.clients[k] == FRESH_CLIENT
    ensures Reaches(cr, cfgs, w, World(mid.clients[k := Signed(cr, cfgs[k], p)], mid.log + {(k, Message(cr, p, k))}))
  {
    hide Reaches, Preimage;
    var cfg := cfgs[k];
    var s1 := FRESH_CLIENT.(ready := true);
    var s2 := Receive(s1, p.proposer, p, false);
    SignsOwn(cr, cfg, s1, p);
    Steps(cr, cfgs, w, mid, k, KeyReady);
    var w1 := World(mid.clients[k := s1], mid.log);
    assert mid.log + {} == mid.log;
    Steps(cr, cfgs, w, w1, k, ReceiveProposal(p.proposer, p, false));
    var w2 := World(mid.clients[k := s2], mid.log);
    assert w1.clients[k := s2] == w2.clients;
    Steps(cr, cfgs, w, w2, k, SignApproval(p.id, [], []));
    assert w2.clients[k := Signed(cr, cfg, p)] == mid.clients[k := Signed(cr, cfg, p)];
  }

  lemma {:induction false} SignAll(cr: Suite, cfgs: map<Bytes, Config>, w: World, p: Proposal, ks: set<Bytes>)
    requires Room(cr, cfgs, w, p) && ks <= cfgs.Keys
    ensures Reaches(cr, cfgs, w, SignedWorld(cr, cfgs, p, ks))
  {
    hide Signed, Message;
    var end := SignedWorld(cr, cfgs, p, ks);
    if ks == {} {
      assert w.clients == end.clients && w.log == end.log;
      assert IsRun(cr, cfgs, w, [], w);
    } else {
      hide IsRun;
      var k :| k in ks;
      SignAll(cr, cfgs, w, p, ks - {k});
      var mid := SignedWorld(cr, cfgs, p, ks - {k});
      SignOne(cr, cfgs, w, mid, p, k);
      assert mid.clients[k := Signed(cr, cfgs[k], p)] == end.clients;
      assert mid.log + {(k, Message(cr, p, k))} == end.log;
    }
  }

  // ---- everybody counts, each in its own order ----

  function Members(cr: Suite, cfgs: map<Bytes, Config>): set<Str> {
    set k | k in cfgs :: cr.fingerprint(k)
  }

  ghost function KeyOf(cr: Suite, cfgs: map<Bytes, Config>, f: Str): (k: Bytes)
    requires f in Members(cr, cfgs)
    ensures k in cfgs && cr.fingerprint(k) == f
  {
    var k :| k in cfgs && cr.fingerprint(k) == f;
    k
  }

  /** The approval of p by the member with this fingerprint. */
  ghost function ProofOf(cr: Suite, cfgs: map<Bytes, Config>, p: Proposal, f: Str): Proof
    requires f in Members(cr, cfgs)
  {
    OwnApproval(cr, cfgs[KeyOf(cr, cfgs, f)], p).proof
  }

  ghost predicate AllMembers(cr: Suite, cfgs: map<Bytes, Config>, order: seq<Str>) {
    forall i :: 0 <= i < |order| ==> order[i] in Members(cr, cfgs)
  }

  ghost function Proofs(cr: Suite, cfgs: map<Bytes, Config>, p: Proposal, order: seq<Str>): (r: seq<Proof>)
    requires AllMembers(cr, cfgs, order)
    ensures |r| == |order|
  {
    seq(|order|, i requires 0 <= i < |order| => ProofOf(cr, cfgs, p, order[i]))
  }

  /** A client in the middle of counting the approvals of p: nothing verified but uncounted, its own signed. */
  predicate MidCount(cr: Suite, cfg: Config, p: Proposal, s: Client) {
    && Paired(s) && s.checked.None? && OwnApproval(cr, cfg, p) in s.signed
    && (p.id in s.proposals ==> s.proposals[p.id].prop == p)
  }

  lemma CountKeepsMid(cr: Suite, cfg: Config, p: Proposal, s: Client, proof: Proof, at: Str)
    requires MidCount(cr, cfg, p, s)
    ensures MidCount(cr, cfg, p, Count(SelfFpr(cr, cfg), s, p.id, proof, at))
  {
    hide OwnApproval;
    CountPaired(SelfFpr(cr, cfg), s, p.id, proof, at);
  }

  /** A member's broadcast approval passes every check anywhere, and is no forgery. */
  lemma ApprovalPasses(cr: Suite, cfgs: map<Bytes, Config>, p: Proposal, log: SignedLog, k: Bytes)
    requires SignsWhatVerifies(cr) && SignsExactly(cr) && k in cfgs && cfgs[k].key == k && |k| == KEY_SIZE
    requires (k, Message(cr, p, k)) in log
    ensures var proof := OwnApproval(cr, cfgs[k], p).proof;
            var a := Approval(p.id, p.hash, cr.fingerprint(k), proof.sig, [], []);
            Unforged(cr, log, k, a.sig) && PassesChecks(cr, p, k, a) && proof == Proof(a.approver, k, a.sig, [], [])
  {
    hide Preimage;
  }

  /** Counting does not look at the approval held between its two critical sections. */
  lemma CountIgnoresChecked(self: Str, s: Client, id: Str, proof: Proof, at: Str, c: Option<Checked>)
    requires Paired(s)
    ensures Paired(s.(checked := c))
    ensures Count(self, s.(checked := c), id, proof, at) == Count(self, s, id, proof, at).(checked := c)
  {
  }

  /** What verifying and then counting a passing approval does. */
  lemma CheckThenCount(cr: Suite, cfg: Config, p: Proposal, s: Client, pub: Bytes, a: Approval, at: Str)
    requires MidCount(cr, cfg, p, s) && a.id == p.id && PassesChecks(cr, p, pub, a)
    ensures var c := Check(cr, s, pub, a);
            Paired(c) && c == s.(checked := c.checked)
            && Apply(cr, cfg, c, CountChecked(at))
               == Count(SelfFpr(cr, cfg), s, p.id, Proof(a.approver, pub, a.sig, a.attestation, a.role), at)
  {
    hide PassesChecks, OwnApproval, Count;
    var proof := Proof(a.approver, pub, a.sig, a.attestation, a.role);
    var self := SelfFpr(cr, cfg);
    if p.id in s.proposals {
      CountIgnoresChecked(self, s, p.id, proof, at, Some(Checked(p, proof)));
      CountIgnoresChecked(self, s, p.id, proof, at, None);
      assert s.(checked := None) == s;
    } else {
      CountUntracked(self, s, p.id, proof, at);
    }
  }

  lemma CountUntracked(self: Str, s: Client, id: Str, proof: Proof, at: Str)
    requires Paired(s) && id !in s.proposals
    ensures Count(self, s, id, proof, at) == s
  {
  }

  lemma CountOne(cr: Suite, cfgs: map<Bytes, Config>, w: World, mid: World, p: Proposal, k: Bytes, f: Str, at: Str)
    requires SignsWhatVerifies(cr) && SignsExactly(cr) && Room(cr, cfgs, w, p)
    requires Reaches(cr, cfgs, w, mid) && cfgs.Keys == mid.clients.Keys && k in cfgs && f in Members(cr, cfgs)
    requires mid.log == SignedWorld(cr, cfgs, p, cfgs.Keys).log && MidCount(cr, cfgs[k], p, mid.clients[k])
    ensures var s' := Count(SelfFpr(cr, cfgs[k]), mid.clients[k], p.id, ProofOf(cr, cfgs, p, f), at);
            Reaches(cr, cfgs, w, World(mid.clients[k := s'], mid.log))
  {
    hide Reaches, Count, OwnApproval, Message, PassesChecks, Check, Unforged, Approvable, Paired;
    var s, from := mid.clients[k], KeyOf(cr, cfgs, f);
    var proof := OwnApproval(cr, cfgs[from], p).proof;
    assert mid.log + {} == mid.log;
    if from == k {
      OwnNames(cr, cfgs[k], p);
      Steps(cr, cfgs, w, mid, k, CountOwn(OwnApproval(cr, cfgs[k], p), at));
    } else {
      assert (from, Message(cr, p, from)) in mid.log;
      ApprovalPasses(cr, cfgs, p, mid.log, from);
      var a := Approval(p.id, p.hash, cr.fingerprint(from), proof.sig, [], []);
      CheckThenCount(cr, cfgs[k], p, s, from, a, at);
      Steps(cr, cfgs, w, mid, k, CheckApproval(from, a));
      var w1 := World(mid.clients[k := Check(cr, s, from, a)], mid.log);
      Steps(cr, cfgs, w, w1, k, CountChecked(at));
      var s' := Count(SelfFpr(cr, cfgs[k]), s, p.id, proof, at);
      assert w1.clients[k := s'] == mid.clients[k := s'];
    }
  }

  lemma OwnNames(cr: Suite, cfg: Config, p: Proposal)
    ensures OwnApproval(cr, cfg, p).prop == p
  {
  }

  lemma {:induction false} CountOrder(cr: Suite, cfgs: map<Bytes, Config>, w: World, mid: World, p: Proposal, k: Bytes,
                                      order: seq<Str>, at: Str)
    requires SignsWhatVerifies(cr) && SignsExactly(cr) && Room(cr, cfgs, w, p)
    requires Reaches(cr, cfgs, w, mid) && cfgs.Keys == mid.clients.Keys && k in cfgs && AllMembers(cr, cfgs, order)
    requires mid.log == SignedWorld(cr, cfgs, p, cfgs.Keys).log && MidCount(cr, cfgs[k], p, mid.clients[k])
    ensures var s' := CountAll(SelfFpr(cr, cfgs[k]), mid.clients[k], p.id, Proofs(cr, cfgs, p, order), at);
            MidCount(cr, cfgs[k], p, s') && Reaches(cr, cfgs, w, World(mid.clients[k := s'], mid.log))
    decreases |order|
  {
    hide Reaches, Count, OwnApproval, MidCount, SignedWorld, Room, ProofOf, Members;
    var self, s := SelfFpr(cr, cfgs[k]), mid.clients[k];
    assert Paired(s) by {
      assert MidCount(cr, cfgs[k], p, s);
      MidPaired(cr, cfgs[k], p, s);
    }
    if order == [] {
      assert mid.clients[k := s] == mid.clients;
    } else {
      var n := |order| - 1;
      CountOrder(cr, cfgs, w, mid, p, k, order[..n], at);
      var proofs := Proofs(cr, cfgs, p, order);
      assert proofs[..n] == Proofs(cr, cfgs, p, order[..n]);
      var s1 := CountAll(self, s, p.id, proofs[..n], at);
      var w1 := World(mid.clients[k := s1], mid.log);
      CountKeepsMid(cr, cfgs[k], p, s1, proofs[n], at);
      CountOne(cr, cfgs, w, w1, p, k, order[n], at);
      var s2 := Count(self, s1, p.id, proofs[n], at);
      assert w1.clients[k := s2] == mid.clients[k := s2];
    }
  }

  lemma MidPaired(cr: Suite, cfg: Config, p: Proposal, s: Client)
    requires MidCount(cr, cfg, p, s)
    ensures Paired(s)
  {
  }

  /** The client with key k once it has counted everybody's approval in its own order. */
  ghost function Done(cr: Suite, cfgs: map<Bytes, Config>, p: Proposal, orders: map<Str, seq<Str>>, k: Bytes, at: Str): Client
    requires k in cfgs && Approvable(cr, cfgs[k], p) && cr.fingerprint(k) in orders
    requires AllMembers(cr, cfgs, orders[cr.fingerprint(k)])
  {
    SignsOwn(cr, cfgs[k], FRESH_CLIENT.(ready := true), p);
    CountAll(SelfFpr(cr, cfgs[k]), Signed(cr, cfgs[k], p), p.id, Proofs(cr, cfgs, p, orders[cr.fingerprint(k)]), at)
  }

  lemma AssignedMembers(cr: Suite, cfgs: map<Bytes, Config>, orders: map<Str, seq<Str>>, k: Bytes)
    requires Assigns(Members(cr, cfgs), orders) && k in cfgs
    ensures cr.fingerprint(k) in orders && AllMembers(cr, cfgs, orders[cr.fingerprint(k)])
  {
    var f := cr.fingerprint(k);
    assert f in Members(cr, cfgs);
    forall i | 0 <= i < |orders[f]|
      ensures orders[f][i] in Members(cr, cfgs)
    {
      assert orders[f][i] in Elements(orders[f]);
    }
  }

  /** Some world is reached in which these members are done and the others have only signed. */
  lemma {:induction false} CountEverywhere(cr: Suite, cfgs: map<Bytes, Config>, w: World, p: Proposal,
                                           orders: map<Str, seq<Str>>, ks: set<Bytes>, at: Str) returns (end: World)
    requires SignsWhatVerifies(cr) && SignsExactly(cr) && Room(cr, cfgs, w, p)
    requires Assigns(Members(cr, cfgs), orders) && ks <= cfgs.Keys
    ensures Reaches(cr, cfgs, w, end) && end.clients.Keys == cfgs.Keys && end.log == SignedWorld(cr, cfgs, p, cfgs.Keys).log
    ensures forall k :: k in cfgs && k !in ks ==> end.clients[k] == Signed(cr, cfgs[k], p)
    ensures forall k :: k in ks ==>
      cr.fingerprint(k) in orders && AllMembers(cr, cfgs, orders[cr.fingerprint(k)])
      && end.clients[k] == Done(cr, cfgs, p, orders, k, at)
    decreases |ks|
  {
    hide Reaches, Signed, CountAll, Proofs, AllMembers, Assigns, MidCount, Approvable;
    if ks == {} {
      SignAll(cr, cfgs, w, p, cfgs.Keys);
      end := SignedWorld(cr, cfgs, p, cfgs.Keys);
    } else {
      var k :| k in ks;
      var mid := CountEverywhere(cr, cfgs, w, p, orders, ks - {k}, at);
      AssignedMembers(cr, cfgs, orders, k);
      SignedMid(cr, cfgs[k], p);
      CountOrder(cr, cfgs, w, mid, p, k, orders[cr.fingerprint(k)], at);
      end := World(mid.clients[k := Done(cr, cfgs, p, orders, k, at)], mid.log);
    }
  }

  lemma SignedMid(cr: Suite, cfg: Config, p: Proposal)
    requires Approvable(cr, cfg, p)
    ensures MidCount(cr, cfg, p, Signed(cr, cfg, p)) && JustTracks(Signed(cr, cfg, p), p)
  {
    hide OwnApproval;
    SignsOwn(cr, cfg, FRESH_CLIENT.(ready := true), p);
  }

  /** Every member has resolved p, and has written it exactly if its own order elects it. */
  ghost predicate ElectedAsOrdered(cr: Suite, end: World, p: Proposal, orders: map<Str, seq<Str>>, at: Str) {
    forall k :: k in end.clients ==>
      cr.fingerprint(k) in orders && ResolvedBy(cr.fingerprint(k), end.clients[k], p, orders[cr.fingerprint(k)], at)
  }

  /**
   Orders are runs. In a fresh room of at least quorum members, none of them the proposer, for every
   assignment of arrival orders there is a run in which every member signs, every member counts every
   approval in its own assigned order, and every member has therefore resolved the proposal and
   written its entry exactly if its first quorum arrivals elect it.
   */
  lemma OrdersAreRuns(cr: Suite, cfgs: map<Bytes, Config>, w: World, p: Proposal, orders: map<Str, seq<Str>>, at: Str)
    returns (steps: seq<WorldStep>, end: World)
    requires SignsWhatVerifies(cr) && SignsExactly(cr) && Room(cr, cfgs, w, p)
    requires Assigns(Members(cr, cfgs), orders) && 1 <= p.quorum <= |Members(cr, cfgs)|
    ensures IsRun(cr, cfgs, w, steps, end) && end.clients.Keys == cfgs.Keys && ElectedAsOrdered(cr, end, p, orders, at)
    ensures OnlyApprovers(cr, end.log, p, Members(cr, cfgs))
  {
    hide IsRun, ResolvedBy, CountAll, Assigns, Room, OnlyApprovers;
    OnlyMembers(cr, cfgs, w, p);
    end := CountEverywhere(cr, cfgs, w, p, orders, cfgs.Keys, at);
    steps :| IsRun(cr, cfgs, w, steps, end);
    forall k | k in end.clients
      ensures cr.fingerprint(k) in orders && ResolvedBy(cr.fingerprint(k), end.clients[k], p, orders[cr.fingerprint(k)], at)
    {
      DoneAsElected(cr, cfgs, w, p, orders, k, at);
    }
  }

  /** Nobody outside the room signed. */
  lemma OnlyMembers(cr: Suite, cfgs: map<Bytes, Config>, w: World, p: Proposal)
    requires Room(cr, cfgs, w, p)
    ensures OnlyApprovers(cr, SignedWorld(cr, cfgs, p, cfgs.Keys).log, p, Members(cr, cfgs))
  {
    hide Preimage, Message, Approvable;
  }

  lemma DoneAsElected(cr: Suite, cfgs: map<Bytes, Config>, w: World, p: Proposal, orders: map<Str, seq<Str>>, k: Bytes, at: Str)
    requires Room(cr, cfgs, w, p) && k in cfgs && Assigns(Members(cr, cfgs), orders) && 1 <= p.quorum <= |Members(cr, cfgs)|
    ensures var f := cr.fingerprint(k);
            f in orders && AllMembers(cr, cfgs, orders[f]) && ResolvedBy(f, Done(cr, cfgs, p, orders, k, at), p, orders[f], at)
  {
    hide ResolvedBy, CountAll, OwnApproval, ReceiveAndSign;
    AssignedMembers(cr, cfgs, orders, k);
    var f := cr.fingerprint(k);
    var order := orders[f];
    var proofs := Proofs(cr, cfgs, p, order);
    ProofsSigners(cr, cfgs, w, p, order);
    assert f in Members(cr, cfgs) && ArrivalOrder(Members(cr, cfgs), order);
    OrderLength(order);
    SignedMid(cr, cfgs[k], p);
    CountingElects(f, Signed(cr, cfgs[k], p), p, proofs, at);
  }

  lemma ProofsSigners(cr: Suite, cfgs: map<Bytes, Config>, w: World, p: Proposal, order: seq<Str>)
    requires Room(cr, cfgs, w, p) && AllMembers(cr, cfgs, order)
    ensures Signers(Proofs(cr, cfgs, p, order)) == order && p.proposer !in order
  {
    hide Preimage;
    var proofs := Proofs(cr, cfgs, p, order);
    forall i | 0 <= i < |order|
      ensures proofs[i].fpr == order[i] != p.proposer
    {
      var k := KeyOf(cr, cfgs, order[i]);
      assert Approvable(cr, cfgs[k], p);
    }
  }

  // ---- two writers, and none ----

  /**
   More members approve than the quorum asks for: there is a run of the whole room, every frame
   delivered once, in which two different members each write the artifact entry.
   */
  lemma TwoMembersWrite(cr: Suite, cfgs: map<Bytes, Config>, w: World, p: Proposal, at: Str)
    returns (steps: seq<WorldStep>, end: World, a: Bytes, b: Bytes)
    requires SignsWhatVerifies(cr) && SignsExactly(cr) && Room(cr, cfgs, w, p) && 1 <= p.quorum < |Members(cr, cfgs)|
    ensures IsRun(cr, cfgs, w, steps, end) && end.clients.Keys == cfgs.Keys && OnlyApprovers(cr, end.log, p, Members(cr, cfgs))
    ensures a in end.clients && b in end.clients && cr.fingerprint(a) != cr.fingerprint(b)
    ensures forall k :: k in {a, b} ==>
      |end.clients[k].writes| == 1 && end.clients[k].writes[0].prop == p
      && end.clients[k].writes[0].meta == MetaOf(p, cr.fingerprint(k), at)
      && p.id in end.clients[k].retained && p.id in end.clients[k].resolved && end.clients[k].resolved[p.id] == p
  {
    hide IsRun, Room, ArrivalOrder, Elects;
    var all := Members(cr, cfgs);
    var fa, fb, oa, ob := TwoElected(all, p.quorum);
    var orders := map f | f in all :: if f == fb then ob else oa;
    assert Assigns(all, orders);
    steps, end := OrdersAreRuns(cr, cfgs, w, p, orders, at);
    a, b := KeyOf(cr, cfgs, fa), KeyOf(cr, cfgs, fb);
  }

  /** Nobody writes: then, too, there is a run in which every member completes and no member has written. */
  lemma NobodyWrites(cr: Suite, cfgs: map<Bytes, Config>, w: World, p: Proposal, at: Str)
    returns (steps: seq<WorldStep>, end: World)
    requires SignsWhatVerifies(cr) && SignsExactly(cr) && Room(cr, cfgs, w, p) && 1 <= p.quorum < |Members(cr, cfgs)|
    ensures IsRun(cr, cfgs, w, steps, end) && end.clients.Keys == cfgs.Keys
    ensures forall k :: k in end.clients ==>
      end.clients[k].writes == [] && p.id in end.clients[k].resolved && end.clients[k].resolved[p.id] == p
  {
    hide IsRun, Room, ArrivalOrder, Elects;
    var all := Members(cr, cfgs);
    var orders := NobodyElected(all, p.quorum);
    steps, end := OrdersAreRuns(cr, cfgs, w, p, orders, at);
    forall k | k in end.clients
      ensures !Elects(cr.fingerprint(k), orders[cr.fingerprint(k)], p.quorum)
    {
      assert cr.fingerprint(k) in all;
    }
  }

  ghost predicate Wrote(w: World, k: Bytes, i: nat, p: Proposal) {
    k in w.clients && i < |w.clients[k].writes| && w.clients[k].writes[i].prop == p
  }

  /**
   The promise, exactly. In a fresh room whose members are the ones who approve p, every run has at
   most one entry for p in the whole room if and only if the room has no more members than the
   quorum.
   */
  lemma OneWriterExactly(cr: Suite, cfgs: map<Bytes, Config>, w: World, p: Proposal)
    requires SignsWhatVerifies(cr) && SignsExactly(cr) && FingerprintsDistinct(cr) && Room(cr, cfgs, w, p) && p.quorum >= 1
    ensures (forall steps, end, a, b, i, j ::
               (&& IsRun(cr, cfgs, w, steps, end) && OnlyApprovers(cr, end.log, p, Members(cr, cfgs))
                && Wrote(end, a, i, p) && Wrote(end, b, j, p)) ==>
                 a == b && i == j)
            <==> |Members(cr, cfgs)| <= p.quorum
  {
    hide IsRun, OnlyApprovers;
    var all := Members(cr, cfgs);
    if |all| <= p.quorum {
      forall steps, end, a, b, i, j | IsRun(cr, cfgs, w, steps, end) && OnlyApprovers(cr, end.log, p, all)
                                      && Wrote(end, a, i, p) && Wrote(end, b, j, p)
        ensures a == b && i == j
      {
        OneWriter(cr, cfgs, w, steps, end, a, i, b, j, all);
      }
    } else {
      var steps, end, a, b := TwoMembersWrite(cr, cfgs, w, p, []);
      assert Wrote(end, a, 0, p) && Wrote(end, b, 0, p);
    }
  }
}
