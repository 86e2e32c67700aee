/**
 When the designated-writer rule elects one client, exactly; and what happens to it when a proposal
 is delivered twice or an id is reused.
 */
module ArtifactWriters {
  import opened Bytes
  import opened Crypto
  import opened Statements
  import opened Artifacts
  import opened ArtifactProofs

  /** Count approvals one after another, as a client's read loop and its own approval do. */
  function CountAll(self: Str, s: Client, id: Str, proofs: seq<Proof>, at: Str): (r: Client)
    requires Paired(s)
    ensures Paired(r)
    decreases |proofs|
  {
    if proofs == [] then s
    else
      var rest := CountAll(self, s, id, proofs[..|proofs| - 1], at);
      CountPaired(self, rest, id, proofs[|proofs| - 1], at);
      Count(self, rest, id, proofs[|proofs| - 1], at)
  }

  lemma CountPaired(self: Str, s: Client, id: Str, proof: Proof, at: Str)
    requires Paired(s)
    ensures Paired(Count(self, s, id, proof, at))
  {
  }

  function Signers(proofs: seq<Proof>): (r: seq<Str>)
    ensures |r| == |proofs|
  {
    seq(|proofs|, i requires 0 <= i < |proofs| => proofs[i].fpr)
  }

  /** This client elects itself: it is the least of the first q arrivals. */
  predicate Elects(self: Str, order: seq<Str>, q: nat) {
    q <= |order| && MinFpr(order[..q]) == self
  }

  /** Fewer approvals than the quorum: still waiting on exactly these arrivals. */
  ghost predicate WaitingOn(s: Client, p: Proposal, order: seq<Str>) {
    && s.proposals.Keys == {p.id} && s.proposals[p.id].prop == p && s.writes == []
    && s.proposals[p.id].order == order && s.proposals[p.id].approvers == Elements(order)
    && |s.proposals[p.id].approvers| == |order|
  }

  /** Resolved: an entry was written exactly if the first quorum arrivals elect this client, and over those. */
  ghost predicate ResolvedBy(self: Str, s: Client, p: Proposal, order: seq<Str>, at: Str) {
    && s.proposals.Keys == {} && 1 <= p.quorum <= |order|
    && p.id in s.retained && p.id in s.resolved && s.resolved[p.id] == p
    && s.writes == if Elects(self, order, p.quorum)
                   then [Write(p, Elements(order[..p.quorum]), MetaOf(p, self, at))]
                   else []
  }

  lemma WaitStep(self: Str, s: Client, p: Proposal, order: seq<Str>, proof: Proof, at: Str)
    requires Paired(s) && WaitingOn(s, p, order) && Distinct(order) && |order| < p.quorum
    requires proof.fpr !in Elements(order) && proof.fpr != p.proposer
    ensures var s' := Count(self, s, p.id, proof, at);
            var order' := order + [proof.fpr];
            if |order'| < p.quorum then WaitingOn(s', p, order') else ResolvedBy(self, s', p, order', at)
  {
    var order' := order + [proof.fpr];
    OrderExtends(order, proof.fpr);
    var t := Counted(s.proposals[p.id], proof);
    assert t.order == order' && t.approvers == Elements(order') && |t.approvers| == |order'|;
    if |order'| == p.quorum {
      assert order'[..p.quorum] == order';
    }
  }

  lemma ResolvedStep(self: Str, s: Client, p: Proposal, order: seq<Str>, proof: Proof, at: Str)
    requires Paired(s) && ResolvedBy(self, s, p, order, at)
    ensures Count(self, s, p.id, proof, at) == s && ResolvedBy(self, s, p, order + [proof.fpr], at)
  {
    assert (order + [proof.fpr])[..p.quorum] == order[..p.quorum];
  }

  /** A client that has just tracked p, and nothing else, and has written nothing. */
  predicate JustTracks(s: Client, p: Proposal) {
    s.proposals == map[p.id := Tracked(p, {}, [], map[], false, false)] && s.writes == []
  }

  /**
   The counting loop computes the election: after any distinct non-proposer approvals, the client
   waits while they are fewer than the quorum, and otherwise has written exactly when the first
   quorum arrivals elect it, with those arrivals as the completing set.
   */
  lemma {:induction false} CountingElects(self: Str, s0: Client, p: Proposal, proofs: seq<Proof>, at: Str)
    requires JustTracks(s0, p) && Paired(s0) && p.quorum >= 1
    requires Distinct(Signers(proofs)) && p.proposer !in Signers(proofs)
    ensures var s := CountAll(self, s0, p.id, proofs, at);
            if |proofs| < p.quorum then WaitingOn(s, p, Signers(proofs)) else ResolvedBy(self, s, p, Signers(proofs), at)
    decreases |proofs|
  {
    var order := Signers(proofs);
    if proofs == [] {
      assert Elements(order) == {};
    } else {
      var n := |proofs| - 1;
      var before := proofs[..n];
      assert Signers(before) == order[..n];
      assert order == order[..n] + [order[n]];
      assert p.proposer !in Signers(before);
      CountingElects(self, s0, p, before, at);
      var s := CountAll(self, s0, p.id, before, at);
      if n < p.quorum {
        assert order[n] !in Elements(order[..n]);
        WaitStep(self, s, p, order[..n], proofs[n], at);
      } else {
        ResolvedStep(self, s, p, order[..n], proofs[n], at);
      }
    }
  }

  // ---- exactly when one client is elected ----

  /** An order in which all of the approvals may arrive at one client. */
  ghost predicate ArrivalOrder(approvers: set<Str>, order: seq<Str>) {
    Distinct(order) && Elements(order) == approvers
  }

  lemma OrderLength(order: seq<Str>)
    requires Distinct(order)
    ensures |Elements(order)| == |order|
  {
    if order != [] {
      var n := |order| - 1;
      OrderLength(order[..n]);
      assert order == order[..n] + [order[n]];
      assert order[n] !in Elements(order[..n]);
      OrderExtends(order[..n], order[n]);
    } else {
      assert Elements(order) == {};
    }
  }

  lemma LeastExists(s: set<Str>) returns (m: Str)
    requires s != {}
    ensures IsLeast(m, s)
  {
    var x :| x in s;
    if s == {x} {
      m := x;
    } else {
      var m' := LeastExists(s - {x});
      LessTotal(x, m');
      m := if Less(x, m') then x else m';
      forall y | y in s
        ensures AtMost(m, y)
      {
        if y != x && m == x {
          AtMostTransitive(x, m', y);
        }
      }
    }
  }

  lemma Enumerate(s: set<Str>) returns (order: seq<Str>)
    ensures ArrivalOrder(s, order)
  {
    if s == {} {
      order := [];
    } else {
      var x :| x in s;
      var rest := Enumerate(s - {x});
      order := rest + [x];
      OrderExtends(rest, x);
    }
  }

  lemma PrefixElects(order: seq<Str>, self: Str, q: nat, within: set<Str>)
    requires 1 <= q <= |order| && order[0] == self && IsLeast(self, within)
    requires Elements(order[..q]) <= within
    ensures Elects(self, order, q)
  {
    assert order[..q][0] == self && self in Elements(order[..q]);
    LeastUnique(Elements(order[..q]), self, MinFpr(order[..q]));
  }

  /** An arrival order over pool that starts with its least element elects it at any quorum. */
  lemma LeadingOrder(self: Str, pool: set<Str>, q: nat) returns (order: seq<Str>)
    requires IsLeast(self, pool) && 1 <= q <= |pool|
    ensures ArrivalOrder(pool, order) && |order| == |pool| && order[0] == self && Elects(self, order, q)
  {
    var rest := Enumerate(pool - {self});
    order := [self] + rest;
    OrderPrepends(self, rest);
    assert Elements(order) == pool;
    OrderLength(order);
    forall x | x in Elements(order[..q])
      ensures x in pool
    {
      assert x in order && x in Elements(order);
    }
    PrefixElects(order, self, q, pool);
  }

  /** More approvers than the quorum: two members can each complete a set in which they are least. */
  lemma TwoElected(approvers: set<Str>, q: nat)
    returns (a: Str, b: Str, oa: seq<Str>, ob: seq<Str>)
    requires 1 <= q < |approvers|
    ensures a != b && a in approvers && b in approvers
    ensures ArrivalOrder(approvers, oa) && ArrivalOrder(approvers, ob) && oa[0] == a && ob[0] == b
    ensures Elects(a, oa, q) && Elects(b, ob, q)
  {
    a := LeastExists(approvers);
    var others := approvers - {a};
    assert |others| == |approvers| - 1;
    b := LeastExists(others);
    oa := LeadingOrder(a, approvers, q);
    var head := LeadingOrder(b, others, q);
    OrderExtends(head, a);
    OrderLength(head);
    ob := head + [a];
    assert Elements(ob) == approvers;
    assert ob[..q] == head[..q];
  }

  lemma OrderPrepends(f: Str, order: seq<Str>)
    requires Distinct(order) && f !in Elements(order)
    ensures Distinct([f] + order) && Elements([f] + order) == {f} + Elements(order)
  {
  }

  /**
   The designated writer is unique in every pair of arrival orders if and only if no more members
   approve than the quorum asks for.
   */
  lemma WriterUniqueExactly(approvers: set<Str>, q: nat)
    requires q >= 1
    ensures (forall a, b, oa, ob ::
               ArrivalOrder(approvers, oa) && ArrivalOrder(approvers, ob) && Elects(a, oa, q) && Elects(b, ob, q) ==> a == b)
            <==> |approvers| <= q
  {
    if |approvers| <= q {
      forall a, b, oa, ob |
        ArrivalOrder(approvers, oa) && ArrivalOrder(approvers, ob) && Elects(a, oa, q) && Elects(b, ob, q)
        ensures a == b
      {
        OrderLength(oa);
        OrderLength(ob);
        assert oa[..q] == oa && ob[..q] == ob;
        LeastUnique(approvers, a, b);
      }
    } else {
      var a, b, oa, ob := TwoElected(approvers, q);
    }
  }

  // ---- exactly when somebody is elected ----

  /** Every approver receives all of the approvals, each in an order of its own. */
  ghost predicate Assigns(approvers: set<Str>, orders: map<Str, seq<Str>>) {
    orders.Keys == approvers && forall f :: f in approvers ==> ArrivalOrder(approvers, orders[f])
  }

  ghost predicate SomeoneElected(approvers: set<Str>, orders: map<Str, seq<Str>>, q: nat) {
    exists f :: f in approvers && f in orders && Elects(f, orders[f], q)
  }

  /** Exactly quorum approvers: the least of them elects itself, whatever its order. */
  lemma LeastElected(approvers: set<Str>, self: Str, order: seq<Str>)
    requires IsLeast(self, approvers) && ArrivalOrder(approvers, order)
    ensures Elects(self, order, |approvers|)
  {
    OrderLength(order);
    assert order[..|approvers|] == order;
    LeastUnique(approvers, self, MinFpr(order));
  }

  /** More approvers than the quorum: orders under which everybody completes and nobody is elected. */
  lemma NobodyElected(approvers: set<Str>, q: nat) returns (orders: map<Str, seq<Str>>)
    requires 1 <= q < |approvers|
    ensures Assigns(approvers, orders) && !SomeoneElected(approvers, orders, q)
  {
    hide Distinct, Elements;
    var a := LeastExists(approvers);
    var early := LeadingOrder(a, approvers, q);
    var late := TrailingOrder(a, approvers, q);
    orders := map f | f in approvers :: if f == a then late else early;
  }

  /** An arrival order in which this approver comes last does not elect it short of all approvals. */
  lemma TrailingOrder(self: Str, pool: set<Str>, q: nat) returns (order: seq<Str>)
    requires self in pool && 1 <= q < |pool|
    ensures ArrivalOrder(pool, order) && !Elects(self, order, q)
  {
    var rest := Enumerate(pool - {self});
    OrderLength(rest);
    OrderExtends(rest, self);
    order := rest + [self];
    assert Elements(order) == pool;
    assert order[..q] == rest[..q];
    var m := MinFpr(rest[..q]);
    assert m in Elements(rest[..q]);
    assert m in Elements(rest);
  }

  /**
   When every approver counts every approval: somebody is elected under every assignment of arrival
   orders if and only if the approvers are exactly quorum many. What happens when somebody does not
   get to count is ArtifactOutcomes.SomeoneWritesExactly.
   */
  lemma SomeoneElectedExactly(approvers: set<Str>, q: nat)
    requires 1 <= q <= |approvers|
    ensures (forall orders :: Assigns(approvers, orders) ==> SomeoneElected(approvers, orders, q)) <==> |approvers| == q
  {
    if |approvers| == q {
      var a := LeastExists(approvers);
      forall orders | Assigns(approvers, orders)
        ensures SomeoneElected(approvers, orders, q)
      {
        LeastElected(approvers, a, orders[a]);
      }
    } else {
      var orders := NobodyElected(approvers, q);
    }
  }

  /** With exactly quorum approvers, the least of them has written once it has counted them all. */
  lemma LeastWrites(self: Str, s0: Client, p: Proposal, proofs: seq<Proof>, at: Str)
    requires JustTracks(s0, p) && Paired(s0) && p.quorum >= 1 && |proofs| == p.quorum
    requires Distinct(Signers(proofs)) && p.proposer !in Signers(proofs)
    requires IsLeast(self, Elements(Signers(proofs)))
    ensures var s := CountAll(self, s0, p.id, proofs, at);
            s.writes == [Write(p, Elements(Signers(proofs)), MetaOf(p, self, at))]
  {
    CountingElects(self, s0, p, proofs, at);
    OrderLength(Signers(proofs));
    LeastElected(Elements(Signers(proofs)), self, Signers(proofs));
    assert Signers(proofs)[..p.quorum] == Signers(proofs);
  }

  // ---- what once-only delivery and fresh ids are for ----

  /** The approval of p a client without a credential signs. */
  function OwnApproval(cr: Suite, cfg: Config, p: Proposal): Checked {
    var self := SelfFpr(cr, cfg);
    Checked(p, Proof(self, cfg.key, cr.sign(cfg.key, Preimage(p.id, p.hash, self, p.nonce, [])), [], []))
  }

  /** p delivered to a client that does not track it, and signed there. */
  function ReceiveAndSign(cr: Suite, cfg: Config, s: Client, p: Proposal): Client {
    Sign(cr, cfg, Receive(s, p.proposer, p, false), p.id, [], [])
  }

  predicate Approvable(cr: Suite, cfg: Config, p: Proposal) {
    p.id != [] && p.hash != [] && p.quorum >= 1 && p.proposer != SelfFpr(cr, cfg) && cfg.credential.None?
  }

  lemma SignsOwn(cr: Suite, cfg: Config, s: Client, p: Proposal)
    requires Approvable(cr, cfg, p) && s.ready && s.proposals == map[]
    ensures var s' := ReceiveAndSign(cr, cfg, s, p);
            && s' == Track(s, p, false).(signed := s.signed + {OwnApproval(cr, cfg, p)})
            && s'.proposals == map[p.id := Tracked(p, {}, [], map[], false, false)] && Paired(s')
    ensures MaySign(cr, cfg, Receive(s, p.proposer, p, false), p.id, [])
    ensures OwnPreimage(cr, cfg, Receive(s, p.proposer, p, false), p.id, []) == Preimage(p.id, p.hash, SelfFpr(cr, cfg), p.nonce, [])
  {
    hide Preimage;
  }

  /**
   The same proposal frame delivered again after it resolved: signed and counted both times, the
   same client writes it again.
   */
  lemma RedeliveryWritesTwice(cr: Suite, cfg: Config, p: Proposal, at: Str)
    requires Approvable(cr, cfg, p) && p.quorum == 1
    ensures var own := CountOwn(OwnApproval(cr, cfg, p), at);
            var s1 := ReceiveAndSign(cr, cfg, FRESH_CLIENT.(ready := true), p);
            Paired(s1)
            && var s2 := ReceiveAndSign(cr, cfg, Apply(cr, cfg, s1, own), p);
               Paired(s2)
               && var end := Apply(cr, cfg, s2, own);
                  |end.writes| == 2 && end.writes[0].prop == end.writes[1].prop == p
  {
    hide Preimage;
    var self, c := SelfFpr(cr, cfg), OwnApproval(cr, cfg, p);
    SignsOwn(cr, cfg, FRESH_CLIENT.(ready := true), p);
    var s1 := ReceiveAndSign(cr, cfg, FRESH_CLIENT.(ready := true), p);
    SoloCount(self, s1, p, c.proof, at);
    var t := Apply(cr, cfg, s1, CountOwn(c, at));
    SignsOwn(cr, cfg, t, p);
    SoloCount(self, ReceiveAndSign(cr, cfg, t, p), p, c.proof, at);
  }

  lemma SoloCount(self: Str, s: Client, p: Proposal, proof: Proof, at: Str)
    requires s.proposals == map[p.id := Tracked(p, {}, [], map[], false, false)]
    requires p.quorum == 1 && p.proposer != self && proof.fpr == self
    ensures Paired(s)
    ensures var s' := Count(self, s, p.id, proof, at);
            && s' == s.(proposals := map[], retained := s'.retained, resolved := s'.resolved, writes := s'.writes) && s'.retained == s.retained[p.id := [proof]] && s'.resolved == s.resolved[p.id := p]
            && s'.writes == s.writes + [Write(p, {self}, MetaOf(p, self, at))]
  {
    var t := Counted(s.proposals[p.id], proof);
    assert t.order == [self] && t.approvers == {self} && MinFpr([self]) == self;
    assert Captured(t) == [proof];
    assert s.proposals - {p.id} == map[];
  }

  /** Counting c resolves p, and the proof retained for p does not verify for p. */
  ghost predicate CompletesWrongly(cr: Suite, self: Str, s: Client, p: Proposal, c: Checked, at: Str)
    requires Paired(s)
  {
    var end := Count(self, s, c.prop.id, c.proof, at);
    p.id in end.retained && end.retained[p.id] == [c.proof]
    && p.id in end.resolved && end.resolved[p.id] == p && !ProofValid(cr, p, c.proof)
  }

  /**
   An id reused while our own approval is between signing and counting: the approval of the first
   proposal completes the second, and the proof retained for it does not verify. Only a fresh id
   rules this out, because the second critical section looks the proposal up again by id alone.
   */
  lemma ReusedIdCountsStaleApproval(cfg: Config, first: Proposal, second: Proposal, at: Str)
    requires |cfg.key| == KEY_SIZE && cfg.credential.None?
    requires first.id == second.id && first.id != [] && first.hash != [] && second.hash != []
    requires first.hash != second.hash && first.quorum == second.quorum == 1
    requires first.proposer != SelfFpr(Symbolic(), cfg) && second.proposer != SelfFpr(Symbolic(), cfg)
    ensures var cr := Symbolic();
            var self := SelfFpr(cr, cfg);
            var signed := Sign(cr, cfg, Receive(FRESH_CLIENT.(ready := true), first.proposer, first, false), first.id, [], []);
            var swapped := Receive(Drop(signed, first.id), second.proposer, second, false);
            Paired(swapped)
            && exists c :: c in swapped.signed && CompletesWrongly(cr, self, swapped, second, c, at)
  {
    var cr := Symbolic();
    var self := SelfFpr(cr, cfg);
    var s0 := Receive(FRESH_CLIENT.(ready := true), first.proposer, first, false);
    assert MaySign(cr, cfg, s0, first.id, []);
    var msg := OwnPreimage(cr, cfg, s0, first.id, []);
    var c := Checked(first, Proof(self, cfg.key, cr.sign(cfg.key, msg), [], []));
    var signed := Sign(cr, cfg, s0, first.id, [], []);
    assert c in signed.signed;
    var swapped := Receive(Drop(signed, first.id), second.proposer, second, false);
    SoloCount(self, swapped, second, c.proof, at);
    StaleProofInvalid(cfg, first, second, c.proof);
  }

  lemma StaleProofInvalid(cfg: Config, first: Proposal, second: Proposal, proof: Proof)
    requires first.hash != second.hash && first.id == second.id
    requires proof.role == [] && proof.fpr == SelfFpr(Symbolic(), cfg) && proof.key == cfg.key
    requires proof.sig == cfg.key + Preimage(first.id, first.hash, proof.fpr, first.nonce, [])
    ensures !ProofValid(Symbolic(), second, proof)
  {
    var f: Wire := SelfFpr(Symbolic(), cfg);
    var a := ArtifactApproval(first.id, first.hash, f, first.nonce);
    var b := ArtifactApproval(second.id, second.hash, f, second.nonce);
    assert Encodable(a) && Encodable(b);
    PreimagesDisjoint(a, b);
    assert (cfg.key + Encode(a))[|cfg.key|..] == Encode(a);
    assert (cfg.key + Encode(b))[|cfg.key|..] == Encode(b);
  }
}
