/** roster.go in its own form: each handler is proved to make exactly the transition the runs are made of. */
module RosterClient {
  import opened Bytes
  import opened Framing
  import opened Crypto
  import opened Cosigning
  import opened Rosters
  import opened RosterRuns

  /** sort.Slice by fingerprint. */
  function InsertMember(m: Member, s: seq<Member>): (r: seq<Member>)
    requires Sorted(Fprs(s))
    ensures Sorted(Fprs(r)) && multiset(r) == multiset(s) + multiset{m}
  {
    if s == [] then [m]
    else if AtMost(m.fpr, s[0].fpr) then
      InsertedFront(m, s);
      [m] + s
    else
      TailSorted(s);
      var t := InsertMember(m, s[1..]);
      InsertedLater(m, s, t);
      [s[0]] + t
  }

  lemma InsertedFront(m: Member, s: seq<Member>)
    requires Sorted(Fprs(s)) && s != [] && AtMost(m.fpr, s[0].fpr)
    ensures Sorted(Fprs([m] + s)) && multiset([m] + s) == multiset(s) + multiset{m}
  {
    hide Sorted;
    assert Fprs([m] + s) == [m.fpr] + Fprs(s);
    InsertFront(m.fpr, Fprs(s));
  }

  lemma TailSorted(s: seq<Member>)
    requires Sorted(Fprs(s)) && s != []
    ensures Sorted(Fprs(s[1..]))
  {
    assert Fprs(s[1..]) == Fprs(s)[1..];
  }

  lemma InsertedLater(m: Member, s: seq<Member>, t: seq<Member>)
    requires Sorted(Fprs(s)) && s != [] && !AtMost(m.fpr, s[0].fpr)
    requires Sorted(Fprs(t)) && multiset(t) == multiset(s[1..]) + multiset{m}
    ensures Sorted(Fprs([s[0]] + t)) && multiset([s[0]] + t) == multiset(s) + multiset{m}
  {
    hide Sorted, AtMost;
    InsertedFprs(m, s[1..], t);
    assert Fprs(s[1..]) == Fprs(s)[1..];
    InsertLater(m.fpr, Fprs(s), Fprs(t));
    assert Fprs([s[0]] + t) == [s[0].fpr] + Fprs(t);
    assert s == [s[0]] + s[1..];
  }

  lemma InsertedFprs(m: Member, s: seq<Member>, t: seq<Member>)
    requires multiset(t) == multiset(s) + multiset{m}
    ensures multiset(Fprs(t)) == multiset(Fprs(s)) + multiset{m.fpr}
  {
    assert multiset(t) == multiset([m] + s);
    RearrangedFprs(t, [m] + s);
    assert Fprs([m] + s) == [m.fpr] + Fprs(s);
  }

  function SortMembers(s: seq<Member>): (r: seq<Member>)
    ensures Rearranged(r, s)
  {
    if s == [] then [] else
      assert s == [s[0]] + s[1..];
      InsertMember(s[0], SortMembers(s[1..]))
  }

  class Attester {
    const cr: Suite
    const cfg: Config

    var ready: bool
    var epoch: U64
    var peers: seq<Bytes>
    var roster: Option<Collection>
    ghost var finished: seq<Collection>
    ghost var signedOn: set<Sight>

    ghost function View(): Client
      reads this
    {
      Client(ready, epoch, peers, roster, finished, signedOn)
    }

    /** memberFprsLocked: self, then every peer, sorted. */
    method MemberList() returns (fprs: seq<Str>)
      ensures Sorted(fprs) && multiset(fprs) == multiset(MemberFprs(cr, cfg, peers))
      ensures |fprs| == |peers| + 1 && cr.fingerprint(cfg.key) in fprs && forall k :: k in peers ==> cr.fingerprint(k) in fprs
    {
      fprs := [cr.fingerprint(cfg.key)];
      for i := 0 to |peers|
        invariant fprs == MemberFprs(cr, cfg, peers)[..i + 1]
      {
        fprs := fprs + [cr.fingerprint(peers[i])];
      }
      assert fprs == MemberFprs(cr, cfg, peers);
      ghost var all := fprs;
      fprs := Sort(fprs);
      assert forall x :: x in fprs <==> x in multiset(fprs);
      assert forall x :: x in all <==> x in multiset(all);
      assert all[0] == cr.fingerprint(cfg.key) && forall i :: 0 <= i < |peers| ==> all[i + 1] == cr.fingerprint(peers[i]);
      assert |multiset(fprs)| == |multiset(all)|;
    }

    /** SignRoster up to its broadcast. */
    method SignRoster(members: seq<Member>) returns (ok: bool)
      modifies `roster, `signedOn
      ensures ok == (ready && old(roster).None?)
      ensures ok ==> roster.Some? && roster.value.epoch == epoch && roster.value.members == members
                     && roster.value.setHash == SetHash(cr, Fprs(members)) && roster.value.round.sigs.Keys == {cr.fingerprint(cfg.key)}
      ensures !ok ==> roster == old(roster)
      ensures View() == Apply(cr, cfg, old(View()), Step.SignRoster(members))
    {
      hide SetHash, RosterBytes, MemberFprs;
      if !ready {
        return false;
      }
      if roster.Some? {
        return false;
      }
      var setHash := SetHash(cr, Fprs(members));
      var preimage := RosterBytes(cfg.room, epoch, setHash);
      var sig := cr.sign(cfg.key, preimage);
      var f := cr.fingerprint(cfg.key);
      roster := Some(Collection(epoch, members, setHash, Round(preimage, map[f := sig], map[f := cfg.key])));
      signedOn := signedOn + {SightOf(cr, cfg, View())};
      return true;
    }

    /** onRosterRequest: signs only what it computes itself. */
    method OnRosterRequest(setHash: Bytes, at: U64) returns (sig: Option<Bytes>)
      modifies `signedOn
      ensures sig.Some? <==> ready && epoch == at && SetHash(cr, MemberFprs(cr, cfg, peers)) == setHash
      ensures sig.Some? ==> sig.value == cr.sign(cfg.key, RosterBytes(cfg.room, at, setHash))
      ensures View() == Apply(cr, cfg, old(View()), Request(setHash, at))
    {
      hide RosterBytes, MemberFprs, SetHash, Sorted;
      if !ready {
        return None;
      }
      var fprs := MemberList();
      SetHashOrderFree(cr, fprs, MemberFprs(cr, cfg, peers));
      var ourHash := SetHash(cr, fprs);
      if epoch != at || ourHash != setHash {
        return None;
      }
      signedOn := signedOn + {SightOf(cr, cfg, View())};
      return Some(cr.sign(cfg.key, RosterBytes(cfg.room, at, setHash)));
    }

    /** onRosterAck. */
    method OnRosterAck(setHash: Bytes, c: Cosig) returns (counted: bool)
      modifies `roster
      ensures counted == (old(roster).Some? && old(roster).value.setHash == setHash && Good(cr, old(roster).value.round.preimage, c))
      ensures View() == Apply(cr, cfg, old(View()), Acknowledge(setHash, c))
    {
      if roster.None? || setHash != roster.value.setHash {
        return false;
      }
      var r := roster.value.round;
      if |c.pub| != KEY_SIZE || !cr.verify(c.pub, r.preimage, c.sig) {
        return false;
      }
      var f := cr.fingerprint(c.pub);
      roster := Some(roster.value.(round := Round(r.preimage, r.sigs[f := c.sig], r.keys[f := c.pub])));
      return true;
    }

    /** finalizeRoster: the first caller assembles the artifact, any other finds no round. */
    method FinalizeRoster() returns (att: Option<Attestation>)
      modifies `roster, `finished
      ensures att.Some? <==> old(roster).Some?
      ensures att.Some? ==> Assembled(cr, cfg.room, old(roster).value.epoch, cr.fingerprint(cfg.key), old(roster).value.members,
                                      old(roster).value.round, att.value)
      ensures View() == Apply(cr, cfg, old(View()), Finalize) && roster.None?
    {
      hide SetHash, Rearranged;
      if roster.None? {
        return None;
      }
      var c := roster.value;
      var ms := SortMembers(c.members);
      att := Some(Attestation(RosterVersion(), cfg.room, c.epoch, cr.fingerprint(cfg.key), ms, cr.hex(SetHash(cr, Fprs(ms))),
                              Base64Map(cr, c.round.sigs), Base64Map(cr, c.round.keys)));
      finished := finished + [c];
      roster := None;
    }

    /** maybeFinalizeRoster. */
    method MaybeFinalizeRoster(total: nat) returns (att: Option<Attestation>)
      modifies `roster, `finished
      ensures View() == if old(roster).Some? && |old(roster).value.round.sigs| >= total
                        then Apply(cr, cfg, old(View()), Finalize) else old(View())
    {
      att := None;
      if roster.Some? && |roster.value.round.sigs| >= total {
        att := FinalizeRoster();
      }
    }
  }
}
