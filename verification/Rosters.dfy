/**
 The signed roster: the membership-set hash and its canonical form, the attestation a round is
 assembled into, and the offline verifier that reads it.
 */
module Rosters {
  import opened Bytes
  import opened Framing
  import opened Crypto
  import opened Statements
  import opened Cosigning

  // ---- the membership set, sorted and joined ----

  const NEWLINE: Byte := 10

  /** strings.Join(s, "\n"). */
  function Join(s: seq<Str>): Str {
    if s == [] then []
    else if |s| == 1 then s[0]
    else s[0] + [NEWLINE] + Join(s[1..])
  }

  function SetPreimage(fprs: seq<Str>): Str {
    Join(Sort(fprs))
  }

  function SetHash(cr: Suite, fprs: seq<Str>): Digest {
    cr.hash(SetPreimage(fprs))
  }

  /** What a fingerprint looks like, as far as the set hash cares. */
  predicate Clean(s: Str) {
    s != [] && NEWLINE !in s
  }

  predicate AllClean(s: seq<Str>) {
    forall i :: 0 <= i < |s| ==> Clean(s[i])
  }

  /** The position of the first newline, or the length. */
  function FirstBreak(s: Str): (n: nat) {
    if s == [] || s[0] == NEWLINE then 0 else 1 + FirstBreak(s[1..])
  }

  lemma {:induction false} BreakAt(x: Str, u: Str)
    requires NEWLINE !in x
    ensures FirstBreak(x + [NEWLINE] + u) == |x|
  {
    var s := x + [NEWLINE] + u;
    if x != [] {
      assert s[0] == x[0] && s[1..] == x[1..] + [NEWLINE] + u;
      BreakAt(x[1..], u);
    }
  }

  lemma CutAtNewline(x: Str, u: Str, y: Str, v: Str)
    requires NEWLINE !in x && NEWLINE !in y && x + [NEWLINE] + u == y + [NEWLINE] + v
    ensures x == y && u == v
  {
    BreakAt(x, u);
    BreakAt(y, v);
    var a, b := x + [NEWLINE] + u, y + [NEWLINE] + v;
    assert x == a[..|x|] && y == b[..|y|];
    assert u == a[|x| + 1..] && v == b[|y| + 1..];
  }

  lemma JoinShape(s: seq<Str>)
    requires AllClean(s)
    ensures Join(s) == [] <==> s == []
    ensures NEWLINE in Join(s) <==> |s| > 1
  {
  }

  /** Joining clean strings loses nothing. */
  lemma {:induction false} JoinInjective(a: seq<Str>, b: seq<Str>)
    requires AllClean(a) && AllClean(b) && Join(a) == Join(b)
    ensures a == b
  {
    JoinShape(a);
    JoinShape(b);
    if |a| > 1 {
      assert Clean(a[0]) && Clean(b[0]);
      CutAtNewline(a[0], Join(a[1..]), b[0], Join(b[1..]));
      assert forall i :: 0 <= i < |a[1..]| ==> a[1..][i] == a[i + 1];
      assert forall i :: 0 <= i < |b[1..]| ==> b[1..][i] == b[i + 1];
      JoinInjective(a[1..], b[1..]);
      assert a == [a[0]] + a[1..] == [b[0]] + b[1..] == b;
    }
  }

  lemma SortClean(s: seq<Str>)
    requires AllClean(s)
    ensures AllClean(Sort(s))
  {
    forall i | 0 <= i < |Sort(s)|
      ensures Clean(Sort(s)[i])
    {
      assert Sort(s)[i] in multiset(Sort(s));
      assert Sort(s)[i] in multiset(s);
      var j :| 0 <= j < |s| && s[j] == Sort(s)[i];
    }
  }

  /** The set preimage is a canonical form: of clean fingerprints, equal exactly when the multisets are. */
  lemma SetPreimageCanonical(a: seq<Str>, b: seq<Str>)
    ensures multiset(a) == multiset(b) ==> SetPreimage(a) == SetPreimage(b)
    ensures AllClean(a) && AllClean(b) ==> (SetPreimage(a) == SetPreimage(b) <==> multiset(a) == multiset(b))
  {
    SortCanonical(a, b);
    if AllClean(a) && AllClean(b) && SetPreimage(a) == SetPreimage(b) {
      SortClean(a);
      SortClean(b);
      JoinInjective(Sort(a), Sort(b));
    }
  }

  /** Without that, different sets share a preimage: an empty member beside no member, or a newline inside a name. */
  lemma UncleanConflated()
    ensures SetPreimage([]) == SetPreimage([[]])
    ensures SetPreimage([[NEWLINE]]) == SetPreimage([[], []])
  {
  }

  lemma SetHashOrderFree(cr: Suite, a: seq<Str>, b: seq<Str>)
    requires multiset(a) == multiset(b)
    ensures SetHash(cr, a) == SetHash(cr, b)
  {
    SetPreimageCanonical(a, b);
  }

  /** Equal set hashes of clean sets: the same multiset, or a SHA-256 collision in hand. */
  lemma SetHashDetermines(cr: Suite, a: seq<Str>, b: seq<Str>)
    requires AllClean(a) && AllClean(b) && SetHash(cr, a) == SetHash(cr, b)
    ensures multiset(a) == multiset(b) || Collide(cr, SetPreimage(a), SetPreimage(b))
  {
    SetPreimageCanonical(a, b);
  }

  // ---- the attestation ----

  datatype Member = Member(name: Str, fpr: Str, verified: bool)

  datatype Attestation = Attestation(version: Str, room: Wire, epoch: U64, attestedBy: Str, members: seq<Member>, setHash: Str,
                           signatures: map<Str, Str>, signerKeys: map<Str, Str>)

  function RosterVersion(): Str { Ascii("v1") }

  /** fprsOfMembers. */
  function Fprs(ms: seq<Member>): (r: seq<Str>)
    ensures |r| == |ms|
  {
    seq(|ms|, i requires 0 <= i < |ms| => ms[i].fpr)
  }

  function RosterBytes(room: Str, epoch: U64, setHash: Bytes): Bytes {
    Encode(Statement.Roster(room, epoch, setHash))
  }

  /** An ascending rearrangement: sort.Slice leaves the order of equal fingerprints open. */
  ghost predicate Rearranged(ms: seq<Member>, members: seq<Member>) {
    multiset(ms) == multiset(members) && Sorted(Fprs(ms))
  }

  lemma TakeOut(ms: seq<Member>, k: nat) returns (rest: seq<Member>)
    requires k < |ms|
    ensures |rest| == |ms| - 1 && multiset(ms) == multiset(rest) + multiset{ms[k]}
    ensures multiset(Fprs(ms)) == multiset(Fprs(rest)) + multiset{ms[k].fpr}
  {
    rest := ms[..k] + ms[k + 1..];
    RemoveOne(ms, k);
    RemoveOne(Fprs(ms), k);
    assert Fprs(rest) == Fprs(ms)[..k] + Fprs(ms)[k + 1..];
  }

  lemma {:induction false} RearrangedFprs(ms: seq<Member>, members: seq<Member>)
    requires multiset(ms) == multiset(members)
    ensures multiset(Fprs(ms)) == multiset(Fprs(members))
    decreases |ms|
  {
    hide Fprs;
    assert |multiset(ms)| == |multiset(members)|;
    if ms != [] {
      assert ms[0] in multiset(ms);
      var k :| 0 <= k < |members| && members[k] == ms[0];
      var a := TakeOut(ms, 0);
      var b := TakeOut(members, k);
      CancelOne(multiset(a), multiset(b), ms[0]);
      RearrangedFprs(a, b);
    }
  }

  /** NewRoster: members in ascending order of fingerprint, the hash recomputed from them. */
  ghost predicate Assembled(cr: Suite, room: Wire, epoch: U64, attester: Str, members: seq<Member>, round: Round, r: Attestation) {
    && Rearranged(r.members, members)
    && r == Attestation(RosterVersion(), room, epoch, attester, r.members, cr.hex(SetHash(cr, Fprs(r.members))),
                   Base64Map(cr, round.sigs), Base64Map(cr, round.keys))
  }

  // ---- the offline verifier ----

  datatype Verdict =
    | Malformed                        // set_hash is not hex
    | BadVersion
    | HashMismatch
    | NoSignatures
    | BadSignature(fault: Fault)
    | Valid(signers: seq<Str>)

  /** What VerifyRoster demands. */
  predicate Attests(cr: Suite, r: Attestation) {
    && r.version == RosterVersion()
    && r.setHash == cr.hex(SetHash(cr, Fprs(r.members)))
    && cr.unhex(r.setHash).Some?
    && r.signatures != map[]
    && AllSound(cr, RosterBytes(r.room, r.epoch, cr.unhex(r.setHash).value), r.signatures, r.signerKeys)
  }

  /** What an accepted roster shows: everybody listed filed a signature, under its own key, over this room, epoch and set of members. */
  ghost predicate Shows(cr: Suite, r: Attestation) {
    && r.version == Ascii("v1") && r.signatures.Keys != {}
    && r.setHash == cr.hex(SetHash(cr, Fprs(r.members))) && cr.unhex(r.setHash).Some?
    && forall f :: f in r.signatures ==>
         f in r.signerKeys
         && FiledBy(cr, f, r.signerKeys[f], r.signatures[f], Encode(Statement.Roster(r.room, r.epoch, cr.unhex(r.setHash).value)))
  }

  lemma AttestsExactly(cr: Suite, r: Attestation)
    ensures Attests(cr, r) <==> Shows(cr, r)
  {
    hide AllSound, FiledBy, SetHash, Encode;
    assert r.signatures == map[] <==> r.signatures.Keys == {};
    if cr.unhex(r.setHash).Some? {
      SoundExactly(cr, RosterBytes(r.room, r.epoch, cr.unhex(r.setHash).value), r.signatures, r.signerKeys);
    }
  }

  /** Without forgery, every signer of an accepted roster signed this room, this epoch and the hash of exactly this member set. */
  lemma AttestedWasSigned(cr: Suite, log: SignedLog, r: Attestation)
    requires TextCodecs(cr) && Attests(cr, r)
    requires forall f :: f in r.signatures && f in r.signerKeys ==> GenuineText(cr, log, r.signerKeys[f], r.signatures[f])
    ensures forall f :: f in r.signatures ==>
      DidSign(cr, log, f, Encode(Statement.Roster(r.room, r.epoch, SetHash(cr, Fprs(r.members)))))
  {
    hide AllSound, GenuineText, DidSign, SetHash, Encode;
    assert cr.unhex(cr.hex(SetHash(cr, Fprs(r.members)))) == Some(SetHash(cr, Fprs(r.members)));
    SoundWasSigned(cr, log, RosterBytes(r.room, r.epoch, SetHash(cr, Fprs(r.members))), r.signatures, r.signerKeys);
  }

  method VerifyRoster(cr: Suite, r: Attestation) returns (v: Verdict)
    ensures v.Valid? <==> Shows(cr, r)
    ensures v.Valid? <==> Attests(cr, r)
    ensures v.Valid? ==> Lists(r.signatures.Keys, v.signers)
    ensures v.BadVersion? <==> r.version != RosterVersion()
    ensures v.HashMismatch? <==> r.version == RosterVersion() && r.setHash != cr.hex(SetHash(cr, Fprs(r.members)))
    ensures v.BadSignature? ==>
      cr.unhex(r.setHash).Some?
      && FirstFault(cr, RosterBytes(r.room, r.epoch, cr.unhex(r.setHash).value), r.signatures, r.signerKeys, v.fault.fpr)
    ensures TextCodecs(cr) ==> !v.Malformed?
  {
    hide RosterBytes, SetHash, AllSound, FirstFault, Shows;
    AttestsExactly(cr, r);
    if r.version != RosterVersion() {
      return BadVersion;
    }
    var fprs: seq<Str> := [];
    for i := 0 to |r.members|
      invariant fprs == Fprs(r.members)[..i]
    {
      fprs := fprs + [r.members[i].fpr];
    }
    assert fprs == Fprs(r.members);
    var want := cr.hex(SetHash(cr, fprs));
    if want != r.setHash {
      return HashMismatch;
    }
    var setHash := cr.unhex(r.setHash);
    if setHash.None? {
      return Malformed;
    }
    if |r.signatures| == 0 {
      return NoSignatures;
    }
    var fault, signers := CheckSignatures(cr, RosterBytes(r.room, r.epoch, setHash.value), r.signatures, r.signerKeys);
    if fault.Some? {
      return BadSignature(fault.value);
    }
    return Valid(signers);
  }

  /**
   Producer and verifier agree: the roster assembled from a round over its members' set hash is
   accepted, and its signers are exactly the collected ones.
   */
  lemma AssembledAttests(cr: Suite, room: Wire, epoch: U64, attester: Str, members: seq<Member>, round: Round, r: Attestation)
    requires TextCodecs(cr) && Collected(cr, round)
    requires round.preimage == RosterBytes(room, epoch, SetHash(cr, Fprs(members)))
    requires Assembled(cr, room, epoch, attester, members, round, r)
    ensures Attests(cr, r) && r.signatures.Keys == round.sigs.Keys
  {
    hide RosterBytes, AllSound, SetHash, Collected;
    RearrangedFprs(r.members, members);
    SetHashOrderFree(cr, Fprs(r.members), Fprs(members));
    assert cr.unhex(cr.hex(SetHash(cr, Fprs(members)))) == Some(SetHash(cr, Fprs(members)));
    CollectedSound(cr, round);
  }
}
