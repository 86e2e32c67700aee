/**
 The co-signature round that rosters and scuttle receipts share, and the signature check their two
 offline verifiers share.
 */
module Cosigning {
  import opened Bytes
  import opened Crypto

  /** cosignRound without its timer. */
  datatype Round = Round(preimage: Bytes, sigs: map<Str, Bytes>, keys: map<Str, Bytes>)

  /** A co-signature as it arrives: the sender's key and the signature. */
  datatype Cosig = Cosig(pub: Bytes, sig: Bytes)

  predicate Good(cr: Suite, preimage: Bytes, c: Cosig) {
    Verifies(cr, c.pub, preimage, c.sig)
  }

  /** newCosignRound over the initiator's own signature. */
  function NewRound(cr: Suite, key: Bytes, preimage: Bytes): Round {
    Round(preimage, map[cr.fingerprint(key) := cr.sign(key, preimage)], map[cr.fingerprint(key) := key])
  }

  /** One acknowledgement, valid or not. A repeated signer's later signature replaces the earlier one. */
  function Absorb(cr: Suite, r: Round, c: Cosig): Round {
    if Good(cr, r.preimage, c)
    then r.(sigs := r.sigs[cr.fingerprint(c.pub) := c.sig], keys := r.keys[cr.fingerprint(c.pub) := c.pub])
    else r
  }

  function AbsorbAll(cr: Suite, r: Round, cs: seq<Cosig>): Round
    decreases |cs|
  {
    if cs == [] then r else AbsorbAll(cr, Absorb(cr, r, cs[0]), cs[1..])
  }

  /** Everything collected verifies, and is filed under the fingerprint of its own key. */
  ghost predicate Collected(cr: Suite, r: Round) {
    && r.sigs != map[]
    && r.keys.Keys == r.sigs.Keys
    && forall f :: f in r.sigs ==> cr.fingerprint(r.keys[f]) == f && Verifies(cr, r.keys[f], r.preimage, r.sigs[f])
  }

  /** The fingerprints of the valid co-signatures in a sequence of acknowledgements. */
  function SignersIn(cr: Suite, preimage: Bytes, cs: seq<Cosig>): set<Str> {
    set i | 0 <= i < |cs| && Good(cr, preimage, cs[i]) :: cr.fingerprint(cs[i].pub)
  }

  lemma NewRoundCollected(cr: Suite, key: Bytes, preimage: Bytes)
    requires SignsWhatVerifies(cr) && |key| == KEY_SIZE
    ensures Collected(cr, NewRound(cr, key, preimage))
  {
    var r := NewRound(cr, key, preimage);
    assert cr.fingerprint(key) in r.sigs;
  }

  lemma AbsorbCollected(cr: Suite, r: Round, c: Cosig)
    requires Collected(cr, r)
    ensures Collected(cr, Absorb(cr, r, c))
  {
  }

  /** Over any sequence of valid and invalid acknowledgements: exactly the valid signers are added, and all verify. */
  lemma {:induction false} AbsorbAllCollects(cr: Suite, r: Round, cs: seq<Cosig>)
    requires Collected(cr, r)
    ensures Collected(cr, AbsorbAll(cr, r, cs))
    ensures AbsorbAll(cr, r, cs).preimage == r.preimage
    ensures AbsorbAll(cr, r, cs).sigs.Keys == r.sigs.Keys + SignersIn(cr, r.preimage, cs)
    decreases |cs|
  {
    if cs != [] {
      AbsorbCollected(cr, r, cs[0]);
      AbsorbAllCollects(cr, Absorb(cr, r, cs[0]), cs[1..]);
      SignersInHead(cr, r.preimage, cs);
    }
  }

  lemma {:induction false} AbsorbAllConcat(cr: Suite, r: Round, a: seq<Cosig>, b: seq<Cosig>)
    ensures AbsorbAll(cr, r, a + b) == AbsorbAll(cr, AbsorbAll(cr, r, a), b)
    decreases |a|
  {
    hide Absorb;
    if a == [] {
      assert a + b == b;
    } else {
      assert (a + b)[1..] == a[1..] + b;
      AbsorbAllConcat(cr, Absorb(cr, r, a[0]), a[1..], b);
    }
  }

  lemma SignersInHead(cr: Suite, preimage: Bytes, cs: seq<Cosig>)
    requires cs != []
    ensures SignersIn(cr, preimage, cs) ==
      SignersIn(cr, preimage, cs[1..]) + if Good(cr, preimage, cs[0]) then {cr.fingerprint(cs[0].pub)} else {}
  {
  }

  /** cosign.go in its own form. */
  class CosignRound {
    const preimage: Bytes
    var sigs: map<Str, Bytes>
    var keys: map<Str, Bytes>

    ghost function View(): Round
      reads this
    {
      Round(preimage, sigs, keys)
    }

    constructor (preimage: Bytes, selfFpr: Str, selfSig: Bytes, selfKey: Bytes)
      ensures View() == Round(preimage, map[selfFpr := selfSig], map[selfFpr := selfKey])
    {
      this.preimage := preimage;
      sigs, keys := map[selfFpr := selfSig], map[selfFpr := selfKey];
    }

    method Add(fpr: Str, key: Bytes, sig: Bytes)
      modifies this
      ensures View() == old(View()).(sigs := old(sigs)[fpr := sig], keys := old(keys)[fpr := key])
    {
      sigs, keys := sigs[fpr := sig], keys[fpr := key];
    }

    /** The acknowledgement handlers' path into a round: verify, then add. */
    method Take(cr: Suite, c: Cosig) returns (ok: bool)
      modifies this
      ensures ok == Good(cr, preimage, c)
      ensures View() == Absorb(cr, old(View()), c)
    {
      if |c.pub| != KEY_SIZE || !cr.verify(c.pub, preimage, c.sig) {
        return false;
      }
      Add(cr.fingerprint(c.pub), c.pub, c.sig);
      return true;
    }
  }

  // ---- the verifiers' signature loop ----

  datatype Fault =
    | NoKey(fpr: Str)
    | KeyMalformed(fpr: Str)
    | KeyMismatch(fpr: Str)
    | SignatureNotBase64(fpr: Str)
    | DoesNotVerify(fpr: Str)

  /** What is wrong with f's signature, if anything; the checks in the verifiers' order. */
  function FaultOf(cr: Suite, preimage: Bytes, sigs: map<Str, Str>, keys: map<Str, Str>, f: Str): Option<Fault>
    requires f in sigs
  {
    if f !in keys then Some(NoKey(f))
    else if cr.unbase64(keys[f]).None? || |cr.unbase64(keys[f]).value| != KEY_SIZE then Some(KeyMalformed(f))
    else if cr.fingerprint(cr.unbase64(keys[f]).value) != f then Some(KeyMismatch(f))
    else if cr.unbase64(sigs[f]).None? then Some(SignatureNotBase64(f))
    else if !cr.verify(cr.unbase64(keys[f]).value, preimage, cr.unbase64(sigs[f]).value) then Some(DoesNotVerify(f))
    else None
  }

  predicate AllSound(cr: Suite, preimage: Bytes, sigs: map<Str, Str>, keys: map<Str, Str>) {
    forall f :: f in sigs ==> FaultOf(cr, preimage, sigs, keys, f).None?
  }

  /** f is the byte-wise least fingerprint whose signature is at fault. */
  ghost predicate FirstFault(cr: Suite, preimage: Bytes, sigs: map<Str, Str>, keys: map<Str, Str>, f: Str) {
    && f in sigs && FaultOf(cr, preimage, sigs, keys, f).Some?
    && forall g :: g in sigs && FaultOf(cr, preimage, sigs, keys, g).Some? ==> AtMost(f, g)
  }

  /** The keys of a map in ascending order, each once. */
  ghost predicate Lists(keys: set<Str>, list: seq<Str>) {
    Sorted(list) && multiset(list) == multiset(keys)
  }

  lemma ListsMembers(keys: set<Str>, list: seq<Str>)
    requires Lists(keys, list)
    ensures forall f :: f in list <==> f in keys
  {
    forall f
      ensures f in list <==> f in keys
    {
      assert f in list <==> f in multiset(list);
    }
  }

  /** sortedKeys: the map is walked in no particular order, then sorted. */
  method SortedKeys(m: map<Str, Str>) returns (list: seq<Str>)
    ensures Lists(m.Keys, list)
  {
    var todo := m.Keys;
    var out: seq<Str> := [];
    while todo != {}
      invariant todo <= m.Keys
      invariant multiset(out) == multiset(m.Keys - todo)
      decreases todo
    {
      var f :| f in todo;
      assert m.Keys - (todo - {f}) == (m.Keys - todo) + {f};
      out := out + [f];
      todo := todo - {f};
    }
    assert m.Keys - todo == m.Keys;
    list := Sort(out);
  }

  /**
   The loop of VerifyRoster and VerifyReceipt. Walking the fingerprints in ascending order, it stops
   at the first fault: so the fault it reports is that of the least faulty fingerprint, whatever
   order the map has, and without a fault every signer is listed once, in order.
   */
  method CheckSignatures(cr: Suite, preimage: Bytes, sigs: map<Str, Str>, keys: map<Str, Str>)
    returns (fault: Option<Fault>, signers: seq<Str>)
    ensures fault.None? <==> AllSound(cr, preimage, sigs, keys)
    ensures fault.None? ==> Lists(sigs.Keys, signers)
    ensures fault.Some? ==> FirstFault(cr, preimage, sigs, keys, fault.value.fpr)
                            && FaultOf(cr, preimage, sigs, keys, fault.value.fpr) == fault
  {
    var order := SortedKeys(sigs);
    ListsMembers(sigs.Keys, order);
    signers := [];
    var i := 0;
    while i < |order|
      invariant 0 <= i <= |order|
      invariant signers == order[..i]
      invariant forall j :: 0 <= j < i ==> order[j] in sigs && FaultOf(cr, preimage, sigs, keys, order[j]).None?
    {
      var f := order[i];
      var bad := CheckOne(cr, preimage, sigs, keys, f);
      if bad.Some? {
        FirstInOrder(cr, preimage, sigs, keys, order, i);
        return bad, [];
      }
      signers := signers + [f];
      i := i + 1;
    }
    assert order[..i] == order;
    fault := None;
  }

  lemma FirstInOrder(cr: Suite, preimage: Bytes, sigs: map<Str, Str>, keys: map<Str, Str>, order: seq<Str>, i: nat)
    requires Lists(sigs.Keys, order) && i < |order| && order[i] in sigs
    requires FaultOf(cr, preimage, sigs, keys, order[i]).Some?
    requires forall j :: 0 <= j < i ==> order[j] in sigs && FaultOf(cr, preimage, sigs, keys, order[j]).None?
    ensures FirstFault(cr, preimage, sigs, keys, order[i])
  {
    hide FaultOf;
    ListsMembers(sigs.Keys, order);
    forall g | g in sigs && FaultOf(cr, preimage, sigs, keys, g).Some?
      ensures AtMost(order[i], g)
    {
      var j :| 0 <= j < |order| && order[j] == g;
      assert j >= i;
    }
  }

  method CheckOne(cr: Suite, preimage: Bytes, sigs: map<Str, Str>, keys: map<Str, Str>, f: Str) returns (fault: Option<Fault>)
    requires f in sigs
    ensures fault == FaultOf(cr, preimage, sigs, keys, f)
    ensures fault.Some? ==> fault.value.fpr == f
  {
    if f !in keys {
      return Some(NoKey(f));
    }
    var key := cr.unbase64(keys[f]);
    if key.None? || |key.value| != KEY_SIZE {
      return Some(KeyMalformed(f));
    }
    if cr.fingerprint(key.value) != f {
      return Some(KeyMismatch(f));
    }
    var sig := cr.unbase64(sigs[f]);
    if sig.None? {
      return Some(SignatureNotBase64(f));
    }
    if !cr.verify(key.value, preimage, sig.value) {
      return Some(DoesNotVerify(f));
    }
    return None;
  }

  /** b64map. */
  function Base64Map(cr: Suite, m: map<Str, Bytes>): (r: map<Str, Str>)
    ensures r.Keys == m.Keys
  {
    map f | f in m :: cr.base64(m[f])
  }

  /** What a round collected is sound to the verifiers once written out. */
  lemma CollectedSound(cr: Suite, r: Round)
    requires TextCodecs(cr) && Collected(cr, r)
    ensures AllSound(cr, r.preimage, Base64Map(cr, r.sigs), Base64Map(cr, r.keys))
    ensures Base64Map(cr, r.sigs) != map[]
  {
  }

  // ---- what a sound map of signatures proves ----

  /** A signature filed under f: its key has that fingerprint and it verifies over msg. */
  ghost predicate FiledBy(cr: Suite, f: Str, key: Str, sig: Str, msg: Bytes) {
    && cr.unbase64(key).Some? && cr.unbase64(sig).Some?
    && |cr.unbase64(key).value| == KEY_SIZE && cr.fingerprint(cr.unbase64(key).value) == f
    && cr.verify(cr.unbase64(key).value, msg, cr.unbase64(sig).value)
  }

  /** A map of signatures is sound exactly when every one of them is by the key with the fingerprint it is filed under. */
  lemma SoundExactly(cr: Suite, preimage: Bytes, sigs: map<Str, Str>, keys: map<Str, Str>)
    ensures AllSound(cr, preimage, sigs, keys) <==> forall f :: f in sigs ==> f in keys && FiledBy(cr, f, keys[f], sigs[f], preimage)
  {
  }

  /** The holder of the key with this fingerprint signed msg. */
  ghost predicate DidSign(cr: Suite, log: SignedLog, f: Str, msg: Bytes) {
    exists key :: |key| == KEY_SIZE && cr.fingerprint(key) == f && (key, msg) in log
  }

  /** A signature in a file that was not forged. */
  ghost predicate GenuineText(cr: Suite, log: SignedLog, key: Str, sig: Str) {
    cr.unbase64(key).Some? && cr.unbase64(sig).Some? ==> Unforged(cr, log, cr.unbase64(key).value, cr.unbase64(sig).value)
  }

  lemma FiledWasSigned(cr: Suite, log: SignedLog, f: Str, key: Str, sig: Str, msg: Bytes)
    requires FiledBy(cr, f, key, sig, msg) && GenuineText(cr, log, key, sig)
    ensures DidSign(cr, log, f, msg)
  {
    assert (cr.unbase64(key).value, msg) in log;
  }

  /** Without forgery, everybody a sound map names signed its preimage. */
  lemma SoundWasSigned(cr: Suite, log: SignedLog, preimage: Bytes, sigs: map<Str, Str>, keys: map<Str, Str>)
    requires AllSound(cr, preimage, sigs, keys)
    requires forall f :: f in sigs && f in keys ==> GenuineText(cr, log, keys[f], sigs[f])
    ensures forall f :: f in sigs ==> DidSign(cr, log, f, preimage)
  {
    hide FiledBy, GenuineText, DidSign, AllSound;
    SoundExactly(cr, preimage, sigs, keys);
    forall f | f in sigs
      ensures DidSign(cr, log, f, preimage)
    {
      FiledWasSigned(cr, log, f, keys[f], sigs[f], preimage);
    }
  }
}
