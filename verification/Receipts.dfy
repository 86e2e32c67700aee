/**
 The scuttle receipt: its hash, the artifact, the offline verifier, and the client machinery that
 issues it by a co-signature round or alone.
 */
module Receipts {
  import opened Bytes
  import opened Framing
  import opened Crypto
  import opened Statements
  import opened Cosigning

  datatype Core = Core(version: Str, room: Str, first: U64, last: U64, reason: Str, scuttledAt: Str, scuttledBy: Str,
                       memberFprs: seq<Str>, keysZeroized: bool)

  /** json.Marshal of a core. */
  type Json = Core -> Bytes

  datatype Receipt = Receipt(core: Core, receiptHash: Str, signatures: map<Str, Str>, signerKeys: map<Str, Str>)

  function ReceiptVersion(): Str { Ascii("v1") }

  /** The core that is hashed: this version, members ascending. */
  function Canonical(core: Core): Core {
    core.(version := ReceiptVersion(), memberFprs := Sort(core.memberFprs))
  }

  /** ReceiptCore.Hash. */
  function HashOf(cr: Suite, js: Json, core: Core): Digest {
    cr.hash(js(Canonical(core)))
  }

  function ReceiptBytes(h: Bytes): Bytes {
    Encode(ScuttleReceipt(h))
  }

  /** NewReceipt. */
  function NewReceipt(cr: Suite, js: Json, core: Core, round: Round): Receipt {
    Receipt(Canonical(core), cr.hex(HashOf(cr, js, Canonical(core))), Base64Map(cr, round.sigs), Base64Map(cr, round.keys))
  }

  /** The hash does not depend on the order the members were listed in, and canonicalizing twice changes nothing. */
  lemma HashOrderFree(cr: Suite, js: Json, a: Core, b: Core)
    requires multiset(a.memberFprs) == multiset(b.memberFprs)
    requires a.(version := [], memberFprs := []) == b.(version := [], memberFprs := [])
    ensures HashOf(cr, js, a) == HashOf(cr, js, b) && HashOf(cr, js, Canonical(a)) == HashOf(cr, js, a)
  {
    SortCanonical(a.memberFprs, b.memberFprs);
    SortIdempotent(a.memberFprs);
    assert Canonical(a) == Canonical(b) && Canonical(Canonical(a)) == Canonical(a);
  }

  // ---- the offline verifier ----

  datatype Verdict =
    | Malformed                        // receipt_hash is not hex
    | BadVersion
    | NotZeroized
    | HashMismatch
    | NoSignatures
    | BadSignature(fault: Fault)
    | Valid(signers: seq<Str>)

  predicate Attests(cr: Suite, js: Json, r: Receipt) {
    && r.core.version == ReceiptVersion()
    && r.core.keysZeroized
    && cr.hex(HashOf(cr, js, r.core)) == r.receiptHash
    && cr.unhex(r.receiptHash).Some?
    && r.signatures != map[]
    && AllSound(cr, ReceiptBytes(cr.unhex(r.receiptHash).value), r.signatures, r.signerKeys)
  }

  /** What an accepted receipt shows: keys zeroized, and everybody listed filed a signature, under its own key, over this core's hash. */
  ghost predicate Shows(cr: Suite, js: Json, r: Receipt) {
    && r.core.version == Ascii("v1") && r.core.keysZeroized && r.signatures.Keys != {}
    && r.receiptHash == cr.hex(HashOf(cr, js, r.core)) && cr.unhex(r.receiptHash).Some?
    && forall f :: f in r.signatures ==>
         f in r.signerKeys && FiledBy(cr, f, r.signerKeys[f], r.signatures[f], Encode(ScuttleReceipt(cr.unhex(r.receiptHash).value)))
  }

  lemma AttestsExactly(cr: Suite, js: Json, r: Receipt)
    ensures Attests(cr, js, r) <==> Shows(cr, js, r)
  {
    hide AllSound, FiledBy, HashOf, Encode;
    assert r.signatures == map[] <==> r.signatures.Keys == {};
    if cr.unhex(r.receiptHash).Some? {
      SoundExactly(cr, ReceiptBytes(cr.unhex(r.receiptHash).value), r.signatures, r.signerKeys);
    }
  }

  /** Without forgery, every signer of an accepted receipt signed the hash of exactly this core. */
  lemma AttestedWasSigned(cr: Suite, js: Json, log: SignedLog, r: Receipt)
    requires TextCodecs(cr) && Attests(cr, js, r)
    requires forall f :: f in r.signatures && f in r.signerKeys ==> GenuineText(cr, log, r.signerKeys[f], r.signatures[f])
    ensures forall f :: f in r.signatures ==> DidSign(cr, log, f, Encode(ScuttleReceipt(HashOf(cr, js, r.core))))
  {
    hide AllSound, GenuineText, DidSign, HashOf, Encode;
    assert cr.unhex(cr.hex(HashOf(cr, js, r.core))) == Some(HashOf(cr, js, r.core));
    SoundWasSigned(cr, log, ReceiptBytes(HashOf(cr, js, r.core)), r.signatures, r.signerKeys);
  }

  /** Two cores with one hash say the same but for their version and the order of members, or two encodings share a digest. */
  lemma HashDetermines(cr: Suite, js: Json, a: Core, b: Core)
    requires HashOf(cr, js, a) == HashOf(cr, js, b)
    requires js(Canonical(a)) == js(Canonical(b)) ==> Canonical(a) == Canonical(b)
    ensures (a.(version := [], memberFprs := []) == b.(version := [], memberFprs := [])
             && multiset(a.memberFprs) == multiset(b.memberFprs))
            || Collide(cr, js(Canonical(a)), js(Canonical(b)))
  {
    if js(Canonical(a)) == js(Canonical(b)) {
      assert Canonical(a) == Canonical(b);
      SortPermutes(a.memberFprs);
      SortPermutes(b.memberFprs);
      assert Canonical(a).(version := [], memberFprs := []) == a.(version := [], memberFprs := []);
      assert Canonical(b).(version := [], memberFprs := []) == b.(version := [], memberFprs := []);
    }
  }

  lemma SortPermutes(s: seq<Str>)
    ensures multiset(Sort(s)) == multiset(s)
  {
  }

  method VerifyReceipt(cr: Suite, js: Json, r: Receipt) returns (v: Verdict)
    ensures v.Valid? <==> Shows(cr, js, r)
    ensures v.Valid? <==> Attests(cr, js, r)
    ensures v.Valid? ==> Lists(r.signatures.Keys, v.signers)
    ensures v.NotZeroized? <==> r.core.version == ReceiptVersion() && !r.core.keysZeroized
    ensures v.BadSignature? ==>
      cr.unhex(r.receiptHash).Some?
      && FirstFault(cr, ReceiptBytes(cr.unhex(r.receiptHash).value), r.signatures, r.signerKeys, v.fault.fpr)
    ensures TextCodecs(cr) ==> !v.Malformed?
  {
    hide ReceiptBytes, HashOf, AllSound, FirstFault, Shows;
    AttestsExactly(cr, js, r);
    if r.core.version != ReceiptVersion() {
      return BadVersion;
    }
    if !r.core.keysZeroized {
      return NotZeroized;
    }
    if cr.hex(HashOf(cr, js, r.core)) != r.receiptHash {
      return HashMismatch;
    }
    var h := cr.unhex(r.receiptHash);
    if h.None? {
      return Malformed;
    }
    if |r.signatures| == 0 {
      return NoSignatures;
    }
    var fault, signers := CheckSignatures(cr, ReceiptBytes(h.value), r.signatures, r.signerKeys);
    if fault.Some? {
      return BadSignature(fault.value);
    }
    return Valid(signers);
  }

  /** Producer and verifier agree on every receipt whose core attests destruction, with exactly the collected signers. */
  lemma NewReceiptAttests(cr: Suite, js: Json, core: Core, round: Round)
    requires TextCodecs(cr) && Collected(cr, round) && round.preimage == ReceiptBytes(HashOf(cr, js, core))
    ensures var r := NewReceipt(cr, js, core, round);
            && r.signatures.Keys == round.sigs.Keys
            && (Attests(cr, js, r) <==> core.keysZeroized)
  {
    hide ReceiptBytes, AllSound, HashOf, Collected;
    HashOrderFree(cr, js, core, core);
    assert cr.unhex(cr.hex(HashOf(cr, js, core))) == Some(HashOf(cr, js, core));
    CollectedSound(cr, round);
  }

  // ---- the client ----

  datatype Config = Config(room: Wire, key: Bytes)

  datatype Pending = Pending(core: Core, hash: Digest, round: Round)

  /** What receiptCoreLocked reads. */
  datatype Facts = Facts(ready: bool, first: U64, last: U64, fprs: seq<Str>)

  datatype Client = Client(facts: Facts, pending: Option<Pending>, done: bool, issued: seq<Receipt>)

  datatype Step =
    | Observe(facts: Facts)                          // membership and key changes
    | Start(reason: Str, at: Str)                    // startReceiptRound
    | Acknowledge(hash: Bytes, cosig: Cosig)         // onScuttleReceiptAck
    | Finalize                                       // finalizeReceipt, by the timer or early
    | WriteSelf(reason: Str, at: Str)                // writeSelfReceiptIfNeeded
    | Clear                                          // clearReceiptLocked

  const FRESH_CLIENT := Client(Facts(false, 0, 0, []), None, false, [])

  function CoreOf(cr: Suite, cfg: Config, s: Client, reason: Str, at: Str): Core {
    Core(ReceiptVersion(), cfg.room, s.facts.first, s.facts.last, reason, at, cr.fingerprint(cfg.key), Sort(s.facts.fprs), true)
  }

  function OwnRound(cr: Suite, js: Json, cfg: Config, core: Core): Round {
    NewRound(cr, cfg.key, ReceiptBytes(HashOf(cr, js, core)))
  }

  function Apply(cr: Suite, js: Json, cfg: Config, s: Client, step: Step): Client {
    match step
    case Observe(facts) => s.(facts := facts)
    case Start(reason, at) =>
      if !s.facts.ready || s.done || s.pending.Some? then s
      else
        var core := CoreOf(cr, cfg, s, reason, at);
        s.(pending := Some(Pending(core, HashOf(cr, js, core), OwnRound(cr, js, cfg, core))))
    case Acknowledge(hash, cosig) =>
      if s.pending.None? || hash != s.pending.value.hash then s
      else s.(pending := Some(s.pending.value.(round := Absorb(cr, s.pending.value.round, cosig))))
    case Finalize =>
      if s.pending.None? then s
      else s.(pending := None, done := true, issued := s.issued + [NewReceipt(cr, js, s.pending.value.core, s.pending.value.round)])
    case WriteSelf(reason, at) =>
      if s.done || !s.facts.ready then s
      else
        var core := CoreOf(cr, cfg, s, reason, at);
        s.(done := true, issued := s.issued + [NewReceipt(cr, js, core, OwnRound(cr, js, cfg, core))])
    case Clear => s.(pending := None)
  }

  function After(cr: Suite, js: Json, cfg: Config, s: Client, steps: seq<Step>): Client
    decreases |steps|
  {
    if steps == [] then s else After(cr, js, cfg, Apply(cr, js, cfg, s, steps[0]), steps[1..])
  }

  ghost predicate Inv(cr: Suite, js: Json, s: Client) {
    && (s.pending.Some? ==>
          && Collected(cr, s.pending.value.round) && s.pending.value.core.keysZeroized
          && s.pending.value.hash == HashOf(cr, js, s.pending.value.core)
          && s.pending.value.round.preimage == ReceiptBytes(s.pending.value.hash))
    && forall i :: 0 <= i < |s.issued| ==> Attests(cr, js, s.issued[i])
  }

  lemma OwnRoundCollected(cr: Suite, js: Json, cfg: Config, core: Core)
    requires SignsWhatVerifies(cr) && |cfg.key| == KEY_SIZE
    ensures Collected(cr, OwnRound(cr, js, cfg, core)) && OwnRound(cr, js, cfg, core).preimage == ReceiptBytes(HashOf(cr, js, core))
  {
    hide ReceiptBytes, HashOf;
    NewRoundCollected(cr, cfg.key, ReceiptBytes(HashOf(cr, js, core)));
  }

  lemma StepKeeps(cr: Suite, js: Json, cfg: Config, s: Client, step: Step)
    requires SignsWhatVerifies(cr) && TextCodecs(cr) && |cfg.key| == KEY_SIZE && Inv(cr, js, s)
    ensures Inv(cr, js, Apply(cr, js, cfg, s, step))
  {
    hide ReceiptBytes, HashOf, Attests, Collected, OwnRound, NewReceipt, Absorb;
    match step
    case Start(reason, at) => OwnRoundCollected(cr, js, cfg, CoreOf(cr, cfg, s, reason, at));
    case Acknowledge(_, cosig) =>
      if s.pending.Some? {
        AbsorbCollected(cr, s.pending.value.round, cosig);
        AbsorbPreimage(cr, s.pending.value.round, cosig);
      }
    case Finalize =>
      if s.pending.Some? {
        NewReceiptAttests(cr, js, s.pending.value.core, s.pending.value.round);
      }
    case WriteSelf(reason, at) =>
      var core := CoreOf(cr, cfg, s, reason, at);
      OwnRoundCollected(cr, js, cfg, core);
      NewReceiptAttests(cr, js, core, OwnRound(cr, js, cfg, core));
    case _ =>
  }

  lemma AbsorbPreimage(cr: Suite, r: Round, c: Cosig)
    ensures Absorb(cr, r, c).preimage == r.preimage
  {
  }

  lemma {:induction false} AfterSnoc(cr: Suite, js: Json, cfg: Config, s: Client, steps: seq<Step>, step: Step)
    ensures After(cr, js, cfg, s, steps + [step]) == Apply(cr, js, cfg, After(cr, js, cfg, s, steps), step)
    decreases |steps|
  {
    hide Apply;
    if steps == [] {
      assert ([] + [step])[1..] == [];
    } else {
      assert (steps + [step])[1..] == steps[1..] + [step];
      AfterSnoc(cr, js, cfg, Apply(cr, js, cfg, s, steps[0]), steps[1..], step);
    }
  }

  lemma {:induction false} AfterKeeps(cr: Suite, js: Json, cfg: Config, s: Client, steps: seq<Step>)
    requires SignsWhatVerifies(cr) && TextCodecs(cr) && |cfg.key| == KEY_SIZE && Inv(cr, js, s)
    ensures Inv(cr, js, After(cr, js, cfg, s, steps))
    decreases |steps|
  {
    hide Apply, Inv;
    if steps != [] {
      StepKeeps(cr, js, cfg, s, steps[0]);
      AfterKeeps(cr, js, cfg, Apply(cr, js, cfg, s, steps[0]), steps[1..]);
    }
  }

  // ---- where a receipt and its signers come from ----

  /** The co-signatures for a receipt hash among the steps, in order. */
  function CosigsFor(hash: Bytes, steps: seq<Step>): seq<Cosig> {
    if steps == [] then []
    else
      var n := |steps| - 1;
      CosigsFor(hash, steps[..n]) + if steps[n].Acknowledge? && steps[n].hash == hash then [steps[n].cosig] else []
  }

  predicate KeepsOpen(steps: seq<Step>) {
    forall i :: 0 <= i < |steps| ==> !steps[i].Finalize? && !steps[i].Clear?
  }

  /** The client as step k finds it. */
  function At(cr: Suite, js: Json, cfg: Config, steps: seq<Step>, k: nat): Client
    requires k <= |steps|
  {
    After(cr, js, cfg, FRESH_CLIENT, steps[..k])
  }

  /** Step k opened a round that nothing since has closed. */
  ghost predicate OpenSince(cr: Suite, js: Json, cfg: Config, steps: seq<Step>, k: nat) {
    && k < |steps| && steps[k].Start? && KeepsOpen(steps[k + 1..])
    && var s := At(cr, js, cfg, steps, k);
       s.facts.ready && !s.done && s.pending.None?
  }

  /** What the round of step k attests. */
  function CoreAt(cr: Suite, js: Json, cfg: Config, steps: seq<Step>, k: nat): Core
    requires k < |steps| && (steps[k].Start? || steps[k].WriteSelf?)
  {
    CoreOf(cr, cfg, At(cr, js, cfg, steps, k), steps[k].reason, steps[k].at)
  }

  /** A round opened at k has absorbed exactly the co-signatures for its hash since. */
  ghost predicate Gathered(cr: Suite, js: Json, cfg: Config, steps: seq<Step>, k: nat, p: Pending)
    requires k < |steps| && steps[k].Start?
  {
    var core := CoreAt(cr, js, cfg, steps, k);
    p == Pending(core, HashOf(cr, js, core),
                 AbsorbAll(cr, OwnRound(cr, js, cfg, core), CosigsFor(HashOf(cr, js, core), steps[k + 1..])))
  }

  lemma {:induction false} PendingOrigin(cr: Suite, js: Json, cfg: Config, steps: seq<Step>) returns (k: nat)
    requires After(cr, js, cfg, FRESH_CLIENT, steps).pending.Some?
    ensures OpenSince(cr, js, cfg, steps, k)
    ensures Gathered(cr, js, cfg, steps, k, After(cr, js, cfg, FRESH_CLIENT, steps).pending.value)
    decreases |steps|
  {
    hide After, HashOf, OwnRound, CoreOf, Absorb, AbsorbAll, NewReceipt;
    if steps == [] {
      NoSteps(cr, js, cfg, FRESH_CLIENT);
      assert false;
    }
    var n := |steps| - 1;
    var before, x := steps[..n], steps[n];
    assert steps == before + [x];
    AfterSnoc(cr, js, cfg, FRESH_CLIENT, before, x);
    if After(cr, js, cfg, FRESH_CLIENT, before).pending.None? {
      k := n;
      assert steps[n + 1..] == [];
      NoneAbsorbed(cr, js, cfg, CoreAt(cr, js, cfg, steps, k));
    } else {
      k := PendingOrigin(cr, js, cfg, before);
      assert before[..k] == steps[..k] && before[k] == steps[k];
      assert steps[k + 1..] == before[k + 1..] + [x];
      OneMoreStep(cr, js, cfg, before, x, k);
    }
  }

  lemma NoSteps(cr: Suite, js: Json, cfg: Config, s: Client)
    ensures After(cr, js, cfg, s, []) == s
  {
  }

  lemma NoneAbsorbed(cr: Suite, js: Json, cfg: Config, core: Core)
    ensures AbsorbAll(cr, OwnRound(cr, js, cfg, core), []) == OwnRound(cr, js, cfg, core)
  {
  }

  lemma CosigsSnoc(hash: Bytes, steps: seq<Step>, x: Step)
    ensures CosigsFor(hash, steps + [x]) == CosigsFor(hash, steps) + if x.Acknowledge? && x.hash == hash then [x.cosig] else []
  {
    assert (steps + [x])[..|steps|] == steps;
  }

  lemma AbsorbOneMore(cr: Suite, r: Round, cs: seq<Cosig>, c: Cosig)
    ensures AbsorbAll(cr, r, cs + [c]) == Absorb(cr, AbsorbAll(cr, r, cs), c)
  {
    hide Absorb;
    AbsorbAllConcat(cr, r, cs, [c]);
    assert [c][1..] == [];
  }

  lemma OneMoreStep(cr: Suite, js: Json, cfg: Config, before: seq<Step>, x: Step, k: nat)
    requires OpenSince(cr, js, cfg, before, k)
    requires var s := After(cr, js, cfg, FRESH_CLIENT, before);
             s.pending.Some? && Gathered(cr, js, cfg, before, k, s.pending.value)
             && Apply(cr, js, cfg, s, x).pending.Some?
    ensures OpenSince(cr, js, cfg, before + [x], k)
    ensures Gathered(cr, js, cfg, before + [x], k,
                     Apply(cr, js, cfg, After(cr, js, cfg, FRESH_CLIENT, before), x).pending.value)
  {
    hide After, HashOf, OwnRound, CoreOf, Absorb, AbsorbAll, NewReceipt, CosigsFor;
    var steps := before + [x];
    assert steps[..k] == before[..k] && steps[k] == before[k];
    assert steps[k + 1..] == before[k + 1..] + [x];
    var core := CoreAt(cr, js, cfg, before, k);
    var h := HashOf(cr, js, core);
    CosigsSnoc(h, before[k + 1..], x);
    if x.Acknowledge? && x.hash == h {
      AbsorbOneMore(cr, OwnRound(cr, js, cfg, core), CosigsFor(h, before[k + 1..]), x.cosig);
    } else {
      assert CosigsFor(h, before[k + 1..]) + [] == CosigsFor(h, before[k + 1..]);
    }
  }

  /** r is what the last of these steps issued by finalizing its round: signed by the scuttler and exactly the valid co-signers. */
  ghost predicate IssuedByRound(cr: Suite, js: Json, cfg: Config, steps: seq<Step>, r: Receipt) {
    && steps != [] && steps[|steps| - 1].Finalize?
    && exists k :: OpenSince(cr, js, cfg, steps[..|steps| - 1], k)
         && var core := CoreAt(cr, js, cfg, steps, k);
            var h := HashOf(cr, js, core);
            r.core == Canonical(core)
            && r.signatures.Keys == {cr.fingerprint(cfg.key)}
                 + SignersIn(cr, ReceiptBytes(h), CosigsFor(h, steps[k + 1..|steps| - 1]))
  }

  /** r is what the last of these steps issued alone: signed by the client itself and nobody else. */
  ghost predicate IssuedAlone(cr: Suite, js: Json, cfg: Config, steps: seq<Step>, r: Receipt) {
    && steps != [] && steps[|steps| - 1].WriteSelf?
    && r.core == Canonical(CoreAt(cr, js, cfg, steps, |steps| - 1))
    && r.signatures.Keys == {cr.fingerprint(cfg.key)}
  }

  lemma RoundSigners(cr: Suite, js: Json, cfg: Config, core: Core, cs: seq<Cosig>)
    requires SignsWhatVerifies(cr) && |cfg.key| == KEY_SIZE
    ensures NewReceipt(cr, js, core, AbsorbAll(cr, OwnRound(cr, js, cfg, core), cs)).signatures.Keys ==
      {cr.fingerprint(cfg.key)} + SignersIn(cr, ReceiptBytes(HashOf(cr, js, core)), cs)
  {
    hide ReceiptBytes, HashOf, SignersIn, AbsorbAll;
    OwnRoundCollected(cr, js, cfg, core);
    AbsorbAllCollects(cr, OwnRound(cr, js, cfg, core), cs);
  }

  /** What a run's last step issues, if anything. */
  lemma LastIssued(cr: Suite, js: Json, cfg: Config, before: seq<Step>, x: Step)
    requires SignsWhatVerifies(cr) && |cfg.key| == KEY_SIZE
    ensures var s := After(cr, js, cfg, FRESH_CLIENT, before);
            var issued := Apply(cr, js, cfg, s, x).issued;
            issued == s.issued
            || (|issued| == |s.issued| + 1 && issued[..|s.issued|] == s.issued
                && (IssuedByRound(cr, js, cfg, before + [x], issued[|s.issued|])
                    || IssuedAlone(cr, js, cfg, before + [x], issued[|s.issued|])))
  {
    hide After, HashOf, OwnRound, CoreOf, Absorb, AbsorbAll, SignersIn, CosigsFor, NewReceipt, ReceiptBytes;
    var s := After(cr, js, cfg, FRESH_CLIENT, before);
    var steps := before + [x];
    assert steps[..|steps| - 1] == before;
    if x.Finalize? && s.pending.Some? {
      var k := PendingOrigin(cr, js, cfg, before);
      var core := CoreAt(cr, js, cfg, before, k);
      var h := HashOf(cr, js, core);
      assert steps[..k] == before[..k] && steps[k] == before[k];
      assert steps[k + 1..|steps| - 1] == before[k + 1..];
      RoundSigners(cr, js, cfg, core, CosigsFor(h, before[k + 1..]));
      CoreKept(cr, js, core, s.pending.value.round);
      var r := NewReceipt(cr, js, core, s.pending.value.round);
      assert CoreAt(cr, js, cfg, steps, k) == core && OpenSince(cr, js, cfg, steps[..|steps| - 1], k);
      assert s.pending.value.core == core;
      assert r.signatures.Keys == {cr.fingerprint(cfg.key)}
             + SignersIn(cr, ReceiptBytes(h), CosigsFor(h, steps[k + 1..|steps| - 1]));
      assert IssuedByRound(cr, js, cfg, steps, r);
    } else if x.WriteSelf? && !s.done && s.facts.ready {
      var core := CoreAt(cr, js, cfg, steps, |steps| - 1);
      OwnSigners(cr, js, cfg, core);
      CoreKept(cr, js, core, OwnRound(cr, js, cfg, core));
    }
  }

  lemma CoreKept(cr: Suite, js: Json, core: Core, round: Round)
    ensures NewReceipt(cr, js, core, round).core == Canonical(core)
  {
  }

  lemma OwnSigners(cr: Suite, js: Json, cfg: Config, core: Core)
    ensures NewReceipt(cr, js, core, OwnRound(cr, js, cfg, core)).signatures.Keys == {cr.fingerprint(cfg.key)}
  {
    hide ReceiptBytes, HashOf;
  }

  /**
   Every receipt a client issues, from a fresh start and over any steps in any order, is accepted by
   the offline verifier, and its signers are exactly those collected: the client itself and every
   fingerprint whose valid co-signature for that receipt's hash arrived between the opening and the
   finalizing of its round, or the client alone.
   */
  lemma {:induction false} IssuedReceiptsAttest(cr: Suite, js: Json, cfg: Config, steps: seq<Step>, i: nat)
    requires SignsWhatVerifies(cr) && TextCodecs(cr) && |cfg.key| == KEY_SIZE
    requires i < |After(cr, js, cfg, FRESH_CLIENT, steps).issued|
    ensures var r := After(cr, js, cfg, FRESH_CLIENT, steps).issued[i];
            && Attests(cr, js, r)
            && exists j :: 0 < j <= |steps| && (IssuedByRound(cr, js, cfg, steps[..j], r) || IssuedAlone(cr, js, cfg, steps[..j], r))
    decreases |steps|
  {
    hide After, Apply, Attests, IssuedByRound, IssuedAlone;
    NoSteps(cr, js, cfg, FRESH_CLIENT);
    AfterKeeps(cr, js, cfg, FRESH_CLIENT, steps);
    var n := |steps| - 1;
    var before, x := steps[..n], steps[n];
    assert steps == before + [x] && steps[..|steps|] == steps;
    AfterSnoc(cr, js, cfg, FRESH_CLIENT, before, x);
    LastIssued(cr, js, cfg, before, x);
    var s := After(cr, js, cfg, FRESH_CLIENT, before);
    if i < |s.issued| {
      IssuedReceiptsAttest(cr, js, cfg, before, i);
      var r := s.issued[i];
      var j :| 0 < j <= n && (IssuedByRound(cr, js, cfg, before[..j], r) || IssuedAlone(cr, js, cfg, before[..j], r));
      assert steps[..j] == before[..j];
    }
  }

  // ---- how many receipts a client issues ----

  /** A round is finalized although the client has already issued a receipt. */
  predicate FinalizesTwice(s: Client, step: Step) {
    step.Finalize? && s.pending.Some? && s.done
  }

  predicate EverFinalizesTwice(cr: Suite, js: Json, cfg: Config, s: Client, steps: seq<Step>)
    decreases |steps|
  {
    steps != [] && (FinalizesTwice(s, steps[0]) || EverFinalizesTwice(cr, js, cfg, Apply(cr, js, cfg, s, steps[0]), steps[1..]))
  }

  lemma {:induction false} AfterTheLatch(cr: Suite, js: Json, cfg: Config, s: Client, steps: seq<Step>)
    requires s.done
    ensures var extra := |After(cr, js, cfg, s, steps).issued| - |s.issued|;
            && (extra == 0 || extra == 1)
            && (extra == 1 ==> s.pending.Some?)
            && (extra == 1 <==> EverFinalizesTwice(cr, js, cfg, s, steps))
    decreases |steps|
  {
    hide NewReceipt, HashOf, OwnRound, Absorb, CoreOf;
    if steps != [] {
      AfterTheLatch(cr, js, cfg, Apply(cr, js, cfg, s, steps[0]), steps[1..]);
    }
  }

  /**
   A client issues at most two receipts, and more than one exactly when an open round is finalized
   after the latch was set: that is, when a scuttle from elsewhere made it write its own receipt
   while its round was open and the round's timer fired before the round was cleared.
   */
  lemma {:induction false} OneReceiptExactly(cr: Suite, js: Json, cfg: Config, s: Client, steps: seq<Step>)
    requires !s.done && s.issued == []
    ensures |After(cr, js, cfg, s, steps).issued| <= 2
    ensures |After(cr, js, cfg, s, steps).issued| <= 1 <==> !EverFinalizesTwice(cr, js, cfg, s, steps)
    decreases |steps|
  {
    hide NewReceipt, HashOf, OwnRound, Absorb, CoreOf;
    if steps != [] {
      var s1 := Apply(cr, js, cfg, s, steps[0]);
      if s1.done {
        AfterTheLatch(cr, js, cfg, s1, steps[1..]);
      } else {
        OneReceiptExactly(cr, js, cfg, s1, steps[1..]);
      }
    }
  }

  /** The latch alone does not prevent it: a concrete run with two receipts. */
  lemma TwoReceipts(cr: Suite, js: Json, cfg: Config)
    ensures var steps := [Observe(Facts(true, 1, 1, [])), Start([], []), WriteSelf([], []), Finalize];
            |After(cr, js, cfg, FRESH_CLIENT, steps).issued| == 2
  {
    hide NewReceipt, HashOf, OwnRound, CoreOf;
    var steps := [Observe(Facts(true, 1, 1, [])), Start([], []), WriteSelf([], []), Finalize];
    var s1 := Apply(cr, js, cfg, FRESH_CLIENT, steps[0]);
    var s2 := Apply(cr, js, cfg, s1, steps[1]);
    var s3 := Apply(cr, js, cfg, s2, steps[2]);
    var s4 := Apply(cr, js, cfg, s3, steps[3]);
    assert steps[1..][1..][1..][1..] == [];
    assert After(cr, js, cfg, FRESH_CLIENT, steps) == After(cr, js, cfg, s1, steps[1..]);
    assert After(cr, js, cfg, s1, steps[1..]) == After(cr, js, cfg, s2, steps[1..][1..]);
    assert After(cr, js, cfg, s2, steps[1..][1..]) == After(cr, js, cfg, s3, steps[1..][1..][1..]);
    assert After(cr, js, cfg, s3, steps[1..][1..][1..]) == s4;
  }
}
