/**
 VerifyIdentity and VerifyRevocation in their own form: loops that collect every pinned key's
 outcome. Each is proved to decide what the specification says, whatever order it met the keys in.
 */
module IdentityVerifier {
  import opened Bytes
  import opened Framing
  import opened Crypto
  import opened Identity
  import opened IdentityLaws

  datatype KeyOutcome = KeyOutcome(fpr: Str, reason: Reason)

  datatype Check = Check(statementID: Str, number: U64, issuedAt: Str, nextUpdate: Str, issuer: Str, coversIssuer: bool,
                         listed: bool, stale: bool)

  datatype Result = Result(valid: bool, subject: Str, principal: Str, displayName: Str, roles: seq<Str>, issuer: Str,
                           verifiedBy: seq<Str>, revocation: seq<Check>, reason: Option<Reason>, reasonClass: Option<Class>)

  /** rolesProblem: one pass with a set of the roles seen. */
  method RolesProblem(roles: seq<Str>) returns (ok: bool)
    ensures ok == RolesOk(roles)
  {
    if |roles| == 0 {
      return false;
    }
    var seen: set<Str> := {};
    for i := 0 to |roles|
      invariant forall j :: 0 <= j < i ==> roles[j] != [] && roles[j] in seen
      invariant forall x :: x in seen ==> exists j :: 0 <= j < i && roles[j] == x
      invariant forall j, k :: 0 <= j < k < i ==> roles[j] != roles[k]
    {
      if roles[i] == [] {
        return false;
      }
      if roles[i] in seen {
        return false;
      }
      seen := seen + {roles[i]};
    }
    return true;
  }

  /** The failures of the keys that are named and do not verify, each with its key's fingerprint. */
  ghost predicate Collects(cr: Suite, preimage: Bytes, sigs: map<Str, Str>, embedded: map<Str, Str>, keys: seq<Bytes>,
                           outcomes: seq<KeyOutcome>) {
    && (forall o :: o in outcomes ==> SomeFails(cr, preimage, sigs, embedded, keys, o.reason))
    && (forall r :: SomeFails(cr, preimage, sigs, embedded, keys, r) ==> exists o :: o in outcomes && o.reason == r)
  }

  /** The signature loop of both verifiers: every key is tried, none short-circuits. */
  method TryKeys(cr: Suite, preimage: Bytes, sigs: map<Str, Str>, embedded: map<Str, Str>, keys: seq<Bytes>)
    returns (verifiedBy: seq<Str>, outcomes: seq<KeyOutcome>)
    ensures verifiedBy == Sort(Verifiers(cr, preimage, sigs, embedded, keys))
    ensures verifiedBy != [] <==> AnyVerifies(cr, preimage, sigs, embedded, keys)
    ensures Collects(cr, preimage, sigs, embedded, keys, outcomes)
  {
    hide OutcomeOf, Collects;
    NoKeys(cr, preimage, sigs, embedded);
    var found: seq<Str> := [];
    outcomes := [];
    var i := 0;
    while i < |keys|
      invariant 0 <= i <= |keys|
      invariant found == Verifiers(cr, preimage, sigs, embedded, keys[..i])
      invariant Collects(cr, preimage, sigs, embedded, keys[..i], outcomes)
    {
      var o := TryKey(cr, preimage, sigs, embedded, keys[i]);
      OneMoreCollected(cr, preimage, sigs, embedded, keys[..i], keys[i], outcomes);
      OneMoreVerifier(cr, preimage, sigs, embedded, keys, i);
      assert keys[..i] + [keys[i]] == keys[..i + 1];
      assert outcomes + [] == outcomes && found + [] == found;
      match o {
        case NotNamed =>
        case Failed(r) => outcomes := outcomes + [KeyOutcome(cr.fingerprint(keys[i]), r)];
        case Verified => found := found + [cr.fingerprint(keys[i])];
      }
      i := i + 1;
    }
    assert keys[..i] == keys;
    VerifiersAny(cr, preimage, sigs, embedded, keys);
    verifiedBy := Sort(found);
  }

  lemma OneMoreVerifier(cr: Suite, preimage: Bytes, sigs: map<Str, Str>, embedded: map<Str, Str>, keys: seq<Bytes>, i: nat)
    requires i < |keys|
    ensures Verifiers(cr, preimage, sigs, embedded, keys[..i + 1]) ==
      Verifiers(cr, preimage, sigs, embedded, keys[..i])
      + if OutcomeOf(cr, preimage, sigs, embedded, keys[i]).Verified? then [cr.fingerprint(keys[i])] else []
  {
    hide OutcomeOf;
    assert keys[..i + 1][..i] == keys[..i] && keys[..i + 1][i] == keys[i];
  }

  lemma {:induction false} VerifiersAny(cr: Suite, preimage: Bytes, sigs: map<Str, Str>, embedded: map<Str, Str>, keys: seq<Bytes>)
    ensures Verifiers(cr, preimage, sigs, embedded, keys) != [] <==> AnyVerifies(cr, preimage, sigs, embedded, keys)
  {
    hide OutcomeOf, AnyVerifies;
    if keys == [] {
      NoKeys(cr, preimage, sigs, embedded);
    } else {
      var n := |keys| - 1;
      VerifiersAny(cr, preimage, sigs, embedded, keys[..n]);
      OneMore(cr, preimage, sigs, embedded, keys[..n], keys[n]);
      assert keys[..n] + [keys[n]] == keys;
    }
  }

  lemma NoKeys(cr: Suite, preimage: Bytes, sigs: map<Str, Str>, embedded: map<Str, Str>)
    ensures !AnyVerifies(cr, preimage, sigs, embedded, []) && Collects(cr, preimage, sigs, embedded, [], [])
  {
  }

  lemma OneMoreCollected(cr: Suite, preimage: Bytes, sigs: map<Str, Str>, embedded: map<Str, Str>, keys: seq<Bytes>, k: Bytes,
                         outcomes: seq<KeyOutcome>)
    requires Collects(cr, preimage, sigs, embedded, keys, outcomes)
    ensures var o := OutcomeOf(cr, preimage, sigs, embedded, k);
            Collects(cr, preimage, sigs, embedded, keys + [k],
                     outcomes + if o.Failed? then [KeyOutcome(cr.fingerprint(k), o.reason)] else [])
  {
    hide AnyVerifies, SomeFails, OutcomeOf;
    OneMore(cr, preimage, sigs, embedded, keys, k);
    var o := OutcomeOf(cr, preimage, sigs, embedded, k);
    var next := outcomes + if o.Failed? then [KeyOutcome(cr.fingerprint(k), o.reason)] else [];
    forall r | SomeFails(cr, preimage, sigs, embedded, keys + [k], r)
      ensures exists x :: x in next && x.reason == r
    {
      if SomeFails(cr, preimage, sigs, embedded, keys, r) {
        var x :| x in outcomes && x.reason == r;
        assert x in next;
      } else {
        assert KeyOutcome(cr.fingerprint(k), r) in next;
      }
    }
  }

  lemma OneMore(cr: Suite, preimage: Bytes, sigs: map<Str, Str>, embedded: map<Str, Str>, keys: seq<Bytes>, k: Bytes)
    ensures var o := OutcomeOf(cr, preimage, sigs, embedded, k);
            && (AnyVerifies(cr, preimage, sigs, embedded, keys + [k]) <==>
                  AnyVerifies(cr, preimage, sigs, embedded, keys) || o.Verified?)
            && (forall r :: SomeFails(cr, preimage, sigs, embedded, keys + [k], r) <==>
                  SomeFails(cr, preimage, sigs, embedded, keys, r) || o == Failed(r))
  {
    hide OutcomeOf;
    var all := keys + [k];
    assert all[|keys|] == k;
    assert forall i :: 0 <= i < |keys| ==> all[i] == keys[i];
  }

  method TryKey(cr: Suite, preimage: Bytes, sigs: map<Str, Str>, embedded: map<Str, Str>, key: Bytes) returns (o: Outcome)
    ensures o == OutcomeOf(cr, preimage, sigs, embedded, key)
  {
    var f := cr.fingerprint(key);
    if f !in sigs {
      return NotNamed;
    }
    if f in embedded {
      var carried := cr.unbase64(embedded[f]);
      if carried.None? || |carried.value| != KEY_SIZE {
        return Failed(SignerKeyMalformed);
      }
      if cr.fingerprint(carried.value) != f {
        return Failed(SignerKeyMismatch);
      }
    }
    var sig := cr.unbase64(sigs[f]);
    if sig.None? {
      return Failed(SignatureMalformed);
    }
    if !cr.verify(key, preimage, sig.value) {
      return Failed(SignatureInvalid);
    }
    return Verified;
  }

  /** The reported reason when no key verified: the first of greatest severity, and it is the one and only most severe. */
  method Worst(cr: Suite, preimage: Bytes, sigs: map<Str, Str>, embedded: map<Str, Str>, ghost keys: seq<Bytes>,
               outcomes: seq<KeyOutcome>)
    returns (r: Reason)
    requires Collects(cr, preimage, sigs, embedded, keys, outcomes)
    ensures r == KeysReason(cr, preimage, sigs, embedded, keys)
    ensures outcomes != [] ==> MostSevere(cr, preimage, sigs, embedded, keys, r)
  {
    hide SomeFails;
    if |outcomes| == 0 {
      return NoPinnedIssuerVerified;
    }
    var worst := outcomes[0];
    for i := 1 to |outcomes|
      invariant worst in outcomes
      invariant forall j :: 0 <= j < i ==> Severity(outcomes[j].reason) <= Severity(worst.reason)
    {
      if Severity(outcomes[i].reason) > Severity(worst.reason) {
        worst := outcomes[i];
      }
    }
    WorstMeans(cr, preimage, sigs, embedded, keys, outcomes, worst.reason);
    return worst.reason;
  }

  lemma WorstMeans(cr: Suite, preimage: Bytes, sigs: map<Str, Str>, embedded: map<Str, Str>, keys: seq<Bytes>,
                   outcomes: seq<KeyOutcome>, r: Reason)
    requires Collects(cr, preimage, sigs, embedded, keys, outcomes)
    requires (exists o :: o in outcomes && o.reason == r) && forall o :: o in outcomes ==> Severity(o.reason) <= Severity(r)
    ensures MostSevere(cr, preimage, sigs, embedded, keys, r) && r == KeysReason(cr, preimage, sigs, embedded, keys)
  {
  }

  method VerifyRevocation(cr: Suite, s: Option<RevocationList>, keys: seq<Bytes>)
    returns (usable: bool, reason: Option<Reason>, verifiedBy: seq<Str>)
    ensures usable == (s.Some? && forall i :: 0 <= i < |keys| ==> |keys[i]| == KEY_SIZE)
    ensures usable ==> reason == StatementReason(cr, s.value, keys)
    ensures usable ==> (reason.None? <==> StatementValid(cr, s.value, keys))
    ensures usable && reason.None? ==>
      verifiedBy == Sort(Verifiers(cr, RevocationBytes(s.value), s.value.signatures, s.value.signerKeys, keys))
  {
    hide RevocationBytes, IsFingerprint, Verifiers, AnyVerifies, KeysReason, StatementValid;
    verifiedBy, reason := [], None;
    if s.None? {
      return false, None, [];
    }
    StatementExactly(cr, s.value, keys);
    for i := 0 to |keys|
      invariant forall j :: 0 <= j < i ==> |keys[j]| == KEY_SIZE
    {
      if |keys[i]| != KEY_SIZE {
        return false, None, [];
      }
    }
    usable := true;
    reason := CheckStatementShape(cr, s.value);
    if reason.Some? {
      return;
    }
    if |keys| == 0 {
      reason := Some(NoIssuerPinned);
      return;
    }
    var outcomes;
    verifiedBy, outcomes := TryKeys(cr, RevocationBytes(s.value), s.value.signatures, s.value.signerKeys, keys);
    if |verifiedBy| == 0 {
      var w := Worst(cr, RevocationBytes(s.value), s.value.signatures, s.value.signerKeys, keys, outcomes);
      reason := Some(w);
    }
  }

  method CheckStatementShape(cr: Suite, s: RevocationList) returns (reason: Option<Reason>)
    ensures reason == StatementShape(cr, s)
  {
    hide IsFingerprint;
    if s.version != RevocationVersion() {
      return Some(UnsupportedVersion);
    }
    if !IsFingerprint(cr, s.issuer) {
      return Some(MalformedIssuer);
    }
    if s.statementID == [] {
      return Some(MalformedSerial);
    }
    if cr.parseTime(s.issuedAt).None? {
      return Some(MalformedTime);
    }
    if s.nextUpdate != [] {
      if cr.parseTime(s.nextUpdate).None? {
        return Some(MalformedTime);
      }
    }
    var i := 0;
    while i < |s.revoked|
      invariant 0 <= i <= |s.revoked|
      invariant EntriesReason(cr, s.revoked) == EntriesReason(cr, s.revoked[i..])
    {
      if s.revoked[i].serial == [] {
        return Some(MalformedSerial);
      }
      if cr.parseTime(s.revoked[i].revokedAt).None? {
        return Some(MalformedTime);
      }
      assert s.revoked[i..][1..] == s.revoked[i + 1..];
      i := i + 1;
    }
    if s.issuer !in s.signatures {
      return Some(IssuerDidNotSign);
    }
    return None;
  }

  /** What one verified statement contributes: whether it speaks for this issuer, lists the serial, and is past its next update. */
  function CheckFor(cr: Suite, s: RevocationList, a: Attestation, at: int): Check {
    Check(s.statementID, s.number, s.issuedAt, s.nextUpdate, s.issuer, s.issuer == a.issuer, Lists(s, a),
          s.nextUpdate != [] && cr.parseTime(s.nextUpdate).Some? && at > cr.parseTime(s.nextUpdate).value)
  }

  predicate Reported(cr: Suite, r: Option<RevocationList>, keys: seq<Bytes>) {
    r.Some? && StatementReason(cr, r.value, keys).None?
  }

  /** The checks of exactly the supplied statements that verify, in order, stale ones included. */
  function ChecksOf(cr: Suite, a: Attestation, keys: seq<Bytes>, at: int, revs: seq<Option<RevocationList>>): seq<Check> {
    if revs == [] then []
    else
      var n := |revs| - 1;
      ChecksOf(cr, a, keys, at, revs[..n]) + if Reported(cr, revs[n], keys) then [CheckFor(cr, revs[n].value, a, at)] else []
  }

  predicate AllReported(cr: Suite, revs: seq<Option<RevocationList>>, keys: seq<Bytes>) {
    forall i :: 0 <= i < |revs| ==> Reported(cr, revs[i], keys)
  }

  predicate NoneReported(cr: Suite, revs: seq<Option<RevocationList>>, keys: seq<Bytes>) {
    forall i :: 0 <= i < |revs| ==> !Reported(cr, revs[i], keys)
  }

  lemma ReportedSnoc(cr: Suite, revs: seq<Option<RevocationList>>, r: Option<RevocationList>, keys: seq<Bytes>)
    ensures AllReported(cr, revs + [r], keys) <==> AllReported(cr, revs, keys) && Reported(cr, r, keys)
    ensures NoneReported(cr, revs + [r], keys) <==> NoneReported(cr, revs, keys) && !Reported(cr, r, keys)
  {
    hide Reported;
    var all := revs + [r];
    assert all[|revs|] == r && forall i :: 0 <= i < |revs| ==> all[i] == revs[i];
  }

  lemma ChecksSnoc(cr: Suite, a: Attestation, keys: seq<Bytes>, at: int, revs: seq<Option<RevocationList>>, r: Option<RevocationList>)
    ensures |ChecksOf(cr, a, keys, at, revs + [r])| == |ChecksOf(cr, a, keys, at, revs)| + if Reported(cr, r, keys) then 1 else 0
  {
    assert (revs + [r])[..|revs|] == revs;
  }

  lemma {:induction false} ChecksCounted(cr: Suite, a: Attestation, keys: seq<Bytes>, at: int, revs: seq<Option<RevocationList>>)
    ensures |ChecksOf(cr, a, keys, at, revs)| <= |revs|
    ensures |ChecksOf(cr, a, keys, at, revs)| == |revs| <==> AllReported(cr, revs, keys)
    ensures ChecksOf(cr, a, keys, at, revs) == [] <==> NoneReported(cr, revs, keys)
  {
    if revs != [] {
      hide Reported, AllReported, NoneReported, ChecksOf;
      var n := |revs| - 1;
      ChecksCounted(cr, a, keys, at, revs[..n]);
      assert revs == revs[..n] + [revs[n]];
      ReportedSnoc(cr, revs[..n], revs[n], keys);
      ChecksSnoc(cr, a, keys, at, revs[..n], revs[n]);
    }
  }

  /** Well formed, signed by its named issuer and by a pinned key, and within its window: everything but revocation. */
  ghost predicate InForce(cr: Suite, a: Attestation, keys: seq<Bytes>, at: int) {
    && WellFormed(cr, a) && a.issuer in a.signatures
    && SignedByPinned(cr, a, keys)
    && cr.parseTime(a.issuedAt).value <= at <= cr.parseTime(a.expiresAt).value
  }

  /** The verdicts given at or after the revocation stage. */
  predicate ReachesRevocation(r: Option<Reason>) {
    r.None? || r.value.Revoked? || r.value.RevocationUnverifiable?
  }

  /** The revocation stage is reached exactly by artifacts in force. */
  lemma StageReached(cr: Suite, a: Attestation, keys: seq<Bytes>, at: int, revs: seq<Option<RevocationList>>)
    ensures ReachesRevocation(IdentityReason(cr, a, keys, at, revs)) <==> InForce(cr, a, keys, at)
  {
    hide Shape, WellFormed, Anchored, SignedByPinned, SomeUnverifiable, SomeLists, KeysReason;
    ShapeMeans(cr, a);
    ShapeNotLifecycle(cr, a);
    AnchoredMeans(cr, a, keys);
    SignedNeedsKeys(cr, a, keys);
    KeysNotLifecycle(cr, IdentityBytes(a), a.signatures, a.signerKeys, keys);
  }

  /** IdentityResult.Revocation. */
  ghost function RevocationField(cr: Suite, a: Attestation, keys: seq<Bytes>, at: int, revs: seq<Option<RevocationList>>): seq<Check> {
    if InForce(cr, a, keys, at) then ChecksOf(cr, a, keys, at, revs) else []
  }

  /**
   The result lists one entry per supplied statement if and only if none was supplied, or the
   artifact is in force and every statement is there and verifies; and it lists none if and only if
   the artifact is not in force or no statement is there and verifies.
   */
  lemma OneCheckEachExactly(cr: Suite, a: Attestation, keys: seq<Bytes>, at: int, revs: seq<Option<RevocationList>>)
    ensures |RevocationField(cr, a, keys, at, revs)| <= |revs|
    ensures |RevocationField(cr, a, keys, at, revs)| == |revs| <==>
      revs == [] || (InForce(cr, a, keys, at) && AllReported(cr, revs, keys))
    ensures RevocationField(cr, a, keys, at, revs) == [] <==>
      !InForce(cr, a, keys, at) || NoneReported(cr, revs, keys)
  {
    hide AllReported, NoneReported, InForce, ChecksOf;
    ChecksCounted(cr, a, keys, at, revs);
  }

  /** A valid result therefore lists one entry per statement exactly when none of them was nil. */
  lemma ValidChecksExactly(cr: Suite, a: Attestation, keys: seq<Bytes>, at: int, revs: seq<Option<RevocationList>>)
    requires ValidAt(cr, a, keys, at, revs)
    ensures |RevocationField(cr, a, keys, at, revs)| == |revs| <==> forall i :: 0 <= i < |revs| ==> revs[i].Some?
  {
    hide StatementReason, StatementValid, WellFormed, SignedByPinned, Withdraws;
    forall i | 0 <= i < |revs| && revs[i].Some?
      ensures StatementReason(cr, revs[i].value, keys).None?
    {
      StatementExactly(cr, revs[i].value, keys);
    }
    OneCheckEachExactly(cr, a, keys, at, revs);
  }

  /** A statement of another version, supplied, leaves no entry: the empty list does not mean that none was supplied. */
  lemma UnreadableStatementUnlisted(cr: Suite, a: Attestation, keys: seq<Bytes>, at: int)
    ensures var s := RevocationList([], [], [], 0, [], [], [], map[], map[]);
            RevocationField(cr, a, keys, at, [Some(s)]) == []
  {
    var s := RevocationList([], [], [], 0, [], [], [], map[], map[]);
    assert |RevocationVersion()| == 2;
    assert !Reported(cr, Some(s), keys);
    OneCheckEachExactly(cr, a, keys, at, [Some(s)]);
  }

  /** A suite with one fingerprint, in which every signature verifies and a time is its text's length. */
  function Lenient(): Suite {
    Symbolic().(verify := (k, m, s) => true, fingerprint := k => OneFingerprint(), rawUnbase64 := s => Some(seq(32, _ => 0)),
                parseTime := s => Some(|s|))
  }

  function OneFingerprint(): Wire {
    FingerprintPrefix() + seq(FINGERPRINT_BODY, _ => 65)
  }

  /** An attestation signed by the one pinned key, valid from 1 to 2. */
  function ShortLived(): Attestation {
    var f := OneFingerprint();
    Attestation(IdentityVersion(), [1], f, [1], [], [1], [[1]], [1], [1, 1], AlgorithmEd25519(), f, map[f := []], map[])
  }

  function CleanStatement(): RevocationList {
    var f := OneFingerprint();
    RevocationList(RevocationVersion(), f, [1], 0, [1], [], [], map[f := []], map[])
  }

  /** A call after the expiry: the one statement supplied is there and verifies, and is not listed either. */
  lemma ExpiredListsNothing(key: Bytes)
    requires |key| == KEY_SIZE
    ensures Reported(Lenient(), Some(CleanStatement()), [key])
    ensures IdentityReason(Lenient(), ShortLived(), [key], 3, [Some(CleanStatement())]) == Some(Expired)
    ensures RevocationField(Lenient(), ShortLived(), [key], 3, [Some(CleanStatement())]) == []
    ensures |RevocationField(Lenient(), ShortLived(), [key], 2, [Some(CleanStatement())])| == 1
  {
    hide IdentityBytes, RevocationBytes;
    var cr, a, s, f := Lenient(), ShortLived(), CleanStatement(), OneFingerprint();
    assert f[..7] == FingerprintPrefix() && IsFingerprint(cr, f);
    assert OutcomeOf(cr, RevocationBytes(s), s.signatures, s.signerKeys, [key][0]).Verified?;
    assert OutcomeOf(cr, IdentityBytes(a), a.signatures, a.signerKeys, [key][0]).Verified?;
    assert RolesOk(a.roles);
    ShapeMeans(cr, a);
    AnchoredMeans(cr, a, [key]);
    OneCheckEachExactly(cr, a, [key], 3, [Some(s)]);
    OneCheckEachExactly(cr, a, [key], 2, [Some(s)]);
  }

  /** checkRevocations: every statement is looked at; one that fails is remembered, one that verifies is reported. */
  method CheckRevocations(cr: Suite, a: Attestation, keys: seq<Bytes>, at: int, revs: seq<Option<RevocationList>>)
    returns (checks: seq<Check>, revoked: bool, unverifiable: bool)
    requires forall i :: 0 <= i < |keys| ==> |keys[i]| == KEY_SIZE
    ensures unverifiable == SomeUnverifiable(cr, revs, keys)
    ensures unverifiable <==> exists i :: 0 <= i < |revs| && revs[i].Some? && !StatementValid(cr, revs[i].value, keys)
    ensures revoked == SomeLists(cr, revs, keys, a)
    ensures !unverifiable ==> (revoked <==> exists i :: 0 <= i < |revs| && revs[i].Some? && Withdraws(revs[i].value, a))
    ensures checks == ChecksOf(cr, a, keys, at, revs)
  {
    StatementsMean(cr, a, keys, revs);
    hide StatementReason, SomeLists, SomeUnverifiable, Lists, StatementValid, Withdraws;
    NoStatements(cr, keys, a);
    checks, revoked, unverifiable := [], false, false;
    var n := 0;
    while n < |revs|
      invariant 0 <= n <= |revs|
      invariant unverifiable == SomeUnverifiable(cr, revs[..n], keys)
      invariant revoked == SomeLists(cr, revs[..n], keys, a)
      invariant checks == ChecksOf(cr, a, keys, at, revs[..n])
    {
      OneMoreStatement(cr, revs[..n], revs[n], keys, a);
      assert revs[..n] + [revs[n]] == revs[..n + 1];
      assert revs[..n + 1][..n] == revs[..n];
      if revs[n].Some? {
        var _, reason, _ := VerifyRevocation(cr, revs[n], keys);
        if reason.Some? {
          unverifiable := true;
        } else {
          var c := CheckOne(cr, revs[n].value, a, at);
          revoked := revoked || c.listed;
          checks := checks + [c];
        }
      }
      n := n + 1;
    }
    assert revs[..n] == revs;
  }

  lemma NoStatements(cr: Suite, keys: seq<Bytes>, a: Attestation)
    ensures !SomeUnverifiable(cr, [], keys) && !SomeLists(cr, [], keys, a)
  {
  }

  method CheckOne(cr: Suite, s: RevocationList, a: Attestation, at: int) returns (c: Check)
    ensures c == CheckFor(cr, s, a, at)
    ensures c.coversIssuer <==> s.issuer == a.issuer
    ensures c.listed <==> Withdraws(s, a)
    ensures c.stale <==> s.nextUpdate != [] && cr.parseTime(s.nextUpdate).Some? && at > cr.parseTime(s.nextUpdate).value
    ensures c.statementID == s.statementID && c.number == s.number && c.issuer == s.issuer
            && c.issuedAt == s.issuedAt && c.nextUpdate == s.nextUpdate
  {
    ListsMeans(s, a);
    c := Check(s.statementID, s.number, s.issuedAt, s.nextUpdate, s.issuer, s.issuer == a.issuer, false, false);
    if s.nextUpdate != [] {
      var next := cr.parseTime(s.nextUpdate);
      if next.Some? {
        c := c.(stale := at > next.value);
      }
    }
    if c.coversIssuer {
      var listed := ListsSerial(s.revoked, a.serial);
      c := c.(listed := listed);
    }
  }

  lemma OneMoreStatement(cr: Suite, revs: seq<Option<RevocationList>>, r: Option<RevocationList>, keys: seq<Bytes>, a: Attestation)
    ensures SomeUnverifiable(cr, revs + [r], keys) <==>
      SomeUnverifiable(cr, revs, keys) || (r.Some? && StatementReason(cr, r.value, keys).Some?)
    ensures SomeLists(cr, revs + [r], keys, a) <==>
      SomeLists(cr, revs, keys, a) || (r.Some? && StatementReason(cr, r.value, keys).None? && Lists(r.value, a))
  {
    hide StatementReason, Lists;
    var all := revs + [r];
    assert all[|revs|] == r;
    assert forall i :: 0 <= i < |revs| ==> all[i] == revs[i];
  }

  method ListsSerial(rs: seq<RevokedSerial>, serial: Str) returns (listed: bool)
    ensures listed == exists i :: 0 <= i < |rs| && rs[i].serial == serial
  {
    for i := 0 to |rs|
      invariant forall j :: 0 <= j < i ==> rs[j].serial != serial
    {
      if rs[i].serial == serial {
        return true;
      }
    }
    return false;
  }

  method CheckShape(cr: Suite, a: Attestation) returns (reason: Option<Reason>)
    ensures reason == Shape(cr, a)
  {
    hide IsFingerprint, RolesOk;
    if a.version != IdentityVersion() {
      return Some(UnsupportedVersion);
    }
    if a.algorithm != AlgorithmEd25519() {
      return Some(UnsupportedAlgorithm);
    }
    if a.serial == [] {
      return Some(MalformedSerial);
    }
    if !IsFingerprint(cr, a.subject) {
      return Some(MalformedSubject);
    }
    if a.principal == [] {
      return Some(MalformedPrincipal);
    }
    if a.principalType == [] {
      return Some(MalformedPrincipalType);
    }
    var rolesOk := RolesProblem(a.roles);
    if !rolesOk {
      return Some(MalformedRoles);
    }
    if !IsFingerprint(cr, a.issuer) {
      return Some(MalformedIssuer);
    }
    var notBefore := cr.parseTime(a.issuedAt);
    if notBefore.None? {
      return Some(MalformedTime);
    }
    var notAfter := cr.parseTime(a.expiresAt);
    if notAfter.None? {
      return Some(MalformedTime);
    }
    if notAfter.value < notBefore.value {
      return Some(InvertedWindow);
    }
    if a.issuer !in a.signatures {
      return Some(IssuerDidNotSign);
    }
    return None;
  }

  function Failing(res: Result, r: Reason): Result {
    res.(valid := false, reason := Some(r), reasonClass := Some(ClassOf(r)))
  }

  /**
   VerifyIdentity. A call is answered unless the artifact, a key size or the time is unusable; Valid
   holds exactly when the artifact is well formed, signed by its named issuer and by a pinned key,
   within its window, and no supplied statement fails to verify or lists it; Reason and ReasonClass
   are empty exactly then; a lifecycle reason is reported only once some pinned signature verified;
   and Revocation lists one check per supplied statement exactly when none was supplied, or the
   artifact is in force and every statement is there and verifies.
   */
  method VerifyIdentity(cr: Suite, att: Option<Attestation>, keys: seq<Bytes>, at: int, revs: seq<Option<RevocationList>>)
    returns (r: Option<Result>)
    ensures r.Some? <==> Usable(att, keys, at)
    ensures r.Some? ==> r.value.reason == IdentityReason(cr, att.value, keys, at, revs)
    ensures r.Some? ==> (r.value.valid <==> ValidAt(cr, att.value, keys, at, revs))
    ensures r.Some? ==> (r.value.valid <==> r.value.reason.None?) && (r.value.valid <==> r.value.reasonClass.None?)
    ensures r.Some? ==> ClassSays(cr, att.value, keys, at, revs, r.value.reasonClass)
    ensures r.Some? && (r.value.valid || r.value.reasonClass == Some(Lifecycle)) ==>
      r.value.verifiedBy != []
      && r.value.verifiedBy == Sort(Verifiers(cr, IdentityBytes(att.value), att.value.signatures, att.value.signerKeys, keys))
    ensures r.Some? ==> r.value.revocation == RevocationField(cr, att.value, keys, at, revs)
    ensures r.Some? ==> (|r.value.revocation| == |revs| <==>
      revs == [] || (InForce(cr, att.value, keys, at) && AllReported(cr, revs, keys)))
    ensures r.Some? ==> r.value.subject == att.value.subject && r.value.principal == att.value.principal
                        && r.value.displayName == att.value.displayName && r.value.roles == att.value.roles
                        && r.value.issuer == att.value.issuer
  {
    hide IdentityBytes, Verifiers, IdentityReason, ValidAt, ChecksOf, InForce, AllReported, ClassSays;
    if att.None? {
      return None;
    }
    for i := 0 to |keys|
      invariant forall j :: 0 <= j < i ==> |keys[j]| == KEY_SIZE
    {
      if |keys[i]| != KEY_SIZE {
        return None;
      }
    }
    if at == ZERO_TIME {
      return None;
    }
    ValidExactly(cr, att.value, keys, at, revs);
    StageReached(cr, att.value, keys, at, revs);
    OneCheckEachExactly(cr, att.value, keys, at, revs);
    ClassExactly(cr, att.value, keys, at, revs);
    var res := Stages(cr, att.value, keys, at, revs);
    return Some(res);
  }

  /** The eight stages, in order, of a usable call. */
  method Stages(cr: Suite, a: Attestation, keys: seq<Bytes>, at: int, revs: seq<Option<RevocationList>>) returns (res: Result)
    requires forall i :: 0 <= i < |keys| ==> |keys[i]| == KEY_SIZE
    ensures res.reason == IdentityReason(cr, a, keys, at, revs) && res.valid == res.reason.None?
    ensures res.reasonClass == if res.reason.None? then None else Some(ClassOf(res.reason.value))
    ensures res.valid || res.reasonClass == Some(Lifecycle) ==>
      res.verifiedBy != [] && res.verifiedBy == Sort(Verifiers(cr, IdentityBytes(a), a.signatures, a.signerKeys, keys))
    ensures res.revocation == if ReachesRevocation(res.reason) then ChecksOf(cr, a, keys, at, revs) else []
    ensures res.subject == a.subject && res.principal == a.principal && res.displayName == a.displayName
    ensures res.roles == a.roles && res.issuer == a.issuer
  {
    hide IdentityBytes, Verifiers, AnyVerifies, LateReason, Shape, KeysReason, ChecksOf;
    res := Result(true, a.subject, a.principal, a.displayName, a.roles, a.issuer, [], [], None, None);
    var shape := CheckShape(cr, a);
    if shape.Some? {
      ShapeNotLifecycle(cr, a);
      return Failing(res, shape.value);
    }
    if |keys| == 0 {
      return Failing(res, NoIssuerPinned);
    }
    var verifiedBy, outcomes := TryKeys(cr, IdentityBytes(a), a.signatures, a.signerKeys, keys);
    res := res.(verifiedBy := verifiedBy);
    if |verifiedBy| == 0 {
      var w := Worst(cr, IdentityBytes(a), a.signatures, a.signerKeys, keys, outcomes);
      KeysNotLifecycle(cr, IdentityBytes(a), a.signatures, a.signerKeys, keys);
      return Failing(res, w);
    }
    res := LateStages(cr, a, keys, at, revs, res);
  }

  /** The window and the revocation statements, of an anchored artifact. */
  method LateStages(cr: Suite, a: Attestation, keys: seq<Bytes>, at: int, revs: seq<Option<RevocationList>>, so: Result) returns (res: Result)
    requires Shape(cr, a).None? && forall i :: 0 <= i < |keys| ==> |keys[i]| == KEY_SIZE
    requires so.valid && so.reason.None? && so.reasonClass.None? && so.revocation == []
    ensures res.reason == LateReason(cr, a, keys, at, revs) && res.valid == res.reason.None?
    ensures res.reasonClass == if res.reason.None? then None else Some(ClassOf(res.reason.value))
    ensures res.revocation == if ReachesRevocation(res.reason) then ChecksOf(cr, a, keys, at, revs) else []
    ensures res == so.(valid := res.valid, reason := res.reason, reasonClass := res.reasonClass, revocation := res.revocation)
  {
    hide SomeUnverifiable, SomeLists, Shape, ChecksOf;
    res := so;
    var notBefore, notAfter := Window(cr, a);
    if at < notBefore {
      return Failing(res, NotYetValid);
    }
    if at > notAfter {
      return Failing(res, Expired);
    }
    var checks, revoked, unverifiable := CheckRevocations(cr, a, keys, at, revs);
    res := res.(revocation := checks);
    if unverifiable {
      return Failing(res, RevocationUnverifiable);
    }
    if revoked {
      return Failing(res, Revoked);
    }
  }

  method Window(cr: Suite, a: Attestation) returns (notBefore: int, notAfter: int)
    requires Shape(cr, a).None?
    ensures cr.parseTime(a.issuedAt) == Some(notBefore) && cr.parseTime(a.expiresAt) == Some(notAfter)
  {
    notBefore, notAfter := cr.parseTime(a.issuedAt).value, cr.parseTime(a.expiresAt).value;
  }

  lemma ShapeNotLifecycle(cr: Suite, a: Attestation)
    ensures Shape(cr, a).Some? ==> ClassOf(Shape(cr, a).value).Malformed?
  {
  }

  lemma KeysNotLifecycle(cr: Suite, preimage: Bytes, sigs: map<Str, Str>, embedded: map<Str, Str>, keys: seq<Bytes>)
    ensures !ClassOf(KeysReason(cr, preimage, sigs, embedded, keys)).Lifecycle?
    ensures KeysReason(cr, preimage, sigs, embedded, keys) != RevocationUnverifiable
  {
  }
}
