/**
 What the identity verdict depends on, and how it moves: not on the order of keys or statements,
 only forward as keys are pinned, only backward as statements are supplied.
 */
module IdentityLaws {
  import opened Bytes
  import opened Framing
  import opened Crypto
  import opened Statements
  import opened Identity

  // ---- what Valid means ----

  lemma VerifiedMeans(cr: Suite, preimage: Bytes, sigs: map<Str, Str>, embedded: map<Str, Str>, key: Bytes)
    ensures OutcomeOf(cr, preimage, sigs, embedded, key).Verified? <==> VerifiesUnder(cr, preimage, sigs, embedded, key)
  {
  }

  lemma AnyMeans(cr: Suite, preimage: Bytes, sigs: map<Str, Str>, embedded: map<Str, Str>, keys: seq<Bytes>)
    ensures AnyVerifies(cr, preimage, sigs, embedded, keys) <==>
      exists i :: 0 <= i < |keys| && VerifiesUnder(cr, preimage, sigs, embedded, keys[i])
  {
    hide OutcomeOf, VerifiesUnder;
    forall i | 0 <= i < |keys|
      ensures OutcomeOf(cr, preimage, sigs, embedded, keys[i]).Verified? <==> VerifiesUnder(cr, preimage, sigs, embedded, keys[i])
    {
      VerifiedMeans(cr, preimage, sigs, embedded, keys[i]);
    }
  }

  lemma AnchoredMeans(cr: Suite, a: Attestation, keys: seq<Bytes>)
    ensures Anchored(cr, a, keys) <==> SignedByPinned(cr, a, keys)
  {
    hide IdentityBytes, VerifiesUnder, AnyVerifies;
    AnyMeans(cr, IdentityBytes(a), a.signatures, a.signerKeys, keys);
  }

  lemma FingerprintMeans(cr: Suite, s: Str)
    ensures IsFingerprint(cr, s) <==> FingerprintShaped(cr, s)
  {
    if IsFingerprint(cr, s) {
      assert s == Ascii("SHA256:") + s[7..];
    }
    if body: Str :| s == Ascii("SHA256:") + body && |body| == 43
                    && cr.rawUnbase64(body).Some? && |cr.rawUnbase64(body).value| == 32 {
      assert s[7..] == body && s[..7] == Ascii("SHA256:");
    }
  }

  lemma ShapeMeans(cr: Suite, a: Attestation)
    ensures Shape(cr, a).None? <==> WellFormed(cr, a) && a.issuer in a.signatures
  {
    hide IsFingerprint, FingerprintShaped;
    FingerprintMeans(cr, a.subject);
    FingerprintMeans(cr, a.issuer);
    RolesMean(a.roles);
  }

  lemma RolesMean(roles: seq<Str>)
    ensures RolesOk(roles) <==> roles != [] && [] !in roles && (forall i, j :: 0 <= i < j < |roles| ==> roles[i] != roles[j])
  {
  }

  // ---- what a valid revocation statement is ----

  lemma {:induction false} EntriesMean(cr: Suite, rs: seq<RevokedSerial>)
    ensures EntriesReason(cr, rs).None? <==> forall i :: 0 <= i < |rs| ==> rs[i].serial != [] && cr.parseTime(rs[i].revokedAt).Some?
  {
    if rs != [] {
      EntriesMean(cr, rs[1..]);
      assert forall i :: 1 <= i < |rs| ==> rs[i] == rs[1..][i - 1];
    }
  }

  /** The ordered steps of VerifyRevocation find no reason exactly when the order-free conditions all hold. */
  lemma StatementExactly(cr: Suite, s: RevocationList, keys: seq<Bytes>)
    ensures StatementReason(cr, s, keys).None? <==> StatementValid(cr, s, keys)
  {
    hide RevocationBytes, AnyVerifies, VerifiesUnder, IsFingerprint, FingerprintShaped, KeysReason, EntriesReason;
    AnyMeans(cr, RevocationBytes(s), s.signatures, s.signerKeys, keys);
    FingerprintMeans(cr, s.issuer);
    EntriesMean(cr, s.revoked);
  }

  function RevocationStatement(s: RevocationList): Statement {
    Revocation(s.issuer, s.statementID, s.number, s.issuedAt, s.nextUpdate, Serials(s.revoked), Dates(s.revoked), Causes(s.revoked))
  }

  /** The entry count fits its uint64, as any Go slice length does. */
  predicate EntriesSized(s: RevocationList) {
    |s.revoked| < TWO64
  }

  lemma RevocationEncodable(s: RevocationList)
    requires EntriesSized(s)
    ensures Encodable(RevocationStatement(s))
  {
    var p := Triples(Serials(s.revoked), Dates(s.revoked), Causes(s.revoked));
    forall t | t in p
      ensures Fits(t)
    {
      var j :| 0 <= j < |p| && p[j] == t;
      var r := s.revoked[j / 3];
      assert t == Field(if j % 3 == 0 then r.serial else if j % 3 == 1 then r.revokedAt else r.reason);
    }
  }

  /**
   If no signature is forged, a statement that verifies was issued: a pinned key signed exactly this
   list, its issuer, id, number, dates and every revoked serial in order, and nothing else it signed
   reads as another list.
   */
  lemma StatementWasIssued(cr: Suite, log: SignedLog, s: RevocationList, keys: seq<Bytes>) returns (key: Bytes)
    requires StatementReason(cr, s, keys).None? && EntriesSized(s)
    requires forall k, f :: k in keys && f in s.signatures && cr.unbase64(s.signatures[f]).Some? ==>
      Unforged(cr, log, k, cr.unbase64(s.signatures[f]).value)
    ensures key in keys && (key, Encode(RevocationStatement(s))) in log
    ensures forall b :: EntriesSized(b) && Encode(RevocationStatement(b)) == Encode(RevocationStatement(s)) ==>
      b.(version := [], signatures := map[], signerKeys := map[]) == s.(version := [], signatures := map[], signerKeys := map[])
  {
    hide Encode, Encodable, StatementReason, FingerprintShaped;
    StatementExactly(cr, s, keys);
    var i :| 0 <= i < |keys| && VerifiesUnder(cr, RevocationBytes(s), s.signatures, s.signerKeys, keys[i]);
    key := keys[i];
    assert key in keys;
    forall b | EntriesSized(b) && Encode(RevocationStatement(b)) == Encode(RevocationStatement(s))
      ensures b.(version := [], signatures := map[], signerKeys := map[]) == s.(version := [], signatures := map[], signerKeys := map[])
    {
      RevocationEncodable(s);
      RevocationEncodable(b);
      PreimagesDisjoint(RevocationStatement(b), RevocationStatement(s));
      SameEntries(b.revoked, s.revoked);
    }
  }

  lemma SameEntries(a: seq<RevokedSerial>, b: seq<RevokedSerial>)
    requires Serials(a) == Serials(b) && Dates(a) == Dates(b) && Causes(a) == Causes(b)
    ensures a == b
  {
    assert |a| == |Serials(a)| == |b|;
    forall i | 0 <= i < |a|
      ensures a[i] == b[i]
    {
      assert Serials(a)[i] == Serials(b)[i] && Dates(a)[i] == Dates(b)[i] && Causes(a)[i] == Causes(b)[i];
    }
  }

  // ---- the verdict ----

  /** The eight ordered steps find no reason exactly when the order-free conditions all hold. */
  lemma ValidExactly(cr: Suite, a: Attestation, keys: seq<Bytes>, at: int, revs: seq<Option<RevocationList>>)
    ensures IdentityReason(cr, a, keys, at, revs).None? <==> ValidAt(cr, a, keys, at, revs)
  {
    hide Shape, WellFormed, Anchored, SignedByPinned, StatementValid, Withdraws, KeysReason;
    ShapeMeans(cr, a);
    AnchoredMeans(cr, a, keys);
    SignedNeedsKeys(cr, a, keys);
    if Shape(cr, a).None? {
      LateMeans(cr, a, keys, at, revs);
    }
  }

  lemma SignedNeedsKeys(cr: Suite, a: Attestation, keys: seq<Bytes>)
    ensures SignedByPinned(cr, a, keys) ==> keys != []
  {
  }

  lemma ListsMeans(s: RevocationList, a: Attestation)
    ensures Lists(s, a) <==> Withdraws(s, a)
  {
    if Lists(s, a) {
      var i :| 0 <= i < |s.revoked| && s.revoked[i].serial == a.serial;
      assert s.revoked[i] in s.revoked;
    }
  }

  lemma LateMeans(cr: Suite, a: Attestation, keys: seq<Bytes>, at: int, revs: seq<Option<RevocationList>>)
    requires Shape(cr, a).None?
    ensures LateReason(cr, a, keys, at, revs).None? <==>
      && cr.parseTime(a.issuedAt).value <= at <= cr.parseTime(a.expiresAt).value
      && forall i :: 0 <= i < |revs| && revs[i].Some? ==> StatementValid(cr, revs[i].value, keys) && !Withdraws(revs[i].value, a)
  {
    hide StatementReason, StatementValid, Lists, Withdraws, IsFingerprint, RolesOk;
    forall i | 0 <= i < |revs| && revs[i].Some?
      ensures StatementReason(cr, revs[i].value, keys).None? <==> StatementValid(cr, revs[i].value, keys)
      ensures Lists(revs[i].value, a) <==> Withdraws(revs[i].value, a)
    {
      StatementExactly(cr, revs[i].value, keys);
      ListsMeans(revs[i].value, a);
    }
  }

  // ---- what the class of a failure means ----

  /** This key has a decodable signature under its fingerprint, any embedded key is consistent, and it does not verify. */
  ghost predicate Disowns(cr: Suite, preimage: Bytes, sigs: map<Str, Str>, embedded: map<Str, Str>, key: Bytes) {
    var f := cr.fingerprint(key);
    && f in sigs && cr.unbase64(sigs[f]).Some?
    && !cr.verify(key, preimage, cr.unbase64(sigs[f]).value)
    && (f in embedded ==>
          cr.unbase64(embedded[f]).Some? && |cr.unbase64(embedded[f]).value| == KEY_SIZE
          && cr.fingerprint(cr.unbase64(embedded[f]).value) == f)
  }

  lemma KeysClassMeans(cr: Suite, preimage: Bytes, sigs: map<Str, Str>, embedded: map<Str, Str>, keys: seq<Bytes>)
    requires !AnyVerifies(cr, preimage, sigs, embedded, keys)
    ensures ClassOf(KeysReason(cr, preimage, sigs, embedded, keys)).Forged? <==>
      exists i :: 0 <= i < |keys| && Disowns(cr, preimage, sigs, embedded, keys[i])
    ensures ClassOf(KeysReason(cr, preimage, sigs, embedded, keys)).Unanchored? <==>
      forall i :: 0 <= i < |keys| ==> cr.fingerprint(keys[i]) !in sigs
    ensures ClassOf(KeysReason(cr, preimage, sigs, embedded, keys)) in {Forged, Unanchored, Malformed}
  {
    hide OutcomeOf, Disowns;
    forall i | 0 <= i < |keys|
      ensures OutcomeOf(cr, preimage, sigs, embedded, keys[i]) == Failed(SignatureInvalid) <==> Disowns(cr, preimage, sigs, embedded, keys[i])
      ensures OutcomeOf(cr, preimage, sigs, embedded, keys[i]).NotNamed? <==> cr.fingerprint(keys[i]) !in sigs
    {
      OutcomeMeans(cr, preimage, sigs, embedded, keys[i]);
    }
  }

  lemma OutcomeMeans(cr: Suite, preimage: Bytes, sigs: map<Str, Str>, embedded: map<Str, Str>, key: Bytes)
    ensures OutcomeOf(cr, preimage, sigs, embedded, key) == Failed(SignatureInvalid) <==> Disowns(cr, preimage, sigs, embedded, key)
    ensures OutcomeOf(cr, preimage, sigs, embedded, key).NotNamed? <==> cr.fingerprint(key) !in sigs
  {
  }

  /**
   What each class tells a consumer. None: valid. Unconfigured: no key was pinned. Unanchored: the
   artifact names no pinned key. Lifecycle: out of its window, or revoked by statements that all
   verify. Forged: a pinned key's own signature does not verify and no pinned key vouches, or the
   artifact is in force and a supplied statement does not verify. Malformed: anything else.
   */
  ghost predicate ClassSays(cr: Suite, a: Attestation, keys: seq<Bytes>, at: int, revs: seq<Option<RevocationList>>, c: Option<Class>) {
    var shaped := WellFormed(cr, a) && a.issuer in a.signatures;
    var vouched := SignedByPinned(cr, a, keys);
    var inWindow := shaped && cr.parseTime(a.issuedAt).value <= at <= cr.parseTime(a.expiresAt).value;
    var doubted := exists i :: 0 <= i < |revs| && revs[i].Some? && !StatementValid(cr, revs[i].value, keys);
    var withdrawn := exists i :: 0 <= i < |revs| && revs[i].Some? && Withdraws(revs[i].value, a);
    && (c == None <==> shaped && vouched && inWindow && !doubted && !withdrawn)
    && (c == Some(Unconfigured) <==> shaped && keys == [])
    && (c == Some(Unanchored) <==> shaped && keys != [] && forall i :: 0 <= i < |keys| ==> cr.fingerprint(keys[i]) !in a.signatures)
    && (c == Some(Lifecycle) <==> shaped && vouched && (!inWindow || (!doubted && withdrawn)))
    && (c == Some(Forged) <==>
          && shaped
          && (if vouched then inWindow && doubted
              else exists i :: 0 <= i < |keys| && Disowns(cr, IdentityBytes(a), a.signatures, a.signerKeys, keys[i])))
  }

  function ClassFor(r: Option<Reason>): Option<Class> {
    if r.None? then None else Some(ClassOf(r.value))
  }

  lemma StatementsMean(cr: Suite, a: Attestation, keys: seq<Bytes>, revs: seq<Option<RevocationList>>)
    ensures SomeUnverifiable(cr, revs, keys) <==> exists i :: 0 <= i < |revs| && revs[i].Some? && !StatementValid(cr, revs[i].value, keys)
    ensures !SomeUnverifiable(cr, revs, keys) ==>
      (SomeLists(cr, revs, keys, a) <==> exists i :: 0 <= i < |revs| && revs[i].Some? && Withdraws(revs[i].value, a))
  {
    hide StatementReason, StatementValid, Lists, Withdraws;
    forall i | 0 <= i < |revs| && revs[i].Some?
      ensures StatementReason(cr, revs[i].value, keys).None? <==> StatementValid(cr, revs[i].value, keys)
      ensures Lists(revs[i].value, a) <==> Withdraws(revs[i].value, a)
    {
      StatementExactly(cr, revs[i].value, keys);
      ListsMeans(revs[i].value, a);
    }
  }

  lemma ShapeClass(cr: Suite, a: Attestation)
    ensures Shape(cr, a).Some? ==> ClassOf(Shape(cr, a).value).Malformed?
  {
  }

  lemma UnnamedUnsigned(cr: Suite, a: Attestation, keys: seq<Bytes>)
    ensures (forall i :: 0 <= i < |keys| ==> cr.fingerprint(keys[i]) !in a.signatures) ==> !SignedByPinned(cr, a, keys)
    ensures keys == [] ==> !exists i :: 0 <= i < |keys| && Disowns(cr, IdentityBytes(a), a.signatures, a.signerKeys, keys[i])
  {
  }

  lemma ClassExactly(cr: Suite, a: Attestation, keys: seq<Bytes>, at: int, revs: seq<Option<RevocationList>>)
    ensures ClassSays(cr, a, keys, at, revs, ClassFor(IdentityReason(cr, a, keys, at, revs)))
  {
    hide Shape, WellFormed, Anchored, SignedByPinned, StatementValid, Withdraws, KeysReason, Disowns, IdentityBytes, SomeUnverifiable, SomeLists;
    ShapeMeans(cr, a);
    ShapeClass(cr, a);
    AnchoredMeans(cr, a, keys);
    SignedNeedsKeys(cr, a, keys);
    UnnamedUnsigned(cr, a, keys);
    StatementsMean(cr, a, keys, revs);
    if !Anchored(cr, a, keys) {
      KeysClass(cr, a, keys);
    }
  }

  lemma KeysClass(cr: Suite, a: Attestation, keys: seq<Bytes>)
    requires !Anchored(cr, a, keys)
    ensures var c := ClassOf(KeysReason(cr, IdentityBytes(a), a.signatures, a.signerKeys, keys));
            && c in {Forged, Unanchored, Malformed}
            && (c.Forged? <==> exists i :: 0 <= i < |keys| && Disowns(cr, IdentityBytes(a), a.signatures, a.signerKeys, keys[i]))
            && (c.Unanchored? <==> forall i :: 0 <= i < |keys| ==> cr.fingerprint(keys[i]) !in a.signatures)
  {
    hide Disowns, KeysReason, IdentityBytes, AnyVerifies;
    KeysClassMeans(cr, IdentityBytes(a), a.signatures, a.signerKeys, keys);
  }

  // ---- a reason names something that is wrong ----

  /** What is wrong with an artifact for each reason to be given. */
  ghost predicate Wrong(cr: Suite, a: Attestation, keys: seq<Bytes>, at: int, revs: seq<Option<RevocationList>>, r: Reason) {
    match r
    case UnsupportedVersion => a.version != Ascii("v2")
    case UnsupportedAlgorithm => a.algorithm != Ascii("ed25519")
    case MalformedSerial => a.serial == []
    case MalformedSubject => !FingerprintShaped(cr, a.subject)
    case MalformedPrincipal => a.principal == []
    case MalformedPrincipalType => a.principalType == []
    case MalformedRoles => a.roles == [] || [] in a.roles || exists i, j :: 0 <= i < j < |a.roles| && a.roles[i] == a.roles[j]
    case MalformedIssuer => !FingerprintShaped(cr, a.issuer)
    case MalformedTime => cr.parseTime(a.issuedAt).None? || cr.parseTime(a.expiresAt).None?
    case InvertedWindow =>
      cr.parseTime(a.issuedAt).Some? && cr.parseTime(a.expiresAt).Some?
      && cr.parseTime(a.expiresAt).value < cr.parseTime(a.issuedAt).value
    case IssuerDidNotSign => a.issuer !in a.signatures
    case NoIssuerPinned => keys == []
    case NotYetValid => cr.parseTime(a.issuedAt).Some? && at < cr.parseTime(a.issuedAt).value
    case Expired => cr.parseTime(a.expiresAt).Some? && at > cr.parseTime(a.expiresAt).value
    case RevocationUnverifiable => exists i :: 0 <= i < |revs| && revs[i].Some? && !StatementValid(cr, revs[i].value, keys)
    case Revoked => exists i :: 0 <= i < |revs| && revs[i].Some? && StatementValid(cr, revs[i].value, keys) && Withdraws(revs[i].value, a)
    case _ => !SignedByPinned(cr, a, keys)
  }

  /** The order of the stages: an earlier one is not passed over. */
  function Stage(r: Reason): nat {
    match r
    case UnsupportedVersion => 1
    case UnsupportedAlgorithm => 2
    case MalformedSerial => 3
    case MalformedSubject => 4
    case MalformedPrincipal => 5
    case MalformedPrincipalType => 6
    case MalformedRoles => 7
    case MalformedIssuer => 8
    case MalformedTime => 9
    case InvertedWindow => 10
    case IssuerDidNotSign => 11
    case NoIssuerPinned => 12
    case NotYetValid => 14
    case Expired => 15
    case RevocationUnverifiable => 16
    case Revoked => 17
    case _ => 13
  }

  lemma ShapeBlames(cr: Suite, a: Attestation, keys: seq<Bytes>, at: int, revs: seq<Option<RevocationList>>, r: Reason)
    requires Shape(cr, a) == Some(r)
    ensures Stage(r) <= 11 && Wrong(cr, a, keys, at, revs, r)
    ensures forall q :: Stage(q) < Stage(r) ==> !Wrong(cr, a, keys, at, revs, q)
  {
    hide IsFingerprint, FingerprintShaped, StatementValid, SignedByPinned, Withdraws;
    FingerprintMeans(cr, a.subject);
    FingerprintMeans(cr, a.issuer);
    RolesMean(a.roles);
  }

  lemma ShapeClears(cr: Suite, a: Attestation, keys: seq<Bytes>, at: int, revs: seq<Option<RevocationList>>)
    requires Shape(cr, a).None?
    ensures forall q :: Stage(q) <= 11 ==> !Wrong(cr, a, keys, at, revs, q)
  {
    hide IsFingerprint, FingerprintShaped, StatementValid, SignedByPinned, Withdraws;
    FingerprintMeans(cr, a.subject);
    FingerprintMeans(cr, a.issuer);
    RolesMean(a.roles);
  }

  lemma KeysReasonStage(cr: Suite, preimage: Bytes, sigs: map<Str, Str>, embedded: map<Str, Str>, keys: seq<Bytes>)
    ensures Stage(KeysReason(cr, preimage, sigs, embedded, keys)) == 13
  {
  }

  /** The reason given is that of the first stage at which something is wrong, and what it names is wrong. */
  lemma ReasonIsFirst(cr: Suite, a: Attestation, keys: seq<Bytes>, at: int, revs: seq<Option<RevocationList>>, r: Reason)
    requires IdentityReason(cr, a, keys, at, revs) == Some(r)
    ensures Wrong(cr, a, keys, at, revs, r)
    ensures forall q :: Stage(q) < Stage(r) ==> !Wrong(cr, a, keys, at, revs, q)
  {
    hide Shape, Anchored, KeysReason, SomeUnverifiable, SomeLists, SignedByPinned, StatementValid, Withdraws, FingerprintShaped, IdentityBytes;
    if Shape(cr, a).Some? {
      ShapeBlames(cr, a, keys, at, revs, r);
    } else {
      ShapeClears(cr, a, keys, at, revs);
      ShapeTimes(cr, a);
      AnchoredMeans(cr, a, keys);
      KeysReasonStage(cr, IdentityBytes(a), a.signatures, a.signerKeys, keys);
      StatementsMean(cr, a, keys, revs);
      ListedMeans(cr, a, keys, revs);
    }
  }

  /** What is wrong with a statement for each reason to be given of it. */
  ghost predicate StatementWrong(cr: Suite, s: RevocationList, keys: seq<Bytes>, r: Reason) {
    match r
    case UnsupportedVersion => s.version != Ascii("v1")
    case MalformedIssuer => !FingerprintShaped(cr, s.issuer)
    case MalformedSerial => s.statementID == [] || exists e :: e in s.revoked && e.serial == []
    case MalformedTime =>
      || cr.parseTime(s.issuedAt).None? || (s.nextUpdate != [] && cr.parseTime(s.nextUpdate).None?)
      || exists e :: e in s.revoked && cr.parseTime(e.revokedAt).None?
    case IssuerDidNotSign => s.issuer !in s.signatures
    case NoIssuerPinned => keys == []
    case _ => Stage(r) == 13 && !exists i :: 0 <= i < |keys| && VerifiesUnder(cr, RevocationBytes(s), s.signatures, s.signerKeys, keys[i])
  }

  lemma {:induction false} EntriesBlame(cr: Suite, rs: seq<RevokedSerial>)
    ensures EntriesReason(cr, rs) == Some(MalformedSerial) ==> exists e :: e in rs && e.serial == []
    ensures EntriesReason(cr, rs) == Some(MalformedTime) ==> exists e :: e in rs && cr.parseTime(e.revokedAt).None?
    ensures EntriesReason(cr, rs).Some? ==> EntriesReason(cr, rs).value in {MalformedSerial, MalformedTime}
  {
    if rs != [] {
      EntriesBlame(cr, rs[1..]);
      assert rs[0] in rs && forall e :: e in rs[1..] ==> e in rs;
    }
  }

  /** What VerifyRevocation blames is wrong with the statement. */
  lemma StatementBlames(cr: Suite, s: RevocationList, keys: seq<Bytes>, r: Reason)
    requires StatementReason(cr, s, keys) == Some(r)
    ensures StatementWrong(cr, s, keys, r)
  {
    hide RevocationBytes, AnyVerifies, VerifiesUnder, IsFingerprint, FingerprintShaped, KeysReason, EntriesReason;
    AnyMeans(cr, RevocationBytes(s), s.signatures, s.signerKeys, keys);
    FingerprintMeans(cr, s.issuer);
    EntriesBlame(cr, s.revoked);
    KeysReasonStage(cr, RevocationBytes(s), s.signatures, s.signerKeys, keys);
  }

  lemma ShapeTimes(cr: Suite, a: Attestation)
    requires Shape(cr, a).None?
    ensures cr.parseTime(a.issuedAt).Some? && cr.parseTime(a.expiresAt).Some?
  {
    hide IsFingerprint, RolesOk;
  }

  lemma ListedMeans(cr: Suite, a: Attestation, keys: seq<Bytes>, revs: seq<Option<RevocationList>>)
    ensures SomeLists(cr, revs, keys, a) <==>
      exists i :: 0 <= i < |revs| && revs[i].Some? && StatementValid(cr, revs[i].value, keys) && Withdraws(revs[i].value, a)
  {
    hide StatementReason, StatementValid, Lists, Withdraws;
    forall i | 0 <= i < |revs| && revs[i].Some?
      ensures StatementReason(cr, revs[i].value, keys).None? <==> StatementValid(cr, revs[i].value, keys)
      ensures Lists(revs[i].value, a) <==> Withdraws(revs[i].value, a)
    {
      StatementExactly(cr, revs[i].value, keys);
      ListsMeans(revs[i].value, a);
    }
  }

  // ---- the reported failure is the unique most severe one ----

  lemma WorstIsUnique(cr: Suite, preimage: Bytes, sigs: map<Str, Str>, embedded: map<Str, Str>, keys: seq<Bytes>, r: Reason)
    ensures MostSevere(cr, preimage, sigs, embedded, keys, r) ==> r == KeysReason(cr, preimage, sigs, embedded, keys)
    ensures SomeFails(cr, preimage, sigs, embedded, keys, r) ==>
      MostSevere(cr, preimage, sigs, embedded, keys, KeysReason(cr, preimage, sigs, embedded, keys))
  {
    FailureKinds(cr, preimage, sigs, embedded, keys);
    hide SomeFails;
  }

  lemma FailureKinds(cr: Suite, preimage: Bytes, sigs: map<Str, Str>, embedded: map<Str, Str>, keys: seq<Bytes>)
    ensures forall r :: SomeFails(cr, preimage, sigs, embedded, keys, r) ==>
      r == SignatureInvalid || r == SignerKeyMismatch || r == SignerKeyMalformed || r == SignatureMalformed
  {
  }

  // ---- order and repetition of keys ----

  ghost predicate Within<T>(a: seq<T>, b: seq<T>) {
    forall x :: x in a ==> x in b
  }

  lemma OutcomesWithin(cr: Suite, preimage: Bytes, sigs: map<Str, Str>, embedded: map<Str, Str>, small: seq<Bytes>, large: seq<Bytes>)
    requires Within(small, large)
    ensures AnyVerifies(cr, preimage, sigs, embedded, small) ==> AnyVerifies(cr, preimage, sigs, embedded, large)
    ensures forall r :: SomeFails(cr, preimage, sigs, embedded, small, r) ==> SomeFails(cr, preimage, sigs, embedded, large, r)
  {
    hide OutcomeOf;
    forall i | 0 <= i < |small|
      ensures exists j :: 0 <= j < |large| && large[j] == small[i]
    {
      assert small[i] in large;
    }
  }

  lemma SameKeysSameStatement(cr: Suite, s: RevocationList, a: seq<Bytes>, b: seq<Bytes>)
    requires Within(a, b) && Within(b, a)
    ensures StatementReason(cr, s, a) == StatementReason(cr, s, b)
  {
    hide RevocationBytes, AnyVerifies, SomeFails, StatementShape;
    OutcomesWithin(cr, RevocationBytes(s), s.signatures, s.signerKeys, a, b);
    OutcomesWithin(cr, RevocationBytes(s), s.signatures, s.signerKeys, b, a);
    SameEmpty(a, b);
  }

  lemma SameEmpty(a: seq<Bytes>, b: seq<Bytes>)
    requires Within(a, b) && Within(b, a)
    ensures a == [] <==> b == []
  {
    if a != [] {
      assert a[0] in b;
    }
    if b != [] {
      assert b[0] in a;
    }
  }

  lemma SameKeysSameLists(cr: Suite, att: Attestation, revs: seq<Option<RevocationList>>, a: seq<Bytes>, b: seq<Bytes>)
    requires Within(a, b) && Within(b, a)
    ensures SomeUnverifiable(cr, revs, a) == SomeUnverifiable(cr, revs, b)
    ensures SomeLists(cr, revs, a, att) == SomeLists(cr, revs, b, att)
  {
    hide StatementReason, Lists;
    forall i | 0 <= i < |revs| && revs[i].Some?
      ensures StatementReason(cr, revs[i].value, a) == StatementReason(cr, revs[i].value, b)
    {
      SameKeysSameStatement(cr, revs[i].value, a, b);
    }
  }

  /** The verdict is a function of the set of pinned keys: order and repetition do not matter. */
  lemma KeyOrderIrrelevant(cr: Suite, att: Attestation, a: seq<Bytes>, b: seq<Bytes>, at: int, revs: seq<Option<RevocationList>>)
    requires Within(a, b) && Within(b, a)
    ensures IdentityReason(cr, att, a, at, revs) == IdentityReason(cr, att, b, at, revs)
  {
    hide IdentityBytes, AnyVerifies, SomeFails, Shape, SomeUnverifiable, SomeLists;
    OutcomesWithin(cr, IdentityBytes(att), att.signatures, att.signerKeys, a, b);
    OutcomesWithin(cr, IdentityBytes(att), att.signatures, att.signerKeys, b, a);
    SameEmpty(a, b);
    SameKeysSameLists(cr, att, revs, a, b);
  }

  lemma {:induction false} VerifiersConcat(cr: Suite, preimage: Bytes, sigs: map<Str, Str>, embedded: map<Str, Str>, a: seq<Bytes>, b: seq<Bytes>)
    ensures Verifiers(cr, preimage, sigs, embedded, a + b) ==
      Verifiers(cr, preimage, sigs, embedded, a) + Verifiers(cr, preimage, sigs, embedded, b)
  {
    hide OutcomeOf;
    if b == [] {
      assert a + b == a;
    } else {
      var n := |b| - 1;
      assert (a + b)[..|a + b| - 1] == a + b[..n];
      VerifiersConcat(cr, preimage, sigs, embedded, a, b[..n]);
    }
  }

  /** VerifiedBy names exactly the fingerprints of pinned keys whose signature verifies. */
  lemma {:induction false} VerifiersExactly(cr: Suite, preimage: Bytes, sigs: map<Str, Str>, embedded: map<Str, Str>, keys: seq<Bytes>, f: Str)
    ensures f in Verifiers(cr, preimage, sigs, embedded, keys) <==>
      exists i :: 0 <= i < |keys| && cr.fingerprint(keys[i]) == f && VerifiesUnder(cr, preimage, sigs, embedded, keys[i])
  {
    hide OutcomeOf, VerifiesUnder;
    if keys != [] {
      var n := |keys| - 1;
      VerifiersExactly(cr, preimage, sigs, embedded, keys[..n], f);
      VerifiedMeans(cr, preimage, sigs, embedded, keys[n]);
      assert keys == keys[..n] + [keys[n]];
    }
  }

  lemma TakeOutKey(cr: Suite, preimage: Bytes, sigs: map<Str, Str>, embedded: map<Str, Str>, keys: seq<Bytes>, i: nat)
    returns (rest: seq<Bytes>)
    requires i < |keys|
    ensures |rest| == |keys| - 1 && multiset(keys) == multiset(rest) + multiset{keys[i]}
    ensures multiset(Verifiers(cr, preimage, sigs, embedded, keys)) ==
      multiset(Verifiers(cr, preimage, sigs, embedded, rest)) + multiset(Verifiers(cr, preimage, sigs, embedded, [keys[i]]))
  {
    hide Verifiers;
    rest := keys[..i] + keys[i + 1..];
    RemoveOne(keys, i);
    VerifiersConcat(cr, preimage, sigs, embedded, keys[..i], keys[i + 1..]);
    VerifiersConcat(cr, preimage, sigs, embedded, keys[..i] + [keys[i]], keys[i + 1..]);
    VerifiersConcat(cr, preimage, sigs, embedded, keys[..i], [keys[i]]);
    assert keys == keys[..i] + [keys[i]] + keys[i + 1..];
  }

  lemma {:induction false} VerifiersPermute(cr: Suite, preimage: Bytes, sigs: map<Str, Str>, embedded: map<Str, Str>, a: seq<Bytes>, b: seq<Bytes>)
    requires multiset(a) == multiset(b)
    ensures multiset(Verifiers(cr, preimage, sigs, embedded, a)) == multiset(Verifiers(cr, preimage, sigs, embedded, b))
    decreases |a|
  {
    hide Verifiers;
    assert |multiset(a)| == |multiset(b)|;
    if a == [] {
      assert a == b;
    } else {
      assert a[0] in multiset(a);
      var k :| 0 <= k < |b| && b[k] == a[0];
      var x := TakeOutKey(cr, preimage, sigs, embedded, a, 0);
      var y := TakeOutKey(cr, preimage, sigs, embedded, b, k);
      CancelOne(multiset(x), multiset(y), a[0]);
      VerifiersPermute(cr, preimage, sigs, embedded, x, y);
    }
  }

  /** VerifiedBy is the same list for every permutation of the pinned keys. */
  lemma VerifiedByPermutes(cr: Suite, preimage: Bytes, sigs: map<Str, Str>, embedded: map<Str, Str>, a: seq<Bytes>, b: seq<Bytes>)
    requires multiset(a) == multiset(b)
    ensures Sort(Verifiers(cr, preimage, sigs, embedded, a)) == Sort(Verifiers(cr, preimage, sigs, embedded, b))
  {
    VerifiersPermute(cr, preimage, sigs, embedded, a, b);
    SortCanonical(Verifiers(cr, preimage, sigs, embedded, a), Verifiers(cr, preimage, sigs, embedded, b));
  }

  // ---- order of statements ----

  lemma StatementsWithin(cr: Suite, att: Attestation, keys: seq<Bytes>, small: seq<Option<RevocationList>>, large: seq<Option<RevocationList>>)
    requires Within(small, large)
    ensures SomeUnverifiable(cr, small, keys) ==> SomeUnverifiable(cr, large, keys)
    ensures SomeLists(cr, small, keys, att) ==> SomeLists(cr, large, keys, att)
  {
    hide StatementReason, Lists;
    forall i | 0 <= i < |small|
      ensures exists j :: 0 <= j < |large| && large[j] == small[i]
    {
      assert small[i] in large;
    }
  }

  /** Neither does the order of the revocation statements. */
  lemma StatementOrderIrrelevant(cr: Suite, att: Attestation, keys: seq<Bytes>, at: int,
                                 a: seq<Option<RevocationList>>, b: seq<Option<RevocationList>>)
    requires Within(a, b) && Within(b, a)
    ensures IdentityReason(cr, att, keys, at, a) == IdentityReason(cr, att, keys, at, b)
  {
    hide Anchored, Shape, SomeUnverifiable, SomeLists, KeysReason;
    StatementsWithin(cr, att, keys, a, b);
    StatementsWithin(cr, att, keys, b, a);
  }

  // ---- more keys, more statements ----

  lemma StatementStaysValid(cr: Suite, s: RevocationList, small: seq<Bytes>, large: seq<Bytes>)
    requires Within(small, large)
    ensures StatementReason(cr, s, small).None? ==> StatementReason(cr, s, large).None?
  {
    hide RevocationBytes, AnyVerifies, StatementShape, KeysReason;
    OutcomesWithin(cr, RevocationBytes(s), s.signatures, s.signerKeys, small, large);
    if small != [] {
      assert small[0] in large;
    }
  }

  /** The reasons that pinning another key can change: they say that something was not anchored yet. */
  predicate AwaitsKeys(r: Option<Reason>) {
    r.Some? && r.value in {NoIssuerPinned, NoPinnedIssuerVerified, SignatureInvalid, SignerKeyMismatch, SignerKeyMalformed,
                           SignatureMalformed, RevocationUnverifiable}
  }

  /**
   Pinning more keys, with every statement re-verified under the larger set, leaves Valid valid, and
   leaves every malformed, not-yet-valid, expired and revoked verdict exactly as it was. Only a
   verdict that something was unanchored can move.
   */
  lemma MoreKeys(cr: Suite, att: Attestation, small: seq<Bytes>, large: seq<Bytes>, at: int, revs: seq<Option<RevocationList>>)
    requires Within(small, large)
    ensures AwaitsKeys(IdentityReason(cr, att, small, at, revs))
            || IdentityReason(cr, att, large, at, revs) == IdentityReason(cr, att, small, at, revs)
  {
    hide IdentityBytes, AnyVerifies, Shape, SomeUnverifiable, SomeLists, SomeFails;
    OutcomesWithin(cr, IdentityBytes(att), att.signatures, att.signerKeys, small, large);
    MoreKeysLists(cr, att, revs, small, large);
    if small != [] {
      assert small[0] in large;
    }
  }

  lemma MoreKeysLists(cr: Suite, att: Attestation, revs: seq<Option<RevocationList>>, small: seq<Bytes>, large: seq<Bytes>)
    requires Within(small, large)
    ensures !SomeUnverifiable(cr, revs, small) ==>
      !SomeUnverifiable(cr, revs, large) && SomeLists(cr, revs, small, att) == SomeLists(cr, revs, large, att)
  {
    hide StatementReason, Lists;
    forall i | 0 <= i < |revs| && revs[i].Some?
      ensures StatementReason(cr, revs[i].value, small).None? ==> StatementReason(cr, revs[i].value, large).None?
    {
      StatementStaysValid(cr, revs[i].value, small, large);
    }
  }

  /**
   Supplying more statements never turns an invalid result valid: every verdict but Valid and
   revoked is untouched, revoked stays revoked or becomes unverifiable.
   */
  lemma MoreStatements(cr: Suite, att: Attestation, keys: seq<Bytes>, at: int,
                       small: seq<Option<RevocationList>>, large: seq<Option<RevocationList>>)
    requires Within(small, large)
    ensures var was, now := IdentityReason(cr, att, keys, at, small), IdentityReason(cr, att, keys, at, large);
            && (was.Some? && was != Some(Revoked) ==> now == was)
            && (was == Some(Revoked) ==> now == Some(Revoked) || now == Some(RevocationUnverifiable))
            && (was.None? ==> now.None? || now == Some(Revoked) || now == Some(RevocationUnverifiable))
  {
    hide Anchored, Shape, SomeUnverifiable, SomeLists, KeysReason;
    StatementsWithin(cr, att, keys, small, large);
  }

  // ---- a valid result is a statement an issuer made ----

  function IdentityStatement(a: Attestation): Statement {
    Statement.Identity(a.serial, a.subject, a.principal, a.displayName, a.principalType, a.roles, a.issuedAt, a.expiresAt,
                       a.algorithm, a.issuer)
  }

  /** The role count fits its uint64, as any Go slice length does. */
  predicate RolesSized(a: Attestation) {
    |a.roles| < TWO64
  }

  lemma IdentityEncodable(a: Attestation)
    requires RolesSized(a)
    ensures Encodable(IdentityStatement(a))
  {
  }

  /**
   If no signature is forged, a valid result means a pinned issuer signed this very statement:
   serial, subject, principal, display name, roles in order, window, algorithm and issuer; and
   nothing else it signed reads as an attestation with any of them different.
   */
  lemma ValidWasIssued(cr: Suite, log: SignedLog, a: Attestation, keys: seq<Bytes>, at: int, revs: seq<Option<RevocationList>>)
    returns (key: Bytes)
    requires IdentityReason(cr, a, keys, at, revs).None? && RolesSized(a)
    requires forall k, f :: k in keys && f in a.signatures && cr.unbase64(a.signatures[f]).Some? ==>
      Unforged(cr, log, k, cr.unbase64(a.signatures[f]).value)
    ensures key in keys && (key, Encode(IdentityStatement(a))) in log
    ensures forall b :: RolesSized(b) && Encode(IdentityStatement(b)) == Encode(IdentityStatement(a)) ==>
      IdentityStatement(b) == IdentityStatement(a)
  {
    hide Encode, Shape, LateReason, KeysReason, Encodable;
    var i :| 0 <= i < |keys| && OutcomeOf(cr, IdentityBytes(a), a.signatures, a.signerKeys, keys[i]).Verified?;
    key := keys[i];
    var f := cr.fingerprint(key);
    assert f in a.signatures && cr.verify(key, IdentityBytes(a), cr.unbase64(a.signatures[f]).value);
    assert key in keys;
    assert Unforged(cr, log, key, cr.unbase64(a.signatures[f]).value);
    forall b | RolesSized(b) && Encode(IdentityStatement(b)) == Encode(IdentityStatement(a))
      ensures IdentityStatement(b) == IdentityStatement(a)
    {
      IdentityEncodable(a);
      IdentityEncodable(b);
      PreimagesDisjoint(IdentityStatement(a), IdentityStatement(b));
    }
  }
}
