/**
 Identity attestations and revocation statements: what the offline verifier decides, as functions
 of the artifact, the pinned keys, the evaluation time and the supplied statements.
 */
module Identity {
  import opened Bytes
  import opened Framing
  import opened Crypto
  import opened Statements

  datatype Reason =
    | NoIssuerPinned | NoPinnedIssuerVerified | NotYetValid | Expired | Revoked
    | UnsupportedVersion | UnsupportedAlgorithm | SubjectMismatch | MalformedArtifact
    | MalformedSerial | MalformedSubject | MalformedPrincipal | MalformedPrincipalType | MalformedRoles
    | MalformedIssuer | MalformedTime | InvertedWindow | IssuerDidNotSign
    | SignerKeyMalformed | SignerKeyMismatch | SignatureMalformed | SignatureInvalid | RevocationUnverifiable

  datatype Class = Unconfigured | Unanchored | Lifecycle | Malformed | Forged

  function ClassOf(r: Reason): Class {
    match r
    case NoIssuerPinned => Unconfigured
    case NoPinnedIssuerVerified => Unanchored
    case NotYetValid => Lifecycle
    case Expired => Lifecycle
    case Revoked => Lifecycle
    case SignatureInvalid => Forged
    case RevocationUnverifiable => Forged
    case _ => Malformed
  }

  datatype Attestation = Attestation(
    version: Str, serial: Wire, subject: Wire, principal: Wire, displayName: Wire, principalType: Wire, roles: seq<Wire>,
    issuedAt: Wire, expiresAt: Wire, algorithm: Wire, issuer: Wire, signatures: map<Str, Str>, signerKeys: map<Str, Str>)

  datatype RevokedSerial = RevokedSerial(serial: Wire, revokedAt: Wire, reason: Wire)

  datatype RevocationList = RevocationList(
    version: Str, issuer: Wire, statementID: Wire, number: U64, issuedAt: Wire, nextUpdate: Wire, revoked: seq<RevokedSerial>,
    signatures: map<Str, Str>, signerKeys: map<Str, Str>)

  function IdentityVersion(): Str { Ascii("v2") }
  function AlgorithmEd25519(): Str { Ascii("ed25519") }
  function RevocationVersion(): Str { Ascii("v1") }
  function FingerprintPrefix(): Str { Ascii("SHA256:") }

  const FINGERPRINT_BODY := 43

  /** "SHA256:" and the unpadded base64 of 32 bytes. */
  predicate IsFingerprint(cr: Suite, s: Str) {
    && |s| == |FingerprintPrefix()| + FINGERPRINT_BODY
    && s[..|FingerprintPrefix()|] == FingerprintPrefix()
    && cr.rawUnbase64(s[|FingerprintPrefix()|..]).Some?
    && |cr.rawUnbase64(s[|FingerprintPrefix()|..]).value| == HASH_SIZE
  }

  /** Non-empty, no empty role, none twice. */
  predicate RolesOk(roles: seq<Str>) {
    && roles != []
    && (forall i :: 0 <= i < |roles| ==> roles[i] != [])
    && (forall i, j :: 0 <= i < j < |roles| ==> roles[i] != roles[j])
  }

  // ---- preimages ----

  function IdentityBytes(a: Attestation): Bytes {
    Encode(Statement.Identity(a.serial, a.subject, a.principal, a.displayName, a.principalType, a.roles, a.issuedAt,
                              a.expiresAt, a.algorithm, a.issuer))
  }

  function Serials(rs: seq<RevokedSerial>): (r: seq<Str>)
    ensures |r| == |rs|
  {
    seq(|rs|, i requires 0 <= i < |rs| => rs[i].serial)
  }

  function Dates(rs: seq<RevokedSerial>): (r: seq<Str>)
    ensures |r| == |rs|
  {
    seq(|rs|, i requires 0 <= i < |rs| => rs[i].revokedAt)
  }

  function Causes(rs: seq<RevokedSerial>): (r: seq<Str>)
    ensures |r| == |rs|
  {
    seq(|rs|, i requires 0 <= i < |rs| => rs[i].reason)
  }

  function RevocationBytes(s: RevocationList): Bytes {
    Encode(Revocation(s.issuer, s.statementID, s.number, s.issuedAt, s.nextUpdate, Serials(s.revoked), Dates(s.revoked),
                      Causes(s.revoked)))
  }

  // ---- one pinned key ----

  datatype Outcome = NotNamed | Failed(reason: Reason) | Verified

  /** What one pinned key contributes: the body of the signature loop, shared by both verifiers. */
  function OutcomeOf(cr: Suite, preimage: Bytes, sigs: map<Str, Str>, embedded: map<Str, Str>, key: Bytes): (o: Outcome)
    ensures o.Failed? ==> o.reason in {SignatureInvalid, SignerKeyMismatch, SignerKeyMalformed, SignatureMalformed}
  {
    var f := cr.fingerprint(key);
    if f !in sigs then NotNamed
    else if f in embedded && (cr.unbase64(embedded[f]).None? || |cr.unbase64(embedded[f]).value| != KEY_SIZE)
      then Failed(SignerKeyMalformed)
    else if f in embedded && cr.fingerprint(cr.unbase64(embedded[f]).value) != f then Failed(SignerKeyMismatch)
    else if cr.unbase64(sigs[f]).None? then Failed(SignatureMalformed)
    else if !cr.verify(key, preimage, cr.unbase64(sigs[f]).value) then Failed(SignatureInvalid)
    else Verified
  }

  // ---- the pinned keys together: what matters is which outcomes occur ----

  predicate AnyVerifies(cr: Suite, preimage: Bytes, sigs: map<Str, Str>, embedded: map<Str, Str>, keys: seq<Bytes>) {
    exists i :: 0 <= i < |keys| && OutcomeOf(cr, preimage, sigs, embedded, keys[i]).Verified?
  }

  predicate SomeFails(cr: Suite, preimage: Bytes, sigs: map<Str, Str>, embedded: map<Str, Str>, keys: seq<Bytes>, r: Reason) {
    exists i :: 0 <= i < |keys| && OutcomeOf(cr, preimage, sigs, embedded, keys[i]) == Failed(r)
  }

  function Severity(r: Reason): nat {
    match r
    case SignatureInvalid => 4
    case SignerKeyMismatch => 3
    case SignerKeyMalformed => 2
    case SignatureMalformed => 1
    case _ => 0
  }

  /** r occurs and nothing that occurs is more severe. */
  ghost predicate MostSevere(cr: Suite, preimage: Bytes, sigs: map<Str, Str>, embedded: map<Str, Str>, keys: seq<Bytes>, r: Reason) {
    && SomeFails(cr, preimage, sigs, embedded, keys, r)
    && forall x :: SomeFails(cr, preimage, sigs, embedded, keys, x) ==> Severity(x) <= Severity(r)
  }

  /** Why no pinned key verified, given that none did: the most severe failure, or that none is named. */
  function KeysReason(cr: Suite, preimage: Bytes, sigs: map<Str, Str>, embedded: map<Str, Str>, keys: seq<Bytes>): Reason {
    if SomeFails(cr, preimage, sigs, embedded, keys, SignatureInvalid) then SignatureInvalid
    else if SomeFails(cr, preimage, sigs, embedded, keys, SignerKeyMismatch) then SignerKeyMismatch
    else if SomeFails(cr, preimage, sigs, embedded, keys, SignerKeyMalformed) then SignerKeyMalformed
    else if SomeFails(cr, preimage, sigs, embedded, keys, SignatureMalformed) then SignatureMalformed
    else NoPinnedIssuerVerified
  }

  /** The fingerprints of the verifying keys, in list order. */
  function Verifiers(cr: Suite, preimage: Bytes, sigs: map<Str, Str>, embedded: map<Str, Str>, keys: seq<Bytes>): seq<Str> {
    if keys == [] then []
    else
      var n := |keys| - 1;
      Verifiers(cr, preimage, sigs, embedded, keys[..n])
      + if OutcomeOf(cr, preimage, sigs, embedded, keys[n]).Verified? then [cr.fingerprint(keys[n])] else []
  }

  // ---- the revocation verifier ----

  predicate Parses(cr: Suite, s: Str) {
    cr.parseTime(s).Some?
  }

  /** The first thing wrong with the listed entries. */
  function EntriesReason(cr: Suite, rs: seq<RevokedSerial>): Option<Reason> {
    if rs == [] then None
    else if rs[0].serial == [] then Some(MalformedSerial)
    else if !Parses(cr, rs[0].revokedAt) then Some(MalformedTime)
    else EntriesReason(cr, rs[1..])
  }

  function StatementShape(cr: Suite, s: RevocationList): Option<Reason> {
    if s.version != RevocationVersion() then Some(UnsupportedVersion)
    else if !IsFingerprint(cr, s.issuer) then Some(MalformedIssuer)
    else if s.statementID == [] then Some(MalformedSerial)
    else if !Parses(cr, s.issuedAt) then Some(MalformedTime)
    else if s.nextUpdate != [] && !Parses(cr, s.nextUpdate) then Some(MalformedTime)
    else if EntriesReason(cr, s.revoked).Some? then EntriesReason(cr, s.revoked)
    else if s.issuer !in s.signatures then Some(IssuerDidNotSign)
    else None
  }

  /** VerifyRevocation's Reason; None is Valid. */
  function StatementReason(cr: Suite, s: RevocationList, keys: seq<Bytes>): Option<Reason> {
    if StatementShape(cr, s).Some? then StatementShape(cr, s)
    else if keys == [] then Some(NoIssuerPinned)
    else if AnyVerifies(cr, RevocationBytes(s), s.signatures, s.signerKeys, keys) then None
    else Some(KeysReason(cr, RevocationBytes(s), s.signatures, s.signerKeys, keys))
  }

  predicate Lists(s: RevocationList, a: Attestation) {
    s.issuer == a.issuer && exists i :: 0 <= i < |s.revoked| && s.revoked[i].serial == a.serial
  }

  /** A supplied statement that does not verify. A nil statement is passed over. */
  predicate SomeUnverifiable(cr: Suite, revs: seq<Option<RevocationList>>, keys: seq<Bytes>) {
    exists i :: 0 <= i < |revs| && revs[i].Some? && StatementReason(cr, revs[i].value, keys).Some?
  }

  predicate SomeLists(cr: Suite, revs: seq<Option<RevocationList>>, keys: seq<Bytes>, a: Attestation) {
    exists i :: 0 <= i < |revs| && revs[i].Some? && StatementReason(cr, revs[i].value, keys).None? && Lists(revs[i].value, a)
  }

  // ---- the identity verifier ----

  /** Steps 1 to 4: version, algorithm, structure, and the named issuer's own signature. */
  function Shape(cr: Suite, a: Attestation): Option<Reason> {
    if a.version != IdentityVersion() then Some(UnsupportedVersion)
    else if a.algorithm != AlgorithmEd25519() then Some(UnsupportedAlgorithm)
    else if a.serial == [] then Some(MalformedSerial)
    else if !IsFingerprint(cr, a.subject) then Some(MalformedSubject)
    else if a.principal == [] then Some(MalformedPrincipal)
    else if a.principalType == [] then Some(MalformedPrincipalType)
    else if !RolesOk(a.roles) then Some(MalformedRoles)
    else if !IsFingerprint(cr, a.issuer) then Some(MalformedIssuer)
    else if !Parses(cr, a.issuedAt) || !Parses(cr, a.expiresAt) then Some(MalformedTime)
    else if cr.parseTime(a.expiresAt).value < cr.parseTime(a.issuedAt).value then Some(InvertedWindow)
    else if a.issuer !in a.signatures then Some(IssuerDidNotSign)
    else None
  }

  predicate Anchored(cr: Suite, a: Attestation, keys: seq<Bytes>) {
    AnyVerifies(cr, IdentityBytes(a), a.signatures, a.signerKeys, keys)
  }

  /** Steps 7 and 8, of a well-shaped, anchored artifact. */
  function LateReason(cr: Suite, a: Attestation, keys: seq<Bytes>, at: int, revs: seq<Option<RevocationList>>): Option<Reason>
    requires Shape(cr, a).None?
  {
    if at < cr.parseTime(a.issuedAt).value then Some(NotYetValid)
    else if at > cr.parseTime(a.expiresAt).value then Some(Expired)
    else if SomeUnverifiable(cr, revs, keys) then Some(RevocationUnverifiable)
    else if SomeLists(cr, revs, keys, a) then Some(Revoked)
    else None
  }

  /** VerifyIdentity's Reason; None is Valid. */
  function IdentityReason(cr: Suite, a: Attestation, keys: seq<Bytes>, at: int, revs: seq<Option<RevocationList>>): Option<Reason> {
    if Shape(cr, a).Some? then Shape(cr, a)
    else if keys == [] then Some(NoIssuerPinned)
    else if !Anchored(cr, a, keys) then Some(KeysReason(cr, IdentityBytes(a), a.signatures, a.signerKeys, keys))
    else LateReason(cr, a, keys, at, revs)
  }

  /** The zero time.Time, which no caller may evaluate at. */
  const ZERO_TIME := 0

  /** The caller supplied an artifact, keys of the right size and a time. */
  predicate Usable(a: Option<Attestation>, keys: seq<Bytes>, at: int) {
    a.Some? && (forall i :: 0 <= i < |keys| ==> |keys[i]| == KEY_SIZE) && at != ZERO_TIME
  }

  // ---- what Valid means, without the order of the steps ----

  /** "SHA256:" followed by 43 bytes that are the unpadded base64 of 32. */
  ghost predicate FingerprintShaped(cr: Suite, s: Str) {
    exists body: Str ::
      && s == Ascii("SHA256:") + body && |body| == 43
      && cr.rawUnbase64(body).Some? && |cr.rawUnbase64(body).value| == 32
  }

  ghost predicate WellFormed(cr: Suite, a: Attestation) {
    && a.version == Ascii("v2") && a.algorithm == Ascii("ed25519")
    && a.serial != [] && a.principal != [] && a.principalType != []
    && FingerprintShaped(cr, a.subject) && FingerprintShaped(cr, a.issuer)
    && a.roles != [] && [] !in a.roles && (forall i, j :: 0 <= i < j < |a.roles| ==> a.roles[i] != a.roles[j])
    && cr.parseTime(a.issuedAt).Some? && cr.parseTime(a.expiresAt).Some?
    && cr.parseTime(a.issuedAt).value <= cr.parseTime(a.expiresAt).value
  }

  /** This key has a decodable signature under its fingerprint that verifies, and any embedded key for it is consistent. */
  ghost predicate VerifiesUnder(cr: Suite, preimage: Bytes, sigs: map<Str, Str>, embedded: map<Str, Str>, key: Bytes) {
    var f := cr.fingerprint(key);
    && f in sigs && cr.unbase64(sigs[f]).Some?
    && cr.verify(key, preimage, cr.unbase64(sigs[f]).value)
    && (f in embedded ==>
          cr.unbase64(embedded[f]).Some? && |cr.unbase64(embedded[f]).value| == KEY_SIZE
          && cr.fingerprint(cr.unbase64(embedded[f]).value) == f)
  }

  ghost predicate SignedByPinned(cr: Suite, a: Attestation, keys: seq<Bytes>) {
    exists i :: 0 <= i < |keys| && VerifiesUnder(cr, IdentityBytes(a), a.signatures, a.signerKeys, keys[i])
  }

  /** A revocation statement the pinned keys vouch for: well formed, entry by entry, signed by its named issuer and by a pinned key. */
  ghost predicate StatementValid(cr: Suite, s: RevocationList, keys: seq<Bytes>) {
    && s.version == Ascii("v1") && FingerprintShaped(cr, s.issuer) && s.statementID != []
    && cr.parseTime(s.issuedAt).Some? && (s.nextUpdate == [] || cr.parseTime(s.nextUpdate).Some?)
    && (forall i :: 0 <= i < |s.revoked| ==> s.revoked[i].serial != [] && cr.parseTime(s.revoked[i].revokedAt).Some?)
    && s.issuer in s.signatures
    && exists i :: 0 <= i < |keys| && VerifiesUnder(cr, RevocationBytes(s), s.signatures, s.signerKeys, keys[i])
  }

  /** The statement is by the attestation's issuer and one of its entries is the attestation's serial. */
  ghost predicate Withdraws(s: RevocationList, a: Attestation) {
    s.issuer == a.issuer && exists r :: r in s.revoked && r.serial == a.serial
  }

  ghost predicate ValidAt(cr: Suite, a: Attestation, keys: seq<Bytes>, at: int, revs: seq<Option<RevocationList>>) {
    && WellFormed(cr, a)
    && a.issuer in a.signatures
    && SignedByPinned(cr, a, keys)
    && cr.parseTime(a.issuedAt).value <= at <= cr.parseTime(a.expiresAt).value
    && (forall i :: 0 <= i < |revs| && revs[i].Some? ==>
          StatementValid(cr, revs[i].value, keys) && !Withdraws(revs[i].value, a))
  }
}
