/** How an attribution is drawn: which name, in which state, and what a verified state rests on. */
module Display {
  import opened Bytes
  import opened Crypto
  import opened Statements
  import opened Identity
  import opened IdentityVerifier
  import opened IdentityLaws

  datatype State = Asserted | Carried | VerifiedNamed | VerifiedUnnamed

  datatype Shown = Shown(state: State, name: Str, principal: Str, displayName: Str, issuer: Str, roles: seq<Str>,
                         reason: Option<Reason>)

  predicate IsVerified(s: State) {
    s.VerifiedNamed? || s.VerifiedUnnamed?
  }

  /** The artifact in hand is about the key being rendered. */
  predicate Joined(subjectFpr: Str, carried: Attestation) {
    subjectFpr != [] && carried.subject == subjectFpr
  }

  /** What is drawn of an artifact before any result is looked at. */
  function Unchecked(asserted: Str, carried: Option<Attestation>): Shown {
    match carried
    case None => Shown(Carried, asserted, [], [], [], [], None)
    case Some(a) => Shown(Carried, asserted, a.principal, a.displayName, a.issuer, a.roles, None)
  }

  /** IdentityDisplayFor. */
  function ShownFor(asserted: Str, subjectFpr: Str, carried: Option<Attestation>, res: Option<Result>): Shown {
    if carried.None? && res.None? then Shown(Asserted, asserted, [], [], [], [], None)
    else
      var out := Unchecked(asserted, carried);
      if carried.Some? && !Joined(subjectFpr, carried.value) then out.(reason := Some(SubjectMismatch))
      else if res.None? then out
      else
        var r := res.value;
        var out := out.(principal := if r.principal != [] then r.principal else out.principal,
                        issuer := if r.issuer != [] then r.issuer else out.issuer,
                        roles := if r.roles != [] then r.roles else out.roles);
        if !r.valid then out.(reason := r.reason)
        else if r.displayName != [] then out.(state := VerifiedNamed, displayName := r.displayName, name := r.displayName)
        else out.(state := VerifiedUnnamed, displayName := [], name := r.principal)
  }

  method IdentityDisplayFor(asserted: Str, subjectFpr: Str, carried: Option<Attestation>, res: Option<Result>) returns (out: Shown)
    ensures out == ShownFor(asserted, subjectFpr, carried, res)
  {
    out := Shown(Asserted, asserted, [], [], [], [], None);
    if carried.None? && res.None? {
      return;
    }
    if carried.Some? {
      out := out.(principal := carried.value.principal, displayName := carried.value.displayName, issuer := carried.value.issuer);
      out := out.(roles := carried.value.roles);
    }
    out := out.(state := Carried);
    if carried.Some? && (subjectFpr == [] || carried.value.subject != subjectFpr) {
      out := out.(reason := Some(SubjectMismatch));
      return;
    }
    if res.None? {
      return;
    }
    if res.value.principal != [] {
      out := out.(principal := res.value.principal);
    }
    if res.value.issuer != [] {
      out := out.(issuer := res.value.issuer);
    }
    if |res.value.roles| > 0 {
      out := out.(roles := res.value.roles);
    }
    if !res.value.valid {
      out := out.(reason := res.value.reason);
      return;
    }
    out := out.(displayName := res.value.displayName);
    if res.value.displayName != [] {
      out := out.(state := VerifiedNamed, name := res.value.displayName);
      return;
    }
    out := out.(state := VerifiedUnnamed, name := res.value.principal);
  }

  /** IdentityDisplayForBytes: bytes that do not parse are carried, never asserted. */
  function ShownForBytes(parse: Bytes -> Option<Attestation>, asserted: Str, subjectFpr: Str, carried: Bytes, res: Option<Result>): Shown {
    if carried == [] then ShownFor(asserted, subjectFpr, None, res)
    else if parse(carried).None? then Shown(Carried, asserted, [], [], [], [], Some(MalformedArtifact))
    else ShownFor(asserted, subjectFpr, parse(carried), res)
  }

  /**
   The verified states, exactly: a valid result, and the subject join wherever an artifact is
   carried. Everything else draws the asserted name.
   */
  lemma VerifiedExactly(asserted: Str, subjectFpr: Str, carried: Option<Attestation>, res: Option<Result>)
    ensures var out := ShownFor(asserted, subjectFpr, carried, res);
            && (IsVerified(out.state) <==>
                  res.Some? && res.value.valid && (carried.Some? ==> Joined(subjectFpr, carried.value)))
            && (!IsVerified(out.state) ==> out.name == asserted)
            && (out.state.Asserted? <==> carried.None? && res.None?)
  {
  }

  /** Bytes that arrived are never drawn as if none had, and unparsable ones never verify a row, whatever the result says. */
  lemma BytesVerifiedExactly(parse: Bytes -> Option<Attestation>, asserted: Str, subjectFpr: Str, carried: Bytes, res: Option<Result>)
    requires carried != []
    ensures var out := ShownForBytes(parse, asserted, subjectFpr, carried, res);
            && !out.state.Asserted?
            && (IsVerified(out.state) <==>
                  parse(carried).Some? && Joined(subjectFpr, parse(carried).value) && res.Some? && res.value.valid)
            && (!IsVerified(out.state) ==> out.name == asserted)
            && (parse(carried).None? ==> out.reason == Some(MalformedArtifact))
  {
    VerifiedExactly(asserted, subjectFpr, parse(carried), res);
  }

  /** Without a carried artifact no join is made: a valid result verifies a row for any key whatever. */
  lemma NoArtifactNoJoin(asserted: Str, subjectFpr: Str, res: Result)
    requires res.valid && res.subject != subjectFpr
    ensures IsVerified(ShownFor(asserted, subjectFpr, None, Some(res)).state)
  {
  }

  /** res answers for this artifact: what VerifyIdentity promises. */
  ghost predicate ResultFor(cr: Suite, a: Attestation, keys: seq<Bytes>, at: int, revs: seq<Option<RevocationList>>, res: Result) {
    && (res.valid <==> IdentityReason(cr, a, keys, at, revs).None?)
    && res.subject == a.subject && res.principal == a.principal && res.displayName == a.displayName
  }

  /**
   A verified row is a pinned issuer's own words about this key. When an artifact is carried and the
   result is that artifact's, a verified state means its subject is the rendered fingerprint, and
   some pinned issuer signed a statement about exactly that subject in which the drawn name is the
   display name, or the principal where no display name is given. The name is never empty.
   */
  lemma VerifiedNameWasSigned(cr: Suite, log: SignedLog, asserted: Str, subjectFpr: Str, a: Attestation, keys: seq<Bytes>, at: int,
                              revs: seq<Option<RevocationList>>, res: Result)
    returns (key: Bytes)
    requires ResultFor(cr, a, keys, at, revs, res) && RolesSized(a)
    requires forall k, f :: k in keys && f in a.signatures && cr.unbase64(a.signatures[f]).Some? ==>
      Unforged(cr, log, k, cr.unbase64(a.signatures[f]).value)
    requires IsVerified(ShownFor(asserted, subjectFpr, Some(a), Some(res)).state)
    ensures var out := ShownFor(asserted, subjectFpr, Some(a), Some(res));
            && key in keys && (key, Encode(IdentityStatement(a))) in log
            && IdentityStatement(a).subject == subjectFpr
            && out.name == (if IdentityStatement(a).displayName != [] then IdentityStatement(a).displayName
                            else IdentityStatement(a).principal)
            && out.name != []
            && (out.state.VerifiedNamed? <==> a.displayName != [])
  {
    hide Encode, IdentityReason;
    VerifiedExactly(asserted, subjectFpr, Some(a), Some(res));
    key := ValidWasIssued(cr, log, a, keys, at, revs);
    ValidHasPrincipal(cr, a, keys, at, revs);
  }

  lemma ValidHasPrincipal(cr: Suite, a: Attestation, keys: seq<Bytes>, at: int, revs: seq<Option<RevocationList>>)
    requires IdentityReason(cr, a, keys, at, revs).None?
    ensures a.principal != []
  {
  }
}
