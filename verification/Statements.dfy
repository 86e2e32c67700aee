/**
 Every statement Netherchat signs, its encoding, and its decoder. The round trips here are what
 the protocol proofs rest on: a signature over one statement covers no other statement of any kind.
 */
module Statements {
  import opened Bytes
  import opened Framing
  import opened Layouts

  datatype Statement =
    | Message(room: Str, from: Str, epoch: U64, nonce: Bytes, ciphertext: Bytes)
    | Record(seqNo: U64, ts: I64, author: Str, kind: Str, actionee: Str, body: Str, prevHash: Bytes)
    | RecordV2(seqNo: U64, ts: I64, author: Str, kind: Str, actionee: Str, body: Str, schema: Str,
               schemaVer: Str, linkHashes: seq<Str>, linkRels: seq<Str>, prevHash: Bytes)
    | Seal(room: Str, headHash: Bytes)
    | SealV2(room: Str, meaning: Str, signerName: Str, signedAt: Str, headHash: Bytes)
    | Identity(serial: Str, subject: Str, principal: Str, displayName: Str, principalType: Str,
               roles: seq<Str>, issuedAt: Str, expiresAt: Str, algorithm: Str, issuer: Str)
    | Revocation(issuer: Str, statementID: Str, number: U64, issuedAt: Str, nextUpdate: Str,
                 serials: seq<Str>, revokedAt: seq<Str>, reasons: seq<Str>)
    | ArtifactApproval(proposalID: Str, artifactHash: Str, approver: Str, proposalNonce: Str)
    | ArtifactApprovalV2(proposalID: Str, artifactHash: Str, approver: Str, proposalNonce: Str, role: Str)
    | ActionApproval(requestID: Str, paramsHash: Str, approver: Str, requestNonce: Str)
    | ActionApprovalV2(requestID: Str, paramsHash: Str, approver: Str, requestNonce: Str,
                       meaning: Str, name: Str, signedAt: Str)
    | Roster(room: Str, epoch: U64, setHash: Bytes)
    | ScuttleReceipt(receiptHash: Bytes)
    | Alert(source: Str, severity: Str, alertKind: Str, summary: Str, ref: Str, ts: I64)
    | DirectAuth(signerPub: Bytes, signerNonce: Bytes, peerPub: Bytes, peerNonce: Bytes)
    | DuressBeacon(actor: Str, mode: Str, context: Str, issuedAt: Str, beaconNonce: Str)

  /** uint64(ts) of an int64: two's complement. */
  function Unsigned(ts: I64): (n: nat)
    ensures n < TWO64
  {
    ts % TWO64
  }

  function Signed(n: nat): (ts: I64)
    requires n < TWO64
    ensures Unsigned(ts) == n
  {
    if n < TWO63 then n else n - TWO64
  }

  lemma SignedUnsigned(ts: I64)
    ensures Signed(Unsigned(ts)) == ts
  {
  }

  // ---- counted lists, flattened the way the write loops emit them ----

  function Singles(a: seq<Str>): (r: seq<Token>)
    ensures |r| == |a|
  {
    seq(|a|, j requires 0 <= j < |a| => Field(a[j]))
  }

  function Pairs(a: seq<Str>, b: seq<Str>): (r: seq<Token>)
    requires |a| == |b|
    ensures |r| == 2 * |a|
  {
    seq(2 * |a|, j requires 0 <= j < 2 * |a| => Field(if j % 2 == 0 then a[j / 2] else b[j / 2]))
  }

  function Triples(a: seq<Str>, b: seq<Str>, c: seq<Str>): (r: seq<Token>)
    requires |a| == |b| == |c|
    ensures |r| == 3 * |a|
  {
    seq(3 * |a|, j requires 0 <= j < 3 * |a| =>
      Field(if j % 3 == 0 then a[j / 3] else if j % 3 == 1 then b[j / 3] else c[j / 3]))
  }

  /** The bytes of the i-th token, or nothing when it is not a field. */
  function F(ts: seq<Token>, i: nat): (b: Bytes) {
    if i < |ts| && ts[i].Field? then ts[i].bytes else []
  }

  /** The value of the i-th token, or 0 when it is not a word. */
  function N(ts: seq<Token>, i: nat): (n: U64) {
    if i < |ts| && ts[i].Word? && ts[i].n < TWO64 then ts[i].n else 0
  }

  /** Column i of a flattened list of k-tuples. */
  function Column(items: seq<Token>, k: nat, i: nat): (r: seq<Str>)
    requires k > 0
    ensures |r| == |items| / k
  {
    seq(|items| / k, j requires 0 <= j < |items| / k => F(items, k * j + i))
  }

  // ---- statements as documents ----

  function ToDocument(s: Statement): (d: Document)
    requires ParallelLists(s)
  {
    match s
    case Message(room, from, epoch, nonce, ct) =>
      Document(MessageTag, [Field(room), Field(from), Word(epoch), Field(nonce), Field(ct)], [], [], [])
    case Record(n, ts, author, kind, actionee, body, prev) =>
      Document(RecordTag, [Word(n), Word(Unsigned(ts)), Field(author), Field(kind), Field(actionee), Field(body)],
               [], [], prev)
    case RecordV2(n, ts, author, kind, actionee, body, schema, ver, hashes, rels, prev) =>
      Document(RecordV2Tag,
               [Word(n), Word(Unsigned(ts)), Field(author), Field(kind), Field(actionee), Field(body),
                Field(schema), Field(ver)], Pairs(hashes, rels), [], prev)
    case Seal(room, head) => Document(SealTag, [Field(room)], [], [], head)
    case SealV2(room, meaning, name, at, head) =>
      Document(SealV2Tag, [Field(room), Field(meaning), Field(name), Field(at)], [], [], head)
    case Identity(serial, subject, principal, display, ptype, roles, issuedAt, expiresAt, alg, issuer) =>
      Document(IdentityTag, [Field(serial), Field(subject), Field(principal), Field(display), Field(ptype)],
               Singles(roles), [Field(issuedAt), Field(expiresAt), Field(alg), Field(issuer)], [])
    case Revocation(issuer, id, number, issuedAt, next, serials, revokedAt, reasons) =>
      Document(RevocationTag, [Field(issuer), Field(id), Word(number), Field(issuedAt), Field(next)],
               Triples(serials, revokedAt, reasons), [], [])
    case ArtifactApproval(id, hash, approver, nonce) =>
      Document(ArtifactTag, [Field(id), Field(hash), Field(approver), Field(nonce)], [], [], [])
    case ArtifactApprovalV2(id, hash, approver, nonce, role) =>
      Document(ArtifactV2Tag, [Field(id), Field(hash), Field(approver), Field(nonce), Field(role)], [], [], [])
    case ActionApproval(id, hash, approver, nonce) =>
      Document(ActionTag, [Field(id), Field(hash), Field(approver), Field(nonce)], [], [], [])
    case ActionApprovalV2(id, hash, approver, nonce, meaning, name, at) =>
      Document(ActionV2Tag,
               [Field(id), Field(hash), Field(approver), Field(nonce), Field(meaning), Field(name), Field(at)],
               [], [], [])
    case Roster(room, epoch, hash) => Document(RosterTag, [Field(room), Word(epoch)], [], [], hash)
    case ScuttleReceipt(hash) => Document(ReceiptTag, [], [], [], hash)
    case Alert(source, severity, kind, summary, ref, ts) =>
      Document(AlertTag,
               [Field(source), Field(severity), Field(kind), Field(summary), Field(ref), Word(Unsigned(ts))],
               [], [], [])
    case DirectAuth(pub, nonce, peer, peerNonce) =>
      Document(DirectTag, [Field(pub), Field(nonce), Field(peer), Field(peerNonce)], [], [], [])
    case DuressBeacon(actor, mode, context, at, nonce) =>
      Document(DuressTag, [Field(actor), Field(mode), Field(context), Field(at), Field(nonce)], [], [], [])
  }

  /** The parallel slices of a counted list have one length. */
  predicate ParallelLists(s: Statement) {
    match s
    case RecordV2(_, _, _, _, _, _, _, _, hashes, rels, _) => |hashes| == |rels|
    case Revocation(_, _, _, _, _, serials, revokedAt, reasons) => |serials| == |revokedAt| == |reasons|
    case _ => true
  }

  /** Every field and list is short enough for its uint64 length: true of any Go value. */
  predicate Sized(s: Statement)
    requires ParallelLists(s)
  {
    var d := ToDocument(s);
    && AllFit(d.before) && AllFit(d.items) && AllFit(d.after)
    && (s.RecordV2? ==> |s.linkHashes| < TWO64)
    && (s.Identity? ==> |s.roles| < TWO64)
    && (s.Revocation? ==> |s.serials| < TWO64)
  }

  predicate Encodable(s: Statement) {
    ParallelLists(s) && Sized(s)
  }

  function Encode(s: Statement): (b: Bytes)
    requires ParallelLists(s)
  {
    EncodeDocument(ToDocument(s))
  }

  function FromDocument(d: Document): (s: Statement) {
    var b := d.before;
    match d.tag
    case MessageTag => Message(F(b, 0), F(b, 1), N(b, 2), F(b, 3), F(b, 4))
    case RecordTag => Record(N(b, 0), Signed(N(b, 1)), F(b, 2), F(b, 3), F(b, 4), F(b, 5), d.tail)
    case RecordV2Tag =>
      RecordV2(N(b, 0), Signed(N(b, 1)), F(b, 2), F(b, 3), F(b, 4), F(b, 5), F(b, 6), F(b, 7),
               Column(d.items, 2, 0), Column(d.items, 2, 1), d.tail)
    case SealTag => Seal(F(b, 0), d.tail)
    case SealV2Tag => SealV2(F(b, 0), F(b, 1), F(b, 2), F(b, 3), d.tail)
    case IdentityTag =>
      Identity(F(b, 0), F(b, 1), F(b, 2), F(b, 3), F(b, 4), Column(d.items, 1, 0),
               F(d.after, 0), F(d.after, 1), F(d.after, 2), F(d.after, 3))
    case RevocationTag =>
      Revocation(F(b, 0), F(b, 1), N(b, 2), F(b, 3), F(b, 4),
                 Column(d.items, 3, 0), Column(d.items, 3, 1), Column(d.items, 3, 2))
    case ArtifactTag => ArtifactApproval(F(b, 0), F(b, 1), F(b, 2), F(b, 3))
    case ArtifactV2Tag => ArtifactApprovalV2(F(b, 0), F(b, 1), F(b, 2), F(b, 3), F(b, 4))
    case ActionTag => ActionApproval(F(b, 0), F(b, 1), F(b, 2), F(b, 3))
    case ActionV2Tag => ActionApprovalV2(F(b, 0), F(b, 1), F(b, 2), F(b, 3), F(b, 4), F(b, 5), F(b, 6))
    case RosterTag => Roster(F(b, 0), N(b, 1), d.tail)
    case ReceiptTag => ScuttleReceipt(d.tail)
    case AlertTag => Alert(F(b, 0), F(b, 1), F(b, 2), F(b, 3), F(b, 4), Signed(N(b, 5)))
    case DirectTag => DirectAuth(F(b, 0), F(b, 1), F(b, 2), F(b, 3))
    case DuressTag => DuressBeacon(F(b, 0), F(b, 1), F(b, 2), F(b, 3), F(b, 4))
  }

  function Decode(b: Bytes): (r: Option<Statement>) {
    match DecodeDocument(b)
    case None => None
    case Some(d) => Some(FromDocument(d))
  }

  lemma PairsColumns(a: seq<Str>, b: seq<Str>)
    requires |a| == |b|
    ensures Column(Pairs(a, b), 2, 0) == a && Column(Pairs(a, b), 2, 1) == b
  {
  }

  lemma TriplesColumns(a: seq<Str>, b: seq<Str>, c: seq<Str>)
    requires |a| == |b| == |c|
    ensures Column(Triples(a, b, c), 3, 0) == a
    ensures Column(Triples(a, b, c), 3, 1) == b
    ensures Column(Triples(a, b, c), 3, 2) == c
  {
  }

  lemma FromToListed(s: Statement)
    requires Encodable(s) && (s.RecordV2? || s.Revocation? || s.Identity?)
    ensures FromDocument(ToDocument(s)) == s
  {
    match s
    case RecordV2(_, ts, _, _, _, _, _, _, hashes, rels, _) =>
      PairsColumns(hashes, rels);
      SignedUnsigned(ts);
    case Revocation(_, _, _, _, _, serials, revokedAt, reasons) =>
      TriplesColumns(serials, revokedAt, reasons);
    case Identity(_, _, _, _, _, roles, _, _, _, _) =>
      assert Column(Singles(roles), 1, 0) == roles;
  }

  lemma FromToTailed(s: Statement)
    requires Encodable(s)
    requires s.Record? || s.Seal? || s.SealV2? || s.Roster? || s.ScuttleReceipt? || s.Message?
    ensures FromDocument(ToDocument(s)) == s
  {
    if s.Record? {
      SignedUnsigned(s.ts);
    }
  }

  lemma FromToFlat(s: Statement)
    requires Encodable(s)
    requires s.ArtifactApproval? || s.ArtifactApprovalV2? || s.ActionApproval? || s.ActionApprovalV2?
             || s.Alert? || s.DirectAuth? || s.DuressBeacon?
    ensures FromDocument(ToDocument(s)) == s
  {
    if s.Alert? {
      SignedUnsigned(s.ts);
    }
  }

  lemma FromToDocument(s: Statement)
    requires Encodable(s)
    ensures FromDocument(ToDocument(s)) == s
  {
    if s.RecordV2? || s.Revocation? || s.Identity? {
      FromToListed(s);
    } else if s.Record? || s.Seal? || s.SealV2? || s.Roster? || s.ScuttleReceipt? || s.Message? {
      FromToTailed(s);
    } else {
      FromToFlat(s);
    }
  }

  lemma ListedShaped(s: Statement)
    requires Encodable(s) && (s.RecordV2? || s.Revocation? || s.Identity?)
    ensures Shaped(ToDocument(s))
  {
    var d := ToDocument(s);
    assert SlotsOf(d.items) == Fields(|d.items|);
    assert SlotsOf(d.before) == ShapeOf(d.tag).before;
    assert SlotsOf(d.after) == ShapeOf(d.tag).after;
  }

  lemma TailedShaped(s: Statement)
    requires Encodable(s)
    requires s.Record? || s.Seal? || s.SealV2? || s.Roster? || s.ScuttleReceipt? || s.Message?
    ensures Shaped(ToDocument(s))
  {
    var d := ToDocument(s);
    assert SlotsOf(d.items) == Fields(0) && SlotsOf(d.after) == [];
    assert SlotsOf(d.before) == ShapeOf(d.tag).before;
  }

  lemma FlatShaped(s: Statement)
    requires Encodable(s)
    requires s.ArtifactApproval? || s.ArtifactApprovalV2? || s.ActionApproval? || s.ActionApprovalV2?
             || s.Alert? || s.DirectAuth? || s.DuressBeacon?
    ensures Shaped(ToDocument(s))
  {
    var d := ToDocument(s);
    assert SlotsOf(d.items) == Fields(0) && SlotsOf(d.after) == [];
    assert SlotsOf(d.before) == ShapeOf(d.tag).before;
  }

  lemma ToDocumentShaped(s: Statement)
    requires Encodable(s)
    ensures Shaped(ToDocument(s))
  {
    hide Shaped, ToDocument;
    if s.RecordV2? || s.Revocation? || s.Identity? {
      ListedShaped(s);
    } else if s.Record? || s.Seal? || s.SealV2? || s.Roster? || s.ScuttleReceipt? || s.Message? {
      TailedShaped(s);
    } else {
      FlatShaped(s);
    }
  }

  /** Every layout is invertible: decoding a statement's preimage recovers every one of its fields. */
  lemma DecodeEncode(s: Statement)
    requires Encodable(s)
    ensures Decode(Encode(s)) == Some(s)
  {
    ToDocumentShaped(s);
    DecodeEncodeDocument(ToDocument(s));
    FromToDocument(s);
  }

  /**
   No two different statements share a preimage, whatever their kinds and versions: a signature
   over one can never be read as a signature over another.
   */
  lemma PreimagesDisjoint(s: Statement, t: Statement)
    requires Encodable(s) && Encodable(t)
    ensures Encode(s) == Encode(t) <==> s == t
  {
    DecodeEncode(s);
    DecodeEncode(t);
  }

  // ---- the image: exactly the byte strings the decoder accepts ----

  lemma SlotKinds(ts: seq<Token>, slots: seq<Slot>)
    requires SlotsOf(ts) == slots && AllFit(ts)
    ensures |ts| == |slots|
    ensures forall i :: 0 <= i < |ts| ==>
      if slots[i] == FieldSlot then ts[i] == Field(F(ts, i)) else ts[i] == Word(N(ts, i))
  {
    forall i | 0 <= i < |ts|
      ensures if slots[i] == FieldSlot then ts[i] == Field(F(ts, i)) else ts[i] == Word(N(ts, i))
    {
      assert SlotsOf(ts)[i] == SlotOf(ts[i]) && ts[i] in ts;
    }
  }

  lemma PairsRebuild(items: seq<Token>)
    requires SlotsOf(items) == Fields(|items|) && AllFit(items) && |items| % 2 == 0
    ensures Pairs(Column(items, 2, 0), Column(items, 2, 1)) == items
  {
    SlotKinds(items, Fields(|items|));
    var p := Pairs(Column(items, 2, 0), Column(items, 2, 1));
    forall j | 0 <= j < |items|
      ensures p[j] == items[j]
    {
      assert j == 2 * (j / 2) + j % 2;
    }
  }

  lemma TriplesRebuild(items: seq<Token>)
    requires SlotsOf(items) == Fields(|items|) && AllFit(items) && |items| % 3 == 0
    ensures Triples(Column(items, 3, 0), Column(items, 3, 1), Column(items, 3, 2)) == items
  {
    SlotKinds(items, Fields(|items|));
    var p := Triples(Column(items, 3, 0), Column(items, 3, 1), Column(items, 3, 2));
    forall j | 0 <= j < |items|
      ensures p[j] == items[j]
    {
      assert j == 3 * (j / 3) + j % 3;
    }
  }

  lemma SinglesRebuild(items: seq<Token>)
    requires SlotsOf(items) == Fields(|items|) && AllFit(items)
    ensures Singles(Column(items, 1, 0)) == items
  {
    SlotKinds(items, Fields(|items|));
  }

  lemma ToFromRecordV2(d: Document)
    requires Shaped(d) && d.tag.RecordV2Tag?
    ensures Encodable(FromDocument(d)) && ToDocument(FromDocument(d)) == d
  {
    SlotKinds(d.before, ShapeOf(d.tag).before);
    SlotKinds(d.after, ShapeOf(d.tag).after);
    PairsRebuild(d.items);
    assert ToDocument(FromDocument(d)).before == d.before;
    assert ToDocument(FromDocument(d)).after == d.after;
  }

  lemma ToFromRevocation(d: Document)
    requires Shaped(d) && d.tag.RevocationTag?
    ensures Encodable(FromDocument(d)) && ToDocument(FromDocument(d)) == d
  {
    SlotKinds(d.before, ShapeOf(d.tag).before);
    SlotKinds(d.after, ShapeOf(d.tag).after);
    TriplesRebuild(d.items);
    assert ToDocument(FromDocument(d)).before == d.before;
    assert ToDocument(FromDocument(d)).after == d.after;
  }

  lemma ToFromIdentity(d: Document)
    requires Shaped(d) && d.tag.IdentityTag?
    ensures Encodable(FromDocument(d)) && ToDocument(FromDocument(d)) == d
  {
    SlotKinds(d.before, ShapeOf(d.tag).before);
    SlotKinds(d.after, ShapeOf(d.tag).after);
    SinglesRebuild(d.items);
    assert ToDocument(FromDocument(d)).before == d.before;
    assert ToDocument(FromDocument(d)).after == d.after;
  }

  lemma ToFromTailed(d: Document)
    requires Shaped(d)
    requires d.tag.RecordTag? || d.tag.SealTag? || d.tag.SealV2Tag? || d.tag.RosterTag? || d.tag.ReceiptTag?
             || d.tag.MessageTag?
    ensures Encodable(FromDocument(d)) && ToDocument(FromDocument(d)) == d
  {
    SlotKinds(d.before, ShapeOf(d.tag).before);
    assert ToDocument(FromDocument(d)).before == d.before;
  }

  lemma ToFromApproval(d: Document)
    requires Shaped(d)
    requires d.tag.ArtifactTag? || d.tag.ArtifactV2Tag? || d.tag.ActionTag? || d.tag.ActionV2Tag?
    ensures Encodable(FromDocument(d)) && ToDocument(FromDocument(d)) == d
  {
    SlotKinds(d.before, ShapeOf(d.tag).before);
    assert ToDocument(FromDocument(d)).before == d.before;
  }

  lemma ToFromFlat(d: Document)
    requires Shaped(d) && (d.tag.AlertTag? || d.tag.DirectTag? || d.tag.DuressTag?)
    ensures Encodable(FromDocument(d)) && ToDocument(FromDocument(d)) == d
  {
    SlotKinds(d.before, ShapeOf(d.tag).before);
    assert ToDocument(FromDocument(d)).before == d.before;
  }

  lemma ToFromDocument(d: Document)
    requires Shaped(d)
    ensures Encodable(FromDocument(d)) && ToDocument(FromDocument(d)) == d
  {
    hide Shaped, ToDocument, FromDocument, Encodable;
    match d.tag
    case RecordV2Tag => ToFromRecordV2(d);
    case RevocationTag => ToFromRevocation(d);
    case IdentityTag => ToFromIdentity(d);
    case RecordTag => ToFromTailed(d);
    case SealTag => ToFromTailed(d);
    case SealV2Tag => ToFromTailed(d);
    case RosterTag => ToFromTailed(d);
    case ReceiptTag => ToFromTailed(d);
    case MessageTag => ToFromTailed(d);
    case AlertTag => ToFromFlat(d);
    case DirectTag => ToFromFlat(d);
    case DuressTag => ToFromFlat(d);
    case _ => ToFromApproval(d);
  }

  /** A byte string decodes exactly when it is some statement's preimage, and to that statement. */
  lemma DecodeExact(b: Bytes, s: Statement)
    ensures Decode(b) == Some(s) <==> Encodable(s) && Encode(s) == b
  {
    if Encodable(s) && Encode(s) == b {
      DecodeEncode(s);
    }
    if Decode(b) == Some(s) {
      EncodeDecodeDocument(b);
      ToFromDocument(DecodeDocument(b).value);
    }
  }
}
