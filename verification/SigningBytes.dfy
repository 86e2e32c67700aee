/**
 The preimage builders of package protocol in their own form: each writes to a fresh byte buffer
 in order. Each is proved to return the encoding of one statement, so every round trip of module
 Statements holds of what the builders write.
 */
module SigningBytes {
  import opened Bytes
  import opened Framing
  import opened Layouts
  import opened Statements

  lemma AppendOne(base: seq<Token>, p: seq<Token>, k: nat)
    requires k < |p|
    ensures base + p[..k] + [p[k]] == base + p[..k + 1]
  {
  }

  /** The tokens the v2 record builder writes, in the groups it writes them in, are the layout's. */
  lemma RecordV2Tokens(s: Statement, written: seq<Token>)
    requires s.RecordV2? && ParallelLists(s)
    requires written ==
      [Field(TagBytes(RecordV2Tag))]
      + [Word(s.seqNo), Word(Unsigned(s.ts)), Field(s.author), Field(s.kind), Field(s.actionee), Field(s.body)]
      + [Field(s.schema), Field(s.schemaVer), Word(|s.linkHashes|)] + Pairs(s.linkHashes, s.linkRels)
    ensures Encode(s) == Render(written) + s.prevHash
  {
    hide Render, TagBytes, Pairs;
    var d := ToDocument(s);
    assert CountTokens(d) == [Word(|s.linkHashes|)];
    assert written == TokensOf(d);
  }

  lemma IdentityTokens(s: Statement, written: seq<Token>)
    requires s.Identity?
    requires written ==
      [Field(TagBytes(IdentityTag))]
      + [Field(s.serial), Field(s.subject), Field(s.principal), Field(s.displayName), Field(s.principalType)]
      + [Word(|s.roles|)] + Singles(s.roles)
      + [Field(s.issuedAt), Field(s.expiresAt), Field(s.algorithm), Field(s.issuer)]
    ensures Encode(s) == Render(written) + []
  {
    hide Render, TagBytes, Singles;
    var d := ToDocument(s);
    assert CountTokens(d) == [Word(|s.roles|)];
    assert written == TokensOf(d);
  }

  lemma RevocationTokens(s: Statement, written: seq<Token>)
    requires s.Revocation? && ParallelLists(s)
    requires written ==
      [Field(TagBytes(RevocationTag))]
      + [Field(s.issuer), Field(s.statementID), Word(s.number), Field(s.issuedAt), Field(s.nextUpdate)]
      + [Word(|s.serials|)] + Triples(s.serials, s.revokedAt, s.reasons)
    ensures Encode(s) == Render(written) + []
  {
    hide Render, TagBytes, Triples;
    var d := ToDocument(s);
    assert CountTokens(d) == [Word(|s.serials|)];
    assert written == TokensOf(d);
  }

  lemma PairAt(a: seq<Str>, b: seq<Str>, i: nat)
    requires |a| == |b| && i < |a|
    ensures Pairs(a, b)[2 * i] == Field(a[i])
    ensures Pairs(a, b)[2 * i + 1] == Field(b[i])
  {
  }

  lemma TripleAt(a: seq<Str>, b: seq<Str>, c: seq<Str>, i: nat)
    requires |a| == |b| == |c| && i < |a|
    ensures Triples(a, b, c)[3 * i] == Field(a[i])
    ensures Triples(a, b, c)[3 * i + 1] == Field(b[i])
    ensures Triples(a, b, c)[3 * i + 2] == Field(c[i])
  {
  }

  /** bytes.Buffer, with the tokens and the raw tail written so far as ghost state. */
  class Buffer {
    var data: Bytes
    ghost var tokens: seq<Token>
    ghost var tail: Bytes

    ghost predicate Valid()
      reads this
    {
      data == Render(tokens) + tail
    }

    constructor (tag: Bytes)
      ensures Valid() && tokens == [Field(tag)] && tail == []
    {
      data, tokens, tail := [], [], [];
      new;
      WriteField(tag);
    }

    /** writeField: the length as a big-endian uint64, then the bytes. */
    method WriteField(b: Bytes)
      requires Valid() && tail == []
      modifies this
      ensures Valid() && tail == []
      ensures tokens == old(tokens) + [Field(b)]
    {
      RenderSnoc(tokens, Field(b));
      assert data == Render(tokens);
      data := data + RenderToken(Field(b));
      tokens := tokens + [Field(b)];
    }

    /** PutUint64, then Write. */
    method WriteWord(n: nat)
      requires Valid() && tail == []
      modifies this
      ensures Valid() && tail == []
      ensures tokens == old(tokens) + [Word(n)]
    {
      RenderSnoc(tokens, Word(n));
      assert data == Render(tokens);
      data := data + RenderToken(Word(n));
      tokens := tokens + [Word(n)];
    }

    /** PutUint64 of uint64(ts), then Write. */
    method WriteInt64(ts: I64)
      requires Valid() && tail == []
      modifies this
      ensures Valid() && tail == []
      ensures tokens == old(tokens) + [Word(Unsigned(ts))]
    {
      WriteWord(Unsigned(ts));
    }

    /** The link loop of the v2 record layout. */
    method WriteLinks(hashes: seq<Str>, rels: seq<Str>)
      requires Valid() && tail == [] && |hashes| == |rels|
      modifies this
      ensures Valid() && tail == []
      ensures tokens == old(tokens) + Pairs(hashes, rels)
    {
      ghost var p := Pairs(hashes, rels);
      for i := 0 to |hashes|
        invariant Valid() && tail == []
        invariant tokens == old(tokens) + p[..2 * i]
      {
        WriteField(hashes[i]);
        WriteField(rels[i]);
        PairAt(hashes, rels, i);
        AppendOne(old(tokens), p, 2 * i);
        AppendOne(old(tokens), p, 2 * i + 1);
      }
      assert p[..2 * |hashes|] == p;
    }

    /** The role loop of the identity layout. */
    method WriteRoles(roles: seq<Str>)
      requires Valid() && tail == []
      modifies this
      ensures Valid() && tail == []
      ensures tokens == old(tokens) + Singles(roles)
    {
      ghost var p := Singles(roles);
      for i := 0 to |roles|
        invariant Valid() && tail == []
        invariant tokens == old(tokens) + p[..i]
      {
        WriteField(roles[i]);
        AppendOne(old(tokens), p, i);
      }
      assert p[..|roles|] == p;
    }

    /** The entry loop of the revocation layout. */
    method WriteRevoked(serials: seq<Str>, revokedAt: seq<Str>, reasons: seq<Str>)
      requires Valid() && tail == [] && |serials| == |revokedAt| == |reasons|
      modifies this
      ensures Valid() && tail == []
      ensures tokens == old(tokens) + Triples(serials, revokedAt, reasons)
    {
      ghost var p := Triples(serials, revokedAt, reasons);
      for i := 0 to |serials|
        invariant Valid() && tail == []
        invariant tokens == old(tokens) + p[..3 * i]
      {
        WriteField(serials[i]);
        WriteField(revokedAt[i]);
        WriteField(reasons[i]);
        TripleAt(serials, revokedAt, reasons, i);
        AppendOne(old(tokens), p, 3 * i);
        AppendOne(old(tokens), p, 3 * i + 1);
        AppendOne(old(tokens), p, 3 * i + 2);
      }
      assert p[..3 * |serials|] == p;
    }

    /** The six leading writes both record layouts share. */
    method WriteEntry(seqNo: U64, ts: I64, authorID: Str, kind: Str, actionee: Str, body: Str)
      requires Valid() && tail == []
      modifies this
      ensures Valid() && tail == []
      ensures tokens == old(tokens)
                        + [Word(seqNo), Word(Unsigned(ts)), Field(authorID), Field(kind), Field(actionee), Field(body)]
    {
      WriteWord(seqNo);
      WriteInt64(ts);
      WriteField(authorID);
      WriteField(kind);
      WriteField(actionee);
      WriteField(body);
    }

    /** The schema fields and the link count of the v2 record layout. */
    method WriteSchema(schema: Str, schemaVer: Str, links: nat)
      requires Valid() && tail == []
      modifies this
      ensures Valid() && tail == []
      ensures tokens == old(tokens) + [Field(schema), Field(schemaVer), Word(links)]
    {
      WriteField(schema);
      WriteField(schemaVer);
      WriteWord(links);
    }

    /** The five writes that open the identity layout. */
    method WriteSubject(serial: Str, subject: Str, principal: Str, displayName: Str, principalType: Str)
      requires Valid() && tail == []
      modifies this
      ensures Valid() && tail == []
      ensures tokens == old(tokens)
                        + [Field(serial), Field(subject), Field(principal), Field(displayName), Field(principalType)]
    {
      WriteField(serial);
      WriteField(subject);
      WriteField(principal);
      WriteField(displayName);
      WriteField(principalType);
    }

    /** The five writes that open the revocation layout. */
    method WriteStatementHead(issuer: Str, statementID: Str, number: U64, issuedAt: Str, nextUpdate: Str)
      requires Valid() && tail == []
      modifies this
      ensures Valid() && tail == []
      ensures tokens == old(tokens)
                        + [Field(issuer), Field(statementID), Word(number), Field(issuedAt), Field(nextUpdate)]
    {
      WriteField(issuer);
      WriteField(statementID);
      WriteWord(number);
      WriteField(issuedAt);
      WriteField(nextUpdate);
    }

    /** The four writes that close the identity layout. */
    method WriteIssuance(issuedAt: Str, expiresAt: Str, algorithm: Str, issuer: Str)
      requires Valid() && tail == []
      modifies this
      ensures Valid() && tail == []
      ensures tokens == old(tokens) + [Field(issuedAt), Field(expiresAt), Field(algorithm), Field(issuer)]
    {
      WriteField(issuedAt);
      WriteField(expiresAt);
      WriteField(algorithm);
      WriteField(issuer);
    }

    /** A raw, unprefixed write: always the last one. */
    method WriteRaw(b: Bytes)
      requires Valid() && tail == []
      modifies this
      ensures Valid() && tail == b && tokens == old(tokens)
    {
      data := data + b;
      tail := b;
    }
  }

  method SigningBytes(roomID: Str, fromID: Str, epoch: U64, nonce: Bytes, ciphertext: Bytes)
    returns (b: Bytes)
    ensures b == Encode(Message(roomID, fromID, epoch, nonce, ciphertext))
  {
    hide TagBytes, Render;
    var buf := new Buffer(TagBytes(MessageTag));
    buf.WriteField(roomID);
    buf.WriteField(fromID);
    buf.WriteWord(epoch);
    buf.WriteField(nonce);
    buf.WriteField(ciphertext);
    b := buf.data;
    ghost var d := ToDocument(Message(roomID, fromID, epoch, nonce, ciphertext));
    assert buf.tokens == TokensOf(d);
  }

  method RecordSigningBytes(seqNo: U64, ts: I64, authorID: Str, kind: Str, actionee: Str, body: Str, prevHash: Bytes)
    returns (b: Bytes)
    ensures b == Encode(Record(seqNo, ts, authorID, kind, actionee, body, prevHash))
  {
    hide TagBytes, Render;
    var buf := new Buffer(TagBytes(RecordTag));
    buf.WriteEntry(seqNo, ts, authorID, kind, actionee, body);
    buf.WriteRaw(prevHash);
    b := buf.data;
    ghost var d := ToDocument(Record(seqNo, ts, authorID, kind, actionee, body, prevHash));
    assert buf.tokens == TokensOf(d);
  }

  method SealSigningBytes(room: Str, headHash: Bytes)
    returns (b: Bytes)
    ensures b == Encode(Seal(room, headHash))
  {
    hide TagBytes, Render;
    var buf := new Buffer(TagBytes(SealTag));
    buf.WriteField(room);
    buf.WriteRaw(headHash);
    b := buf.data;
    ghost var d := ToDocument(Seal(room, headHash));
    assert buf.tokens == TokensOf(d);
  }

  method SealSigningBytesV2(room: Str, meaning: Str, signerName: Str, signedAt: Str, headHash: Bytes)
    returns (b: Bytes)
    ensures b == Encode(SealV2(room, meaning, signerName, signedAt, headHash))
  {
    hide TagBytes, Render;
    var buf := new Buffer(TagBytes(SealV2Tag));
    buf.WriteField(room);
    buf.WriteField(meaning);
    buf.WriteField(signerName);
    buf.WriteField(signedAt);
    buf.WriteRaw(headHash);
    b := buf.data;
    ghost var d := ToDocument(SealV2(room, meaning, signerName, signedAt, headHash));
    assert buf.tokens == TokensOf(d);
  }

  method ArtifactApprovalSigningBytes(proposalID: Str, artifactHash: Str, approverFpr: Str, nonce: Str)
    returns (b: Bytes)
    ensures b == Encode(ArtifactApproval(proposalID, artifactHash, approverFpr, nonce))
  {
    hide TagBytes, Render;
    var buf := new Buffer(TagBytes(ArtifactTag));
    buf.WriteField(proposalID);
    buf.WriteField(artifactHash);
    buf.WriteField(approverFpr);
    buf.WriteField(nonce);
    b := buf.data;
    ghost var d := ToDocument(ArtifactApproval(proposalID, artifactHash, approverFpr, nonce));
    assert buf.tokens == TokensOf(d);
  }

  method ArtifactApprovalSigningBytesV2(proposalID: Str, artifactHash: Str, approverFpr: Str, nonce: Str, role: Str)
    returns (b: Bytes)
    ensures b == Encode(ArtifactApprovalV2(proposalID, artifactHash, approverFpr, nonce, role))
  {
    hide TagBytes, Render;
    var buf := new Buffer(TagBytes(ArtifactV2Tag));
    buf.WriteField(proposalID);
    buf.WriteField(artifactHash);
    buf.WriteField(approverFpr);
    buf.WriteField(nonce);
    buf.WriteField(role);
    b := buf.data;
    ghost var d := ToDocument(ArtifactApprovalV2(proposalID, artifactHash, approverFpr, nonce, role));
    assert buf.tokens == TokensOf(d);
  }

  method ActionApprovalSigningBytes(requestID: Str, paramsHash: Str, approverFpr: Str, nonce: Str)
    returns (b: Bytes)
    ensures b == Encode(ActionApproval(requestID, paramsHash, approverFpr, nonce))
  {
    hide TagBytes, Render;
    var buf := new Buffer(TagBytes(ActionTag));
    buf.WriteField(requestID);
    buf.WriteField(paramsHash);
    buf.WriteField(approverFpr);
    buf.WriteField(nonce);
    b := buf.data;
    ghost var d := ToDocument(ActionApproval(requestID, paramsHash, approverFpr, nonce));
    assert buf.tokens == TokensOf(d);
  }

  method ActionApprovalSigningBytesV2(requestID: Str, paramsHash: Str, approverFpr: Str, nonce: Str, meaning: Str, name: Str, signedAt: Str)
    returns (b: Bytes)
    ensures b == Encode(ActionApprovalV2(requestID, paramsHash, approverFpr, nonce, meaning, name, signedAt))
  {
    hide TagBytes, Render;
    var buf := new Buffer(TagBytes(ActionV2Tag));
    buf.WriteField(requestID);
    buf.WriteField(paramsHash);
    buf.WriteField(approverFpr);
    buf.WriteField(nonce);
    assert buf.tokens == [Field(TagBytes(ActionV2Tag)), Field(requestID), Field(paramsHash), Field(approverFpr), Field(nonce)];
    buf.WriteField(meaning);
    buf.WriteField(name);
    buf.WriteField(signedAt);
    b := buf.data;
    ghost var d := ToDocument(ActionApprovalV2(requestID, paramsHash, approverFpr, nonce, meaning, name, signedAt));
    assert buf.tokens == TokensOf(d);
  }

  method RosterSigningBytes(room: Str, epoch: U64, setHash: Bytes)
    returns (b: Bytes)
    ensures b == Encode(Roster(room, epoch, setHash))
  {
    hide TagBytes, Render;
    var buf := new Buffer(TagBytes(RosterTag));
    buf.WriteField(room);
    buf.WriteWord(epoch);
    buf.WriteRaw(setHash);
    b := buf.data;
    ghost var d := ToDocument(Roster(room, epoch, setHash));
    assert buf.tokens == TokensOf(d);
  }

  method ScuttleReceiptSigningBytes(receiptHash: Bytes)
    returns (b: Bytes)
    ensures b == Encode(ScuttleReceipt(receiptHash))
  {
    hide TagBytes, Render;
    var buf := new Buffer(TagBytes(ReceiptTag));
    buf.WriteRaw(receiptHash);
    b := buf.data;
    ghost var d := ToDocument(ScuttleReceipt(receiptHash));
    assert buf.tokens == TokensOf(d);
  }

  method AlertSigningBytes(source: Str, severity: Str, kind: Str, summary: Str, ref: Str, ts: I64)
    returns (b: Bytes)
    ensures b == Encode(Alert(source, severity, kind, summary, ref, ts))
  {
    hide TagBytes, Render;
    var buf := new Buffer(TagBytes(AlertTag));
    buf.WriteField(source);
    buf.WriteField(severity);
    buf.WriteField(kind);
    buf.WriteField(summary);
    buf.WriteField(ref);
    buf.WriteInt64(ts);
    b := buf.data;
    ghost var d := ToDocument(Alert(source, severity, kind, summary, ref, ts));
    assert buf.tokens == TokensOf(d);
  }

  method DirectAuthBytes(signerPub: Bytes, signerNonce: Bytes, peerPub: Bytes, peerNonce: Bytes)
    returns (b: Bytes)
    ensures b == Encode(DirectAuth(signerPub, signerNonce, peerPub, peerNonce))
  {
    hide TagBytes, Render;
    var buf := new Buffer(TagBytes(DirectTag));
    buf.WriteField(signerPub);
    buf.WriteField(signerNonce);
    buf.WriteField(peerPub);
    buf.WriteField(peerNonce);
    b := buf.data;
    ghost var d := ToDocument(DirectAuth(signerPub, signerNonce, peerPub, peerNonce));
    assert buf.tokens == TokensOf(d);
  }

  method DuressBeaconSigningBytes(actorFpr: Str, mode: Str, context: Str, issuedAt: Str, nonce: Str)
    returns (b: Bytes)
    ensures b == Encode(DuressBeacon(actorFpr, mode, context, issuedAt, nonce))
  {
    hide TagBytes, Render;
    var buf := new Buffer(TagBytes(DuressTag));
    buf.WriteField(actorFpr);
    buf.WriteField(mode);
    buf.WriteField(context);
    buf.WriteField(issuedAt);
    buf.WriteField(nonce);
    b := buf.data;
    ghost var d := ToDocument(DuressBeacon(actorFpr, mode, context, issuedAt, nonce));
    assert buf.tokens == TokensOf(d);
  }

  method RecordSigningBytesV2(seqNo: U64, ts: I64, authorID: Str, kind: Str, actionee: Str, body: Str,
                              schema: Str, schemaVer: Str, linkHashes: seq<Str>, linkRels: seq<Str>, prevHash: Bytes)
    returns (b: Bytes)
    requires |linkHashes| <= |linkRels|  // a shorter second slice is an index panic
    ensures b == Encode(RecordV2(seqNo, ts, authorID, kind, actionee, body, schema, schemaVer,
                                 linkHashes, linkRels[..|linkHashes|], prevHash))
  {
    hide Encode, Pairs, TagBytes;
    var rels := linkRels[..|linkHashes|];
    var buf := new Buffer(TagBytes(RecordV2Tag));
    buf.WriteEntry(seqNo, ts, authorID, kind, actionee, body);
    buf.WriteSchema(schema, schemaVer, |linkHashes|);
    buf.WriteLinks(linkHashes, rels);
    RecordV2Tokens(RecordV2(seqNo, ts, authorID, kind, actionee, body, schema, schemaVer, linkHashes, rels, prevHash), buf.tokens);
    buf.WriteRaw(prevHash);
    b := buf.data;
  }

  method IdentitySigningBytes(serial: Str, subject: Str, principal: Str, displayName: Str, principalType: Str,
                              roles: seq<Str>, issuedAt: Str, expiresAt: Str, algorithm: Str, issuer: Str)
    returns (b: Bytes)
    ensures b == Encode(Identity(serial, subject, principal, displayName, principalType, roles,
                                 issuedAt, expiresAt, algorithm, issuer))
  {
    hide Encode, Singles, TagBytes;
    var buf := new Buffer(TagBytes(IdentityTag));
    buf.WriteSubject(serial, subject, principal, displayName, principalType);
    buf.WriteWord(|roles|);
    buf.WriteRoles(roles);
    buf.WriteIssuance(issuedAt, expiresAt, algorithm, issuer);
    b := buf.data;
    IdentityTokens(Identity(serial, subject, principal, displayName, principalType, roles, issuedAt, expiresAt, algorithm, issuer),
                   buf.tokens);
  }

  method RevocationSigningBytes(issuer: Str, statementID: Str, number: U64, issuedAt: Str, nextUpdate: Str,
                                serials: seq<Str>, revokedAt: seq<Str>, reasons: seq<Str>)
    returns (b: Bytes)
    requires |serials| <= |revokedAt| && |serials| <= |reasons|  // shorter slices are an index panic
    ensures b == Encode(Revocation(issuer, statementID, number, issuedAt, nextUpdate,
                                   serials, revokedAt[..|serials|], reasons[..|serials|]))
  {
    hide Encode, Triples, TagBytes;
    var buf := new Buffer(TagBytes(RevocationTag));
    buf.WriteStatementHead(issuer, statementID, number, issuedAt, nextUpdate);
    buf.WriteWord(|serials|);
    buf.WriteRevoked(serials, revokedAt[..|serials|], reasons[..|serials|]);
    b := buf.data;
    RevocationTokens(Revocation(issuer, statementID, number, issuedAt, nextUpdate, serials, revokedAt[..|serials|],
                                reasons[..|serials|]), buf.tokens);
  }
}
