/** The hash-chained record: entries, their canonical bytes, and the chain a client keeps. */
module Records {
  import opened Bytes
  import opened Framing
  import opened Crypto
  import opened Statements

  datatype Link = Link(hash: Wire, rel: Wire)

  /** record.Entry. */
  datatype Entry = Entry(
    seqNo: U64, ts: I64, authorID: Wire, authorName: Str, authorKey: Bytes, kind: Wire, actionee: Wire, body: Wire,
    prevHash: Bytes, sig: Bytes, schema: Wire, schemaVer: Wire, links: seq<Link>, replayed: bool)

  function KindDecision(): Wire { Ascii("decision") }
  function KindAction(): Wire { Ascii("action") }
  function KindNote(): Wire { Ascii("note") }
  function KindArtifact(): Wire { Ascii("artifact") }
  function KindTyped(): Wire { Ascii("typed") }

  predicate BuiltIn(kind: Wire) {
    kind == KindDecision() || kind == KindAction() || kind == KindNote() || kind == KindArtifact()
  }

  predicate Extended(e: Entry) {
    e.kind == KindTyped() || e.schema != [] || e.schemaVer != [] || e.links != []
  }

  function LinkHashes(links: seq<Link>): (r: seq<Str>)
    ensures |r| == |links|
  {
    seq(|links|, i requires 0 <= i < |links| => links[i].hash)
  }

  function LinkRels(links: seq<Link>): (r: seq<Str>)
    ensures |r| == |links|
  {
    seq(|links|, i requires 0 <= i < |links| => links[i].rel)
  }

  /** The statement an entry's signature covers: its layout is a function of its content. */
  function StatementOf(e: Entry): (s: Statement)
    ensures ParallelLists(s)
  {
    if !Extended(e) then Record(e.seqNo, e.ts, e.authorID, e.kind, e.actionee, e.body, e.prevHash)
    else RecordV2(e.seqNo, e.ts, e.authorID, e.kind, e.actionee, e.body, e.schema, e.schemaVer,
                  LinkHashes(e.links), LinkRels(e.links), e.prevHash)
  }

  function Canonical(e: Entry): Bytes {
    Encode(StatementOf(e))
  }

  /** Everything the signature covers; name, key, signature and replay flag are outside it. */
  function SignedPart(e: Entry): Entry {
    e.(authorName := [], authorKey := [], sig := [], replayed := false)
  }

  /** The link count fits the uint64 that states it, as any Go slice length does. */
  predicate LinksSized(e: Entry) {
    |e.links| < TWO64
  }

  lemma StatementEncodable(e: Entry)
    requires LinksSized(e)
    ensures Encodable(StatementOf(e))
  {
    if Extended(e) {
      var p := Pairs(LinkHashes(e.links), LinkRels(e.links));
      forall t | t in p
        ensures Fits(t)
      {
        var j :| 0 <= j < |p| && p[j] == t;
        var l := e.links[j / 2];
        assert t == Field(if j % 2 == 0 then l.hash else l.rel);
      }
    }
  }

  /** Equal canonical bytes mean equal signed content, across both layouts. */
  lemma CanonicalDetermines(a: Entry, b: Entry)
    requires LinksSized(a) && LinksSized(b) && Canonical(a) == Canonical(b)
    ensures SignedPart(a) == SignedPart(b)
  {
    StatementEncodable(a);
    StatementEncodable(b);
    PreimagesDisjoint(StatementOf(a), StatementOf(b));
    StatementDetermines(a, b);
  }

  lemma StatementDetermines(a: Entry, b: Entry)
    requires StatementOf(a) == StatementOf(b)
    ensures SignedPart(a) == SignedPart(b)
  {
    if Extended(a) {
      assert LinkHashes(a.links) == LinkHashes(b.links) && LinkRels(a.links) == LinkRels(b.links);
      forall i | 0 <= i < |a.links|
        ensures a.links[i] == b.links[i]
      {
        assert LinkHashes(a.links)[i] == LinkHashes(b.links)[i] && LinkRels(a.links)[i] == LinkRels(b.links)[i];
      }
      assert |a.links| == |LinkHashes(a.links)| == |b.links|;
      assert a.links == b.links;
    }
  }

  // ---- chains ----

  function ZeroHash(): Digest {
    seq(32, _ => 0)
  }

  function HashOf(cr: Suite, e: Entry): Digest {
    cr.hash(Canonical(e))
  }

  function Head(cr: Suite, entries: seq<Entry>): Digest {
    if entries == [] then ZeroHash() else HashOf(cr, entries[|entries| - 1])
  }

  /** VerifyEntry. */
  predicate EntryVerifies(cr: Suite, e: Entry) {
    && |e.authorKey| == KEY_SIZE
    && cr.fingerprint(e.authorKey) == e.authorID
    && (if BuiltIn(e.kind) then e.schema == [] && e.schemaVer == [] else e.kind == KindTyped() && e.schema != [])
    && (forall i :: 0 <= i < |e.links| ==> e.links[i].hash != [])
    && |e.prevHash| == HASH_SIZE
    && cr.verify(e.authorKey, Canonical(e), e.sig)
  }

  /** The entry continues the chain: its position and its link. */
  predicate Continues(cr: Suite, entries: seq<Entry>, e: Entry) {
    e.seqNo == |entries| && e.prevHash == Head(cr, entries)
  }

  /** The walk of Verify: every entry continues what is before it and verifies. */
  predicate ChainVerifies(cr: Suite, entries: seq<Entry>) {
    forall i :: 0 <= i < |entries| ==> Continues(cr, entries[..i], entries[i]) && EntryVerifies(cr, entries[i])
  }

  predicate Linked(cr: Suite, entries: seq<Entry>) {
    forall i :: 0 <= i < |entries| ==> Continues(cr, entries[..i], entries[i]) && LinksSized(entries[i])
  }

  lemma ChainExtends(cr: Suite, entries: seq<Entry>, e: Entry)
    requires ChainVerifies(cr, entries)
    ensures ChainVerifies(cr, entries + [e]) <==> Continues(cr, entries, e) && EntryVerifies(cr, e)
  {
    hide Canonical, EntryVerifies;
    var all := entries + [e];
    assert all[..|entries|] == entries && all[|entries|] == e;
    forall i | 0 <= i < |entries|
      ensures all[..i] == entries[..i] && all[i] == entries[i]
    {
    }
  }

  /**
   A signature over a chain head commits to the whole chain: two linked chains with one head have
   the same length and the same signed content entry by entry, or two different canonical byte
   strings share a SHA-256 digest.
   */
  lemma {:induction false} HeadCommits(cr: Suite, xs: seq<Entry>, ys: seq<Entry>)
    requires Linked(cr, xs) && Linked(cr, ys) && xs != [] && ys != []
    requires Head(cr, xs) == Head(cr, ys)
    ensures (|xs| == |ys| && forall i :: 0 <= i < |xs| ==> SignedPart(xs[i]) == SignedPart(ys[i]))
            || exists i, j :: 0 <= i < |xs| && 0 <= j < |ys| && Collide(cr, Canonical(xs[i]), Canonical(ys[j]))
    decreases |xs|
  {
    hide Canonical;
    var m, n := |xs| - 1, |ys| - 1;
    if Canonical(xs[m]) != Canonical(ys[n]) {
      assert Collide(cr, Canonical(xs[m]), Canonical(ys[n]));
    } else {
      CanonicalDetermines(xs[m], ys[n]);
      assert Continues(cr, xs[..m], xs[m]) && Continues(cr, ys[..n], ys[n]);
      assert SignedPart(xs[m]).seqNo == SignedPart(ys[n]).seqNo;
      assert m == n;
      if m > 0 {
        PrefixLinked(cr, xs, m);
        PrefixLinked(cr, ys, m);
        assert SignedPart(xs[m]).prevHash == SignedPart(ys[n]).prevHash;
        HeadCommits(cr, xs[..m], ys[..m]);
        HeadCommitsStep(cr, xs, ys, m);
      }
    }
  }

  lemma PrefixLinked(cr: Suite, xs: seq<Entry>, m: nat)
    requires Linked(cr, xs) && m <= |xs|
    ensures Linked(cr, xs[..m])
  {
  }

  lemma HeadCommitsStep(cr: Suite, xs: seq<Entry>, ys: seq<Entry>, m: nat)
    requires |xs| == |ys| == m + 1 && SignedPart(xs[m]) == SignedPart(ys[m])
    requires (forall i :: 0 <= i < m ==> SignedPart(xs[..m][i]) == SignedPart(ys[..m][i]))
             || exists i, j :: 0 <= i < m && 0 <= j < m && Collide(cr, Canonical(xs[..m][i]), Canonical(ys[..m][j]))
    ensures (forall i :: 0 <= i < |xs| ==> SignedPart(xs[i]) == SignedPart(ys[i]))
            || exists i, j :: 0 <= i < |xs| && 0 <= j < |ys| && Collide(cr, Canonical(xs[i]), Canonical(ys[j]))
  {
    hide Canonical;
    if exists i, j :: 0 <= i < m && 0 <= j < m && Collide(cr, Canonical(xs[..m][i]), Canonical(ys[..m][j])) {
      var i, j :| 0 <= i < m && 0 <= j < m && Collide(cr, Canonical(xs[..m][i]), Canonical(ys[..m][j]));
      assert Collide(cr, Canonical(xs[i]), Canonical(ys[j]));
    } else {
      forall i | 0 <= i < |xs|
        ensures SignedPart(xs[i]) == SignedPart(ys[i])
      {
        if i < m {
          assert xs[..m][i] == xs[i] && ys[..m][i] == ys[i];
        }
      }
    }
  }

  // ---- what a chain that verifies proves ----

  /**
   The entry stands in this place and its named author's key signed it: the number of entries before
   it, the digest of the last of them or 32 zero bytes, a key with the author's fingerprint, and a
   signature of that key over exactly these bytes.
   */
  ghost predicate SignedInPlace(cr: Suite, before: seq<Entry>, e: Entry) {
    && e.seqNo == |before|
    && e.prevHash == (if before == [] then seq(32, _ => 0) else cr.hash(Canonical(before[|before| - 1])))
    && |e.authorKey| == KEY_SIZE && cr.fingerprint(e.authorKey) == e.authorID
    && cr.verify(e.authorKey, Canonical(e), e.sig)
    && (e.kind in {Ascii("decision"), Ascii("action"), Ascii("note"), Ascii("artifact"), Ascii("typed")})
    && (e.schema != [] <==> e.kind == Ascii("typed")) && (e.schemaVer != [] ==> e.kind == Ascii("typed"))
    && (forall i :: 0 <= i < |e.links| ==> e.links[i].hash != [])
  }

  lemma EntryExactly(cr: Suite, before: seq<Entry>, e: Entry)
    ensures Continues(cr, before, e) && EntryVerifies(cr, e) <==> SignedInPlace(cr, before, e)
  {
    hide Canonical;
    KindsDiffer();
  }

  lemma KindsDiffer()
    ensures !BuiltIn(KindTyped())
  {
    assert |KindTyped()| == 5 && |KindDecision()| == 8 && |KindAction()| == 6 && |KindNote()| == 4 && |KindArtifact()| == 8;
  }

  /** A chain verifies if and only if every entry stands in its place, signed by its author. */
  lemma ChainExactly(cr: Suite, entries: seq<Entry>)
    ensures ChainVerifies(cr, entries) <==> forall i :: 0 <= i < |entries| ==> SignedInPlace(cr, entries[..i], entries[i])
  {
    hide EntryVerifies, SignedInPlace, Canonical;
    forall i | 0 <= i < |entries|
      ensures Continues(cr, entries[..i], entries[i]) && EntryVerifies(cr, entries[i]) <==> SignedInPlace(cr, entries[..i], entries[i])
    {
      EntryExactly(cr, entries[..i], entries[i]);
    }
  }

  /** Without forgery, the author of every entry of a chain that verifies signed exactly that entry. */
  lemma AuthorsSigned(cr: Suite, log: SignedLog, entries: seq<Entry>, i: nat)
    requires ChainVerifies(cr, entries) && i < |entries|
    requires Unforged(cr, log, entries[i].authorKey, entries[i].sig)
    ensures cr.fingerprint(entries[i].authorKey) == entries[i].authorID && (entries[i].authorKey, Canonical(entries[i])) in log
  {
    hide Canonical;
    ChainExactly(cr, entries);
    assert SignedInPlace(cr, entries[..i], entries[i]);
  }

  // ---- the client's chain ----

  datatype Author = Author(id: Wire, name: Str, key: Bytes)

  /** record.EntrySpec. */
  datatype Spec = Spec(kind: Wire, actionee: Wire, body: Wire, schema: Wire, schemaVer: Wire, links: seq<Link>)

  /** A spec and author whose entry the verifier will accept. */
  predicate WellFormed(cr: Suite, a: Author, spec: Spec) {
    && |a.key| == KEY_SIZE && cr.fingerprint(a.key) == a.id
    && (if BuiltIn(spec.kind) then spec.schema == [] && spec.schemaVer == [] else spec.kind == KindTyped() && spec.schema != [])
    && (forall i :: 0 <= i < |spec.links| ==> spec.links[i].hash != [])
  }

  /** The entry says what its author meant it to say. */
  predicate Carries(e: Entry, a: Author, spec: Spec, ts: I64) {
    && e.authorID == a.id && e.authorName == a.name && e.authorKey == a.key && e.ts == ts && !e.replayed
    && e.kind == spec.kind && e.actionee == spec.actionee && e.body == spec.body
    && e.schema == spec.schema && e.schemaVer == spec.schemaVer && e.links == spec.links
  }

  function NewEntry(cr: Suite, entries: seq<Entry>, a: Author, spec: Spec, ts: I64): (e: Entry)
    requires |entries| < TWO64
    ensures Continues(cr, entries, e) && Carries(e, a, spec, ts)
  {
    var e := Entry(|entries|, ts, a.id, a.name, a.key, spec.kind, spec.actionee, spec.body, Head(cr, entries), [],
                   spec.schema, spec.schemaVer, spec.links, false);
    e.(sig := cr.sign(a.key, Canonical(e)))
  }

  /** What a well-formed author appends verifies. */
  lemma NewEntryVerifies(cr: Suite, entries: seq<Entry>, a: Author, spec: Spec, ts: I64)
    requires SignsWhatVerifies(cr) && WellFormed(cr, a, spec) && |entries| < TWO64
    ensures EntryVerifies(cr, NewEntry(cr, entries, a, spec, ts))
  {
    hide Encode, Head;
    var e := NewEntry(cr, entries, a, spec, ts);
    assert StatementOf(e.(sig := [])) == StatementOf(e);
  }

  class Chain {
    const cr: Suite
    var entries: seq<Entry>

    constructor (cr: Suite)
      ensures this.cr == cr && entries == [] && ChainVerifies(cr, entries)
    {
      this.cr, entries := cr, [];
    }

    /** Append: the chain stays verifiable exactly when the new entry is. */
    method Append(a: Author, spec: Spec, ts: I64) returns (e: Entry)
      requires |entries| < TWO64
      modifies this
      ensures e == NewEntry(cr, old(entries), a, spec, ts) && entries == old(entries) + [e] && Carries(e, a, spec, ts)
      ensures SignsWhatVerifies(cr) && ChainVerifies(cr, old(entries)) ==>
        (ChainVerifies(cr, entries) <==> WellFormed(cr, a, spec))
    {
      var unsigned := Entry(|entries|, ts, a.id, a.name, a.key, spec.kind, spec.actionee, spec.body, Head(cr, entries), [],
                            spec.schema, spec.schemaVer, spec.links, false);
      var sig := cr.sign(a.key, Canonical(unsigned));
      e := unsigned.(sig := sig);
      assert StatementOf(e) == StatementOf(unsigned);
      entries := entries + [e];
      if SignsWhatVerifies(cr) && ChainVerifies(cr, old(entries)) {
        ChainExtends(cr, old(entries), e);
        assert |a.key| == KEY_SIZE ==> cr.verify(a.key, Canonical(e), e.sig);
      }
    }

    /** AppendRemote: accepted exactly when it verifies and continues this chain; a fork is refused. */
    method AppendRemote(e: Entry) returns (ok: bool)
      modifies this
      ensures ok == (EntryVerifies(cr, e) && Continues(cr, old(entries), e))
      ensures ok <==> SignedInPlace(cr, old(entries), e)
      ensures entries == if ok then old(entries) + [e] else old(entries)
      ensures ChainVerifies(cr, old(entries)) ==> ChainVerifies(cr, entries)
    {
      EntryExactly(cr, entries, e);
      if !EntryVerifies(cr, e) {
        return false;
      }
      if e.seqNo != |entries| {
        return false;
      }
      if e.prevHash != Head(cr, entries) {
        return false;
      }
      entries := entries + [e];
      if ChainVerifies(cr, old(entries)) {
        ChainExtends(cr, old(entries), e);
      }
      return true;
    }
  }
}
