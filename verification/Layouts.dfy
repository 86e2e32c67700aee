/**
 The canonical signing preimages of package protocol, as one datatype of statements, with the
 decoder none of them ships: every layout is a tag, fixed fields, at most one counted list,
 more fixed fields, and at most one raw tail.
 */
module Layouts {
  import opened Bytes
  import opened Framing

  datatype Tag =
    | MessageTag | RecordTag | RecordV2Tag | SealTag | SealV2Tag | IdentityTag | RevocationTag
    | ArtifactTag | ArtifactV2Tag | ActionTag | ActionV2Tag | RosterTag | ReceiptTag | AlertTag
    | DirectTag | DuressTag

  const ALL_TAGS: seq<Tag> := [
    MessageTag, RecordTag, RecordV2Tag, SealTag, SealV2Tag, IdentityTag, RevocationTag,
    ArtifactTag, ArtifactV2Tag, ActionTag, ActionV2Tag, RosterTag, ReceiptTag, AlertTag,
    DirectTag, DuressTag]

  function TagText(t: Tag): string {
    match t
    case MessageTag => "netherchat/msg/v1"
    case RecordTag => "netherchat/record/v1"
    case RecordV2Tag => "netherchat/record/v2"
    case SealTag => "netherchat/seal/v1"
    case SealV2Tag => "netherchat/seal/v2"
    case IdentityTag => "netherchat/identity/v2"
    case RevocationTag => "netherchat/identity-revocation/v1"
    case ArtifactTag => "netherchat/artifact-approval/v1"
    case ArtifactV2Tag => "netherchat/artifact-approval/v2"
    case ActionTag => "netherchat/action-approval/v1"
    case ActionV2Tag => "netherchat/action-approval/v2"
    case RosterTag => "netherchat/roster/v1"
    case ReceiptTag => "netherchat/receipt/v1"
    case AlertTag => "netherchat/alert/v1"
    case DirectTag => "netherchat/direct/v1"
    case DuressTag => "netherchat/duress-beacon/v1"
  }

  function TagBytes(t: Tag): (b: Bytes)
    ensures |b| < 64
  {
    Ascii(TagText(t))
  }

  /** Length, and three characters: enough to tell any two tags apart. */
  function TagFeatures(s: string): (nat, char, char, char)
    requires |s| > 12
  {
    (|s|, s[11], s[12], s[|s| - 1])
  }

  lemma TagsDistinct(a: Tag, b: Tag)
    requires TagBytes(a) == TagBytes(b)
    ensures a == b
  {
    var s, t := TagText(a), TagText(b);
    assert |s| > 12 && |t| > 12;
    assert |s| == |TagBytes(a)| == |TagBytes(b)| == |t|;
    TagAscii(a, 11);
    TagAscii(b, 11);
    TagAscii(a, 12);
    TagAscii(b, 12);
    TagAscii(a, |s| - 1);
    TagAscii(b, |s| - 1);
    assert TagFeatures(s) == TagFeatures(t);
    FeaturesDistinct(a, b);
  }

  lemma FeaturesDistinct(a: Tag, b: Tag)
    requires |TagText(a)| > 12 && |TagText(b)| > 12
    requires TagFeatures(TagText(a)) == TagFeatures(TagText(b))
    ensures a == b
  {
  }

  lemma TagAscii(t: Tag, i: nat)
    requires i < |TagText(t)| && (i == 11 || i == 12 || i == |TagText(t)| - 1)
    ensures TagBytes(t)[i] == TagText(t)[i] as int
  {
    assert TagText(t)[i] as int < 256;
  }

  function FindTag(b: Bytes, from: seq<Tag>): (r: Option<Tag>)
    ensures r.Some? ==> TagBytes(r.value) == b
  {
    if from == [] then None
    else if TagBytes(from[0]) == b then Some(from[0])
    else FindTag(b, from[1..])
  }

  lemma {:induction false} FindTagFinds(t: Tag, from: seq<Tag>)
    requires t in from
    ensures FindTag(TagBytes(t), from) == Some(t)
  {
    if TagBytes(from[0]) == TagBytes(t) {
      TagsDistinct(from[0], t);
    } else {
      FindTagFinds(t, from[1..]);
    }
  }

  lemma EveryTagListed(t: Tag)
    ensures t in ALL_TAGS
  {
  }

  // ---- shapes and documents ----

  /** perItem is the number of fields per list element; 0 means the layout has no counted list. */
  datatype Shape = Shape(before: seq<Slot>, perItem: nat, after: seq<Slot>, rawTail: bool)

  datatype Document = Document(tag: Tag, before: seq<Token>, items: seq<Token>, after: seq<Token>, tail: Bytes)

  function Fields(n: nat): (s: seq<Slot>)
    ensures |s| == n
  {
    seq(n, _ => FieldSlot)
  }

  function ShapeOf(t: Tag): Shape {
    match t
    case MessageTag => Shape([FieldSlot, FieldSlot, WordSlot, FieldSlot, FieldSlot], 0, [], false)
    case RecordTag => Shape([WordSlot, WordSlot, FieldSlot, FieldSlot, FieldSlot, FieldSlot], 0, [], true)
    case RecordV2Tag =>
      Shape([WordSlot, WordSlot, FieldSlot, FieldSlot, FieldSlot, FieldSlot, FieldSlot, FieldSlot], 2, [], true)
    case SealTag => Shape([FieldSlot], 0, [], true)
    case SealV2Tag => Shape([FieldSlot, FieldSlot, FieldSlot, FieldSlot], 0, [], true)
    case IdentityTag =>
      Shape([FieldSlot, FieldSlot, FieldSlot, FieldSlot, FieldSlot], 1,
            [FieldSlot, FieldSlot, FieldSlot, FieldSlot], false)
    case RevocationTag => Shape([FieldSlot, FieldSlot, WordSlot, FieldSlot, FieldSlot], 3, [], false)
    case ArtifactTag => Shape([FieldSlot, FieldSlot, FieldSlot, FieldSlot], 0, [], false)
    case ArtifactV2Tag => Shape([FieldSlot, FieldSlot, FieldSlot, FieldSlot, FieldSlot], 0, [], false)
    case ActionTag => Shape([FieldSlot, FieldSlot, FieldSlot, FieldSlot], 0, [], false)
    case ActionV2Tag =>
      Shape([FieldSlot, FieldSlot, FieldSlot, FieldSlot, FieldSlot, FieldSlot, FieldSlot], 0, [], false)
    case RosterTag => Shape([FieldSlot, WordSlot], 0, [], true)
    case ReceiptTag => Shape([], 0, [], true)
    case AlertTag => Shape([FieldSlot, FieldSlot, FieldSlot, FieldSlot, FieldSlot, WordSlot], 0, [], false)
    case DirectTag => Shape([FieldSlot, FieldSlot, FieldSlot, FieldSlot], 0, [], false)
    case DuressTag => Shape([FieldSlot, FieldSlot, FieldSlot, FieldSlot, FieldSlot], 0, [], false)
  }

  /** A document that has its tag's shape and whose lengths and counts fit a uint64. */
  predicate Shaped(d: Document) {
    var s := ShapeOf(d.tag);
    && SlotsOf(d.before) == s.before
    && SlotsOf(d.after) == s.after
    && (if s.perItem == 0 then d.items == []
        else |d.items| % s.perItem == 0 && SlotsOf(d.items) == Fields(|d.items|))
    && (s.rawTail || d.tail == [])
    && AllFit(d.before) && AllFit(d.items) && AllFit(d.after)
    && (s.perItem > 0 ==> |d.items| / s.perItem < TWO64)
  }

  function CountTokens(d: Document): seq<Token> {
    var k := ShapeOf(d.tag).perItem;
    if k == 0 then [] else [Word(|d.items| / k)]
  }

  function TokensOf(d: Document): seq<Token> {
    [Field(TagBytes(d.tag))] + d.before + CountTokens(d) + d.items + d.after
  }

  function EncodeDocument(d: Document): (b: Bytes) {
    Render(TokensOf(d)) + d.tail
  }

  /** Read the counted list, if the shape has one: the items and what follows them. */
  function ReadItems(perItem: nat, b: Bytes): (r: Option<(seq<Token>, Bytes)>) {
    if perItem == 0 then Some(([], b))
    else
      match ReadToken(WordSlot, b)
      case None => None
      case Some((count, rest)) =>
        ReadTokens(Fields(count.n * perItem), rest)
  }

  function DecodeBody(tag: Tag, b: Bytes): (r: Option<Document>) {
    var s := ShapeOf(tag);
    match ReadTokens(s.before, b)
    case None => None
    case Some((before, b1)) =>
      match ReadItems(s.perItem, b1)
      case None => None
      case Some((items, b2)) =>
        match ReadTokens(s.after, b2)
        case None => None
        case Some((after, b3)) =>
          if !s.rawTail && b3 != [] then None
          else Some(Document(tag, before, items, after, b3))
  }

  function DecodeDocument(b: Bytes): (r: Option<Document>) {
    match ReadToken(FieldSlot, b)
    case None => None
    case Some((header, rest)) =>
      match FindTag(header.bytes, ALL_TAGS)
      case None => None
      case Some(tag) => DecodeBody(tag, rest)
  }

  lemma ReadItemsRender(d: Document, rest: Bytes)
    requires Shaped(d)
    ensures ReadItems(ShapeOf(d.tag).perItem, Render(CountTokens(d) + d.items) + rest) == Some((d.items, rest))
  {
    var k := ShapeOf(d.tag).perItem;
    if k == 0 {
      assert CountTokens(d) + d.items == [];
      assert Render([]) + rest == rest;
    } else {
      var n := |d.items| / k;
      assert n * k == |d.items|;
      var tail := Render(d.items) + rest;
      assert (CountTokens(d) + d.items)[1..] == d.items;
      assert Render(CountTokens(d) + d.items) + rest == RenderToken(Word(n)) + tail;
      ReadTokenRender(Word(n), tail);
      ReadTokensRender(d.items, rest);
    }
  }

  /** Everything after the tag field, grouped the way the decoder reads it. */
  function EncodeBody(d: Document): (b: Bytes) {
    Render(d.before) + (Render(CountTokens(d) + d.items) + (Render(d.after) + d.tail))
  }

  lemma RenderRegroup(h: Token, p: seq<Token>, c: seq<Token>, q: seq<Token>, r: seq<Token>, tail: Bytes)
    ensures Render([h] + p + c + q + r) + tail == RenderToken(h) + (Render(p) + (Render(c + q) + (Render(r) + tail)))
  {
    var rest := p + ((c + q) + r);
    assert [h] + p + c + q + r == [h] + rest;
    assert ([h] + rest)[1..] == rest;
    RenderConcat(p, (c + q) + r);
    RenderConcat(c + q, r);
    AppendAssociates(RenderToken(h), Render(p), Render(c + q), Render(r), tail);
  }

  lemma AppendAssociates(a: Bytes, b: Bytes, c: Bytes, d: Bytes, e: Bytes)
    ensures (a + (b + (c + d))) + e == a + (b + (c + (d + e)))
  {
  }

  lemma EncodeSplits(d: Document)
    ensures EncodeDocument(d) == RenderToken(Field(TagBytes(d.tag))) + EncodeBody(d)
  {
    RenderRegroup(Field(TagBytes(d.tag)), d.before, CountTokens(d), d.items, d.after, d.tail);
  }

  lemma DecodeEncodeBody(d: Document)
    requires Shaped(d)
    ensures DecodeBody(d.tag, EncodeBody(d)) == Some(d)
  {
    ReadTokensRender(d.before, Render(CountTokens(d) + d.items) + (Render(d.after) + d.tail));
    ReadItemsRender(d, Render(d.after) + d.tail);
    ReadTokensRender(d.after, d.tail);
  }

  /** Decoding a well-shaped document's encoding returns the document. */
  lemma DecodeEncodeDocument(d: Document)
    requires Shaped(d)
    ensures DecodeDocument(EncodeDocument(d)) == Some(d)
  {
    EncodeSplits(d);
    ReadTokenRender(Field(TagBytes(d.tag)), EncodeBody(d));
    EveryTagListed(d.tag);
    FindTagFinds(d.tag, ALL_TAGS);
    DecodeEncodeBody(d);
  }

  lemma ReadItemsSound(tag: Tag, b: Bytes)
    requires ReadItems(ShapeOf(tag).perItem, b).Some?
    ensures var (items, rest) := ReadItems(ShapeOf(tag).perItem, b).value;
            var k := ShapeOf(tag).perItem;
            && AllFit(items)
            && (if k == 0 then items == [] else |items| % k == 0 && |items| / k < TWO64 && SlotsOf(items) == Fields(|items|))
            && Render((if k == 0 then [] else [Word(|items| / k)]) + items) + rest == b
  {
    var k := ShapeOf(tag).perItem;
    if k == 0 {
      assert Render([]) + b == b;
    } else {
      ReadTokenSound(WordSlot, b);
      var (count, rest) := ReadToken(WordSlot, b).value;
      ReadTokensSound(Fields(count.n * k), rest);
      var (items, rest') := ReadTokens(Fields(count.n * k), rest).value;
      assert |items| == count.n * k;
      CountDivides(count.n, k);
      var all := [Word(count.n)] + items;
      assert all[1..] == items;
      assert Render(all) + rest' == RenderToken(count) + (Render(items) + rest');
    }
  }

  lemma CountDivides(n: nat, k: nat)
    requires 1 <= k <= 3
    ensures n * k % k == 0 && n * k / k == n
  {
  }

  lemma DecodeBodySound(tag: Tag, b: Bytes)
    requires DecodeBody(tag, b).Some?
    ensures var d := DecodeBody(tag, b).value;
            d.tag == tag && Shaped(d) && EncodeBody(d) == b
  {
    var s := ShapeOf(tag);
    ReadTokensSound(s.before, b);
    var b1 := ReadTokens(s.before, b).value.1;
    ReadItemsSound(tag, b1);
    var b2 := ReadItems(s.perItem, b1).value.1;
    ReadTokensSound(s.after, b2);
  }

  /** The decoder accepts nothing but encodings: what it returns is shaped and encodes to its input. */
  lemma EncodeDecodeDocument(b: Bytes)
    requires DecodeDocument(b).Some?
    ensures Shaped(DecodeDocument(b).value)
    ensures EncodeDocument(DecodeDocument(b).value) == b
  {
    ReadTokenSound(FieldSlot, b);
    var (header, body) := ReadToken(FieldSlot, b).value;
    var tag := FindTag(header.bytes, ALL_TAGS).value;
    DecodeBodySound(tag, body);
    EncodeSplits(DecodeDocument(b).value);
  }
}
