/** Length-prefixed framing: 8-byte big-endian words and fields, and readers that undo them. */
module Framing {
  import opened Bytes

  const TWO64: nat := 0x1_0000_0000_0000_0000
  const TWO63: nat := 0x8000_0000_0000_0000

  type U64 = n: nat | n < 0x1_0000_0000_0000_0000
  type I64 = n: int | -0x8000_0000_0000_0000 <= n < 0x8000_0000_0000_0000

  function Pow256(k: nat): (p: nat)
    ensures p > 0
  {
    if k == 0 then 1 else 256 * Pow256(k - 1)
  }

  /** The low k base-256 digits of n, most significant first. */
  function BigEndian(n: nat, k: nat): (b: Bytes)
    ensures |b| == k
  {
    if k == 0 then [] else BigEndian(n / 256, k - 1) + [n % 256]
  }

  function Value(b: Bytes): (n: nat) {
    if b == [] then 0 else Value(b[..|b| - 1]) * 256 + b[|b| - 1]
  }

  lemma {:induction false} ValueOfBigEndian(n: nat, k: nat)
    requires n < Pow256(k)
    ensures Value(BigEndian(n, k)) == n
  {
    if k > 0 {
      ValueOfBigEndian(n / 256, k - 1);
      var b := BigEndian(n, k);
      assert b[..|b| - 1] == BigEndian(n / 256, k - 1);
    }
  }

  lemma {:induction false} BigEndianOfValue(b: Bytes)
    ensures Value(b) < Pow256(|b|)
    ensures BigEndian(Value(b), |b|) == b
  {
    if b != [] {
      var h, t := b[..|b| - 1], b[|b| - 1];
      BigEndianOfValue(h);
      assert Value(b) / 256 == Value(h) && Value(b) % 256 == t;
      assert b == h + [t];
    }
  }

  lemma Pow256Eight()
    ensures Pow256(8) == TWO64
  {
  }

  /** binary.BigEndian.PutUint64 after a uint64 conversion: the argument wraps modulo 2^64. */
  function Word64(n: int): (b: Bytes)
    ensures |b| == 8
  {
    BigEndian(n % TWO64, 8)
  }

  lemma ValueOfWord64(n: int)
    ensures Value(Word64(n)) == n % TWO64
  {
    Pow256Eight();
    ValueOfBigEndian(n % TWO64, 8);
  }

  lemma Word64OfValue(b: Bytes)
    requires |b| == 8
    ensures Value(b) < TWO64 && Word64(Value(b)) == b
  {
    BigEndianOfValue(b);
    assert Value(b) < TWO64 by {
      Pow256Eight();
    }
    assert Value(b) % TWO64 == Value(b);
  }

  // ---- tokens: what a layout writes, in order ----

  datatype Token =
    | Field(bytes: Bytes)  // uint64 length, then the bytes
    | Word(n: nat)         // a bare uint64

  datatype Slot = FieldSlot | WordSlot

  function RenderToken(t: Token): (b: Bytes)
    ensures |b| >= 8
  {
    match t
    case Field(x) => Word64(|x|) + x
    case Word(n) => Word64(n)
  }

  function Render(ts: seq<Token>): (b: Bytes) {
    if ts == [] then [] else RenderToken(ts[0]) + Render(ts[1..])
  }

  function SlotOf(t: Token): Slot {
    if t.Field? then FieldSlot else WordSlot
  }

  function SlotsOf(ts: seq<Token>): (s: seq<Slot>)
    ensures |s| == |ts|
  {
    seq(|ts|, i requires 0 <= i < |ts| => SlotOf(ts[i]))
  }

  /** A token whose length or value the eight-byte word can hold. */
  predicate Fits(t: Token) {
    match t
    case Field(x) => |x| < TWO64
    case Word(n) => n < TWO64
  }

  predicate AllFit(ts: seq<Token>) {
    forall t :: t in ts ==> Fits(t)
  }

  lemma Associates(a: Bytes, b: Bytes, c: Bytes)
    ensures (a + b) + c == a + (b + c)
  {
  }

  lemma {:induction false} RenderConcat(a: seq<Token>, b: seq<Token>)
    ensures Render(a + b) == Render(a) + Render(b)
  {
    if a == [] {
      assert a + b == b;
    } else {
      RenderConcat(a[1..], b);
      assert (a + b)[0] == a[0] && (a + b)[1..] == a[1..] + b;
      Associates(RenderToken(a[0]), Render(a[1..]), Render(b));
    }
  }

  lemma RenderSnoc(ts: seq<Token>, t: Token)
    ensures Render(ts + [t]) == Render(ts) + RenderToken(t)
  {
    RenderConcat(ts, [t]);
    assert [t][1..] == [] && RenderToken(t) + [] == RenderToken(t);
    assert Render([t]) == RenderToken(t) + Render([]);
  }

  // ---- readers ----

  function ReadToken(slot: Slot, b: Bytes): (r: Option<(Token, Bytes)>)
    ensures r.Some? ==> |r.value.1| < |b|
  {
    if |b| < 8 then None
    else
      var n := Value(b[..8]);
      if slot == WordSlot then Some((Word(n), b[8..]))
      else if |b| - 8 < n then None
      else Some((Field(b[8..8 + n]), b[8 + n..]))
  }

  function ReadTokens(slots: seq<Slot>, b: Bytes): (r: Option<(seq<Token>, Bytes)>) {
    if slots == [] then Some(([], b))
    else
      match ReadToken(slots[0], b)
      case None => None
      case Some((t, rest)) =>
        match ReadTokens(slots[1..], rest)
        case None => None
        case Some((ts, rest')) => Some(([t] + ts, rest'))
  }

  lemma ReadTokenRender(t: Token, rest: Bytes)
    requires Fits(t)
    ensures ReadToken(SlotOf(t), RenderToken(t) + rest) == Some((t, rest))
  {
    var b := RenderToken(t) + rest;
    match t
    case Field(x) =>
      ValueOfWord64(|x|);
      assert b[..8] == Word64(|x|);
      assert b[8..8 + |x|] == x && b[8 + |x|..] == rest;
    case Word(n) =>
      ValueOfWord64(n);
      assert b[..8] == Word64(n);
      assert b[8..] == rest;
  }

  /** Reading the slots of a rendered token list returns the list and leaves what followed it. */
  lemma {:induction false} ReadTokensRender(ts: seq<Token>, rest: Bytes)
    requires AllFit(ts)
    ensures ReadTokens(SlotsOf(ts), Render(ts) + rest) == Some((ts, rest))
  {
    if ts == [] {
      assert Render(ts) + rest == rest;
    } else {
      var tail := Render(ts[1..]) + rest;
      assert Render(ts) + rest == RenderToken(ts[0]) + tail;
      ReadTokenRender(ts[0], tail);
      assert SlotsOf(ts)[1..] == SlotsOf(ts[1..]);
      ReadTokensRender(ts[1..], rest);
      assert [ts[0]] + ts[1..] == ts;
    }
  }

  lemma CutOnce(b: Bytes, i: nat)
    requires i <= |b|
    ensures b[..i] + b[i..] == b
  {
  }

  lemma CutTwice(b: Bytes, i: nat, j: nat)
    requires i <= j <= |b|
    ensures b[..i] + b[i..j] + b[j..] == b
  {
  }

  lemma ReadTokenSound(slot: Slot, b: Bytes)
    requires ReadToken(slot, b).Some?
    ensures var (t, rest) := ReadToken(slot, b).value;
            Fits(t) && SlotOf(t) == slot && RenderToken(t) + rest == b
  {
    var n := Value(b[..8]);
    Word64OfValue(b[..8]);
    if slot == FieldSlot {
      CutTwice(b, 8, 8 + n);
    } else {
      CutOnce(b, 8);
    }
  }

  /** Whatever a reader accepts is exactly the rendering of what it returns. */
  lemma {:induction false} ReadTokensSound(slots: seq<Slot>, b: Bytes)
    requires ReadTokens(slots, b).Some?
    ensures var (ts, rest) := ReadTokens(slots, b).value;
            AllFit(ts) && SlotsOf(ts) == slots && Render(ts) + rest == b
  {
    if slots == [] {
      assert [] + b == b;
    } else {
      ReadTokenSound(slots[0], b);
      var (t, rest) := ReadToken(slots[0], b).value;
      ReadTokensSound(slots[1..], rest);
      var (ts, rest') := ReadTokens(slots[1..], rest).value;
      var all := [t] + ts;
      assert all[1..] == ts;
      assert SlotsOf(all) == [slots[0]] + slots[1..] == slots;
      Associates(RenderToken(t), Render(ts), rest');
    }
  }
}
