/**
 The primitives the model does not open: Ed25519, SHA-256, base64, hex, RFC 3339, the SSH
 fingerprint. They are function values, so every theorem holds for all of them; what a theorem
 needs of one is a named hypothesis. Facts that rest on SHA-256 are stated as "equal, or here are
 two inputs with one digest", never by assuming that no two inputs collide.
 */
module Crypto {
  import opened Bytes

  const KEY_SIZE := 32
  const HASH_SIZE := 32

  /** A SHA-256 digest. */
  type Digest = b: Bytes | |b| == 32 witness seq(32, _ => 0)

  datatype Suite = Suite(
    verify: (Bytes, Bytes, Bytes) -> bool,  // public key, message, signature
    sign: (Bytes, Bytes) -> Bytes,          // what the holder of this public key's private half returns
    fingerprint: Bytes -> Wire,
    hash: Bytes -> Digest,
    hex: Bytes -> Wire,
    unhex: Str -> Option<Bytes>,
    base64: Bytes -> Str,
    unbase64: Str -> Option<Bytes>,
    rawUnbase64: Str -> Option<Bytes>,
    parseTime: Str -> Option<int>,
    duration: int -> Str)                   // time.Duration's text, in seconds

  /** The size check and the verification every call site pairs. */
  predicate Verifies(cr: Suite, key: Bytes, msg: Bytes, sig: Bytes) {
    |key| == KEY_SIZE && cr.verify(key, msg, sig)
  }

  /** What a key holder signs verifies under that key. */
  ghost predicate SignsWhatVerifies(cr: Suite) {
    forall k, m :: |k| == KEY_SIZE ==> cr.verify(k, m, cr.sign(k, m))
  }

  /** A signature verifies over no message but the one signed. */
  ghost predicate SignsExactly(cr: Suite) {
    forall k, m, n :: |k| == KEY_SIZE && cr.verify(k, n, cr.sign(k, m)) ==> n == m
  }

  /** Distinct keys have distinct fingerprints. */
  ghost predicate FingerprintsDistinct(cr: Suite) {
    forall a, b :: |a| == |b| == KEY_SIZE && cr.fingerprint(a) == cr.fingerprint(b) ==> a == b
  }

  /** base64 decodes what it encodes, and so does hex on digests. */
  ghost predicate TextCodecs(cr: Suite) {
    && (forall b: Bytes :: cr.unbase64(cr.base64(b)) == Some(b))
    && (forall d: Digest :: cr.unhex(cr.hex(d)) == Some(d))
  }

  /** Two different inputs with one digest. */
  ghost predicate Collide(cr: Suite, a: Bytes, b: Bytes) {
    a != b && cr.hash(a) == cr.hash(b)
  }

  /** Every message each key has signed so far. */
  type SignedLog = set<(Bytes, Bytes)>

  /** A signature the environment can present: it verifies only over messages its key has signed. */
  ghost predicate Unforged(cr: Suite, log: SignedLog, key: Bytes, sig: Bytes) {
    forall m :: cr.verify(key, m, sig) ==> (key, m) in log
  }

  /** A symbolic suite: a signature is its key followed by its message. */
  function Symbolic(): Suite {
    Suite(
      (k, m, s) => s == k + m,
      (k, m) => k + m,
      k => if |k| == KEY_SIZE then k else [],
      b => seq(32, _ => 0),
      b => if |b| == HASH_SIZE then b else [],
      s => Some(s),
      b => b,
      s => Some(s),
      s => Some(s),
      s => None,
      n => [])
  }

  /** Every hypothesis the theorems make about the primitives can be met at once. */
  lemma HypothesesConsistent()
    ensures SignsWhatVerifies(Symbolic()) && FingerprintsDistinct(Symbolic()) && TextCodecs(Symbolic())
    ensures SignsExactly(Symbolic())
  {
    forall k: Bytes, m: Bytes, n: Bytes | |k| == KEY_SIZE && Symbolic().verify(k, n, Symbolic().sign(k, m))
      ensures n == m
    {
      assert (k + n)[|k|..] == n && (k + m)[|k|..] == m;
    }
  }
}
