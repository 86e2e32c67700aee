/**
 The seal handshake of one client, as transitions: a round collects co-signatures, is finalized by
 whoever comes first, early completion or the timer, and stays amendable until the next round or a
 /vanish. Each critical section of the client is one step; the timer is a step that may come at
 any time.
 */
module SealRounds {
  import opened Bytes
  import opened Framing
  import opened Crypto
  import opened Statements
  import opened Records
  import opened Sealing

  datatype Config = Config(room: Wire, key: Bytes, name: Wire)

  /** An emitted EvSealComplete, with what it was assembled from. */
  datatype Completion = Completion(round: nat, amended: bool, snap: Snapshot, retained: map<Str, seq<Proof>>)

  datatype Client = Client(
    chain: seq<Entry>, ready: bool, round: Option<Snapshot>, last: Option<Snapshot>, pending: Option<Bytes>,
    retained: map<Str, seq<Proof>>,
    acking: set<(Digest, Wire)>,        // co-signatures decided on, not yet signed and sent
    started: nat,                       // rounds this client has opened
    completions: seq<Completion>,       // everything it has emitted
    vouched: set<seq<Entry>>)           // the chains whose head it decided to sign

  const FRESH_CLIENT := Client([], false, None, None, None, map[], {}, 0, [], {})

  datatype Ack = Ack(pub: Bytes, head: Bytes, sig: Bytes, meaning: Wire, name: Wire, at: Wire)

  datatype Step =
    | Establish                                   // the room key arrives
    | Note(spec: Spec, ts: I64)                   // appendSpec: an own entry is signed and joins the chain
    | AddEntry(e: Entry)                          // onRecordEntry: a remote entry joins the chain
    | Retain(proofs: map<Str, seq<Proof>>)        // the artifact flow's retained approval proofs change
    | Seal(meaning: Wire, at: Wire)               // sealWith
    | SendAck(decided: Digest, meaning: Wire, at: Wire)
    | Request(head: Bytes)                        // onSealRequest
    | Receive(ack: Ack)                           // onSealAck
    | Finalize                                    // finalizeSeal, by the timer or by maybeFinalize
    | Vanish                                      // resetCoordinationLocked

  function SelfFpr(cr: Suite, cfg: Config): Wire {
    cr.fingerprint(cfg.key)
  }

  function SealStatement(room: Str, head: Bytes, meaning: Str, name: Str, at: Str): Statement {
    if meaning == [] then Statement.Seal(room, head) else SealV2(room, meaning, name, at, head)
  }

  /** What a signer of head signs: the meaning picks the layout. */
  function SealBytes(room: Str, head: Bytes, meaning: Str, name: Str, at: Str): Bytes {
    Encode(SealStatement(room, head, meaning, name, at))
  }

  predicate ValidAck(cr: Suite, room: Str, head: Bytes, a: Ack) {
    a.head == head && Verifies(cr, a.pub, SealBytes(room, head, a.meaning, a.name, a.at), a.sig)
  }

  /** recordCosignatureLocked's update: a valid signature of somebody not yet held. */
  function Record(cr: Suite, snap: Snapshot, a: Ack): Snapshot {
    var f := cr.fingerprint(a.pub);
    snap.(sigs := snap.sigs[f := a.sig], keys := snap.keys[f := a.pub],
          endorse := if a.meaning == [] then snap.endorse else snap.endorse[f := Endorsement(a.meaning, a.name, a.at)])
  }

  /** The head is being collected now, or is the one finalized last. */
  function Current(s: Client): Option<Snapshot> {
    if s.round.Some? then s.round else s.last
  }

  function Self(cr: Suite, cfg: Config): Author {
    Author(SelfFpr(cr, cfg), cfg.name, cfg.key)
  }

  /** The specs the client's own commands build: a built-in kind without a schema, or a typed entry with one. */
  predicate Recordable(spec: Spec) {
    && spec.links == []
    && (if BuiltIn(spec.kind) then spec.schema == [] && spec.schemaVer == [] else spec.kind == KindTyped() && spec.schema != [])
  }

  /** appendSpec up to the broadcast; a chain's length always fits its sequence number. */
  function ApplyNote(cr: Suite, cfg: Config, s: Client, spec: Spec, ts: I64): Client {
    if !s.ready || |s.chain| >= TWO64 then s
    else s.(chain := s.chain + [NewEntry(cr, s.chain, Self(cr, cfg), spec, ts)])
  }

  predicate Initiates(s: Client) {
    s.ready && s.chain != [] && s.pending.None? && s.round.None?
  }

  function Open(cr: Suite, cfg: Config, s: Client, meaning: Wire, at: Wire): Client {
    var f := SelfFpr(cr, cfg);
    var head := Head(cr, s.chain);
    var sig := cr.sign(cfg.key, SealBytes(cfg.room, head, meaning, cfg.name, at));
    var endorse := if meaning == [] then map[] else map[f := Endorsement(meaning, cfg.name, at)];
    s.(round := Some(Snapshot(head, s.chain, map[f := sig], map[f := cfg.key], endorse)), last := None,
       started := s.started + 1, vouched := s.vouched + {s.chain})
  }

  function ApplySeal(cr: Suite, cfg: Config, s: Client, meaning: Wire, at: Wire): Client {
    if !s.ready || s.chain == [] then s
    else if s.pending.Some? then
      if s.pending.value != Head(cr, s.chain) then s
      else s.(acking := s.acking + {(Head(cr, s.chain), meaning)}, vouched := s.vouched + {s.chain})
    else if s.round.Some? then s
    else Open(cr, cfg, s, meaning, at)
  }

  function ApplyRequest(s: Client, head: Bytes): Client {
    s.(pending := Some(head),
       acking := if s.round.Some? && head == s.round.value.head then s.acking + {(s.round.value.head, [])} else s.acking)
  }

  function ApplyAck(cr: Suite, cfg: Config, s: Client, a: Ack): Client {
    if Current(s).None? || !ValidAck(cr, cfg.room, Current(s).value.head, a) then s
    else if cr.fingerprint(a.pub) in Current(s).value.sigs then s
    else
      var snap := Record(cr, Current(s).value, a);
      if s.round.Some? then s.(round := Some(snap))
      else s.(last := Some(snap), completions := s.completions + [Completion(s.started, true, snap, s.retained)])
  }

  function ApplyFinalize(s: Client): Client {
    if s.round.None? then s
    else s.(round := None, last := s.round,
            completions := s.completions + [Completion(s.started, false, s.round.value, s.retained)])
  }

  function Apply(cr: Suite, cfg: Config, s: Client, step: Step): Client {
    match step
    case Establish => s.(ready := true)
    case Note(spec, ts) => ApplyNote(cr, cfg, s, spec, ts)
    case AddEntry(e) => s.(chain := s.chain + [e])
    case Retain(proofs) => s.(retained := proofs)
    case Seal(meaning, at) => ApplySeal(cr, cfg, s, meaning, at)
    case SendAck(head, meaning, at) => s.(pending := None, acking := s.acking - {(head, meaning)})
    case Request(head) => ApplyRequest(s, head)
    case Receive(ack) => ApplyAck(cr, cfg, s, ack)
    case Finalize => ApplyFinalize(s)
    case Vanish => s.(chain := [], round := None, last := None, pending := None)
  }

  function NewlySigned(cr: Suite, cfg: Config, s: Client, step: Step): SignedLog {
    match step
    case Seal(meaning, at) =>
      if Initiates(s) then {(cfg.key, SealBytes(cfg.room, Head(cr, s.chain), meaning, cfg.name, at))} else {}
    case SendAck(head, meaning, at) => {(cfg.key, SealBytes(cfg.room, head, meaning, cfg.name, at))}
    case _ => {}
  }

  /**
   A remote entry joins only when it verifies and continues the chain, an own one is checked by
   nobody but is one the client's commands build; an acknowledgement is sent once decided.
   */
  ghost predicate Enabled(cr: Suite, s: Client, log: SignedLog, step: Step) {
    match step
    case Note(spec, _) => Recordable(spec)
    case AddEntry(e) => EntryVerifies(cr, e) && Continues(cr, s.chain, e) && LinksSized(e)
    case SendAck(head, meaning, _) => (head, meaning) in s.acking
    case Receive(ack) => Unforged(cr, log, ack.pub, ack.sig)
    case _ => true
  }

  // ---- what every step keeps ----

  /** A chain a client may seal: it verifies entry by entry. */
  ghost predicate Sound(cr: Suite, xs: seq<Entry>) {
    ChainVerifies(cr, xs) && Linked(cr, xs)
  }

  ghost predicate GoodSnapshot(cr: Suite, cfg: Config, vouched: set<seq<Entry>>, snap: Snapshot) {
    && Collected(cr, cfg.room, snap)
    && SelfFpr(cr, cfg) in snap.sigs
    && snap.head == Head(cr, snap.entries)
    && snap.entries in vouched
  }

  ghost predicate Vouches(cr: Suite, vouched: set<seq<Entry>>, head: Digest) {
    exists xs :: xs in vouched && Head(cr, xs) == head
  }

  /** First completions of distinct rounds differ, and an amendment follows its round's first completion. */
  ghost predicate CompletedOnce(cs: seq<Completion>) {
    forall j :: 0 <= j < |cs| ==>
      if cs[j].amended then exists i :: 0 <= i < j && !cs[i].amended && cs[i].round == cs[j].round
      else forall i :: 0 <= i < j ==> cs[i].round != cs[j].round
  }

  ghost predicate History(s: Client) {
    && CompletedOnce(s.completions)
    && (forall i :: 0 <= i < |s.completions| ==> s.completions[i].round <= s.started)
    && (s.round.Some? ==> s.last.None? && forall i :: 0 <= i < |s.completions| ==> s.completions[i].round < s.started)
    && (s.last.Some? ==>
          && (exists i :: 0 <= i < |s.completions| && !s.completions[i].amended && s.completions[i].round == s.started)
          && s.completions[|s.completions| - 1].round == s.started
          && s.completions[|s.completions| - 1].snap == s.last.value)
  }

  ghost predicate Inv(cr: Suite, cfg: Config, s: Client) {
    && Sound(cr, s.chain)
    && (forall xs :: xs in s.vouched ==> xs != [] && Sound(cr, xs))
    && (s.round.Some? ==> GoodSnapshot(cr, cfg, s.vouched, s.round.value))
    && (s.last.Some? ==> GoodSnapshot(cr, cfg, s.vouched, s.last.value))
    && (forall a :: a in s.acking ==> Vouches(cr, s.vouched, a.0))
    && (forall i :: 0 <= i < |s.completions| ==> GoodSnapshot(cr, cfg, s.vouched, s.completions[i].snap))
    && History(s)
  }

  lemma SoundExtends(cr: Suite, xs: seq<Entry>, e: Entry)
    requires Sound(cr, xs) && EntryVerifies(cr, e) && Continues(cr, xs, e) && LinksSized(e)
    ensures Sound(cr, xs + [e])
  {
    hide EntryVerifies, Head;
    ChainExtends(cr, xs, e);
    var all := xs + [e];
    assert all[..|xs|] == xs;
    forall i | 0 <= i < |all|
      ensures Continues(cr, all[..i], all[i]) && LinksSized(all[i])
    {
      if i < |xs| {
        assert all[..i] == xs[..i] && all[i] == xs[i];
      }
    }
  }

  /** A signer's own signature opens a collected round. */
  lemma OpenCollects(cr: Suite, cfg: Config, s: Client, meaning: Wire, at: Wire)
    requires SignsWhatVerifies(cr) && |cfg.key| == KEY_SIZE
    ensures var o := Open(cr, cfg, s, meaning, at).round.value;
            Collected(cr, cfg.room, o) && SelfFpr(cr, cfg) in o.sigs && o.head == Head(cr, o.entries) && o.entries == s.chain
  {
    hide Encode, Head;
    var snap := Open(cr, cfg, s, meaning, at).round.value;
    var f := SelfFpr(cr, cfg);
    assert SealPreimage(cfg.room, snap.head, snap.endorse, f) == SealBytes(cfg.room, snap.head, meaning, cfg.name, at);
    assert f in snap.sigs;
  }

  /** Recording a valid signature keeps every other signer's preimage, and fits the new one to its endorsement. */
  lemma RecordCollects(cr: Suite, room: Str, snap: Snapshot, a: Ack)
    requires Collected(cr, room, snap) && ValidAck(cr, room, snap.head, a) && cr.fingerprint(a.pub) !in snap.sigs
    ensures Collected(cr, room, Record(cr, snap, a))
  {
    hide Encode;
    var f := cr.fingerprint(a.pub);
    var next := Record(cr, snap, a);
    assert f in next.sigs;
    forall g | g in next.sigs
      ensures cr.fingerprint(next.keys[g]) == g
      ensures Verifies(cr, next.keys[g], SealPreimage(room, next.head, next.endorse, g), next.sigs[g])
    {
      if g != f {
        assert g in snap.sigs;
        assert SealPreimage(room, next.head, next.endorse, g) == SealPreimage(room, snap.head, snap.endorse, g);
      }
    }
  }

  lemma GoodGrows(cr: Suite, cfg: Config, v: set<seq<Entry>>, w: set<seq<Entry>>, s: Client)
    requires Inv(cr, cfg, s) && v == s.vouched && v <= w
    ensures s.round.Some? ==> GoodSnapshot(cr, cfg, w, s.round.value)
    ensures s.last.Some? ==> GoodSnapshot(cr, cfg, w, s.last.value)
    ensures forall a :: a in s.acking ==> Vouches(cr, w, a.0)
    ensures forall i :: 0 <= i < |s.completions| ==> GoodSnapshot(cr, cfg, w, s.completions[i].snap)
  {
  }

  lemma OpenGood(cr: Suite, cfg: Config, s: Client, meaning: Wire, at: Wire)
    requires SignsWhatVerifies(cr) && |cfg.key| == KEY_SIZE
    ensures var o := Open(cr, cfg, s, meaning, at);
            && o == s.(round := o.round, last := None, started := s.started + 1, vouched := s.vouched + {s.chain})
            && o.round.Some? && GoodSnapshot(cr, cfg, o.vouched, o.round.value)
  {
    hide Collected, Head, SealBytes;
    OpenCollects(cr, cfg, s, meaning, at);
  }

  lemma SealKeeps(cr: Suite, cfg: Config, s: Client, meaning: Wire, at: Wire)
    requires SignsWhatVerifies(cr) && |cfg.key| == KEY_SIZE && Inv(cr, cfg, s)
    ensures Inv(cr, cfg, ApplySeal(cr, cfg, s, meaning, at))
  {
    hide Collected, Head, Sound, SealBytes, GoodSnapshot, Open;
    var s' := ApplySeal(cr, cfg, s, meaning, at);
    OpenGood(cr, cfg, s, meaning, at);
    GoodGrows(cr, cfg, s.vouched, s'.vouched, s);
    forall a | a in s'.acking
      ensures Vouches(cr, s'.vouched, a.0)
    {
      if a !in s.acking {
        assert s.chain in s'.vouched && Head(cr, s.chain) == a.0;
      }
    }
  }

  lemma CompletionAppended(s: Client, c: Completion)
    requires History(s) && c.round == s.started
    requires if c.amended then s.round.None? && s.last.Some? else s.round.Some?
    ensures History(s.(round := None, last := Some(c.snap), completions := s.completions + [c]))
  {
    var cs := s.completions + [c];
    var n := |s.completions|;
    if c.amended {
      var i :| 0 <= i < n && !s.completions[i].amended && s.completions[i].round == s.started;
      assert !cs[i].amended && cs[i].round == cs[n].round;
    } else {
      assert !cs[n].amended && cs[n].round == s.started;
    }
    forall j | 0 <= j < |cs|
      ensures if cs[j].amended then exists i :: 0 <= i < j && !cs[i].amended && cs[i].round == cs[j].round
              else forall i :: 0 <= i < j ==> cs[i].round != cs[j].round
    {
      if j < n && cs[j].amended {
        assert s.completions[j].amended;
        var i :| 0 <= i < j && !s.completions[i].amended && s.completions[i].round == s.completions[j].round;
        assert !cs[i].amended && cs[i].round == cs[j].round;
      }
    }
  }

  lemma AckKeeps(cr: Suite, cfg: Config, s: Client, a: Ack)
    requires Inv(cr, cfg, s)
    ensures Inv(cr, cfg, ApplyAck(cr, cfg, s, a))
  {
    hide Collected, Head, Sound, SealBytes, History;
    if Current(s).Some? && ValidAck(cr, cfg.room, Current(s).value.head, a)
       && cr.fingerprint(a.pub) !in Current(s).value.sigs {
      var snap := Record(cr, Current(s).value, a);
      RecordCollects(cr, cfg.room, Current(s).value, a);
      assert GoodSnapshot(cr, cfg, s.vouched, snap);
      AckHistory(s, snap);
    }
  }

  lemma AckHistory(s: Client, snap: Snapshot)
    requires History(s) && Current(s).Some?
    ensures s.round.Some? ==> History(s.(round := Some(snap)))
    ensures s.round.None? ==>
      History(s.(last := Some(snap), completions := s.completions + [Completion(s.started, true, snap, s.retained)]))
  {
    if s.round.None? {
      CompletionAppended(s, Completion(s.started, true, snap, s.retained));
    }
  }

  lemma FinalizeKeeps(cr: Suite, cfg: Config, s: Client)
    requires Inv(cr, cfg, s)
    ensures Inv(cr, cfg, ApplyFinalize(s))
  {
    hide Collected, Head, Sound, History;
    if s.round.Some? {
      CompletionAppended(s, Completion(s.started, false, s.round.value, s.retained));
    }
  }

  lemma StepKeeps(cr: Suite, cfg: Config, log: SignedLog, s: Client, step: Step)
    requires SignsWhatVerifies(cr) && |cfg.key| == KEY_SIZE && Inv(cr, cfg, s) && Enabled(cr, s, log, step)
    ensures Inv(cr, cfg, Apply(cr, cfg, s, step))
    ensures forall m :: (cfg.key, m) in NewlySigned(cr, cfg, s, step) ==>
      exists head: Digest, meaning: Wire, name: Wire, at: Wire ::
        Vouches(cr, Apply(cr, cfg, s, step).vouched, head) && m == SealBytes(cfg.room, head, meaning, name, at)
  {
    hide Collected, Head, Sound, SealBytes, ApplySeal, ApplyAck, ApplyFinalize, ApplyRequest, ApplyNote, EntryVerifies, GoodSnapshot;
    match step
    case Note(spec, ts) => NoteKeeps(cr, cfg, s, spec, ts);
    case AddEntry(e) => SoundExtends(cr, s.chain, e);
    case Seal(meaning, at) =>
      SealKeeps(cr, cfg, s, meaning, at);
      SealVouches(cr, cfg, s, meaning, at);
    case Receive(a) => AckKeeps(cr, cfg, s, a);
    case Finalize => FinalizeKeeps(cr, cfg, s);
    case Request(head) => RequestKeeps(cr, cfg, s, head);
    case Vanish => EmptySound(cr);
    case _ =>
  }

  /** Nothing checks an own entry on its way into the chain; it verifies all the same. */
  lemma NoteKeeps(cr: Suite, cfg: Config, s: Client, spec: Spec, ts: I64)
    requires SignsWhatVerifies(cr) && |cfg.key| == KEY_SIZE && Inv(cr, cfg, s) && Recordable(spec)
    ensures Inv(cr, cfg, ApplyNote(cr, cfg, s, spec, ts))
    ensures ApplyNote(cr, cfg, s, spec, ts).vouched == s.vouched
  {
    hide Collected, Head, Sound, EntryVerifies, GoodSnapshot, Vouches, Canonical;
    if s.ready && |s.chain| < TWO64 {
      NewEntryVerifies(cr, s.chain, Self(cr, cfg), spec, ts);
      SoundExtends(cr, s.chain, NewEntry(cr, s.chain, Self(cr, cfg), spec, ts));
    }
  }

  lemma SealVouches(cr: Suite, cfg: Config, s: Client, meaning: Wire, at: Wire)
    ensures Initiates(s) ==> Vouches(cr, ApplySeal(cr, cfg, s, meaning, at).vouched, Head(cr, s.chain))
  {
  }

  lemma RequestKeeps(cr: Suite, cfg: Config, s: Client, head: Bytes)
    requires Inv(cr, cfg, s)
    ensures Inv(cr, cfg, ApplyRequest(s, head))
  {
    hide Collected, Head, Sound;
    if s.round.Some? {
      assert s.round.value.entries in s.vouched && Head(cr, s.round.value.entries) == s.round.value.head;
    }
  }

  lemma EmptySound(cr: Suite)
    ensures Sound(cr, [])
  {
  }
}
