/** Whole runs of the seal handshake: one client's trace, then any number of clients. */
module SealRuns {
  import opened Bytes
  import opened Framing
  import opened Crypto
  import opened Statements
  import opened Records
  import opened Sealing
  import opened SealRounds

  // ---- one client: the signers are exactly those whose co-signature was processed ----

  function After(cr: Suite, cfg: Config, s: Client, steps: seq<Step>): Client
    decreases |steps|
  {
    if steps == [] then s else After(cr, cfg, Apply(cr, cfg, s, steps[0]), steps[1..])
  }

  /** No new round and no /vanish. */
  predicate Quiet(cr: Suite, cfg: Config, s: Client, steps: seq<Step>)
    decreases |steps|
  {
    steps == [] ||
    (!steps[0].Vanish? && !(steps[0].Seal? && Initiates(s)) && Quiet(cr, cfg, Apply(cr, cfg, s, steps[0]), steps[1..]))
  }

  /** Step i is a valid co-signature by fingerprint f for head. */
  predicate SignsAt(cr: Suite, room: Str, head: Bytes, steps: seq<Step>, f: Str, i: int) {
    0 <= i < |steps| && steps[i].Receive? && ValidAck(cr, room, head, steps[i].ack) && cr.fingerprint(steps[i].ack.pub) == f
  }

  /** Step i is the first of them. */
  ghost predicate FirstSignsAt(cr: Suite, room: Str, head: Bytes, steps: seq<Step>, f: Str, i: int) {
    SignsAt(cr, room, head, steps, f, i) && forall j :: 0 <= j < i ==> !SignsAt(cr, room, head, steps, f, j)
  }

  /** The signer's signature, key and declared meaning are those of its first valid co-signature. */
  ghost predicate TakenFrom(snap: Snapshot, f: Str, a: Ack) {
    && f in snap.sigs && f in snap.keys && snap.sigs[f] == a.sig && snap.keys[f] == a.pub
    && (f in snap.endorse <==> a.meaning != [])
    && (f in snap.endorse ==> snap.endorse[f] == Endorsement(a.meaning, a.name, a.at))
  }

  /** to extends from: no signer, key, signature or endorsement is lost or replaced. */
  predicate Grows(from: Snapshot, to: Snapshot) {
    && to.head == from.head && to.entries == from.entries
    && (forall f :: f in from.sigs ==> f in to.sigs && to.sigs[f] == from.sigs[f])
    && (forall f :: f in from.keys ==> f in to.keys && to.keys[f] == from.keys[f])
    && (forall f :: f in from.sigs ==> (f in to.endorse <==> f in from.endorse))
    && (forall f :: f in from.sigs && f in from.endorse ==> to.endorse[f] == from.endorse[f])
  }

  predicate Paired(snap: Snapshot) {
    snap.keys.Keys == snap.sigs.Keys && snap.endorse.Keys <= snap.sigs.Keys
  }

  function FirstCompletions(cs: seq<Completion>): nat {
    if cs == [] then 0 else FirstCompletions(cs[..|cs| - 1]) + if cs[|cs| - 1].amended then 0 else 1
  }

  lemma {:induction false} FirstCompletionsConcat(a: seq<Completion>, b: seq<Completion>)
    ensures FirstCompletions(a + b) == FirstCompletions(a) + FirstCompletions(b)
  {
    if b == [] {
      assert a + b == a;
    } else {
      assert (a + b)[..|a + b| - 1] == a + b[..|b| - 1];
      FirstCompletionsConcat(a, b[..|b| - 1]);
    }
  }

  lemma CompletionsStep(cr: Suite, cfg: Config, s: Client, step: Step)
    ensures var s' := Apply(cr, cfg, s, step);
            && s.completions <= s'.completions
            && (s'.completions == s.completions
                || exists c :: s'.completions == s.completions + [c] && c.amended == s.round.None?)
            && (step.Finalize? && s.round.Some? ==> s'.completions != s.completions)
            && (s'.completions != s.completions && s.round.Some? ==> step.Finalize?)
  {
    hide ValidAck, SealBytes, Head, NewEntry;
    var s' := Apply(cr, cfg, s, step);
    if s'.completions != s.completions {
      var c := s'.completions[|s.completions|];
      assert s'.completions == s.completions + [c];
    }
  }

  /** One quiet step: the snapshot only grows, and the round's first completion is counted. */
  lemma QuietStep(cr: Suite, cfg: Config, s: Client, step: Step)
    requires Current(s).Some? && Paired(Current(s).value)
    requires !step.Vanish? && !(step.Seal? && Initiates(s))
    ensures var s' := Apply(cr, cfg, s, step);
            && Current(s').Some? && Paired(Current(s').value)
            && Grows(Current(s).value, Current(s').value)
            && (s.round.None? ==> s'.round.None?)
  {
    hide ValidAck, SealBytes, Head, NewEntry, Grows, Paired;
    GrowsReflexive(Current(s).value);
    if step.Receive? {
      RecordGrows(cr, Current(s).value, step.ack);
    } else {
      assert Current(Apply(cr, cfg, s, step)) == Current(s);
    }
  }

  lemma RecordGrows(cr: Suite, snap: Snapshot, a: Ack)
    requires Paired(snap)
    ensures cr.fingerprint(a.pub) !in snap.sigs ==>
      Paired(SealRounds.Record(cr, snap, a)) && Grows(snap, SealRounds.Record(cr, snap, a))
  {
  }

  lemma QuietStepCompletes(cr: Suite, cfg: Config, s: Client, step: Step)
    requires Current(s).Some? && !step.Vanish? && !(step.Seal? && Initiates(s))
    ensures var s' := Apply(cr, cfg, s, step);
            FirstCompletions(s'.completions) == FirstCompletions(s.completions) + (if s.round.Some? && s'.round.None? then 1 else 0)
  {
    hide ValidAck, SealBytes, Head, NewEntry, FirstCompletions;
    CompletionsStep(cr, cfg, s, step);
    var s' := Apply(cr, cfg, s, step);
    assert s.round.Some? && s'.round.None? <==> step.Finalize? && s.round.Some?;
    if s'.completions != s.completions {
      var c :| s'.completions == s.completions + [c] && c.amended == s.round.None?;
      FirstCompletionsConcat(s.completions, [c]);
      OneCompletion(c);
    }
  }

  lemma OneCompletion(c: Completion)
    ensures FirstCompletions([c]) == if c.amended then 0 else 1
  {
    assert [c][..0] == [];
  }

  /** Who one quiet step adds. */
  lemma QuietStepSigners(cr: Suite, cfg: Config, s: Client, step: Step, f: Str)
    requires Current(s).Some? && Paired(Current(s).value)
    requires !step.Vanish? && !(step.Seal? && Initiates(s))
    ensures var was, now := Current(s).value, Current(Apply(cr, cfg, s, step));
            && now.Some?
            && (f in now.value.sigs <==> f in was.sigs || SignsAt(cr, cfg.room, was.head, [step], f, 0))
            && (f in now.value.sigs && f !in was.sigs ==> step.Receive? && TakenFrom(now.value, f, step.ack))
  {
    hide ValidAck, SealBytes, Head, NewEntry, TakenFrom;
    if step.Receive? {
      RecordSigners(cr, Current(s).value, step.ack, f);
    } else {
      assert Current(Apply(cr, cfg, s, step)) == Current(s);
    }
  }

  lemma RecordSigners(cr: Suite, snap: Snapshot, a: Ack, f: Str)
    requires Paired(snap)
    ensures var next := SealRounds.Record(cr, snap, a);
            && (f in next.sigs <==> f in snap.sigs || f == cr.fingerprint(a.pub))
            && (f == cr.fingerprint(a.pub) && f !in snap.sigs ==> TakenFrom(next, f, a))
  {
  }

  /** A co-signature that is invalid, for another head, or from somebody already held changes nothing at all. */
  lemma RedundantAckIgnored(cr: Suite, cfg: Config, s: Client, a: Ack)
    requires Current(s).None? || !ValidAck(cr, cfg.room, Current(s).value.head, a)
             || cr.fingerprint(a.pub) in Current(s).value.sigs
    ensures Apply(cr, cfg, s, Receive(a)) == s
  {
  }

  /**
   Seal with amend. From any moment a seal is open or retained, over any interleaving of
   acknowledgements, requests, new entries and timers that starts no new round and does not vanish:
   the snapshot keeps its head and entries and only grows; its signers are exactly those it had and
   every fingerprint whose valid co-signature for that head was processed, before or after
   finalization; each new signer is held with the signature, key and meaning of its first valid
   co-signature; and the round is finalized at most once.
   */
  lemma {:induction false} SignersExactly(cr: Suite, cfg: Config, s: Client, steps: seq<Step>)
    requires Current(s).Some? && Paired(Current(s).value) && Quiet(cr, cfg, s, steps)
    ensures var was, end := Current(s).value, After(cr, cfg, s, steps);
            && Current(end).Some? && Paired(Current(end).value)
            && Grows(was, Current(end).value)
            && (forall f :: f in Current(end).value.sigs <==>
                  f in was.sigs || exists i :: SignsAt(cr, cfg.room, was.head, steps, f, i))
            && (forall f :: f in Current(end).value.sigs && f !in was.sigs ==>
                  exists i :: FirstSignsAt(cr, cfg.room, was.head, steps, f, i) && TakenFrom(Current(end).value, f, steps[i].ack))
            && FirstCompletions(end.completions) ==
                 FirstCompletions(s.completions) + (if s.round.Some? && end.round.None? then 1 else 0)
            && (s.round.None? ==> end.round.None?)
    decreases |steps|
  {
    hide ValidAck, Apply, TakenFrom, Paired;
    if steps != [] {
      var s1 := Apply(cr, cfg, s, steps[0]);
      QuietStep(cr, cfg, s, steps[0]);
      QuietStepCompletes(cr, cfg, s, steps[0]);
      SignersExactly(cr, cfg, s1, steps[1..]);
      var was, mid, now := Current(s).value, Current(s1).value, Current(After(cr, cfg, s, steps)).value;
      GrowsTransitive(was, mid, now);
      forall f
        ensures f in now.sigs <==> f in was.sigs || exists i :: SignsAt(cr, cfg.room, was.head, steps, f, i)
        ensures f in now.sigs && f !in was.sigs ==>
          exists i :: FirstSignsAt(cr, cfg.room, was.head, steps, f, i) && TakenFrom(now, f, steps[i].ack)
      {
        QuietStepSigners(cr, cfg, s, steps[0], f);
        SignersFrom(cr, cfg.room, was, mid, now, steps, f);
      }
    } else {
      hide Grows;
      GrowsReflexive(Current(s).value);
    }
  }

  lemma GrowsReflexive(a: Snapshot)
    ensures Grows(a, a)
  {
  }

  lemma GrowsTransitive(a: Snapshot, b: Snapshot, c: Snapshot)
    requires Grows(a, b) && Grows(b, c)
    ensures Grows(a, c)
  {
  }

  lemma SignersFrom(cr: Suite, room: Str, was: Snapshot, mid: Snapshot, now: Snapshot, steps: seq<Step>, f: Str)
    requires steps != [] && Grows(was, mid) && Grows(mid, now) && Paired(mid) && Paired(now)
    requires f in mid.sigs <==> f in was.sigs || SignsAt(cr, room, was.head, [steps[0]], f, 0)
    requires f in mid.sigs && f !in was.sigs ==> steps[0].Receive? && TakenFrom(mid, f, steps[0].ack)
    requires f in now.sigs <==> f in mid.sigs || exists i :: SignsAt(cr, room, was.head, steps[1..], f, i)
    requires f in now.sigs && f !in mid.sigs ==>
      exists i :: FirstSignsAt(cr, room, was.head, steps[1..], f, i) && TakenFrom(now, f, steps[1..][i].ack)
    ensures f in now.sigs <==> f in was.sigs || exists i :: SignsAt(cr, room, was.head, steps, f, i)
    ensures f in now.sigs && f !in was.sigs ==>
      exists i :: FirstSignsAt(cr, room, was.head, steps, f, i) && TakenFrom(now, f, steps[i].ack)
  {
    hide ValidAck;
    assert SignsAt(cr, room, was.head, [steps[0]], f, 0) <==> SignsAt(cr, room, was.head, steps, f, 0);
    forall i | 0 <= i < |steps| - 1
      ensures SignsAt(cr, room, was.head, steps[1..], f, i) <==> SignsAt(cr, room, was.head, steps, f, i + 1)
    {
    }
    if exists i :: SignsAt(cr, room, was.head, steps, f, i) {
      var i :| SignsAt(cr, room, was.head, steps, f, i);
      if i > 0 {
        assert SignsAt(cr, room, was.head, steps[1..], f, i - 1);
      }
    }
    if f in now.sigs && f !in was.sigs {
      if f in mid.sigs {
        assert FirstSignsAt(cr, room, was.head, steps, f, 0) && TakenFrom(now, f, steps[0].ack);
      } else {
        var i :| FirstSignsAt(cr, room, was.head, steps[1..], f, i) && TakenFrom(now, f, steps[1..][i].ack);
        LaterFirst(cr, room, was.head, steps, f, i);
        assert TakenFrom(now, f, steps[i + 1].ack);
      }
    }
  }

  lemma LaterFirst(cr: Suite, room: Str, head: Bytes, steps: seq<Step>, f: Str, i: int)
    requires steps != [] && FirstSignsAt(cr, room, head, steps[1..], f, i) && !SignsAt(cr, room, head, steps, f, 0)
    ensures FirstSignsAt(cr, room, head, steps, f, i + 1)
  {
    hide ValidAck;
    forall j | 0 <= j < i + 1
      ensures !SignsAt(cr, room, head, steps, f, j)
    {
      if j > 0 {
        assert !SignsAt(cr, room, head, steps[1..], f, j - 1);
        assert steps[1..][j - 1] == steps[j];
      }
    }
  }

  // ---- any number of clients ----

  datatype World = World(clients: map<Bytes, Client>, log: SignedLog)

  datatype WorldStep =
    | Local(key: Bytes, step: Step)
    | Elsewhere(key: Bytes, msg: Bytes)  // a signature made outside the seal handlers

  /** msg is no seal signature in any room. */
  ghost predicate NotSeal(msg: Bytes) {
    forall s: Statement :: (s.Seal? || s.SealV2?) && Encodable(s) ==> msg != Encode(s)
  }

  ghost predicate WorldEnabled(cr: Suite, w: World, ws: WorldStep) {
    match ws
    case Local(key, step) => key in w.clients && Enabled(cr, w.clients[key], w.log, step)
    case Elsewhere(key, msg) => key in w.clients ==> NotSeal(msg)
  }

  function WorldApply(cr: Suite, cfgs: map<Bytes, Config>, w: World, ws: WorldStep): World
    requires cfgs.Keys == w.clients.Keys
    requires ws.Local? ==> ws.key in w.clients
  {
    match ws
    case Local(key, step) =>
      World(w.clients[key := Apply(cr, cfgs[key], w.clients[key], step)],
            w.log + NewlySigned(cr, cfgs[key], w.clients[key], step))
    case Elsewhere(key, msg) => w.(log := w.log + {(key, msg)})
  }

  ghost predicate IsRun(cr: Suite, cfgs: map<Bytes, Config>, w: World, steps: seq<WorldStep>, end: World)
    decreases |steps|
  {
    if steps == [] then end == w
    else
      && WorldEnabled(cr, w, steps[0])
      && cfgs.Keys == w.clients.Keys
      && IsRun(cr, cfgs, WorldApply(cr, cfgs, w, steps[0]), steps[1..], end)
  }

  predicate Configured(cfgs: map<Bytes, Config>, w: World) {
    && cfgs.Keys == w.clients.Keys
    && forall k :: k in cfgs ==> cfgs[k].key == k && |k| == KEY_SIZE
  }

  ghost predicate Initial(w: World) {
    w.log == {} && forall k :: k in w.clients ==> w.clients[k] == FRESH_CLIENT
  }

  /** msg is a seal signature over the head of a chain this client vouched for. */
  ghost predicate SealsVouched(cr: Suite, cfg: Config, s: Client, msg: Bytes) {
    exists head: Digest, meaning: Wire, name: Wire, at: Wire ::
      Vouches(cr, s.vouched, head) && msg == SealBytes(cfg.room, head, meaning, name, at)
  }

  ghost predicate SignatureLogged(cr: Suite, cfg: Config, log: SignedLog, snap: Snapshot) {
    forall f :: f in snap.sigs && f in snap.keys ==> (snap.keys[f], SealPreimage(cfg.room, snap.head, snap.endorse, f)) in log
  }

  ghost predicate Logged(cr: Suite, cfg: Config, log: SignedLog, s: Client) {
    && (s.round.Some? ==> SignatureLogged(cr, cfg, log, s.round.value))
    && (s.last.Some? ==> SignatureLogged(cr, cfg, log, s.last.value))
    && (forall i :: 0 <= i < |s.completions| ==> SignatureLogged(cr, cfg, log, s.completions[i].snap))
  }

  ghost predicate ClientInv(cr: Suite, cfg: Config, log: SignedLog, s: Client) {
    && Inv(cr, cfg, s)
    && Logged(cr, cfg, log, s)
    && forall msg :: (cfg.key, msg) in log ==> NotSeal(msg) || SealsVouched(cr, cfg, s, msg)
  }

  ghost predicate WorldInv(cr: Suite, cfgs: map<Bytes, Config>, w: World) {
    && Configured(cfgs, w)
    && forall k :: k in w.clients ==> ClientInv(cr, cfgs[k], w.log, w.clients[k])
  }

  lemma VouchedGrows(cr: Suite, cfg: Config, s: Client, step: Step)
    ensures s.vouched <= Apply(cr, cfg, s, step).vouched
  {
  }

  lemma RecordLogged(cr: Suite, cfg: Config, log: SignedLog, snap: Snapshot, a: Ack)
    requires SignatureLogged(cr, cfg, log, snap) && Paired(snap) && Unforged(cr, log, a.pub, a.sig)
    requires ValidAck(cr, cfg.room, snap.head, a) && cr.fingerprint(a.pub) !in snap.sigs
    ensures SignatureLogged(cr, cfg, log, SealRounds.Record(cr, snap, a))
  {
    hide Encode;
    var f := cr.fingerprint(a.pub);
    var next := SealRounds.Record(cr, snap, a);
    assert SealPreimage(cfg.room, next.head, next.endorse, f) == SealBytes(cfg.room, snap.head, a.meaning, a.name, a.at);
    forall g | g in next.sigs && g in next.keys
      ensures (next.keys[g], SealPreimage(cfg.room, next.head, next.endorse, g)) in log
    {
      if g != f {
        assert SealPreimage(cfg.room, next.head, next.endorse, g) == SealPreimage(cfg.room, snap.head, snap.endorse, g);
      }
    }
  }

  lemma OpenLogged(cr: Suite, cfg: Config, log: SignedLog, s: Client, meaning: Wire, at: Wire)
    requires (cfg.key, SealBytes(cfg.room, Head(cr, s.chain), meaning, cfg.name, at)) in log
    ensures SignatureLogged(cr, cfg, log, Open(cr, cfg, s, meaning, at).round.value)
  {
  }

  lemma StepLogged(cr: Suite, cfg: Config, log: SignedLog, s: Client, step: Step)
    requires Inv(cr, cfg, s) && Logged(cr, cfg, log, s) && Enabled(cr, s, log, step)
    ensures Logged(cr, cfg, log + NewlySigned(cr, cfg, s, step), Apply(cr, cfg, s, step))
  {
    hide Head, SealBytes, History, EntryVerifies, Sound, Open, SignatureLogged, ApplyAck, Inv, Continues, Vouches;
    var log' := log + NewlySigned(cr, cfg, s, step);
    OtherKeeps(cr, cfg, log, log', s);
    if step.Seal? && Initiates(s) {
      OpenLogged(cr, cfg, log', s, step.meaning, step.at);
      OpenFields(cr, cfg, s, step.meaning, step.at);
    } else if step.Receive? {
      assert log' == log;
      AckLogged(cr, cfg, log, s, step.ack);
    }
  }

  lemma AckLogged(cr: Suite, cfg: Config, log: SignedLog, s: Client, a: Ack)
    requires Inv(cr, cfg, s) && Logged(cr, cfg, log, s) && Unforged(cr, log, a.pub, a.sig)
    ensures Logged(cr, cfg, log, ApplyAck(cr, cfg, s, a))
  {
    hide Head, History, Sound, SignatureLogged, Vouches, ValidAck, Unforged;
    if Current(s).Some? && ValidAck(cr, cfg.room, Current(s).value.head, a)
       && cr.fingerprint(a.pub) !in Current(s).value.sigs {
      assert Paired(Current(s).value) && SignatureLogged(cr, cfg, log, Current(s).value);
      RecordLogged(cr, cfg, log, Current(s).value, a);
    }
  }

  lemma OpenFields(cr: Suite, cfg: Config, s: Client, meaning: Wire, at: Wire)
    ensures var o := Open(cr, cfg, s, meaning, at);
            o.round.Some? && o.last == None && o.completions == s.completions
  {
  }

  lemma WorldStepKeeps(cr: Suite, cfgs: map<Bytes, Config>, w: World, ws: WorldStep)
    requires SignsWhatVerifies(cr) && WorldInv(cr, cfgs, w) && WorldEnabled(cr, w, ws)
    ensures WorldInv(cr, cfgs, WorldApply(cr, cfgs, w, ws))
  {
    hide Inv, Logged, Apply, NewlySigned, Enabled, NotSeal, SealsVouched;
    var w' := WorldApply(cr, cfgs, w, ws);
    assert w'.clients.Keys == w.clients.Keys;
    forall k | k in w'.clients
      ensures ClientInv(cr, cfgs[k], w'.log, w'.clients[k])
    {
      if ws.Local? && ws.key == k {
        ActingKeeps(cr, cfgs[k], w.log, w.clients[k], ws.step);
      } else {
        OtherKeeps(cr, cfgs[k], w.log, w'.log, w.clients[k]);
        assert forall msg :: (k, msg) in w'.log ==> (k, msg) in w.log || (ws.Elsewhere? && NotSeal(msg)) by {
          if ws.Local? {
            SignsAsItself(cr, cfgs[ws.key], w.clients[ws.key], ws.step);
          }
        }
      }
    }
  }

  lemma SignsAsItself(cr: Suite, cfg: Config, s: Client, step: Step)
    ensures forall e :: e in NewlySigned(cr, cfg, s, step) ==> e.0 == cfg.key
  {
  }

  lemma OtherKeeps(cr: Suite, cfg: Config, log: SignedLog, log': SignedLog, s: Client)
    requires Logged(cr, cfg, log, s) && log <= log'
    ensures Logged(cr, cfg, log', s)
  {
  }

  lemma ActingKeeps(cr: Suite, cfg: Config, log: SignedLog, s: Client, step: Step)
    requires SignsWhatVerifies(cr) && |cfg.key| == KEY_SIZE
    requires ClientInv(cr, cfg, log, s) && Enabled(cr, s, log, step)
    ensures ClientInv(cr, cfg, log + NewlySigned(cr, cfg, s, step), Apply(cr, cfg, s, step))
  {
    hide Inv, Logged, Apply, NewlySigned, Enabled, NotSeal, SealBytes, Head;
    StepKeeps(cr, cfg, log, s, step);
    StepLogged(cr, cfg, log, s, step);
    VouchedGrows(cr, cfg, s, step);
    var s' := Apply(cr, cfg, s, step);
    forall msg | (cfg.key, msg) in log + NewlySigned(cr, cfg, s, step)
      ensures NotSeal(msg) || SealsVouched(cr, cfg, s', msg)
    {
      if (cfg.key, msg) in log && !NotSeal(msg) {
        var head: Digest, meaning: Wire, name: Wire, at: Wire :|
          Vouches(cr, s.vouched, head) && msg == SealBytes(cfg.room, head, meaning, name, at);
        assert Vouches(cr, s'.vouched, head);
      }
    }
  }

  lemma {:induction false} RunKeeps(cr: Suite, cfgs: map<Bytes, Config>, w: World, steps: seq<WorldStep>, end: World)
    requires SignsWhatVerifies(cr) && WorldInv(cr, cfgs, w) && IsRun(cr, cfgs, w, steps, end)
    ensures WorldInv(cr, cfgs, end)
    decreases |steps|
  {
    hide WorldInv, WorldApply, Enabled, NotSeal;
    if steps != [] {
      WorldStepKeeps(cr, cfgs, w, steps[0]);
      RunKeeps(cr, cfgs, WorldApply(cr, cfgs, w, steps[0]), steps[1..], end);
    }
  }

  lemma InitialInv(cr: Suite, cfgs: map<Bytes, Config>, w: World)
    requires Configured(cfgs, w) && Initial(w)
    ensures WorldInv(cr, cfgs, w)
  {
  }

  /**
   In every run each round a client opens is completed at most once, anything else it emits is an
   amendment of a round already completed, and the record emitted last is the retained snapshot.
   */
  lemma EachRoundCompletesOnce(cr: Suite, cfgs: map<Bytes, Config>, w: World, steps: seq<WorldStep>, end: World, k: Bytes)
    requires SignsWhatVerifies(cr) && Configured(cfgs, w) && Initial(w) && IsRun(cr, cfgs, w, steps, end)
    requires k in end.clients
    ensures CompletedOnce(end.clients[k].completions)
    ensures forall c :: c in end.clients[k].completions ==> c.round <= end.clients[k].started
    ensures var s := end.clients[k];
            s.last.Some? ==> s.completions != [] && s.completions[|s.completions| - 1].snap == s.last.value
  {
    hide WorldApply, WorldEnabled, GoodSnapshot, Sound, Head;
    InitialInv(cr, cfgs, w);
    RunKeeps(cr, cfgs, w, steps, end);
    assert ClientInv(cr, cfgs[k], end.log, end.clients[k]);
  }

  /**
   Every record any client emits, first or amended, is accepted by the offline verifier with
   exactly the collected signers, the sealer among them: unless it carries approval proofs and two
   artifact entries name one proposal, and then it is refused.
   */
  lemma EmittedRecordsVerify(cr: Suite, pm: MetaParser, cfgs: map<Bytes, Config>, w: World, steps: seq<WorldStep>, end: World, k: Bytes, i: nat)
    requires SignsWhatVerifies(cr) && TextCodecs(cr)
    requires Configured(cfgs, w) && Initial(w) && IsRun(cr, cfgs, w, steps, end)
    requires k in end.clients && k in cfgs && i < |end.clients[k].completions|
    ensures var c := end.clients[k].completions[i];
            var r := Assemble(cr, pm, cfgs[k].room, SelfFpr(cr, cfgs[k]), c.snap, c.retained);
            && r.signatures.Keys == c.snap.sigs.Keys
            && r.sealedBy in r.signatures
            && (RecordVerifies(cr, pm, r) <==> r.approvals == map[] || DistinctProposals(pm, c.snap.entries))
  {
    hide WorldApply, WorldEnabled, Head, RecordVerifies, DistinctProposals, Collected, ChainVerifies, ApprovalsOf, VersionOf, History, Logged;
    InitialInv(cr, cfgs, w);
    RunKeeps(cr, cfgs, w, steps, end);
    assert ClientInv(cr, cfgs[k], end.log, end.clients[k]);
    var c := end.clients[k].completions[i];
    assert GoodSnapshot(cr, cfgs[k], end.clients[k].vouched, c.snap);
    AssembledVerifies(cr, pm, cfgs[k].room, SelfFpr(cr, cfgs[k]), c.snap, c.retained);
  }

  // ---- every signer held the sealed chain ----

  ghost predicate SameContent(xs: seq<Entry>, ys: seq<Entry>) {
    |xs| == |ys| && forall i :: 0 <= i < |xs| ==> SignedPart(xs[i]) == SignedPart(ys[i])
  }

  ghost predicate EntriesCollide(cr: Suite, xs: seq<Entry>, ys: seq<Entry>) {
    exists i, j :: 0 <= i < |xs| && 0 <= j < |ys| && Collide(cr, Canonical(xs[i]), Canonical(ys[j]))
  }

  function PreimageStatement(room: Str, snap: Snapshot, f: Str): Statement {
    if f in snap.endorse
    then SealV2(room, snap.endorse[f].meaning, snap.endorse[f].name, snap.endorse[f].signedAt, snap.head)
    else Statement.Seal(room, snap.head)
  }

  /** A modelled signer vouched for a chain with the head it signed. */
  lemma SignerHeld(cr: Suite, room: Wire, signerCfg: Config, log: SignedLog, signer: Client, snap: Snapshot, f: Str)
    returns (xs: seq<Entry>)
    requires ClientInv(cr, signerCfg, log, signer)
    requires (signerCfg.key, SealPreimage(room, snap.head, snap.endorse, f)) in log
    ensures xs in signer.vouched && Head(cr, xs) == snap.head
  {
    hide Encode, Head, Inv, Logged;
    var st := PreimageStatement(room, snap, f);
    var msg := SealPreimage(room, snap.head, snap.endorse, f);
    assert msg == Encode(st) && Encodable(st);
    assert SealsVouched(cr, signerCfg, signer, msg);
    var head: Digest, meaning: Wire, name: Wire, at: Wire :|
      Vouches(cr, signer.vouched, head) && msg == SealBytes(signerCfg.room, head, meaning, name, at);
    var signed := SealStatement(signerCfg.room, head, meaning, name, at);
    assert Encodable(signed);
    PreimagesDisjoint(st, signed);
    assert head == snap.head;
    xs :| xs in signer.vouched && Head(cr, xs) == head;
  }

  /**
   Nobody's signature is on a chain they did not hold. In every run, when a client emits a record,
   each signer that is itself a modelled client in the run had a chain of its own, verified entry
   by entry, with the same signed content as the sealed entries, or two canonical entries share a
   SHA-256 digest.
   */
  lemma SignersHeldTheChain(cr: Suite, cfgs: map<Bytes, Config>, w: World, steps: seq<WorldStep>, end: World,
                            k: Bytes, i: nat, f: Str)
    returns (xs: seq<Entry>)
    requires SignsWhatVerifies(cr)
    requires Configured(cfgs, w) && Initial(w) && IsRun(cr, cfgs, w, steps, end)
    requires k in end.clients && i < |end.clients[k].completions|
    requires var snap := end.clients[k].completions[i].snap;
             f in snap.sigs && f in snap.keys && snap.keys[f] in end.clients
    ensures var snap := end.clients[k].completions[i].snap;
            && xs in end.clients[snap.keys[f]].vouched && ChainVerifies(cr, xs)
            && (SameContent(xs, snap.entries) || EntriesCollide(cr, xs, snap.entries))
  {
    hide WorldApply, WorldEnabled, Head, SealBytes, SealPreimage, Canonical, ChainVerifies, Linked, History;
    InitialInv(cr, cfgs, w);
    RunKeeps(cr, cfgs, w, steps, end);
    assert ClientInv(cr, cfgs[k], end.log, end.clients[k]);
    var snap := end.clients[k].completions[i].snap;
    var signer := snap.keys[f];
    assert ClientInv(cr, cfgs[signer], end.log, end.clients[signer]);
    assert GoodSnapshot(cr, cfgs[k], end.clients[k].vouched, snap);
    xs := SignerHeld(cr, cfgs[k].room, cfgs[signer], end.log, end.clients[signer], snap, f);
    assert snap.entries in end.clients[k].vouched;
    HeadCommits(cr, xs, snap.entries);
  }

  // ---- the runs are not empty ----

  lemma {:induction false} RunSnoc(cr: Suite, cfgs: map<Bytes, Config>, w: World, steps: seq<WorldStep>, mid: World, ws: WorldStep)
    requires IsRun(cr, cfgs, w, steps, mid) && WorldEnabled(cr, mid, ws) && cfgs.Keys == mid.clients.Keys
    ensures IsRun(cr, cfgs, w, steps + [ws], WorldApply(cr, cfgs, mid, ws))
    decreases |steps|
  {
    hide WorldApply, Enabled, NotSeal;
    if steps == [] {
      assert ([] + [ws])[1..] == [];
    } else {
      assert (steps + [ws])[1..] == steps[1..] + [ws];
      RunSnoc(cr, cfgs, WorldApply(cr, cfgs, w, steps[0]), steps[1..], mid, ws);
    }
  }

  lemma LocalStep(cr: Suite, cfg: Config, w: World, steps: seq<WorldStep>, mid: World, step: Step)
    returns (longer: seq<WorldStep>, end: World)
    requires IsRun(cr, map[cfg.key := cfg], w, steps, mid) && mid.clients.Keys == {cfg.key}
    requires Enabled(cr, mid.clients[cfg.key], mid.log, step)
    ensures IsRun(cr, map[cfg.key := cfg], w, longer, end) && end.clients.Keys == {cfg.key}
    ensures end.clients[cfg.key] == Apply(cr, cfg, mid.clients[cfg.key], step)
  {
    hide Enabled, Apply, NewlySigned, NotSeal;
    longer, end := steps + [Local(cfg.key, step)], WorldApply(cr, map[cfg.key := cfg], mid, Local(cfg.key, step));
    RunSnoc(cr, map[cfg.key := cfg], w, steps, mid, Local(cfg.key, step));
  }

  /** A member alone in a room seals what it recorded: whatever entry it appends, its seal completes, signed by itself alone. */
  lemma LoneSealCompletes(cr: Suite, cfg: Config, spec: Spec, ts: I64, at: Wire) returns (steps: seq<WorldStep>, end: World)
    requires SignsWhatVerifies(cr) && |cfg.key| == KEY_SIZE && Recordable(spec)
    ensures IsRun(cr, map[cfg.key := cfg], World(map[cfg.key := FRESH_CLIENT], {}), steps, end)
    ensures cfg.key in end.clients && |end.clients[cfg.key].completions| == 1
    ensures var snap := end.clients[cfg.key].completions[0].snap;
            |snap.entries| == 1 && snap.sigs.Keys == {SelfFpr(cr, cfg)}
  {
    hide IsRun, EntryVerifies, Head, SealBytes, Canonical;
    var w := World(map[cfg.key := FRESH_CLIENT], {});
    StartsHere(cr, map[cfg.key := cfg], w);
    var p1, w1 := LocalStep(cr, cfg, w, [], w, Establish);
    var p2, w2 := LocalStep(cr, cfg, w, p1, w1, Note(spec, ts));
    var p3, w3 := LocalStep(cr, cfg, w, p2, w2, Step.Seal([], at));
    steps, end := LocalStep(cr, cfg, w, p3, w3, Finalize);
  }

  lemma StartsHere(cr: Suite, cfgs: map<Bytes, Config>, w: World)
    ensures IsRun(cr, cfgs, w, [], w)
  {
  }
}
