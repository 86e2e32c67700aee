/** Roster rounds of any number of clients: who signs, what they had seen, and what comes out. */
module RosterRuns {
  import opened Bytes
  import opened Framing
  import opened Crypto
  import opened Statements
  import opened Cosigning
  import opened Rosters

  datatype Config = Config(room: Wire, key: Bytes)

  /** A membership as this client sees it: the epoch and the member fingerprints, itself included. */
  datatype Sight = Sight(epoch: U64, fprs: seq<Str>)

  /** An open or finished round, with the snapshot it will be assembled from. */
  datatype Collection = Collection(epoch: U64, members: seq<Member>, setHash: Digest, round: Round)

  datatype Client = Client(ready: bool, epoch: U64, peers: seq<Bytes>, roster: Option<Collection>,
                           finished: seq<Collection>,  // every round finalized so far
                           signedOn: set<Sight>)       // what this client saw each time it signed

  const FRESH_CLIENT := Client(false, 0, [], None, [], {})

  datatype Step =
    | Membership(ready: bool, epoch: U64, peers: seq<Bytes>)  // joins, leaves and key rotations
    | SignRoster(members: seq<Member>)
    | Withdraw                                                // the request could not be sent, or /vanish
    | Request(setHash: Bytes, epoch: U64)                     // onRosterRequest
    | Acknowledge(setHash: Bytes, cosig: Cosig)               // onRosterAck
    | Finalize

  /** memberFprsLocked, up to order. */
  function MemberFprs(cr: Suite, cfg: Config, peers: seq<Bytes>): seq<Str> {
    [cr.fingerprint(cfg.key)] + seq(|peers|, i requires 0 <= i < |peers| => cr.fingerprint(peers[i]))
  }

  function SightOf(cr: Suite, cfg: Config, s: Client): Sight {
    Sight(s.epoch, MemberFprs(cr, cfg, s.peers))
  }

  function Opened(cr: Suite, cfg: Config, s: Client, members: seq<Member>): Collection {
    var h := SetHash(cr, Fprs(members));
    Collection(s.epoch, members, h, NewRound(cr, cfg.key, RosterBytes(cfg.room, s.epoch, h)))
  }

  predicate Starts(s: Client) {
    s.ready && s.roster.None?
  }

  /** The member's own view, hashed, is what it was asked to sign. */
  predicate Agrees(cr: Suite, cfg: Config, s: Client, setHash: Bytes, epoch: U64) {
    s.ready && s.epoch == epoch && SetHash(cr, MemberFprs(cr, cfg, s.peers)) == setHash
  }

  function Apply(cr: Suite, cfg: Config, s: Client, step: Step): Client {
    match step
    case Membership(ready, epoch, peers) => s.(ready := ready, epoch := epoch, peers := peers)
    case SignRoster(members) =>
      if Starts(s) then s.(roster := Some(Opened(cr, cfg, s, members)), signedOn := s.signedOn + {SightOf(cr, cfg, s)}) else s
    case Withdraw => s.(roster := None)
    case Request(setHash, epoch) =>
      if Agrees(cr, cfg, s, setHash, epoch) then s.(signedOn := s.signedOn + {SightOf(cr, cfg, s)}) else s
    case Acknowledge(setHash, cosig) =>
      if s.roster.None? || setHash != s.roster.value.setHash then s
      else s.(roster := Some(s.roster.value.(round := Absorb(cr, s.roster.value.round, cosig))))
    case Finalize =>
      if s.roster.None? then s else s.(roster := None, finished := s.finished + [s.roster.value])
  }

  function NewlySigned(cr: Suite, cfg: Config, s: Client, step: Step): SignedLog {
    match step
    case SignRoster(members) =>
      if Starts(s) then {(cfg.key, RosterBytes(cfg.room, s.epoch, SetHash(cr, Fprs(members))))} else {}
    case Request(setHash, epoch) =>
      if Agrees(cr, cfg, s, setHash, epoch) then {(cfg.key, RosterBytes(cfg.room, epoch, setHash))} else {}
    case _ => {}
  }

  /** The attester lists exactly its own members, in any order, with any names and verification marks. */
  ghost predicate Enabled(cr: Suite, cfg: Config, s: Client, log: SignedLog, step: Step) {
    match step
    case SignRoster(members) => multiset(Fprs(members)) == multiset(MemberFprs(cr, cfg, s.peers))
    case Acknowledge(_, cosig) => Unforged(cr, log, cosig.pub, cosig.sig)
    case _ => true
  }

  // ---- one round: exactly the valid acknowledgements are collected ----

  /** The co-signatures for a set hash among the steps, in order. */
  function CosigsFor(setHash: Bytes, steps: seq<Step>): seq<Cosig> {
    if steps == [] then []
    else (if steps[0].Acknowledge? && steps[0].setHash == setHash then [steps[0].cosig] else []) + CosigsFor(setHash, steps[1..])
  }

  function After(cr: Suite, cfg: Config, s: Client, steps: seq<Step>): Client
    decreases |steps|
  {
    if steps == [] then s else After(cr, cfg, Apply(cr, cfg, s, steps[0]), steps[1..])
  }

  predicate KeepsOpen(steps: seq<Step>) {
    forall i :: 0 <= i < |steps| ==> !steps[i].Withdraw? && !steps[i].Finalize?
  }

  lemma OpenStep(cr: Suite, cfg: Config, s: Client, step: Step)
    requires s.roster.Some? && !step.Withdraw? && !step.Finalize?
    ensures var c := s.roster.value;
            var s' := Apply(cr, cfg, s, step);
            && s'.finished == s.finished
            && s'.roster == Some(c.(round := AbsorbAll(cr, c.round, CosigsFor(c.setHash, [step]))))
  {
    hide Absorb, SetHash, RosterBytes, NewRound;
    var c := s.roster.value;
    assert [step][1..] == [];
    assert CosigsFor(c.setHash, [step]) == if step.Acknowledge? && step.setHash == c.setHash then [step.cosig] else [];
    if step.Acknowledge? && step.setHash == c.setHash {
      assert [step.cosig][1..] == [];
      assert AbsorbAll(cr, c.round, [step.cosig]) == Absorb(cr, c.round, step.cosig);
    }
  }

  lemma {:induction false} RoundAbsorbs(cr: Suite, cfg: Config, s: Client, steps: seq<Step>)
    requires s.roster.Some? && KeepsOpen(steps)
    ensures var c, end := s.roster.value, After(cr, cfg, s, steps);
            end.roster == Some(c.(round := AbsorbAll(cr, c.round, CosigsFor(c.setHash, steps)))) && end.finished == s.finished
    decreases |steps|
  {
    hide Apply;
    if steps != [] {
      var c := s.roster.value;
      OpenStep(cr, cfg, s, steps[0]);
      assert [steps[0]][1..] == [];
      assert CosigsFor(c.setHash, steps) == CosigsFor(c.setHash, [steps[0]]) + CosigsFor(c.setHash, steps[1..]);
      AbsorbAllConcat(cr, c.round, CosigsFor(c.setHash, [steps[0]]), CosigsFor(c.setHash, steps[1..]));
      RoundAbsorbs(cr, cfg, Apply(cr, cfg, s, steps[0]), steps[1..]);
    }
  }

  /**
   While a round stays open, whatever else happens, it holds the initiator and exactly the
   fingerprints whose valid co-signature for its set hash was processed.
   */
  lemma RoundCollects(cr: Suite, cfg: Config, s: Client, steps: seq<Step>)
    requires s.roster.Some? && Collected(cr, s.roster.value.round) && KeepsOpen(steps)
    ensures var c, end := s.roster.value, After(cr, cfg, s, steps);
            && end.roster.Some? && end.finished == s.finished
            && end.roster.value == c.(round := end.roster.value.round)
            && Collected(cr, end.roster.value.round)
            && end.roster.value.round.sigs.Keys ==
                 c.round.sigs.Keys + SignersIn(cr, c.round.preimage, CosigsFor(c.setHash, steps))
  {
    hide Collected, AbsorbAll, SignersIn, CosigsFor, After;
    RoundAbsorbs(cr, cfg, s, steps);
    AbsorbAllCollects(cr, s.roster.value.round, CosigsFor(s.roster.value.setHash, steps));
  }

  // ---- where a finished roster comes from ----

  lemma {:induction false} AfterConcat(cr: Suite, cfg: Config, s: Client, a: seq<Step>, b: seq<Step>)
    ensures After(cr, cfg, s, a + b) == After(cr, cfg, After(cr, cfg, s, a), b)
    decreases |a|
  {
    hide Apply;
    if a == [] {
      assert a + b == b;
    } else {
      assert (a + b)[1..] == a[1..] + b;
      AfterConcat(cr, cfg, Apply(cr, cfg, s, a[0]), a[1..], b);
    }
  }

  lemma AfterSnoc(cr: Suite, cfg: Config, s: Client, steps: seq<Step>, x: Step)
    ensures After(cr, cfg, s, steps + [x]) == Apply(cr, cfg, After(cr, cfg, s, steps), x)
  {
    hide Apply;
    AfterConcat(cr, cfg, s, steps, [x]);
    assert [x][1..] == [];
  }

  /** From a fresh start, step k opened a round that no later step withdrew or finalized. */
  predicate OpenSince(cr: Suite, cfg: Config, steps: seq<Step>, k: nat) {
    k < |steps| && steps[k].SignRoster? && Starts(After(cr, cfg, FRESH_CLIENT, steps[..k])) && KeepsOpen(steps[k + 1..])
  }

  /** The round step k opens. */
  function OpenedAt(cr: Suite, cfg: Config, steps: seq<Step>, k: nat): Collection
    requires k < |steps| && steps[k].SignRoster?
  {
    Opened(cr, cfg, After(cr, cfg, FRESH_CLIENT, steps[..k]), steps[k].members)
  }

  /** A round is open after a step only if the step opened it, or it was open and the step left it so. */
  lemma StaysOpen(cr: Suite, cfg: Config, s: Client, x: Step)
    requires Apply(cr, cfg, s, x).roster.Some?
    ensures if s.roster.None? then x.SignRoster? && Starts(s) else KeepsOpen([x])
  {
  }

  lemma OpenSinceSnoc(cr: Suite, cfg: Config, before: seq<Step>, x: Step, k: nat)
    requires OpenSince(cr, cfg, before, k) && KeepsOpen([x])
    ensures OpenSince(cr, cfg, before + [x], k)
  {
    hide After;
    var steps := before + [x];
    assert before[..k] == steps[..k] && steps[k + 1..] == before[k + 1..] + [x] && [x][0] == x;
  }

  lemma {:induction false} RoundOrigin(cr: Suite, cfg: Config, steps: seq<Step>) returns (k: nat)
    requires After(cr, cfg, FRESH_CLIENT, steps).roster.Some?
    ensures OpenSince(cr, cfg, steps, k)
    decreases |steps|
  {
    assert steps != [];
    hide After, Apply, KeepsOpen;
    var n := |steps| - 1;
    var before, x := steps[..n], steps[n];
    assert steps == before + [x];
    AfterSnoc(cr, cfg, FRESH_CLIENT, before, x);
    StaysOpen(cr, cfg, After(cr, cfg, FRESH_CLIENT, before), x);
    if After(cr, cfg, FRESH_CLIENT, before).roster.None? {
      k := n;
      assert steps[n + 1..] == [] && KeepsOpen([]) by { NothingCloses(); }
    } else {
      k := RoundOrigin(cr, cfg, before);
      OpenSinceSnoc(cr, cfg, before, x, k);
    }
  }

  lemma NothingCloses()
    ensures KeepsOpen([])
  {
  }

  /** An open round is the one it was opened as, with exactly the valid co-signers since. */
  lemma OpenRoundCollected(cr: Suite, cfg: Config, steps: seq<Step>, k: nat)
    requires SignsWhatVerifies(cr) && |cfg.key| == KEY_SIZE && OpenSince(cr, cfg, steps, k)
    ensures var c, o := After(cr, cfg, FRESH_CLIENT, steps).roster, OpenedAt(cr, cfg, steps, k);
            && c.Some? && c.value == o.(round := c.value.round)
            && c.value.round.sigs.Keys ==
                 {cr.fingerprint(cfg.key)} + SignersIn(cr, o.round.preimage, CosigsFor(o.setHash, steps[k + 1..]))
  {
    hide RosterBytes, SetHash, CosigsFor, SignersIn, KeepsOpen, Collected, SightOf;
    var s := After(cr, cfg, FRESH_CLIENT, steps[..k]);
    var o := OpenedAt(cr, cfg, steps, k);
    assert steps == (steps[..k] + [steps[k]]) + steps[k + 1..];
    AfterSnoc(cr, cfg, FRESH_CLIENT, steps[..k], steps[k]);
    AfterConcat(cr, cfg, FRESH_CLIENT, steps[..k] + [steps[k]], steps[k + 1..]);
    NewRoundCollected(cr, cfg.key, o.round.preimage);
    RoundCollects(cr, cfg, Apply(cr, cfg, s, steps[k]), steps[k + 1..]);
  }

  /** c is what the last of these steps finalized: the round some step opened, signed by self and exactly the valid co-signers since. */
  ghost predicate FinishedBy(cr: Suite, cfg: Config, steps: seq<Step>, c: Collection) {
    && steps != [] && steps[|steps| - 1].Finalize?
    && exists k :: OpenSince(cr, cfg, steps[..|steps| - 1], k)
         && var o := OpenedAt(cr, cfg, steps, k);
            c == o.(round := c.round)
            && c.round.sigs.Keys ==
                 {cr.fingerprint(cfg.key)} + SignersIn(cr, o.round.preimage, CosigsFor(o.setHash, steps[k + 1..|steps| - 1]))
  }

  lemma LastFinished(cr: Suite, cfg: Config, before: seq<Step>)
    requires SignsWhatVerifies(cr) && |cfg.key| == KEY_SIZE && After(cr, cfg, FRESH_CLIENT, before).roster.Some?
    ensures FinishedBy(cr, cfg, before + [Finalize], After(cr, cfg, FRESH_CLIENT, before).roster.value)
  {
    hide After, Opened, CosigsFor, SignersIn, OpenSince;
    var steps := before + [Finalize];
    assert steps[..|steps| - 1] == before;
    var k := RoundOrigin(cr, cfg, before);
    assert k < |before| && before[k].SignRoster? by {
      OpensThere(cr, cfg, before, k);
    }
    OpenRoundCollected(cr, cfg, before, k);
    assert steps[..k] == before[..k] && steps[k] == before[k] && steps[k + 1..|steps| - 1] == before[k + 1..];
    assert OpenedAt(cr, cfg, steps, k) == OpenedAt(cr, cfg, before, k);
  }

  lemma OpensThere(cr: Suite, cfg: Config, steps: seq<Step>, k: nat)
    requires OpenSince(cr, cfg, steps, k)
    ensures k < |steps| && steps[k].SignRoster?
  {
  }

  /** Some prefix of the steps finalized c. */
  ghost predicate Originates(cr: Suite, cfg: Config, steps: seq<Step>, c: Collection) {
    exists j :: 0 < j <= |steps| && FinishedBy(cr, cfg, steps[..j], c)
  }

  lemma {:induction false} FinishedOrigin(cr: Suite, cfg: Config, steps: seq<Step>, i: nat)
    requires SignsWhatVerifies(cr) && |cfg.key| == KEY_SIZE && i < |After(cr, cfg, FRESH_CLIENT, steps).finished|
    ensures Originates(cr, cfg, steps, After(cr, cfg, FRESH_CLIENT, steps).finished[i])
    decreases |steps|
  {
    hide FinishedBy, Opened, SightOf, Agrees, Absorb;
    assert steps != [];
    var n := |steps| - 1;
    var before, x := steps[..n], steps[n];
    assert steps == before + [x] && steps[..|steps|] == steps;
    AfterSnoc(cr, cfg, FRESH_CLIENT, before, x);
    var s := After(cr, cfg, FRESH_CLIENT, before);
    if i < |s.finished| {
      FinishedOrigin(cr, cfg, before, i);
      var j :| 0 < j <= n && FinishedBy(cr, cfg, before[..j], s.finished[i]);
      assert steps[..j] == before[..j];
    } else {
      LastFinished(cr, cfg, before);
    }
  }

  // ---- runs ----

  datatype World = World(clients: map<Bytes, Client>, log: SignedLog)

  datatype WorldStep =
    | Local(key: Bytes, step: Step)
    | Elsewhere(key: Bytes, msg: Bytes)  // a signature made outside the roster handlers

  ghost predicate NotRoster(msg: Bytes) {
    forall s: Statement :: s.Roster? && Encodable(s) ==> msg != Encode(s)
  }

  ghost predicate WorldEnabled(cr: Suite, cfgs: map<Bytes, Config>, w: World, ws: WorldStep) {
    match ws
    case Local(key, step) => key in w.clients && key in cfgs && Enabled(cr, cfgs[key], w.clients[key], w.log, step)
    case Elsewhere(key, msg) => key in w.clients ==> NotRoster(msg)
  }

  function WorldApply(cr: Suite, cfgs: map<Bytes, Config>, w: World, ws: WorldStep): World
    requires ws.Local? ==> ws.key in w.clients && ws.key in cfgs
  {
    match ws
    case Local(key, step) =>
      World(w.clients[key := Apply(cr, cfgs[key], w.clients[key], step)],
            w.log + NewlySigned(cr, cfgs[key], w.clients[key], step))
    case Elsewhere(key, msg) => w.(log := w.log + {(key, msg)})
  }

  ghost predicate IsRun(cr: Suite, cfgs: map<Bytes, Config>, w: World, steps: seq<WorldStep>, end: World)
    decreases |steps|
  {
    if steps == [] then end == w
    else
      WorldEnabled(cr, cfgs, w, steps[0]) && IsRun(cr, cfgs, WorldApply(cr, cfgs, w, steps[0]), steps[1..], end)
  }

  predicate Configured(cfgs: map<Bytes, Config>, w: World) {
    && cfgs.Keys == w.clients.Keys
    && forall k :: k in cfgs ==> cfgs[k].key == k && |k| == KEY_SIZE
  }

  ghost predicate Initial(w: World) {
    w.log == {} && forall k :: k in w.clients ==> w.clients[k] == FRESH_CLIENT
  }

  /** A collection is sound: it collects over its own snapshot, and every signature in it was really made. */
  ghost predicate GoodCollection(cr: Suite, cfg: Config, log: SignedLog, signedOn: set<Sight>, c: Collection) {
    && Collected(cr, c.round)
    && c.setHash == SetHash(cr, Fprs(c.members))
    && c.round.preimage == RosterBytes(cfg.room, c.epoch, c.setHash)
    && (forall f :: f in c.round.keys ==> (c.round.keys[f], c.round.preimage) in log)
    && (exists v :: v in signedOn && v.epoch == c.epoch && multiset(v.fprs) == multiset(Fprs(c.members)))
  }

  /** msg is a roster signature over something this client saw. */
  ghost predicate SignedSight(cr: Suite, cfg: Config, signedOn: set<Sight>, msg: Bytes) {
    exists v :: v in signedOn && msg == RosterBytes(cfg.room, v.epoch, SetHash(cr, v.fprs))
  }

  ghost predicate Fingerprints(cr: Suite, fprs: seq<Str>) {
    forall i :: 0 <= i < |fprs| ==> exists k :: cr.fingerprint(k) == fprs[i]
  }

  ghost predicate ClientInv(cr: Suite, cfg: Config, log: SignedLog, s: Client) {
    && (s.roster.Some? ==> GoodCollection(cr, cfg, log, s.signedOn, s.roster.value))
    && (forall i :: 0 <= i < |s.finished| ==> GoodCollection(cr, cfg, log, s.signedOn, s.finished[i]))
    && (forall v :: v in s.signedOn ==> Fingerprints(cr, v.fprs))
    && forall msg :: (cfg.key, msg) in log ==> NotRoster(msg) || SignedSight(cr, cfg, s.signedOn, msg)
  }

  ghost predicate WorldInv(cr: Suite, cfgs: map<Bytes, Config>, w: World) {
    && Configured(cfgs, w)
    && forall k :: k in w.clients ==> ClientInv(cr, cfgs[k], w.log, w.clients[k])
  }

  lemma GoodGrows(cr: Suite, cfg: Config, log: SignedLog, log': SignedLog, v: set<Sight>, v': set<Sight>, c: Collection)
    requires GoodCollection(cr, cfg, log, v, c) && log <= log' && v <= v'
    ensures GoodCollection(cr, cfg, log', v', c)
  {
  }

  lemma OpenedGood(cr: Suite, cfg: Config, log: SignedLog, s: Client, members: seq<Member>)
    requires SignsWhatVerifies(cr) && |cfg.key| == KEY_SIZE
    requires multiset(Fprs(members)) == multiset(MemberFprs(cr, cfg, s.peers))
    requires (cfg.key, RosterBytes(cfg.room, s.epoch, SetHash(cr, Fprs(members)))) in log
    ensures GoodCollection(cr, cfg, log, s.signedOn + {SightOf(cr, cfg, s)}, Opened(cr, cfg, s, members))
  {
    hide SetHash, RosterBytes, Fprs, MemberFprs;
    var c := Opened(cr, cfg, s, members);
    NewRoundCollected(cr, cfg.key, c.round.preimage);
    assert SightOf(cr, cfg, s) in s.signedOn + {SightOf(cr, cfg, s)};
  }

  lemma AbsorbedGood(cr: Suite, cfg: Config, log: SignedLog, v: set<Sight>, c: Collection, cosig: Cosig)
    requires GoodCollection(cr, cfg, log, v, c) && Unforged(cr, log, cosig.pub, cosig.sig)
    ensures GoodCollection(cr, cfg, log, v, c.(round := Absorb(cr, c.round, cosig)))
  {
    hide SetHash, RosterBytes, Fprs;
    AbsorbCollected(cr, c.round, cosig);
  }

  lemma MembersAreFingerprints(cr: Suite, cfg: Config, peers: seq<Bytes>)
    ensures Fingerprints(cr, MemberFprs(cr, cfg, peers))
  {
  }

  /** Only a match, or the client's own snapshot, is ever signed. */
  lemma SignsWhatItSaw(cr: Suite, cfg: Config, s: Client, log: SignedLog, step: Step, msg: Bytes)
    requires Enabled(cr, cfg, s, log, step) && (cfg.key, msg) in NewlySigned(cr, cfg, s, step)
    ensures SignedSight(cr, cfg, Apply(cr, cfg, s, step).signedOn, msg)
  {
    hide SetPreimage, RosterBytes, Fprs, MemberFprs;
    var v := SightOf(cr, cfg, s);
    assert v in Apply(cr, cfg, s, step).signedOn;
    if step.SignRoster? {
      SetPreimageCanonical(Fprs(step.members), MemberFprs(cr, cfg, s.peers));
    }
    assert msg == RosterBytes(cfg.room, v.epoch, SetHash(cr, v.fprs));
  }

  lemma ActingKeeps(cr: Suite, cfg: Config, log: SignedLog, s: Client, step: Step)
    requires SignsWhatVerifies(cr) && |cfg.key| == KEY_SIZE
    requires ClientInv(cr, cfg, log, s) && Enabled(cr, cfg, s, log, step)
    ensures ClientInv(cr, cfg, log + NewlySigned(cr, cfg, s, step), Apply(cr, cfg, s, step))
  {
    hide SetHash, RosterBytes, GoodCollection, NotRoster, Opened, Fingerprints, MemberFprs, Fprs;
    var log', s' := log + NewlySigned(cr, cfg, s, step), Apply(cr, cfg, s, step);
    forall c | (s.roster == Some(c)) || c in s.finished
      ensures GoodCollection(cr, cfg, log', s'.signedOn, c)
    {
      GoodGrows(cr, cfg, log, log', s.signedOn, s'.signedOn, c);
    }
    match step {
      case SignRoster(members) =>
        if Starts(s) {
          OpenedGood(cr, cfg, log', s, members);
        }
      case Acknowledge(setHash, cosig) =>
        if s.roster.Some? {
          assert log' == log;
          AbsorbedGood(cr, cfg, log, s.signedOn, s.roster.value, cosig);
        }
      case _ =>
    }
    MembersAreFingerprints(cr, cfg, s.peers);
    ActingLog(cr, cfg, log, s, step);
  }

  lemma ActingLog(cr: Suite, cfg: Config, log: SignedLog, s: Client, step: Step)
    requires Enabled(cr, cfg, s, log, step)
    requires forall msg :: (cfg.key, msg) in log ==> NotRoster(msg) || SignedSight(cr, cfg, s.signedOn, msg)
    ensures forall msg :: (cfg.key, msg) in log + NewlySigned(cr, cfg, s, step) ==>
      NotRoster(msg) || SignedSight(cr, cfg, Apply(cr, cfg, s, step).signedOn, msg)
  {
    hide SetHash, RosterBytes, NotRoster, Enabled, NewlySigned, MemberFprs;
    forall msg | (cfg.key, msg) in log + NewlySigned(cr, cfg, s, step)
      ensures NotRoster(msg) || SignedSight(cr, cfg, Apply(cr, cfg, s, step).signedOn, msg)
    {
      if (cfg.key, msg) !in log {
        SignsWhatItSaw(cr, cfg, s, log, step, msg);
      } else if !NotRoster(msg) {
        var v :| v in s.signedOn && msg == RosterBytes(cfg.room, v.epoch, SetHash(cr, v.fprs));
        assert v in Apply(cr, cfg, s, step).signedOn;
      }
    }
  }

  lemma WaitingKeeps(cr: Suite, cfg: Config, log: SignedLog, log': SignedLog, s: Client)
    requires ClientInv(cr, cfg, log, s) && log <= log'
    requires forall msg :: (cfg.key, msg) in log' && (cfg.key, msg) !in log ==> NotRoster(msg)
    ensures ClientInv(cr, cfg, log', s)
  {
    hide SetHash, RosterBytes, GoodCollection, NotRoster, Fingerprints;
    forall c | (s.roster == Some(c)) || c in s.finished
      ensures GoodCollection(cr, cfg, log', s.signedOn, c)
    {
      GoodGrows(cr, cfg, log, log', s.signedOn, s.signedOn, c);
    }
  }

  lemma SignsAsItself(cr: Suite, cfg: Config, s: Client, step: Step)
    ensures forall e :: e in NewlySigned(cr, cfg, s, step) ==> e.0 == cfg.key
  {
  }

  lemma WorldStepKeeps(cr: Suite, cfgs: map<Bytes, Config>, w: World, ws: WorldStep)
    requires SignsWhatVerifies(cr) && WorldInv(cr, cfgs, w) && WorldEnabled(cr, cfgs, w, ws)
    ensures WorldInv(cr, cfgs, WorldApply(cr, cfgs, w, ws))
  {
    hide ClientInv, Apply, NewlySigned, Enabled, NotRoster;
    var w' := WorldApply(cr, cfgs, w, ws);
    assert w'.clients.Keys == w.clients.Keys;
    if ws.Local? {
      SignsAsItself(cr, cfgs[ws.key], w.clients[ws.key], ws.step);
    }
    forall k | k in w'.clients
      ensures ClientInv(cr, cfgs[k], w'.log, w'.clients[k])
    {
      if ws.Local? && ws.key == k {
        ActingKeeps(cr, cfgs[k], w.log, w.clients[k], ws.step);
      } else {
        WaitingKeeps(cr, cfgs[k], w.log, w'.log, w.clients[k]);
      }
    }
  }

  lemma {:induction false} RunKeeps(cr: Suite, cfgs: map<Bytes, Config>, w: World, steps: seq<WorldStep>, end: World)
    requires SignsWhatVerifies(cr) && WorldInv(cr, cfgs, w) && IsRun(cr, cfgs, w, steps, end)
    ensures WorldInv(cr, cfgs, end)
    decreases |steps|
  {
    hide WorldInv, WorldApply, Enabled, NotRoster;
    if steps != [] {
      WorldStepKeeps(cr, cfgs, w, steps[0]);
      RunKeeps(cr, cfgs, WorldApply(cr, cfgs, w, steps[0]), steps[1..], end);
    }
  }

  lemma InitialInv(cr: Suite, cfgs: map<Bytes, Config>, w: World)
    requires Configured(cfgs, w) && Initial(w)
    ensures WorldInv(cr, cfgs, w)
  {
  }

  /** One client's own steps in a run. */
  function StepsOf(steps: seq<WorldStep>, k: Bytes): seq<Step> {
    if steps == [] then []
    else (if steps[0].Local? && steps[0].key == k then [steps[0].step] else []) + StepsOf(steps[1..], k)
  }

  lemma {:induction false} OwnSteps(cr: Suite, cfgs: map<Bytes, Config>, w: World, steps: seq<WorldStep>, end: World, k: Bytes)
    requires IsRun(cr, cfgs, w, steps, end) && k in w.clients && k in cfgs
    ensures k in end.clients && end.clients[k] == After(cr, cfgs[k], w.clients[k], StepsOf(steps, k))
    decreases |steps|
  {
    hide Apply, Enabled, NewlySigned, NotRoster;
    if steps != [] {
      OwnSteps(cr, cfgs, WorldApply(cr, cfgs, w, steps[0]), steps[1..], end, k);
      if steps[0].Local? && steps[0].key == k {
        assert StepsOf(steps, k)[1..] == StepsOf(steps[1..], k);
      } else {
        assert StepsOf(steps, k) == StepsOf(steps[1..], k);
      }
    }
  }

  /**
   Every roster any client finalizes, in every run, is accepted by the offline verifier; and its
   signers are the client and exactly the fingerprints whose valid co-signature for that roster's set
   hash it processed between the opening and the finalizing of the round.
   */
  lemma FinishedRostersAttest(cr: Suite, cfgs: map<Bytes, Config>, w: World, steps: seq<WorldStep>, end: World,
                              k: Bytes, i: nat, r: Attestation)
    requires SignsWhatVerifies(cr) && TextCodecs(cr)
    requires Configured(cfgs, w) && Initial(w) && IsRun(cr, cfgs, w, steps, end)
    requires k in end.clients && k in cfgs && i < |end.clients[k].finished|
    requires var c := end.clients[k].finished[i];
             Assembled(cr, cfgs[k].room, c.epoch, cr.fingerprint(k), c.members, c.round, r)
    ensures Attests(cr, r) && r.signatures.Keys == end.clients[k].finished[i].round.sigs.Keys
    ensures Originates(cr, cfgs[k], StepsOf(steps, k), end.clients[k].finished[i])
  {
    hide IsRun, After, Originates, WorldApply, WorldEnabled, SetHash, RosterBytes, Collected, Assembled, Attests, NotRoster, SignedSight, Fingerprints;
    InitialInv(cr, cfgs, w);
    RunKeeps(cr, cfgs, w, steps, end);
    assert ClientInv(cr, cfgs[k], end.log, end.clients[k]);
    var c := end.clients[k].finished[i];
    assert GoodCollection(cr, cfgs[k], end.log, end.clients[k].signedOn, c);
    AssembledAttests(cr, cfgs[k].room, c.epoch, cr.fingerprint(k), c.members, c.round, r);
    OwnSteps(cr, cfgs, w, steps, end, k);
    FinishedOrigin(cr, cfgs[k], StepsOf(steps, k), i);
  }

  // ---- every signer saw the set it attests ----

  /** Fingerprints are non-empty and hold no newline. */
  ghost predicate CleanFingerprints(cr: Suite) {
    forall k :: Clean(cr.fingerprint(k))
  }

  lemma SightClean(cr: Suite, fprs: seq<Str>)
    requires CleanFingerprints(cr) && Fingerprints(cr, fprs)
    ensures AllClean(fprs)
  {
  }

  /** Equal roster preimages state one room, epoch and set hash. */
  lemma RosterBytesInjective(r1: Wire, e1: U64, h1: Digest, r2: Wire, e2: U64, h2: Digest)
    requires RosterBytes(r1, e1, h1) == RosterBytes(r2, e2, h2)
    ensures r1 == r2 && e1 == e2 && h1 == h2
    ensures !NotRoster(RosterBytes(r1, e1, h1))
  {
    hide Encode;
    var a, b := Statement.Roster(r1, e1, h1), Statement.Roster(r2, e2, h2);
    assert Encodable(a) && Encodable(b);
    PreimagesDisjoint(a, b);
  }

  /**
   A member co-signs only what it sees. In every run, each signer of a finalized roster that is
   itself a modelled client had signed while its own room, epoch and multiset of member
   fingerprints were exactly the attested ones, or two membership preimages share a SHA-256 digest.
   */
  lemma SignersSawTheSet(cr: Suite, cfgs: map<Bytes, Config>, w: World, steps: seq<WorldStep>, end: World,
                         k: Bytes, i: nat, f: Str)
    returns (v: Sight)
    requires SignsWhatVerifies(cr) && CleanFingerprints(cr)
    requires Configured(cfgs, w) && Initial(w) && IsRun(cr, cfgs, w, steps, end)
    requires k in end.clients && i < |end.clients[k].finished|
    requires var c := end.clients[k].finished[i]; f in c.round.keys && c.round.keys[f] in end.clients
    ensures var c := end.clients[k].finished[i];
            && k in cfgs && c.round.keys[f] in cfgs && cfgs[c.round.keys[f]].room == cfgs[k].room
            && v in end.clients[c.round.keys[f]].signedOn
            && v.epoch == c.epoch
            && (multiset(v.fprs) == multiset(Fprs(c.members)) || Collide(cr, SetPreimage(v.fprs), SetPreimage(Fprs(c.members))))
  {
    hide WorldApply, WorldEnabled, SetHash, RosterBytes, Collected, NotRoster, Fingerprints, SetPreimage;
    InitialInv(cr, cfgs, w);
    RunKeeps(cr, cfgs, w, steps, end);
    var c := end.clients[k].finished[i];
    var signer := c.round.keys[f];
    assert ClientInv(cr, cfgs[k], end.log, end.clients[k]);
    assert ClientInv(cr, cfgs[signer], end.log, end.clients[signer]);
    assert GoodCollection(cr, cfgs[k], end.log, end.clients[k].signedOn, c);
    assert (signer, c.round.preimage) in end.log;
    RosterBytesInjective(cfgs[k].room, c.epoch, c.setHash, cfgs[k].room, c.epoch, c.setHash);
    assert SignedSight(cr, cfgs[signer], end.clients[signer].signedOn, c.round.preimage);
    v :| v in end.clients[signer].signedOn && c.round.preimage == RosterBytes(cfgs[signer].room, v.epoch, SetHash(cr, v.fprs));
    RosterBytesInjective(cfgs[k].room, c.epoch, c.setHash, cfgs[signer].room, v.epoch, SetHash(cr, v.fprs));
    SightClean(cr, v.fprs);
    var own :| own in end.clients[k].signedOn && own.epoch == c.epoch && multiset(own.fprs) == multiset(Fprs(c.members));
    SightClean(cr, own.fprs);
    CleanMultiset(own.fprs, Fprs(c.members));
    SetHashDetermines(cr, v.fprs, Fprs(c.members));
  }

  lemma CleanMultiset(a: seq<Str>, b: seq<Str>)
    requires AllClean(a) && multiset(a) == multiset(b)
    ensures AllClean(b)
  {
    forall i | 0 <= i < |b|
      ensures Clean(b[i])
    {
      assert b[i] in multiset(b);
      assert b[i] in multiset(a);
      var j :| 0 <= j < |a| && a[j] == b[i];
    }
  }
}
