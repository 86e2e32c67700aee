/**
 The argv layer: Go's flag parser, which stops at the first positional, and the loop around it that
 re-parses what is left so that flags may follow positionals.
 */
module CliArgs {
  import opened Bytes

  const DASH: Byte := 45
  const EQUALS: Byte := 61

  function Terminator(): Str { [DASH, DASH] }

  datatype Kind = Switch | Valued  // a flag that needs no argument, and one that does

  /** A flag set: the defined flags, and which values each one's Set accepts. */
  datatype Flags = Flags(kinds: map<Str, Kind>, accepts: (Str, Str) -> bool)

  /** One call of a flag's Set. Whatever a flag does with its values, it sees this sequence. */
  datatype Setting = Setting(name: Str, value: Str)

  // ---- one token: flag.FlagSet.parseOne ----

  datatype Read =
    | Stop                                   // not a flag
    | Ended                                  // a bare "--", consumed
    | Bad                                    // a syntax error, an undefined flag, a missing or refused value
    | Flag(setting: Setting, used: nat)      // one token, or two when the value is the next one

  /** The position of the first '=' at or after i, or the length. */
  function EqualsAt(name: Str, i: nat): (n: nat)
    requires i <= |name|
    ensures i <= n <= |name|
    decreases |name| - i
  {
    if i == |name| || name[i] == EQUALS then i else EqualsAt(name, i + 1)
  }

  /** What follows the dashes of a flag token. */
  function NameOf(s: Str): Str
    requires |s| >= 2
  {
    if s[1] == DASH then s[2..] else s[1..]
  }

  function ReadOne(fl: Flags, args: seq<Str>): (r: Read)
    requires args != []
    ensures r.Flag? ==> 1 <= r.used <= 2 && r.used <= |args|
  {
    var s := args[0];
    if |s| < 2 || s[0] != DASH then Stop
    else if s == Terminator() then Ended
    else
      var name := NameOf(s);
      if name == [] || name[0] == DASH || name[0] == EQUALS then Bad
      else
        var eq := EqualsAt(name, 1);
        var key := name[..eq];
        if key !in fl.kinds then Bad
        else if eq < |name| then Given(fl, key, name[eq + 1..], 1)
        else if fl.kinds[key].Switch? then Given(fl, key, Ascii("true"), 1)
        else if |args| > 1 then Given(fl, key, args[1], 2)
        else Bad
  }

  function Given(fl: Flags, key: Str, value: Str, used: nat): Read {
    if fl.accepts(key, value) then Flag(Setting(key, value), used) else Bad
  }

  // ---- how a flag is written ----

  /** A name that can be a flag's: not empty, no '=' in it, not starting with a dash. */
  predicate Nameable(name: Str) {
    name != [] && name[0] != DASH && EQUALS !in name
  }

  lemma {:induction false} EqualsFound(name: Str, value: Str, i: nat)
    requires EQUALS !in name && 1 <= i <= |name|
    ensures EqualsAt(name, i) == |name| && EqualsAt(name + [EQUALS] + value, i) == |name|
    decreases |name| - i
  {
    var s := name + [EQUALS] + value;
    if i < |name| {
      assert s[i] == name[i] && name[i] in name;
      EqualsFound(name, value, i + 1);
    } else {
      assert s[i] == EQUALS;
    }
  }

  /**
   The ways to write a flag, with one dash or two: "-name value" and "-name=value" set a flag that takes
   a value, "-name" and "-name=value" a switch, the first to "true"; whatever follows is not touched. A
   name the set does not have, or a value it does not accept, is an error.
   */
  lemma FlagForms(fl: Flags, dashes: Str, name: Str, value: Str, rest: seq<Str>)
    requires dashes == [DASH] || dashes == [DASH, DASH]
    requires Nameable(name)
    ensures name !in fl.kinds ==> ReadOne(fl, [dashes + name] + rest).Bad? && ReadOne(fl, [dashes + name + [EQUALS] + value] + rest).Bad?
    ensures name in fl.kinds ==>
      ReadOne(fl, [dashes + name + [EQUALS] + value] + rest) ==
        if fl.accepts(name, value) then Flag(Setting(name, value), 1) else Bad
    ensures name in fl.kinds && fl.kinds[name].Switch? ==>
      ReadOne(fl, [dashes + name] + rest) == if fl.accepts(name, Ascii("true")) then Flag(Setting(name, Ascii("true")), 1) else Bad
    ensures name in fl.kinds && !fl.kinds[name].Switch? ==>
      ReadOne(fl, [dashes + name, value] + rest) == if fl.accepts(name, value) then Flag(Setting(name, value), 2) else Bad
    ensures name in fl.kinds && !fl.kinds[name].Switch? ==> ReadOne(fl, [dashes + name]).Bad?
  {
    EqualsFound(name, value, 1);
    assert |Terminator()| == 2 && Terminator() == [DASH, DASH];
    var bare, joined := dashes + name, dashes + name + [EQUALS] + value;
    assert NameOf(bare) == name && NameOf(joined) == name + [EQUALS] + value;
    assert (name + [EQUALS] + value)[..|name|] == name && (name + [EQUALS] + value)[|name| + 1..] == value;
    assert name[..|name|] == name;
  }

  // ---- fs.Parse: flags until the first token that is not one ----

  datatype Parsed = Parsed(settings: seq<Setting>, rest: seq<Str>, ok: bool)

  function FlagParse(fl: Flags, args: seq<Str>): (p: Parsed)
    ensures |p.rest| <= |args|
    decreases |args|
  {
    if args == [] then Parsed([], [], true)
    else
      match ReadOne(fl, args)
      case Stop => Parsed([], args, true)
      case Ended => Parsed([], args[1..], true)
      case Bad => Parsed([], [], false)
      case Flag(setting, used) =>
        var p := FlagParse(fl, args[used..]);
        p.(settings := [setting] + p.settings)
  }

  // ---- one left-to-right permuting pass ----

  datatype Line = Line(settings: seq<Setting>, positional: seq<Str>, ok: bool)

  function OnePass(fl: Flags, args: seq<Str>): Line
    decreases |args|
  {
    if args == [] then Line([], [], true)
    else
      match ReadOne(fl, args)
      case Stop => var l := OnePass(fl, args[1..]); l.(positional := [args[0]] + l.positional)
      case Ended => Line([], args[1..], true)
      case Bad => Line([], [], false)
      case Flag(setting, used) => var l := OnePass(fl, args[used..]); l.(settings := [setting] + l.settings)
  }

  predicate Bare(args: seq<Str>) {
    Terminator() !in args
  }

  lemma ReadFacts(fl: Flags, args: seq<Str>)
    requires args != []
    ensures ReadOne(fl, args).Ended? ==> args[0] == Terminator()
    ensures ReadOne(fl, args).Stop? <==> |args[0]| < 2 || args[0][0] != DASH
  {
  }

  lemma BareSuffix(args: seq<Str>, n: nat)
    requires Bare(args) && n <= |args|
    ensures Bare(args[n..])
  {
  }

  /** One flag off the front, in the pass and in the flag parse. */
  lemma FlagFirst(fl: Flags, args: seq<Str>)
    requires args != [] && ReadOne(fl, args).Flag?
    ensures var r := ReadOne(fl, args);
            && OnePass(fl, args) == OnePass(fl, args[r.used..]).(settings := [r.setting] + OnePass(fl, args[r.used..]).settings)
            && FlagParse(fl, args) == FlagParse(fl, args[r.used..]).(settings := [r.setting] + FlagParse(fl, args[r.used..]).settings)
  {
    hide ReadOne;
  }

  /** What the pass makes of a flag parse: the positional it stopped at, then the pass over what is left. */
  function Resumed(fl: Flags, p: Parsed): Line {
    if !p.ok then Line(p.settings, [], false)
    else if p.rest == [] then Line(p.settings, [], true)
    else
      var l := OnePass(fl, p.rest[1..]);
      Line(p.settings + l.settings, [p.rest[0]] + l.positional, l.ok)
  }

  lemma ResumedFlag(fl: Flags, p: Parsed, setting: Setting)
    ensures Resumed(fl, p.(settings := [setting] + p.settings)) == Resumed(fl, p).(settings := [setting] + Resumed(fl, p).settings)
  {
    hide OnePass;
    if p.ok && p.rest != [] {
      var l := OnePass(fl, p.rest[1..]);
      assert [setting] + (p.settings + l.settings) == ([setting] + p.settings) + l.settings;
    }
  }

  lemma NoFlagFirst(fl: Flags, args: seq<Str>)
    requires Bare(args) && (args == [] || !ReadOne(fl, args).Flag?)
    ensures Bare(FlagParse(fl, args).rest) && OnePass(fl, args) == Resumed(fl, FlagParse(fl, args))
  {
    if args != [] {
      assert args[0] in args;
      ReadFacts(fl, args);
      hide ReadOne;
    }
  }

  /** The pass is a flag parse, resumed. */
  lemma {:induction false} PassUnfolds(fl: Flags, args: seq<Str>)
    requires Bare(args)
    ensures Bare(FlagParse(fl, args).rest) && OnePass(fl, args) == Resumed(fl, FlagParse(fl, args))
    decreases |args|
  {
    hide ReadOne, OnePass, FlagParse, Resumed;
    if args == [] || !ReadOne(fl, args).Flag? {
      NoFlagFirst(fl, args);
    } else {
      var r := ReadOne(fl, args);
      BareSuffix(args, r.used);
      FlagFirst(fl, args);
      PassUnfolds(fl, args[r.used..]);
      ResumedFlag(fl, FlagParse(fl, args[r.used..]), r.setting);
    }
  }

  // ---- cliargs.Parse ----

  function SplitAt(args: seq<Str>): (i: nat)
    ensures i <= |args| && Bare(args[..i]) && (i < |args| ==> args[i] == Terminator())
  {
    if args == [] || args[0] == Terminator() then 0
    else
      var i := 1 + SplitAt(args[1..]);
      assert args[..i] == [args[0]] + args[1..][..i - 1];
      i
  }

  /** What Parse returns and sets: the pass over what precedes the first "--", and what follows it verbatim. */
  function ParseSpec(fl: Flags, args: seq<Str>): Line {
    var i := SplitAt(args);
    var l := OnePass(fl, args[..i]);
    l.(positional := l.positional + if i < |args| then args[i + 1..] else [])
  }

  method SplitTerminator(args: seq<Str>) returns (head: seq<Str>, tail: seq<Str>)
    ensures head == args[..SplitAt(args)]
    ensures tail == if SplitAt(args) < |args| then args[SplitAt(args) + 1..] else []
  {
    var i := 0;
    while i < |args|
      invariant 0 <= i <= |args|
      invariant SplitAt(args) == i + SplitAt(args[i..])
    {
      if args[i] == Terminator() {
        return args[..i], args[i + 1..];
      }
      assert args[i..][1..] == args[i + 1..];
      i := i + 1;
    }
    assert args[..i] == args;
    return args, [];
  }

  /** fs.Parse, flag by flag. */
  method RunFlagSet(fl: Flags, args: seq<Str>) returns (p: Parsed)
    ensures p == FlagParse(fl, args)
  {
    var rest := args;
    var settings: seq<Setting> := [];
    while rest != []
      invariant FlagParse(fl, args) == FlagParse(fl, rest).(settings := settings + FlagParse(fl, rest).settings)
      decreases |rest|
    {
      match ReadOne(fl, rest) {
        case Stop => return Parsed(settings, rest, true);
        case Ended => return Parsed(settings, rest[1..], true);
        case Bad => return Parsed(settings, [], false);
        case Flag(setting, used) =>
          ghost var q := FlagParse(fl, rest[used..]);
          assert settings + ([setting] + q.settings) == settings + [setting] + q.settings;
          settings := settings + [setting];
          rest := rest[used..];
      }
    }
    return Parsed(settings, [], true);
  }

  /** Parse: the re-parsing loop terminates, and sets and returns exactly what one permuting pass does. */
  method Parse(fl: Flags, args: seq<Str>) returns (l: Line)
    ensures l == ParseSpec(fl, args)
  {
    hide ReadOne, OnePass, FlagParse, SplitAt, Bare;
    var head, tail := SplitTerminator(args);
    ghost var all := head;
    var settings: seq<Setting> := [];
    var positional: seq<Str> := [];
    while true
      invariant Bare(head)
      invariant var l := OnePass(fl, head);
                OnePass(fl, all) == Line(settings + l.settings, positional + l.positional, l.ok)
      decreases |head|
    {
      PassUnfolds(fl, head);
      var p := RunFlagSet(fl, head);
      ghost var before := (settings, positional);
      settings := settings + p.settings;
      if !p.ok {
        return Line(settings, positional + tail, false);
      }
      if |p.rest| == 0 {
        return Line(settings, positional + tail, true);
      }
      ghost var l := OnePass(fl, p.rest[1..]);
      assert before.0 + (p.settings + l.settings) == settings + l.settings;
      assert before.1 + ([p.rest[0]] + l.positional) == before.1 + [p.rest[0]] + l.positional;
      BareSuffix(p.rest, 1);
      positional := positional + [p.rest[0]];
      head := p.rest[1..];
    }
  }

  // ---- every token is used exactly once, and only the two orders matter ----

  datatype Group =
    | Word(token: Str)                              // a positional
    | Switched(tokens: seq<Str>, setting: Setting)   // a flag, with its value

  /** The group reads as itself, whatever follows it. */
  ghost predicate Stands(fl: Flags, g: Group) {
    match g
    case Word(token) => |token| < 2 || token[0] != DASH
    case Switched(tokens, setting) =>
      tokens != [] && tokens[0] != Terminator() && ReadOne(fl, tokens) == Flag(setting, |tokens|)
  }

  function TokensOf(g: Group): seq<Str> {
    match g
    case Word(token) => [token]
    case Switched(tokens, _) => tokens
  }

  function Flat(gs: seq<Group>): seq<Str> {
    if gs == [] then [] else TokensOf(gs[0]) + Flat(gs[1..])
  }

  function SettingsOf(gs: seq<Group>): seq<Setting> {
    if gs == [] then [] else (if gs[0].Switched? then [gs[0].setting] else []) + SettingsOf(gs[1..])
  }

  function WordsOf(gs: seq<Group>): seq<Str> {
    if gs == [] then [] else (if gs[0].Word? then [gs[0].token] else []) + WordsOf(gs[1..])
  }

  ghost predicate AllStand(fl: Flags, gs: seq<Group>) {
    forall i :: 0 <= i < |gs| ==> Stands(fl, gs[i])
  }

  /** A flag and its value read the same whatever comes after them. */
  lemma FlagIgnoresRest(fl: Flags, tokens: seq<Str>, rest: seq<Str>)
    requires tokens != [] && ReadOne(fl, tokens).Flag? && ReadOne(fl, tokens).used == |tokens|
    ensures ReadOne(fl, tokens + rest) == ReadOne(fl, tokens)
  {
  }

  /** A line of standing groups parses to their settings and their words, each in order. */
  lemma {:induction false} GroupsParse(fl: Flags, gs: seq<Group>)
    requires AllStand(fl, gs)
    ensures OnePass(fl, Flat(gs)) == Line(SettingsOf(gs), WordsOf(gs), true)
    decreases |gs|
  {
    hide ReadOne;
    if gs != [] {
      GroupsParse(fl, gs[1..]);
      var rest := Flat(gs[1..]);
      if gs[0].Word? {
        WordStops(fl, gs[0].token, rest);
        assert Flat(gs)[1..] == rest;
      } else {
        FlagIgnoresRest(fl, gs[0].tokens, rest);
        assert Flat(gs)[|gs[0].tokens|..] == rest;
      }
    }
  }

  lemma WordStops(fl: Flags, token: Str, rest: seq<Str>)
    requires Stands(fl, Word(token))
    ensures ReadOne(fl, [token] + rest).Stop?
  {
  }

  /** And every line that parses is such a line: each token is a positional, a flag or a flag's value, exactly once. */
  lemma {:induction false} LineGroups(fl: Flags, args: seq<Str>) returns (gs: seq<Group>)
    requires Bare(args) && OnePass(fl, args).ok
    ensures AllStand(fl, gs) && Flat(gs) == args
    ensures SettingsOf(gs) == OnePass(fl, args).settings && WordsOf(gs) == OnePass(fl, args).positional
    decreases |args|
  {
    hide ReadOne;
    if args == [] {
      gs := [];
    } else {
      assert args[0] in args;
      ReadFacts(fl, args);
      var r := ReadOne(fl, args);
      var used := if r.Flag? then r.used else 1;
      BareSuffix(args, used);
      var rest := LineGroups(fl, args[used..]);
      assert args == args[..used] + args[used..];
      if r.Flag? {
        FlagTakesPrefix(fl, args);
        gs := Prepend(fl, Switched(args[..used], r.setting), rest);
      } else {
        assert args[..1] == [args[0]];
        gs := Prepend(fl, Word(args[0]), rest);
      }
    }
  }

  lemma Prepend(fl: Flags, g: Group, rest: seq<Group>) returns (gs: seq<Group>)
    requires Stands(fl, g) && AllStand(fl, rest)
    ensures AllStand(fl, gs) && Flat(gs) == TokensOf(g) + Flat(rest)
    ensures SettingsOf(gs) == (if g.Switched? then [g.setting] else []) + SettingsOf(rest)
    ensures WordsOf(gs) == (if g.Word? then [g.token] else []) + WordsOf(rest)
  {
    hide ReadOne;
    gs := [g] + rest;
    assert gs[1..] == rest;
  }

  lemma FlagTakesPrefix(fl: Flags, args: seq<Str>)
    requires args != [] && ReadOne(fl, args).Flag?
    ensures ReadOne(fl, args[..ReadOne(fl, args).used]) == ReadOne(fl, args)
  {
  }

  /**
   Only two orders matter. Two lines whose flags come in the same order and whose positionals come in
   the same order, however the one is shuffled into the other, set the same flags to the same values
   and return the same positionals.
   */
  lemma ShuffleIrrelevant(fl: Flags, a: seq<Group>, b: seq<Group>)
    requires AllStand(fl, a) && AllStand(fl, b)
    requires SettingsOf(a) == SettingsOf(b) && WordsOf(a) == WordsOf(b)
    ensures OnePass(fl, Flat(a)) == OnePass(fl, Flat(b))
  {
    GroupsParse(fl, a);
    GroupsParse(fl, b);
  }

  /** What follows the first "--" is returned verbatim, whatever it looks like, and sets nothing. */
  lemma TailVerbatim(fl: Flags, head: seq<Str>, tail: seq<Str>)
    requires Bare(head)
    ensures ParseSpec(fl, head + [Terminator()] + tail) ==
      OnePass(fl, head).(positional := OnePass(fl, head).positional + tail)
  {
    var args := head + [Terminator()] + tail;
    SplitIs(args, |head|);
    assert args[..|head|] == head && args[|head| + 1..] == tail;
  }

  lemma {:induction false} SplitIs(args: seq<Str>, i: nat)
    requires i < |args| && Bare(args[..i]) && args[i] == Terminator()
    ensures SplitAt(args) == i
    decreases |args|
  {
  }

  // ---- lines that do not parse ----

  /** How many tokens the flag at the front takes, parse or not: its value too when that is the next token. */
  function Spent(fl: Flags, args: seq<Str>): (n: nat)
    requires args != []
    ensures 1 <= n <= 2 && n <= |args|
  {
    var s := args[0];
    if |s| < 2 || s[0] != DASH || s == Terminator() || |args| == 1 then 1
    else
      var name := NameOf(s);
      if name != [] && name[0] != DASH && name[0] != EQUALS && EqualsAt(name, 1) == |name| && name in fl.kinds && fl.kinds[name].Valued?
      then 2 else 1
  }

  lemma SpentIsUsed(fl: Flags, args: seq<Str>)
    requires args != [] && ReadOne(fl, args).Flag?
    ensures Spent(fl, args) == ReadOne(fl, args).used
  {
    var name := NameOf(args[0]);
    assert EqualsAt(name, 1) == |name| ==> name[..EqualsAt(name, 1)] == name;
  }

  /** Where the offending flag of a line stands. */
  function FailsAt(fl: Flags, args: seq<Str>): (i: nat)
    requires !OnePass(fl, args).ok
    ensures i < |args| && ReadOne(fl, args[i..]).Bad?
    decreases |args|
  {
    match ReadOne(fl, args)
    case Bad => assert args[0..] == args; 0
    case Stop => var i := 1 + FailsAt(fl, args[1..]); assert args[i..] == args[1..][i - 1..]; i
    case Flag(_, used) => var i := used + FailsAt(fl, args[used..]); assert args[i..] == args[used..][i - used..]; i
  }

  /** The arguments a parse error leaves unreached: what follows the offending flag and the value it refused. */
  function Unreached(fl: Flags, args: seq<Str>): seq<Str>
    requires !OnePass(fl, args).ok
  {
    var i := FailsAt(fl, args);
    args[i + Spent(fl, args[i..])..]
  }

  /**
   Every line that fails is standing groups, then the offending flag, then the rest: what was set and
   returned is exactly what stood before it.
   */
  lemma {:induction false} FailingLine(fl: Flags, args: seq<Str>) returns (gs: seq<Group>)
    requires Bare(args) && !OnePass(fl, args).ok
    ensures AllStand(fl, gs) && Flat(gs) == args[..FailsAt(fl, args)]
    ensures SettingsOf(gs) == OnePass(fl, args).settings && WordsOf(gs) == OnePass(fl, args).positional
    decreases |args|
  {
    hide ReadOne, OnePass, FailsAt;
    assert args[0] in args by { FailsSomewhere(fl, args); }
    ReadFacts(fl, args);
    FailsStep(fl, args);
    var r := ReadOne(fl, args);
    if r.Bad? {
      gs := [];
    } else {
      var used := if r.Flag? then r.used else 1;
      BareSuffix(args, used);
      var rest := FailingLine(fl, args[used..]);
      var i := FailsAt(fl, args[used..]);
      assert args[..used + i] == args[..used] + args[used..][..i];
      if r.Flag? {
        FlagTakesPrefix(fl, args);
        gs := Prepend(fl, Switched(args[..used], r.setting), rest);
      } else {
        assert args[..1] == [args[0]];
        gs := Prepend(fl, Word(args[0]), rest);
      }
    }
  }

  lemma FailsSomewhere(fl: Flags, args: seq<Str>)
    requires !OnePass(fl, args).ok
    ensures args != []
  {
  }

  lemma FailsStep(fl: Flags, args: seq<Str>)
    requires args != [] && !OnePass(fl, args).ok
    ensures var r := ReadOne(fl, args);
            && !r.Ended?
            && (r.Bad? ==> FailsAt(fl, args) == 0 && OnePass(fl, args) == Line([], [], false))
            && (!r.Bad? ==>
                  var l := OnePass(fl, args[if r.Flag? then r.used else 1..]);
                  && !l.ok
                  && FailsAt(fl, args) == (if r.Flag? then r.used else 1) + FailsAt(fl, args[if r.Flag? then r.used else 1..])
                  && OnePass(fl, args).settings == (if r.Flag? then [r.setting] else []) + l.settings
                  && OnePass(fl, args).positional == (if r.Flag? then [] else [args[0]]) + l.positional)
  {
    hide ReadOne;
  }

  /** What the comment on Parse promises after an error: the arguments not yet reached come back as positionals too. */
  function Promised(fl: Flags, args: seq<Str>): seq<Str>
    requires !ParseSpec(fl, args).ok
  {
    var i := SplitAt(args);
    OnePass(fl, args[..i]).positional + Unreached(fl, args[..i]) + if i < |args| then args[i + 1..] else []
  }

  /**
   The promise is kept if and only if nothing follows the offending flag, and the value it refused,
   before the first "--". Whatever does follow is dropped: only the positionals before the flag, and
   the tail, come back.
   */
  lemma PromiseKeptExactly(fl: Flags, args: seq<Str>)
    requires !ParseSpec(fl, args).ok
    ensures ParseSpec(fl, args).positional == Promised(fl, args) <==> Unreached(fl, args[..SplitAt(args)]) == []
  {
    hide OnePass, Unreached, SplitAt;
    var i := SplitAt(args);
    var words, lost := OnePass(fl, args[..i]).positional, Unreached(fl, args[..i]);
    var tail := if i < |args| then args[i + 1..] else [];
    if lost == [] {
      assert words + lost + tail == words + tail;
    } else {
      assert |words + lost + tail| > |words + tail|;
    }
  }

  /** A line that shows it: with no flags defined, "a -x b" comes back as "a" alone. */
  lemma LostArgument(fl: Flags)
    requires fl.kinds == map[]
    ensures var args := [Ascii("a"), Ascii("-x"), Ascii("b")];
            && !ParseSpec(fl, args).ok && ParseSpec(fl, args).positional == [Ascii("a")]
            && Promised(fl, args) == [Ascii("a"), Ascii("b")]
  {
    var args := [Ascii("a"), Ascii("-x"), Ascii("b")];
    var rest := args[1..];
    assert args[0] == [97] && args[1] == [45, 120] && args[2] == [98];
    assert NameOf(args[1]) == [120];
    assert ReadOne(fl, args).Stop? && ReadOne(fl, rest).Bad?;
    assert OnePass(fl, rest) == Line([], [], false);
    assert OnePass(fl, args) == Line([], [args[0]], false);
    NoTerminator(args);
    assert args[..3] == args;
    assert FailsAt(fl, rest) == 0 && FailsAt(fl, args) == 1 && args[1..][0..] == rest;
    assert Spent(fl, rest) == 1 && args[2..] == [args[2]];
  }

  lemma {:induction false} NoTerminator(args: seq<Str>)
    requires Bare(args)
    ensures SplitAt(args) == |args|
    decreases |args|
  {
    if args != [] {
      assert args[0] in args;
      BareSuffix(args, 1);
      NoTerminator(args[1..]);
    }
  }

  /** The groups before an offending token decide what is set and returned. */
  lemma ErrorDropsTheRest(fl: Flags, before: seq<Group>, bad: Str, rest: seq<Str>)
    requires AllStand(fl, before) && ReadOne(fl, [bad] + rest).Bad?
    ensures OnePass(fl, Flat(before) + ([bad] + rest)) == Line(SettingsOf(before), WordsOf(before), false)
  {
    BadAfter(fl, before, [bad] + rest);
  }

  lemma {:induction false} BadAfter(fl: Flags, gs: seq<Group>, rest: seq<Str>)
    requires AllStand(fl, gs) && rest != [] && ReadOne(fl, rest).Bad?
    ensures OnePass(fl, Flat(gs) + rest) == Line(SettingsOf(gs), WordsOf(gs), false)
    decreases |gs|
  {
    hide ReadOne;
    if gs == [] {
      assert Flat(gs) + rest == rest;
    } else {
      BadAfter(fl, gs[1..], rest);
      var more := Flat(gs[1..]) + rest;
      assert Flat(gs) + rest == TokensOf(gs[0]) + more;
      if gs[0].Word? {
        WordStops(fl, gs[0].token, more);
        assert ([gs[0].token] + more)[1..] == more;
      } else {
        FlagIgnoresRest(fl, gs[0].tokens, more);
        assert (gs[0].tokens + more)[|gs[0].tokens|..] == more;
      }
    }
  }

  /** Unexpected: the positional it names is the first the command cannot use. */
  method Unexpected(positional: seq<Str>, allowed: int) returns (offending: Option<Str>)
    ensures offending.None? <==> allowed < 0 || |positional| <= allowed
    ensures offending.Some? ==> offending.value == positional[allowed]
  {
    if allowed < 0 || |positional| <= allowed {
      return None;
    }
    return Some(positional[allowed]);
  }
}
