/** What the approved text says: when two frames of one room are described by the same parameters. */
module ActionTexts {
  import opened Bytes
  import opened Crypto
  import opened Actions

  const COMMA: Byte := 44

  /** A duration's text has no comma, as time.Duration's never has. */
  ghost predicate PlainDurations(cr: Suite) {
    forall n :: COMMA !in cr.duration(n)
  }

  function Invited(who: seq<Str>): Str {
    if who == [] then Ascii("no one") else Join(who, [COMMA])
  }

  lemma CommaText()
    ensures Ascii(",") == [COMMA] && Ascii(", ttl=")[0] == COMMA && |Ascii(", ttl=")| == 6
    ensures forall i :: 1 <= i < 6 ==> Ascii(", ttl=")[i] != COMMA
  {
  }

  /** The last comma cuts a text in only one way. */
  lemma CutAtLastComma(a: Str, x: Str, b: Str, y: Str)
    requires COMMA !in x && COMMA !in y && a + [COMMA] + x == b + [COMMA] + y
    ensures a == b && x == y
  {
    var s, t := a + [COMMA] + x, b + [COMMA] + y;
    assert s[|a|] == COMMA && t[|b|] == COMMA;
    assert a == s[..|a|] && b == t[..|b|];
    assert x == s[|a| + 1..] && y == t[|b| + 1..];
  }

  lemma BreakGlassText(cr: Suite, room: Str, who: seq<Str>, ttl: int)
    ensures ParamsText(cr, room, BreakGlass(who, ttl)) ==
      (Ascii("invite=") + Invited(who)) + [COMMA] + (Ascii(", ttl=")[1..] + cr.duration(ttl))
  {
    CommaText();
    assert Ascii(", ttl=") == [COMMA] + Ascii(", ttl=")[1..];
  }

  lemma BreakGlassTexts(cr: Suite, room: Str, a: seq<Str>, s: int, b: seq<Str>, t: int)
    requires PlainDurations(cr) && ParamsText(cr, room, BreakGlass(a, s)) == ParamsText(cr, room, BreakGlass(b, t))
    ensures Invited(a) == Invited(b) && cr.duration(s) == cr.duration(t)
  {
    hide Invited, Join, ParamsText;
    CommaText();
    BreakGlassText(cr, room, a, s);
    BreakGlassText(cr, room, b, t);
    var tail := Ascii(", ttl=")[1..];
    CutAtLastComma(Ascii("invite=") + Invited(a), tail + cr.duration(s), Ascii("invite=") + Invited(b), tail + cr.duration(t));
    var n := |Ascii("invite=")|;
    assert (Ascii("invite=") + Invited(a))[n..] == Invited(a) && (Ascii("invite=") + Invited(b))[n..] == Invited(b);
    assert (tail + cr.duration(s))[5..] == cr.duration(s) && (tail + cr.duration(t))[5..] == cr.duration(t);
  }

  /** The frames one text can stand for: of one kind, with the same printed duration and the same printed invitees. */
  predicate ReadAlike(cr: Suite, p: Perform, q: Perform) {
    match p
    case ScuttleNow => q.ScuttleNow?
    case ScuttleArm(s) => q.ScuttleArm? && cr.duration(s) == cr.duration(q.seconds)
    case BreakGlass(who, ttl) => q.BreakGlass? && cr.duration(ttl) == cr.duration(q.ttl) && Invited(who) == Invited(q.invitees)
    case Callback(_) => q.Callback?
  }

  lemma DifferentKinds(cr: Suite, room: Str, p: Perform, q: Perform)
    requires !p.Callback? && !q.Callback? && ParamsText(cr, room, p) == ParamsText(cr, room, q)
    ensures p.ScuttleNow? == q.ScuttleNow? && p.ScuttleArm? == q.ScuttleArm? && p.BreakGlass? == q.BreakGlass?
  {
    hide Join;
    var s, t := ParamsText(cr, room, p), ParamsText(cr, room, q);
    if p.BreakGlass? || q.BreakGlass? {
      assert s[0] == (if p.BreakGlass? then 105 else 114) && t[0] == (if q.BreakGlass? then 105 else 114);
    } else {
      var n := |Ascii("room=")| + |room| + |Ascii(", reason=")|;
      assert s[n] == (if p.ScuttleNow? then 109 else 97) && t[n] == (if q.ScuttleNow? then 109 else 97);
    }
  }

  lemma ArmedTexts(cr: Suite, room: Str, s: int, t: int)
    requires ParamsText(cr, room, ScuttleArm(s)) == ParamsText(cr, room, ScuttleArm(t))
    ensures cr.duration(s) == cr.duration(t)
  {
    var head := Ascii("room=") + room + Ascii(", reason=armed, after=");
    assert ParamsText(cr, room, ScuttleArm(s))[|head|..] == cr.duration(s);
    assert ParamsText(cr, room, ScuttleArm(t))[|head|..] == cr.duration(t);
  }

  /** Two frames of one room have one text if and only if they read alike. */
  lemma TextsExactly(cr: Suite, room: Str, p: Perform, q: Perform)
    requires PlainDurations(cr) && !p.Callback? && !q.Callback?
    ensures ParamsText(cr, room, p) == ParamsText(cr, room, q) <==> ReadAlike(cr, p, q)
  {
    hide Join, ParamsText, Invited;
    if ParamsText(cr, room, p) == ParamsText(cr, room, q) {
      DifferentKinds(cr, room, p, q);
      if p.ScuttleArm? {
        ArmedTexts(cr, room, p.seconds, q.seconds);
      } else if p.BreakGlass? {
        BreakGlassTexts(cr, room, p.invitees, p.ttl, q.invitees, q.ttl);
      }
    } else if ReadAlike(cr, p, q) {
      if p.BreakGlass? {
        BreakGlassText(cr, room, p.invitees, p.ttl);
        BreakGlassText(cr, room, q.invitees, q.ttl);
      } else {
        ScuttleTexts(cr, room, p, q);
      }
    }
  }

  lemma ScuttleTexts(cr: Suite, room: Str, p: Perform, q: Perform)
    requires ReadAlike(cr, p, q) && (p.ScuttleNow? || p.ScuttleArm?)
    ensures ParamsText(cr, room, p) == ParamsText(cr, room, q)
  {
  }

  // ---- which invitees the text tells apart ----

  /** No comma in a name, and nobody alone called "no one". */
  predicate PlainInvitees(who: seq<Str>) {
    (forall i :: 0 <= i < |who| ==> COMMA !in who[i]) && who != [Ascii("no one")]
  }

  lemma {:induction false} JoinedCommas(who: seq<Str>)
    requires who != [] && forall i :: 0 <= i < |who| ==> COMMA !in who[i]
    ensures COMMA in Join(who, [COMMA]) <==> |who| > 1
  {
    if |who| > 1 {
      assert Join(who, [COMMA])[|who[0]|] == COMMA;
    }
  }

  /** The first comma cuts a text in only one way. */
  lemma CutAtFirstComma(a: Str, x: Str, b: Str, y: Str)
    requires COMMA !in a && COMMA !in b && a + [COMMA] + x == b + [COMMA] + y
    ensures a == b && x == y
  {
    var s, t := a + [COMMA] + x, b + [COMMA] + y;
    assert s[|a|] == COMMA && t[|b|] == COMMA;
    assert a == s[..|a|] && b == t[..|b|];
    assert x == s[|a| + 1..] && y == t[|b| + 1..];
  }

  lemma {:induction false} JoinTellsApart(a: seq<Str>, b: seq<Str>)
    requires a != [] && b != [] && Join(a, [COMMA]) == Join(b, [COMMA])
    requires (forall i :: 0 <= i < |a| ==> COMMA !in a[i]) && (forall i :: 0 <= i < |b| ==> COMMA !in b[i])
    ensures a == b
    decreases |a|
  {
    JoinedCommas(a);
    JoinedCommas(b);
    if |a| > 1 {
      CutAtFirstComma(a[0], Join(a[1..], [COMMA]), b[0], Join(b[1..], [COMMA]));
      JoinTellsApart(a[1..], b[1..]);
      assert a == [a[0]] + a[1..] && b == [b[0]] + b[1..];
    }
  }

  lemma InvitedTellsApart(a: seq<Str>, b: seq<Str>)
    requires PlainInvitees(a) && PlainInvitees(b) && Invited(a) == Invited(b)
    ensures a == b
  {
    if a != [] && b != [] {
      JoinTellsApart(a, b);
    } else if a != [] || b != [] {
      JoinedCommas(if a != [] then a else b);
    }
  }

  function SecondsOf(p: Perform): int {
    match p
    case ScuttleArm(s) => s
    case BreakGlass(_, ttl) => ttl
    case _ => 0
  }

  /**
   What was approved is what runs, down to the frame: in one room, different frames with plain
   invitees, whose durations differ in print if they differ at all, have different texts.
   */
  lemma SameTextSameFrame(cr: Suite, room: Str, p: Perform, q: Perform)
    requires PlainDurations(cr) && !p.Callback? && !q.Callback?
    requires cr.duration(SecondsOf(p)) == cr.duration(SecondsOf(q)) ==> SecondsOf(p) == SecondsOf(q)
    requires (p.BreakGlass? ==> PlainInvitees(p.invitees)) && (q.BreakGlass? ==> PlainInvitees(q.invitees))
    requires ParamsText(cr, room, p) == ParamsText(cr, room, q)
    ensures p == q
  {
    hide ParamsText, Invited, PlainInvitees;
    TextsExactly(cr, room, p, q);
    if p.BreakGlass? {
      InvitedTellsApart(p.invitees, q.invitees);
    }
  }

  /** Without that they share one: two invitees and one with a comma in its name, nobody and somebody called "no one". */
  lemma TextsConfused(cr: Suite, room: Str, ttl: int)
    ensures ParamsText(cr, room, BreakGlass([Ascii("a"), Ascii("b")], ttl)) == ParamsText(cr, room, BreakGlass([Ascii("a,b")], ttl))
    ensures ParamsText(cr, room, BreakGlass([], ttl)) == ParamsText(cr, room, BreakGlass([Ascii("no one")], ttl))
  {
    assert Ascii("a,b") == Ascii("a") + Ascii(",") + Ascii("b");
    assert Join([Ascii("a"), Ascii("b")][1..], Ascii(",")) == Ascii("b");
  }
}
