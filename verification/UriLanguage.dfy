/**
 The strings the parser accepts, exactly: what was read so far can be spelled from the
 machine's components, so an accepted string with a scheme is one of the grammar.
 */
module UriLanguage {
  import opened Options
  import opened Uri
  import opened UriRoundTrip
  import opened UriGrammar

  /** What the components of a machine do not tell: the user information and the port as
      written, whether a digit moved the mark inside user information, and whether there
      was a query. */
  datatype Trail = Trail(user: Option<string>, port: Option<string>, moved: bool, query: bool)

  const NoTrail: Trail := Trail(None, None, false, false)

  function Origin(p: Place): Place { if p.Pct1? || p.Pct2? then p.back else p }

  function Base(u: Uri): string { u.scheme + "://" }

  function UserOf(g: Trail): string { if g.user.Some? then g.user.value + "@" else "" }

  function Front(u: Uri, g: Trail): string { Base(u) + UserOf(g) + u.host + Prefixed(':', g.port) }

  function QueryOf(u: Uri, g: Trail): string { if g.query then "?" + u.query else "" }

  /** What was read before the current component. */
  function Lead(p: Place, u: Uri, g: Trail): string
  {
    match p
    case Colon => u.scheme + ":"
    case Slash => u.scheme + ":/"
    case Auth => Base(u)
    case Name => Base(u)
    case NameColon => Base(u) + u.host + ":"
    case NamePort => Base(u) + u.host + ":"
    case UserInfo => if g.moved then Base(u) + u.host + ":" else Base(u)
    case AtHost => Base(u) + UserOf(g)
    case Host => Base(u) + UserOf(g)
    case HostColon => Base(u) + UserOf(g) + u.host + ":"
    case HostPort => Base(u) + UserOf(g) + u.host + ":"
    case InPath => Front(u, g)
    case AtQuery => Front(u, g) + u.path + "?"
    case InQuery => Front(u, g) + u.path + "?"
    case AtFragment => Front(u, g) + u.path + QueryOf(u, g) + "#"
    case InFragment => Front(u, g) + u.path + QueryOf(u, g) + "#"
    case _ => ""
  }

  /** The places whose component is being read. */
  predicate Reading(p: Place)
  {
    p == InScheme || p == Name || p == NamePort || p == UserInfo || p == Host || p == HostPort
    || p == InPath || p == InQuery || p == InFragment
  }

  /** What was read so far. */
  function Spell(m: Machine, g: Trail): string
  {
    Lead(Origin(m.at), m.uri, g) + (if Reading(Origin(m.at)) then Or(m.text) else "")
  }

  predicate Early(p: Place)
  {
    p == Start || p == InScheme || p == Colon || p == Slash || p == Auth
    || p == Name || p == NameColon || p == NamePort || p == UserInfo
  }

  predicate AfterUser(p: Place) { p == AtHost || p == Host || p == HostColon || p == HostPort }

  predicate InTail(p: Place) { p == AtFragment || p == InFragment }

  /** Which trail goes with which place. */
  predicate Placed(p: Place, g: Trail)
  {
    && (Early(p) ==> g.user.None?) && (AfterUser(p) ==> g.user.Some?)
    && (Early(p) || AfterUser(p) ==> g.port.None?)
    && (!InTail(p) ==> !g.query)
  }

  predicate TrailOk(g: Trail)
  {
    (g.user.Some? ==> Text(UserText, g.user.value)) && (g.port.Some? ==> Digits(g.port.value))
  }

  /** Nothing that follows can be accepted, or it is outside the model. */
  predicate Lost(m: Machine)
  {
    m.bad || m.at == Error || m.at == Outside || (m.text.None? && Origin(m.at) == InPath)
  }

  /** The machine has read `x`. */
  predicate Tracks(m: Machine, g: Trail, x: string)
  {
    Good(m) && (Lost(m) || Known(m, g, x))
  }

  predicate Known(m: Machine, g: Trail, x: string)
  {
    && x == Spell(m, g) && Placed(Origin(m.at), g) && TrailOk(g)
    && (m.at == NameColon ==> m.text == Some(m.uri.host + ":"))
    && (Reading(Origin(m.at)) ==> m.text.Some?)
    && (Origin(m.at) == Start || Origin(m.at) == InScheme ==> m.uri.scheme == "")
  }

  // ----- one step ------------------------------------------------------------------

  lemma Assoc(a: string, b: string, c: string)
    ensures a + (b + c) == (a + b) + c
  {
  }

  /** A character of the component that is being read. */
  lemma Stays(m: Machine, g: Trail, x: string, c: char, p: Place)
    requires Known(m, g, x) && Table(m.at, c) == To(p) && Origin(p) == Origin(m.at) && Reading(Origin(p))
    ensures Known(Step(m, c), g, x + [c])
  {
    StepTo(m, c, p);
    hide Step, Table, Placed, TrailOk, Lead;
    Assoc(Lead(Origin(p), m.uri, g), m.text.value, [c]);
  }

  lemma SchemeTracks(m: Machine, g: Trail, x: string, c: char)
    requires Known(m, g, x) && Good(m) && !m.bad
    requires m.at == Start || m.at == InScheme || m.at == Colon || m.at == Slash
    ensures Lost(Step(m, c)) || Known(Step(m, c), g, x + [c])
  {
    hide Good;
    var e := Table(m.at, c);
    if m.at == Start && Alpha(c) {
      assert e == Edge(Mark, Skip, Skip, InScheme);
      hide Table, TrailOk;
      assert "" + [c] == [c] && x + [c] == [c];
    } else if m.at == InScheme && SchemeChar(c) {
      Stays(m, g, x, c, InScheme);
    } else if m.at == InScheme && c == ':' {
      assert e == Edge(SaveScheme, Skip, Skip, Colon);
      hide Table, TrailOk;
      assert x == m.text.value;
    } else {
      StepTo(m, c, e.to);
      hide Step, Table, TrailOk;
      assert m.uri.scheme + ":" + "/" == m.uri.scheme + ":/";
      assert m.uri.scheme + ":/" + "/" == m.uri.scheme + "://";
    }
  }

  /** Where the authority ends: a slash starts the path, '?' and '#' come after an empty
      one. */
  function Closed(c: char): Place { if c == '/' then InPath else if c == '?' then AtQuery else AtFragment }

  function Sep(c: char): string { if c == '/' then "" else [c] }

  lemma FrontClosed(u: Uri, g: Trail, c: char)
    requires !g.query && (c == '/' || u.path == "") && (c == '/' || c == '?' || c == '#')
    ensures Lead(Closed(c), u, g) == Front(u, g) + Sep(c)
  {
    var f := Front(u, g);
    hide Front;
    assert f + "" == f && f + "" + "" == f;
  }

  lemma FrontHost(u: Uri, g: Trail, t: string, path: string)
    requires g.port.None?
    ensures Front(u.(host := t, path := path), g) == Base(u) + UserOf(g) + t
  {
    assert Base(u) + UserOf(g) + t + "" == Base(u) + UserOf(g) + t;
  }

  lemma FrontPort(u: Uri, g: Trail, t: string, n: int, path: string)
    ensures Front(u.(port := n, path := path), g.(port := Some(t))) == Base(u) + UserOf(g) + u.host + ":" + t
  {
    var b := Base(u) + UserOf(g) + u.host;
    assert UserOf(g.(port := Some(t))) == UserOf(g);
    hide Base, UserOf;
    assert b + ([':'] + t) == (b + ":") + t;
  }

  lemma NoUserLead(u: Uri, g: Trail)
    requires g.user.None?
    ensures Base(u) + UserOf(g) == Base(u)
  {
  }

  /** After a host: the end of the authority ... */
  lemma HostTracks(m: Machine, g: Trail, x: string, c: char)
    requires Known(m, g, x) && !m.bad && (m.at == Name || m.at == Host)
    requires c == '/' || c == '?' || c == '#'
    ensures Known(Step(m, c), g, x + [c])
  {
    hide Step, Table, TrailOk;
    var t := m.text.value;
    if g.user.None? { NoUserLead(m.uri, g); }
    assert x == Base(m.uri) + UserOf(g) + t;
    FrontHost(m.uri, g, t, m.uri.path);
    FrontHost(m.uri, g, t, "");
    if c == '/' {
      HostEnd(m);
    } else {
      HostCut(m, c);
    }
    FrontClosed(Step(m, c).uri, g, c);
    hide Lead, Front, Base, UserOf;
    assert x + "" + "/" == x + "/" && x + "" == x;
  }

  /** ... or a colon. */
  lemma HostColonTracks(m: Machine, g: Trail, x: string)
    requires Known(m, g, x) && !m.bad && (m.at == Name || m.at == Host)
    ensures Known(Step(m, ':'), g, x + ":")
  {
    hide Step, Table, TrailOk;
    ColonTracks(m);
  }

  lemma ColonTracks(m: Machine)
    requires (m.at == Name || m.at == Host) && m.text.Some?
    ensures Step(m, ':') == Machine(if m.at == Name then NameColon else HostColon, Some(m.text.value + ":"),
                                    m.uri.(host := m.text.value), m.bad)
  {
    assert Table(m.at, ':') == Edge(SaveHost, Skip, Skip, if m.at == Name then NameColon else HostColon);
    hide Table;
  }

  /** User information as written. */
  function Whole(m: Machine, g: Trail): string
  {
    match m.at
    case NameColon => m.uri.host + ":"
    case NamePort => m.uri.host + ":" + Or(m.text)
    case UserInfo => if g.moved then m.uri.host + ":" + Or(m.text) else Or(m.text)
    case _ => Or(m.text)
  }

  lemma WholeIsText(m: Machine, g: Trail)
    requires Good(m) && !m.bad && (m.at == Name || m.at == NameColon || m.at == NamePort || m.at == UserInfo)
    requires m.at == NameColon ==> m.text == Some(m.uri.host + ":")
    ensures Text(UserText, Whole(m, g))
  {
    var h, t := m.uri.host, Or(m.text);
    TextWeaken(h);
    TextChar(UserText, h, ':');
    if m.at == Name { TextWeaken(t); }
    if m.at == NamePort { DigitsText(t); }
    if m.at != Name { TextAppend(UserText, h + ":", t); }
  }

  lemma WholeSpelled(m: Machine, g: Trail)
    requires m.at == Name || m.at == NameColon || m.at == NamePort || m.at == UserInfo
    ensures Spell(m, g) == Base(m.uri) + Whole(m, g)
  {
    var b, h, t := Base(m.uri), m.uri.host, Or(m.text);
    hide Base;
    Assoc(b, h, ":");
    Assoc(b, h + ":", t);
  }

  lemma AtSpelled(u: Uri, g: Trail, w: string, i: string)
    ensures Lead(AtHost, u.(userinfo := i), g.(user := Some(w))) == (Base(u) + w) + "@"
  {
    Assoc(Base(u), w, "@");
  }

  /** The '@' after user information. */
  lemma AtTracks(m: Machine, g: Trail, x: string)
    requires Known(m, g, x) && Good(m) && !m.bad
    requires m.at == Name || m.at == NameColon || m.at == NamePort || m.at == UserInfo
    ensures Known(Step(m, '@'), g.(user := Some(Whole(m, g))), x + "@")
  {
    WholeIsText(m, g);
    WholeSpelled(m, g);
    hide Good, Text, Step, Table;
    UserEnd(m);
    AtSpelled(m.uri, g, Whole(m, g), m.text.value);
    hide Lead, Whole;
  }

  /** User information after the colon. */
  lemma UserTracks(m: Machine, g: Trail, x: string, c: char)
    requires Known(m, g, x) && !m.bad && (m.at == NameColon || m.at == NamePort)
    requires !Digit(c) && (c == '%' || Plain(UserText, c))
    ensures Known(Step(m, c), g.(moved := m.at == NamePort), x + [c])
  {
    var to := if c == '%' then Pct1(UserInfo) else UserInfo;
    assert Table(m.at, c) == To(to);
    hide Table;
    StepTo(m, c, to);
    hide Step, TrailOk;
    if m.at == NameColon {
      assert x == Base(m.uri) + (m.uri.host + ":");
      Assoc(Base(m.uri), m.uri.host + ":", [c]);
    } else {
      Assoc(Base(m.uri) + m.uri.host + ":", m.text.value, [c]);
    }
  }

  /** The digits of a port, or of user information. */
  lemma DigitTracks(m: Machine, g: Trail, x: string, c: char)
    requires Known(m, g, x) && !m.bad && Digit(c)
    requires m.at == NameColon || m.at == NamePort || m.at == HostColon || m.at == HostPort
    ensures Known(Step(m, c), g, x + [c])
  {
    if m.at == NamePort || m.at == HostPort {
      Stays(m, g, x, c, m.at);
    } else {
      hide Step, TrailOk;
      PortFirst(m, c);
    }
  }

  /** The end of a port. */
  lemma PortTracks(m: Machine, g: Trail, x: string, c: char)
    requires Known(m, g, x) && Good(m) && !m.bad && (m.at == NamePort || m.at == HostPort)
    requires c == '/' || c == '?' || c == '#'
    ensures Lost(Step(m, c)) || Known(Step(m, c), g.(port := Some(m.text.value)), x + [c])
  {
    var t := m.text.value;
    assert Digits(t) && t != "";
    hide Good, Step, Table, Value, Digits;
    if g.user.None? { NoUserLead(m.uri, g); }
    assert x == Base(m.uri) + UserOf(g) + m.uri.host + ":" + t;
    PortCut(m, c);
    if !Step(m, c).bad { PortKnown(m, g, x, c, t); }
  }

  lemma PortKnown(m: Machine, g: Trail, x: string, c: char, t: string)
    requires Known(m, g, x) && !m.bad && (m.at == NamePort || m.at == HostPort) && (c == '/' || c == '?' || c == '#')
    requires m.text == Some(t) && t != "" && Digits(t) && Value(t) <= MaxPort
    requires x == Base(m.uri) + UserOf(g) + m.uri.host + ":" + t
    ensures Known(Step(m, c), g.(port := Some(t)), x + [c])
  {
    hide Step, Table, Value, Digits;
    PortCut(m, c);
    if c == '/' { PortLast(m); }
    FrontPort(m.uri, g, t, Value(t), m.uri.path);
    FrontPort(m.uri, g, t, Value(t), "");
    FrontClosed(Step(m, c).uri, g.(port := Some(t)), c);
    hide Lead, Front, Base, UserOf;
    assert x + "" + "/" == x + "/" && x + "" == x;
  }

  /** The end of a path ... */
  lemma PathTracks(m: Machine, g: Trail, x: string, c: char)
    requires Known(m, g, x) && !m.bad && m.at == InPath && (c == '?' || c == '#')
    ensures Known(Step(m, c), g, x + [c])
  {
    hide Step, Table, TrailOk;
    StepOut(m, c);
    assert Front(Step(m, c).uri, g) == Front(m.uri, g);
    hide Front;
    assert x + "" == x;
  }

  lemma LeadFragment(u: Uri, g: Trail, t: string)
    ensures Lead(AtFragment, u.(query := t), g.(query := true)) == (Front(u, g) + u.path + "?") + t + "#"
  {
    assert Front(u.(query := t), g.(query := true)) == Front(u, g);
    var f := Front(u, g) + u.path;
    hide Front;
    Assoc(f, "?", t);
  }

  /** ... and of a query. */
  lemma QueryTracks(m: Machine, g: Trail, x: string)
    requires Known(m, g, x) && !m.bad && m.at == InQuery
    ensures Known(Step(m, '#'), g.(query := true), x + "#")
  {
    hide Step, Table;
    StepOut(m, '#');
    LeadFragment(m.uri, g, m.text.value);
    assert x == (Front(m.uri, g) + m.uri.path + "?") + m.text.value;
    hide Lead, Front;
  }

  // ----- all places ----------------------------------------------------------------

  lemma DeadStep(m: Machine, c: char, p: Place)
    requires Table(m.at, c) == To(p) && (p == Error || p == Outside)
    ensures Lost(Step(m, c))
  {
    StepTo(m, c, p);
    hide Step;
  }

  lemma LoopTracks(m: Machine, g: Trail, x: string, c: char) returns (g': Trail)
    requires Good(m) && !Lost(m) && Known(m, g, x) && LoopFits(m.at, m.text)
    ensures Lost(Step(m, c)) || Known(Step(m, c), g', x + [c])
  {
    g' := g;
    if c == '%' || Plain(LoopKind(m.at), c) {
      LoopStays(m, g, x, c);
    } else if (m.at == Name || m.at == Host) && (c == '/' || c == '#' || c == '?') {
      HostTracks(m, g, x, c);
    } else if (m.at == Name || m.at == Host) && c == ':' {
      HostColonTracks(m, g, x);
    } else if (m.at == Name || m.at == UserInfo) && c == '@' {
      AtTracks(m, g, x);
      g' := g.(user := Some(Whole(m, g)));
    } else if m.at == InPath && (c == '#' || c == '?') {
      PathTracks(m, g, x, c);
    } else if m.at == InQuery && c == '#' {
      QueryTracks(m, g, x);
      g' := g.(query := true);
    } else {
      LoopDead(m.at, c);
      DeadStep(m, c, Table(m.at, c).to);
    }
  }

  lemma LoopStays(m: Machine, g: Trail, x: string, c: char)
    requires Known(m, g, x) && LoopFits(m.at, m.text) && (c == '%' || Plain(LoopKind(m.at), c))
    ensures Known(Step(m, c), g, x + [c])
  {
    hide Known, Text, Step;
    var p := if c == '%' then Pct1(m.at) else m.at;
    assert Table(m.at, c) == To(p);
    hide Table;
    Stays(m, g, x, c, p);
  }

  predicate IsLoop(p: Place)
  {
    p == Name || p == Host || p == UserInfo || p == InPath || p == InQuery || p == InFragment
  }

  lemma LoopDead(p: Place, c: char)
    requires IsLoop(p) && c != '%' && !Plain(LoopKind(p), c)
    requires (p == Name || p == Host) ==> c != '/' && c != '#' && c != '?' && c != ':'
    requires (p == Name || p == UserInfo) ==> c != '@'
    requires (p == InPath ==> c != '#' && c != '?') && (p == InQuery ==> c != '#')
    ensures Table(p, c) == To(Table(p, c).to) && (Table(p, c).to == Error || Table(p, c).to == Outside)
  {
  }

  lemma EntryTracks(m: Machine, q: Place, g: Trail, x: string, c: char) returns (g': Trail)
    requires Good(m) && !Lost(m) && Known(m, g, x) && Enters(m.at, q)
    ensures Lost(Step(m, c)) || Known(Step(m, c), g', x + [c])
  {
    g' := g;
    var to := Table(m.at, c).to;
    if to == Error || to == Outside {
      DeadEntry(m.at, q, c);
      DeadStep(m, c, to);
    } else {
      var n := m.(at := q, text := Some(""));
      EntryTable(m.at, q, c);
      AlikeFollow(m, q, Table(m.at, c), Table(q, c));
      assert Good(n) && LoopFits(n.at, n.text) by { hide Table; }
      hide Table, Follow, Good;
      assert Step(m, c) == Step(n, c);
      hide Step;
      assert Known(n, g, x);
      g' := LoopTracks(n, g, x, c);
    }
  }

  lemma PctTracks(m: Machine, g: Trail, x: string, c: char)
    requires Good(m) && !Lost(m) && Known(m, g, x) && (m.at.Pct1? || m.at.Pct2?)
    ensures Lost(Step(m, c)) || Known(Step(m, c), g, x + [c])
  {
    assert IsLoop(m.at.back) by { hide Text; }
    hide Good;
    var p := if !Hex(c) then Error else if m.at.Pct1? then Pct2(m.at.back) else m.at.back;
    assert Table(m.at, c) == To(p);
    hide Table;
    if Hex(c) { Stays(m, g, x, c, p); } else { DeadStep(m, c, p); }
  }

  lemma PortPlaces(m: Machine, g: Trail, x: string, c: char) returns (g': Trail)
    requires Good(m) && !Lost(m) && Known(m, g, x)
    requires m.at == NameColon || m.at == NamePort || m.at == HostColon || m.at == HostPort
    ensures Lost(Step(m, c)) || Known(Step(m, c), g', x + [c])
  {
    g' := g;
    if Digit(c) {
      DigitTracks(m, g, x, c);
    } else if (m.at == NamePort || m.at == HostPort) && (c == '/' || c == '?' || c == '#') {
      PortTracks(m, g, x, c);
      g' := g.(port := Some(m.text.value));
    } else if (m.at == NameColon || m.at == HostColon) && (c == '/' || c == '?' || c == '#') {
      EmptyPortStep(m, c);
    } else if (m.at == NameColon || m.at == NamePort) && c == '@' {
      AtTracks(m, g, x);
      g' := g.(user := Some(Whole(m, g)));
    } else if (m.at == NameColon || m.at == NamePort) && (c == '%' || Plain(UserText, c)) {
      UserTracks(m, g, x, c);
      g' := g.(moved := m.at == NamePort);
    } else {
      PortDead(m.at, c);
      DeadStep(m, c, Error);
    }
  }

  lemma PortDead(p: Place, c: char)
    requires p == NameColon || p == NamePort || p == HostColon || p == HostPort
    requires !Digit(c) && c != '/' && c != '?' && c != '#'
    requires p == NameColon || p == NamePort ==> c != '@' && c != '%' && !Plain(UserText, c)
    ensures Table(p, c) == To(Error)
  {
  }

  lemma LostStep(m: Machine, c: char)
    requires Lost(m)
    ensures Lost(Step(m, c))
  {
    if m.at == Outside {
      StepTo(m, c, Outside);
    } else {
      if Hopeless(m) { HopelessStep(m, c); }
      hide Step;
    }
  }

  /** One character more. */
  lemma StepTracks(m: Machine, g: Trail, x: string, c: char) returns (g': Trail)
    requires Tracks(m, g, x)
    ensures Tracks(Step(m, c), g', x + [c])
  {
    g' := g;
    StepGood(m, c);
    hide Step, Table, Text, Components, Known;
    if Lost(m) {
      LostStep(m, c);
    } else {
      match m.at
      case Start => SchemeTracks(m, g, x, c);
      case InScheme => SchemeTracks(m, g, x, c);
      case Colon => SchemeTracks(m, g, x, c);
      case Slash => SchemeTracks(m, g, x, c);
      case Pct1(_) => PctTracks(m, g, x, c);
      case Pct2(_) => PctTracks(m, g, x, c);
      case NameColon => g' := PortPlaces(m, g, x, c);
      case NamePort => g' := PortPlaces(m, g, x, c);
      case HostColon => g' := PortPlaces(m, g, x, c);
      case HostPort => g' := PortPlaces(m, g, x, c);
      case Auth => g' := EntryTracks(m, Name, g, x, c);
      case AtHost => g' := EntryTracks(m, Host, g, x, c);
      case AtQuery => g' := EntryTracks(m, InQuery, g, x, c);
      case AtFragment => g' := EntryTracks(m, InFragment, g, x, c);
      case _ => g' := LoopTracks(m, g, x, c);
    }
  }

  lemma {:induction false} RunTracks(x: string) returns (g: Trail)
    ensures Tracks(Run(Fresh, x), g, x)
    decreases |x|
  {
    if x == "" {
      FreshGood();
      g := NoTrail;
      hide Good;
    } else {
      var y, c := x[..|x| - 1], x[|x| - 1];
      var g0 := RunTracks(y);
      assert x == y + [c];
      hide Tracks, Run, Step;
      RunSplit(Fresh, y, [c]);
      RunOne(Run(Fresh, y), c);
      g := StepTracks(Run(Fresh, y), g0, y, c);
    }
  }

  // ----- the end of the input ------------------------------------------------------

  /** The parts that were read, where the input ends after "//". */
  function PartsOf(m: Machine, g: Trail): Parts
  {
    var u, t := m.uri, Or(m.text);
    var q := if g.query then Some(u.query) else None;
    match m.at
    case AtHost => Parts(u.scheme, g.user, "", None, "", None, None)
    case Name => Parts(u.scheme, None, t, None, "", None, None)
    case Host => Parts(u.scheme, g.user, t, None, "", None, None)
    case NameColon => Parts(u.scheme, None, u.host, Some(""), "", None, None)
    case HostColon => Parts(u.scheme, g.user, u.host, Some(""), "", None, None)
    case NamePort => Parts(u.scheme, None, u.host, Some(t), "", None, None)
    case HostPort => Parts(u.scheme, g.user, u.host, Some(t), "", None, None)
    case InPath => Parts(u.scheme, g.user, u.host, g.port, t, None, None)
    case AtQuery => Parts(u.scheme, g.user, u.host, g.port, u.path, Some(""), None)
    case InQuery => Parts(u.scheme, g.user, u.host, g.port, u.path, Some(t), None)
    case AtFragment => Parts(u.scheme, g.user, u.host, g.port, u.path, q, Some(""))
    case InFragment => Parts(u.scheme, g.user, u.host, g.port, u.path, q, Some(t))
    case _ => Parts(u.scheme, None, "", None, "", None, None)
  }

  function FrontOf(p: Parts): string
  {
    (p.scheme + "://") + (if p.user.Some? then p.user.value + "@" else "") + p.host + Prefixed(':', p.port)
  }

  lemma SpelledFlat(p: Parts)
    ensures Spelled(p) == FrontOf(p) + p.path + Prefixed('?', p.query) + Prefixed('#', p.fragment)
  {
    var a, b := p.scheme + "://", if p.user.Some? then p.user.value + "@" else "";
    var d, q, f := Prefixed(':', p.port), Prefixed('?', p.query), Prefixed('#', p.fragment);
    hide Prefixed;
    Reassociate(a, b, p.host, d, p.path, q + f);
    Assoc(FrontOf(p) + p.path, q, f);
  }

  predicate Final(p: Place)
  {
    p == Auth || p == AtHost || p == Name || p == Host || p == NameColon || p == HostColon || p == NamePort
    || p == HostPort || p == InPath || p == AtQuery || p == InQuery || p == AtFragment || p == InFragment
  }

  lemma Empties(x: string)
    ensures x + "" == x && x + "" + "" == x && x + "" + "" + "" == x && x + "" + "" + "" + "" == x
  {
  }

  /** Inside the authority. */
  lemma AuthSpelled(m: Machine, g: Trail)
    requires Early(m.at) || AfterUser(m.at)
    requires Final(m.at) && Placed(m.at, g) && (Reading(m.at) ==> m.text.Some?)
    ensures Spelled(PartsOf(m, g)) == Spell(m, g)
  {
    var p, x := PartsOf(m, g), Spell(m, g);
    SpelledFlat(p);
    if g.user.None? { NoUserLead(m.uri, g); }
    var b := Base(m.uri) + UserOf(g);
    assert b == (p.scheme + "://") + (if p.user.Some? then p.user.value + "@" else "");
    hide Spelled, UserOf, Base;
    Assoc(b + p.host, ":", Or(p.port));
    Empties(FrontOf(p));
    Empties(b + p.host);
    Empties(b);
    Empties(b + m.uri.host + ":");
  }

  /** After the authority. */
  lemma TailSpelled(m: Machine, g: Trail)
    requires Final(m.at) && !Early(m.at) && !AfterUser(m.at) && (Reading(m.at) ==> m.text.Some?)
    requires !InTail(m.at) ==> !g.query
    ensures Spelled(PartsOf(m, g)) == Spell(m, g)
  {
    var p, u, t := PartsOf(m, g), m.uri, Or(m.text);
    SpelledFlat(p);
    assert FrontOf(p) == Front(u, g);
    hide Spelled, Front, FrontOf;
    var f := Front(u, g) + p.path;
    var q := f + Prefixed('?', p.query);
    Empties(f);
    Assoc(f, "?", t);
    Empties(f + "?");
    Empties(f + "?" + t);
    Assoc(q, "#", t);
    Empties(q + "#");
  }

  lemma PartsSpelled(m: Machine, g: Trail, x: string)
    requires Known(m, g, x) && Final(m.at)
    ensures Spelled(PartsOf(m, g)) == x
  {
    hide Spelled, PartsOf, TrailOk;
    if Early(m.at) || AfterUser(m.at) { AuthSpelled(m, g); } else { TailSpelled(m, g); }
  }

  lemma PartsGrammatical(m: Machine, g: Trail, x: string)
    requires Known(m, g, x) && Good(m) && !Lost(m) && Final(m.at) && m.uri.scheme != ""
    ensures Grammatical(PartsOf(m, g))
  {
    assert Text(RegName, "") && Text(PathText, "") && Text(QueryText, "") && Digits("");
    hide Text, Digits, SchemeText, Spell;
  }

  // ----- the accepted strings -------------------------------------------------------

  /** A scheme and ':' alone, or with one slash, is accepted too. */
  predicate Bare(x: string, scheme: string)
  {
    SchemeText(scheme) && (x == scheme + ":" || x == scheme + ":/")
  }

  lemma BareAccepted(x: string, scheme: string)
    requires Bare(x, scheme)
    ensures Parse(x) == Accepted(NoUri.(scheme := scheme))
  {
    hide Step, Table;
    SchemeFirst(scheme[0]);
    var m := Machine(InScheme, Some(scheme), NoUri, false);
    assert Run(Fresh, scheme) == m by {
      SchemeScan(Step(Fresh, scheme[0]), scheme[1..]);
      assert [scheme[0]] + scheme[1..] == scheme;
    }
    ColonStep(m);
    hide Run;
    if x == scheme + ":" {
      RunSplit(Fresh, scheme, ":");
    } else {
      RunSplit(Fresh, scheme, ":/");
    }
  }

  lemma ColonStep(m: Machine)
    requires m.at == InScheme && m.text.Some?
    ensures Run(m, ":") == Machine(Colon, None, m.uri.(scheme := m.text.value), m.bad)
    ensures Run(m, ":/") == Machine(Slash, None, m.uri.(scheme := m.text.value), m.bad)
  {
    assert Table(InScheme, ':') == Edge(SaveScheme, Skip, Skip, Colon);
    assert Table(Colon, '/') == To(Slash);
    hide Table;
    assert Step(m, ':') == Machine(Colon, None, m.uri.(scheme := m.text.value), m.bad);
    StepTo(Step(m, ':'), '/', Slash);
    RunOne(m, ':');
    RunStep(m, ':', "/");
    RunOne(Step(m, ':'), '/');
    assert [':'] + "/" == ":/";
  }

  /** An accepted string with a scheme is `scheme ":"`, `scheme ":/"` or written as the
      grammar says, with a port that is absent or in range; what is returned are its
      parts. */
  lemma AcceptedIsSpelled(x: string) returns (bare: bool, p: Parts)
    requires Parse(x).Accepted? && Parse(x).uri.scheme != ""
    ensures bare ==> Bare(x, Parse(x).uri.scheme) && Parse(x).uri == NoUri.(scheme := Parse(x).uri.scheme)
    ensures !bare ==> Grammatical(p) && PortParses(p.port) && x == Spelled(p) && Parse(x).uri == Meaning(p)
  {
    var g := RunTracks(x);
    var m := Run(Fresh, x);
    AcceptedPlace(m, g, x);
    bare := m.at == Colon || m.at == Slash;
    p := PartsOf(m, g);
    if bare {
      BareAccepted(x, m.uri.scheme);
    } else {
      hide Run, Parse, Known, Good, Lost, PartsOf;
      PartsSpelled(m, g, x);
      PartsGrammatical(m, g, x);
      hide Grammatical, Spelled, Meaning;
      ParseExact(p);
    }
  }

  lemma AcceptedPlace(m: Machine, g: Trail, x: string)
    requires Tracks(m, g, x) && Finish(m).Accepted? && Finish(m).uri.scheme != ""
    ensures Good(m) && !Lost(m) && Known(m, g, x) && m.uri.scheme != ""
    ensures if m.at == Colon || m.at == Slash then Bare(x, m.uri.scheme) else Final(m.at)
  {
    hide Text, TrailOk;
    if m.at == InPath && m.text.None? { LostEof(m); }
    assert Finish(m).uri.scheme == m.uri.scheme;
  }

  /** The accepted strings with a scheme, exactly. */
  lemma AcceptedExactly(x: string)
    ensures
      Parse(x).Accepted? && Parse(x).uri.scheme != "" <==>
      || (exists scheme :: Bare(x, scheme))
      || (exists p :: Grammatical(p) && PortParses(p.port) && Spelled(p) == x)
  {
    if Parse(x).Accepted? && Parse(x).uri.scheme != "" {
      var bare, p := AcceptedIsSpelled(x);
    }
    if scheme :| Bare(x, scheme) { BareAccepted(x, scheme); }
    if p :| Grammatical(p) && PortParses(p.port) && Spelled(p) == x { ParseExact(p); }
  }
}
