/**
 What the parser can return: every accepted URI is well-formed, so it can be printed
 and parsed again; an empty port is never accepted.
 */
module UriGrammar {
  import opened Options
  import opened Uri
  import opened UriRoundTrip

  // ----- texts -----------------------------------------------------------------

  lemma {:induction false} TextAppend(k: Kind, x: string, y: string)
    requires Text(k, x) && Text(k, y)
    ensures Text(k, x + y)
    decreases |x|
  {
    hide Plain;
    if x == "" {
      assert x + y == y;
    } else if x[0] == '%' {
      TextAppend(k, x[3..], y);
      assert (x + y)[3..] == x[3..] + y;
    } else {
      TextAppend(k, x[1..], y);
      assert (x + y)[1..] == x[1..] + y;
    }
  }

  lemma TextChar(k: Kind, x: string, c: char)
    requires Text(k, x) && Plain(k, c)
    ensures Text(k, x + [c])
  {
    assert Text(k, [c]) by { assert [c][1..] == ""; assert Text(k, ""); assert !Plain(k, '%'); }
    TextAppend(k, x, [c]);
  }

  lemma TextPct(k: Kind, x: string, c: char, d: char)
    requires Text(k, x) && Hex(c) && Hex(d)
    ensures Text(k, x + ['%', c, d])
  {
    assert Text(k, ['%', c, d]) by { assert ['%', c, d][3..] == ""; }
    TextAppend(k, x, ['%', c, d]);
  }

  lemma {:induction false} TextWeaken(x: string)
    requires Text(RegName, x)
    ensures Text(UserText, x)
    decreases |x|
  {
    if x != "" { TextWeaken(if x[0] == '%' then x[3..] else x[1..]); }
  }

  lemma {:induction false} DigitsText(x: string)
    requires Digits(x)
    ensures Text(UserText, x)
    decreases |x|
  {
    if x != "" { DigitsText(x[1..]); }
  }

  // ----- the invariant of a run ------------------------------------------------

  /** Components saved so far follow the grammar. */
  predicate Components(u: Uri)
  {
    && (u.scheme == "" || SchemeText(u.scheme)) && Text(UserText, u.userinfo) && Text(RegName, u.host)
    && 0 <= u.port <= MaxPort
    && Text(PathText, u.path) && (u.path != "" ==> u.path[0] == '/')
    && Text(QueryText, u.query) && Text(QueryText, u.fragment)
  }

  /** The text since the mark fits a place that loops over an alphabet. */
  predicate LoopFits(p: Place, text: Option<string>)
  {
    match p
    case Name => text.Some? && Text(RegName, text.value)
    case Host => text.Some? && Text(RegName, text.value)
    case UserInfo => text.Some? && Text(UserText, text.value)
    case InPath => text.Some? ==> Text(PathText, text.value) && text.value != "" && text.value[0] == '/'
    case InQuery => text.Some? && Text(QueryText, text.value)
    case InFragment => text.Some? && Text(QueryText, text.value)
    case _ => false
  }

  function Cut(text: Option<string>, n: nat): Option<string>
  {
    if text.None? || |text.value| < n then None else Some(text.value[..|text.value| - n])
  }

  predicate Fits(p: Place, text: Option<string>)
  {
    match p
    case InScheme => text.Some? && SchemeText(text.value)
    case NameColon => text.Some? && Text(UserText, text.value)
    case NamePort => text.Some? && text.value != "" && Digits(text.value)
    case HostPort => text.Some? && text.value != "" && Digits(text.value)
    case Pct1(back) =>
      LoopFits(back, Cut(text, 1))
      && (text.Some? ==> text.value != "" && text.value[|text.value| - 1] == '%')
    case Pct2(back) =>
      LoopFits(back, Cut(text, 2))
      && (text.Some? ==> var n := |text.value|; n >= 2 && text.value[n - 2] == '%' && Hex(text.value[n - 1]))
    case Name => LoopFits(p, text)
    case Host => LoopFits(p, text)
    case UserInfo => LoopFits(p, text)
    case InPath => LoopFits(p, text)
    case InQuery => LoopFits(p, text)
    case InFragment => LoopFits(p, text)
    case _ => true
  }

  predicate Good(m: Machine) { m.bad || (Components(m.uri) && Fits(m.at, m.text)) }

  function LoopKind(p: Place): Kind
  {
    match p
    case Name => RegName
    case Host => RegName
    case UserInfo => UserText
    case InPath => PathText
    case _ => QueryText
  }

  /** Reading on inside a loop. */
  lemma LoopPlain(p: Place, text: Option<string>, c: char)
    requires LoopFits(p, text) && Plain(LoopKind(p), c)
    ensures LoopFits(p, More(text, [c]))
  {
    if text.Some? { TextChar(LoopKind(p), text.value, c); }
  }

  lemma LoopPct(p: Place, text: Option<string>, c: char)
    requires Fits(Pct2(p), text) && Hex(c)
    ensures LoopFits(p, More(text, [c]))
  {
    if text.Some? {
      var x, n := text.value, |text.value| - 2;
      assert x + [c] == x[..n] + ['%', x[n + 1], c];
      hide Text;
      TextPct(LoopKind(p), x[..n], x[n + 1], c);
    }
  }

  lemma PctGood(m: Machine, c: char)
    requires Good(m) && !m.bad && (m.at.Pct1? || m.at.Pct2?)
    ensures Good(Step(m, c))
  {
    hide Components, Text;
    var p := m.at.back;
    var to := if Hex(c) then (if m.at.Pct1? then Pct2(p) else p) else Error;
    assert Table(m.at, c) == To(to);
    hide Table;
    StepTo(m, c, to);
    hide Step;
    if Hex(c) && m.at.Pct2? {
      LoopPct(p, m.text, c);
    } else if Hex(c) && m.text.Some? {
      var x := m.text.value;
      assert (x + [c])[..|x + [c]| - 2] == x[..|x| - 1];
    }
  }

  lemma StepGood0(m: Machine, c: char, p: Place)
    requires Good(m) && !m.bad && Table(m.at, c) == To(p) && Fits(p, More(m.text, [c]))
    ensures Good(Step(m, c))
  {
    StepTo(m, c, p);
    hide Step, Table, Components, Fits;
  }

  /** A character of the alphabet, or the start of an encoded one. */
  lemma LoopGood(m: Machine, c: char)
    requires Good(m) && !m.bad && LoopFits(m.at, m.text) && (c == '%' || Plain(LoopKind(m.at), c))
    ensures Good(Step(m, c))
  {
    hide Components, Text, Step;
    if c == '%' {
      if m.text.Some? {
        var x := m.text.value;
        assert (x + ['%'])[..|x + ['%']| - 1] == x;
      }
      StepGood0(m, c, Pct1(m.at));
    } else {
      LoopPlain(m.at, m.text, c);
      StepGood0(m, c, m.at);
    }
  }

  predicate HostExit(p: Place, c: char)
  {
    || ((p == Name || p == Host) && (c == '/' || c == '#' || c == '?' || c == ':'))
    || (p == Name && c == '@')
  }

  /** The end of a host, or of user information without a colon. */
  lemma HostSaved(m: Machine, c: char)
    requires Good(m) && !m.bad && HostExit(m.at, c)
    ensures Good(Step(m, c))
  {
    hide Step, Table;
    var t := m.text.value;
    TextWeaken(t);
    TextChar2(t, c);
    HostEnd(m);
    if c == '@' {
      UserEnd(m);
    } else if c == ':' && m.at == Name {
      NameColonStep(m);
    } else if c == '#' || c == '?' {
      HostCut(m, c);
    } else if c == ':' {
      HostColonStep(m);
    }
  }

  lemma HostColonStep(m: Machine)
    requires m.at == Host
    ensures Step(m, ':').at == HostColon
  {
    assert Table(Host, ':').to == HostColon;
  }

  lemma TextChar2(t: string, c: char)
    requires Text(RegName, t)
    ensures c == ':' ==> Text(UserText, t + [c])
    ensures c == '/' ==> Text(PathText, [c])
  {
    if c == ':' {
      TextWeaken(t);
      TextChar(UserText, t, c);
    }
    assert [c][1..] == "";
  }

  /** The end of user information. */
  lemma UserSaved(m: Machine)
    requires Good(m) && !m.bad && (m.at == NameColon || m.at == NamePort || m.at == UserInfo)
    ensures Good(Step(m, '@'))
  {
    var t := m.text.value;
    assert Text(UserText, t) by { if m.at == NamePort { DigitsText(t); } }
    assert Table(m.at, '@') == Edge(SaveUserinfo, Skip, Skip, AtHost);
    assert Components(m.uri.(userinfo := t));
    hide Components, Table, Text;
  }

  /** The end of a path or a query. */
  lemma PathSaved(m: Machine, c: char)
    requires Good(m) && !m.bad && (m.at == InPath || m.at == InQuery) && (c == '#' || (c == '?' && m.at == InPath))
    ensures Good(Step(m, c))
  {
    hide Step, Table;
    if m.text.Some? {
      StepOut(m, c);
    } else {
      LostPath(m, c);
    }
  }

  /** The end of a port. */
  lemma PortSaved(m: Machine, c: char)
    requires Good(m) && !m.bad && (m.at == NamePort || m.at == HostPort) && (c == '/' || c == '#' || c == '?')
    ensures Good(Step(m, c))
  {
    hide Step, Table, Value;
    PortCut(m, c);
    TextChar2("", c);
    if c == '/' && Value(m.text.value) <= MaxPort { PortLast(m); }
  }

  /** No port after the colon: the mark is lost, so a path cannot be saved. */
  lemma EmptyPortGood(m: Machine, c: char)
    requires Good(m) && !m.bad && (m.at == NameColon || m.at == HostColon) && (c == '/' || c == '#' || c == '?')
    ensures Good(Step(m, c))
  {
    hide Step, Table, Components, Text;
    EmptyPortStep(m, c);
  }

  /** Inside the places around a port. */
  lemma PortGood(m: Machine, c: char)
    requires Good(m) && !m.bad
    requires m.at == NameColon || m.at == NamePort || m.at == HostColon || m.at == HostPort
    ensures Good(Step(m, c))
  {
    if c == '/' || c == '#' || c == '?' {
      if m.at == NameColon || m.at == HostColon { EmptyPortGood(m, c); } else { PortSaved(m, c); }
    } else if Digit(c) {
      DigitGood(m, c);
    } else if m.at == HostColon || m.at == HostPort {
      StepGood0(m, c, Error);
    } else if c == '@' {
      UserSaved(m);
    } else if c == '%' || Plain(UserText, c) {
      MoreUser(m, c);
    } else {
      StepGood0(m, c, Error);
    }
  }

  lemma DigitGood(m: Machine, c: char)
    requires Good(m) && !m.bad && Digit(c)
    requires m.at == NameColon || m.at == NamePort || m.at == HostColon || m.at == HostPort
    ensures Good(Step(m, c))
  {
    hide Components, Text;
    if m.at == NamePort || m.at == HostPort {
      StepGood0(m, c, m.at);
    } else {
      PortFirst(m, c);
      hide Step;
    }
  }

  lemma MoreUser(m: Machine, c: char)
    requires Good(m) && !m.bad && (m.at == NameColon || m.at == NamePort)
    requires !Digit(c) && (c == '%' || Plain(UserText, c))
    ensures Good(Step(m, c))
  {
    var n := m.(at := UserInfo);
    assert Text(UserText, m.text.value) by { if m.at == NamePort { DigitsText(m.text.value); } }
    SameAsUser(m, [c]);
    RunOne(m, c);
    RunOne(n, c);
    LoopGood(n, c);
  }

  /** The scheme, its colon and the two slashes. */
  lemma SchemeGood(m: Machine, c: char)
    requires Good(m) && !m.bad && (m.at == Start || m.at == InScheme || m.at == Colon || m.at == Slash)
    ensures Good(Step(m, c))
  {
    var e := Table(m.at, c);
    if m.at == Start && Alpha(c) {
      assert e == Edge(Mark, Skip, Skip, InScheme);
      assert "" + [c] == [c];
    } else if m.at == InScheme && c == ':' {
      assert e == Edge(SaveScheme, Skip, Skip, Colon);
      assert Components(m.uri.(scheme := m.text.value));
    } else {
      StepGood0(m, c, e.to);
    }
  }

  /** The places entered before a component: as the component with a fresh mark. */
  lemma EntryGood(m: Machine, q: Place, c: char)
    requires Good(m) && !m.bad && Enters(m.at, q)
    requires forall n: Machine :: Good(n) && !n.bad && n.at == q ==> Good(Step(n, c))
    ensures Good(Step(m, c))
  {
    var to := Table(m.at, c).to;
    if to == Error || to == Outside {
      DeadEntry(m.at, q, c);
      StepGood0(m, c, to);
    } else {
      EntryTable(m.at, q, c);
      AlikeFollow(m, q, Table(m.at, c), Table(q, c));
      var n := m.(at := q, text := Some(""));
      hide Table, Follow, Components;
      assert Good(n);
      assert Step(m, c) == Step(n, c);
    }
  }

  lemma DeadEntry(p: Place, q: Place, c: char)
    requires Enters(p, q) && (Table(p, c).to == Error || Table(p, c).to == Outside)
    ensures Table(p, c) == To(Table(p, c).to)
  {
    hide Plain;
  }

  /** The loops: read on, or save and leave. */
  lemma LoopPlaceGood(m: Machine, c: char)
    requires Good(m) && !m.bad && LoopFits(m.at, m.text)
    ensures Good(Step(m, c))
  {
    if c == '%' || Plain(LoopKind(m.at), c) {
      LoopGood(m, c);
    } else if HostExit(m.at, c) {
      HostSaved(m, c);
    } else if m.at == UserInfo && c == '@' {
      UserSaved(m);
    } else if (m.at == InPath || m.at == InQuery) && (c == '#' || (c == '?' && m.at == InPath)) {
      PathSaved(m, c);
    } else {
      DeadLoop(m, c);
    }
  }

  lemma DeadLoop(m: Machine, c: char)
    requires Good(m) && !m.bad && LoopFits(m.at, m.text) && c != '%' && !Plain(LoopKind(m.at), c)
    requires !HostExit(m.at, c)
    requires m.at == UserInfo ==> c != '@'
    requires (m.at == InPath || m.at == InQuery) ==> c != '#' && (m.at == InPath ==> c != '?')
    ensures Good(Step(m, c))
  {
    var to := Table(m.at, c).to;
    assert Table(m.at, c) == To(to) && (to == Error || to == Outside);
    hide Table, LoopFits, Plain, Components;
    StepGood0(m, c, to);
  }

  lemma StepGood(m: Machine, c: char)
    requires Good(m)
    ensures Good(Step(m, c))
  {
    hide Components, LoopFits, Text;
    if m.bad {
      BadStays(m, [c]);
      RunOne(m, c);
    } else {
      match m.at
      case Start => SchemeGood(m, c);
      case InScheme => SchemeGood(m, c);
      case Colon => SchemeGood(m, c);
      case Slash => SchemeGood(m, c);
      case Pct1(_) => PctGood(m, c);
      case Pct2(_) => PctGood(m, c);
      case NameColon => PortGood(m, c);
      case NamePort => PortGood(m, c);
      case HostColon => PortGood(m, c);
      case HostPort => PortGood(m, c);
      case Auth => EnterGood(m, Name, c);
      case AtHost => EnterGood(m, Host, c);
      case AtQuery => EnterGood(m, InQuery, c);
      case AtFragment => EnterGood(m, InFragment, c);
      case Error => StepGood0(m, c, Error);
      case Outside => StepGood0(m, c, Outside);
      case _ => LoopPlaceGood(m, c);
    }
  }

  lemma EnterGood(m: Machine, q: Place, c: char)
    requires Good(m) && !m.bad && Enters(m.at, q)
    ensures Good(Step(m, c))
  {
    hide Step, Components, Table, Text;
    forall n: Machine | Good(n) && !n.bad && n.at == q ensures Good(Step(n, c)) { LoopPlaceGood(n, c); }
    EntryGood(m, q, c);
  }

  lemma {:induction false} RunGood(m: Machine, x: string)
    requires Good(m)
    ensures Good(Run(m, x))
    decreases |x|
  {
    hide Step, Good;
    if x != "" {
      StepGood(m, x[0]);
      RunGood(Step(m, x[0]), x[1..]);
    }
  }

  // ----- accepted means well-formed ----------------------------------------------

  lemma FinishGood(m: Machine)
    requires Good(m) && Finish(m).Accepted?
    ensures Components(Finish(m).uri)
  {
    var e := AtEnd(m.at).value;
    match m.at
    case Auth => EndAt(m, e);
    case AtHost => EndAt(m, e);
    case Name => EndName(m, e);
    case Host => EndName(m, e);
    case NamePort => EndPort(m, e);
    case HostPort => EndPort(m, e);
    case _ =>
      hide Text;
  }

  lemma EndAt(m: Machine, e: Edge)
    requires Components(m.uri) && (e.a, e.b, e.c) == (Mark, SaveHost, SavePath)
    ensures Components(Follow(m, e).uri)
  {
    assert Text(RegName, "") && Text(PathText, "");
    hide Text;
  }

  lemma EndName(m: Machine, e: Edge)
    requires Components(m.uri) && LoopFits(m.at, m.text) && (m.at == Name || m.at == Host)
    requires (e.a, e.b, e.c) == (SaveHost, Mark, SavePath)
    ensures Components(Follow(m, e).uri)
  {
    assert Text(PathText, "");
    hide Text;
  }

  lemma EndPort(m: Machine, e: Edge)
    requires Components(m.uri) && !m.bad && !Follow(m, e).bad && (e.a, e.b, e.c) == (SavePort, Mark, SavePath)
    ensures Components(Follow(m, e).uri)
  {
    assert Text(PathText, "");
    hide Text, Value, Digits;
  }

  lemma FreshGood()
    ensures Good(Fresh)
  {
    assert Text(UserText, "") && Text(RegName, "") && Text(PathText, "") && Text(QueryText, "");
  }

  /** Whatever is accepted follows the grammar. */
  lemma AcceptedIsWellFormed(x: string)
    requires Parse(x).Accepted?
    ensures Components(Parse(x).uri)
    ensures Parse(x).uri.scheme != "" ==> WellFormed(Parse(x).uri)
  {
    FreshGood();
    hide Text, Good, Run, Finish;
    RunGood(Fresh, x);
    FinishGood(Run(Fresh, x));
  }

  /** Parsing, printing and parsing again: the second parse succeeds exactly when the
      first found a scheme, and then agrees with the first. */
  lemma ParsePrintParse(x: string)
    requires Parse(x).Accepted?
    ensures
      var u := Parse(x).uri;
      && (Parse(ToString(u)).Accepted? <==> u.scheme != "")
      && (u.scheme != "" ==>
            var v := Parse(ToString(u)).uri;
            && v.scheme == u.scheme && v.host == u.host && GetPath(v) == GetPath(u) && GetPort(v) == GetPort(u)
            && v.query == u.query && v.fragment == u.fragment
            && (v.userinfo == u.userinfo <==> !ColonDigit(u.userinfo)))
  {
    AcceptedIsWellFormed(x);
    hide Text;
    var u := Parse(x).uri;
    if u.scheme == "" {
      NoScheme(u);
    } else {
      RoundTrip(u);
    }
  }

  lemma {:induction false} ErrorStays(m: Machine, x: string)
    requires m.at == Error
    ensures Run(m, x).at == Error && Run(m, x).bad == m.bad
    decreases |x|
  {
    if x != "" {
      StepTo(m, x[0], Error);
      hide Step;
      ErrorStays(Step(m, x[0]), x[1..]);
    }
  }

  lemma ColonFirst(x: string)
    requires x != "" && x[0] == ':'
    ensures Parse(x) == Rejected
  {
    assert Table(Start, ':') == To(Error);
    StepTo(Fresh, ':', Error);
    hide Step, Table;
    ErrorStays(Step(Fresh, ':'), x[1..]);
  }

  /** A URI without scheme prints as something the parser rejects. */
  lemma NoScheme(u: Uri)
    requires u.scheme == ""
    ensures Parse(ToString(u)) == Rejected
  {
    hide Parse;
    assert ToString(u)[0] == ':' by { hide PortPart, GetPath, Tail; }
    ColonFirst(ToString(u));
  }

  // ----- the empty port ----------------------------------------------------------

  /** No continuation can be accepted. */
  predicate Hopeless(m: Machine)
  {
    m.bad || m.at == Error || (m.text == None && (m.at == InPath || m.at == Pct1(InPath) || m.at == Pct2(InPath)))
  }

  lemma HopelessStep(m: Machine, c: char)
    requires Hopeless(m)
    ensures Hopeless(Step(m, c))
  {
    if m.bad {
      RunOne(m, c);
      BadStays(m, [c]);
    } else if m.at == InPath && (c == '#' || c == '?') {
      hide Step, Table;
      LostPath(m, c);
    } else {
      hide Plain;
      var to := Table(m.at, c).to;
      assert to == Error || to == InPath || to == Pct1(InPath) || to == Pct2(InPath);
      StepTo(m, c, to);
    }
  }

  lemma {:induction false} HopelessRun(m: Machine, x: string)
    requires Hopeless(m)
    ensures Finish(Run(m, x)) == Undefined || Finish(Run(m, x)) == Rejected
    decreases |x|
  {
    if x != "" {
      HopelessStep(m, x[0]);
      hide Step, Hopeless, Finish;
      HopelessRun(Step(m, x[0]), x[1..]);
    }
  }

  /** `scheme://`, user information and '@' if there is any, a host and ':', followed by
      the end, a slash, '?' or '#', is never accepted, whether or not what follows is of
      the grammar: saving an empty port drops the mark the path is then taken from. See
      `ParseExact` for the outcome on strings of the grammar. */
  lemma EmptyPortNeverAccepted(scheme: string, user: string, host: string, x: string)
    requires SchemeText(scheme) && Text(UserText, user) && Text(RegName, host)
    requires x == "" || x[0] == '/' || x[0] == '?' || x[0] == '#'
    ensures
      var r := Parse((scheme + "://") + ((if user == "" then "" else user + "@") + (host + ([':'] + x))));
      r == Undefined || r == Rejected
  {
    var m := Machine(Auth, None, NoUri.(scheme := scheme), false);
    var n := m.(at := Name, text := Some(""));
    var y := host + ([':'] + x);
    SchemePart(scheme);
    if user != "" {
      UserEnter(m, user, y);
      hide Table, Text, Finish, Run, Step;
      RunSplit(Fresh, scheme + "://", (user + "@") + y);
      RunSplit(n, user + "@", y);
      UserPart(n, user);
      HostThenColon(Run(n, user + "@"), host, x);
    } else {
      hide Table, Text, Finish, Run;
      assert "" + y == y;
      RunSplit(Fresh, scheme + "://", y);
      HostThenColon(m, host, x);
    }
  }

  lemma HostStart(p: Place, host: string, x: string)
    requires Text(RegName, host) && (p == Auth || p == AtHost)
    ensures var c := (host + ([':'] + x))[0]; Table(p, c).to != Error && Table(p, c).to != Outside
  {
    if host != "" {
      TextStarts(RegName, host);
      PlainGrows(host[0]);
      AuthorityFirst(p, host[0]);
    }
  }

  lemma HostThenColon(m: Machine, host: string, x: string)
    requires (m.at == Auth || m.at == AtHost) && !m.bad && Text(RegName, host)
    requires x == "" || x[0] == '/' || x[0] == '?' || x[0] == '#'
    ensures var r := Finish(Run(m, host + ([':'] + x))); r == Undefined || r == Rejected
  {
    var n := m.(at := if m.at == Auth then Name else Host, text := Some(""));
    HostStart(m.at, host, x);
    hide Table, Text, Step, Finish, Run, Hopeless;
    Enter(m, n.at, host + ([':'] + x));
    HostRead(n, host, [':'] + x);
    var h := n.(text := Some(host));
    HostEnd(h);
    RunStep(h, ':', x);
    ColonThen(Step(h, ':'), x);
  }

  lemma HostRead(n: Machine, host: string, rest: string)
    requires (n.at == Name || n.at == Host) && n.text == Some("") && Text(RegName, host)
    ensures Run(n, host + rest) == Run(n.(text := Some(host)), rest)
  {
    hide Text, Run;
    RunSplit(n, host, rest);
    Scan(n, RegName, host);
    assert "" + host == host;
  }

  lemma ColonThen(m: Machine, x: string)
    requires (m.at == NameColon || m.at == HostColon) && !m.bad
    requires x == "" || x[0] == '/' || x[0] == '?' || x[0] == '#'
    ensures Finish(Run(m, x)) == Undefined || Finish(Run(m, x)) == Rejected
  {
    if x != "" {
      EmptyPortStep(m, x[0]);
      hide Step, Finish;
      HopelessRun(Step(m, x[0]), x[1..]);
    }
  }

}
