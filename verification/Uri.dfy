/**
 The absolute form of a URI, `scheme "://" authority path ["?" query] ["#" fragment]`
 (section 3 of RFC 3986), as the generated parser sees it: the transition table of
 the automaton with its actions, and the printer.

 Here the text since the last mark is carried along; module `UriParser` runs the same
 table with positions. Characters from 128 up stand for the bytes the grammar calls
 non-ASCII.
 */
module Uri {
  import opened Options

  datatype Uri = Uri(scheme: string, userinfo: string, host: string, port: int,
                     path: string, query: string, fragment: string)

  const NoUri: Uri := Uri("", "", "", 0, "", "", "")

  const MaxPort: int := 0x7fff_ffff

  // ----- characters ----------------------------------------------------------

  predicate Alpha(c: char) { 'a' <= c <= 'z' || 'A' <= c <= 'Z' }

  predicate Digit(c: char) { '0' <= c <= '9' }

  predicate Hex(c: char) { Digit(c) || 'a' <= c <= 'f' || 'A' <= c <= 'F' }

  predicate Unreserved(c: char) { Alpha(c) || Digit(c) || c == '-' || c == '.' || c == '_' || c == '~' }

  predicate SubDelim(c: char)
  {
    c == '!' || c == '$' || c == '&' || c == '\'' || c == '(' || c == ')'
    || c == '*' || c == '+' || c == ',' || c == ';' || c == '='
  }

  predicate SchemeChar(c: char) { Alpha(c) || Digit(c) || c == '+' || c == '-' || c == '.' }

  /** The four alphabets of the grammar's components. */
  datatype Kind = RegName | UserText | PathText | QueryText

  predicate Plain(k: Kind, c: char)
  {
    || Unreserved(c) || SubDelim(c)
    || (k != RegName && c == ':')
    || ((k == PathText || k == QueryText) && (c == '@' || c == '/' || c as int >= 128))
    || (k == QueryText && c == '?')
  }

  /** The alphabets by code, as the generated automaton lists them. */
  lemma PlainCodes(c: char)
    ensures
      var n := c as int;
      && (Plain(RegName, c) <==>
            n == 33 || n == 36 || 38 <= n <= 46 || 48 <= n <= 57 || n == 59 || n == 61
            || 65 <= n <= 90 || n == 95 || 97 <= n <= 122 || n == 126)
      && (Plain(UserText, c) <==> Plain(RegName, c) || n == 58)
      && (Plain(PathText, c) <==> Plain(UserText, c) || n == 47 || n == 64 || n >= 128)
      && (Plain(QueryText, c) <==> Plain(PathText, c) || n == 63)
      && (SchemeChar(c) <==> n == 43 || n == 45 || n == 46 || 48 <= n <= 57 || 65 <= n <= 90 || 97 <= n <= 122)
      && (Hex(c) <==> 48 <= n <= 57 || 65 <= n <= 70 || 97 <= n <= 102)
  {
  }

  /** Plain characters and percent-encoded octets. */
  predicate Text(k: Kind, x: string)
    decreases |x|
  {
    if x == "" then true
    else if x[0] == '%' then |x| >= 3 && Hex(x[1]) && Hex(x[2]) && Text(k, x[3..])
    else Plain(k, x[0]) && Text(k, x[1..])
  }

  predicate SchemeText(x: string)
  {
    x != "" && Alpha(x[0]) && forall i :: 0 <= i < |x| ==> SchemeChar(x[i])
  }

  predicate Digits(x: string) { forall i :: 0 <= i < |x| ==> Digit(x[i]) }

  /** What a caller may put into a Uri: the components follow the grammar, the host
      is a registered name, the path is empty or starts with a slash. */
  predicate WellFormed(u: Uri)
  {
    && SchemeText(u.scheme) && Text(UserText, u.userinfo) && Text(RegName, u.host)
    && 0 <= u.port <= MaxPort
    && Text(PathText, u.path) && (u.path != "" ==> u.path[0] == '/')
    && Text(QueryText, u.query) && Text(QueryText, u.fragment)
  }

  // ----- the printer ---------------------------------------------------------

  function Decimal(n: nat): string
  {
    (if n < 10 then "" else Decimal(n / 10)) + [(48 + n % 10) as char]
  }

  function Value(x: string): nat
    requires Digits(x)
  {
    if x == "" then 0 else 10 * Value(x[..|x| - 1]) + (x[|x| - 1] as int - 48)
  }

  predicate IsDefaultPort(u: Uri)
  {
    if u.port == 0 then true
    else if u.scheme == "http" || u.scheme == "ws" then u.port == 80
    else if u.scheme == "https" || u.scheme == "wss" then u.port == 443
    else false
  }

  function GetPath(u: Uri): string { if u.path == "" then "/" else u.path }

  function GetPort(u: Uri): int
  {
    if u.port != 0 then u.port
    else if u.scheme == "http" || u.scheme == "ws" then 80
    else if u.scheme == "https" || u.scheme == "wss" then 443
    else u.port
  }

  /** A negative port, which the type allows, prints with its sign. */
  function PortPart(u: Uri): string
  {
    if IsDefaultPort(u) then "" else if u.port < 0 then ":-" + Decimal(-u.port) else ":" + Decimal(u.port)
  }

  function Tail(query: string, fragment: string): string
  {
    (if query == "" then "" else "?" + query) + (if fragment == "" then "" else "#" + fragment)
  }

  function ToString(u: Uri): string
  {
    u.scheme + "://" + u.userinfo + (if u.userinfo == "" then "" else "@")
    + u.host + PortPart(u) + GetPath(u) + Tail(u.query, u.fragment)
  }

  // ----- the automaton ---------------------------------------------------------

  datatype Place =
    | Start | InScheme | Colon | Slash
    | Auth          // after "//"
    | Name          // a host, or user information up to its first ':'
    | NameColon     // after that ':', a port or more user information
    | NamePort      // digits after it, either
    | UserInfo      // certainly user information
    | AtHost | Host | HostColon | HostPort
    | InPath | AtQuery | InQuery | AtFragment | InFragment
    | Pct1(back: Place) | Pct2(back: Place)
    | Error
    | Outside       // IP literals, relative references, paths without authority

  datatype Action =
    | Skip | Mark | SaveScheme | SaveUserinfo | SaveHost | SavePort | SavePath | SaveQuery | SaveFragment

  /** A transition: its actions in order, and where it leads. */
  datatype Edge = Edge(a: Action, b: Action, c: Action, to: Place)

  function To(p: Place): Edge { Edge(Skip, Skip, Skip, p) }

  /** A character that can go on in some form that is not modelled. */
  function Elsewhere(c: char): Edge
  {
    if Plain(QueryText, c) || c == '#' || c == '%' then To(Outside) else To(Error)
  }

  function Table(p: Place, c: char): Edge
  {
    match p
    case Start => if Alpha(c) then Edge(Mark, Skip, Skip, InScheme) else if c == ':' then To(Error) else Elsewhere(c)
    case InScheme =>
      if SchemeChar(c) then To(InScheme)
      else if c == ':' then Edge(SaveScheme, Skip, Skip, Colon)
      else Elsewhere(c)
    case Colon => if c == '/' then To(Slash) else Elsewhere(c)
    case Slash => if c == '/' then To(Auth) else Elsewhere(c)
    case Auth =>
      if c == '%' then Edge(Mark, Skip, Skip, Pct1(Name))
      else if Plain(RegName, c) then Edge(Mark, Skip, Skip, Name)
      else if c == '#' then Edge(Mark, SaveHost, SavePath, AtFragment)
      else if c == '?' then Edge(Mark, SaveHost, SavePath, AtQuery)
      else if c == '/' then Edge(Mark, SaveHost, Skip, InPath)
      else if c == ':' then Edge(Mark, SaveHost, Skip, NameColon)
      else if c == '@' then Edge(Mark, SaveUserinfo, Skip, AtHost)
      else if c == '[' || c as int == 2 then To(Outside) else To(Error)
    case Name =>
      if c == '%' then To(Pct1(Name))
      else if Plain(RegName, c) then To(Name)
      else if c == '#' then Edge(SaveHost, Mark, SavePath, AtFragment)
      else if c == '?' then Edge(SaveHost, Mark, SavePath, AtQuery)
      else if c == '/' then Edge(SaveHost, Mark, Skip, InPath)
      else if c == ':' then Edge(SaveHost, Skip, Skip, NameColon)
      else if c == '@' then Edge(SaveUserinfo, Skip, Skip, AtHost)
      else if c as int == 2 then To(Outside) else To(Error)
    case NameColon =>
      if Digit(c) then Edge(Mark, Skip, Skip, NamePort)
      else if c == '%' then To(Pct1(UserInfo))
      else if Plain(UserText, c) then To(UserInfo)
      else if c == '@' then Edge(SaveUserinfo, Skip, Skip, AtHost)
      else EmptyPort(c)
    case NamePort =>
      if Digit(c) then To(NamePort)
      else if c == '%' then To(Pct1(UserInfo))
      else if Plain(UserText, c) then To(UserInfo)
      else if c == '@' then Edge(SaveUserinfo, Skip, Skip, AtHost)
      else PortEnd(c)
    case UserInfo =>
      if c == '%' then To(Pct1(UserInfo))
      else if Plain(UserText, c) then To(UserInfo)
      else if c == '@' then Edge(SaveUserinfo, Skip, Skip, AtHost)
      else To(Error)
    case AtHost =>
      if c == '%' then Edge(Mark, Skip, Skip, Pct1(Host))
      else if Plain(RegName, c) then Edge(Mark, Skip, Skip, Host)
      else if c == '#' then Edge(Mark, SaveHost, SavePath, AtFragment)
      else if c == '?' then Edge(Mark, SaveHost, SavePath, AtQuery)
      else if c == '/' then Edge(Mark, SaveHost, Skip, InPath)
      else if c == ':' then Edge(Mark, SaveHost, Skip, HostColon)
      else if c == '[' || c as int == 2 then To(Outside) else To(Error)
    case Host =>
      if c == '%' then To(Pct1(Host))
      else if Plain(RegName, c) then To(Host)
      else if c == '#' then Edge(SaveHost, Mark, SavePath, AtFragment)
      else if c == '?' then Edge(SaveHost, Mark, SavePath, AtQuery)
      else if c == '/' then Edge(SaveHost, Mark, Skip, InPath)
      else if c == ':' then Edge(SaveHost, Skip, Skip, HostColon)
      else if c as int == 2 then To(Outside) else To(Error)
    case HostColon => if Digit(c) then Edge(Mark, Skip, Skip, HostPort) else EmptyPort(c)
    case HostPort => if Digit(c) then To(HostPort) else PortEnd(c)
    case InPath =>
      if c == '%' then To(Pct1(InPath))
      else if Plain(PathText, c) then To(InPath)
      else if c == '#' then Edge(SavePath, Skip, Skip, AtFragment)
      else if c == '?' then Edge(SavePath, Skip, Skip, AtQuery)
      else To(Error)
    case AtQuery =>
      if c == '%' then Edge(Mark, Skip, Skip, Pct1(InQuery))
      else if Plain(QueryText, c) then Edge(Mark, Skip, Skip, InQuery)
      else if c == '#' then Edge(Mark, SaveQuery, Skip, AtFragment)
      else To(Error)
    case InQuery =>
      if c == '%' then To(Pct1(InQuery))
      else if Plain(QueryText, c) then To(InQuery)
      else if c == '#' then Edge(SaveQuery, Skip, Skip, AtFragment)
      else To(Error)
    case AtFragment =>
      if c == '%' then Edge(Mark, Skip, Skip, Pct1(InFragment))
      else if Plain(QueryText, c) then Edge(Mark, Skip, Skip, InFragment)
      else To(Error)
    case InFragment =>
      if c == '%' then To(Pct1(InFragment))
      else if Plain(QueryText, c) then To(InFragment)
      else To(Error)
    case Pct1(back) => if Hex(c) then To(Pct2(back)) else To(Error)
    case Pct2(back) => if Hex(c) then To(back) else To(Error)
    case Error => To(Error)
    case Outside => To(Outside)
  }

  /** What ends an authority right after its last ':', and after a port. */
  function EmptyPort(c: char): Edge
  {
    if c == '#' then Edge(Mark, SavePort, SavePath, AtFragment)
    else if c == '?' then Edge(Mark, SavePort, SavePath, AtQuery)
    else if c == '/' then Edge(Mark, SavePort, Skip, InPath)
    else To(Error)
  }

  function PortEnd(c: char): Edge
  {
    if c == '#' then Edge(SavePort, Mark, SavePath, AtFragment)
    else if c == '?' then Edge(SavePort, Mark, SavePath, AtQuery)
    else if c == '/' then Edge(SavePort, Mark, Skip, InPath)
    else To(Error)
  }

  /** The actions at the end of the input, if it may end here. */
  function AtEnd(p: Place): Option<Edge>
  {
    match p
    case Start => Some(To(Start))
    case InScheme => Some(To(InScheme))
    case Colon => Some(To(Colon))
    case Slash => Some(To(Slash))
    case Auth => Some(Edge(Mark, SaveHost, SavePath, Auth))
    case Name => Some(Edge(SaveHost, Mark, SavePath, Name))
    case NameColon => Some(Edge(Mark, SavePort, SavePath, NameColon))
    case NamePort => Some(Edge(SavePort, Mark, SavePath, NamePort))
    case AtHost => Some(Edge(Mark, SaveHost, SavePath, AtHost))
    case Host => Some(Edge(SaveHost, Mark, SavePath, Host))
    case HostColon => Some(Edge(Mark, SavePort, SavePath, HostColon))
    case HostPort => Some(Edge(SavePort, Mark, SavePath, HostPort))
    case InPath => Some(Edge(SavePath, Skip, Skip, InPath))
    case AtQuery => Some(Edge(Mark, SaveQuery, Skip, AtQuery))
    case InQuery => Some(Edge(SaveQuery, Skip, Skip, InQuery))
    case AtFragment => Some(Edge(Mark, SaveFragment, Skip, AtFragment))
    case InFragment => Some(Edge(SaveFragment, Skip, Skip, InFragment))
    case _ => None
  }

  // ----- running it on captured text -------------------------------------------

  /** `text` is what was read since the mark; `bad` says that a component was taken
      from a null mark, or a port beyond the range of int from atoi. */
  datatype Machine = Machine(at: Place, text: Option<string>, uri: Uri, bad: bool)

  function Apply(m: Machine, a: Action): Machine
  {
    match a
    case Skip => m
    case Mark => m.(text := Some(""))
    case SaveHost => if m.text.Some? then m.(uri := m.uri.(host := m.text.value)) else m
    case SaveUserinfo =>
      if m.text.Some? then m.(uri := m.uri.(userinfo := m.text.value), text := None) else m
    case SavePort =>
      if m.text.None? || !Digits(m.text.value) || Value(m.text.value) > MaxPort then m.(bad := true)
      else if m.text.value == "" then m.(text := None)
      else m.(uri := m.uri.(port := Value(m.text.value)), text := None)
    case SaveScheme =>
      if m.text.None? then m.(bad := true) else m.(uri := m.uri.(scheme := m.text.value), text := None)
    case SavePath =>
      if m.text.None? then m.(bad := true) else m.(uri := m.uri.(path := m.text.value), text := None)
    case SaveQuery =>
      if m.text.None? then m.(bad := true) else m.(uri := m.uri.(query := m.text.value), text := None)
    case SaveFragment =>
      if m.text.None? then m.(bad := true) else m.(uri := m.uri.(fragment := m.text.value), text := None)
  }

  function Follow(m: Machine, e: Edge): Machine
  {
    Apply(Apply(Apply(m, e.a), e.b), e.c).(at := e.to)
  }

  function More(text: Option<string>, x: string): Option<string>
  {
    if text.None? then None else Some(text.value + x)
  }

  function Step(m: Machine, c: char): Machine
  {
    var n := Follow(m, Table(m.at, c));
    n.(text := More(n.text, [c]))
  }

  function Run(m: Machine, x: string): Machine
    decreases |x|
  {
    if x == "" then m else Run(Step(m, x[0]), x[1..])
  }

  const Fresh: Machine := Machine(Start, None, NoUri, false)

  datatype Parsed = Accepted(uri: Uri) | Rejected | Undefined | Unmodelled

  function Finish(m: Machine): Parsed
  {
    if m.bad then Undefined
    else if m.at == Outside then Unmodelled
    else
      match AtEnd(m.at)
      case None => Rejected
      case Some(e) => var n := Follow(m, e); if n.bad then Undefined else Accepted(n.uri)
  }

  function Parse(x: string): Parsed { Finish(Run(Fresh, x)) }

  lemma {:induction false} RunSplit(m: Machine, x: string, y: string)
    ensures Run(m, x + y) == Run(Run(m, x), y)
    decreases |x|
  {
    if x == "" {
      assert x + y == y;
    } else {
      assert (x + y)[1..] == x[1..] + y;
      RunSplit(Step(m, x[0]), x[1..], y);
    }
  }

  lemma RunOne(m: Machine, c: char)
    ensures Run(m, [c]) == Step(m, c)
  {
    assert [c][1..] == "";
  }
}
