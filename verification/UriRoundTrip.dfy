/**
 Printing a URI and parsing it again, and what a parse can return.
 */
module UriRoundTrip {
  import opened Options
  import opened Uri

  // ----- numbers -----------------------------------------------------------

  lemma {:induction false} DecimalValue(n: nat)
    ensures Decimal(n) != "" && Digits(Decimal(n)) && Value(Decimal(n)) == n
    ensures n > 0 ==> Decimal(n)[0] != '0'
  {
    if n >= 10 { DecimalValue(n / 10); }
    var d := Decimal(n);
    assert d[..|d| - 1] == if n < 10 then "" else Decimal(n / 10);
  }

  // ----- scanning one component ----------------------------------------------

  /** The places that loop over one alphabet. */
  predicate Loops(p: Place, k: Kind)
  {
    match p
    case Name => k == RegName
    case Host => k == RegName
    case UserInfo => k == UserText
    case InPath => k == PathText
    case InQuery => k == QueryText
    case InFragment => k == QueryText
    case _ => false
  }

  /** A transition without actions. */
  lemma StepTo(m: Machine, c: char, p: Place)
    requires Table(m.at, c) == To(p)
    ensures Step(m, c) == m.(at := p, text := More(m.text, [c]))
  {
    hide Table;
  }

  lemma ScanPlain(m: Machine, k: Kind, c: char)
    requires Loops(m.at, k) && m.text.Some? && Plain(k, c)
    ensures Step(m, c) == m.(text := Some(m.text.value + [c]))
  {
    assert Table(m.at, c) == To(m.at);
    hide Step;
    StepTo(m, c, m.at);
  }

  lemma PctTable(p: Place, k: Kind)
    requires Loops(p, k)
    ensures Table(p, '%') == To(Pct1(p))
  {
    hide Plain;
  }

  lemma HexTable(p: Place, c: char)
    requires Hex(c)
    ensures Table(Pct1(p), c) == To(Pct2(p)) && Table(Pct2(p), c) == To(p)
  {
  }

  lemma ScanPct(m: Machine, k: Kind, c: char, d: char)
    requires Loops(m.at, k) && m.text.Some? && Hex(c) && Hex(d)
    ensures Step(Step(Step(m, '%'), c), d) == m.(text := Some(m.text.value + ['%', c, d]))
  {
    hide Step, Table;
    PctTable(m.at, k);
    HexTable(m.at, c);
    HexTable(m.at, d);
    hide Loops, Hex;
    var t := m.text.value;
    var m1 := m.(at := Pct1(m.at), text := Some(t + ['%']));
    var m2 := m.(at := Pct2(m.at), text := Some(t + ['%', c]));
    StepTo(m, '%', Pct1(m.at));
    StepTo(m1, c, Pct2(m.at));
    assert t + ['%'] + [c] == t + ['%', c];
    StepTo(m2, d, m.at);
    assert t + ['%', c] + [d] == t + ['%', c, d];
  }

  lemma RunThree(m: Machine, x: string)
    requires |x| >= 3
    ensures Run(m, x) == Run(Step(Step(Step(m, x[0]), x[1]), x[2]), x[3..])
  {
    hide Step;
    var m1 := Step(m, x[0]);
    var m2 := Step(m1, x[1]);
    assert x[1..][1..] == x[2..] && x[2..][1..] == x[3..];
    assert Run(m1, x[1..]) == Run(m2, x[2..]);
    assert Run(m2, x[2..]) == Run(Step(m2, x[2]), x[3..]);
  }

  /** In such a place a component is read through, into the text. */
  lemma {:induction false} Scan(m: Machine, k: Kind, x: string)
    requires Loops(m.at, k) && m.text.Some? && Text(k, x)
    ensures Run(m, x) == m.(text := Some(m.text.value + x))
    decreases |x|
  {
    hide Step, Loops, Plain;
    var t := m.text.value;
    if x == "" {
      assert t + x == t;
    } else if x[0] == '%' {
      RunThree(m, x);
      ScanPct(m, k, x[1], x[2]);
      Scan(m.(text := Some(t + ['%', x[1], x[2]])), k, x[3..]);
      assert t + ['%', x[1], x[2]] + x[3..] == t + x;
    } else {
      ScanPlain(m, k, x[0]);
      Scan(m.(text := Some(t + [x[0]])), k, x[1..]);
      assert t + [x[0]] + x[1..] == t + x;
    }
  }

  /** The entry places act as their loops with a fresh mark. */
  predicate Enters(p: Place, q: Place)
  {
    (p == Auth && q == Name) || (p == AtHost && q == Host)
    || (p == AtQuery && q == InQuery) || (p == AtFragment && q == InFragment)
  }

  /** Edge `e` does from anywhere what `f` does right after a mark. */
  predicate Alike(e: Edge, f: Edge)
  {
    e.a == Mark && f.to == e.to
    && ((e.c == Skip && (f.a, f.b, f.c) == (e.b, Skip, Skip))
        || (e.b == SaveHost && (f.a, f.b, f.c) == (e.b, Mark, e.c)))
  }

  lemma AlikeFollow(m: Machine, q: Place, e: Edge, f: Edge)
    requires Alike(e, f)
    ensures Follow(m, e) == Follow(m.(at := q, text := Some("")), f)
  {
    var n := m.(at := q, text := Some(""));
    assert Apply(n, e.b).(at := m.at) == Apply(Apply(m, Mark), e.b);
    assert Apply(Apply(n, SaveHost), Mark) == Apply(n, SaveHost);
    var k := Apply(n, e.b);
    assert Apply(k, e.c).(at := e.to) == Apply(k.(at := m.at), e.c).(at := e.to);
  }

  lemma EntryTable(p: Place, q: Place, c: char)
    requires Enters(p, q) && Table(p, c).to != Error && Table(p, c).to != Outside
    ensures Alike(Table(p, c), Table(q, c))
  {
    hide Plain;
  }

  lemma Enter(m: Machine, q: Place, x: string)
    requires Enters(m.at, q) && x != ""
    requires var to := Table(m.at, x[0]).to; to != Error && to != Outside
    ensures Run(m, x) == Run(m.(at := q, text := Some("")), x)
  {
    EntryTable(m.at, q, x[0]);
    hide Table;
    AlikeFollow(m, q, Table(m.at, x[0]), Table(q, x[0]));
    hide Follow;
  }

  /** Reading on after a known character. */
  lemma RunStep(m: Machine, c: char, x: string)
    ensures Run(m, [c] + x) == Run(Step(m, c), x)
  {
    assert ([c] + x)[1..] == x;
    hide Step;
  }

  lemma TextStarts(k: Kind, x: string)
    requires Text(k, x) && x != ""
    ensures x[0] == '%' || Plain(k, x[0])
  {
  }

  // ----- a URI as it is written ------------------------------------------------

  /** What stands in a string: None for a part that is absent with its separator. */
  datatype Parts = Parts(scheme: string, user: Option<string>, host: string, port: Option<string>,
                         path: string, query: Option<string>, fragment: Option<string>)

  /** The parts follow the grammar; the port is any number of digits, also none. */
  predicate Grammatical(p: Parts)
  {
    && SchemeText(p.scheme) && (p.user.Some? ==> Text(UserText, p.user.value)) && Text(RegName, p.host)
    && (p.port.Some? ==> Digits(p.port.value))
    && Text(PathText, p.path) && (p.path != "" ==> p.path[0] == '/')
    && (p.query.Some? ==> Text(QueryText, p.query.value))
    && (p.fragment.Some? ==> Text(QueryText, p.fragment.value))
  }

  function Prefixed(c: char, o: Option<string>): string { if o.None? then "" else [c] + o.value }

  function Or(o: Option<string>): string { if o.None? then "" else o.value }

  function TailOf(q: Option<string>, f: Option<string>): string { Prefixed('?', q) + Prefixed('#', f) }

  /** What follows the user information. */
  function RestOf(p: Parts): string { p.host + (Prefixed(':', p.port) + (p.path + TailOf(p.query, p.fragment))) }

  function Spelled(p: Parts): string
  {
    (p.scheme + "://") + ((if p.user.Some? then p.user.value + "@" else "") + RestOf(p))
  }

  /** A port that is absent, or a number in the range of int. */
  predicate PortParses(port: Option<string>)
  {
    port.Some? ==> port.value != "" && Digits(port.value) && Value(port.value) <= MaxPort
  }

  lemma TailShape(q: Option<string>, f: Option<string>)
    ensures q.None? ==> TailOf(q, f) == Prefixed('#', f)
    ensures q.Some? ==> TailOf(q, f) == ['?'] + (q.value + Prefixed('#', f))
    ensures TailOf(q, f) == "" || TailOf(q, f)[0] == '?' || TailOf(q, f)[0] == '#'
    ensures q.None? && f.None? ==> TailOf(q, f) == ""
  {
    if q.Some? { assert (['?'] + q.value) + Prefixed('#', f) == ['?'] + (q.value + Prefixed('#', f)); }
  }

  lemma SlashFirst(path: string, tail: string)
    requires path != "" && path[0] == '/'
    ensures path + tail == ['/'] + (path[1..] + tail)
  {
    assert path == ['/'] + path[1..];
  }

  // ----- from the path on ------------------------------------------------------

  lemma QueryFirst(x: string)
    requires Text(QueryText, x) && x != ""
    ensures Table(AtQuery, x[0]).to != Error && Table(AtQuery, x[0]).to != Outside
    ensures Table(AtFragment, x[0]).to != Error && Table(AtFragment, x[0]).to != Outside
  {
    TextStarts(QueryText, x);
  }

  function Saved(m: Machine): Uri
    requires m.text.Some?
  {
    if m.at == InPath then m.uri.(path := m.text.value)
    else if m.at == InQuery then m.uri.(query := m.text.value)
    else m.uri.(fragment := m.text.value)
  }

  /** What is returned where the input ends inside the last component ... */
  lemma EndsIn(m: Machine)
    requires (m.at == InPath || m.at == InQuery || m.at == InFragment) && m.text.Some? && !m.bad
    ensures Finish(m) == Accepted(Saved(m))
  {
    assert AtEnd(m.at) == Some(Edge(
      if m.at == InPath then SavePath else if m.at == InQuery then SaveQuery else SaveFragment, Skip, Skip, m.at));
    hide AtEnd;
  }

  /** ... or right before it. */
  lemma EndsAt(m: Machine)
    requires (m.at == AtQuery || m.at == AtFragment) && !m.bad
    ensures Finish(m) == Accepted(if m.at == AtQuery then m.uri.(query := "") else m.uri.(fragment := ""))
  {
    assert AtEnd(m.at) == Some(Edge(Mark, if m.at == AtQuery then SaveQuery else SaveFragment, Skip, m.at));
    hide AtEnd;
  }

  lemma StepOut(m: Machine, c: char)
    requires (m.at == InPath || m.at == InQuery) && m.text.Some? && (c == '#' || (c == '?' && m.at == InPath))
    ensures Step(m, c) == Machine(if c == '#' then AtFragment else AtQuery, None, Saved(m), m.bad)
  {
    assert Table(m.at, c) ==
      Edge(if m.at == InPath then SavePath else SaveQuery, Skip, Skip, if c == '#' then AtFragment else AtQuery);
    hide Table;
  }

  lemma FragmentPart(m: Machine, f: string)
    requires m.at == AtFragment && !m.bad && Text(QueryText, f)
    ensures Finish(Run(m, f)) == Accepted(m.uri.(fragment := f))
  {
    assert Run(m, "") == m;
    hide Run, Text, Table, Finish, Step;
    if f == "" {
      EndsAt(m);
    } else {
      FragmentRead(m, f);
      EndsIn(m.(at := InFragment, text := Some(f)));
    }
  }

  lemma FragmentRead(m: Machine, f: string)
    requires m.at == AtFragment && f != "" && Text(QueryText, f)
    ensures Run(m, f) == m.(at := InFragment, text := Some(f))
  {
    QueryFirst(f);
    hide Run, Text, Table, Step;
    Enter(m, InFragment, f);
    Scan(m.(at := InFragment, text := Some("")), QueryText, f);
    assert "" + f == f;
  }

  /** The end of a component and an optional fragment. */
  lemma FragmentTail(m: Machine, f: Option<string>)
    requires (m.at == InPath || m.at == InQuery) && m.text.Some? && !m.bad
    requires (f.Some? ==> Text(QueryText, f.value)) && m.uri.fragment == ""
    ensures Finish(Run(m, Prefixed('#', f))) == Accepted(Saved(m).(fragment := Or(f)))
  {
    assert Run(m, "") == m;
    hide Text, Table, Step, Run, Finish;
    if f.None? {
      EndsIn(m);
    } else {
      RunStep(m, '#', f.value);
      StepOut(m, '#');
      FragmentPart(Step(m, '#'), f.value);
    }
  }

  lemma QueryPart(m: Machine, q: string, f: Option<string>)
    requires m.at == AtQuery && !m.bad && Text(QueryText, q) && (f.Some? ==> Text(QueryText, f.value))
    requires m.uri.fragment == ""
    ensures Finish(Run(m, q + Prefixed('#', f))) == Accepted(m.uri.(query := q, fragment := Or(f)))
  {
    var rest := Prefixed('#', f);
    var n := m.(at := InQuery, text := Some(""));
    assert Run(m, "") == m;
    hide Text, Table, Step, Run, Finish;
    if q == "" && f.None? {
      assert q + rest == "";
      EndsAt(m);
    } else {
      QueryEnter(m, q, f);
      RunSplit(n, q, rest);
      Scan(n, QueryText, q);
      assert "" + q == q;
      FragmentTail(n.(text := Some(q)), f);
    }
  }

  lemma QueryEnter(m: Machine, q: string, f: Option<string>)
    requires m.at == AtQuery && Text(QueryText, q) && (q != "" || f.Some?)
    ensures Run(m, q + Prefixed('#', f)) == Run(m.(at := InQuery, text := Some("")), q + Prefixed('#', f))
  {
    var x := q + Prefixed('#', f);
    assert x[0] == if q == "" then '#' else q[0];
    if q == "" {
      assert Table(AtQuery, '#').to == AtFragment;
    } else {
      QueryFirst(q);
    }
    hide Table, Text;
    Enter(m, InQuery, x);
  }

  lemma PathTail(m: Machine, path: string, q: Option<string>, f: Option<string>)
    requires m.at == InPath && m.text == Some(path) && !m.bad && m.uri.query == m.uri.fragment == ""
    requires (q.Some? ==> Text(QueryText, q.value)) && (f.Some? ==> Text(QueryText, f.value))
    ensures Finish(Run(m, TailOf(q, f))) == Accepted(m.uri.(path := path, query := Or(q), fragment := Or(f)))
  {
    TailShape(q, f);
    hide Text, Table, Step, Run, Finish, TailOf, Prefixed;
    if q.None? {
      FragmentTail(m, f);
    } else {
      RunStep(m, '?', q.value + Prefixed('#', f));
      StepOut(m, '?');
      QueryPart(Step(m, '?'), q.value, f);
    }
  }

  /** From the slash that ends the authority. */
  lemma PathPart(m: Machine, path: string, q: Option<string>, f: Option<string>)
    requires m.at == InPath && m.text == Some("/") && !m.bad && m.uri.query == m.uri.fragment == ""
    requires path != "" && path[0] == '/' && Text(PathText, path)
    requires (q.Some? ==> Text(QueryText, q.value)) && (f.Some? ==> Text(QueryText, f.value))
    ensures Finish(Run(m, path[1..] + TailOf(q, f)))
         == Accepted(m.uri.(path := path, query := Or(q), fragment := Or(f)))
  {
    assert Text(PathText, path[1..]);
    hide Text, Table, Plain, Step, Finish, Run;
    RunSplit(m, path[1..], TailOf(q, f));
    Scan(m, PathText, path[1..]);
    assert "/" + path[1..] == path;
    PathTail(m.(text := Some(path)), path, q, f);
  }

  // ----- where an authority ends -------------------------------------------------

  /** In `m` the authority may end; `u` is then what was saved of it. */
  predicate Closes(m: Machine, u: Uri)
  {
    && Step(m, '/') == Machine(InPath, Some("/"), u, false)
    && Step(m, '?') == Machine(AtQuery, None, u.(path := ""), false)
    && Step(m, '#') == Machine(AtFragment, None, u.(path := ""), false)
    && Finish(m) == Accepted(u.(path := ""))
  }

  /** Path, query and fragment after the authority. */
  lemma AfterAuthority(m: Machine, u: Uri, path: string, q: Option<string>, f: Option<string>)
    requires Closes(m, u) && u.query == u.fragment == ""
    requires Text(PathText, path) && (path != "" ==> path[0] == '/')
    requires (q.Some? ==> Text(QueryText, q.value)) && (f.Some? ==> Text(QueryText, f.value))
    ensures Finish(Run(m, path + TailOf(q, f))) == Accepted(u.(path := path, query := Or(q), fragment := Or(f)))
  {
    assert Run(m, "") == m;
    TailShape(q, f);
    hide Text, Table, Step, Run, Finish, TailOf;
    if path != "" {
      SlashFirst(path, TailOf(q, f));
      RunStep(m, '/', path[1..] + TailOf(q, f));
      PathPart(Step(m, '/'), path, q, f);
    } else {
      assert path + TailOf(q, f) == TailOf(q, f);
      NoPath(m, u, q, f);
    }
  }

  lemma NoPath(m: Machine, u: Uri, q: Option<string>, f: Option<string>)
    requires Closes(m, u) && u.query == u.fragment == ""
    requires (q.Some? ==> Text(QueryText, q.value)) && (f.Some? ==> Text(QueryText, f.value))
    ensures Finish(Run(m, TailOf(q, f))) == Accepted(u.(path := "", query := Or(q), fragment := Or(f)))
  {
    assert Run(m, "") == m;
    TailShape(q, f);
    hide Text, Table, Step, Run, Finish, TailOf;
    if q.Some? {
      hide Prefixed;
      RunStep(m, '?', q.value + Prefixed('#', f));
      QueryPart(Step(m, '?'), q.value, f);
    } else if f.Some? {
      RunStep(m, '#', f.value);
      FragmentPart(Step(m, '#'), f.value);
    }
  }

  lemma HostCut(m: Machine, c: char)
    requires (m.at == Name || m.at == Host) && m.text.Some? && (c == '#' || c == '?')
    ensures Step(m, c) == Machine(if c == '#' then AtFragment else AtQuery, None,
                                  m.uri.(host := m.text.value, path := ""), m.bad)
  {
    assert Table(m.at, c) == Edge(SaveHost, Mark, SavePath, if c == '#' then AtFragment else AtQuery);
    hide Table;
  }

  lemma HostEnd(m: Machine)
    requires (m.at == Name || m.at == Host) && m.text.Some?
    ensures Step(m, '/') == Machine(InPath, Some("/"), m.uri.(host := m.text.value), m.bad)
    ensures
      var n := Step(m, ':');
      (n.at == NameColon || n.at == HostColon) && n.uri == m.uri.(host := m.text.value) && n.bad == m.bad
  {
    assert Table(m.at, '/') == Edge(SaveHost, Mark, Skip, InPath);
    assert Table(m.at, ':') == Edge(SaveHost, Skip, Skip, if m.at == Name then NameColon else HostColon);
    hide Table;
    assert "" + "/" == "/";
  }

  lemma HostCloses(m: Machine)
    requires (m.at == Name || m.at == Host) && m.text.Some? && !m.bad
    ensures Closes(m, m.uri.(host := m.text.value))
  {
    assert Finish(m) == Accepted(m.uri.(host := m.text.value, path := "")) by {
      assert AtEnd(m.at) == Some(Edge(SaveHost, Mark, SavePath, m.at));
      hide AtEnd;
    }
    hide Step, Finish;
    HostEnd(m);
    HostCut(m, '?');
    HostCut(m, '#');
  }

  // ----- the port ----------------------------------------------------------------

  lemma {:induction false} PortDigits(m: Machine, ds: string)
    requires (m.at == NamePort || m.at == HostPort) && m.text.Some? && Digits(ds)
    ensures Run(m, ds) == m.(text := Some(m.text.value + ds))
    decreases |ds|
  {
    hide Step;
    if ds == "" {
      assert m.text.value + ds == m.text.value;
    } else {
      StepTo(m, ds[0], m.at);
      PortDigits(Step(m, ds[0]), ds[1..]);
      assert m.text.value + [ds[0]] + ds[1..] == m.text.value + ds;
    }
  }

  lemma PortFirst(m: Machine, c: char)
    requires (m.at == NameColon || m.at == HostColon) && Digit(c)
    ensures Step(m, c) == m.(at := if m.at == NameColon then NamePort else HostPort, text := Some([c]))
  {
    assert Table(m.at, c) == Edge(Mark, Skip, Skip, if m.at == NameColon then NamePort else HostPort);
    hide Table;
    assert "" + [c] == [c];
  }

  lemma PortLast(m: Machine)
    requires (m.at == NamePort || m.at == HostPort) && m.text.Some? && m.text.value != ""
    requires Digits(m.text.value) && Value(m.text.value) <= MaxPort
    ensures Step(m, '/') == Machine(InPath, Some("/"), m.uri.(port := Value(m.text.value)), m.bad)
  {
    assert Table(m.at, '/') == Edge(SavePort, Mark, Skip, InPath);
    hide Table, Value, Digits;
    assert "" + "/" == "/";
  }

  lemma PortCut(m: Machine, c: char)
    requires (m.at == NamePort || m.at == HostPort) && m.text.Some? && m.text.value != "" && Digits(m.text.value)
    requires c == '/' || c == '#' || c == '?'
    ensures Value(m.text.value) > MaxPort ==> Step(m, c).bad
    ensures Value(m.text.value) <= MaxPort && c != '/' ==>
              Step(m, c) == Machine(if c == '#' then AtFragment else AtQuery, None,
                                    m.uri.(port := Value(m.text.value), path := ""), m.bad)
  {
    assert Table(m.at, c) ==
      if c == '/' then Edge(SavePort, Mark, Skip, InPath)
      else Edge(SavePort, Mark, SavePath, if c == '#' then AtFragment else AtQuery);
    hide Table, Value, Digits;
  }

  lemma PortEof(m: Machine)
    requires (m.at == NamePort || m.at == HostPort) && m.text.Some? && m.text.value != "" && Digits(m.text.value)
    requires !m.bad
    ensures Finish(m) == if Value(m.text.value) > MaxPort then Undefined
                         else Accepted(m.uri.(port := Value(m.text.value), path := ""))
  {
    assert AtEnd(m.at) == Some(Edge(SavePort, Mark, SavePath, m.at));
    hide AtEnd, Value, Digits;
  }

  lemma PortCloses(m: Machine)
    requires (m.at == NamePort || m.at == HostPort) && m.text.Some? && m.text.value != "" && Digits(m.text.value)
    requires !m.bad && Value(m.text.value) <= MaxPort
    ensures Closes(m, m.uri.(port := Value(m.text.value)))
  {
    hide Step, Finish, Value, Digits;
    PortEof(m);
    PortLast(m);
    PortCut(m, '?');
    PortCut(m, '#');
  }

  /** The digits after the colon. */
  lemma PortRead(m: Machine, ds: string)
    requires (m.at == NameColon || m.at == HostColon) && ds != "" && Digits(ds)
    ensures Run(m, ds) == m.(at := if m.at == NameColon then NamePort else HostPort, text := Some(ds))
  {
    hide Step, Table;
    PortFirst(m, ds[0]);
    PortDigits(Step(m, ds[0]), ds[1..]);
    assert [ds[0]] + ds[1..] == ds;
  }

  /** Once an action has gone wrong, nothing makes it good. */
  lemma {:induction false} BadStays(m: Machine, x: string)
    requires m.bad
    ensures Run(m, x).bad
    decreases |x|
  {
    if x != "" {
      assert Step(m, x[0]).bad by { hide Table; }
      hide Step;
      BadStays(Step(m, x[0]), x[1..]);
    }
  }

  lemma BadEnds(m: Machine, x: string)
    requires m.bad
    ensures Finish(Run(m, x)) == Undefined
  {
    BadStays(m, x);
    hide Run;
  }

  /** A port out of range is undefined, whatever follows in place. */
  lemma PortOverflows(m: Machine, x: string)
    requires (m.at == NamePort || m.at == HostPort) && m.text.Some? && m.text.value != "" && Digits(m.text.value)
    requires !m.bad && Value(m.text.value) > MaxPort
    requires x == "" || x[0] == '/' || x[0] == '?' || x[0] == '#'
    ensures Finish(Run(m, x)) == Undefined
  {
    hide Step, Finish, Value, Digits;
    if x == "" {
      PortEof(m);
    } else {
      PortCut(m, x[0]);
      BadEnds(Step(m, x[0]), x[1..]);
    }
  }

  // ----- the empty port ------------------------------------------------------------

  /** No port after the colon: the mark is lost. */
  lemma EmptyPortStep(m: Machine, c: char)
    requires (m.at == NameColon || m.at == HostColon) && (c == '/' || c == '#' || c == '?')
    ensures if c == '/' then Step(m, c) == m.(at := InPath, text := None) else Step(m, c).bad
  {
    assert Table(m.at, c) ==
      if c == '/' then Edge(Mark, SavePort, Skip, InPath)
      else Edge(Mark, SavePort, SavePath, if c == '#' then AtFragment else AtQuery);
    hide Table;
  }

  lemma EmptyPortEof(m: Machine)
    requires (m.at == NameColon || m.at == HostColon) && !m.bad
    ensures Finish(m) == Undefined
  {
    assert AtEnd(m.at) == Some(Edge(Mark, SavePort, SavePath, m.at));
    hide AtEnd;
  }

  /** A path is then read, but cannot be saved. */
  lemma {:induction false} ScanLost(m: Machine, x: string)
    requires m.at == InPath && m.text.None? && Text(PathText, x)
    ensures Run(m, x) == m
    decreases |x|
  {
    hide Step, Table;
    if x != "" && x[0] == '%' {
      RunThree(m, x);
      PctTable(InPath, PathText);
      HexTable(InPath, x[1]);
      HexTable(InPath, x[2]);
      ScanLost(m, x[3..]);
      hide Run, Text;
      StepTo(m, '%', Pct1(InPath));
      StepTo(m.(at := Pct1(InPath)), x[1], Pct2(InPath));
      StepTo(m.(at := Pct2(InPath)), x[2], InPath);
    } else if x != "" {
      PathTable(x[0]);
      StepTo(m, x[0], InPath);
      ScanLost(m, x[1..]);
    }
  }

  lemma PathTable(c: char)
    requires Plain(PathText, c)
    ensures Table(InPath, c) == To(InPath)
  {
  }

  lemma LostPath(m: Machine, c: char)
    requires m.at == InPath && m.text.None? && (c == '#' || c == '?')
    ensures Step(m, c).bad
  {
    assert Table(InPath, c) == Edge(SavePath, Skip, Skip, if c == '#' then AtFragment else AtQuery);
    hide Table;
  }

  lemma LostEof(m: Machine)
    requires m.at == InPath && m.text.None?
    ensures Finish(m) == Undefined
  {
    assert AtEnd(InPath) == Some(Edge(SavePath, Skip, Skip, InPath));
    hide AtEnd;
  }

  /** An empty port is undefined, whatever follows in place. */
  lemma EmptyPortUndefined(m: Machine, path: string, q: Option<string>, f: Option<string>)
    requires (m.at == NameColon || m.at == HostColon) && !m.bad
    requires Text(PathText, path) && (path != "" ==> path[0] == '/')
    ensures Finish(Run(m, path + TailOf(q, f))) == Undefined
  {
    var tail := TailOf(q, f);
    TailShape(q, f);
    assert path != "" ==> Text(PathText, path[1..]);
    hide Text, Step, Finish, Run, TailOf;
    if path != "" {
      SlashFirst(path, tail);
      RunStep(m, '/', path[1..] + tail);
      EmptyPortStep(m, '/');
      var n := m.(at := InPath, text := None);
      RunSplit(n, path[1..], tail);
      ScanLost(n, path[1..]);
      LostTail(n, tail);
    } else {
      assert path + tail == tail;
      EmptyPortTail(m, tail);
    }
  }

  lemma EmptyPortTail(m: Machine, tail: string)
    requires (m.at == NameColon || m.at == HostColon) && !m.bad && (tail == "" || tail[0] == '?' || tail[0] == '#')
    ensures Finish(Run(m, tail)) == Undefined
  {
    hide Step, Finish;
    if tail == "" {
      EmptyPortEof(m);
    } else {
      EmptyPortStep(m, tail[0]);
      BadEnds(Step(m, tail[0]), tail[1..]);
    }
  }

  lemma LostTail(m: Machine, tail: string)
    requires m.at == InPath && m.text.None? && (tail == "" || tail[0] == '?' || tail[0] == '#')
    ensures Finish(Run(m, tail)) == Undefined
  {
    hide Step, Finish;
    if tail == "" {
      LostEof(m);
    } else {
      LostPath(m, tail[0]);
      BadEnds(Step(m, tail[0]), tail[1..]);
    }
  }

  // ----- host, port and the rest ---------------------------------------------------

  /** What a parse returns for a machine that has read up to the host. */
  function PortAnswer(u: Uri, p: Parts): Parsed
  {
    if !PortParses(p.port) then Undefined
    else Accepted(u.(host := p.host, port := if p.port.None? then u.port else Value(p.port.value),
                     path := p.path, query := Or(p.query), fragment := Or(p.fragment)))
  }

  lemma PortThen(m: Machine, p: Parts)
    requires (m.at == NameColon || m.at == HostColon) && !m.bad && m.uri.query == m.uri.fragment == ""
    requires Grammatical(p) && p.port.Some? && m.uri.host == p.host
    ensures Finish(Run(m, p.port.value + (p.path + TailOf(p.query, p.fragment)))) == PortAnswer(m.uri, p)
  {
    var ds, rest := p.port.value, p.path + TailOf(p.query, p.fragment);
    assert rest == "" || rest[0] == '/' || rest[0] == '?' || rest[0] == '#' by { TailShape(p.query, p.fragment); }
    hide Text, Step, Finish, Run, TailOf, Value, Closes, SchemeText;
    if ds == "" {
      assert ds + rest == rest;
      EmptyPortUndefined(m, p.path, p.query, p.fragment);
    } else {
      var n := m.(at := if m.at == NameColon then NamePort else HostPort, text := Some(ds));
      RunSplit(m, ds, rest);
      PortRead(m, ds);
      if Value(ds) > MaxPort {
        PortOverflows(n, rest);
      } else {
        PortCloses(n);
        AfterAuthority(n, n.uri.(port := Value(ds)), p.path, p.query, p.fragment);
      }
    }
  }

  lemma HostPart(m: Machine, p: Parts)
    requires (m.at == Name || m.at == Host) && m.text == Some("") && !m.bad
    requires Grammatical(p) && m.uri.query == m.uri.fragment == ""
    ensures Finish(Run(m, RestOf(p))) == PortAnswer(m.uri, p)
  {
    var tail := p.path + TailOf(p.query, p.fragment);
    var h := m.(text := Some(p.host));
    hide Text, Step, Finish, Run, TailOf, Value, Closes, SchemeText;
    RunSplit(m, p.host, Prefixed(':', p.port) + tail);
    Scan(m, RegName, p.host);
    assert "" + p.host == p.host;
    if p.port.None? {
      assert Prefixed(':', p.port) + tail == tail;
      HostCloses(h);
      AfterAuthority(h, h.uri.(host := p.host), p.path, p.query, p.fragment);
    } else {
      assert Prefixed(':', p.port) + tail == [':'] + (p.port.value + tail);
      RunStep(h, ':', p.port.value + tail);
      HostEnd(h);
      PortThen(Step(h, ':'), p);
    }
  }

  // ----- user information ------------------------------------------------------

  function FirstColon(x: string): (i: nat)
    ensures i <= |x| && forall j :: 0 <= j < i ==> x[j] != ':'
    ensures i < |x| ==> x[i] == ':'
  {
    if x == "" || x[0] == ':' then 0 else 1 + FirstColon(x[1..])
  }

  /** The first ':' is directly followed by a digit. */
  predicate ColonDigit(x: string) { FirstColon(x) + 1 < |x| && Digit(x[FirstColon(x) + 1]) }

  /** What a parse keeps of user information: the digit moves the mark. */
  function KeptUser(x: string): string { if ColonDigit(x) then x[FirstColon(x) + 1..] else x }

  /** Splitting at the first colon. */
  lemma {:induction false} TextSplit(x: string)
    requires Text(UserText, x)
    ensures Text(RegName, x[..FirstColon(x)])
    ensures FirstColon(x) < |x| ==> Text(UserText, x[FirstColon(x) + 1..])
    decreases |x|
  {
    if x != "" && x[0] != ':' {
      var i := FirstColon(x);
      if x[0] == '%' {
        assert x[1] != ':' && x[2] != ':';
        assert x[1..][1..] == x[2..] && x[2..][1..] == x[3..];
        assert i == 3 + FirstColon(x[3..]);
        TextSplit(x[3..]);
        assert x[..i][3..] == x[3..][..i - 3];
        assert i < |x| ==> x[3..][i - 3 + 1..] == x[i + 1..];
      } else {
        TextSplit(x[1..]);
        assert x[..i][1..] == x[1..][..i - 1];
        assert i < |x| ==> x[1..][i - 1 + 1..] == x[i + 1..];
      }
    }
  }

  lemma UserEnd(m: Machine)
    requires (m.at == Name || m.at == NameColon || m.at == NamePort || m.at == UserInfo) && m.text.Some?
    ensures Step(m, '@') == Machine(AtHost, None, m.uri.(userinfo := m.text.value), m.bad)
  {
    assert Table(m.at, '@') == Edge(SaveUserinfo, Skip, Skip, AtHost);
    hide Table;
  }

  /** After the colon, a character that is no digit is read as user information. */
  lemma SameAsUser(m: Machine, x: string)
    requires (m.at == NameColon || m.at == NamePort) && x != "" && !Digit(x[0])
    requires x[0] == '%' || x[0] == '@' || Plain(UserText, x[0])
    ensures Run(m, x) == Run(m.(at := UserInfo), x)
  {
    assert Table(m.at, x[0]) == Table(UserInfo, x[0]);
    hide Table;
    assert Step(m, x[0]) == Step(m.(at := UserInfo), x[0]) by { assert Table(m.at, x[0]).to != Name; }
  }

  lemma {:induction false} UserScan(m: Machine, x: string)
    requires (m.at == NamePort || m.at == UserInfo) && m.text.Some? && Text(UserText, x)
    ensures Run(m, x) == m.(at := Run(m, x).at, text := Some(m.text.value + x))
    ensures Run(m, x).at == NamePort || Run(m, x).at == UserInfo
    decreases |x|
  {
    hide Step;
    var t := m.text.value;
    if x == "" {
      assert t + x == t;
    } else if m.at == UserInfo {
      hide Run, Text, Table;
      Scan(m, UserText, x);
    } else if Digit(x[0]) {
      StepTo(m, x[0], NamePort);
      var n := m.(text := Some(t + [x[0]]));
      hide Table, Plain;
      UserScan(n, x[1..]);
      assert t + [x[0]] + x[1..] == t + x;
    } else {
      TextStarts(UserText, x);
      hide Run, Text, Table, Plain;
      SameAsUser(m, x);
      Scan(m.(at := UserInfo), UserText, x);
    }
  }

  /** From the colon to the '@'. */
  lemma AfterUserColon(m: Machine, x: string)
    requires m.at == NameColon && m.text.Some? && Text(UserText, x)
    ensures Run(m, x + "@") == Machine(AtHost, None,
      m.uri.(userinfo := if x != "" && Digit(x[0]) then x else m.text.value + x), m.bad)
  {
    hide Step;
    if x != "" && Digit(x[0]) {
      PortFirst(m, x[0]);
      var m1 := Step(m, x[0]);
      assert (x + "@")[1..] == x[1..] + "@";
      RunSplit(m1, x[1..], "@");
      UserScan(m1, x[1..]);
      assert [x[0]] + x[1..] == x;
      UserEnd(Run(m1, x[1..]));
      RunOne(Run(m1, x[1..]), '@');
    } else {
      SameAsUser(m, x + "@");
      var m1 := m.(at := UserInfo);
      RunSplit(m1, x, "@");
      UserScan(m1, x);
      UserEnd(Run(m1, x));
      RunOne(Run(m1, x), '@');
    }
  }

  lemma UserPart(m: Machine, x: string)
    requires m.at == Name && m.text == Some("") && Text(UserText, x)
    ensures var n := Run(m, x + "@");
            n == Machine(AtHost, None, m.uri.(userinfo := KeptUser(x), host := n.uri.host), m.bad)
  {
    hide Step, Text, Run;
    TextSplit(x);
    var i := FirstColon(x);
    if i == |x| {
      assert x[..i] == x;
      PlainUser(m, x);
    } else {
      ColonUser(m, x, i);
    }
  }

  lemma PlainUser(m: Machine, x: string)
    requires m.at == Name && m.text == Some("") && Text(RegName, x)
    ensures Run(m, x + "@") == Machine(AtHost, None, m.uri.(userinfo := x), m.bad)
  {
    hide Step, Text, Run;
    RunSplit(m, x, "@");
    Scan(m, RegName, x);
    assert "" + x == x;
    UserEnd(m.(text := Some(x)));
    RunOne(m.(text := Some(x)), '@');
  }

  lemma SplitAt(x: string, i: nat)
    requires i < |x| && x[i] == ':'
    ensures x + "@" == x[..i] + ([':'] + (x[i + 1..] + "@"))
  {
    assert x == x[..i] + ([':'] + x[i + 1..]);
  }

  lemma ColonUser(m: Machine, x: string, i: nat)
    requires i < |x| && x[i] == ':' && Text(RegName, x[..i]) && Text(UserText, x[i + 1..])
    requires m.at == Name && m.text == Some("")
    ensures Run(m, x + "@") == Machine(AtHost, None,
      m.uri.(userinfo := if i + 1 < |x| && Digit(x[i + 1]) then x[i + 1..] else x, host := x[..i]), m.bad)
  {
    hide Step, Text, Run;
    var a, b := x[..i], x[i + 1..];
    SplitAt(x, i);
    Scan(m, RegName, a);
    assert "" + a == a;
    ColonPart(m.(text := Some(a)), x, i);
    RunSplit(m, a, [':'] + (b + "@"));
  }

  lemma ColonPart(m: Machine, x: string, i: nat)
    requires i < |x| && x[i] == ':' && Text(UserText, x[i + 1..]) && m.at == Name && m.text == Some(x[..i])
    ensures Run(m, [':'] + (x[i + 1..] + "@")) == Machine(AtHost, None,
      m.uri.(userinfo := if i + 1 < |x| && Digit(x[i + 1]) then x[i + 1..] else x, host := x[..i]), m.bad)
  {
    hide Step, Text, Run;
    var b := x[i + 1..];
    RunStep(m, ':', b + "@");
    NameColonStep(m);
    AfterUserColon(Step(m, ':'), b);
    assert x[..i] + ":" + b == x;
  }

  lemma NameColonStep(m: Machine)
    requires m.at == Name && m.text.Some?
    ensures Step(m, ':') == Machine(NameColon, Some(m.text.value + ":"), m.uri.(host := m.text.value), m.bad)
  {
    assert Table(m.at, ':') == Edge(SaveHost, Skip, Skip, NameColon);
    hide Table;
  }

  // ----- the scheme ------------------------------------------------------------

  lemma {:induction false} SchemeScan(m: Machine, x: string)
    requires m.at == InScheme && m.text.Some? && forall i :: 0 <= i < |x| ==> SchemeChar(x[i])
    ensures Run(m, x) == m.(text := Some(m.text.value + x))
    decreases |x|
  {
    hide Step;
    if x == "" {
      assert m.text.value + x == m.text.value;
    } else {
      StepTo(m, x[0], InScheme);
      SchemeScan(Step(m, x[0]), x[1..]);
      assert m.text.value + [x[0]] + x[1..] == m.text.value + x;
    }
  }

  lemma SchemeFirst(c: char)
    requires Alpha(c)
    ensures Step(Fresh, c) == Machine(InScheme, Some([c]), NoUri, false)
  {
    assert Table(Start, c) == Edge(Mark, Skip, Skip, InScheme);
    hide Table;
    assert "" + [c] == [c];
  }

  lemma SchemeEnd(m: Machine)
    requires m.at == InScheme && m.text.Some?
    ensures Run(m, "://") == Machine(Auth, None, m.uri.(scheme := m.text.value), m.bad)
  {
    assert Table(InScheme, ':') == Edge(SaveScheme, Skip, Skip, Colon);
    assert Table(Colon, '/') == To(Slash) && Table(Slash, '/') == To(Auth);
    hide Table;
    var m1 := Step(m, ':');
    assert m1 == Machine(Colon, None, m.uri.(scheme := m.text.value), m.bad);
    hide Step;
    RunThree(m, "://");
    StepTo(m1, '/', Slash);
    StepTo(Step(m1, '/'), '/', Auth);
  }

  lemma SchemePart(x: string)
    requires SchemeText(x)
    ensures Run(Fresh, x + "://") == Machine(Auth, None, NoUri.(scheme := x), false)
  {
    hide Step;
    SchemeFirst(x[0]);
    var m1 := Step(Fresh, x[0]);
    assert (x + "://")[1..] == x[1..] + "://";
    RunSplit(m1, x[1..], "://");
    SchemeScan(m1, x[1..]);
    assert [x[0]] + x[1..] == x;
    SchemeEnd(m1.(text := Some(x)));
  }

  // ----- the whole string ----------------------------------------------------------

  lemma PlainGrows(c: char)
    ensures Plain(RegName, c) ==> Plain(UserText, c)
  {
  }

  lemma AuthorityFirst(p: Place, c: char)
    requires p == Auth || (p == AtHost && c != '@')
    requires c == '/' || c == ':' || c == '?' || c == '#' || c == '%' || c == '@' || Plain(UserText, c)
    ensures Table(p, c).to != Error && Table(p, c).to != Outside
  {
  }

  /** The character an authority can start with, after "//" or after '@'. */
  lemma RestStarts(p: Parts, at: Place)
    requires Grammatical(p) && (at == Auth || at == AtHost) && RestOf(p) != ""
    ensures Table(at, RestOf(p)[0]).to != Error && Table(at, RestOf(p)[0]).to != Outside
  {
    var c := RestOf(p)[0];
    if p.host != "" {
      assert c == p.host[0];
      TextStarts(RegName, p.host);
      PlainGrows(c);
      assert c != '@';
      AuthorityFirst(at, c);
    } else {
      TailShape(p.query, p.fragment);
      assert c == ':' || c == '/' || c == '?' || c == '#';
      AuthorityFirst(at, c);
    }
  }

  lemma RestEmpty(m: Machine, p: Parts)
    requires (m.at == Auth || m.at == AtHost) && !m.bad && RestOf(p) == "" && m.uri.query == m.uri.fragment == ""
    ensures Finish(m) == PortAnswer(m.uri, p)
  {
    assert AtEnd(m.at) == Some(Edge(Mark, SaveHost, SavePath, m.at));
    hide AtEnd;
    assert p.host == "" && p.port.None? && p.path == "" && p.query.None? && p.fragment.None?;
  }

  /** From "//" without user information, or from '@'. */
  lemma RestPart(m: Machine, p: Parts)
    requires (m.at == Auth || m.at == AtHost) && !m.bad && m.uri.query == m.uri.fragment == "" && Grammatical(p)
    ensures Finish(Run(m, RestOf(p))) == PortAnswer(m.uri, p)
  {
    assert Run(m, "") == m;
    hide Finish, Run, Grammatical, PortAnswer, Table;
    if RestOf(p) == "" {
      RestEmpty(m, p);
    } else {
      RestStarts(p, m.at);
      hide RestOf;
      var q := if m.at == Auth then Name else Host;
      Enter(m, q, RestOf(p));
      HostPart(m.(at := q, text := Some("")), p);
    }
  }

  /** User information, '@' and the rest. */
  lemma UserRest(m: Machine, user: string, p: Parts)
    requires m.at == Auth && !m.bad && m.uri.query == m.uri.fragment == "" && Grammatical(p) && Text(UserText, user)
    ensures Finish(Run(m, (user + "@") + RestOf(p))) == PortAnswer(m.uri.(userinfo := KeptUser(user)), p)
  {
    var n := m.(at := Name, text := Some(""));
    UserEnter(m, user, RestOf(p));
    hide Finish, Run, Grammatical, RestOf, Text, KeptUser;
    RunSplit(n, user + "@", RestOf(p));
    UserPart(n, user);
    var h := Run(n, user + "@");
    RestPart(h, p);
  }

  lemma UserEnter(m: Machine, user: string, rest: string)
    requires m.at == Auth && Text(UserText, user)
    ensures Run(m, (user + "@") + rest) == Run(m.(at := Name, text := Some("")), (user + "@") + rest)
  {
    var x := (user + "@") + rest;
    assert x[0] == if user == "" then '@' else user[0];
    if user != "" { TextStarts(UserText, user); }
    AuthorityFirst(Auth, x[0]);
    hide Table, Text;
    Enter(m, Name, x);
  }

  /** What the parser makes of parts: user information loses what stands before its
      first ':' where a digit follows that. */
  function Meaning(p: Parts): Uri
    requires PortParses(p.port)
  {
    Uri(p.scheme, if p.user.None? then "" else KeptUser(p.user.value), p.host,
        if p.port.None? then 0 else Value(p.port.value), p.path, Or(p.query), Or(p.fragment))
  }

  /** Every string of the grammar is accepted if and only if its port is absent or a
      number in range, component by component; with an empty port or one out of range
      the outcome is undefined. */
  lemma ParseExact(p: Parts)
    requires Grammatical(p)
    ensures Parse(Spelled(p)) == if PortParses(p.port) then Accepted(Meaning(p)) else Undefined
  {
    var m := Machine(Auth, None, NoUri.(scheme := p.scheme), false);
    var rest := (if p.user.Some? then p.user.value + "@" else "") + RestOf(p);
    SchemePart(p.scheme);
    hide Finish, Run, RestOf, Text;
    RunSplit(Fresh, p.scheme + "://", rest);
    if p.user.None? {
      assert rest == RestOf(p);
      RestPart(m, p);
    } else {
      UserRest(m, p.user.value, p);
    }
  }

  // ----- print, then parse -----------------------------------------------------------

  /** What a parse keeps of a printed port. */
  function KeptPort(u: Uri): int { if IsDefaultPort(u) then 0 else u.port }

  function Given(x: string): Option<string> { if x == "" then None else Some(x) }

  /** The parts the printer writes. */
  function PrintedParts(u: Uri): Parts
    requires u.port >= 0
  {
    Parts(u.scheme, Given(u.userinfo), u.host, if IsDefaultPort(u) then None else Some(Decimal(u.port)),
          GetPath(u), Given(u.query), Given(u.fragment))
  }

  lemma PrintShape(u: Uri)
    requires u.port >= 0
    ensures ToString(u) == Spelled(PrintedParts(u))
  {
    var p := PrintedParts(u);
    var front, user := u.scheme + "://", if u.userinfo == "" then "" else u.userinfo + "@";
    assert Tail(u.query, u.fragment) == TailOf(p.query, p.fragment);
    assert PortPart(u) == Prefixed(':', p.port);
    hide Tail, TailOf, Prefixed, GetPath, Decimal, IsDefaultPort, PortPart;
    UserShape(front, u.userinfo);
    Reassociate(front, user, u.host, PortPart(u), GetPath(u), Tail(u.query, u.fragment));
  }

  lemma UserShape(front: string, x: string)
    ensures front + x + (if x == "" then "" else "@") == front + (if x == "" then "" else x + "@")
  {
    if x == "" { assert front + x + "" == front + ""; }
  }

  lemma Reassociate(a: string, b: string, c: string, d: string, e: string, f: string)
    ensures a + b + c + d + e + f == a + (b + (c + (d + (e + f))))
  {
    assert (d + e) + f == d + (e + f);
    assert a + b + c + d + e + f == a + b + c + (d + (e + f));
  }

  lemma PrintedIsGrammatical(u: Uri)
    requires WellFormed(u)
    ensures Grammatical(PrintedParts(u)) && PortParses(PrintedParts(u).port)
    ensures Meaning(PrintedParts(u))
         == Uri(u.scheme, KeptUser(u.userinfo), u.host, KeptPort(u), GetPath(u), u.query, u.fragment)
  {
    DecimalValue(u.port);
    assert Text(PathText, "/") by { assert "/"[1..] == ""; }
    assert KeptUser("") == "";
    hide Text, Decimal, Value, Digits, SchemeText;
  }

  /** The ports that go without saying. */
  predicate Elided(u: Uri)
  {
    || u.port == 0
    || (u.port == 80 && (u.scheme == "http" || u.scheme == "ws"))
    || (u.port == 443 && (u.scheme == "https" || u.scheme == "wss"))
  }

  /** getPort and getPath: the default of the scheme for port 0, a slash for no path. */
  lemma Defaults(u: Uri)
    ensures IsDefaultPort(u) <==> Elided(u)
    ensures u.port != 0 ==> GetPort(u) == u.port
    ensures u.port == 0 && (u.scheme == "http" || u.scheme == "ws") ==> GetPort(u) == 80
    ensures u.port == 0 && (u.scheme == "https" || u.scheme == "wss") ==> GetPort(u) == 443
    ensures u.port == 0 && u.scheme !in {"http", "ws", "https", "wss"} ==> GetPort(u) == 0
    ensures GetPath(u) == if u.path == "" then "/" else u.path
  {
    assert "http" != "https" && "http" != "wss" && "ws" != "https" && "ws" != "wss";
  }

  /** The print, character by character: the port only if it is not elided, a slash for
      an empty path, separators only before parts that are there. */
  lemma PrintedText(u: Uri)
    requires u.port >= 0
    ensures ToString(u) ==
      u.scheme + "://"
      + (if u.userinfo == "" then "" else u.userinfo + "@")
      + u.host
      + (if Elided(u) then "" else ":" + Decimal(u.port))
      + (if u.path == "" then "/" else u.path)
      + ((if u.query == "" then "" else "?" + u.query) + (if u.fragment == "" then "" else "#" + u.fragment))
    ensures u.path == "" ==> ToString(u) == ToString(u.(path := "/"))
  {
    Defaults(u);
    UserShape(u.scheme + "://", u.userinfo);
    hide Decimal;
  }

  /** What a parse keeps of user information: all of it without a ':' or if no digit
      follows the first one, else what follows that ':'. */
  lemma KeptUserMeans(x: string, i: nat)
    requires i <= |x| && (forall j :: 0 <= j < i ==> x[j] != ':') && (i < |x| ==> x[i] == ':')
    ensures KeptUser(x) == if i + 1 < |x| && Digit(x[i + 1]) then x[i + 1..] else x
  {
    var k := FirstColon(x);
    assert k == i;
  }

  /** For every well-formed URI, parsing its print succeeds and returns it, with the
      port 0 if it was elided, the path "/" if it was empty, and the user information
      cut after its first ':' where a digit follows that. */
  lemma PrintThenParse(u: Uri)
    requires WellFormed(u)
    ensures Parse(ToString(u))
         == Accepted(Uri(u.scheme, KeptUser(u.userinfo), u.host, if Elided(u) then 0 else u.port,
                         if u.path == "" then "/" else u.path, u.query, u.fragment))
  {
    Defaults(u);
    PrintShape(u);
    PrintedIsGrammatical(u);
    hide Parse, ToString, Spelled, Grammatical, Meaning;
    ParseExact(PrintedParts(u));
  }

  /** The parse agrees with the original on scheme, host, path, port, query and
      fragment, and on the user information if and only if its first ':' is not
      directly followed by a digit. Its path always starts with a slash. */
  lemma RoundTrip(u: Uri)
    requires WellFormed(u)
    ensures Parse(ToString(u)).Accepted?
    ensures
      var v := Parse(ToString(u)).uri;
      && v.scheme == u.scheme && v.host == u.host && GetPath(v) == GetPath(u) && GetPort(v) == GetPort(u)
      && v.path == (if u.path == "" then "/" else u.path) && v.path != "" && v.path[0] == '/'
      && v.query == u.query && v.fragment == u.fragment
      && (v.userinfo == u.userinfo <==> !ColonDigit(u.userinfo))
  {
    hide ToString, Parse;
    PrintThenParse(u);
    hide Text, SchemeText;
    if ColonDigit(u.userinfo) {
      assert |KeptUser(u.userinfo)| < |u.userinfo|;
    }
  }
}
