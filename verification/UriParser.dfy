/**
 Uri::Create as it runs: one position in the input, one mark, and the components
 assigned as the actions fire. It is proved to return what the automaton on captured
 text returns.
 */
module UriParser {
  import opened Options
  import opened Uri
  import opened UriRoundTrip
  import opened UriGrammar

  /** What lies between the mark and position `p`. */
  function Since(s: string, mark: Option<nat>, p: nat): Option<string>
    requires p <= |s| && (mark.Some? ==> mark.value <= p)
  {
    if mark.None? then None else Some(s[mark.value..p])
  }

  /** atoi from position `from`: it reads digits to the first character that is none,
      whatever the caller thinks the port is. */
  method Atoi(s: string, from: nat) returns (n: nat, end: nat)
    requires from <= |s|
    ensures from <= end <= |s| && Digits(s[from..end]) && (end < |s| ==> !Digit(s[end]))
    ensures n == Value(s[from..end])
  {
    n, end := 0, from;
    while end < |s| && Digit(s[end])
      invariant from <= end <= |s| && Digits(s[from..end]) && n == Value(s[from..end])
    {
      var next := s[from..end + 1];
      assert next == s[from..end] + [s[end]];
      assert next[..|next| - 1] == s[from..end];
      n := 10 * n + (s[end] as int - 48);
      end := end + 1;
    }
  }

  /** A port is saved where the digits since the mark end. */
  predicate PortReady(s: string, mark: Option<nat>, p: nat)
    requires p <= |s| && (mark.Some? ==> mark.value <= p)
  {
    mark.Some? && (mark.value < p ==> Digits(s[mark.value..p]) && (p < |s| ==> !Digit(s[p])))
  }

  /** One action. */
  method Act(s: string, p: nat, a: Action, mark: Option<nat>, uri: Uri, bad: bool)
    returns (mark': Option<nat>, uri': Uri, bad': bool)
    requires p <= |s| && (mark.Some? ==> mark.value <= p)
    requires a == SavePort ==> PortReady(s, mark, p)
    ensures mark'.Some? ==> mark'.value <= p
    ensures forall at :: Machine(at, Since(s, mark', p), uri', bad')
                      == Apply(Machine(at, Since(s, mark, p), uri, bad), a)
  {
    mark', uri', bad' := mark, uri, bad;
    assert s[p..p] == "";
    match a {
      case Skip =>
      case Mark => mark' := Some(p);
      case SaveHost =>
        if mark.Some? {
          uri' := uri.(host := s[mark.value..p]);
        }
      case SaveUserinfo =>
        if mark.Some? {
          uri' := uri.(userinfo := s[mark.value..p]);
        }
        mark' := None;
      case SavePort =>
        ghost var text := s[mark.value..p];
        assert Digits(text);
        if mark.value != p {
          var n, end := Atoi(s, mark.value);
          DigitsEnd(s, mark.value, p, end);
          assert n == Value(text) && text != "";
          if n > MaxPort {
            bad' := true;
          } else {
            uri', mark' := uri.(port := n), None;
          }
        } else {
          mark' := None;
        }
      case SaveScheme =>
        if mark.None? {
          bad' := true;
        } else {
          uri', mark' := uri.(scheme := s[mark.value..p]), None;
        }
      case SavePath =>
        if mark.None? {
          bad' := true;
        } else {
          uri', mark' := uri.(path := s[mark.value..p]), None;
        }
      case SaveQuery =>
        if mark.None? {
          bad' := true;
        } else {
          uri', mark' := uri.(query := s[mark.value..p]), None;
        }
      case SaveFragment =>
        if mark.None? {
          bad' := true;
        } else {
          uri', mark' := uri.(fragment := s[mark.value..p]), None;
        }
    }
  }

  lemma DigitsEnd(s: string, from: nat, p: nat, end: nat)
    requires from < p <= |s| && from <= end <= |s|
    requires Digits(s[from..p]) && (p < |s| ==> !Digit(s[p]))
    requires Digits(s[from..end]) && (end < |s| ==> !Digit(s[end]))
    ensures end == p
  {
  }

  /** Where the table saves ports. */
  predicate PortEdge(e: Edge, at: Place)
  {
    && (e.a == SavePort ==> at == NamePort || at == HostPort)
    && (e.b == SavePort ==> e.a == Mark) && e.c != SavePort
  }

  lemma PortEdges(at: Place, c: char)
    ensures PortEdge(Table(at, c), at) && (Table(at, c).a == SavePort ==> !Digit(c))
    ensures AtEnd(at).Some? ==> PortEdge(AtEnd(at).value, at)
  {
    hide Plain;
  }

  /** The three actions of an edge. */
  method ActAll(s: string, p: nat, e: Edge, at: Place, mark: Option<nat>, uri: Uri, bad: bool)
    returns (mark': Option<nat>, uri': Uri, bad': bool)
    requires p <= |s| && (mark.Some? ==> mark.value <= p)
    requires PortEdge(e, at) && (e.a == SavePort ==> PortReady(s, mark, p))
    ensures mark'.Some? ==> mark'.value <= p
    ensures Machine(e.to, Since(s, mark', p), uri', bad')
         == Follow(Machine(at, Since(s, mark, p), uri, bad), e)
  {
    mark', uri', bad' := Act(s, p, e.a, mark, uri, bad);
    ghost var m := Apply(Machine(at, Since(s, mark, p), uri, bad), e.a);
    assert e.a == Mark ==> Since(s, mark', p) == Some("");
    mark', uri', bad' := Act(s, p, e.b, mark', uri', bad');
    mark', uri', bad' := Act(s, p, e.c, mark', uri', bad');
  }

  lemma {:induction false} RunSnoc(m: Machine, x: string, c: char)
    ensures Run(m, x + [c]) == Step(Run(m, x), c)
  {
    hide Step;
    RunSplit(m, x, [c]);
    RunOne(Run(m, x), c);
  }

  lemma ReadyHere(s: string, p: nat, m: Machine, mark: Option<nat>)
    requires p <= |s| && (mark.Some? ==> mark.value <= p) && m.text == Since(s, mark, p)
    requires Good(m) && !m.bad && (m.at == NamePort || m.at == HostPort) && (p < |s| ==> !Digit(s[p]))
    ensures PortReady(s, mark, p)
  {
    hide Components;
  }

  /** One transition on the character at `p`. */
  method StepAt(s: string, p: nat, cs: Place, mark: Option<nat>, uri: Uri, bad: bool)
    returns (cs': Place, mark': Option<nat>, uri': Uri, bad': bool)
    requires p < |s| && (mark.Some? ==> mark.value <= p) && !bad
    requires Good(Machine(cs, Since(s, mark, p), uri, bad))
    ensures mark'.Some? ==> mark'.value <= p
    ensures Machine(cs', Since(s, mark', p + 1), uri', bad') == Step(Machine(cs, Since(s, mark, p), uri, bad), s[p])
  {
    hide Good, Table, Apply;
    var e := Table(cs, s[p]);
    PortEdges(cs, s[p]);
    if e.a == SavePort { ReadyHere(s, p, Machine(cs, Since(s, mark, p), uri, bad), mark); }
    mark', uri', bad' := ActAll(s, p, e, cs, mark, uri, bad);
    cs' := e.to;
    assert mark'.Some? ==> s[mark'.value..p + 1] == s[mark'.value..p] + [s[p]];
  }

  /** The actions at the end of the input. */
  method AtEof(s: string, cs: Place, mark: Option<nat>, uri: Uri) returns (r: Parsed)
    requires (mark.Some? ==> mark.value <= |s|) && Good(Machine(cs, Since(s, mark, |s|), uri, false))
    ensures r == Finish(Machine(cs, Since(s, mark, |s|), uri, false))
  {
    hide Good;
    if cs == Outside {
      return Unmodelled;
    }
    var last := AtEnd(cs);
    PortEdges(cs, ' ');
    hide Table, AtEnd, Follow;
    if last.None? {
      return Rejected;
    }
    if last.value.a == SavePort { ReadyHere(s, |s|, Machine(cs, Since(s, mark, |s|), uri, false), mark); }
    var _, uri', bad := ActAll(s, |s|, last.value, cs, mark, uri, false);
    r := if bad then Undefined else Accepted(uri');
  }

  /** Once an action has gone wrong or the error place is reached, nothing changes. */
  lemma StopEarly(s: string, p: nat)
    requires p <= |s|
    ensures p == |s| ==> Parse(s) == Finish(Run(Fresh, s[..p]))
    ensures Run(Fresh, s[..p]).bad ==> Parse(s) == Undefined
    ensures Run(Fresh, s[..p]).at == Error && !Run(Fresh, s[..p]).bad ==> Parse(s) == Rejected
  {
    hide Run;
    var m := Run(Fresh, s[..p]);
    assert s[..p] + s[p..] == s;
    assert p == |s| ==> s[..p] == s;
    RunSplit(Fresh, s[..p], s[p..]);
    if m.bad {
      BadStays(m, s[p..]);
    } else if m.at == Error {
      ErrorStays(m, s[p..]);
    }
  }

  lemma Extend(s: string, p: nat)
    requires p < |s|
    ensures Run(Fresh, s[..p + 1]) == Step(Run(Fresh, s[..p]), s[p])
    ensures Good(Run(Fresh, s[..p])) ==> Good(Run(Fresh, s[..p + 1]))
  {
    hide Run, Step, Good;
    assert s[..p] + [s[p]] == s[..p + 1];
    RunSnoc(Fresh, s[..p], s[p]);
    if Good(Run(Fresh, s[..p])) { StepGood(Run(Fresh, s[..p]), s[p]); }
  }

  /** Create: `p`, `cs`, `mark` and the components are updated in place; null is
      returned from the error place and from places the input may not end in. */
  method Create(s: string) returns (r: Parsed)
    ensures r == Parse(s)
  {
    var uri, cs, bad := NoUri, Start, false;
    var mark: Option<nat> := None;
    var p := 0;
    FreshGood();
    assert s[..p] == "";
    hide Run, Step, Good, Finish, Table;
    while p < |s| && cs != Error && !bad
      invariant p <= |s| && (mark.Some? ==> mark.value <= p)
      invariant Machine(cs, Since(s, mark, p), uri, bad) == Run(Fresh, s[..p])
      invariant Good(Run(Fresh, s[..p]))
    {
      Extend(s, p);
      cs, mark, uri, bad := StepAt(s, p, cs, mark, uri, bad);
      p := p + 1;
    }
    StopEarly(s, p);
    if bad {
      return Undefined;
    }
    if cs == Error {
      return Rejected;
    }
    r := AtEof(s, cs, mark, uri);
  }
}
