/** The database's own lookup: LIKE patterns, longest first, and what that means for every answer given. */
module PolicyQuery {
  import opened Prelude
  import opened PolicyCache
  import PolicyStaleness

  /**
    :route LIKE replace(pattern, '*', '%'): '*' and '%' stand for any text, '_' for any one
    character, and a backslash takes the next character literally.
   */
  predicate Like(route: Route, pattern: string)
    decreases |pattern|, |route|
  {
    if pattern == [] then route == []
    else if pattern[0] == '*' || pattern[0] == '%' then
      Like(route, pattern[1..]) || (route != [] && Like(route[1..], pattern))
    else if pattern[0] == '\\' then
      |pattern| > 1 && route != [] && route[0] == (if pattern[1] == '*' then '%' else pattern[1])
      && Like(route[1..], pattern[2..])
    else route != [] && (pattern[0] == '_' || pattern[0] == route[0]) && Like(route[1..], pattern[1..])
  }

  /** No character with a meaning of its own. */
  predicate Plain(text: string) {
    forall c :: c in text ==> c !in {'*', '%', '_', '\\'}
  }

  lemma {:induction false} StarMatchesAll(route: Route)
    ensures Like(route, "*")
  {
    assert "*"[1..] == [];
    if route != [] { StarMatchesAll(route[1..]); }
  }

  /** A plain text followed by one star matches exactly the routes that start with the text. */
  lemma {:induction false} PrefixPattern(route: Route, prefix: string)
    requires Plain(prefix)
    ensures Like(route, prefix + "*") <==> prefix <= route
  {
    var pattern := prefix + "*";
    if prefix == [] {
      assert pattern == "*";
      StarMatchesAll(route);
    } else {
      assert prefix[0] in prefix && pattern[0] == prefix[0] && pattern[1..] == prefix[1..] + "*";
      assert forall c :: c in prefix[1..] ==> c in prefix;
      if route != [] { PrefixPattern(route[1..], prefix[1..]); }
    }
  }

  /** A pattern without wildcards matches itself only. */
  lemma {:induction false} PlainPattern(route: Route, pattern: string)
    requires Plain(pattern)
    ensures Like(route, pattern) <==> route == pattern
  {
    if pattern != [] {
      assert pattern[0] in pattern;
      assert forall c :: c in pattern[1..] ==> c in pattern;
      if route != [] {
        PlainPattern(route[1..], pattern[1..]);
        assert route == [route[0]] + route[1..] && pattern == [pattern[0]] + pattern[1..];
      }
    }
  }

  // ----- what matching means, without the matcher

  /** The pieces of a pattern. */
  datatype Token = AnyText | AnyOne | Literal(c: char)

  /** The pattern's pieces; None for a backslash with nothing to take. */
  function Tokens(pattern: string): Option<seq<Token>> {
    if pattern == [] then Some([])
    else if pattern[0] == '\\' then
      if |pattern| == 1 then None
      else Prepend(Literal(if pattern[1] == '*' then '%' else pattern[1]), Tokens(pattern[2..]))
    else
      Prepend(if pattern[0] in {'*', '%'} then AnyText else if pattern[0] == '_' then AnyOne else Literal(pattern[0]),
              Tokens(pattern[1..]))
  }

  function Prepend(token: Token, rest: Option<seq<Token>>): Option<seq<Token>> {
    if rest.None? then None else Some([token] + rest.value)
  }

  predicate Fits(token: Token, text: string) {
    match token
    case AnyText => true
    case AnyOne => |text| == 1
    case Literal(c) => text == [c]
  }

  /** The route is cut into one part per piece, each of which fits it. */
  ghost predicate Cut(route: Route, tokens: seq<Token>, parts: seq<string>) {
    |parts| == |tokens| && Flat<char>(parts) == route && forall i :: 0 <= i < |tokens| ==> Fits(tokens[i], parts[i])
  }

  ghost predicate CanCut(route: Route, tokens: Option<seq<Token>>) {
    tokens.Some? && exists parts :: Cut(route, tokens.value, parts)
  }

  lemma {:induction false} CutCons(route: Route, token: Token, tokens: seq<Token>, part: string, parts: seq<string>)
    requires Cut(route, tokens, parts) && Fits(token, part)
    ensures Cut(part + route, [token] + tokens, [part] + parts)
  {
    FlatCons<char>(part, parts);
    var all, toks := [part] + parts, [token] + tokens;
    forall i | 0 <= i < |toks| ensures Fits(toks[i], all[i]) {
      if i > 0 { assert toks[i] == tokens[i - 1] && all[i] == parts[i - 1]; }
    }
  }

  lemma {:induction false} CutFirst(route: Route, token: Token, tokens: seq<Token>, parts: seq<string>)
    requires Cut(route, [token] + tokens, parts)
    ensures Fits(token, parts[0]) && route == parts[0] + Flat<char>(parts[1..])
    ensures Cut(Flat<char>(parts[1..]), tokens, parts[1..])
  {
    var toks := [token] + tokens;
    assert parts == [parts[0]] + parts[1..];
    FlatCons<char>(parts[0], parts[1..]);
    assert toks[0] == token;
    forall i | 0 <= i < |tokens| ensures Fits(tokens[i], parts[1..][i]) { assert toks[i + 1] == tokens[i]; }
  }

  /** A piece that stands for one character takes the first one. */
  lemma {:induction false} CutOne(route: Route, token: Token, rest: Option<seq<Token>>)
    requires !token.AnyText?
    ensures CanCut(route, Prepend(token, rest)) <==> route != [] && Fits(token, route[..1]) && CanCut(route[1..], rest)
  {
    if CanCut(route, Prepend(token, rest)) {
      var parts :| Cut(route, Prepend(token, rest).value, parts);
      CutFirst(route, token, rest.value, parts);
      assert route[..1] == parts[0] && route[1..] == Flat<char>(parts[1..]);
    }
    if route != [] && Fits(token, route[..1]) && CanCut(route[1..], rest) {
      var parts :| Cut(route[1..], rest.value, parts);
      CutCons(route[1..], token, rest.value, route[..1], parts);
      assert route == route[..1] + route[1..];
    }
  }

  /** A star takes nothing, or one character and goes on. */
  lemma {:induction false} CutStar(route: Route, rest: Option<seq<Token>>)
    ensures CanCut(route, Prepend(AnyText, rest)) <==>
      CanCut(route, rest) || (route != [] && CanCut(route[1..], Prepend(AnyText, rest)))
  {
    hide Cut;
    if rest.Some? {
      var tokens := rest.value;
      if parts :| Cut(route, [AnyText] + tokens, parts) { StarStops(route, tokens, parts); }
      if parts :| Cut(route, tokens, parts) { StarTakesNothing(route, tokens, parts); }
      if route != [] {
        if parts :| Cut(route[1..], [AnyText] + tokens, parts) { StarTakesMore(route, tokens, parts); }
      }
    }
  }

  lemma {:induction false} StarStops(route: Route, tokens: seq<Token>, parts: seq<string>)
    requires Cut(route, [AnyText] + tokens, parts)
    ensures CanCut(route, Some(tokens)) || (route != [] && CanCut(route[1..], Some([AnyText] + tokens)))
  {
    CutFirst(route, AnyText, tokens, parts);
    hide Cut, Flat;
    var first, rest := parts[0], Flat<char>(parts[1..]);
    if first == [] {
      assert route == rest;
    } else {
      CutCons(rest, AnyText, tokens, first[1..], parts[1..]);
      assert route[1..] == first[1..] + rest;
    }
  }

  lemma {:induction false} StarTakesNothing(route: Route, tokens: seq<Token>, parts: seq<string>)
    requires Cut(route, tokens, parts)
    ensures CanCut(route, Some([AnyText] + tokens))
  {
    hide Cut;
    CutCons(route, AnyText, tokens, [], parts);
    assert [] + route == route;
  }

  lemma {:induction false} StarTakesMore(route: Route, tokens: seq<Token>, parts: seq<string>)
    requires route != [] && Cut(route[1..], [AnyText] + tokens, parts)
    ensures CanCut(route, Some([AnyText] + tokens))
  {
    CutFirst(route[1..], AnyText, tokens, parts);
    hide Cut, Flat;
    var first, rest := parts[0], Flat<char>(parts[1..]);
    CutCons(rest, AnyText, tokens, route[..1] + first, parts[1..]);
    assert route == (route[..1] + first) + rest;
  }

  lemma {:induction false} CutNothing(route: Route)
    ensures CanCut(route, Some([])) <==> route == []
  {
    if route == [] { assert Cut(route, [], []); }
  }

  /** A route matches exactly when it can be cut into parts that fit the pattern's pieces one by one. */
  lemma {:induction false} LikeIff(route: Route, pattern: string)
    ensures Like(route, pattern) <==> CanCut(route, Tokens(pattern))
    decreases |pattern|, |route|
  {
    hide CanCut;
    if pattern == [] {
      CutNothing(route);
    } else if pattern[0] == '*' || pattern[0] == '%' {
      LikeIff(route, pattern[1..]);
      if route != [] { LikeIff(route[1..], pattern); }
      CutStar(route, Tokens(pattern[1..]));
    } else if pattern[0] == '\\' {
      if |pattern| > 1 {
        var c := if pattern[1] == '*' then '%' else pattern[1];
        if route != [] { LikeIff(route[1..], pattern[2..]); }
        CutOne(route, Literal(c), Tokens(pattern[2..]));
        assert route != [] ==> (route[..1] == [c] <==> route[0] == c);
      } else {
        CannotCut(route);
      }
    } else {
      var token := if pattern[0] == '_' then AnyOne else Literal(pattern[0]);
      if route != [] { LikeIff(route[1..], pattern[1..]); }
      CutOne(route, token, Tokens(pattern[1..]));
      assert route != [] ==> (route[..1] == [pattern[0]] <==> route[0] == pattern[0]);
    }
  }

  lemma {:induction false} CannotCut(route: Route)
    ensures !CanCut(route, None)
  {
  }

  // ----- the query

  /** The row matches, and no longer pattern does. */
  ghost predicate Longest(rows: Rows, route: Route, id: PolicyId) {
    && id in rows && Like(route, rows[id].pattern)
    && (forall other :: other in rows && Like(route, rows[other].pattern) ==>
          |rows[other].pattern| <= |rows[id].pattern|)
  }

  /** SELECT ... WHERE :route LIKE ... ORDER BY length(route_pattern) DESC LIMIT 1. */
  ghost predicate Selects(rows: Rows, route: Route, answer: Option<Answer>) {
    match answer
    case None => forall id :: id in rows ==> !Like(route, rows[id].pattern)
    case Some(a) =>
      exists id :: Longest(rows, route, id) && a == Answer(rows[id].rps, rows[id].windowS, rows[id].version)
  }

  /** The database runs that query, whichever it picks among equally long patterns. */
  ghost predicate RunsQuery(u: Setup) {
    forall rows: Rows, route: Route :: Selects(rows, route, u.pick(rows, route))
  }

  lemma {:induction false} LongestExists(rows: Rows, route: Route, id: PolicyId)
    requires id in rows && Like(route, rows[id].pattern)
    ensures exists best :: Longest(rows, route, best)
    decreases |rows|
  {
    hide Like;
    if other :| other in rows && Like(route, rows[other].pattern) && |rows[other].pattern| > |rows[id].pattern| {
      var rest := rows - {id};
      assert other in rest && rest[other] == rows[other];
      assert rows.Keys == rest.Keys + {id};
      LongestExists(rest, route, other);
      var best :| Longest(rest, route, best);
      assert |rest[other].pattern| <= |rest[best].pattern|;
      assert forall o :: o in rows ==> o == id || (o in rest && rest[o] == rows[o]);
      assert Longest(rows, route, best);
    } else {
      assert Longest(rows, route, id);
    }
  }

  /** Some answer the query may give. */
  ghost function SomeAnswer(rows: Rows, route: Route): (a: Option<Answer>)
    ensures Selects(rows, route, a)
  {
    if exists id :: id in rows && Like(route, rows[id].pattern) then
      var id :| id in rows && Like(route, rows[id].pattern);
      LongestExists(rows, route, id);
      var best :| Longest(rows, route, best);
      Some(Answer(rows[best].rps, rows[best].windowS, rows[best].version))
    else None
  }

  /** There is such a database for any table and gap. */
  lemma {:induction false} QueryExists(rows: Rows, gap: real) returns (u: Setup)
    ensures RunsQuery(u) && u.initial == rows && u.gap == gap
  {
    u := Setup((rows: Rows, route: Route) => SomeAnswer(rows, route), rows, gap);
  }

  // ----- what every lookup answers

  /** The tenant's policy with the longest pattern matching the route, in a table current at `t`. */
  ghost predicate SelectedAt(versions: History, g: Given, epoch: nat, t: real) {
    && PolicyStaleness.CurrentAt(versions, epoch, t)
    && var rows := versions[epoch].rows;
       Selects(map id | id in rows && rows[id].tenant == g.key.tenant :: rows[id], g.key.route, g.answer)
  }

  /**
    Main result: every answer of every run is the tenant's own policy with the longest pattern
    that matches the requested route, or none if none matches, in a table that was current
    within the last 10 s plus the gap.
   */
  lemma {:induction false} AnswersAreSelected(u: Setup, labels: seq<Label>, i: nat)
    requires RunsQuery(u) && u.gap >= 0.0 && i < |Run(u, Init(u), labels).answers|
    ensures
      var s := Run(u, Init(u), labels);
      var g := s.answers[i];
      exists epoch: nat, t: real :: g.at - (10.0 + u.gap) <= t <= g.at && SelectedAt(s.versions, g, epoch, t)
  {
    hide Run, Selects;
    PolicyStaleness.StalenessBounded(u, labels, i);
    var s := Run(u, Init(u), labels);
    var g := s.answers[i];
    var epoch: nat, t: real :| g.at - (10.0 + u.gap) <= t <= g.at && PolicyStaleness.TrueAt(u, s.versions, g, epoch, t);
    var rows := s.versions[epoch].rows;
    var own := map id | id in rows && rows[id].tenant == g.key.tenant :: rows[id];
    assert Selects(own, g.key.route, u.pick(own, g.key.route));
    assert SelectedAt(s.versions, g, epoch, t);
  }

  /** Of two prefix patterns that both match, the longer one decides. */
  lemma {:induction false} SpecificWins(
    u: Setup, general: Row, specific: Row, prefix: string, more: string, route: Route)
    requires RunsQuery(u) && Plain(prefix + more) && more != [] && prefix + more <= route
    requires general.pattern == prefix + "*" && specific.pattern == prefix + more + "*"
    ensures u.pick(map["general" := general, "specific" := specific], route)
         == Some(Answer(specific.rps, specific.windowS, specific.version))
  {
    hide Like;
    var rows := map["general" := general, "specific" := specific];
    PrefixPattern(route, prefix + more);
    var picked := u.pick(rows, route);
    assert Selects(rows, route, picked);
    assert Like(route, rows["specific"].pattern);
    assert |rows["general"].pattern| < |rows["specific"].pattern|;
  }
}
