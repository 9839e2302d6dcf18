/** The query language: tokens, terms, or-groups (crates/core/src/query.rs). */
module Queries {
  import opened Wrappers
  import opened Strings
  import opened Tags
  import opened Patterns
  import opened SystemPredicates

  datatype MatchMode = Expanded | Exact

  datatype Member = Member(tag: Tag, mode: MatchMode)

  /** Predicates are and-ed; an `Or` matches any of its members. */
  datatype Predicate =
    | Has(tag: Tag, mode: MatchMode)
    | Not(tag: Tag, mode: MatchMode)
    | Or(members: seq<Member>)
    | Wild(pattern: TagPattern, mode: MatchMode)
    | NotWild(pattern: TagPattern, mode: MatchMode)
    | System(test: SystemPredicate)
    | NotSystem(test: SystemPredicate)

  const NO_PREDICATES := "no search predicates"
  const DANGLING_OR := "dangling 'or' in query"
  const EXACT_SYSTEM := "system predicates cannot be marked exact"
  const LATE_DASH := "'-' must lead a term; '=-tag' is not valid"
  const SYSTEM_IN_OR := "system predicates cannot appear in an 'or' group"
  const WILD_IN_OR := "wildcards cannot appear in an 'or' group"

  // ---- Tokens --------------------------------------------------------------

  function Flush(cur: string): seq<string> {
    if cur == "" then [] else [cur]
  }

  /** The tokens of `s` when `cur` has been read of the current one. */
  function TokensFrom(s: string, cur: string, inQuote: bool): seq<string>
    decreases |s|
  {
    if s == "" then Flush(cur)
    else if s[0] == '"' then TokensFrom(s[1..], cur, !inQuote)
    else if IsSpace(s[0]) && !inQuote then Flush(cur) + TokensFrom(s[1..], "", false)
    else TokensFrom(s[1..], cur + [s[0]], inQuote)
  }

  function Tokens(s: string): seq<string> {
    TokensFrom(s, "", false)
  }

  method Tokenize(s: string) returns (tokens: seq<string>)
    ensures tokens == Tokens(s)
  {
    tokens := [];
    var cur, inQuote := "", false;
    for i := 0 to |s|
      invariant tokens + TokensFrom(s[i..], cur, inQuote) == Tokens(s)
    {
      assert s[i..][1..] == s[i + 1..];
      if s[i] == '"' {
        inQuote := !inQuote;
      } else if IsSpace(s[i]) && !inQuote {
        assert tokens + (Flush(cur) + TokensFrom(s[i + 1..], "", false))
               == (tokens + Flush(cur)) + TokensFrom(s[i + 1..], "", false);
        if cur != "" {
          tokens := tokens + [cur];
          cur := "";
        }
      } else {
        cur := cur + [s[i]];
      }
    }
    if cur != "" {
      tokens := tokens + [cur];
    }
  }

  predicate CleanToken(t: string) {
    t != "" && '"' !in t
  }

  predicate CleanTokens(ts: seq<string>) {
    forall i :: 0 <= i < |ts| ==> CleanToken(ts[i])
  }

  /** Tokens are never empty and never hold a quote. */
  lemma {:induction false} TokensAreClean(s: string, cur: string, inQuote: bool)
    requires '"' !in cur
    ensures CleanTokens(TokensFrom(s, cur, inQuote))
    decreases |s|
  {
    if s != "" {
      if s[0] == '"' {
        TokensAreClean(s[1..], cur, !inQuote);
      } else if IsSpace(s[0]) && !inQuote {
        TokensAreClean(s[1..], "", false);
      } else {
        TokensAreClean(s[1..], cur + [s[0]], inQuote);
      }
    }
  }

  /** Whether a quote is open at the end of `s`. */
  function OpenAfter(s: string, inQuote: bool): bool {
    if s == "" then inQuote else OpenAfter(s[1..], if s[0] == '"' then !inQuote else inQuote)
  }

  lemma {:induction false} TokensSplit(a: string, b: string, cur: string, inQuote: bool)
    requires !OpenAfter(a, inQuote)
    ensures TokensFrom(a + " " + b, cur, inQuote) == TokensFrom(a, cur, inQuote) + Tokens(b)
    decreases |a|
  {
    var s := a + " " + b;
    if a == "" {
      assert s[1..] == b;
    } else {
      assert s[0] == a[0] && s[1..] == a[1..] + " " + b;
      if a[0] == '"' {
        TokensSplit(a[1..], b, cur, !inQuote);
      } else if IsSpace(a[0]) && !inQuote {
        TokensSplit(a[1..], b, "", false);
      } else {
        TokensSplit(a[1..], b, cur + [a[0]], inQuote);
      }
    }
  }

  /** Texts with closed quotes, joined by a blank, tokenize one after the other. */
  lemma TokensOfConcat(a: string, b: string)
    requires !OpenAfter(a, false)
    ensures Tokens(a + " " + b) == Tokens(a) + Tokens(b)
  {
    TokensSplit(a, b, "", false);
  }

  function Quote(t: string): string {
    "\"" + t + "\""
  }

  lemma {:induction false} QuotedFrom(t: string, cur: string)
    requires '"' !in t
    ensures TokensFrom(t + "\"", cur, true) == Flush(cur + t)
    ensures !OpenAfter(t + "\"", true)
    decreases |t|
  {
    var s := t + "\"";
    if t == "" {
      assert s[1..] == "" && cur + t == cur;
    } else {
      assert s[0] == t[0] && s[1..] == t[1..] + "\"";
      QuotedFrom(t[1..], cur + [t[0]]);
      assert (cur + [t[0]]) + t[1..] == cur + t;
    }
  }

  lemma QuotedToken(t: string)
    requires CleanToken(t)
    ensures Tokens(Quote(t)) == [t] && !OpenAfter(Quote(t), false)
  {
    QuotedFrom(t, "");
    assert Quote(t)[1..] == t + "\"";
    assert "" + t == t;
  }

  function QuoteAll(ts: seq<string>): (r: seq<string>)
    ensures |r| == |ts| && forall i :: 0 <= i < |ts| ==> r[i] == Quote(ts[i])
  {
    seq(|ts|, i requires 0 <= i < |ts| => Quote(ts[i]))
  }

  /** Quoting each token and joining them with blanks writes them down. */
  lemma {:induction false} TokensOfQuoted(ts: seq<string>)
    requires CleanTokens(ts)
    ensures Tokens(Join(QuoteAll(ts))) == ts
  {
    if ts != [] {
      QuotedToken(ts[0]);
      if |ts| > 1 {
        TokensOfQuoted(ts[1..]);
        assert QuoteAll(ts)[1..] == QuoteAll(ts[1..]);
        TokensOfConcat(Quote(ts[0]), Join(QuoteAll(ts[1..])));
        assert [ts[0]] + ts[1..] == ts;
      }
    }
  }

  // ---- Terms ---------------------------------------------------------------

  predicate IsOr(t: string) {
    Lower(t) == "or"
  }

  predicate IsWild(t: string) {
    '*' in t
  }

  predicate StartsWith(t: string, c: char) {
    t != "" && t[0] == c
  }

  function StripExact(t: string): (string, MatchMode) {
    if StartsWith(t, '=') then (t[1..], Exact) else (t, Expanded)
  }

  function StripSystem(t: string): Option<string> {
    if |t| >= 7 && Lower(t[..7]) == "system:" then Some(t[7..]) else None
  }

  function NegatedTag(body: string, mode: MatchMode): Result<Predicate, Error> {
    match ParseTag(body)
    case Ok(t) => Ok(Not(t, mode))
    case Err(e) => Err(e)
  }

  function AloneWild(body: string, mode: MatchMode, negated: bool): Result<Predicate, Error> {
    match ParsePattern(body)
    case Ok(p) => Ok(if negated then NotWild(p, mode) else Wild(p, mode))
    case Err(e) => Err(e)
  }

  function AloneSystem(body: string, mode: MatchMode, negated: bool): Result<Predicate, Error> {
    if mode == Exact then Err(BadQuery(EXACT_SYSTEM))
    else match ParseSystem(body)
      case Ok(p) => Ok(if negated then NotSystem(p) else System(p))
      case Err(e) => Err(e)
  }

  /** A term after its `-`. */
  function ParseNegated(rest: string): Result<Predicate, Error> {
    var (body, mode) := StripExact(rest);
    match StripSystem(body)
    case Some(test) => AloneSystem(test, mode, true)
    case None => if IsWild(body) then AloneWild(body, mode, true) else NegatedTag(body, mode)
  }

  /** A positive tag, with its mark. */
  function ParsePositive(t: string): Result<Member, Error> {
    var (body, mode) := StripExact(t);
    match ParseTag(body)
    case Ok(tag) => Ok(Member(tag, mode))
    case Err(e) => Err(e)
  }

  /** A term after an `or`. */
  function ParseMember(t: string): Result<Member, Error> {
    var body := StripExact(t).0;
    if IsOr(t) || StartsWith(t, '-') then Err(BadQuery(DANGLING_OR))
    else if StartsWith(body, '-') then Err(BadQuery(LATE_DASH))
    else if StripSystem(body).Some? then Err(BadQuery(SYSTEM_IN_OR))
    else if IsWild(body) then Err(BadQuery(WILD_IN_OR))
    else ParsePositive(t)
  }

  predicate OrFollows(rest: seq<string>) {
    rest != [] && IsOr(rest[0])
  }

  /** The members that follow a first one, each read by `read`, and what is left. */
  function GroupFrom(read: string -> Result<Member, Error>, rest: seq<string>, group: seq<Member>)
    : (r: Result<(seq<Member>, seq<string>), Error>)
    ensures r.Ok? ==> |r.value.1| <= |rest| && |group| <= |r.value.0|
    decreases |rest|
  {
    if !OrFollows(rest) then Ok((group, rest))
    else if |rest| < 2 then Err(BadQuery(DANGLING_OR))
    else match read(rest[1])
      case Err(e) => Err(e)
      case Ok(m) => GroupFrom(read, rest[2..], group + [m])
  }

  function ParseGroup(rest: seq<string>, group: seq<Member>): (r: Result<(seq<Member>, seq<string>), Error>) {
    GroupFrom(ParseMember, rest, group)
  }

  function Grouped(group: seq<Member>): Predicate
    requires group != []
  {
    if |group| == 1 then Has(group[0].tag, group[0].mode) else Or(group)
  }

  /** A positive tag: the only kind of term that can start a group. */
  predicate IsPositiveTag(t: string) {
    var body := StripExact(t).0;
    !IsOr(t) && !StartsWith(t, '-') && !StartsWith(body, '-') && StripSystem(body).None? && !IsWild(body)
  }

  /** Any other term, which must not be followed by `or`. */
  function ParseLone(t: string, orNext: bool): Result<Predicate, Error>
    requires !IsPositiveTag(t)
  {
    var (body, mode) := StripExact(t);
    if IsOr(t) then Err(BadQuery(DANGLING_OR))
    else if StartsWith(t, '-') then
      if orNext then Err(BadQuery(DANGLING_OR)) else ParseNegated(t[1..])
    else if StartsWith(body, '-') then Err(BadQuery(LATE_DASH))
    else match StripSystem(body)
      case Some(test) =>
        if orNext then Err(BadQuery(SYSTEM_IN_OR)) else AloneSystem(test, mode, false)
      case None =>
        if orNext then Err(BadQuery(WILD_IN_OR)) else AloneWild(body, mode, false)
  }

  /** One predicate and the tokens after it. */
  function ParseClause(t: string, rest: seq<string>): (r: Result<(Predicate, seq<string>), Error>)
    ensures r.Ok? ==> |r.value.1| <= |rest|
  {
    if !IsPositiveTag(t) then
      match ParseLone(t, OrFollows(rest))
      case Ok(p) => Ok((p, rest))
      case Err(e) => Err(e)
    else match ParsePositive(t)
      case Err(e) => Err(e)
      case Ok(first) =>
        match ParseGroup(rest, [first])
        case Err(e) => Err(e)
        case Ok((group, left)) => Ok((Grouped(group), left))
  }

  function Prepend(done: seq<Predicate>, r: Result<seq<Predicate>, Error>): Result<seq<Predicate>, Error> {
    match r
    case Ok(ps) => Ok(done + ps)
    case Err(e) => Err(e)
  }

  function ParseFrom(tokens: seq<string>): Result<seq<Predicate>, Error>
    decreases |tokens|
  {
    if tokens == [] then Ok([])
    else match ParseClause(tokens[0], tokens[1..])
      case Err(e) => Err(e)
      case Ok((p, rest)) => Prepend([p], ParseFrom(rest))
  }

  function ParseTokens(tokens: seq<string>): Result<seq<Predicate>, Error> {
    if tokens == [] then Err(BadQuery(NO_PREDICATES)) else ParseFrom(tokens)
  }

  function ParseText(s: string): Result<seq<Predicate>, Error> {
    ParseTokens(Tokens(s))
  }

  // ---- The parser ----------------------------------------------------------

  lemma PrependTwice(a: seq<Predicate>, b: seq<Predicate>, r: Result<seq<Predicate>, Error>)
    ensures Prepend(a + b, r) == Prepend(a, Prepend(b, r))
  {
    if r.Ok? {
      assert (a + b) + r.value == a + (b + r.value);
    }
  }

  // The loop over an or-group, for any way to read a member.

  lemma GroupMore(read: string -> Result<Member, Error>, tokens: seq<string>, j: nat, group: seq<Member>, m: Member)
    requires j + 2 < |tokens| && IsOr(tokens[j + 1]) && read(tokens[j + 2]) == Ok(m)
    ensures GroupFrom(read, tokens[j + 1..], group) == GroupFrom(read, tokens[j + 3..], group + [m])
  {
    var rest := tokens[j + 1..];
    assert rest[0] == tokens[j + 1] && rest[1] == tokens[j + 2] && rest[2..] == tokens[j + 3..];
  }

  lemma GroupFails(read: string -> Result<Member, Error>, tokens: seq<string>, j: nat, group: seq<Member>, e: Error)
    requires j + 1 < |tokens| && IsOr(tokens[j + 1])
    requires if j + 2 < |tokens| then read(tokens[j + 2]) == Err(e) else e == BadQuery(DANGLING_OR)
    ensures GroupFrom(read, tokens[j + 1..], group) == Err(e)
  {
    var rest := tokens[j + 1..];
    assert rest[0] == tokens[j + 1] && (|rest| >= 2 ==> rest[1] == tokens[j + 2]);
  }

  /** The inner loop: the group whose first member is token `i`, and the index of its last token. */
  method ReadGroup(read: string -> Result<Member, Error>, tokens: seq<string>, i: nat, first: Member)
    returns (r: Result<(seq<Member>, nat), Error>)
    requires i < |tokens|
    ensures r.Err? ==> GroupFrom(read, tokens[i + 1..], [first]) == Err(r.error)
    ensures r.Ok? ==>
              && i <= r.value.1 < |tokens| && r.value.0 != []
              && GroupFrom(read, tokens[i + 1..], [first]) == Ok((r.value.0, tokens[r.value.1 + 1..]))
  {
    var group, j := [first], i;
    while j + 1 < |tokens| && IsOr(tokens[j + 1])
      invariant i <= j < |tokens| && group != []
      invariant GroupFrom(read, tokens[j + 1..], group) == GroupFrom(read, tokens[i + 1..], [first])
    {
      if j + 2 >= |tokens| {
        GroupFails(read, tokens, j, group, BadQuery(DANGLING_OR));
        return Err(BadQuery(DANGLING_OR));
      }
      var m := read(tokens[j + 2]);
      if m.Err? {
        GroupFails(read, tokens, j, group, m.error);
        return Err(m.error);
      }
      GroupMore(read, tokens, j, group, m.value);
      group := group + [m.value];
      j := j + 2;
    }
    r := Ok((group, j));
  }

  /** One turn of the outer loop: the predicate that starts at token `i`, and where the next one starts. */
  method ReadClause(tokens: seq<string>, i: nat) returns (r: Result<(Predicate, nat), Error>)
    requires i < |tokens|
    ensures r.Err? ==> ParseClause(tokens[i], tokens[i + 1..]) == Err(r.error)
    ensures r.Ok? ==>
              && i < r.value.1 <= |tokens|
              && ParseClause(tokens[i], tokens[i + 1..]) == Ok((r.value.0, tokens[r.value.1..]))
  {
    var t := tokens[i];
    var orNext := i + 1 < |tokens| && IsOr(tokens[i + 1]);
    assert orNext == OrFollows(tokens[i + 1..]);
    var (body, mode) := StripExact(t);
    var test := StripSystem(body);
    var p;
    if IsOr(t) {
      return Err(BadQuery(DANGLING_OR));
    } else if StartsWith(t, '-') {
      if orNext {
        return Err(BadQuery(DANGLING_OR));
      }
      p := ParseNegated(t[1..]);
    } else if StartsWith(body, '-') {
      return Err(BadQuery(LATE_DASH));
    } else if test.Some? {
      if orNext {
        return Err(BadQuery(SYSTEM_IN_OR));
      }
      p := AloneSystem(test.value, mode, false);
    } else if IsWild(body) {
      if orNext {
        return Err(BadQuery(WILD_IN_OR));
      }
      p := AloneWild(body, mode, false);
    } else {
      var tag := ParseTag(body);
      if tag.Err? {
        return Err(tag.error);
      }
      var group := ReadGroup(ParseMember, tokens, i, Member(tag.value, mode));
      if group.Err? {
        return Err(group.error);
      }
      return Ok((Grouped(group.value.0), group.value.1 + 1));
    }
    r := if p.Ok? then Ok((p.value, i + 1)) else Err(p.error);
  }

  lemma ClauseFails(tokens: seq<string>, i: nat, done: seq<Predicate>, e: Error)
    requires i < |tokens| && ParseClause(tokens[i], tokens[i + 1..]) == Err(e)
    ensures Prepend(done, ParseFrom(tokens[i..])) == Err(e)
  {
    assert tokens[i..][0] == tokens[i] && tokens[i..][1..] == tokens[i + 1..];
  }

  lemma ClauseRead(tokens: seq<string>, i: nat, done: seq<Predicate>, p: Predicate, next: nat)
    requires i < next <= |tokens| && ParseClause(tokens[i], tokens[i + 1..]) == Ok((p, tokens[next..]))
    ensures Prepend(done, ParseFrom(tokens[i..])) == Prepend(done + [p], ParseFrom(tokens[next..]))
  {
    assert tokens[i..][0] == tokens[i] && tokens[i..][1..] == tokens[i + 1..];
    PrependTwice(done, [p], ParseFrom(tokens[next..]));
  }

  lemma NothingRead(tokens: seq<string>)
    ensures Prepend([], ParseFrom(tokens[0..])) == ParseFrom(tokens)
  {
    assert tokens[0..] == tokens;
    var r := ParseFrom(tokens);
    assert r.Ok? ==> [] + r.value == r.value;
  }

  lemma AllRead(tokens: seq<string>, done: seq<Predicate>)
    ensures Prepend(done, ParseFrom(tokens[|tokens|..])) == Ok(done)
  {
    assert ParseFrom(tokens[|tokens|..]) == Ok([]);
    assert done + [] == done;
  }

  /** One pass over the tokens with an index, growing the predicates. */
  method ParseQuery(tokens: seq<string>) returns (r: Result<seq<Predicate>, Error>)
    ensures r == ParseTokens(tokens)
  {
    if tokens == [] {
      return Err(BadQuery(NO_PREDICATES));
    }
    var predicates, i := [], 0;
    ghost var goal := ParseFrom(tokens);
    NothingRead(tokens);
    while i < |tokens|
      invariant i <= |tokens|
      invariant Prepend(predicates, ParseFrom(tokens[i..])) == goal
    {
      var clause := ReadClause(tokens, i);
      if clause.Err? {
        ClauseFails(tokens, i, predicates, clause.error);
        return Err(clause.error);
      }
      ClauseRead(tokens, i, predicates, clause.value.0, clause.value.1);
      predicates := predicates + [clause.value.0];
      i := clause.value.1;
    }
    AllRead(tokens, predicates);
    r := Ok(predicates);
  }
}
