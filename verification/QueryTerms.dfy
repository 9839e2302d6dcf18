/**
 * What each kind of term means, with its signs spelled out, and what is refused
 * (crates/core/src/query.rs).
 */
module QueryTerms {
  import opened Wrappers
  import opened Strings
  import opened Tags
  import opened Patterns
  import opened SystemPredicates
  import opened Queries

  /** Text without a sign in front: no dash, no equals sign, no `or`, no `system:` in any case. */
  predicate Unsigned(w: string) {
    && w != "" && w[0] != '-' && w[0] != '=' && Lower(w) != "or"
    && !(|w| >= 7 && Lower(w[..7]) == "system:")
  }

  /** A list that is one clause. */
  lemma OnlyClause(t: string, rest: seq<string>, p: Predicate)
    requires ParseClause(t, rest) == Ok((p, []))
    ensures ParseTokens([t] + rest) == Ok([p])
  {
    assert ([t] + rest)[1..] == rest;
    assert ParseFrom([]) == Ok([]);
    assert [p] + [] == [p];
  }

  lemma FirstFails(t: string, rest: seq<string>, e: Error)
    requires ParseClause(t, rest) == Err(e)
    ensures ParseTokens([t] + rest) == Err(e)
  {
    assert ([t] + rest)[1..] == rest;
  }

  /** A term alone, read as `r`. */
  predicate ReadsAs(t: string, r: Result<Predicate, Error>) {
    ParseTokens([t]) == match r case Ok(p) => Ok([p]) case Err(e) => Err(e)
  }

  lemma LoneToken(t: string)
    requires !IsPositiveTag(t)
    ensures ReadsAs(t, ParseLone(t, false))
  {
    var r := ParseLone(t, false);
    assert [t] + [] == [t];
    if r.Ok? {
      OnlyClause(t, [], r.value);
    } else {
      FirstFails(t, [], r.error);
    }
  }

  /** The predicate of a positive tag. */
  function Wanted(r: Result<Member, Error>): Result<Predicate, Error> {
    match r
    case Ok(m) => Ok(Has(m.tag, m.mode))
    case Err(e) => Err(e)
  }

  lemma PositiveToken(t: string)
    requires IsPositiveTag(t)
    ensures ReadsAs(t, Wanted(ParsePositive(t)))
  {
    var r := ParsePositive(t);
    assert [t] + [] == [t];
    if r.Ok? {
      assert ParseGroup([], [r.value]) == Ok(([r.value], []));
      OnlyClause(t, [], Has(r.value.tag, r.value.mode));
    } else {
      FirstFails(t, [], r.error);
    }
  }

  lemma Signed(c: char, w: string)
    requires c == '-' || c == '='
    ensures ([c] + w)[0] == c && ([c] + w)[1..] == w && !IsOr([c] + w) && StripSystem([c] + w).None?
  {
    assert Lower([c] + w)[0] == c;
    if |[c] + w| >= 7 {
      assert Lower(([c] + w)[..7])[0] == c;
    }
  }

  // ---- Tags ----------------------------------------------------------------

  /** What a tag text makes of a predicate. */
  function TagAs(w: string, negated: bool, mode: MatchMode): Result<Predicate, Error> {
    match ParseTag(w)
    case Ok(tag) => Ok(if negated then Not(tag, mode) else Has(tag, mode))
    case Err(e) => Err(e)
  }

  lemma TagSigns(w: string)
    requires Unsigned(w) && '*' !in w
    ensures IsPositiveTag(w) && Wanted(ParsePositive(w)) == TagAs(w, false, Expanded)
    ensures ParseNegated(w) == TagAs(w, true, Expanded)
  {
  }

  lemma ExactTagSigns(w: string)
    requires Unsigned(w) && '*' !in w
    ensures IsPositiveTag("=" + w) && Wanted(ParsePositive("=" + w)) == TagAs(w, false, Exact)
    ensures ParseNegated("=" + w) == TagAs(w, true, Exact)
  {
    Signed('=', w);
  }

  lemma DashToken(t: string)
    ensures ReadsAs("-" + t, ParseNegated(t))
  {
    Signed('-', t);
    LoneToken("-" + t);
  }

  lemma DashEquals(w: string)
    ensures "-=" + w == "-" + ("=" + w)
  {
  }

  /** A tag is wanted, `=` takes it literally, `-` excludes it, `-=` both. */
  lemma TagTerms(w: string)
    requires Unsigned(w) && '*' !in w
    ensures ReadsAs(w, TagAs(w, false, Expanded)) && ReadsAs("=" + w, TagAs(w, false, Exact))
    ensures ReadsAs("-" + w, TagAs(w, true, Expanded)) && ReadsAs("-=" + w, TagAs(w, true, Exact))
  {
    TagSigns(w);
    ExactTagSigns(w);
    PositiveToken(w);
    PositiveToken("=" + w);
    DashToken(w);
    DashToken("=" + w);
    DashEquals(w);
  }

  // ---- Wildcards -----------------------------------------------------------

  function WildAs(w: string, negated: bool, mode: MatchMode): Result<Predicate, Error> {
    match ParsePattern(w)
    case Ok(pattern) => Ok(if negated then NotWild(pattern, mode) else Wild(pattern, mode))
    case Err(e) => Err(e)
  }

  lemma WildSigns(w: string)
    requires Unsigned(w) && '*' in w
    ensures !IsPositiveTag(w) && ParseLone(w, false) == WildAs(w, false, Expanded)
    ensures ParseLone(w, true) == Err(BadQuery(WILD_IN_OR))
    ensures ParseNegated(w) == WildAs(w, true, Expanded)
  {
  }

  lemma ExactWildSigns(w: string)
    requires Unsigned(w) && '*' in w
    ensures !IsPositiveTag("=" + w) && ParseLone("=" + w, false) == WildAs(w, false, Exact)
    ensures ParseNegated("=" + w) == WildAs(w, true, Exact)
  {
    Signed('=', w);
  }

  /** The same for a wildcard, which is a term with a star anywhere. */
  lemma WildTerms(w: string)
    requires Unsigned(w) && '*' in w
    ensures ReadsAs(w, WildAs(w, false, Expanded)) && ReadsAs("=" + w, WildAs(w, false, Exact))
    ensures ReadsAs("-" + w, WildAs(w, true, Expanded)) && ReadsAs("-=" + w, WildAs(w, true, Exact))
  {
    WildSigns(w);
    ExactWildSigns(w);
    LoneToken(w);
    LoneToken("=" + w);
    DashToken(w);
    DashToken("=" + w);
    DashEquals(w);
  }

  // ---- Metadata ------------------------------------------------------------

  lemma SystemHead(head: string, b: string)
    requires Lower(head) == "system:"
    ensures var t := head + b;
            && t != "" && t[0] != '-' && t[0] != '=' && !IsOr(t) && StripSystem(t) == Some(b)
            && StripExact(t) == (t, Expanded)
  {
    var t := head + b;
    assert |head| == |Lower(head)| == 7;
    assert t[..7] == head && t[7..] == b;
    assert LowerChar(head[0]) == Lower(head)[0] == 's' && t[0] == head[0];
    assert |Lower(t)| >= 7;
  }

  function SystemAs(b: string, negated: bool): Result<Predicate, Error> {
    match ParseSystem(b)
    case Ok(test) => Ok(if negated then NotSystem(test) else System(test))
    case Err(e) => Err(e)
  }

  lemma SystemSigns(head: string, b: string)
    requires Lower(head) == "system:"
    ensures var t := head + b;
            && !IsPositiveTag(t) && ParseLone(t, false) == SystemAs(b, false)
            && ParseLone(t, true) == Err(BadQuery(SYSTEM_IN_OR)) && ParseNegated(t) == SystemAs(b, true)
  {
    SystemHead(head, b);
  }

  lemma ExactSystemSigns(head: string, b: string)
    requires Lower(head) == "system:"
    ensures var t := "=" + (head + b);
            && !IsPositiveTag(t) && ParseLone(t, false) == Err(BadQuery(EXACT_SYSTEM))
            && ParseNegated(t) == Err(BadQuery(EXACT_SYSTEM))
  {
    SystemHead(head, b);
    Signed('=', head + b);
  }

  /** `system:` in any case makes a metadata predicate, which can be excluded and not taken literally. */
  lemma SystemTerms(head: string, b: string)
    requires Lower(head) == "system:"
    ensures ReadsAs(head + b, SystemAs(b, false)) && ReadsAs("-" + (head + b), SystemAs(b, true))
    ensures ReadsAs("=" + (head + b), Err(BadQuery(EXACT_SYSTEM)))
    ensures ReadsAs("-=" + (head + b), Err(BadQuery(EXACT_SYSTEM)))
  {
    var t := head + b;
    SystemSigns(head, b);
    ExactSystemSigns(head, b);
    LoneToken(t);
    LoneToken("=" + t);
    DashToken(t);
    DashToken("=" + t);
    DashEquals(t);
  }

  // ---- Or-groups -----------------------------------------------------------

  /** What may stand on either side of `or`: a tag, literal or not. */
  ghost predicate IsMember(t: string, m: Member) {
    exists w: string :: Unsigned(w) && '*' !in w && ParseTag(w) == Ok(m.tag)
      && t == if m.mode == Exact then "=" + w else w
  }

  lemma MemberParses(t: string, m: Member)
    requires IsMember(t, m)
    ensures IsPositiveTag(t) && ParsePositive(t) == Ok(m) && ParseMember(t) == Ok(m)
  {
    var w: string :| Unsigned(w) && '*' !in w && ParseTag(w) == Ok(m.tag)
      && t == if m.mode == Exact then "=" + w else w;
    Signed('=', w);
  }

  /** What follows the first member: `or` and a member, any number of times. */
  ghost predicate OrTail(rest: seq<string>, ms: seq<Member>)
    decreases |ms|
  {
    if ms == [] then rest == []
    else |rest| >= 2 && Lower(rest[0]) == "or" && IsMember(rest[1], ms[0]) && OrTail(rest[2..], ms[1..])
  }

  /** The same for any way to read a member. */
  predicate ReadTail(read: string -> Result<Member, Error>, rest: seq<string>, ms: seq<Member>)
    decreases |ms|
  {
    if ms == [] then rest == []
    else |rest| >= 2 && IsOr(rest[0]) && read(rest[1]) == Ok(ms[0]) && ReadTail(read, rest[2..], ms[1..])
  }

  lemma {:induction false} TailIsRead(rest: seq<string>, ms: seq<Member>)
    requires OrTail(rest, ms)
    ensures ReadTail(ParseMember, rest, ms)
    decreases |ms|
  {
    if ms != [] {
      MemberParses(rest[1], ms[0]);
      TailIsRead(rest[2..], ms[1..]);
    }
  }

  lemma {:induction false} TailReads(read: string -> Result<Member, Error>, rest: seq<string>, ms: seq<Member>,
                                     group: seq<Member>)
    requires ReadTail(read, rest, ms)
    ensures GroupFrom(read, rest, group) == Ok((group + ms, []))
    decreases |ms|
  {
    if ms == [] {
      assert group + ms == group;
    } else {
      TailReads(read, rest[2..], ms[1..], group + [ms[0]]);
      assert (group + [ms[0]]) + ms[1..] == group + ms;
    }
  }

  /** Tags with `or` in any case between them are one group, each with its own mode. */
  lemma OrGroup(t: string, rest: seq<string>, m: Member, ms: seq<Member>)
    requires IsMember(t, m) && OrTail(rest, ms) && ms != []
    ensures ParseTokens([t] + rest) == Ok([Or([m] + ms)])
  {
    MemberParses(t, m);
    TailIsRead(rest, ms);
    TailReads(ParseMember, rest, ms, [m]);
    OnlyClause(t, rest, Or([m] + ms));
  }

  // ---- What is refused -----------------------------------------------------

  /** A member, `or`, and something else. */
  lemma AfterOr(t: string, m: Member, o: string, next: seq<string>)
    requires IsMember(t, m) && Lower(o) == "or"
    ensures next == [] ==> ParseTokens([t, o]) == Err(BadQuery(DANGLING_OR))
    ensures next != [] && ParseMember(next[0]).Err? ==> ParseTokens([t, o] + next) == Err(ParseMember(next[0]).error)
  {
    var rest := [o] + next;
    MemberParses(t, m);
    assert [t] + rest == [t, o] + next;
    if next == [] {
      assert ParseGroup(rest, [m]) == Err(BadQuery(DANGLING_OR));
      FirstFails(t, rest, BadQuery(DANGLING_OR));
      assert [t, o] + [] == [t, o];
    } else if ParseMember(next[0]).Err? {
      assert rest[1] == next[0];
      assert ParseGroup(rest, [m]) == Err(ParseMember(next[0]).error);
      FirstFails(t, rest, ParseMember(next[0]).error);
    }
  }

  /** A term that cannot be joined, and `or` after it. */
  lemma BeforeOr(x: string, o: string, t: string, e: Error)
    requires !IsPositiveTag(x) && Lower(o) == "or" && ParseLone(x, true) == Err(e)
    ensures ParseTokens([x, o, t]) == Err(e)
  {
    FirstFails(x, [o, t], e);
    assert [x] + [o, t] == [x, o, t];
  }

  /** Nothing at all, and `or` with a side missing. */
  lemma DanglingOrs(o: string, t: string, m: Member)
    requires Lower(o) == "or" && IsMember(t, m)
    ensures ParseTokens([]) == Err(BadQuery(NO_PREDICATES))
    ensures ParseTokens([o]) == ParseTokens([o, t]) == ParseTokens([t, o]) == ParseTokens([t, o, o]) ==
              Err(BadQuery(DANGLING_OR))
  {
    LoneToken(o);
    FirstFails(o, [t], BadQuery(DANGLING_OR));
    assert [o] + [t] == [o, t] && [t, o] + [o] == [t, o, o];
    AfterOr(t, m, o, []);
    AfterOr(t, m, o, [o]);
  }

  /** A term that cannot be joined, on either side of `or`. */
  lemma EitherSide(o: string, t: string, m: Member, x: string, e: Error)
    requires Lower(o) == "or" && IsMember(t, m)
    requires !IsPositiveTag(x) && ParseLone(x, true) == Err(e) && ParseMember(x) == Err(e)
    ensures ParseTokens([t, o, x]) == ParseTokens([x, o, t]) == Err(e)
  {
    AfterOr(t, m, o, [x]);
    BeforeOr(x, o, t, e);
    assert [t, o] + [x] == [t, o, x];
  }

  /** Excluded terms, wildcards and metadata cannot be joined. */
  lemma NotJoined(o: string, t: string, m: Member, x: string, w: string, b: string)
    requires Lower(o) == "or" && IsMember(t, m) && Unsigned(w) && '*' in w
    ensures ParseTokens([t, o, "-" + x]) == ParseTokens(["-" + x, o, t]) == Err(BadQuery(DANGLING_OR))
    ensures ParseTokens([t, o, w]) == ParseTokens([w, o, t]) == Err(BadQuery(WILD_IN_OR))
    ensures ParseTokens([t, o, "system:" + b]) == ParseTokens(["system:" + b, o, t]) == Err(BadQuery(SYSTEM_IN_OR))
  {
    Signed('-', x);
    EitherSide(o, t, m, "-" + x, BadQuery(DANGLING_OR));
    WildSigns(w);
    EitherSide(o, t, m, w, BadQuery(WILD_IN_OR));
    SystemMember(b);
    EitherSide(o, t, m, "system:" + b, BadQuery(SYSTEM_IN_OR));
  }

  lemma SystemMember(b: string)
    ensures var t := "system:" + b;
            && !IsPositiveTag(t) && ParseLone(t, true) == Err(BadQuery(SYSTEM_IN_OR))
            && ParseMember(t) == Err(BadQuery(SYSTEM_IN_OR))
  {
    assert Lower("system:") == "system:";
    SystemHead("system:", b);
    SystemSigns("system:", b);
  }

  /** A dash comes before the equals sign. */
  lemma DashAfterEquals(o: string, t: string, m: Member, x: string)
    requires Lower(o) == "or" && IsMember(t, m)
    ensures ParseTokens(["=-" + x]) == ParseTokens([t, o, "=-" + x]) == Err(BadQuery(LATE_DASH))
  {
    Signed('-', x);
    Signed('=', "-" + x);
    assert "=-" + x == "=" + ("-" + x);
    LoneToken("=-" + x);
    AfterOr(t, m, o, ["=-" + x]);
    assert [t, o] + ["=-" + x] == [t, o, "=-" + x];
  }
}
