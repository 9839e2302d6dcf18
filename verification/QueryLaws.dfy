/** What the query parser promises: the exact set of queries, and a way to write each. */
module QueryLaws {
  import opened Wrappers
  import opened Strings
  import opened Tags
  import opened Patterns
  import opened SystemPredicates
  import opened Queries

  // ---- Which queries can be written ----------------------------------------

  /** A tag that is not taken for a wildcard. */
  predicate PlainTag(t: Tag) {
    WellFormed(t) && '*' !in t.namespace && '*' !in t.subtag
  }

  predicate PlainMembers(ms: seq<Member>) {
    forall i :: 0 <= i < |ms| ==> PlainTag(ms[i].tag)
  }

  predicate Parseable(p: Predicate) {
    match p
    case Has(t, _) => PlainTag(t)
    case Not(t, _) => PlainTag(t)
    case Or(ms) => |ms| >= 2 && PlainMembers(ms)
    case Wild(w, _) => WellFormedPattern(w)
    case NotWild(w, _) => WellFormedPattern(w)
    case System(test) => WellFormedSystem(test)
    case NotSystem(test) => WellFormedSystem(test)
  }

  predicate AllParseable(ps: seq<Predicate>) {
    forall i :: 0 <= i < |ps| ==> Parseable(ps[i])
  }

  lemma TagOfTerm(body: string)
    ensures ParseTag(body).Ok? && !IsWild(body) ==> PlainTag(ParseTag(body).value)
  {
    ParsedIsWellFormed(body);
    if ParseTag(body).Ok? {
      TagKeepsMark(body, '*');
    }
  }

  lemma {:induction false} GroupIsPlain(rest: seq<string>, group: seq<Member>)
    requires PlainMembers(group) && ParseGroup(rest, group).Ok?
    ensures PlainMembers(ParseGroup(rest, group).value.0)
    decreases |rest|
  {
    if OrFollows(rest) {
      TagOfTerm(StripExact(rest[1]).0);
      GroupIsPlain(rest[2..], group + [ParseMember(rest[1]).value]);
    }
  }

  lemma LoneIsParseable(t: string, orNext: bool)
    requires !IsPositiveTag(t) && ParseLone(t, orNext).Ok?
    ensures Parseable(ParseLone(t, orNext).value)
  {
    var term := if StartsWith(t, '-') then t[1..] else t;
    var body := StripExact(term).0;
    if StripSystem(body).Some? {
      ParsedSystemIsWellFormed(StripSystem(body).value);
    } else if IsWild(body) {
      ParsedPatternIsWellFormed(body);
    } else {
      TagOfTerm(body);
    }
  }

  lemma ClauseIsParseable(t: string, rest: seq<string>)
    requires ParseClause(t, rest).Ok?
    ensures Parseable(ParseClause(t, rest).value.0)
  {
    if IsPositiveTag(t) {
      TagOfTerm(StripExact(t).0);
      GroupIsPlain(rest, [ParsePositive(t).value]);
    } else {
      LoneIsParseable(t, OrFollows(rest));
    }
  }

  /** Every parse yields parseable predicates; in particular an or-group has at least two members. */
  lemma {:induction false} ParsedIsParseable(tokens: seq<string>)
    requires ParseFrom(tokens).Ok?
    ensures AllParseable(ParseFrom(tokens).value) && (tokens != [] ==> ParseFrom(tokens).value != [])
    decreases |tokens|
  {
    if tokens != [] {
      ClauseIsParseable(tokens[0], tokens[1..]);
      ParsedIsParseable(ParseClause(tokens[0], tokens[1..]).value.1);
    }
  }

  // ---- Writing a query down ------------------------------------------------

  /** Text that would be taken for an operator. */
  predicate Clashes(s: string) {
    StartsWith(s, '-') || StartsWith(s, '=') || IsOr(s) || StripSystem(s).Some?
  }

  /** A blank in front, which the quotes keep, makes any text a plain term. */
  function Padded(s: string): string {
    if Clashes(s) then " " + s else s
  }

  function Mark(mode: MatchMode): string {
    if mode == Exact then "=" else ""
  }

  function WriteTag(t: Tag, mode: MatchMode): string {
    Mark(mode) + Padded(ShowTag(t))
  }

  function WriteMembers(ms: seq<Member>): seq<string> {
    if ms == [] then [] else ["or", WriteTag(ms[0].tag, ms[0].mode)] + WriteMembers(ms[1..])
  }

  /** The tokens of one predicate. */
  function Write(p: Predicate): (ts: seq<string>)
    requires Parseable(p)
    ensures ts != []
  {
    match p
    case Has(t, mode) => [WriteTag(t, mode)]
    case Not(t, mode) => ["-" + WriteTag(t, mode)]
    case Or(ms) => [WriteTag(ms[0].tag, ms[0].mode)] + WriteMembers(ms[1..])
    case Wild(w, mode) => [Mark(mode) + Padded(ShowPattern(w))]
    case NotWild(w, mode) => ["-" + (Mark(mode) + Padded(ShowPattern(w)))]
    case System(test) => ["system:" + ShowSystem(test)]
    case NotSystem(test) => ["-system:" + ShowSystem(test)]
  }

  function WriteAll(ps: seq<Predicate>): seq<string>
    requires AllParseable(ps)
  {
    if ps == [] then [] else Write(ps[0]) + WriteAll(ps[1..])
  }

  /** A marked text splits into its mark and the text, and is no operator. */
  lemma MarkedTerm(s: string, mode: MatchMode)
    ensures StripExact(Mark(mode) + Padded(s)) == (Padded(s), mode)
    ensures !Clashes(Padded(s)) && !IsOr(Mark(mode) + Padded(s)) && !StartsWith(Mark(mode) + Padded(s), '-')
  {
    var t := Mark(mode) + Padded(s);
    PaddedDoesNotClash(s);
    assert mode == Exact ==> t[1..] == Padded(s);
    assert mode == Expanded ==> t == Padded(s);
    if mode == Exact {
      assert Lower(t)[0] == '=';
    }
  }

  lemma PaddedDoesNotClash(s: string)
    ensures !Clashes(Padded(s))
  {
    if Clashes(s) {
      var t := " " + s;
      assert Lower(t)[0] == ' ';
      if |t| >= 7 {
        assert Lower(t[..7])[0] == ' ';
      }
    }
  }

  lemma PadOf(s: string) returns (pad: string)
    ensures IsPad(pad) && Padded(s) == pad + s
  {
    pad := if Clashes(s) then " " else "";
    assert "" + s == s;
  }

  lemma WrittenTagParses(t: Tag)
    requires PlainTag(t)
    ensures ParseTag(Padded(ShowTag(t))) == Ok(t) && !IsWild(Padded(ShowTag(t)))
  {
    var pad := PadOf(ShowTag(t));
    ShownIsTrimmed(t);
    ShownSplits(t);
    PadVanishes(pad, ShowTag(t));
    ParseByHalves(pad + ShowTag(t), ShowTag(t), t);
    StarIsNotShown(t);
    NotInPadded(pad, ShowTag(t), '*');
  }

  lemma ParseByHalves(s: string, shown: string, t: Tag)
    requires Trim(s) == shown && SplitTag(shown) == (t.namespace, t.subtag) && t.subtag != ""
    ensures ParseTag(s) == Ok(t)
  {
  }

  lemma StarIsNotShown(t: Tag)
    requires '*' !in t.namespace && '*' !in t.subtag
    ensures '*' !in ShowTag(t)
  {
  }

  lemma WrittenPatternParses(w: TagPattern)
    requires WellFormedPattern(w)
    ensures ParsePattern(Padded(ShowPattern(w))) == Ok(w) && IsWild(Padded(ShowPattern(w)))
  {
    var pad := PadOf(ShowPattern(w));
    PrintedPatternParses(pad, w);
    StarIsShown(w);
  }

  lemma StarIsShown(w: TagPattern)
    requires WellFormedPattern(w)
    ensures '*' in ShowPattern(w) && '*' in " " + ShowPattern(w)
  {
    if w.NamespaceAny? {
      var s := ShowPattern(w);
      assert s[|s| - 1] == '*';
    }
  }

  /** A written positive tag is one, and parses. */
  lemma WrittenPositive(t: Tag, mode: MatchMode)
    requires PlainTag(t)
    ensures IsPositiveTag(WriteTag(t, mode)) && ParsePositive(WriteTag(t, mode)) == Ok(Member(t, mode))
    ensures !IsOr(WriteTag(t, mode)) && ParseMember(WriteTag(t, mode)) == Ok(Member(t, mode))
  {
    MarkedTerm(ShowTag(t), mode);
    WrittenTagParses(t);
  }

  /** An `or` and a member extend the group. */
  lemma OneMoreMember(t: string, m: Member, rest: seq<string>, group: seq<Member>)
    requires ParseMember(t) == Ok(m)
    ensures ParseGroup(["or", t] + rest, group) == ParseGroup(rest, group + [m])
  {
    assert IsOr("or");
    assert (["or", t] + rest)[2..] == rest;
  }

  lemma MembersWritten(ms: seq<Member>, rest: seq<string>)
    requires ms != []
    ensures WriteMembers(ms) + rest == ["or", WriteTag(ms[0].tag, ms[0].mode)] + (WriteMembers(ms[1..]) + rest)
  {
  }

  lemma MovedOver<T>(done: seq<T>, left: seq<T>)
    requires left != []
    ensures done + [left[0]] + left[1..] == done + left
  {
  }

  lemma {:induction false} WrittenMembersParse(ms: seq<Member>, group: seq<Member>, rest: seq<string>)
    requires PlainMembers(ms) && !OrFollows(rest)
    ensures ParseGroup(WriteMembers(ms) + rest, group) == Ok((group + ms, rest))
    decreases |ms|
  {
    if ms == [] {
      assert WriteMembers(ms) + rest == rest && group + ms == group;
    } else {
      var t, more := WriteTag(ms[0].tag, ms[0].mode), WriteMembers(ms[1..]) + rest;
      WrittenPositive(ms[0].tag, ms[0].mode);
      OneMoreMember(t, ms[0], more, group);
      WrittenMembersParse(ms[1..], group + [ms[0]], rest);
      MembersWritten(ms, rest);
      MovedOver(group, ms);
    }
  }

  lemma WrittenSystemParses(test: SystemPredicate)
    requires WellFormedSystem(test)
    ensures ParseSystem(ShowSystem(test)) == Ok(test)
    ensures StripSystem("system:" + ShowSystem(test)) == Some(ShowSystem(test))
  {
    SystemRoundTrip(test);
    PrefixStripped(ShowSystem(test));
  }

  lemma PrefixStripped(s: string)
    ensures StripSystem("system:" + s) == Some(s)
  {
    var t := "system:" + s;
    assert t[..7] == "system:" && t[7..] == s;
    assert Lower("system:") == "system:";
  }

  lemma WrittenPatternTerm(w: TagPattern, mode: MatchMode)
    requires WellFormedPattern(w)
    ensures var t := Mark(mode) + Padded(ShowPattern(w));
            && !IsPositiveTag(t) && ParseLone(t, false) == Ok(Wild(w, mode))
            && !IsPositiveTag("-" + t) && ParseLone("-" + t, false) == Ok(NotWild(w, mode))
  {
    var t := Mark(mode) + Padded(ShowPattern(w));
    MarkedTerm(ShowPattern(w), mode);
    WrittenPatternParses(w);
    NegatedTerm(t);
  }

  /** A dash in front negates and nothing else. */
  lemma NegatedTerm(t: string)
    ensures StartsWith("-" + t, '-') && ("-" + t)[1..] == t && !IsOr("-" + t)
  {
    assert Lower("-" + t)[0] == '-';
  }

  lemma WrittenSystemTerm(test: SystemPredicate)
    requires WellFormedSystem(test)
    ensures var t := "system:" + ShowSystem(test);
            && !IsPositiveTag(t) && ParseLone(t, false) == Ok(System(test))
            && !IsPositiveTag("-" + t) && ParseLone("-" + t, false) == Ok(NotSystem(test))
  {
    var t := "system:" + ShowSystem(test);
    WrittenSystemParses(test);
    NegatedTerm(t);
    SystemIsNoMark(ShowSystem(test));
  }

  lemma SystemIsNoMark(s: string)
    ensures var t := "system:" + s; !IsOr(t) && !StartsWith(t, '-') && StripExact(t) == (t, Expanded)
  {
    assert Lower("system:" + s)[0] == 's';
  }

  lemma WrittenNegatedTag(t: Tag, mode: MatchMode)
    requires PlainTag(t)
    ensures var term := "-" + WriteTag(t, mode);
            !IsPositiveTag(term) && ParseLone(term, false) == Ok(Not(t, mode))
  {
    MarkedTerm(ShowTag(t), mode);
    WrittenTagParses(t);
    NegatedTerm(WriteTag(t, mode));
  }

  /** What is written for one predicate parses as it, whatever follows, and does not start with `or`. */
  lemma WrittenParses(p: Predicate, rest: seq<string>)
    requires Parseable(p) && !OrFollows(rest)
    ensures ParseClause(Write(p)[0], Write(p)[1..] + rest) == Ok((p, rest))
    ensures !IsOr(Write(p)[0])
  {
    match p {
      case Has(t, mode) => WrittenGroup([Member(t, mode)], rest);
      case Or(ms) => WrittenGroup(ms, rest);
      case Not(t, mode) =>
        WrittenNegatedTag(t, mode);
        LoneClause("-" + WriteTag(t, mode), p, rest);
      case Wild(w, mode) =>
        WrittenPatternTerm(w, mode);
        LoneClause(Write(p)[0], p, rest);
      case NotWild(w, mode) =>
        WrittenPatternTerm(w, mode);
        LoneClause(Write(p)[0], p, rest);
      case System(test) =>
        WrittenSystemTerm(test);
        LoneClause("system:" + ShowSystem(test), p, rest);
      case NotSystem(test) =>
        WrittenSystemTerm(test);
        DashFirst(ShowSystem(test));
        LoneClause("-system:" + ShowSystem(test), p, rest);
    }
  }

  lemma DashFirst(s: string)
    ensures "-system:" + s == "-" + ("system:" + s)
  {
  }

  lemma LoneClause(t: string, p: Predicate, rest: seq<string>)
    requires !IsPositiveTag(t) && ParseLone(t, false) == Ok(p) && !OrFollows(rest)
    ensures ParseClause([t][0], [t][1..] + rest) == Ok((p, rest)) && !IsOr(t)
  {
    assert [t][1..] + rest == rest;
  }

  lemma WrittenGroup(ms: seq<Member>, rest: seq<string>)
    requires ms != [] && PlainMembers(ms) && !OrFollows(rest)
    ensures var ts := [WriteTag(ms[0].tag, ms[0].mode)] + WriteMembers(ms[1..]);
            ParseClause(ts[0], ts[1..] + rest) == Ok((Grouped(ms), rest)) && !IsOr(ts[0])
  {
    WrittenPositive(ms[0].tag, ms[0].mode);
    WrittenMembersParse(ms[1..], [ms[0]], rest);
    assert [ms[0]] + ms[1..] == ms;
    var ts := [WriteTag(ms[0].tag, ms[0].mode)] + WriteMembers(ms[1..]);
    assert ts[1..] == WriteMembers(ms[1..]);
  }

  lemma ClauseThenRest(t: string, more: seq<string>, p: Predicate, rest: seq<string>, ps: seq<Predicate>,
                       tokens: seq<string>)
    requires tokens != [] && tokens[0] == t && tokens[1..] == more && !IsOr(t)
    requires ParseClause(t, more) == Ok((p, rest)) && ParseFrom(rest) == Ok(ps)
    ensures ParseFrom(tokens) == Ok([p] + ps) && !OrFollows(tokens)
  {
  }

  lemma HeadAndRest<T>(a: seq<T>, b: seq<T>)
    requires a != []
    ensures (a + b)[0] == a[0] && (a + b)[1..] == a[1..] + b
  {
  }

  lemma {:induction false} WrittenAllParse(ps: seq<Predicate>)
    requires AllParseable(ps)
    ensures ParseFrom(WriteAll(ps)) == Ok(ps) && !OrFollows(WriteAll(ps))
    decreases |ps|
  {
    if ps != [] {
      var rest := WriteAll(ps[1..]);
      WrittenAllParse(ps[1..]);
      WrittenParses(ps[0], rest);
      var ts := Write(ps[0]);
      HeadAndRest(ts, rest);
      ClauseThenRest(ts[0], ts[1..] + rest, ps[0], rest, ps[1..], ts + rest);
      assert [ps[0]] + ps[1..] == ps;
    }
  }

  /** A token list parses as `ps` for some list exactly when `ps` is parseable. */
  lemma ParseableExactly(ps: seq<Predicate>)
    ensures (exists tokens :: ParseTokens(tokens) == Ok(ps)) <==> ps != [] && AllParseable(ps)
  {
    if ps != [] && AllParseable(ps) {
      WrittenAllParse(ps);
      assert WriteAll(ps) != [];
      assert ParseTokens(WriteAll(ps)) == Ok(ps);
    }
    forall tokens | ParseTokens(tokens) == Ok(ps)
      ensures ps != [] && AllParseable(ps)
    {
      ParsedIsParseable(tokens);
    }
  }

  // ---- From text to text ---------------------------------------------------

  predicate QuotelessTag(t: Tag) {
    '"' !in t.namespace && '"' !in t.subtag
  }

  predicate QuotelessMembers(ms: seq<Member>) {
    forall i :: 0 <= i < |ms| ==> QuotelessTag(ms[i].tag)
  }

  /** No part holds a double quote. */
  predicate Quoteless(p: Predicate) {
    match p
    case Has(t, _) => QuotelessTag(t)
    case Not(t, _) => QuotelessTag(t)
    case Or(ms) => QuotelessMembers(ms)
    case Wild(w, _) => !PatternHas(w, '"')
    case NotWild(w, _) => !PatternHas(w, '"')
    case System(test) => !SystemHas(test, '"')
    case NotSystem(test) => !SystemHas(test, '"')
  }

  /** The queries that can be typed. */
  predicate Writable(ps: seq<Predicate>) {
    ps != [] && AllParseable(ps) && forall i :: 0 <= i < |ps| ==> Quoteless(ps[i])
  }

  function WriteText(ps: seq<Predicate>): string
    requires AllParseable(ps)
  {
    Join(QuoteAll(WriteAll(ps)))
  }

  lemma BodyIsClean(t: string)
    requires '"' !in t
    ensures '"' !in StripExact(t).0
    ensures StripSystem(t).Some? ==> '"' !in StripSystem(t).value
    ensures t != "" ==> '"' !in t[1..]
  {
  }

  lemma TagIsQuoteless(body: string)
    requires '"' !in body && ParseTag(body).Ok?
    ensures QuotelessTag(ParseTag(body).value)
  {
    TagKeepsMark(body, '"');
  }

  lemma {:induction false} GroupIsQuoteless(rest: seq<string>, group: seq<Member>)
    requires CleanTokens(rest) && QuotelessMembers(group) && ParseGroup(rest, group).Ok?
    ensures QuotelessMembers(ParseGroup(rest, group).value.0) && CleanTokens(ParseGroup(rest, group).value.1)
    decreases |rest|
  {
    if OrFollows(rest) {
      assert CleanToken(rest[1]);
      BodyIsClean(rest[1]);
      TagIsQuoteless(StripExact(rest[1]).0);
      GroupIsQuoteless(rest[2..], group + [ParseMember(rest[1]).value]);
    }
  }

  lemma LoneIsQuoteless(t: string, orNext: bool)
    requires '"' !in t && !IsPositiveTag(t) && ParseLone(t, orNext).Ok?
    ensures Quoteless(ParseLone(t, orNext).value)
  {
    var term := if StartsWith(t, '-') then t[1..] else t;
    BodyIsClean(t);
    BodyIsClean(term);
    var body := StripExact(term).0;
    BodyIsClean(body);
    if StripSystem(body).Some? {
      SystemAddsNoMark(StripSystem(body).value, '"');
    } else if IsWild(body) {
      PatternAddsNoMark(body, '"');
    } else {
      TagIsQuoteless(body);
    }
  }

  lemma ClauseIsQuoteless(t: string, rest: seq<string>)
    requires CleanToken(t) && CleanTokens(rest) && ParseClause(t, rest).Ok?
    ensures Quoteless(ParseClause(t, rest).value.0) && CleanTokens(ParseClause(t, rest).value.1)
  {
    if IsPositiveTag(t) {
      BodyIsClean(t);
      TagIsQuoteless(StripExact(t).0);
      GroupIsQuoteless(rest, [ParsePositive(t).value]);
    } else {
      LoneIsQuoteless(t, OrFollows(rest));
    }
  }

  lemma {:induction false} ParsedIsQuoteless(tokens: seq<string>)
    requires CleanTokens(tokens) && ParseFrom(tokens).Ok?
    ensures forall i :: 0 <= i < |ParseFrom(tokens).value| ==> Quoteless(ParseFrom(tokens).value[i])
    decreases |tokens|
  {
    if tokens != [] {
      ClauseIsQuoteless(tokens[0], tokens[1..]);
      ParsedIsQuoteless(ParseClause(tokens[0], tokens[1..]).value.1);
    }
  }

  lemma PaddedIsClean(s: string, mode: MatchMode)
    requires CleanToken(s)
    ensures CleanToken(Mark(mode) + Padded(s)) && CleanToken("-" + (Mark(mode) + Padded(s)))
  {
  }

  lemma WrittenTagIsClean(t: Tag, mode: MatchMode)
    requires WellFormed(t) && QuotelessTag(t)
    ensures CleanToken(WriteTag(t, mode)) && CleanToken("-" + WriteTag(t, mode))
  {
    var s := ShowTag(t);
    assert '"' !in s;
    PaddedIsClean(s, mode);
  }

  lemma WrittenPatternIsClean(w: TagPattern, mode: MatchMode)
    requires WellFormedPattern(w) && !PatternHas(w, '"')
    ensures var t := Mark(mode) + Padded(ShowPattern(w)); CleanToken(t) && CleanToken("-" + t)
  {
    StarIsShown(w);
    assert '"' !in ShowPattern(w);
    PaddedIsClean(ShowPattern(w), mode);
  }

  lemma {:induction false} WrittenMembersAreClean(ms: seq<Member>)
    requires PlainMembers(ms) && QuotelessMembers(ms)
    ensures CleanTokens(WriteMembers(ms))
  {
    if ms != [] {
      var t := WriteTag(ms[0].tag, ms[0].mode);
      WrittenTagIsClean(ms[0].tag, ms[0].mode);
      PlainRest(ms);
      WrittenMembersAreClean(ms[1..]);
      CleanSplit(["or", t], WriteMembers(ms[1..]));
    }
  }

  lemma PlainRest(ms: seq<Member>)
    requires ms != [] && PlainMembers(ms) && QuotelessMembers(ms)
    ensures PlainMembers(ms[1..]) && QuotelessMembers(ms[1..])
  {
  }

  lemma CleanSplit(a: seq<string>, b: seq<string>)
    requires CleanTokens(a) && CleanTokens(b)
    ensures CleanTokens(a + b)
  {
    forall i | 0 <= i < |a + b|
      ensures CleanToken((a + b)[i])
    {
      assert (a + b)[i] == if i < |a| then a[i] else b[i - |a|];
    }
  }

  lemma WrittenIsClean(p: Predicate)
    requires Parseable(p) && Quoteless(p)
    ensures CleanTokens(Write(p))
  {
    match p {
      case Has(t, mode) => WrittenTagIsClean(t, mode);
      case Not(t, mode) => WrittenTagIsClean(t, mode);
      case Or(ms) =>
        WrittenTagIsClean(ms[0].tag, ms[0].mode);
        WrittenMembersAreClean(ms[1..]);
      case Wild(w, mode) => WrittenPatternIsClean(w, mode);
      case NotWild(w, mode) => WrittenPatternIsClean(w, mode);
      case System(test) => ShownSystemHas(test);
      case NotSystem(test) => ShownSystemHas(test);
    }
  }

  lemma {:induction false} WrittenAllAreClean(ps: seq<Predicate>)
    requires AllParseable(ps) && forall i :: 0 <= i < |ps| ==> Quoteless(ps[i])
    ensures CleanTokens(WriteAll(ps))
  {
    if ps != [] {
      WrittenIsClean(ps[0]);
      WrittenAllAreClean(ps[1..]);
    }
  }

  /** Every query that can be typed is got back from the text written for it. */
  lemma QueryRoundTrip(ps: seq<Predicate>)
    requires Writable(ps)
    ensures ParseText(WriteText(ps)) == Ok(ps)
  {
    WrittenAllAreClean(ps);
    TokensOfQuoted(WriteAll(ps));
    WrittenAllParse(ps);
  }

  /** And no text parses as anything else. */
  lemma ParsedTextIsWritable(s: string)
    ensures ParseText(s).Ok? ==> Writable(ParseText(s).value)
  {
    if ParseText(s).Ok? {
      TokensAreClean(s, "", false);
      ParsedIsParseable(Tokens(s));
      ParsedIsQuoteless(Tokens(s));
    }
  }

  /** Terms that cannot be mistaken for an operator are written as they are, only quoted. */
  lemma PlainTermsAreNotPadded(t: Tag)
    requires !Clashes(ShowTag(t))
    ensures WriteTag(t, Expanded) == ShowTag(t) && WriteTag(t, Exact) == "=" + ShowTag(t)
  {
    assert "" + ShowTag(t) == ShowTag(t);
  }
}
