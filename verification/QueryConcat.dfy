/** Parsing one token list after another: exactly when that is parsing both. */
module QueryConcat {
  import opened Wrappers
  import opened Tags
  import opened Queries

  // ---- Concatenation -------------------------------------------------------

  predicate EndsWithOr(tokens: seq<string>) {
    tokens != [] && IsOr(tokens[|tokens| - 1])
  }

  function After(r: Result<(seq<Member>, seq<string>), Error>, b: seq<string>)
    : Result<(seq<Member>, seq<string>), Error>
  {
    match r
    case Ok((group, left)) => Ok((group, left + b))
    case Err(e) => Err(e)
  }

  /** A group ends where it would end anyway, and what is left of `a` ends like `a`. */
  lemma {:induction false} GroupOfConcat(a: seq<string>, b: seq<string>, group: seq<Member>)
    requires !EndsWithOr(a) && !OrFollows(b)
    ensures ParseGroup(a + b, group) == After(ParseGroup(a, group), b)
    ensures ParseGroup(a, group).Ok? ==> !EndsWithOr(ParseGroup(a, group).value.1)
    decreases |a|
  {
    if a == [] {
      assert a + b == b;
    } else if IsOr(a[0]) {
      assert (a + b)[1] == a[1] && (a + b)[2..] == a[2..] + b;
      if ParseMember(a[1]).Ok? {
        GroupOfConcat(a[2..], b, group + [ParseMember(a[1]).value]);
      }
    }
  }

  lemma ClauseOfConcat(t: string, a: seq<string>, b: seq<string>)
    requires !EndsWithOr(a) && !OrFollows(b)
    ensures var r := ParseClause(t, a);
            ParseClause(t, a + b) == if r.Ok? then Ok((r.value.0, r.value.1 + b)) else Err(r.error)
    ensures ParseClause(t, a).Ok? ==> !EndsWithOr(ParseClause(t, a).value.1)
  {
    assert OrFollows(a + b) == OrFollows(a);
    if IsPositiveTag(t) && ParsePositive(t).Ok? {
      GroupOfConcat(a, b, [ParsePositive(t).value]);
    }
  }

  /** The predicates of both parts, or the first error. */
  function Both(r: Result<seq<Predicate>, Error>, q: Result<seq<Predicate>, Error>): Result<seq<Predicate>, Error> {
    if r.Err? then r else Prepend(r.value, q)
  }

  lemma {:induction false} FromConcat(a: seq<string>, b: seq<string>)
    requires !EndsWithOr(a) && !OrFollows(b)
    ensures ParseFrom(a + b) == Both(ParseFrom(a), ParseFrom(b))
    decreases |a|
  {
    if a == [] {
      assert a + b == b;
      var q := ParseFrom(b);
      assert q.Ok? ==> [] + q.value == q.value;
    } else {
      var t, rest := a[0], a[1..];
      assert (a + b)[0] == t && (a + b)[1..] == rest + b;
      assert EndsWithOr(rest) ==> EndsWithOr(a);
      ClauseOfConcat(t, rest, b);
      var r := ParseClause(t, rest);
      if r.Ok? {
        FromConcat(r.value.1, b);
        var left := ParseFrom(r.value.1);
        if left.Ok? {
          PrependTwice([r.value.0], left.value, ParseFrom(b));
        }
      }
    }
  }

  /** Parsing one token list after another is parsing both, errors included. */
  lemma QueryOfConcat(a: seq<string>, b: seq<string>)
    requires a != [] && b != [] && !EndsWithOr(a) && !IsOr(b[0])
    ensures ParseTokens(a + b) == Both(ParseTokens(a), ParseTokens(b))
  {
    FromConcat(a, b);
  }

  /** A list that parses does not end with `or`, so successful parses always concatenate. */
  lemma {:induction false} ParsedDoesNotDangle(a: seq<string>)
    requires EndsWithOr(a)
    ensures ParseFrom(a).Err?
    decreases |a|
  {
    var r := ParseClause(a[0], a[1..]);
    if r.Ok? {
      ClauseDoesNotDangle(a[0], a[1..]);
      if r.value.1 != [] {
        ParsedDoesNotDangle(r.value.1);
      }
    }
  }

  lemma {:induction false} GroupDoesNotDangle(rest: seq<string>, group: seq<Member>)
    requires EndsWithOr(rest) && ParseGroup(rest, group).Ok?
    ensures EndsWithOr(ParseGroup(rest, group).value.1)
    decreases |rest|
  {
    if IsOr(rest[0]) && |rest| >= 2 {
      var m := ParseMember(rest[1]);
      assert !IsOr(rest[1]);
      assert rest[2..] != [] && rest[2..][|rest| - 3] == rest[|rest| - 1];
      GroupDoesNotDangle(rest[2..], group + [m.value]);
    }
  }

  lemma ClauseDoesNotDangle(t: string, rest: seq<string>)
    requires EndsWithOr([t] + rest) && ParseClause(t, rest).Ok?
    ensures EndsWithOr(ParseClause(t, rest).value.1)
  {
    assert rest != [] ==> ([t] + rest)[|rest|] == rest[|rest| - 1];
    if rest != [] && IsPositiveTag(t) {
      GroupDoesNotDangle(rest, [ParsePositive(t).value]);
    }
  }

  /** Whatever parses can be continued by anything that does not start with `or`. */
  lemma ParsesConcatenate(a: seq<string>, b: seq<string>)
    requires ParseTokens(a).Ok? && b != [] && !IsOr(b[0])
    ensures ParseTokens(a + b) == Prepend(ParseTokens(a).value, ParseTokens(b))
  {
    if EndsWithOr(a) {
      ParsedDoesNotDangle(a);
    }
    QueryOfConcat(a, b);
  }

  /** The same law for texts. */
  lemma TextsConcatenate(a: string, b: string)
    requires !OpenAfter(a, false) && ParseText(a).Ok? && Tokens(b) != [] && !IsOr(Tokens(b)[0])
    ensures ParseText(a + " " + b) == Prepend(ParseText(a).value, ParseText(b))
  {
    TokensOfConcat(a, b);
    ParsesConcatenate(Tokens(a), Tokens(b));
  }

  // ---- How a token list ends -----------------------------------------------

  /**
   * What the tokens come to before their last clause is closed: an error whatever follows, a last
   * term that no group can start with, or a group that an `or` would continue.
   */
  datatype Ending =
    | Fails(error: Error)
    | Lone(done: seq<Predicate>, last: string)
    | Open(done: seq<Predicate>, group: seq<Member>)

  function Later(p: Predicate, e: Ending): Ending {
    match e
    case Fails(_) => e
    case Lone(done, last) => Lone([p] + done, last)
    case Open(done, group) => Open([p] + done, group)
  }

  function EndingOf(tokens: seq<string>): (e: Ending)
    requires tokens != []
    ensures e.Lone? ==> !IsPositiveTag(e.last)
    ensures e.Open? ==> e.group != []
    decreases |tokens|
  {
    var t, rest := tokens[0], tokens[1..];
    if !IsPositiveTag(t) then
      if rest == [] then Lone([], t)
      else match ParseLone(t, OrFollows(rest))
        case Err(e) => Fails(e)
        case Ok(p) => Later(p, EndingOf(rest))
    else match ParsePositive(t)
      case Err(e) => Fails(e)
      case Ok(first) =>
        match ParseGroup(rest, [first])
        case Err(e) => Fails(e)
        case Ok((group, left)) => if left == [] then Open([], group) else Later(Grouped(group), EndingOf(left))
  }

  function OneOf(r: Result<Predicate, Error>): Result<seq<Predicate>, Error> {
    match r
    case Ok(p) => Ok([p])
    case Err(e) => Err(e)
  }

  /** Nothing more follows. */
  function Closed(e: Ending): Result<seq<Predicate>, Error>
    requires e.Lone? ==> !IsPositiveTag(e.last)
    requires e.Open? ==> e.group != []
  {
    match e
    case Fails(error) => Err(error)
    case Lone(done, last) => Prepend(done, OneOf(ParseLone(last, false)))
    case Open(done, group) => Ok(done + [Grouped(group)])
  }

  /** A group that goes on with `rest`, and what comes after it. */
  function GroupThen(group: seq<Member>, rest: seq<string>): Result<seq<Predicate>, Error>
    requires group != []
  {
    match ParseGroup(rest, group)
    case Err(e) => Err(e)
    case Ok((all, left)) => Prepend([Grouped(all)], ParseFrom(left))
  }

  /** An `or` and more follows. */
  function Continued(e: Ending, rest: seq<string>): Result<seq<Predicate>, Error>
    requires e.Lone? ==> !IsPositiveTag(e.last)
    requires e.Open? ==> e.group != []
  {
    match e
    case Fails(error) => Err(error)
    case Lone(done, last) => Prepend(done, OneOf(ParseLone(last, true)))
    case Open(done, group) => Prepend(done, GroupThen(group, rest))
  }

  lemma ClosedLater(p: Predicate, e: Ending)
    requires e.Lone? ==> !IsPositiveTag(e.last)
    requires e.Open? ==> e.group != []
    ensures Closed(Later(p, e)) == Prepend([p], Closed(e))
  {
    match e {
      case Fails(_) =>
      case Lone(done, last) => PrependTwice([p], done, OneOf(ParseLone(last, false)));
      case Open(done, group) => assert [p] + (done + [Grouped(group)]) == ([p] + done) + [Grouped(group)];
    }
  }

  lemma ContinuedLater(p: Predicate, e: Ending, rest: seq<string>)
    requires e.Lone? ==> !IsPositiveTag(e.last)
    requires e.Open? ==> e.group != []
    ensures Continued(Later(p, e), rest) == Prepend([p], Continued(e, rest))
  {
    match e {
      case Fails(_) =>
      case Lone(done, last) => PrependTwice([p], done, OneOf(ParseLone(last, true)));
      case Open(done, group) => PrependTwice([p], done, GroupThen(group, rest));
    }
  }

  lemma PrependNone(r: Result<seq<Predicate>, Error>)
    ensures Prepend([], r) == r
  {
    assert r.Ok? ==> [] + r.value == r.value;
  }

  lemma PrependToNone(p: Predicate)
    ensures Prepend([p], ParseFrom([])) == Ok([p])
  {
    assert [p] + [] == [p];
  }

  /** The ending says what the tokens parse as. */
  lemma {:induction false} ParsedByEnding(tokens: seq<string>)
    requires tokens != []
    ensures ParseFrom(tokens) == Closed(EndingOf(tokens))
    decreases |tokens|
  {
    var t, rest := tokens[0], tokens[1..];
    if !IsPositiveTag(t) {
      var p := ParseLone(t, OrFollows(rest));
      if rest == [] {
        PrependNone(OneOf(p));
        if p.Ok? {
          PrependToNone(p.value);
        }
      } else if p.Ok? {
        ParsedByEnding(rest);
        ClosedLater(p.value, EndingOf(rest));
      }
    } else if ParsePositive(t).Ok? {
      var r := ParseGroup(rest, [ParsePositive(t).value]);
      if r.Ok? {
        var (group, left) := r.value;
        if left == [] {
          PrependToNone(Grouped(group));
          assert [] + [Grouped(group)] == [Grouped(group)];
        } else {
          ParsedByEnding(left);
          ClosedLater(Grouped(group), EndingOf(left));
        }
      }
    }
  }

  /** A group goes on through what follows if it was still open, and ends where it ended if not. */
  lemma {:induction false} GroupThenOr(a: seq<string>, rest: seq<string>, group: seq<Member>)
    requires !EndsWithOr(a) && OrFollows(rest)
    ensures var r := ParseGroup(a, group);
            ParseGroup(a + rest, group) ==
              if r.Err? then r
              else if r.value.1 == [] then ParseGroup(rest, r.value.0)
              else Ok((r.value.0, r.value.1 + rest))
    ensures var r := ParseGroup(a, group); r.Ok? ==> !EndsWithOr(r.value.1) && !OrFollows(r.value.1)
    decreases |a|
  {
    if a == [] {
      assert a + rest == rest;
    } else if IsOr(a[0]) {
      assert (a + rest)[1] == a[1] && (a + rest)[2..] == a[2..] + rest;
      if ParseMember(a[1]).Ok? {
        GroupThenOr(a[2..], rest, group + [ParseMember(a[1]).value]);
      }
    }
  }

  /** The ending says what the tokens parse as when an `or` follows. */
  lemma {:induction false} ContinuedByEnding(a: seq<string>, rest: seq<string>)
    requires a != [] && !EndsWithOr(a) && OrFollows(rest)
    ensures ParseFrom(a + rest) == Continued(EndingOf(a), rest)
    decreases |a|
  {
    var t, more := a[0], a[1..];
    assert (a + rest)[0] == t && (a + rest)[1..] == more + rest;
    if !IsPositiveTag(t) {
      if more == [] {
        assert more + rest == rest;
        PrependNone(OneOf(ParseLone(t, true)));
      } else {
        var p := ParseLone(t, OrFollows(more));
        if p.Ok? {
          ContinuedByEnding(more, rest);
          ContinuedLater(p.value, EndingOf(more), rest);
        }
      }
    } else if ParsePositive(t).Ok? {
      var first := ParsePositive(t).value;
      GroupThenOr(more, rest, [first]);
      var r := ParseGroup(more, [first]);
      if r.Ok? {
        var (group, left) := r.value;
        if left == [] {
          PrependNone(GroupThen(group, rest));
        } else {
          ContinuedByEnding(left, rest);
          ContinuedLater(Grouped(group), EndingOf(left), rest);
        }
      }
    }
  }

  // ---- Which ending it is --------------------------------------------------

  /** The list parses and ends with a tag or a group, which an `or` would continue. */
  predicate CanBeJoined(a: seq<string>) {
    var r := ParseTokens(a);
    r.Ok? && r.value != [] && (r.value[|r.value| - 1].Has? || r.value[|r.value| - 1].Or?)
  }

  lemma LoneIsNoTag(t: string, orNext: bool)
    requires !IsPositiveTag(t) && ParseLone(t, orNext).Ok?
    ensures !ParseLone(t, orNext).value.Has? && !ParseLone(t, orNext).value.Or?
  {
  }

  lemma OpenIsJoinable(a: seq<string>)
    requires a != []
    ensures EndingOf(a).Open? <==> CanBeJoined(a)
  {
    ParsedByEnding(a);
    var e := EndingOf(a);
    if e.Lone? && ParseLone(e.last, false).Ok? {
      LoneIsNoTag(e.last, false);
    }
  }

  /** The last token is a term that no group can start with, and everything before it parses. */
  predicate EndsAlone(a: seq<string>) {
    && a != [] && !IsPositiveTag(a[|a| - 1])
    && (|a| == 1 || ParseTokens(a[..|a| - 1]).Ok?)
  }

  predicate RefusesOr(read: string -> Result<Member, Error>, tokens: seq<string>) {
    forall k :: 0 <= k < |tokens| && IsOr(tokens[k]) ==> read(tokens[k]).Err?
  }

  /** The tokens a group takes: they do not end with `or`, and would be the whole group alone. */
  lemma {:induction false} GroupTakes(read: string -> Result<Member, Error>, rest: seq<string>, group: seq<Member>)
    returns (taken: seq<string>)
    requires RefusesOr(read, rest) && GroupFrom(read, rest, group).Ok?
    ensures rest == taken + GroupFrom(read, rest, group).value.1 && !EndsWithOr(taken)
    ensures GroupFrom(read, taken, group) == Ok((GroupFrom(read, rest, group).value.0, []))
    ensures !OrFollows(GroupFrom(read, rest, group).value.1)
    decreases |rest|
  {
    if !OrFollows(rest) {
      taken := [];
    } else {
      var m := read(rest[1]).value;
      var more := GroupTakes(read, rest[2..], group + [m]);
      taken := [rest[0], rest[1]] + more;
      assert taken[0] == rest[0] && taken[1] == rest[1] && taken[2..] == more;
      assert rest == [rest[0], rest[1]] + rest[2..];
      LastOfPair(rest[0], rest[1], more);
    }
  }

  lemma GroupConsumes(rest: seq<string>, group: seq<Member>) returns (taken: seq<string>)
    requires ParseGroup(rest, group).Ok?
    ensures rest == taken + ParseGroup(rest, group).value.1 && !EndsWithOr(taken)
    ensures ParseGroup(taken, group) == Ok((ParseGroup(rest, group).value.0, []))
    ensures !OrFollows(ParseGroup(rest, group).value.1)
  {
    assert RefusesOr(ParseMember, rest);
    taken := GroupTakes(ParseMember, rest, group);
  }

  lemma LastOfPair(o: string, t: string, more: seq<string>)
    requires !EndsWithOr(more) && !IsOr(t)
    ensures !EndsWithOr([o, t] + more)
  {
    var all := [o, t] + more;
    assert all[|all| - 1] == if more == [] then t else more[|more| - 1];
  }

  /** The group that was read is read just the same when less follows it. */
  lemma GroupBefore(rest: seq<string>, group: seq<Member>, shorter: seq<string>)
    requires ParseGroup(rest, group).Ok? && !OrFollows(shorter)
    ensures var left := ParseGroup(rest, group).value.1;
            ParseGroup(rest[..|rest| - |left|] + shorter, group) == Ok((ParseGroup(rest, group).value.0, shorter))
  {
    var taken := GroupConsumes(rest, group);
    assert rest[..|rest| - |ParseGroup(rest, group).value.1|] == taken;
    GroupOfConcat(taken, shorter, group);
    assert [] + shorter == shorter;
  }

  /** A list, cut after its first clause and before its last token. */
  lemma CutList(t: string, rest: seq<string>, left: seq<string>)
    requires left != [] && |left| <= |rest| && rest[|rest| - |left|..] == left
    ensures [t] + rest == ([t] + (rest[..|rest| - |left|] + left[..|left| - 1])) + [left[|left| - 1]]
  {
    assert rest == rest[..|rest| - |left|] + left;
    assert left == left[..|left| - 1] + [left[|left| - 1]];
  }

  lemma NoLoneBeforeOr(t: string)
    requires !IsPositiveTag(t)
    ensures ParseLone(t, true).Err?
  {
  }

  lemma GroupClauseBefore(t: string, rest: seq<string>, left: seq<string>, shorter: seq<string>)
    requires IsPositiveTag(t) && ParseClause(t, rest).Ok? && ParseClause(t, rest).value.1 == left && left != []
    requires shorter == left[..|left| - 1]
    ensures var r := ParseClause(t, rest[..|rest| - |left|] + shorter); r.Ok? && r.value.1 == shorter
  {
    var first := ParsePositive(t).value;
    var _ := GroupConsumes(rest, [first]);
    GroupBefore(rest, [first], shorter);
  }

  lemma LoneClauseBefore(t: string, rest: seq<string>, shorter: seq<string>)
    requires !IsPositiveTag(t) && ParseClause(t, rest).Ok? && rest != [] && shorter == rest[..|rest| - 1]
    ensures var r := ParseClause(t, shorter); r.Ok? && r.value.1 == shorter
  {
    NoLoneBeforeOr(t);
    assert !OrFollows(shorter);
  }

  lemma ClauseParses(t: string, rest: seq<string>)
    requires ParseClause(t, rest).Ok? && ParseFrom(ParseClause(t, rest).value.1).Ok?
    ensures ParseTokens([t] + rest).Ok?
  {
    assert ([t] + rest)[1..] == rest;
  }

  /** A clause and a shorter rest parse if both do. */
  lemma ClauseBefore(t: string, rest: seq<string>, left: seq<string>, shorter: seq<string>)
    requires ParseClause(t, rest).Ok? && ParseClause(t, rest).value.1 == left && left != []
    requires shorter == left[..|left| - 1] && ParseFrom(shorter).Ok?
    ensures ParseTokens([t] + (rest[..|rest| - |left|] + shorter)).Ok?
  {
    var before := rest[..|rest| - |left|] + shorter;
    if IsPositiveTag(t) {
      GroupClauseBefore(t, rest, left, shorter);
    } else {
      assert before == shorter;
      LoneClauseBefore(t, rest, shorter);
    }
    ClauseParses(t, before);
  }

  /** What is left after a clause is the end of the list. */
  lemma ClauseLeaves(t: string, rest: seq<string>)
    requires ParseClause(t, rest).Ok?
    ensures var left := ParseClause(t, rest).value.1; rest[|rest| - |left|..] == left
  {
    if IsPositiveTag(t) {
      var taken := GroupConsumes(rest, [ParsePositive(t).value]);
      assert rest[|taken|..] == ParseClause(t, rest).value.1;
    }
  }

  /** A lone ending of a longer list is the lone ending of what its first clause leaves. */
  lemma LoneLater(a: seq<string>) returns (left: seq<string>)
    requires |a| > 1 && EndingOf(a).Lone?
    ensures ParseClause(a[0], a[1..]).Ok? && ParseClause(a[0], a[1..]).value.1 == left
    ensures left != [] && EndingOf(left).Lone? && EndingOf(left).last == EndingOf(a).last
  {
    left := ParseClause(a[0], a[1..]).value.1;
  }

  lemma AllButLastParses(left: seq<string>)
    requires EndsAlone(left)
    ensures ParseFrom(left[..|left| - 1]).Ok? && !IsPositiveTag(left[|left| - 1])
  {
  }

  lemma AloneAfter(before: seq<string>, last: string, a: seq<string>)
    requires a == before + [last] && !IsPositiveTag(last) && ParseTokens(before).Ok?
    ensures EndsAlone(a) && a[|a| - 1] == last
  {
    assert a[..|a| - 1] == before;
  }

  /** One clause in front changes nothing about how the list ends. */
  lemma EndsAloneLater(a: seq<string>, left: seq<string>)
    requires a != [] && ParseClause(a[0], a[1..]).Ok? && ParseClause(a[0], a[1..]).value.1 == left && left != []
    requires ParseFrom(left[..|left| - 1]).Ok? && !IsPositiveTag(left[|left| - 1])
    ensures EndsAlone(a) && a[|a| - 1] == left[|left| - 1]
  {
    var t, rest, shorter := a[0], a[1..], left[..|left| - 1];
    ClauseLeaves(t, rest);
    CutList(t, rest, left);
    ClauseBefore(t, rest, left, shorter);
    assert a == [t] + rest;
    AloneAfter([t] + (rest[..|rest| - |left|] + shorter), left[|left| - 1], a);
  }

  /** A lone ending is the last token, after a list that parses. */
  lemma {:induction false} LoneEndsAlone(a: seq<string>)
    requires a != [] && EndingOf(a).Lone?
    ensures EndsAlone(a) && EndingOf(a).last == a[|a| - 1]
    decreases |a|
  {
    if |a| > 1 {
      var left := LoneLater(a);
      LoneEndsAlone(left);
      AllButLastParses(left);
      EndsAloneLater(a, left);
    }
  }

  /** And the other way round. */
  lemma {:induction false} AloneIsLone(before: seq<string>, t: string)
    requires !IsPositiveTag(t) && !IsOr(t) && ParseFrom(before).Ok?
    ensures EndingOf(before + [t]).Lone?
    decreases |before|
  {
    if before == [] {
      assert before + [t] == [t];
    } else {
      var head, rest := before[0], before[1..];
      var all := before + [t];
      assert all[0] == head && all[1..] == rest + [t];
      assert OrFollows(rest + [t]) == OrFollows(rest);
      if EndsWithOr(before) {
        ParsedDoesNotDangle(before);
      }
      assert EndsWithOr(rest) ==> EndsWithOr(before);
      var left := ParseClause(head, rest).value.1;
      if IsPositiveTag(head) {
        GroupOfConcat(rest, [t], [ParsePositive(head).value]);
      }
      AloneIsLone(left, t);
    }
  }

  lemma LoneIsAlone(a: seq<string>)
    requires a != [] && !EndsWithOr(a)
    ensures EndingOf(a).Lone? <==> EndsAlone(a)
  {
    var before, last := a[..|a| - 1], a[|a| - 1];
    assert a == before + [last];
    if EndingOf(a).Lone? {
      LoneEndsAlone(a);
    } else if EndsAlone(a) {
      AllButLastParses(a);
      AloneAtEnd(before, last, a);
    }
  }

  lemma AloneAtEnd(before: seq<string>, t: string, a: seq<string>)
    requires a == before + [t] && !IsPositiveTag(t) && !IsOr(t) && ParseFrom(before).Ok?
    ensures EndingOf(a).Lone?
  {
    AloneIsLone(before, t);
  }

  // ---- When the law holds --------------------------------------------------

  /** After an `or`: nothing, no member, or a member in tokens that are a dangling `or` themselves. */
  predicate Dangles(b: seq<string>) {
    || b == [] || IsOr(b[0]) || StartsWith(b[0], '-')
    || (ParseMember(b[0]).Ok? && ParseTokens(b) == Err(BadQuery(DANGLING_OR)))
  }

  /** A term that is read otherwise, or refused for another reason, when an `or` follows. */
  predicate MindsOr(t: string) {
    && !IsPositiveTag(t) && !IsOr(t)
    && if StartsWith(t, '-') then ParseNegated(t[1..]).Err? else !StartsWith(StripExact(t).0, '-')
  }

  /**
   * The seam shows: an `or` on either side of it joins a tag or group before it to what comes after,
   * or an `or` after it meets a term that minds.
   */
  predicate SeamShows(a: seq<string>, b: seq<string>)
    requires a != [] && b != []
  {
    if EndsWithOr(a) then CanBeJoined(a[..|a| - 1]) && !Dangles(b)
    else IsOr(b[0]) && ((CanBeJoined(a) && !Dangles(b[1..])) || (EndsAlone(a) && MindsOr(a[|a| - 1])))
  }

  lemma MemberErrors(t: string)
    ensures ParseMember(t) == Err(BadQuery(DANGLING_OR)) <==> IsOr(t) || StartsWith(t, '-')
    ensures ParseMember(t).Ok? ==> IsPositiveTag(t) && ParsePositive(t) == ParseMember(t)
  {
    assert |LATE_DASH| != |DANGLING_OR| && |SYSTEM_IN_OR| != |DANGLING_OR| && |WILD_IN_OR| != |DANGLING_OR|;
  }

  lemma NegatedErrors(rest: string)
    ensures ParseNegated(rest) != Err(BadQuery(DANGLING_OR))
  {
    assert |EXACT_SYSTEM| != |DANGLING_OR|;
  }

  lemma AloneErrors(t: string)
    requires !IsPositiveTag(t) && !IsOr(t) && !StartsWith(t, '-') && !StartsWith(StripExact(t).0, '-')
    ensures ParseLone(t, true).Err? && ParseLone(t, true).error != BadQuery(DANGLING_OR)
    ensures ParseLone(t, true) != ParseLone(t, false)
  {
    assert |SYSTEM_IN_OR| != |DANGLING_OR| && |WILD_IN_OR| != |DANGLING_OR| && |EXACT_SYSTEM| != |SYSTEM_IN_OR|;
  }

  /** Whether a lone term before an `or` is refused as it would be on its own, or else for the `or`. */
  lemma MindsOrExactly(t: string)
    requires !IsPositiveTag(t) && !IsOr(t)
    ensures ParseLone(t, true).Err?
    ensures var alone := ParseLone(t, false);
            MindsOr(t) <==> ParseLone(t, true).error != if alone.Ok? then BadQuery(DANGLING_OR) else alone.error
  {
    if StartsWith(t, '-') {
      NegatedErrors(t[1..]);
    } else if !StartsWith(StripExact(t).0, '-') {
      AloneErrors(t);
    }
  }

  /** Members read after others are the same members. */
  lemma {:induction false} GroupAfter(read: string -> Result<Member, Error>, rest: seq<string>, before: seq<Member>,
                                      group: seq<Member>)
    ensures var r := GroupFrom(read, rest, group);
            GroupFrom(read, rest, before + group) == if r.Err? then r else Ok((before + r.value.0, r.value.1))
    decreases |rest|
  {
    if OrFollows(rest) && |rest| >= 2 && read(rest[1]).Ok? {
      var m := read(rest[1]).value;
      GroupAfter(read, rest[2..], before, group + [m]);
      assert before + (group + [m]) == (before + group) + [m];
    }
  }

  /** A group continued by `or` and `b` fails for a dangling `or` exactly when `b` dangles. */
  lemma JoinedDangles(group: seq<Member>, o: string, b: seq<string>)
    requires group != [] && IsOr(o)
    ensures GroupThen(group, [o] + b) == Err(BadQuery(DANGLING_OR)) <==> Dangles(b)
  {
    var all := [o] + b;
    assert all[0] == o && all[1..] == b;
    if b != [] {
      MemberErrors(b[0]);
      if ParseMember(b[0]).Ok? {
        JoinedParses(group, o, b, ParseMember(b[0]).value);
      }
    }
  }

  lemma JoinedParses(group: seq<Member>, o: string, b: seq<string>, m: Member)
    requires group != [] && IsOr(o) && b != [] && ParseMember(b[0]) == Ok(m)
    ensures var r := ParseTokens(b);
            var joined := GroupThen(group, [o] + b);
            (joined.Err? <==> r.Err?) && (r.Err? ==> joined == r)
  {
    MemberErrors(b[0]);
    assert b == [b[0]] + b[1..] && [o] + b == [o, b[0]] + b[1..];
    GroupStartsWith(o, b[0], m, b[1..], group);
    GroupAfter(ParseMember, b[1..], group, [m]);
  }

  lemma GroupStartsWith(o: string, t: string, m: Member, rest: seq<string>, group: seq<Member>)
    requires IsOr(o) && ParseMember(t) == Ok(m)
    ensures ParseGroup([o, t] + rest, group) == ParseGroup(rest, group + [m])
  {
    var all := [o, t] + rest;
    assert all[0] == o && all[1] == t && all[2..] == rest;
  }

  // ---- A list that ends with `or` twice ------------------------------------

  lemma {:induction false} GroupStuck(read: string -> Result<Member, Error>, a: seq<string>, r: seq<string>,
                                      s: seq<string>, group: seq<Member>)
    returns (left: seq<string>)
    requires EndsWithOr(a) && OrFollows(r) && OrFollows(s) && RefusesOr(read, a) && RefusesOr(read, [r[0]])
             && RefusesOr(read, [s[0]])
    requires read(r[0]) == read(s[0])
    ensures var x := GroupFrom(read, a + r, group);
            var y := GroupFrom(read, a + s, group);
            if x.Err? then y == x
            else EndsWithOr(left) && |left| <= |a| && x == Ok((x.value.0, left + r)) && y == Ok((x.value.0, left + s))
    decreases |a|
  {
    left := a;
    var ar, as' := a + r, a + s;
    assert ar[0] == a[0] && as'[0] == a[0];
    if IsOr(a[0]) {
      if |a| == 1 {
        assert ar[1] == r[0] && as'[1] == s[0];
        assert IsOr([r[0]][0]) && read([r[0]][0]).Err?;
      } else {
        assert ar[1] == a[1] && as'[1] == a[1] && ar[2..] == a[2..] + r && as'[2..] == a[2..] + s;
        if read(a[1]).Ok? {
          assert |a| > 2 && a[2..][|a| - 3] == a[|a| - 1];
          left := GroupStuck(read, a[2..], r, s, group + [read(a[1]).value]);
        }
      }
    }
  }

  lemma {:induction false} StuckAfterOr(a: seq<string>, r: seq<string>, s: seq<string>)
    requires EndsWithOr(a) && OrFollows(r) && OrFollows(s)
    ensures ParseFrom(a + r) == ParseFrom(a + s)
    decreases |a|
  {
    var t, rest := a[0], a[1..];
    assert (a + r)[0] == t && (a + r)[1..] == rest + r && (a + s)[0] == t && (a + s)[1..] == rest + s;
    assert rest != [] ==> rest[|rest| - 1] == a[|a| - 1];
    if IsPositiveTag(t) {
      if ParsePositive(t).Ok? {
        assert ParseMember(r[0]) == ParseMember(s[0]) == Err(BadQuery(DANGLING_OR));
        var left := GroupStuck(ParseMember, rest, r, s, [ParsePositive(t).value]);
        if ParseGroup(rest + r, [ParsePositive(t).value]).Ok? {
          StuckAfterOr(left, r, s);
        }
      }
    } else {
      assert OrFollows(rest + r) == OrFollows(rest + s);
      if rest != [] {
        StuckAfterOr(rest, r, s);
      } else {
        NoLoneBeforeOr(t);
        assert rest + r == r && rest + s == s;
      }
    }
  }

  // ---- The law -------------------------------------------------------------

  predicate LawHolds(a: seq<string>, b: seq<string>) {
    ParseTokens(a + b) == Both(ParseTokens(a), ParseTokens(b))
  }

  /** The first list ends with `or`. */
  lemma LawAfterOr(a: seq<string>, b: seq<string>)
    requires a != [] && b != [] && EndsWithOr(a)
    ensures LawHolds(a, b) <==> !SeamShows(a, b)
  {
    var before, o := a[..|a| - 1], a[|a| - 1];
    var all := [o] + b;
    assert a == before + [o] && a + b == before + all;
    ParsedDoesNotDangle(a);
    if before == [] {
      assert a[0] == o && (a + b)[0] == o;
    } else if EndsWithOr(before) {
      StuckAfterOr(before, [o], all);
      ParsedDoesNotDangle(before);
    } else {
      ContinuedByEnding(before, [o]);
      ContinuedByEnding(before, all);
      OpenIsJoinable(before);
      var e := EndingOf(before);
      if e.Lone? {
        NoLoneBeforeOr(e.last);
      } else if e.Open? {
        JoinedDangles(e.group, o, []);
        assert [o] + [] == [o];
        JoinedDangles(e.group, o, b);
      }
    }
  }

  /** A last term refused before an `or`, against the same term alone and then a dangling `or`. */
  lemma RefusedThen(done: seq<Predicate>, before: Result<Predicate, Error>, alone: Result<Predicate, Error>,
                    dangling: Error)
    requires before.Err?
    ensures Prepend(done, OneOf(before)) == Both(Prepend(done, OneOf(alone)), Err(dangling)) <==>
              before.error == if alone.Ok? then dangling else alone.error
  {
  }

  lemma LoneBeforeOr(a: seq<string>, b: seq<string>, e: Ending)
    requires a != [] && !EndsWithOr(a) && OrFollows(b) && e == EndingOf(a) && e.Lone? && !IsOr(e.last)
    ensures LawHolds(a, b) <==> !MindsOr(e.last)
  {
    ParsedByEnding(a);
    ContinuedByEnding(a, b);
    MindsOrExactly(e.last);
    RefusedThen(e.done, ParseLone(e.last, true), ParseLone(e.last, false), BadQuery(DANGLING_OR));
  }

  lemma OpenBeforeOr(a: seq<string>, b: seq<string>)
    requires a != [] && !EndsWithOr(a) && OrFollows(b) && EndingOf(a).Open?
    ensures CanBeJoined(a) && !EndsAlone(a)
    ensures LawHolds(a, b) <==> Dangles(b[1..])
  {
    ParsedByEnding(a);
    ContinuedByEnding(a, b);
    OpenIsJoinable(a);
    LoneIsAlone(a);
    assert b == [b[0]] + b[1..];
    JoinedDangles(EndingOf(a).group, b[0], b[1..]);
  }

  /** Only the second list starts with `or`. */
  lemma LawBeforeOr(a: seq<string>, b: seq<string>)
    requires a != [] && b != [] && !EndsWithOr(a) && IsOr(b[0])
    ensures LawHolds(a, b) <==> !SeamShows(a, b)
  {
    var e := EndingOf(a);
    if e.Lone? {
      OpenIsJoinable(a);
      LoneIsAlone(a);
      LoneEndsAlone(a);
      LoneBeforeOr(a, b, e);
    } else if e.Open? {
      OpenBeforeOr(a, b);
    } else {
      ParsedByEnding(a);
      ContinuedByEnding(a, b);
      OpenIsJoinable(a);
      LoneIsAlone(a);
    }
  }

  /**
   * Parsing one list after another is parsing both, errors included, if and only if the seam does
   * not show.
   */
  lemma QueryOfConcatIff(a: seq<string>, b: seq<string>)
    requires a != [] && b != []
    ensures ParseTokens(a + b) == Both(ParseTokens(a), ParseTokens(b)) <==> !SeamShows(a, b)
  {
    if EndsWithOr(a) {
      LawAfterOr(a, b);
    } else if IsOr(b[0]) {
      LawBeforeOr(a, b);
    } else {
      QueryOfConcat(a, b);
    }
  }

  /** For a second list that parses, the law fails exactly for a joinable list and an `or` before no dash. */
  lemma ParsedContinuation(a: seq<string>, b: seq<string>)
    requires a != [] && ParseTokens(b).Ok?
    ensures ParseTokens(a + b) == Both(ParseTokens(a), ParseTokens(b)) <==>
              !(EndsWithOr(a) && CanBeJoined(a[..|a| - 1]) && !StartsWith(b[0], '-'))
  {
    QueryOfConcatIff(a, b);
  }

  /** So between two plain tags the `or` joins them, where the parse of the first list is an error. */
  lemma OrReachesAcross(x: string, y: string)
    requires IsPositiveTag(x) && ParsePositive(x).Ok? && IsPositiveTag(y) && ParsePositive(y).Ok?
    ensures ParseTokens([x, "or"] + [y]) == Ok([Or([ParsePositive(x).value, ParsePositive(y).value])])
    ensures ParseTokens([x, "or"]) == Err(BadQuery(DANGLING_OR))
  {
    var m, n := ParsePositive(x).value, ParsePositive(y).value;
    var all := [x, "or"] + [y];
    assert IsOr("or") && all[0] == x && all[1..] == ["or", y] && [x, "or"][1..] == ["or"];
    GroupStartsWith("or", y, n, [], [m]);
    assert ["or", y] + [] == ["or", y] && [m] + [n] == [m, n];
    assert ParseClause(x, ["or", y]) == Ok((Or([m, n]), []));
    PrependToNone(Or([m, n]));
  }
}
