/**
 * What the text of a tag or a wildcard means, for every text: how blanks, case, colons and stars are
 * read (crates/core/src/tag.rs, crates/core/src/query.rs).
 */
module TagTexts {
  import opened Wrappers
  import opened Strings
  import opened Tags
  import opened Patterns

  // ---- Blanks --------------------------------------------------------------

  /** Which ASCII characters are blanks; none that can be seen is. */
  lemma AsciiBlanks(c: char)
    requires c as int < 128
    ensures IsSpace(c) <==> c as int in [9, 10, 11, 12, 13, 32]
    ensures IsSpace(c) ==> c < '!'
  {
    var codes := [9, 10, 11, 12, 13, 32];
    assert codes[0] == 9 && codes[1] == 10 && codes[2] == 11 && codes[3] == 12 && codes[4] == 13 && codes[5] == 32;
  }

  lemma {:induction false} WordBefore(a: string, rest: string)
    requires a != "" && !IsSpace(a[0])
    requires rest != "" && IsSpace(rest[0])
    ensures Word(a + rest) == Word(a)
  {
    assert (a + rest)[1..] == a[1..] + rest;
    if |a| > 1 && !IsSpace(a[1]) {
      WordBefore(a[1..], rest);
    }
  }

  /** The words of two texts with a blank between them. */
  lemma {:induction false} WordsOfConcat(a: string, c: char, b: string)
    requires IsSpace(c)
    ensures Words(a + [c] + b) == Words(a) + Words(b)
    decreases |a|
  {
    var s := a + [c] + b;
    if a == "" {
      assert s[0] == c && s[1..] == b;
    } else if IsSpace(a[0]) {
      assert s[0] == a[0] && s[1..] == a[1..] + [c] + b;
      WordsOfConcat(a[1..], c, b);
    } else {
      var n := |Word(a)|;
      assert s == a + ([c] + b);
      WordBefore(a, [c] + b);
      assert s[n..] == a[n..] + [c] + b;
      WordsOfConcat(a[n..], c, b);
      assert Words(s) == [Word(a)] + (Words(a[n..]) + Words(b));
    }
  }

  lemma {:induction false} JoinOfConcat(a: seq<string>, b: seq<string>)
    ensures Join(a + b) == if a == [] then Join(b) else if b == [] then Join(a) else Join(a) + " " + Join(b)
  {
    if a == [] {
      assert a + b == b;
    } else if b == [] {
      assert a + b == a;
    } else if |a| == 1 {
      assert (a + b)[1..] == b;
    } else {
      assert (a + b)[1..] == a[1..] + b;
      JoinOfConcat(a[1..], b);
      assert a[0] + " " + (Join(a[1..]) + " " + Join(b)) == (a[0] + " " + Join(a[1..])) + " " + Join(b);
    }
  }

  function OneBlank(a: string, b: string): string {
    if a == "" then b else if b == "" then a else a + " " + b
  }

  /** Normalized text: one word is lower-cased, and any blanks between two parts become one space. */
  lemma NormalizeOfConcat(a: string, c: char, b: string)
    requires IsSpace(c)
    ensures Normalize(a + [c] + b) == OneBlank(Normalize(a), Normalize(b))
  {
    WordsOfConcat(a, c, b);
    JoinOfConcat(Words(a), Words(b));
    JoinIsTrimmed(Words(a));
    JoinIsTrimmed(Words(b));
    LowerAroundBlank(Join(Words(a)), Join(Words(b)));
  }

  lemma LowerAroundBlank(x: string, y: string)
    ensures Lower(x + " " + y) == Lower(x) + " " + Lower(y)
  {
    LowerOfConcat(x + " ", y);
    LowerOfConcat(x, " ");
    assert Lower(" ") == " ";
  }

  lemma NormalizeOfWord(w: string)
    requires IsWord(w)
    ensures Normalize(w) == Lower(w) && Normalize("") == ""
  {
    WordThenBlank(w, "");
    assert w + "" == w;
    assert Words(w) == [w] + Words(w[|w|..]);
  }

  lemma {:induction false} TrimStartCuts(s: string) returns (blanks: string)
    ensures s == blanks + TrimStart(s) && Blank(blanks)
  {
    if s != "" && IsSpace(s[0]) {
      var rest := TrimStartCuts(s[1..]);
      blanks := [s[0]] + rest;
    } else {
      blanks := "";
    }
  }

  lemma {:induction false} TrimEndCuts(s: string) returns (blanks: string)
    ensures s == TrimEnd(s) + blanks && Blank(blanks)
  {
    if s != "" && IsSpace(s[|s| - 1]) {
      var n := |s| - 1;
      var rest := TrimEndCuts(s[..n]);
      blanks := rest + [s[n]];
      assert s == s[..n] + [s[n]];
    } else {
      blanks := "";
    }
  }

  /** Trimming takes away blanks at both ends, and all of them. */
  lemma TrimCuts(s: string) returns (before: string, after: string)
    ensures s == before + Trim(s) + after && Blank(before) && Blank(after) && Trimmed(Trim(s))
  {
    before := TrimStartCuts(s);
    after := TrimEndCuts(TrimStart(s));
    TrimTrims(s);
  }

  lemma {:induction false} WordsAfterBlanks(blanks: string, s: string)
    requires Blank(blanks)
    ensures Words(blanks + s) == Words(s)
    decreases |blanks|
  {
    if blanks == "" {
      assert blanks + s == s;
    } else {
      assert (blanks + s)[1..] == blanks[1..] + s;
      WordsAfterBlanks(blanks[1..], s);
    }
  }

  lemma BlanksHaveNoWords(blanks: string)
    requires Blank(blanks)
    ensures Words(blanks) == []
  {
    NoWords(blanks);
  }

  lemma WordsBeforeBlanks(s: string, blanks: string)
    requires Blank(blanks)
    ensures Words(s + blanks) == Words(s)
  {
    if blanks == "" {
      assert s + blanks == s;
    } else {
      assert s + blanks == s + [blanks[0]] + blanks[1..];
      WordsOfConcat(s, blanks[0], blanks[1..]);
      BlanksHaveNoWords(blanks[1..]);
      assert Words(s) + [] == Words(s);
    }
  }

  lemma NormalizeTrimmed(s: string)
    ensures Normalize(TrimStart(s)) == Normalize(s) && Normalize(TrimEnd(s)) == Normalize(s)
  {
    var before := TrimStartCuts(s);
    WordsAfterBlanks(before, TrimStart(s));
    var after := TrimEndCuts(s);
    WordsBeforeBlanks(TrimEnd(s), after);
  }

  // ---- Colons --------------------------------------------------------------

  lemma {:induction false} TrimStartOf(a: string, rest: string)
    requires rest != "" && !IsSpace(rest[0])
    ensures TrimStart(a + rest) == TrimStart(a) + rest
  {
    if a == "" {
      assert a + rest == rest;
    } else if IsSpace(a[0]) {
      assert (a + rest)[1..] == a[1..] + rest;
      TrimStartOf(a[1..], rest);
    }
  }

  lemma {:induction false} TrimEndOf(front: string, b: string)
    requires front != "" && !IsSpace(front[|front| - 1])
    ensures TrimEnd(front + b) == front + TrimEnd(b)
  {
    if b == "" {
      assert front + b == front;
    } else if IsSpace(b[|b| - 1]) {
      assert (front + b)[..|front + b| - 1] == front + b[..|b| - 1];
      TrimEndOf(front, b[..|b| - 1]);
    }
  }

  lemma TrimAroundColon(a: string, b: string)
    ensures Trim(a + ":" + b) == TrimStart(a) + ":" + TrimEnd(b)
  {
    assert a + ":" + b == a + (":" + b);
    TrimStartOf(a, ":" + b);
    assert TrimStart(a) + (":" + b) == (TrimStart(a) + ":") + b;
    TrimEndOf(TrimStart(a) + ":", b);
  }

  lemma BlankStart(a: string)
    ensures TrimStart(a) == "" <==> Blank(a)
    ensures TrimStart(a) != "" ==> TrimStart(a)[0] in a
  {
    var before := TrimStartCuts(a);
    TrimStartStops(a);
    if TrimStart(a) != "" {
      assert a[|before|] == TrimStart(a)[0];
    }
  }

  lemma ColonThroughTrims(a: string, b: string)
    ensures ':' in TrimStart(a) <==> ':' in a
    ensures ':' in TrimEnd(b) <==> ':' in b
  {
    TrimStartKeeps(a, ':');
    TrimEndKeeps(b, ':');
  }

  /** A text with a colon after something: both halves are normalized, and the second may not be blank. */
  lemma NamespacedText(a: string, b: string)
    requires ':' !in a && !Blank(a)
    ensures ParseTag(a + ":" + b) ==
              if Blank(b) then Err(EmptyTag(a + ":" + b)) else Ok(Tag(Normalize(a), Normalize(b)))
  {
    var t := TrimStart(a) + ":" + TrimEnd(b);
    TrimAroundColon(a, b);
    BlankStart(a);
    ColonThroughTrims(a, b);
    assert t[0] == TrimStart(a)[0];
    SplitAt(TrimStart(a), TrimEnd(b));
    NormalizeTrimmed(a);
    NormalizeTrimmed(b);
    BlankOrNot(b);
  }

  /** A text that starts with a colon has no namespace; the colon is dropped if there is another. */
  lemma LeadingColonText(a: string, b: string)
    requires Blank(a)
    ensures ParseTag(a + ":" + b) == Ok(Tag("", Normalize(if ':' in b then b else ":" + b)))
  {
    var t := TrimStart(a) + ":" + TrimEnd(b);
    TrimAroundColon(a, b);
    BlankStart(a);
    ColonThroughTrims(a, b);
    assert t[0] == ':' && t[1..] == TrimEnd(b);
    NormalizeTrimmed(b);
    TrimEndOf(":", b);
    NormalizeTrimmed(":" + b);
    assert t == ":" + TrimEnd(b);
    if ':' in b {
      MarkSurvives(b, ':');
    } else {
      MarkSurvives(":" + b, ':');
    }
  }

  /** A text without a colon is all subtag. */
  lemma BareText(s: string)
    requires ':' !in s
    ensures ParseTag(s) == if Blank(s) then Err(EmptyTag(s)) else Ok(Tag("", Normalize(s)))
  {
    var t := Trim(s);
    TrimTrims(s);
    assert t != "" ==> t[0] in t;
    NormalizeTrimmed(s);
    NormalizeTrimmed(TrimStart(s));
    BlankOrNot(s);
  }

  // ---- Stars ---------------------------------------------------------------

  lemma NormalizeOfTrim(s: string)
    ensures Normalize(Trim(s)) == Normalize(s)
  {
    NormalizeTrimmed(TrimStart(s));
    NormalizeTrimmed(s);
  }

  /** A wildcard with a namespace: no star in front of the colon, one behind it, both halves normalized. */
  lemma NamespacedPattern(a: string, b: string)
    requires ':' !in a
    ensures ParsePattern(a + ":" + b) ==
              if Blank(a) || '*' in a || '*' !in b then Err(BadPattern(a + ":" + b))
              else if OnlyStars(Normalize(b)) then Ok(NamespaceAny(Normalize(a)))
              else Ok(NamespaceGlob(Normalize(a), Normalize(b)))
  {
    SplitAt(a, b);
    TrimTrims(b);
    NormalizeOfTrim(b);
    BlankOrNot(a);
  }

  /** A wildcard without one: a star, and something beside stars. */
  lemma BarePattern(s: string)
    requires ':' !in s
    ensures ParsePattern(s) ==
              if '*' !in s || OnlyStars(Normalize(s)) then Err(BadPattern(s)) else Ok(AnyNamespaceGlob(Normalize(s)))
  {
    TrimTrims(s);
    NormalizeOfTrim(s);
  }

  // ---- Case ----------------------------------------------------------------

  /** The same character, or the two cases of one letter. */
  predicate SameLetter(a: char, b: char) {
    || a == b
    || ('A' <= a <= 'Z' && b as int == a as int + 32)
    || ('A' <= b <= 'Z' && a as int == b as int + 32)
  }

  predicate SameButCase(s: string, u: string) {
    |s| == |u| && forall i :: 0 <= i < |s| ==> SameLetter(s[i], u[i])
  }

  lemma SameLower(s: string, u: string)
    requires SameButCase(s, u)
    ensures Lower(s) == Lower(u)
  {
    forall i | 0 <= i < |s|
      ensures Lower(s)[i] == Lower(u)[i]
    {
      assert SameLetter(s[i], u[i]);
    }
  }

  lemma SpaceThroughLower(c: char)
    ensures IsSpace(LowerChar(c)) <==> IsSpace(c)
  {
  }

  lemma LowerRest(s: string, n: nat)
    requires n <= |s|
    ensures Lower(s[n..]) == Lower(s)[n..] && Lower(s[..n]) == Lower(s)[..n]
  {
  }

  lemma {:induction false} WordThroughLower(s: string)
    ensures Word(Lower(s)) == Lower(Word(s))
  {
    if s != "" && !IsSpace(s[0]) {
      SpaceThroughLower(s[0]);
      WordThroughLower(s[1..]);
      LowerRest(s, 1);
    } else if s != "" {
      SpaceThroughLower(s[0]);
    }
  }

  lemma {:induction false} WordsThroughLower(s: string)
    ensures Words(Lower(s)) == LowerAll(Words(s))
    decreases |s|
  {
    if s != "" {
      SpaceThroughLower(s[0]);
      if IsSpace(s[0]) {
        LowerRest(s, 1);
        WordsThroughLower(s[1..]);
      } else {
        var n := |Word(s)|;
        WordThroughLower(s);
        LowerRest(s, n);
        WordsThroughLower(s[n..]);
        assert LowerAll([Word(s)] + Words(s[n..])) == [Lower(Word(s))] + LowerAll(Words(s[n..]));
      }
    }
  }

  lemma NormalizeThroughLower(s: string)
    ensures Normalize(Lower(s)) == Normalize(s)
  {
    WordsThroughLower(s);
    LowerOfJoin(Words(s));
    LowerOfJoin(LowerAll(Words(s)));
    LowerTwice(Join(Words(s)));
  }

  lemma ColonThroughLower(s: string)
    ensures ':' in Lower(s) <==> ':' in s
  {
    MarkThroughLower(s, ':');
  }

  /** Lower-casing a text first changes nothing about the tag. */
  lemma LoweredParsesAlike(s: string)
    ensures ParseTag(s).Ok? <==> ParseTag(Lower(s)).Ok?
    ensures ParseTag(s).Ok? ==> ParseTag(Lower(s)) == ParseTag(s)
  {
    if ':' !in s {
      ColonThroughLower(s);
      BareText(s);
      BareText(Lower(s));
      NormalizeThroughLower(s);
      BlankThroughLower(s);
    } else {
      var (a, b) := SplitOnce(s).value;
      LowerAroundColon(a, b);
      if Blank(a) {
        LeadingColonsAlike(a, b);
      } else {
        NamespacedAlike(a, b);
      }
    }
  }

  lemma BlankThroughLower(s: string)
    ensures Blank(Lower(s)) <==> Blank(s)
  {
    BlankOrNot(s);
    BlankOrNot(Lower(s));
    NormalizeThroughLower(s);
  }

  lemma LowerAroundColon(a: string, b: string)
    ensures Lower(a + ":" + b) == Lower(a) + ":" + Lower(b)
  {
    LowerOfConcat(a + ":", b);
    LowerOfConcat(a, ":");
  }

  lemma LeadingColonsAlike(a: string, b: string)
    requires Blank(a)
    ensures ParseTag(Lower(a) + ":" + Lower(b)) == ParseTag(a + ":" + b) && ParseTag(a + ":" + b).Ok?
  {
    ColonThroughLower(b);
    BlankThroughLower(a);
    NormalizeThroughLower(b);
    LeadingColonText(a, b);
    LeadingColonText(Lower(a), Lower(b));
    LowerOfConcat(":", b);
    NormalizeThroughLower(":" + b);
    assert Lower(":") == ":";
  }

  lemma NamespacedAlike(a: string, b: string)
    requires ':' !in a && !Blank(a)
    ensures var r, l := ParseTag(a + ":" + b), ParseTag(Lower(a) + ":" + Lower(b));
            (r.Ok? <==> l.Ok?) && (r.Ok? ==> l == r)
  {
    ColonThroughLower(a);
    BlankThroughLower(a);
    BlankThroughLower(b);
    NormalizeThroughLower(a);
    NormalizeThroughLower(b);
    NamespacedText(a, b);
    NamespacedText(Lower(a), Lower(b));
  }

  /** Texts that differ only in case are both refused or are the same tag. */
  lemma CaseDoesNotMatter(s: string, u: string)
    requires SameButCase(s, u)
    ensures ParseTag(s).Ok? <==> ParseTag(u).Ok?
    ensures ParseTag(s).Ok? ==> ParseTag(u) == ParseTag(s)
  {
    SameLower(s, u);
    LoweredParsesAlike(s);
    LoweredParsesAlike(u);
  }

  predicate HasCapital(s: string) {
    exists i :: 0 <= i < |s| && 'A' <= s[i] <= 'Z'
  }

  lemma LowerHasNoCapital(s: string)
    ensures !HasCapital(Lower(s))
  {
  }

  /** A parsed tag holds no capital letter. */
  lemma ParsedHasNoCapital(s: string)
    ensures ParseTag(s).Ok? ==> !HasCapital(ParseTag(s).value.namespace) && !HasCapital(ParseTag(s).value.subtag)
  {
    ParsedIsWellFormed(s);
    if ParseTag(s).Ok? {
      LowerHasNoCapital(Join(Words(ParseTag(s).value.namespace)));
      LowerHasNoCapital(Join(Words(ParseTag(s).value.subtag)));
    }
  }
}
