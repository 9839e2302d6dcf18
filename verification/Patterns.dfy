/** Wildcard tag patterns (crates/core/src/query.rs). */
module Patterns {
  import opened Wrappers
  import opened Tags

  datatype TagPattern =
    | NamespaceAny(namespace: string)
    | NamespaceGlob(namespace: string, glob: string)
    | AnyNamespaceGlob(glob: string)

  predicate OnlyStars(s: string) {
    forall i :: 0 <= i < |s| ==> s[i] == '*'
  }

  function ParsePattern(s: string): Result<TagPattern, Error> {
    var (before, after, namespaced) :=
      match SplitOnce(s)
      case Some((front, back)) => (front, back, true)
      case None => ("", s, false);
    var sub := Trim(after);
    if '*' in before || '*' !in sub then Err(BadPattern(s))
    else
      var namespace, glob := Normalize(before), Normalize(sub);
      if namespaced then
        if namespace == "" then Err(BadPattern(s))
        else if OnlyStars(glob) then Ok(NamespaceAny(namespace))
        else Ok(NamespaceGlob(namespace, glob))
      else if OnlyStars(glob) then Err(BadPattern(s))
      else Ok(AnyNamespaceGlob(glob))
  }

  function ShowPattern(p: TagPattern): string {
    match p
    case NamespaceAny(namespace) => namespace + ":*"
    case NamespaceGlob(namespace, glob) => namespace + ":" + glob
    case AnyNamespaceGlob(glob) => glob
  }

  /** A namespace as a pattern can have it. */
  predicate PlainNamespace(namespace: string) {
    Normal(namespace) && namespace != "" && ':' !in namespace && '*' !in namespace
  }

  /** A star and something to anchor on. */
  predicate Anchored(glob: string) {
    Normal(glob) && '*' in glob && !OnlyStars(glob)
  }

  /** The patterns that can be written. */
  predicate WellFormedPattern(p: TagPattern) {
    match p
    case NamespaceAny(namespace) => PlainNamespace(namespace)
    case NamespaceGlob(namespace, glob) => PlainNamespace(namespace) && Anchored(glob)
    case AnyNamespaceGlob(glob) => Anchored(glob) && ':' !in glob
  }

  lemma ParsedPatternIsWellFormed(s: string)
    ensures ParsePattern(s).Ok? ==> WellFormedPattern(ParsePattern(s).value)
  {
    var front, back := "", s;
    if SplitOnce(s).Some? {
      front, back := SplitOnce(s).value.0, SplitOnce(s).value.1;
    }
    var sub := Trim(back);
    TrimTrims(back);
    NormalizeIdempotent(front);
    NormalizeIdempotent(sub);
    MarkSurvives(front, ':');
    MarkSurvives(front, '*');
    MarkSurvives(sub, '*');
    MarkSurvives(sub, ':');
  }

  /** A pattern text, padded or not, parses by its halves. */
  lemma ParseNamespaced(front: string, namespace: string, glob: string)
    requires ':' !in front && '*' !in front && Normalize(front) == namespace && namespace != ""
    requires Normal(glob) && '*' in glob
    ensures ParsePattern(front + ":" + glob)
         == Ok(if OnlyStars(glob) then NamespaceAny(namespace) else NamespaceGlob(namespace, glob))
  {
    SplitAt(front, glob);
    NormalIsTrimmed(glob);
  }

  lemma PaddedWords(s: string)
    ensures Normalize(" " + s) == Normalize(s)
  {
    assert (" " + s)[1..] == s;
  }

  lemma StarIsNormal()
    ensures Normal("*")
  {
    assert Word("*") == "*";
    assert Words("*") == ["*"];
  }

  /** Text that may stand in front of a printed term. */
  predicate IsPad(pad: string) {
    pad == "" || pad == " "
  }

  lemma PadVanishes(pad: string, s: string)
    requires IsPad(pad)
    ensures Normalize(pad + s) == Normalize(s) && (Trimmed(s) ==> Trim(pad + s) == s)
  {
    if pad == "" {
      assert pad + s == s;
      TrimTrims(s);
    } else {
      PaddedWords(s);
      if Trimmed(s) {
        TrimPadded(s);
      }
    }
  }

  lemma ParseUnsplit(s: string, glob: string)
    requires ':' !in s && Trim(s) == glob && Anchored(glob)
    ensures ParsePattern(s) == Ok(AnyNamespaceGlob(glob))
  {
  }

  lemma ParseBare(pad: string, glob: string)
    requires IsPad(pad) && Anchored(glob) && ':' !in glob
    ensures ParsePattern(pad + glob) == Ok(AnyNamespaceGlob(glob))
  {
    PadVanishes(pad, glob);
    NormalIsTrimmed(glob);
    ParseUnsplit(pad + glob, glob);
  }

  lemma NotInPadded(pad: string, s: string, c: char)
    requires IsPad(pad) && c != ' ' && c !in s
    ensures c !in pad + s
  {
  }

  lemma PadFirst(pad: string, front: string, back: string)
    ensures pad + (front + ":" + back) == pad + front + ":" + back
  {
  }

  lemma ParsePadded(pad: string, namespace: string, glob: string)
    requires IsPad(pad) && PlainNamespace(namespace) && Normal(glob) && '*' in glob
    ensures ParsePattern(pad + (namespace + ":" + glob))
         == Ok(if OnlyStars(glob) then NamespaceAny(namespace) else NamespaceGlob(namespace, glob))
  {
    PadVanishes(pad, namespace);
    NotInPadded(pad, namespace, ':');
    NotInPadded(pad, namespace, '*');
    ParseNamespaced(pad + namespace, namespace, glob);
    PadFirst(pad, namespace, glob);
  }

  /** Printing a well-formed pattern and parsing it, with a blank in front or not, gives it back. */
  lemma PrintedPatternParses(pad: string, p: TagPattern)
    requires IsPad(pad) && WellFormedPattern(p)
    ensures ParsePattern(pad + ShowPattern(p)) == Ok(p)
  {
    match p {
      case AnyNamespaceGlob(glob) => ParseBare(pad, glob);
      case NamespaceAny(namespace) =>
        StarIsNormal();
        assert '*' in "*";
        ParsePadded(pad, namespace, "*");
        assert namespace + ":*" == namespace + ":" + "*";
      case NamespaceGlob(namespace, glob) => ParsePadded(pad, namespace, glob);
    }
  }

  /** Printing and parsing gives a pattern back exactly when it is well-formed. */
  lemma PatternRoundTrip(p: TagPattern)
    ensures ParsePattern(ShowPattern(p)) == Ok(p) <==> WellFormedPattern(p)
  {
    if WellFormedPattern(p) {
      PrintedPatternParses("", p);
      assert "" + ShowPattern(p) == ShowPattern(p);
    } else {
      ParsedPatternIsWellFormed(ShowPattern(p));
    }
  }

  /** Different patterns print differently. */
  lemma ShowPatternInjective(p: TagPattern, q: TagPattern)
    requires WellFormedPattern(p) && WellFormedPattern(q) && ShowPattern(p) == ShowPattern(q)
    ensures p == q
  {
    PatternRoundTrip(p);
    PatternRoundTrip(q);
  }

  predicate PatternHas(p: TagPattern, c: char) {
    match p
    case NamespaceAny(namespace) => c in namespace
    case NamespaceGlob(namespace, glob) => c in namespace || c in glob
    case AnyNamespaceGlob(glob) => c in glob
  }

  /** No mark appears in a pattern that is not in its text. */
  lemma PatternAddsNoMark(s: string, c: char)
    requires IsMark(c) && c !in s && ParsePattern(s).Ok?
    ensures !PatternHas(ParsePattern(s).value, c)
  {
    var front, back := "", s;
    if SplitOnce(s).Some? {
      front, back := SplitOnce(s).value.0, SplitOnce(s).value.1;
    }
    TrimTrims(back);
    MarkSurvives(front, c);
    MarkSurvives(Trim(back), c);
  }
}