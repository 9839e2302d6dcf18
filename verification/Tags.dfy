/** Namespaced tags: parsing, normalization and the printed form (crates/core/src/tag.rs). */
module Tags {
  import opened Wrappers
  import opened Strings

  /** An empty namespace means the tag is unnamespaced. */
  datatype Tag = Tag(namespace: string, subtag: string)

  datatype Error =
    | EmptyTag(text: string)
    | BadPattern(text: string)
    | BadSystem(text: string)
    | BadQuery(text: string)

  // ---- Whitespace ----------------------------------------------------------

  /** The Unicode White_Space characters. */
  predicate IsSpace(c: char) {
    var n := c as int;
    || 0x9 <= n <= 0xD || n == 0x20 || n == 0x85 || n == 0xA0 || n == 0x1680
    || 0x2000 <= n <= 0x200A || n == 0x2028 || n == 0x2029 || n == 0x202F || n == 0x205F || n == 0x3000
  }

  function TrimStart(s: string): string {
    if s != "" && IsSpace(s[0]) then TrimStart(s[1..]) else s
  }

  function TrimEnd(s: string): string {
    if s != "" && IsSpace(s[|s| - 1]) then TrimEnd(s[..|s| - 1]) else s
  }

  function Trim(s: string): string {
    TrimEnd(TrimStart(s))
  }

  /** Neither starts nor ends with whitespace. */
  predicate Trimmed(s: string) {
    s != "" ==> !IsSpace(s[0]) && !IsSpace(s[|s| - 1])
  }

  // ---- Normalization -------------------------------------------------------

  /** The leading run of non-blank characters. */
  function Word(s: string): (w: string)
    ensures w <= s && forall i :: 0 <= i < |w| ==> !IsSpace(w[i])
    ensures |w| < |s| ==> IsSpace(s[|w|])
  {
    if s == "" || IsSpace(s[0]) then "" else [s[0]] + Word(s[1..])
  }

  /** `split_whitespace`. */
  function Words(s: string): (ws: seq<string>)
    ensures forall i :: 0 <= i < |ws| ==> IsWord(ws[i])
  {
    if s == "" then []
    else if IsSpace(s[0]) then Words(s[1..])
    else [Word(s)] + Words(s[|Word(s)|..])
  }

  predicate IsWord(w: string) {
    w != "" && forall i :: 0 <= i < |w| ==> !IsSpace(w[i])
  }

  /** `join(" ")`. */
  function Join(ws: seq<string>): string {
    if |ws| == 0 then ""
    else if |ws| == 1 then ws[0]
    else ws[0] + " " + Join(ws[1..])
  }

  /** Trim, collapse inner whitespace to single spaces, lowercase. */
  function Normalize(part: string): string {
    Lower(Join(Words(part)))
  }

  /** Text that normalization leaves alone. */
  predicate Normal(s: string) {
    Normalize(s) == s
  }

  // ---- What normalization keeps --------------------------------------------

  predicate AreWords(ws: seq<string>) {
    forall i :: 0 <= i < |ws| ==> IsWord(ws[i])
  }

  lemma {:induction false} WordThenBlank(w: string, rest: string)
    requires IsWord(w) && (rest == "" || IsSpace(rest[0]))
    ensures Word(w + rest) == w
  {
    assert (w + rest)[1..] == w[1..] + rest;
    if |w| > 1 {
      WordThenBlank(w[1..], rest);
    }
  }

  /** Splitting joined words gives the words back. */
  lemma {:induction false} WordsOfJoin(ws: seq<string>)
    requires AreWords(ws)
    ensures Words(Join(ws)) == ws
  {
    if |ws| == 1 {
      WordThenBlank(ws[0], "");
      assert ws[0] + "" == ws[0];
      assert Words(ws[0]) == [Word(ws[0])] + Words(ws[0][|ws[0]|..]);
    } else if |ws| > 1 {
      var rest := " " + Join(ws[1..]);
      WordsOfJoin(ws[1..]);
      WordThenBlank(ws[0], rest);
      var s := Join(ws);
      assert s == ws[0] + rest;
      assert s[|ws[0]|..] == rest && rest[1..] == Join(ws[1..]);
      assert Words(s) == [ws[0]] + Words(rest);
    }
  }

  lemma LowerOfConcat(a: string, b: string)
    ensures Lower(a + b) == Lower(a) + Lower(b)
  {
  }

  lemma LowerTwice(s: string)
    ensures Lower(Lower(s)) == Lower(s)
  {
  }

  function LowerAll(ws: seq<string>): (r: seq<string>)
    ensures |r| == |ws| && forall i :: 0 <= i < |ws| ==> r[i] == Lower(ws[i])
  {
    seq(|ws|, i requires 0 <= i < |ws| => Lower(ws[i]))
  }

  lemma {:induction false} LowerOfJoin(ws: seq<string>)
    ensures Lower(Join(ws)) == Join(LowerAll(ws))
  {
    if |ws| > 1 {
      LowerOfJoin(ws[1..]);
      assert LowerAll(ws)[1..] == LowerAll(ws[1..]);
      LowerOfConcat(ws[0] + " ", Join(ws[1..]));
      LowerOfConcat(ws[0], " ");
    }
  }

  lemma LowerKeepsWords(ws: seq<string>)
    requires AreWords(ws)
    ensures AreWords(LowerAll(ws))
  {
    forall i | 0 <= i < |ws|
      ensures IsWord(LowerAll(ws)[i])
    {
      assert LowerAll(ws)[i] == Lower(ws[i]);
    }
  }

  /** Normalizing twice is normalizing once. */
  lemma NormalizeIdempotent(s: string)
    ensures Normal(Normalize(s))
  {
    var ws := Words(s);
    LowerOfJoin(ws);
    LowerKeepsWords(ws);
    WordsOfJoin(LowerAll(ws));
    LowerTwice(Join(ws));
  }

  lemma {:induction false} JoinIsTrimmed(ws: seq<string>)
    requires AreWords(ws)
    ensures Trimmed(Join(ws)) && (ws != [] ==> Join(ws) != "")
  {
    if |ws| > 1 {
      JoinIsTrimmed(ws[1..]);
      var s := Join(ws);
      assert s == ws[0] + " " + Join(ws[1..]);
      assert s[|s| - 1] == Join(ws[1..])[|Join(ws[1..])| - 1];
    }
  }

  lemma NormalizedIsTrimmed(s: string)
    ensures Trimmed(Normalize(s))
  {
    JoinIsTrimmed(Words(s));
  }

  /** Neither blank nor a letter: what normalization neither drops nor changes. */
  predicate IsMark(c: char) {
    !IsSpace(c) && !('A' <= c <= 'Z') && !('a' <= c <= 'z')
  }

  lemma MarkThroughLower(s: string, c: char)
    requires IsMark(c)
    ensures c in Lower(s) <==> c in s
  {
    if c in s {
      var i :| 0 <= i < |s| && s[i] == c;
      assert Lower(s)[i] == c;
    }
    if c in Lower(s) {
      var i :| 0 <= i < |s| && Lower(s)[i] == c;
      assert s[i] == c;
    }
  }

  predicate InSomeWord(ws: seq<string>, c: char) {
    exists i :: 0 <= i < |ws| && c in ws[i]
  }

  lemma {:induction false} MarkThroughJoin(ws: seq<string>, c: char)
    requires !IsSpace(c)
    ensures c in Join(ws) <==> InSomeWord(ws, c)
  {
    if |ws| == 1 {
      assert ws[0] == Join(ws);
    } else if |ws| > 1 {
      MarkThroughJoin(ws[1..], c);
      assert ws == [ws[0]] + ws[1..];
      if InSomeWord(ws[1..], c) {
        var i :| 0 <= i < |ws| - 1 && c in ws[1..][i];
        assert c in ws[i + 1];
      }
    }
  }

  lemma {:induction false} MarkThroughWords(s: string, c: char)
    requires !IsSpace(c)
    ensures InSomeWord(Words(s), c) <==> c in s
    decreases |s|
  {
    if s != "" {
      if IsSpace(s[0]) {
        MarkThroughWords(s[1..], c);
        assert s == [s[0]] + s[1..];
      } else {
        var w := Word(s);
        var rest := s[|w|..];
        MarkThroughWords(rest, c);
        assert s == w + rest;
        assert Words(s) == [w] + Words(rest);
        if InSomeWord(Words(rest), c) {
          var i :| 0 <= i < |Words(rest)| && c in Words(rest)[i];
          assert c in Words(s)[i + 1];
        }
        if c in w {
          assert c in Words(s)[0];
        }
      }
    }
  }

  lemma MarkSurvives(s: string, c: char)
    requires IsMark(c)
    ensures c in Normalize(s) <==> c in s
  {
    MarkThroughLower(Join(Words(s)), c);
    MarkThroughJoin(Words(s), c);
    MarkThroughWords(s, c);
  }

  /** Normalizing leaves nothing exactly when there is nothing but blanks. */
  lemma {:induction false} BlankOrNot(s: string)
    ensures Normalize(s) == "" <==> forall i :: 0 <= i < |s| ==> IsSpace(s[i])
  {
    JoinIsTrimmed(Words(s));
    NoWords(s);
  }

  lemma {:induction false} NoWords(s: string)
    ensures Words(s) == [] <==> forall i :: 0 <= i < |s| ==> IsSpace(s[i])
    decreases |s|
  {
    if s != "" && IsSpace(s[0]) {
      NoWords(s[1..]);
      assert forall i :: 0 < i < |s| ==> s[i] == s[1..][i - 1];
    }
  }

  // ---- Trimming ------------------------------------------------------------

  lemma {:induction false} TrimStartKeeps(s: string, c: char)
    requires !IsSpace(c)
    ensures c in TrimStart(s) <==> c in s
  {
    if s != "" && IsSpace(s[0]) {
      TrimStartKeeps(s[1..], c);
      assert s == [s[0]] + s[1..];
    }
  }

  lemma {:induction false} TrimEndKeeps(s: string, c: char)
    requires !IsSpace(c)
    ensures c in TrimEnd(s) <==> c in s
  {
    if s != "" && IsSpace(s[|s| - 1]) {
      var n := |s| - 1;
      TrimEndKeeps(s[..n], c);
      assert s == s[..n] + [s[n]];
    }
  }

  lemma {:induction false} TrimStartStops(s: string)
    ensures TrimStart(s) != "" ==> !IsSpace(TrimStart(s)[0])
  {
    if s != "" && IsSpace(s[0]) {
      TrimStartStops(s[1..]);
    }
  }

  lemma {:induction false} TrimEndStops(s: string)
    ensures TrimEnd(s) <= s
    ensures TrimEnd(s) != "" ==> !IsSpace(TrimEnd(s)[|TrimEnd(s)| - 1])
  {
    if s != "" && IsSpace(s[|s| - 1]) {
      TrimEndStops(s[..|s| - 1]);
    }
  }

  /** Trimming keeps every character that is not blank and leaves trimmed text alone. */
  lemma TrimTrims(s: string)
    ensures Trimmed(Trim(s)) && (Trimmed(s) ==> Trim(s) == s)
    ensures forall c :: !IsSpace(c) ==> (c in Trim(s) <==> c in s)
  {
    TrimStartStops(s);
    TrimEndStops(TrimStart(s));
    forall c | !IsSpace(c)
      ensures c in Trim(s) <==> c in s
    {
      TrimStartKeeps(s, c);
      TrimEndKeeps(TrimStart(s), c);
    }
  }

  /** A blank in front makes no difference. */
  lemma TrimPadded(s: string)
    requires Trimmed(s)
    ensures Trim(" " + s) == s
  {
    TrimTrims(s);
    assert (" " + s)[1..] == s;
  }

  // ---- Parsing and printing tags -------------------------------------------

  /** `split_once(':')`: the text before and after the first colon. */
  function SplitOnce(s: string): (r: Option<(string, string)>)
    ensures r.None? <==> ':' !in s
    ensures r.Some? ==> s == r.value.0 + ":" + r.value.1 && ':' !in r.value.0
  {
    if s == "" then None
    else if s[0] == ':' then Some(("", s[1..]))
    else match SplitOnce(s[1..])
      case None => None
      case Some((front, back)) => Some(([s[0]] + front, back))
  }

  /** The first colon is the only place to split. */
  lemma {:induction false} SplitAt(front: string, back: string)
    requires ':' !in front
    ensures SplitOnce(front + ":" + back) == Some((front, back))
  {
    var s := front + ":" + back;
    if front == "" {
      assert s[0] == ':' && s[1..] == back;
    } else {
      assert s[0] == front[0] && s[1..] == front[1..] + ":" + back;
      SplitAt(front[1..], back);
      assert [front[0]] + front[1..] == front;
    }
  }

  /** Namespace and subtag of a trimmed text. A leading colon means no namespace. */
  function SplitTag(t: string): (string, string) {
    if t != "" && t[0] == ':' then
      if ':' in t[1..] then ("", Normalize(t[1..])) else ("", Normalize(t))
    else
      match SplitOnce(t)
      case Some((namespace, subtag)) => (Normalize(namespace), Normalize(subtag))
      case None => ("", Normalize(t))
  }

  function ParseTag(s: string): Result<Tag, Error> {
    var (namespace, subtag) := SplitTag(Trim(s));
    if subtag == "" then Err(EmptyTag(s)) else Ok(Tag(namespace, subtag))
  }

  function ShowTag(t: Tag): string {
    if t.namespace == "" then
      if ':' in t.subtag then ":" + t.subtag else t.subtag
    else t.namespace + ":" + t.subtag
  }

  /** What a parsed tag looks like: normalized halves, a subtag, no colon in the namespace. */
  predicate WellFormed(t: Tag) {
    Normal(t.namespace) && Normal(t.subtag) && t.subtag != "" && ':' !in t.namespace
  }

  lemma NormalIsTrimmed(s: string)
    requires Normal(s)
    ensures Trimmed(s) && Trim(s) == s
  {
    NormalizedIsTrimmed(s);
    TrimTrims(s);
  }

  /** Parsing only yields well-formed tags. */
  lemma ParsedIsWellFormed(s: string)
    ensures ParseTag(s).Ok? ==> WellFormed(ParseTag(s).value)
  {
    var t := Trim(s);
    NormalizeIdempotent(t);
    assert Normal("");
    if t != "" && t[0] == ':' {
      NormalizeIdempotent(t[1..]);
    } else if SplitOnce(t).Some? {
      var (namespace, subtag) := SplitOnce(t).value;
      NormalizeIdempotent(namespace);
      NormalizeIdempotent(subtag);
      MarkSurvives(namespace, ':');
    }
  }

  lemma TrimmedAroundColon(a: string, b: string)
    requires Trimmed(a) && Trimmed(b) && b != ""
    ensures Trimmed(a + ":" + b)
  {
    var s := a + ":" + b;
    assert s[|s| - 1] == b[|b| - 1];
    assert a != "" ==> s[0] == a[0];
  }

  lemma ShownIsTrimmed(t: Tag)
    requires WellFormed(t)
    ensures Trimmed(ShowTag(t)) && ShowTag(t) != ""
  {
    NormalIsTrimmed(t.namespace);
    NormalIsTrimmed(t.subtag);
    ShownHalvesTrimmed(t);
  }

  lemma ShownHalvesTrimmed(t: Tag)
    requires Trimmed(t.namespace) && Trimmed(t.subtag) && t.subtag != ""
    ensures Trimmed(ShowTag(t)) && ShowTag(t) != ""
  {
    TrimmedAroundColon(t.namespace, t.subtag);
    assert "" + ":" + t.subtag == ":" + t.subtag;
  }

  /** The printed form splits into the halves it was printed from. */
  lemma ShownSplits(t: Tag)
    requires Normal(t.namespace) && Normal(t.subtag) && t.subtag != "" && ':' !in t.namespace
    ensures SplitTag(ShowTag(t)) == (t.namespace, t.subtag)
  {
    var s := ShowTag(t);
    if t.namespace != "" {
      assert s[0] == t.namespace[0] && s[0] in t.namespace;
      SplitAt(t.namespace, t.subtag);
    } else if ':' in t.subtag {
      assert s[1..] == t.subtag;
    } else {
      assert s[0] in t.subtag;
    }
  }

  /** Printing and parsing gives a tag back exactly when it is well-formed. */
  lemma TagRoundTrip(t: Tag)
    ensures ParseTag(ShowTag(t)) == Ok(t) <==> WellFormed(t)
  {
    if WellFormed(t) {
      ShownSplits(t);
      ShownIsTrimmed(t);
      TrimTrims(ShowTag(t));
    } else {
      ParsedIsWellFormed(ShowTag(t));
    }
  }

  /** Parsing, printing and parsing again changes nothing, for every text. */
  lemma ParsePrintParse(s: string)
    ensures ParseTag(s).Ok? ==> ParseTag(ShowTag(ParseTag(s).value)) == ParseTag(s)
  {
    ParsedIsWellFormed(s);
    if ParseTag(s).Ok? {
      TagRoundTrip(ParseTag(s).value);
    }
  }

  /** Different tags print differently. */
  lemma ShowTagInjective(a: Tag, b: Tag)
    requires WellFormed(a) && WellFormed(b) && ShowTag(a) == ShowTag(b)
    ensures a == b
  {
    TagRoundTrip(a);
    TagRoundTrip(b);
  }

  predicate Blank(s: string) {
    forall i :: 0 <= i < |s| ==> IsSpace(s[i])
  }

  /**
   * Only two kinds of text have no usable subtag: blanks, and a namespace followed by a colon and
   * blanks. Anything that starts with a colon is a tag.
   */
  lemma TagErrors(s: string)
    ensures ParseTag(s).Err? <==>
              var t := Trim(s);
              t == "" || (t[0] != ':' && SplitOnce(t).Some? && Blank(SplitOnce(t).value.1))
    ensures ParseTag(s).Err? ==> ParseTag(s).error == EmptyTag(s)
  {
    var t := Trim(s);
    TrimTrims(s);
    BlankOrNot(t);
    if t != "" && t[0] == ':' {
      BlankOrNot(t[1..]);
      if ':' in t[1..] {
        MarkSurvives(t[1..], ':');
      }
    } else if SplitOnce(t).Some? {
      BlankOrNot(SplitOnce(t).value.1);
    }
  }

  /** A mark that is neither blank, letter nor colon is in a tag exactly when it is in its text. */
  lemma TagKeepsMark(s: string, c: char)
    requires IsMark(c) && c != ':' && ParseTag(s).Ok?
    ensures var t := ParseTag(s).value; c in s <==> c in t.namespace || c in t.subtag
  {
    var t := Trim(s);
    TrimTrims(s);
    MarkSurvives(t, c);
    if t != "" && t[0] == ':' {
      MarkSurvives(t[1..], c);
      assert t == [t[0]] + t[1..];
    } else if SplitOnce(t).Some? {
      MarkSurvives(SplitOnce(t).value.0, c);
      MarkSurvives(SplitOnce(t).value.1, c);
    }
  }
}