/**
 * What the text of a metadata predicate means, for every text: which numbers, units, operators and
 * values are accepted, and in which case (crates/core/src/query.rs).
 */
module SystemTexts {
  import opened Wrappers
  import opened Strings
  import opened Tags
  import opened SystemPredicates
  import opened TagTexts

  // ---- What is accepted ----------------------------------------------------

  /** The value of a digit, and of one number written after another. */
  lemma {:induction false} NumberOfConcat(a: string, b: string)
    requires AreDigits(a) && AreDigits(b)
    ensures NumberOf(a + b) == NumberOf(a) * Pow10(|b|) + NumberOf(b)
    ensures |b| == 1 ==> NumberOf(b) == b[0] as int - '0' as int < 10
    decreases |b|
  {
    if b == "" {
      assert a + b == a;
    } else {
      var front := b[..|b| - 1];
      assert (a + b)[..|a + b| - 1] == a + front;
      NumberOfConcat(a, front);
      assert |b| == 1 ==> NumberOf(front) == 0;
      TimesTen(NumberOf(a), Pow10(|front|));
    }
  }

  function Pow10(n: nat): nat {
    if n == 0 then 1 else 10 * Pow10(n - 1)
  }

  lemma TimesTen(a: nat, p: nat)
    ensures 10 * (a * p) == a * (10 * p)
  {
  }

  /** The units of each field, each a multiple of the one before; no other unit is accepted. */
  lemma UnitTable(unit: string)
    ensures UnitMultiplier(Size, "") == UnitMultiplier(Size, "b") == Some(1)
    ensures UnitMultiplier(Size, "kb") == Some(1024 * UnitMultiplier(Size, "b").value)
    ensures UnitMultiplier(Size, "mb") == Some(1024 * UnitMultiplier(Size, "kb").value)
    ensures UnitMultiplier(Size, "gb") == Some(1024 * UnitMultiplier(Size, "mb").value)
    ensures UnitMultiplier(Duration, "") == UnitMultiplier(Duration, "ms") == Some(1)
    ensures UnitMultiplier(Duration, "s") == Some(1000 * UnitMultiplier(Duration, "ms").value)
    ensures UnitMultiplier(Duration, "m") == Some(60 * UnitMultiplier(Duration, "s").value)
    ensures UnitMultiplier(Duration, "h") == Some(60 * UnitMultiplier(Duration, "m").value)
    ensures UnitMultiplier(Width, "") == UnitMultiplier(Height, "") == Some(1)
    ensures UnitMultiplier(Size, unit).Some? <==> unit in ["", "b", "kb", "mb", "gb"]
    ensures UnitMultiplier(Duration, unit).Some? <==> unit in ["", "ms", "s", "m", "h"]
    ensures UnitMultiplier(Width, unit).Some? <==> unit == ""
    ensures UnitMultiplier(Height, unit).Some? <==> unit == ""
  {
    var sizes, durations := ["", "b", "kb", "mb", "gb"], ["", "ms", "s", "m", "h"];
    assert sizes[0] == "" && sizes[1] == "b" && sizes[2] == "kb" && sizes[3] == "mb" && sizes[4] == "gb";
    assert durations[0] == "" && durations[1] == "ms" && durations[2] == "s";
    assert durations[3] == "m" && durations[4] == "h";
  }

  /** How fields and operators are spelled. */
  lemma Spelling()
    ensures FieldName(Size) == "size" && FieldName(Width) == "width" && FieldName(Height) == "height"
    ensures FieldName(Duration) == "duration"
    ensures OpText(Gt) == ">" && OpText(Lt) == "<" && OpText(Ge) == ">=" && OpText(Le) == "<=" && OpText(Eq) == "="
  {
  }

  /** A text is this comparison: field, operator, digits and unit, with a product that fits. */
  predicate SpellsComparison(s: string, field: SysField, op: CmpOp, value: nat, digits: string, unit: string) {
    && s == FieldName(field) + (OpText(op) + (digits + unit))
    && digits != "" && AreDigits(digits) && UnitMultiplier(field, unit).Some?
    && value == NumberOf(digits) * UnitMultiplier(field, unit).value <= I64_MAX
  }

  lemma SplitFieldIs(s: string)
    ensures SplitField(s).Some? ==> s == FieldName(SplitField(s).value.0) + SplitField(s).value.1
  {
  }

  lemma SplitOpIs(s: string)
    ensures SplitOp(s).Some? ==> s == OpText(SplitOp(s).value.0) + SplitOp(s).value.1
  {
  }

  lemma AmountIs(field: SysField, amount: string) returns (digits: string, unit: string)
    requires ParseAmount(field, amount).Some?
    ensures amount == digits + unit && digits != "" && AreDigits(digits) && UnitMultiplier(field, unit).Some?
    ensures ParseAmount(field, amount).value == NumberOf(digits) * UnitMultiplier(field, unit).value <= I64_MAX
  {
    digits := LeadingDigits(amount);
    unit := amount[|digits|..];
  }

  lemma SpellingOf(s: string, field: SysField, op: CmpOp, value: nat) returns (digits: string, unit: string)
    requires ParseLowered(s) == Some(Compare(field, op, value))
    ensures SpellsComparison(s, field, op, value, digits, unit)
  {
    LoweredComparison(s);
    var rest := SplitField(s).value.1;
    SplitFieldIs(s);
    SplitOpIs(rest);
    digits, unit := AmountIs(field, SplitOp(rest).value.1);
  }

  lemma LoweredComparison(s: string)
    requires ParseLowered(s).Some? && ParseLowered(s).value.Compare?
    ensures ParseComparison(s) == ParseLowered(s)
  {
  }

  /** Comparisons are accepted in no other spelling. */
  lemma ComparisonExactly(s: string, field: SysField, op: CmpOp, value: nat)
    ensures ParseLowered(s) == Some(Compare(field, op, value)) <==>
              exists digits, unit :: SpellsComparison(s, field, op, value, digits, unit)
  {
    forall digits, unit | SpellsComparison(s, field, op, value, digits, unit)
      ensures ParseLowered(s) == Some(Compare(field, op, value))
    {
      CompareExact(field, op, digits, unit);
    }
    if ParseLowered(s) == Some(Compare(field, op, value)) {
      var digits, unit := SpellingOf(s, field, op, value);
      assert SpellsComparison(s, field, op, value, digits, unit);
    }
  }

  /** File types and origins: whatever follows the sign, trimmed, if it is not blank. */
  lemma TypesAndOrigins(v: string)
    ensures ParseLowered("type=" + v) == if Trim(v) == "" then None else Some(FileType(Trim(v)))
    ensures ParseLowered("origin=" + v) ==
              if Trim(v) == "" then None
              else if Trim(v) == "manual" then Some(Origin(None))
              else Some(Origin(Some(Trim(v))))
    ensures (v == "" || v[0] != '=') ==> ParseLowered("origin" + v) == None
  {
    assert ("type=" + v)[5..] == v;
    var s := "origin=" + v;
    assert s[0] == 'o' && s[6..] == "=" + v && ("=" + v)[1..] == v;
    assert ("origin" + v)[6..] == v && ("origin" + v)[0] == 'o';
  }

  // ---- Case and blanks -----------------------------------------------------

  lemma {:induction false} TrimStartThroughLower(s: string)
    ensures TrimStart(Lower(s)) == Lower(TrimStart(s))
  {
    if s != "" {
      SpaceThroughLower(s[0]);
      if IsSpace(s[0]) {
        LowerRest(s, 1);
        TrimStartThroughLower(s[1..]);
      }
    }
  }

  lemma {:induction false} TrimEndThroughLower(s: string)
    ensures TrimEnd(Lower(s)) == Lower(TrimEnd(s))
  {
    if s != "" {
      var n := |s| - 1;
      SpaceThroughLower(s[n]);
      if IsSpace(s[n]) {
        LowerRest(s, n);
        TrimEndThroughLower(s[..n]);
      }
    }
  }

  /** Texts that differ only in case are both refused or are the same predicate. */
  lemma SystemIgnoresCase(body: string, other: string)
    requires SameButCase(body, other)
    ensures ParseSystem(body).Ok? <==> ParseSystem(other).Ok?
    ensures ParseSystem(body).Ok? ==> ParseSystem(body) == ParseSystem(other)
  {
    SameLower(body, other);
    TrimStartThroughLower(body);
    TrimStartThroughLower(other);
    TrimEndThroughLower(TrimStart(body));
    TrimEndThroughLower(TrimStart(other));
  }

  lemma TrimOfPadded(before: string, s: string, after: string)
    requires Blank(before) && Blank(after)
    ensures Trim(before + s + after) == Trim(s)
  {
    assert before + s + after == before + (s + after);
    TrimStartOfPadded(before, s + after);
    TrimStartOfBlanks(s, after);
    TrimEndOfPadded(TrimStart(s), after);
  }

  lemma {:induction false} TrimStartOfPadded(before: string, s: string)
    requires Blank(before)
    ensures TrimStart(before + s) == TrimStart(s)
  {
    if before == "" {
      assert before + s == s;
    } else {
      assert (before + s)[1..] == before[1..] + s;
      TrimStartOfPadded(before[1..], s);
    }
  }

  lemma {:induction false} TrimEndOfPadded(s: string, after: string)
    requires Blank(after)
    ensures TrimEnd(s + after) == TrimEnd(s)
  {
    if after == "" {
      assert s + after == s;
    } else {
      assert (s + after)[..|s + after| - 1] == s + after[..|after| - 1];
      TrimEndOfPadded(s, after[..|after| - 1]);
    }
  }

  /** Blanks at the end are cut with those at the start if there is nothing else. */
  lemma {:induction false} TrimStartOfBlanks(s: string, after: string)
    requires Blank(after)
    ensures TrimEnd(TrimStart(s + after)) == TrimEnd(TrimStart(s) + after)
  {
    if s == "" {
      assert s + after == after;
      TrimEndOfPadded("", after);
      assert "" + after == after;
      BlankStart(after);
    } else if IsSpace(s[0]) {
      assert (s + after)[1..] == s[1..] + after;
      TrimStartOfBlanks(s[1..], after);
    }
  }

  /** Blanks around the text are ignored. */
  lemma SystemIgnoresBlanks(before: string, body: string, after: string)
    requires Blank(before) && Blank(after)
    ensures ParseSystem(before + body + after).Ok? <==> ParseSystem(body).Ok?
    ensures ParseSystem(body).Ok? ==> ParseSystem(before + body + after) == ParseSystem(body)
  {
    TrimOfPadded(before, body, after);
  }
}
