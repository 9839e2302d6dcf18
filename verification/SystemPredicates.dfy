/** Metadata predicates: the body of a `system:` term (crates/core/src/query.rs). */
module SystemPredicates {
  import opened Wrappers
  import opened Strings
  import opened Tags

  datatype SysField = Size | Width | Height | Duration

  datatype CmpOp = Gt | Lt | Ge | Le | Eq

  /** `Origin(None)` asks for rows without an origin. */
  datatype SystemPredicate =
    | Compare(field: SysField, op: CmpOp, value: nat)
    | FileType(mime: string)
    | Origin(name: Option<string>)

  const I64_MAX := 0x7FFF_FFFF_FFFF_FFFF

  // ---- Numbers -------------------------------------------------------------

  predicate IsDigit(c: char) {
    '0' <= c <= '9'
  }

  predicate AreDigits(s: string) {
    forall i :: 0 <= i < |s| ==> IsDigit(s[i])
  }

  function LeadingDigits(s: string): (d: string)
    ensures d <= s && AreDigits(d)
  {
    if s != "" && IsDigit(s[0]) then [s[0]] + LeadingDigits(s[1..]) else ""
  }

  function NumberOf(digits: string): nat
    requires AreDigits(digits)
  {
    if digits == "" then 0
    else 10 * NumberOf(digits[..|digits| - 1]) + (digits[|digits| - 1] as int - '0' as int)
  }

  function Decimal(n: nat): (d: string)
    ensures AreDigits(d) && d != ""
  {
    var last := ['0' + (n % 10) as char];
    if n < 10 then last else Decimal(n / 10) + last
  }

  lemma {:induction false} NumberOfDecimal(n: nat)
    ensures NumberOf(Decimal(n)) == n
  {
    var d := Decimal(n);
    if n < 10 {
      assert d[..0] == "";
    } else {
      NumberOfDecimal(n / 10);
      assert d[..|d| - 1] == Decimal(n / 10);
    }
  }

  // ---- Units ---------------------------------------------------------------

  function UnitMultiplier(field: SysField, unit: string): (m: Option<nat>)
    ensures m.Some? ==> 1 <= m.value
  {
    match field
    case Size =>
      if unit == "" || unit == "b" then Some(1)
      else if unit == "kb" then Some(1024)
      else if unit == "mb" then Some(1024 * 1024)
      else if unit == "gb" then Some(1024 * 1024 * 1024)
      else None
    case Duration =>
      if unit == "" || unit == "ms" then Some(1)
      else if unit == "s" then Some(1000)
      else if unit == "m" then Some(60_000)
      else if unit == "h" then Some(3_600_000)
      else None
    case _ =>
      if unit == "" then Some(1) else None
  }

  /** Multiplication that fails on overflow. */
  function CheckedMul(a: nat, b: nat): Option<nat> {
    if a * b <= I64_MAX then Some(a * b) else None
  }

  // ---- Parsing -------------------------------------------------------------

  function StripPrefix(s: string, prefix: string): Option<string> {
    if prefix <= s then Some(s[|prefix|..]) else None
  }

  function FieldName(field: SysField): string {
    match field
    case Size => "size"
    case Width => "width"
    case Height => "height"
    case Duration => "duration"
  }

  function OpText(op: CmpOp): string {
    match op
    case Gt => ">"
    case Lt => "<"
    case Ge => ">="
    case Le => "<="
    case Eq => "="
  }

  function SplitField(s: string): Option<(SysField, string)> {
    if "size" <= s then Some((Size, s[4..]))
    else if "width" <= s then Some((Width, s[5..]))
    else if "height" <= s then Some((Height, s[6..]))
    else if "duration" <= s then Some((Duration, s[8..]))
    else None
  }

  /** The operators of two characters are tried first. */
  function SplitOp(s: string): Option<(CmpOp, string)> {
    if ">=" <= s then Some((Ge, s[2..]))
    else if "<=" <= s then Some((Le, s[2..]))
    else if ">" <= s then Some((Gt, s[1..]))
    else if "<" <= s then Some((Lt, s[1..]))
    else if "=" <= s then Some((Eq, s[1..]))
    else None
  }

  /** Digits and an optional unit, in base units, if that fits in 64 bits. */
  function ParseAmount(field: SysField, s: string): Option<nat> {
    var digits := LeadingDigits(s);
    var multiplier := UnitMultiplier(field, s[|digits|..]);
    if digits == "" || NumberOf(digits) > I64_MAX || multiplier.None? then None
    else CheckedMul(NumberOf(digits), multiplier.value)
  }

  function ParseComparison(s: string): Option<SystemPredicate> {
    match SplitField(s)
    case None => None
    case Some((field, rest)) =>
      match SplitOp(rest)
      case None => None
      case Some((op, amount)) =>
        match ParseAmount(field, amount)
        case None => None
        case Some(value) => Some(Compare(field, op, value))
  }

  function ParseFileType(mime: string): Option<SystemPredicate> {
    if Trim(mime) == "" then None else Some(FileType(Trim(mime)))
  }

  function ParseOrigin(rest: string): Option<SystemPredicate> {
    match StripPrefix(rest, "=")
    case None => None
    case Some(value) =>
      var name := Trim(value);
      if name == "" then None
      else if name == "manual" then Some(Origin(None))
      else Some(Origin(Some(name)))
  }

  function ParseLowered(s: string): Option<SystemPredicate> {
    if "type=" <= s then ParseFileType(s[5..])
    else if "origin" <= s then ParseOrigin(s[6..])
    else ParseComparison(s)
  }

  function ParseSystem(body: string): Result<SystemPredicate, Error> {
    match ParseLowered(Lower(Trim(body)))
    case Some(p) => Ok(p)
    case None => Err(BadSystem(body))
  }

  // ---- Printing ------------------------------------------------------------

  function ShowSystem(p: SystemPredicate): string {
    match p
    case Compare(field, op, value) => FieldName(field) + OpText(op) + Decimal(value)
    case FileType(mime) => "type=" + mime
    case Origin(None) => "origin=manual"
    case Origin(Some(name)) => "origin=" + name
  }

  /** A value that can be written. */
  predicate PlainValue(s: string) {
    s != "" && Trimmed(s) && Lower(s) == s
  }

  /** The predicates that can be written. */
  predicate WellFormedSystem(p: SystemPredicate) {
    match p
    case Compare(field, op, value) => value <= I64_MAX
    case FileType(mime) => PlainValue(mime)
    case Origin(None) => true
    case Origin(Some(name)) => PlainValue(name) && name != "manual"
  }

  // ---- Amounts -------------------------------------------------------------

  lemma {:induction false} DigitsThenUnit(digits: string, unit: string)
    requires AreDigits(digits) && (unit == "" || !IsDigit(unit[0]))
    ensures LeadingDigits(digits + unit) == digits
  {
    if digits == "" {
      assert digits + unit == unit;
    } else {
      DigitsThenUnit(digits[1..], unit);
      assert (digits + unit)[1..] == digits[1..] + unit;
      assert [digits[0]] + digits[1..] == digits;
    }
  }

  lemma UnitIsNoDigit(field: SysField, unit: string)
    requires UnitMultiplier(field, unit).Some?
    ensures unit == "" || !IsDigit(unit[0])
    ensures Lower(unit) == unit && Trimmed(unit)
  {
  }

  lemma ProductBounds(n: nat, m: nat)
    requires 1 <= m
    ensures n <= n * m
  {
  }

  /** An amount is accepted exactly when the product fits: nothing wraps around or saturates. */
  lemma AmountExact(field: SysField, digits: string, unit: string)
    requires AreDigits(digits) && digits != "" && UnitMultiplier(field, unit).Some?
    ensures var value := NumberOf(digits) * UnitMultiplier(field, unit).value;
            ParseAmount(field, digits + unit) ==
              if value <= I64_MAX then Some(value) else None
  {
    UnitIsNoDigit(field, unit);
    DigitsThenUnit(digits, unit);
    assert (digits + unit)[|digits|..] == unit;
    ProductBounds(NumberOf(digits), UnitMultiplier(field, unit).value);
  }

  lemma SplitFieldAt(field: SysField, rest: string)
    ensures SplitField(FieldName(field) + rest) == Some((field, rest))
    ensures !("type=" <= FieldName(field) + rest) && !("origin" <= FieldName(field) + rest)
  {
    var s := FieldName(field) + rest;
    assert s[|FieldName(field)|..] == rest;
    assert s[0] == FieldName(field)[0];
    assert FieldName(field) <= s;
  }

  lemma SplitOpAt(op: CmpOp, rest: string)
    requires rest != "" && rest[0] != '='
    ensures SplitOp(OpText(op) + rest) == Some((op, rest))
  {
    var s := OpText(op) + rest;
    assert s[|OpText(op)|..] == rest;
    assert s[|OpText(op)|] == rest[0];
    assert OpText(op) <= s;
  }

  lemma LowerDigits(s: string)
    requires AreDigits(s)
    ensures Lower(s) == s
  {
  }

  /** A comparison means the number times its unit, and is refused exactly when that does not fit. */
  lemma CompareExact(field: SysField, op: CmpOp, digits: string, unit: string)
    requires AreDigits(digits) && digits != "" && UnitMultiplier(field, unit).Some?
    ensures var value := NumberOf(digits) * UnitMultiplier(field, unit).value;
            ParseLowered(FieldName(field) + (OpText(op) + (digits + unit))) ==
              if value <= I64_MAX then Some(Compare(field, op, value)) else None
  {
    var amount := digits + unit;
    assert amount[0] == digits[0] && IsDigit(digits[0]);
    SplitFieldAt(field, OpText(op) + amount);
    SplitOpAt(op, amount);
    AmountExact(field, digits, unit);
  }

  // ---- Round trip ----------------------------------------------------------

  lemma {:induction false} TrimStartInside(s: string, c: char)
    ensures c in TrimStart(s) ==> c in s
  {
    if s != "" && IsSpace(s[0]) {
      TrimStartInside(s[1..], c);
    }
  }

  lemma TrimInside(s: string, c: char)
    ensures c in Trim(s) ==> c in s
  {
    TrimStartInside(s, c);
    TrimEndStops(TrimStart(s));
  }

  /** The values in `s` are written in lower case. */
  predicate IsLower(s: string) {
    forall c :: c in s ==> LowerChar(c) == c
  }

  lemma LowerFixpoint(s: string)
    ensures Lower(s) == s <==> IsLower(s)
  {
    if Lower(s) == s {
      forall c | c in s
        ensures LowerChar(c) == c
      {
        var i :| 0 <= i < |s| && s[i] == c;
        assert Lower(s)[i] == LowerChar(s[i]);
      }
    }
  }

  /** What is trimmed off a lowered text is a value that can be written, if anything is left. */
  lemma TrimmedValue(s: string, from: nat)
    requires from <= |s| && Lower(s) == s && Trim(s[from..]) != ""
    ensures PlainValue(Trim(s[from..]))
  {
    var value := Trim(s[from..]);
    TrimTrims(s[from..]);
    LowerFixpoint(s);
    forall c | c in value
      ensures LowerChar(c) == c
    {
      TrimInside(s[from..], c);
    }
    LowerFixpoint(value);
  }

  lemma LoweredIsWellFormed(s: string)
    requires Lower(s) == s && ParseLowered(s).Some?
    ensures WellFormedSystem(ParseLowered(s).value)
  {
    if "type=" <= s {
      TrimmedValue(s, 5);
    } else if "origin" <= s {
      assert s[6..][1..] == s[7..];
      if s[6..][1..] != "" && Trim(s[7..]) != "" {
        TrimmedValue(s, 7);
      }
    }
  }

  lemma ParsedSystemIsWellFormed(body: string)
    ensures ParseSystem(body).Ok? ==> WellFormedSystem(ParseSystem(body).value)
  {
    LowerTwice(Trim(body));
    if ParseSystem(body).Ok? {
      LoweredIsWellFormed(Lower(Trim(body)));
    }
  }

  lemma PrefixedIsPlain(head: string, value: string)
    requires head != "" && !IsSpace(head[0]) && Lower(head) == head && PlainValue(value)
    ensures PlainValue(head + value)
  {
    LowerOfConcat(head, value);
    assert (head + value)[|head + value| - 1] == value[|value| - 1];
  }

  lemma HeadIsPlain(field: SysField, op: CmpOp)
    ensures var head := FieldName(field) + OpText(op); !IsSpace(head[0]) && Lower(head) == head
  {
  }

  lemma ShownSystemIsPlain(p: SystemPredicate)
    requires WellFormedSystem(p)
    ensures PlainValue(ShowSystem(p))
  {
    match p {
      case Compare(field, op, value) =>
        HeadIsPlain(field, op);
        LowerDigits(Decimal(value));
        PrefixedIsPlain(FieldName(field) + OpText(op), Decimal(value));
      case FileType(mime) =>
        assert Lower("type=") == "type=";
        PrefixedIsPlain("type=", mime);
      case Origin(None) =>
        assert Lower("origin=manual") == "origin=manual";
      case Origin(Some(name)) =>
        assert Lower("origin=") == "origin=";
        PrefixedIsPlain("origin=", name);
    }
  }

  lemma ManualParses()
    ensures ParseLowered("origin=manual") == Some(Origin(None))
  {
    TrimTrims("manual");
    ShownOriginParses("manual");
    assert "origin=manual" == "origin=" + "manual";
  }

  lemma ShownOriginParses(value: string)
    requires Trim(value) == value && value != ""
    ensures ParseLowered("origin=" + value) == Some(Origin(if value == "manual" then None else Some(value)))
  {
    var s := "origin=" + value;
    assert s[0] == 'o';
    assert s[6..] == "=" + value;
    assert ("=" + value)[1..] == value;
  }

  lemma ShownFileTypeParses(mime: string)
    requires Trim(mime) == mime && mime != ""
    ensures ParseLowered("type=" + mime) == Some(FileType(mime))
  {
    assert ("type=" + mime)[5..] == mime;
  }

  lemma ShownComparisonParses(field: SysField, op: CmpOp, value: nat)
    requires value <= I64_MAX
    ensures ParseLowered(FieldName(field) + OpText(op) + Decimal(value)) == Some(Compare(field, op, value))
  {
    CompareExact(field, op, Decimal(value), "");
    NumberOfDecimal(value);
    assert Decimal(value) + "" == Decimal(value);
    assert FieldName(field) + (OpText(op) + Decimal(value)) == FieldName(field) + OpText(op) + Decimal(value);
  }

  lemma ShownSystemParses(p: SystemPredicate)
    requires WellFormedSystem(p)
    ensures ParseLowered(ShowSystem(p)) == Some(p)
  {
    match p {
      case Compare(field, op, value) => ShownComparisonParses(field, op, value);
      case FileType(mime) =>
        TrimTrims(mime);
        ShownFileTypeParses(mime);
      case Origin(None) => ManualParses();
      case Origin(Some(name)) =>
        TrimTrims(name);
        ShownOriginParses(name);
    }
  }

  /** Printing and parsing gives a metadata predicate back exactly when it is well-formed. */
  lemma SystemRoundTrip(p: SystemPredicate)
    ensures ParseSystem(ShowSystem(p)) == Ok(p) <==> WellFormedSystem(p)
  {
    if WellFormedSystem(p) {
      ShownSystemIsPlain(p);
      TrimTrims(ShowSystem(p));
      ShownSystemParses(p);
    } else {
      ParsedSystemIsWellFormed(ShowSystem(p));
    }
  }

  predicate SystemHas(p: SystemPredicate, c: char) {
    match p
    case Compare(_, _, _) => false
    case FileType(mime) => c in mime
    case Origin(name) => name.Some? && c in name.value
  }

  /** No mark appears in a predicate that is not in its text. */
  lemma SystemAddsNoMark(body: string, c: char)
    requires IsMark(c) && c !in body && ParseSystem(body).Ok?
    ensures !SystemHas(ParseSystem(body).value, c)
  {
    var s := Lower(Trim(body));
    TrimInside(body, c);
    MarkThroughLower(Trim(body), c);
    if "type=" <= s {
      TrimInside(s[5..], c);
    } else if "origin" <= s && "=" <= s[6..] {
      TrimInside(s[6..][1..], c);
    }
  }

  /** A mark in the printed form that is not punctuation comes from the predicate. */
  lemma ShownSystemHas(p: SystemPredicate)
    requires !SystemHas(p, '"')
    ensures '"' !in ShowSystem(p)
  {
    if p.Compare? {
      assert forall c :: c in Decimal(p.value) ==> IsDigit(c);
    }
  }
}
