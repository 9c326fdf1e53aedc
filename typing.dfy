/**
 * The `typing` package's data types as its tests pin them down: the enum
 * ordinals, the name <-> type tables (`TypeFromString`, `StringFromType`),
 * the classification of Go values (`TypeFromValue`) and the way
 * `ReformatValue` turns `json.Number` text into an int64 or a float64.
 */
module Typing {
  import opened Wrappers

  /** The column data types, declared in ordinal order. */
  datatype DataType = UNKNOWN | INT64 | FLOAT64 | STRING | TIMESTAMP

  /** The integer a `DataType` converts to. */
  function Ordinal(t: DataType): nat {
    match t
    case UNKNOWN => 0
    case INT64 => 1
    case FLOAT64 => 2
    case STRING => 3
    case TIMESTAMP => 4
  }

  /** Go's conversion `DataType(n)`, restricted to the declared constants. */
  function FromOrdinal(n: int): (r: Option<DataType>)
    ensures r.Some? <==> 0 <= n < 5
  {
    if n == 0 then Some(UNKNOWN)
    else if n == 1 then Some(INT64)
    else if n == 2 then Some(FLOAT64)
    else if n == 3 then Some(STRING)
    else if n == 4 then Some(TIMESTAMP)
    else None
  }

  /** The ordinals are the ones the tests fix. */
  lemma OrdinalsPinned()
    ensures Ordinal(UNKNOWN) == 0 && Ordinal(INT64) == 1 && Ordinal(FLOAT64) == 2
    ensures Ordinal(STRING) == 3 && Ordinal(TIMESTAMP) == 4
  {
  }

  /** `Ordinal` and `FromOrdinal` are inverse to each other. */
  lemma OrdinalRoundTrip(t: DataType, n: int)
    ensures FromOrdinal(Ordinal(t)) == Some(t)
    ensures FromOrdinal(n).Some? ==> Ordinal(FromOrdinal(n).value) == n
  {
  }

  /** `DataType.String()`: the constant's own name, an upper-case identifier. */
  function Name(t: DataType): (r: string)
    ensures r != [] && forall k :: 0 <= k < |r| ==> 'A' <= r[k] <= 'Z' || '0' <= r[k] <= '9'
  {
    match t
    case UNKNOWN => "UNKNOWN"
    case INT64 => "INT64"
    case FLOAT64 => "FLOAT64"
    case STRING => "STRING"
    case TIMESTAMP => "TIMESTAMP"
  }

  /** Distinct types print differently. */
  lemma NameInjective(t: DataType, u: DataType)
    requires Name(t) == Name(u)
    ensures t == u
  {
  }

  // ---------------------------------------------------------------------
  // Go values as far as the tests distinguish them
  // ---------------------------------------------------------------------

  datatype IntKind = GoInt | GoInt8 | GoInt16 | GoInt32 | GoInt64
  datatype FloatKind = GoFloat32 | GoFloat64

  /**
   * A dynamically typed Go value (`interface{}`). Floating-point values carry
   * no number: only their kind is modelled. `Number` is a `json.Number`.
   */
  datatype GoValue =
    | Nil
    | Bool(b: bool)
    | Str(s: string)
    | Int(intKind: IntKind, i: int)
    | Float(floatKind: FloatKind)
    | Number(text: string)

  /** The values `TypeFromValue` has a data type for. */
  predicate Classifiable(v: GoValue) {
    v.Str? || v.Int? || v.Float?
  }

  datatype TypingError =
    | UnknownCastingType(input: string)
    | NoStringForType(t: DataType)
    | UnknownValueType(v: GoValue)

  /** `%v` of a value that has no data type. */
  function FormatValue(v: GoValue): string
    requires !Classifiable(v)
  {
    match v
    case Nil => "<nil>"
    case Bool(b) => if b then "true" else "false"
    case Number(text) => text
  }

  /**
   * `%t` of a value that has no data type: a bool prints itself, anything else
   * prints fmt's bad-verb form.
   */
  function FormatBoolVerb(v: GoValue): string
    requires !Classifiable(v)
  {
    match v
    case Nil => "%!t(<nil>)"
    case Bool(b) => if b then "true" else "false"
    case Number(text) => "%!t(json.Number=" + text + ")"
  }

  const CastingPrefix := "Unknown casting type: "
  const NoStringPrefix := "Unable to get string from DataType for: "
  const ValuePrefix := "Unknown DataType for value: "

  /** The text of each error: a prefix naming the kind of error, then what it is about. */
  function Message(e: TypingError): (r: string)
    requires e.UnknownValueType? ==> !Classifiable(e.v)
    ensures e.UnknownCastingType? ==> CastingPrefix <= r && r[|CastingPrefix|..] == e.input
    ensures e.NoStringForType? ==> NoStringPrefix <= r && r[|NoStringPrefix|..] == Name(e.t)
    ensures e.UnknownValueType? ==> ValuePrefix <= r
  {
    match e
    case UnknownCastingType(input) => CastingPrefix + input
    case NoStringForType(t) => NoStringPrefix + Name(t)
    case UnknownValueType(v) =>
      ValuePrefix + FormatValue(v) + " type: " + FormatBoolVerb(v)
  }

  // ---------------------------------------------------------------------
  // Type names
  // ---------------------------------------------------------------------

  /** The characters `strings.TrimSpace` removes (the ASCII ones). */
  predicate IsSpace(c: char) {
    c == ' ' || c == '\t' || c == '\n' || c == '\r' || c == '\U{0B}' || c == '\U{0C}'
  }

  /** The number of whitespace characters `s` starts with. */
  function LeadingSpaces(s: string): (n: nat)
    ensures n <= |s|
    ensures forall k :: 0 <= k < n ==> IsSpace(s[k])
    ensures n < |s| ==> !IsSpace(s[n])
  {
    if s != [] && IsSpace(s[0]) then 1 + LeadingSpaces(s[1..]) else 0
  }

  /** The number of whitespace characters `s` ends with. */
  function TrailingSpaces(s: string): (n: nat)
    ensures n <= |s|
    ensures forall k :: |s| - n <= k < |s| ==> IsSpace(s[k])
    ensures n < |s| ==> !IsSpace(s[|s| - 1 - n])
  {
    if s != [] && IsSpace(s[|s| - 1]) then 1 + TrailingSpaces(s[..|s| - 1]) else 0
  }

  /**
   * `r` is the slice of `s` starting at `lo`, everything outside it is
   * whitespace, and `r` neither starts nor ends with whitespace.
   */
  predicate TrimmedAt(r: string, s: string, lo: nat) {
    && lo + |r| <= |s|
    && r == s[lo..lo + |r|]
    && (r == [] || (!IsSpace(r[0]) && !IsSpace(r[|r| - 1])))
    && (forall k :: 0 <= k < lo ==> IsSpace(s[k]))
    && (forall k :: lo + |r| <= k < |s| ==> IsSpace(s[k]))
  }

  /** `strings.TrimSpace`. */
  function TrimSpace(s: string): (r: string)
    ensures TrimmedAt(r, s, LeadingSpaces(s))
  {
    var lo := LeadingSpaces(s);
    var t := TrailingSpaces(s[lo..]);
    s[lo..|s| - t]
  }

  function ToLowerChar(c: char): char {
    if 'A' <= c <= 'Z' then (c as int + 32) as char else c
  }

  predicate IsUpper(c: char) {
    'A' <= c <= 'Z'
  }

  /** `strings.ToLower` on ASCII letters: upper-case letters become lower case, nothing else changes. */
  function ToLower(s: string): (r: string)
    ensures |r| == |s|
    ensures forall k :: 0 <= k < |s| ==> !IsUpper(r[k])
    ensures forall k :: 0 <= k < |s| && !IsUpper(s[k]) ==> r[k] == s[k]
    ensures forall k :: 0 <= k < |s| && IsUpper(s[k]) ==> r[k] as int == s[k] as int + 32
  {
    seq(|s|, k requires 0 <= k < |s| => ToLowerChar(s[k]))
  }

  /** The form of a type name that the lookup compares: trimmed and lower case. */
  function Normalize(s: string): (r: string)
    ensures |r| <= |s|
    ensures r == [] || (!IsSpace(r[0]) && !IsSpace(r[|r| - 1]))
    ensures forall k :: 0 <= k < |r| ==> !IsUpper(r[k])
  {
    var t := TrimSpace(s);
    assert t == [] || (!IsSpace(t[0]) && !IsSpace(t[|t| - 1]));
    ToLower(t)
  }

  /** The name of each known type; UNKNOWN has none. */
  function StringFromType(t: DataType): (r: Result<string, TypingError>)
    ensures r.Failure? <==> t == UNKNOWN
    ensures r.Failure? ==> r.error == NoStringForType(t)
  {
    match t
    case UNKNOWN => Failure(NoStringForType(t))
    case INT64 => Success("integer")
    case FLOAT64 => Success("double")
    case STRING => Success("string")
    case TIMESTAMP => Success("timestamp")
  }

  /** The names the tests expect for each type. */
  lemma StringFromTypePinned()
    ensures StringFromType(STRING) == Success("string")
    ensures StringFromType(INT64) == Success("integer")
    ensures StringFromType(FLOAT64) == Success("double")
    ensures StringFromType(TIMESTAMP) == Success("timestamp")
    ensures StringFromType(UNKNOWN) == Failure(NoStringForType(UNKNOWN))
  {
  }

  /** The type whose name is exactly `key`. */
  function TypeOfName(key: string): (r: Option<DataType>)
    ensures r.Some? ==> r.value != UNKNOWN && StringFromType(r.value) == Success(key)
  {
    if key == "string" then Some(STRING)
    else if key == "integer" then Some(INT64)
    else if key == "double" then Some(FLOAT64)
    else if key == "timestamp" then Some(TIMESTAMP)
    else None
  }

  /** The type a (trimmed, case-insensitive) name denotes. */
  function TypeFromString(s: string): (r: Result<DataType, TypingError>)
    ensures r.Success? ==> r.value != UNKNOWN && StringFromType(r.value) == Success(Normalize(s))
    ensures r.Failure? ==> r.error == UnknownCastingType(s)
  {
    match TypeOfName(Normalize(s))
    case Some(t) => Success(t)
    case None => Failure(UnknownCastingType(s))
  }

  /** A name that is already trimmed and lower case is its own normal form. */
  lemma {:induction false} NormalizeCanonical(s: string)
    requires s == [] || (!IsSpace(s[0]) && !IsSpace(s[|s| - 1]))
    requires forall k :: 0 <= k < |s| ==> !IsUpper(s[k])
    ensures Normalize(s) == s
  {
    assert LeadingSpaces(s) == 0;
    assert TrailingSpaces(s) == 0;
    assert TrimSpace(s) == s;
  }

  /** Normalising twice is normalising once. */
  lemma NormalizeIdempotent(s: string)
    ensures Normalize(Normalize(s)) == Normalize(s)
  {
    NormalizeCanonical(Normalize(s));
  }

  lemma KnownNameCanonical(name: string)
    requires name == "integer" || name == "double" || name == "string" || name == "timestamp"
    ensures Normalize(name) == name
  {
    NormalizeCanonical(name);
  }

  /** Looking up the name of a known type finds that type. */
  lemma {:induction false} NameLookup(name: string, t: DataType)
    requires t != UNKNOWN && StringFromType(t) == Success(name)
    ensures TypeFromString(name) == Success(t)
  {
    match t
    case INT64 => KnownNameCanonical("integer");
    case FLOAT64 => KnownNameCanonical("double");
    case STRING => KnownNameCanonical("string");
    case TIMESTAMP => KnownNameCanonical("timestamp");
  }

  /** Every known type survives the trip through its name. */
  lemma {:induction false} NameRoundTrip(t: DataType)
    requires t != UNKNOWN
    ensures StringFromType(t).Success?
    ensures TypeFromString(StringFromType(t).value) == Success(t)
  {
    NameLookup(StringFromType(t).value, t);
  }

  /** A name is rejected exactly when no type has that name after trimming and lower-casing. */
  lemma TypeFromStringRejects(s: string)
    ensures TypeFromString(s).Failure? <==> forall t :: StringFromType(t) != Success(Normalize(s))
  {
  }

  lemma {:induction false} PaddedMixedCase(s: string)
    requires s == " InTeGer "
    ensures TypeFromString(s) == Success(INT64)
  {
    assert LeadingSpaces(s[1..]) == 0;
    assert LeadingSpaces(s) == 1;
    assert TrailingSpaces(s[1..][..|s[1..]| - 1]) == 0;
    assert TrailingSpaces(s[1..]) == 1;
    assert TrimSpace(s) == "InTeGer";
    assert ToLower("InTeGer") == "integer";
  }

  lemma {:induction false} UnknownName(s: string)
    requires s == "" || s == "float"
    ensures TypeFromString(s) == Failure(UnknownCastingType(s))
  {
    NormalizeCanonical(s);
  }

  /** The names the tests look up. */
  lemma {:induction false} TypeFromStringPinned()
    ensures TypeFromString(" InTeGer ") == Success(INT64)
    ensures TypeFromString("string") == Success(STRING)
    ensures TypeFromString("double") == Success(FLOAT64)
    ensures TypeFromString("timestamp") == Success(TIMESTAMP)
  {
    PaddedMixedCase(" InTeGer ");
    NameLookup("string", STRING);
    NameLookup("double", FLOAT64);
    NameLookup("timestamp", TIMESTAMP);
  }

  /** The names the tests reject, and the error texts they expect. */
  lemma {:induction false} TypeFromStringErrorsPinned()
    ensures TypeFromString("") == Failure(UnknownCastingType(""))
    ensures TypeFromString("float") == Failure(UnknownCastingType("float"))
  {
    UnknownName("");
    UnknownName("float");
  }

  /** The error texts of the name lookups, as the tests expect them. */
  lemma CastingMessagesPinned()
    ensures Message(UnknownCastingType("")) == "Unknown casting type: "
    ensures Message(UnknownCastingType("float")) == "Unknown casting type: float"
    ensures Message(NoStringForType(UNKNOWN)) == "Unable to get string from DataType for: UNKNOWN"
  {
  }

  // ---------------------------------------------------------------------
  // Types of Go values
  // ---------------------------------------------------------------------

  /** The data type of a Go value: strings, every integer width and both float widths. */
  function TypeFromValue(v: GoValue): (r: Result<DataType, TypingError>)
    ensures r.Success? <==> Classifiable(v)
    ensures r.Success? ==> r.value != UNKNOWN && r.value != TIMESTAMP
    ensures v.Str? ==> r == Success(STRING)
    ensures v.Int? ==> r == Success(INT64)
    ensures v.Float? ==> r == Success(FLOAT64)
    ensures r.Failure? ==> r.error == UnknownValueType(v)
  {
    match v
    case Str(_) => Success(STRING)
    case Int(_, _) => Success(INT64)
    case Float(_) => Success(FLOAT64)
    case _ => Failure(UnknownValueType(v))
  }

  /** The classifications and error texts the tests expect. */
  lemma TypeFromValuePinned()
    ensures TypeFromValue(Str("abc")) == Success(STRING)
    ensures forall k: FloatKind :: TypeFromValue(Float(k)) == Success(FLOAT64)
    ensures forall k: IntKind :: TypeFromValue(Int(k, 123)) == Success(INT64)
    ensures TypeFromValue(Nil) == Failure(UnknownValueType(Nil))
    ensures TypeFromValue(Bool(true)) == Failure(UnknownValueType(Bool(true)))
  {
  }

  /** The error texts for values without a data type, as the tests expect them. */
  lemma ValueMessagesPinned()
    ensures Message(UnknownValueType(Nil)) == "Unknown DataType for value: " + "<nil>" + " type: " + "%!t(<nil>)"
    ensures Message(UnknownValueType(Bool(true))) == "Unknown DataType for value: " + "true" + " type: " + "true"
  {
  }

  // ---------------------------------------------------------------------
  // Decimal text: strconv.ParseInt(s, 10, 64) and strconv.ParseFloat(s, 64)
  // ---------------------------------------------------------------------

  const MinInt64: int := -0x8000_0000_0000_0000
  const MaxInt64: int := 0x7FFF_FFFF_FFFF_FFFF

  predicate IsDigit(c: char) {
    '0' <= c <= '9'
  }

  predicate AllDigits(s: string) {
    forall k :: 0 <= k < |s| ==> IsDigit(s[k])
  }

  /** The number a string of decimal digits denotes. */
  function DigitsValue(s: string): nat
    requires AllDigits(s)
  {
    if s == [] then 0 else DigitsValue(s[..|s| - 1]) * 10 + (s[|s| - 1] as int - '0' as int)
  }

  /** The text after an optional leading `+` or `-`. */
  function Unsigned(s: string): (r: string)
    ensures r == s || (s != [] && (s[0] == '+' || s[0] == '-') && r == s[1..])
  {
    if s != [] && (s[0] == '+' || s[0] == '-') then s[1..] else s
  }

  /** `strconv.ParseInt(text, 10, 64)`: an optional sign and decimal digits, in the int64 range. */
  function ParseInt64(text: string): (r: Option<int>)
    ensures r.Some? ==> MinInt64 <= r.value <= MaxInt64
    ensures r.Some? ==> Unsigned(text) != [] && AllDigits(Unsigned(text))
    ensures r.Some? && text[0] == '-' ==> r.value <= 0
    ensures r.Some? && text[0] != '-' ==> r.value >= 0
  {
    var digits := Unsigned(text);
    if digits == [] || !AllDigits(digits) then None
    else
      var v := if text[0] == '-' then -(DigitsValue(digits) as int) else DigitsValue(digits);
      if MinInt64 <= v <= MaxInt64 then Some(v) else None
  }

  /** The digit character of `d`. */
  function DigitChar(d: nat): char
    requires d < 10
  {
    ('0' as int + d) as char
  }

  /** The decimal digits of `n`, without leading zeros. */
  function Digits(n: nat): (r: string)
    ensures r != [] && AllDigits(r)
    decreases n
  {
    if n < 10 then [DigitChar(n)] else Digits(n / 10) + [DigitChar(n % 10)]
  }

  /** `strconv.FormatInt(n, 10)`. */
  function FormatInt(n: int): string {
    if n < 0 then "-" + Digits(-n) else Digits(n)
  }

  lemma {:induction false} DigitsValueOfDigits(n: nat)
    ensures DigitsValue(Digits(n)) == n
    decreases n
  {
    if n >= 10 {
      var s := Digits(n);
      assert s[..|s| - 1] == Digits(n / 10);
      DigitsValueOfDigits(n / 10);
    }
  }

  /** Every int64 printed in decimal parses back to itself. */
  lemma {:induction false} ParseFormatRoundTrip(n: int)
    requires MinInt64 <= n <= MaxInt64
    ensures ParseInt64(FormatInt(n)) == Some(n)
  {
    if n < 0 {
      assert Unsigned(FormatInt(n)) == Digits(-n);
      DigitsValueOfDigits(-n);
    } else {
      assert Unsigned(FormatInt(n)) == Digits(n);
      DigitsValueOfDigits(n);
    }
  }

  /** The index of the first `a` or `b` in `s`, or `|s|` when there is none. */
  function FirstOf(s: string, a: char, b: char): (i: nat)
    ensures i <= |s|
    ensures i < |s| ==> s[i] == a || s[i] == b
    ensures forall k :: 0 <= k < i ==> s[k] != a && s[k] != b
  {
    if s == [] || s[0] == a || s[0] == b then 0 else 1 + FirstOf(s[1..], a, b)
  }

  /** The index of the first `c` in `s`, or `|s|` when there is none. */
  function IndexOf(s: string, c: char): (i: nat)
    ensures i <= |s|
    ensures i < |s| ==> s[i] == c
    ensures forall k :: 0 <= k < i ==> s[k] != c
  {
    if s == [] || s[0] == c then 0 else 1 + IndexOf(s[1..], c)
  }

  /** Digits with at most one `.`, and at least one digit. */
  predicate MantissaSyntax(m: string) {
    var dot := IndexOf(m, '.');
    if dot == |m| then m != [] && AllDigits(m)
    else |m| > 1 && AllDigits(m[..dot]) && AllDigits(m[dot + 1..])
  }

  /** The decimal syntax `strconv.ParseFloat` accepts: sign, mantissa, optional exponent. */
  predicate DecimalFloatSyntax(text: string) {
    var body := Unsigned(text);
    var e := FirstOf(body, 'e', 'E');
    && MantissaSyntax(body[..e])
    && (e < |body| ==> Unsigned(body[e + 1..]) != [] && AllDigits(Unsigned(body[e + 1..])))
  }

  /**
   * `ReformatValue`: a `json.Number` becomes an int64 when its text parses as one,
   * else a float64 when it parses as a float; anything else is returned as it is.
   */
  function ReformatValue(v: GoValue): (r: GoValue)
    ensures !v.Number? ==> r == v
    ensures v.Number? ==> r == v || r.Float? || r.Int?
    ensures r.Int? && v.Number? ==> r.intKind == GoInt64 && Some(r.i) == ParseInt64(v.text)
    ensures r.Float? && v.Number? ==> r.floatKind == GoFloat64 && DecimalFloatSyntax(v.text)
  {
    match v
    case Number(text) =>
      var n := ParseInt64(text);
      if n.Some? then Int(GoInt64, n.value)
      else if DecimalFloatSyntax(text) then Float(GoFloat64)
      else v
    case _ => v
  }

  /**
   * Integer text never fails the float syntax, so in the model an int64
   * overflow still becomes a float64 (float64 overflow is not modelled).
   */
  lemma {:induction false} IntegerTextIsFloatText(text: string)
    requires Unsigned(text) != [] && AllDigits(Unsigned(text))
    ensures DecimalFloatSyntax(text)
    ensures ParseInt64(text).None? ==> ReformatValue(Number(text)) == Float(GoFloat64)
  {
    var body := Unsigned(text);
    var e := FirstOf(body, 'e', 'E');
    assert e == |body|;
    assert body[..e] == body;
    assert IndexOf(body, '.') == |body|;
  }

  /** Reformatting a number makes it classifiable exactly when its text parses. */
  lemma ReformatThenClassify(text: string)
    ensures TypeFromValue(ReformatValue(Number(text))) ==
      if ParseInt64(text).Some? then Success(INT64)
      else if DecimalFloatSyntax(text) then Success(FLOAT64)
      else Failure(UnknownValueType(Number(text)))
  {
  }

  lemma {:induction false} DecimalTextIsFloat(text: string)
    requires text == "5.5" || text == "5.0"
    ensures ReformatValue(Number(text)) == Float(GoFloat64)
  {
    assert FirstOf(text[1..][1..], 'e', 'E') == 1;
    assert FirstOf(text[1..], 'e', 'E') == 2;
    assert FirstOf(text, 'e', 'E') == 3;
    assert IndexOf(text[1..], '.') == 0;
    assert IndexOf(text, '.') == 1;
    assert !IsDigit(text[1]);
  }

  lemma {:induction false} BadTextStaysNumber(text: string)
    requires text == "aa" || text == ""
    ensures ReformatValue(Number(text)) == Number(text)
  {
    if text == "aa" {
      assert !IsDigit(text[0]);
      assert FirstOf(text[1..], 'e', 'E') == 1;
      assert FirstOf(text, 'e', 'E') == 2;
      assert IndexOf(text[1..], '.') == 1;
      assert IndexOf(text, '.') == 2;
    }
  }

  /** The classifications the tests expect. */
  lemma {:induction false} ReformatPinned()
    ensures ReformatValue(Number("5")) == Int(GoInt64, 5)
    ensures ReformatValue(Number("5.5")) == Float(GoFloat64)
    ensures ReformatValue(Number("5.0")) == Float(GoFloat64)
    ensures ReformatValue(Number("aa")) == Number("aa")
    ensures ReformatValue(Number("")) == Number("")
    ensures ReformatValue(Bool(true)) == Bool(true)
    ensures ReformatValue(Str("v")) == Str("v")
    ensures ReformatValue(Nil) == Nil
  {
    ParseFormatRoundTrip(5);
    assert FormatInt(5) == "5";
    DecimalTextIsFloat("5.5");
    DecimalTextIsFloat("5.0");
    BadTextStaysNumber("aa");
    BadTextStaysNumber("");
  }
}
