/** The textual form of a proposition with its optional parameter, "Name"
 *  or "Name(n)", and the parser that reads it back. */
module PropositionCodec {
  import opened Wrappers
  import opened Propositions

  /** The largest size_t (unsigned long) on a 64-bit platform. */
  const SizeMax: nat := 0xFFFF_FFFF_FFFF_FFFF

  type SizeT = n: nat | n <= SizeMax

  /** The exceptions the parser lets escape. */
  datatype ParseError =
    | MalformedParameters  // invalid_argument: a '(' without the final ')' or the reverse
    | UnknownProposition   // logic_error: the name before '(' is not registered
    | InvalidParameter     // invalid_argument: the parameter text holds no number
    | ParameterOutOfRange  // out_of_range from the number conversion, not caught

  /** The two exceptions of the number conversion. */
  datatype StoulError = NoConversion | OutOfRange

  predicate IsDigit(c: char)
  {
    '0' <= c <= '9'
  }

  predicate AllDigits(s: string)
  {
    forall i :: 0 <= i < |s| ==> IsDigit(s[i])
  }

  function DigitChar(d: nat): (c: char)
    requires d < 10
    ensures IsDigit(c) && c as int - '0' as int == d
  {
    ('0' as int + d) as char
  }

  /** The value of a string of decimal digits, most significant first. */
  function DigitsValue(s: string): nat
    requires AllDigits(s)
  {
    if s == [] then 0 else DigitsValue(s[..|s| - 1]) * 10 + (s[|s| - 1] as int - '0' as int)
  }

  /** The decimal text of an unsigned number, as std::to_string writes
   *  it: no sign, no leading zero except for zero itself. */
  function Decimal(n: nat): (s: string)
    ensures |s| > 0 && AllDigits(s)
    ensures s[0] == '0' ==> n == 0
    decreases n
  {
    if n < 10 then [DigitChar(n)] else Decimal(n / 10) + [DigitChar(n % 10)]
  }

  /** Reading the decimal text of a number gives the number back. */
  lemma {:induction false} DecimalValue(n: nat)
    ensures DigitsValue(Decimal(n)) == n
    decreases n
  {
    if n >= 10 {
      DecimalValue(n / 10);
      var s := Decimal(n);
      assert s[..|s| - 1] == Decimal(n / 10);
    }
  }

  /** The characters strtoul skips before a number (the C locale's
   *  white space). */
  predicate IsSpace(c: char)
  {
    c == ' ' || c == '\t' || c == '\n' || c == '\U{000B}' || c == '\U{000C}' || c == '\r'
  }

  /** The number of white-space characters at the front of s. */
  function LeadingSpaces(s: string): (n: nat)
    ensures n <= |s|
    ensures forall i :: 0 <= i < n ==> IsSpace(s[i])
    ensures n < |s| ==> !IsSpace(s[n])
  {
    if s == [] || !IsSpace(s[0]) then 0 else 1 + LeadingSpaces(s[1..])
  }

  /** The number of digits at the front of s. */
  function LeadingDigits(s: string): (n: nat)
    ensures n <= |s| && AllDigits(s[..n])
    ensures n < |s| ==> !IsDigit(s[n])
  {
    if s == [] || !IsDigit(s[0]) then 0
    else
      var n := 1 + LeadingDigits(s[1..]);
      assert s[..n] == [s[0]] + s[1..][..n - 1];
      n
  }

  /** std::stoul in base 10, that is strtoul: white space is skipped, one
   *  '+' or '-' is allowed, then the longest run of digits is read and
   *  anything after it ignored. No digit at all is no conversion, a value
   *  above SizeMax is out of range, and a '-' negates the value modulo
   *  2^64. */
  function Stoul(s: string): Result<SizeT, StoulError>
  {
    var rest := s[LeadingSpaces(s)..];
    var signed := |rest| > 0 && (rest[0] == '+' || rest[0] == '-');
    var body := if signed then rest[1..] else rest;
    var digits := body[..LeadingDigits(body)];
    if digits == [] then Err(NoConversion)
    else if DigitsValue(digits) > SizeMax then Err(OutOfRange)
    else if signed && rest[0] == '-' && DigitsValue(digits) != 0 then Ok(SizeMax + 1 - DigitsValue(digits))
    else Ok(DigitsValue(digits))
  }

  /** The conversion reads back the decimal text of every size_t. */
  lemma StoulDecimal(n: SizeT)
    ensures Stoul(Decimal(n)) == Ok(n)
  {
    var s := Decimal(n);
    assert LeadingSpaces(s) == 0;
    assert s[LeadingSpaces(s)..] == s;
    LeadingDigitsAll(s);
    assert s[..|s|] == s;
    DecimalValue(n);
  }

  lemma {:induction false} LeadingDigitsAll(s: string)
    requires AllDigits(s)
    ensures LeadingDigits(s) == |s|
  {
    if s != [] {
      LeadingDigitsAll(s[1..]);
    }
  }

  /** The position of the first occurrence of c in s, if any. */
  function FirstIndexOf(s: string, c: char): (r: Option<nat>)
    ensures r.None? <==> c !in s
    ensures r.Some? ==> r.value < |s| && s[r.value] == c && c !in s[..r.value]
  {
    if s == [] then None
    else if s[0] == c then Some(0)
    else match FirstIndexOf(s[1..], c)
      case None => None
      case Some(k) =>
        assert s[..k + 1] == [s[0]] + s[1..][..k];
        Some(k + 1)
  }

  predicate EndsWith(s: string, c: char)
  {
    |s| > 0 && s[|s| - 1] == c
  }

  /** The text before the first '(' (all of s when it has none). */
  function NamePart(s: string): string
  {
    match FirstIndexOf(s, '(')
    case None => s
    case Some(k) => s[..k]
  }

  /** The text between the first '(' and the last character. */
  function ParameterText(s: string): string
    requires '(' in s && EndsWith(s, ')')
  {
    var k := FirstIndexOf(s, '(').value;
    s[k + 1..|s| - 1]
  }

  /** proposition::to_string: the registered name, followed by the
   *  parameter's decimal text in brackets when there is one. */
  function ToString(p: Proposition, parameter: Option<nat>): string
  {
    match parameter
    case None => Name(p)
    case Some(n) => Name(p) + "(" + Decimal(n) + ")"
  }

  /** proposition::from_string. */
  function FromString(s: string): Result<(Proposition, Option<SizeT>), ParseError>
  {
    var hasParameter := '(' in s;
    if hasParameter != EndsWith(s, ')') then Err(MalformedParameters)
    else match FromName(NamePart(s))
      case None => Err(UnknownProposition)
      case Some(p) =>
        if !hasParameter then Ok((p, None))
        else match Stoul(ParameterText(s))
          case Err(NoConversion) => Err(InvalidParameter)
          case Err(OutOfRange) => Err(ParameterOutOfRange)
          case Ok(n) => Ok((p, Some(n)))
  }

  /** Unmatched brackets are rejected before any name is looked up, and
   *  they are the only cause of that error. */
  lemma MalformedExactly(s: string)
    ensures FromString(s) == Err(MalformedParameters) <==> ('(' in s) != EndsWith(s, ')')
  {
  }

  /** With matching brackets, an unregistered name is the only cause of
   *  the unknown-proposition error. */
  lemma UnknownExactly(s: string)
    ensures FromString(s) == Err(UnknownProposition)
        <==> ('(' in s) == EndsWith(s, ')') && FromName(NamePart(s)).None?
  {
  }

  /** A string without parameter parses to p exactly when it is p's name. */
  lemma ParseBareName(s: string, p: Proposition)
    ensures FromString(s) == Ok((p, None)) <==> s == Name(p)
  {
    if s == Name(p) {
      TableEntry(p);
      assert '(' !in s;
      assert !EndsWith(s, ')');
    }
    if FromString(s) == Ok((p, None)) {
      FromNameExact(s, p);
    }
  }

  /** A string parses to p with parameter n exactly when its brackets match,
   *  the text before the first '(' is p's name and the number conversion
   *  reads n from the text between the brackets. */
  lemma ParseWithParameter(s: string, p: Proposition, n: SizeT)
    ensures FromString(s) == Ok((p, Some(n)))
        <==> '(' in s && EndsWith(s, ')') && NamePart(s) == Name(p) && Stoul(ParameterText(s)) == Ok(n)
  {
    FromNameExact(NamePart(s), p);
  }

  /** A registered name followed by a bracketed text parses to that
   *  proposition, with whatever the number conversion makes of the text. */
  lemma ParseBracketed(p: Proposition, text: string)
    ensures var s := Name(p) + "(" + text + ")";
      && (Stoul(text).Ok? ==> FromString(s) == Ok((p, Some(Stoul(text).value))))
      && (Stoul(text) == Err(NoConversion) ==> FromString(s) == Err(InvalidParameter))
      && (Stoul(text) == Err(OutOfRange) ==> FromString(s) == Err(ParameterOutOfRange))
  {
    TableEntry(p);
    var s, name := Name(p) + "(" + text + ")", Name(p);
    assert s[..|name|] == name;
    FirstIndexOfAfter(name, s);
    assert NamePart(s) == name;
    assert ParameterText(s) == text;
  }

  /** Round trip: parsing what to_string writes gives back the proposition
   *  and the parameter. */
  lemma RoundTrip(p: Proposition, parameter: Option<SizeT>)
    ensures FromString(ToString(p, parameter)) == Ok((p, parameter))
  {
    match parameter
    case None =>
      ParseBareName(Name(p), p);
    case Some(n) =>
      StoulDecimal(n);
      ParseBracketed(p, Decimal(n));
  }

  /** When the first '(' of s comes right after a bracket-free prefix, its
   *  position is the prefix's length. */
  lemma FirstIndexOfAfter(prefix: string, s: string)
    requires Unbracketed(prefix) && |prefix| < |s| && s[..|prefix|] == prefix && s[|prefix|] == '('
    ensures FirstIndexOf(s, '(') == Some(|prefix|)
  {
    var r := FirstIndexOf(s, '(');
    if r.value < |prefix| {
      assert false;
    } else if r.value > |prefix| {
      assert false;
    }
  }

  /** A string with a '(' and a final ')' is its name part, the bracket,
   *  its parameter text and the closing bracket. */
  lemma SplitAtParameter(s: string)
    requires '(' in s && EndsWith(s, ')')
    ensures s == NamePart(s) + "(" + ParameterText(s) + ")"
  {
  }

  /** Two bracketed parameters after the same name agree exactly when the
   *  parameter texts do. */
  lemma BracketedEquality(name: string, text: string, other: string)
    ensures name + "(" + text + ")" == name + "(" + other + ")" <==> text == other
  {
    var s, t := name + "(" + text + ")", name + "(" + other + ")";
    if s == t {
      assert text == s[|name| + 1..|s| - 1];
      assert other == t[|name| + 1..|t| - 1];
    }
  }

  /** The converse round trip: to_string gives back the parsed string
   *  exactly when it had no parameter or its parameter text was the
   *  canonical decimal text of the number. */
  lemma ToStringOfParsed(s: string, p: Proposition, parameter: Option<SizeT>)
    requires FromString(s) == Ok((p, parameter))
    ensures parameter.None? ==> ToString(p, parameter) == s
    ensures parameter.Some? ==> (ToString(p, parameter) == s <==> ParameterText(s) == Decimal(parameter.value))
  {
    match parameter
    case None =>
      ParseBareName(s, p);
    case Some(n) =>
      ParseWithParameter(s, p, n);
      SplitAtParameter(s);
      BracketedEquality(Name(p), ParameterText(s), Decimal(n));
  }

  /** With matching brackets around a registered name, the number
   *  conversion's two failures become the two parameter errors. */
  lemma ParameterErrors(s: string)
    requires '(' in s && EndsWith(s, ')') && FromName(NamePart(s)).Some?
    ensures FromString(s) == Err(InvalidParameter) <==> Stoul(ParameterText(s)) == Err(NoConversion)
    ensures FromString(s) == Err(ParameterOutOfRange) <==> Stoul(ParameterText(s)) == Err(OutOfRange)
  {
  }

  /** The conversion skips a leading white-space character. */
  lemma StoulSkipsSpace(c: char, text: string)
    requires IsSpace(c)
    ensures Stoul([c] + text) == Stoul(text)
  {
    assert ([c] + text)[1..] == text;
    assert ([c] + text)[LeadingSpaces([c] + text)..] == text[LeadingSpaces(text)..];
  }

  /** The conversion stops at the first non-digit and ignores the rest. */
  lemma StoulIgnoresTrailing(n: SizeT, text: string)
    requires text == [] || !IsDigit(text[0])
    ensures Stoul(Decimal(n) + text) == Ok(n)
  {
    var d := Decimal(n);
    var s := d + text;
    assert LeadingSpaces(s) == 0;
    assert s[0..] == s;
    LeadingDigitsPrefix(d, text);
    assert s[..|d|] == d;
    DecimalValue(n);
  }

  /** The number of leading digits of a digit string followed by a
   *  non-digit is the digit string's length. */
  lemma {:induction false} LeadingDigitsPrefix(digits: string, text: string)
    requires AllDigits(digits) && (text == [] || !IsDigit(text[0]))
    ensures LeadingDigits(digits + text) == |digits|
  {
    if digits != [] {
      assert (digits + text)[1..] == digits[1..] + text;
      LeadingDigitsPrefix(digits[1..], text);
    }
  }

  /** A '-' before the digits wraps the value around modulo 2^64. */
  lemma StoulNegative(n: SizeT)
    ensures Stoul("-" + Decimal(n)) == Ok(if n == 0 then 0 else SizeMax + 1 - n)
  {
    var d := Decimal(n);
    var s := "-" + d;
    assert LeadingSpaces(s) == 0;
    assert s[0..] == s && s[1..] == d;
    LeadingDigitsAll(d);
    assert d[..|d|] == d;
    DecimalValue(n);
  }

  /** A value above SizeMax is out of range. */
  lemma StoulOutOfRange(n: nat)
    requires n > SizeMax
    ensures Stoul(Decimal(n)) == Err(OutOfRange)
  {
    var d := Decimal(n);
    assert LeadingSpaces(d) == 0;
    assert d[0..] == d;
    LeadingDigitsAll(d);
    assert d[..|d|] == d;
    DecimalValue(n);
  }

  /** Text that starts with neither white space, a sign nor a digit holds
   *  no number. */
  lemma StoulNoDigits(text: string)
    requires text == [] || (!IsSpace(text[0]) && !IsDigit(text[0]) && text[0] != '+' && text[0] != '-')
    ensures Stoul(text) == Err(NoConversion)
  {
    assert text[0..] == text;
  }

  /** Text in brackets that is not the canonical decimal text of a number
   *  never comes out of to_string. */
  lemma NonCanonicalNotPrinted(p: Proposition, n: SizeT, text: string)
    requires text != Decimal(n)
    ensures ToString(p, Some(n)) != Name(p) + "(" + text + ")"
  {
    BracketedEquality(Name(p), Decimal(n), text);
  }

  /** The parser also accepts parameter text that to_string never writes,
   *  so such strings do not print back as they were read: a leading
   *  space, ... */
  lemma LeadingSpaceParameter(p: Proposition, n: SizeT)
    ensures FromString(Name(p) + "(" + (" " + Decimal(n)) + ")") == Ok((p, Some(n)))
    ensures ToString(p, Some(n)) != Name(p) + "(" + (" " + Decimal(n)) + ")"
  {
    var d := Decimal(n);
    StoulSkipsSpace(' ', d);
    StoulDecimal(n);
    assert " " + d == [' '] + d;
    ParseBracketed(p, " " + d);
    assert (" " + d)[0] != d[0];
    NonCanonicalNotPrinted(p, n, " " + d);
  }

  /** ... trailing characters after the digits, ... */
  lemma TrailingTextParameter(p: Proposition, n: SizeT)
    ensures FromString(Name(p) + "(" + (Decimal(n) + "x") + ")") == Ok((p, Some(n)))
    ensures ToString(p, Some(n)) != Name(p) + "(" + (Decimal(n) + "x") + ")"
  {
    var d := Decimal(n);
    StoulIgnoresTrailing(n, "x");
    ParseBracketed(p, d + "x");
    assert |d + "x"| != |d|;
    NonCanonicalNotPrinted(p, n, d + "x");
  }

  /** ... and a minus sign, which wraps the value around. */
  lemma NegativeParameter(p: Proposition, n: SizeT)
    ensures FromString(Name(p) + "(" + ("-" + Decimal(n)) + ")")
         == Ok((p, Some(if n == 0 then 0 else SizeMax + 1 - n)))
  {
    StoulNegative(n);
    ParseBracketed(p, "-" + Decimal(n));
  }

  /** An unbalanced bracket after a registered name is malformed. */
  lemma UnbalancedExamples(p: Proposition)
    ensures FromString(Name(p) + "(") == Err(MalformedParameters)
    ensures FromString(Name(p) + ")") == Err(MalformedParameters)
  {
    TableEntry(p);
    var name := Name(p);
    assert (name + "(")[|name|] == '(';
    assert '(' !in name + ")" by {
      assert forall i :: 0 <= i < |name| ==> (name + ")")[i] == name[i];
    }
  }

  /** A string that opens with a bracket names no proposition. */
  lemma NoNameExample(p: Proposition)
    ensures FromString("(" + Name(p) + ")") == Err(UnknownProposition)
  {
    var u := "(" + Name(p) + ")";
    assert FirstIndexOf(u, '(') == Some(0);
    assert NamePart(u) == [];
    if FromName([]).Some? {
      FromNameExact([], FromName([]).value);
      TableEntry(FromName([]).value);
    }
  }

  /** Empty brackets and a number beyond the parameter range are rejected. */
  lemma ParameterExamples(p: Proposition)
    ensures FromString(Name(p) + "()") == Err(InvalidParameter)
    ensures FromString(Name(p) + "(" + Decimal(SizeMax + 1) + ")") == Err(ParameterOutOfRange)
  {
    TableEntry(p);
    StoulNoDigits("");
    ParseBracketed(p, "");
    assert Name(p) + "()" == Name(p) + "(" + "" + ")";
    StoulOutOfRange(SizeMax + 1);
    ParseBracketed(p, Decimal(SizeMax + 1));
  }
}
