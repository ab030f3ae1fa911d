/** Printing a data type and parsing what has been printed, down to the decimal digits.

    The parser works on a C string: position |s| holds the terminating zero, and `strtoul` is the one of the C
    library with its white space, signs and saturation. */
module TypeString {
  import opened Wrappers

  /** `PELIType`: 8 bits of code, 8 bits of width, 16 bits of lanes. */
  datatype TypeFields = PELIType(code: nat, bits: nat, lanes: nat)

  type PELIType = t: TypeFields | t.code < 256 && t.bits < 256 && t.lanes < 65536
    witness PELIType(0, 0, 0)

  const DL_INT: nat := 0
  const DL_UINT: nat := 1
  const DL_FLOAT: nat := 2
  const HANDLE: nat := 3

  function TypeCode2Str(code: nat): Option<string> {
    if code == DL_INT then Some("int")
    else if code == DL_UINT then Some("uint")
    else if code == DL_FLOAT then Some("float")
    else if code == HANDLE then Some("handle")
    else if code == 4 then Some("NULL")
    else if code == 5 then Some("PELIType")
    else if code == 6 then Some("PELIContext")
    else if code == 7 then Some("ArrayHandle")
    else if code == 8 then Some("NodeHandle")
    else if code == 9 then Some("ModuleHandle")
    else if code == 10 then Some("FunctionHandle")
    else if code == 11 then Some("str")
    else if code == 12 then Some("bytes")
    else if code == 13 then Some("NDArrayContainer")
    else None
  }

  // ----- Printing -----

  function Decimal(n: nat): string {
    if n < 10 then [Digit(n)] else Decimal(n / 10) + [Digit(n % 10)]
  }

  function Digit(d: nat): char
    requires d < 10
  {
    '0' + d as char
  }

  /** `operator<<`; nothing is printed of a code that has no name. */
  function Shown(t: PELIType): Option<string> {
    if t.bits == 1 && t.lanes == 1 && t.code == DL_UINT then Some("bool")
    else
      match TypeCode2Str(t.code)
      case None => None
      case Some(name) =>
        if t.code == HANDLE then Some(name)
        else Some(name + Decimal(t.bits) + if t.lanes != 1 then "x" + Decimal(t.lanes) else "")
  }

  function PELIType2String(t: PELIType): Option<string> {
    if t.bits == 0 then Some("") else Shown(t)
  }

  // ----- strtoul -----

  const ULONG_MAX: nat := 0xFFFF_FFFF_FFFF_FFFF

  predicate IsDigit(c: char) {
    '0' <= c <= '9'
  }

  predicate IsSpace(c: char) {
    c == ' ' || '\t' <= c <= '\r'
  }

  function SkipSpace(s: string, i: nat): (r: nat)
    requires i <= |s|
    ensures i <= r <= |s|
    decreases |s| - i
  {
    if i < |s| && IsSpace(s[i]) then SkipSpace(s, i + 1) else i
  }

  function SkipDigits(s: string, i: nat): (r: nat)
    requires i <= |s|
    ensures i <= r <= |s| && forall k :: i <= k < r ==> IsDigit(s[k])
    decreases |s| - i
  {
    if i < |s| && IsDigit(s[i]) then SkipDigits(s, i + 1) else i
  }

  function Value(ds: string): nat
    requires forall k :: 0 <= k < |ds| ==> IsDigit(ds[k])
  {
    if ds == [] then 0
    else
      assert IsDigit(ds[|ds| - 1]);
      10 * Value(ds[..|ds| - 1]) + (ds[|ds| - 1] as int - '0' as int)
  }

  /** The number at position `i` and the position behind it, which is `i` when there is no number. */
  function StrToUl(s: string, i: nat): (r: (nat, nat))
    requires i <= |s|
    ensures i <= r.1 <= |s| && r.0 <= ULONG_MAX
  {
    var start := SkipSpace(s, i);
    var signed := start < |s| && (s[start] == '+' || s[start] == '-');
    var first := if signed then start + 1 else start;
    var end := SkipDigits(s, first);
    if end == first then (0, i)
    else
      var v := Value(s[first..end]);
      if v > ULONG_MAX then (ULONG_MAX, end)
      else if signed && s[start] == '-' then ((ULONG_MAX + 1 - v) % (ULONG_MAX + 1), end)
      else (v, end)
  }

  // ----- Parsing -----

  /** The numbers behind the name: the width, and after an x the lanes; nothing may follow. */
  function ParseNumbers(s: string, scan: nat, code: nat, bits: nat): Option<PELIType>
    requires scan <= |s| && code < 256 && bits < 256
  {
    var (number, delim) := StrToUl(s, scan);
    var width := if number % 256 != 0 then number % 256 else bits;
    if delim < |s| && s[delim] == 'x' then
      var (lanes, end) := StrToUl(s, delim + 1);
      if end == |s| then Some(PELIType(code, width, lanes % 65536)) else None
    else if delim == |s| then Some(PELIType(code, width, 1))
    else None
  }

  function String2PELIType(s: string): Option<PELIType> {
    if |s| == 0 then Some(PELIType(HANDLE, 0, 0))
    else if "int" <= s then ParseNumbers(s, 3, DL_INT, 32)
    else if "uint" <= s then ParseNumbers(s, 4, DL_UINT, 32)
    else if "float" <= s then ParseNumbers(s, 5, DL_FLOAT, 32)
    else if "handle" <= s then ParseNumbers(s, 6, HANDLE, 64)
    else if s == "bool" then Some(PELIType(DL_UINT, 1, 1))
    else None
  }

  /** The parser as it scans the string; None stands for a failed check. */
  method Parse(s: string) returns (r: Option<PELIType>)
    ensures r == String2PELIType(s)
  {
    hide StrToUl;
    if |s| == 0 {
      return Some(PELIType(HANDLE, 0, 0));
    }
    var code, bits, lanes, scan := DL_INT, 32, 1, 0;
    if "int" <= s {
      code, scan := DL_INT, 3;
    } else if "uint" <= s {
      code, scan := DL_UINT, 4;
    } else if "float" <= s {
      code, scan := DL_FLOAT, 5;
    } else if "handle" <= s {
      code, bits, scan := HANDLE, 64, 6;
    } else if s == "bool" {
      return Some(PELIType(DL_UINT, 1, 1));
    } else {
      return None;
    }
    var (number, xdelim) := StrToUl(s, scan);
    if number % 256 != 0 {
      bits := number % 256;
    }
    var endpt := xdelim;
    if xdelim < |s| && s[xdelim] == 'x' {
      var (count, end) := StrToUl(s, xdelim + 1);
      lanes, endpt := count % 65536, end;
    }
    if endpt != |s| {
      return None;
    }
    return Some(PELIType(code, bits, lanes));
  }

  // ----- Round trip -----

  /** Digits only, no zero in front, and the right number. */
  lemma {:induction false} DecimalIsDigits(n: nat)
    ensures |Decimal(n)| >= 1 && forall k :: 0 <= k < |Decimal(n)| ==> IsDigit(Decimal(n)[k])
    ensures n > 0 ==> Decimal(n)[0] != '0'
    ensures Value(Decimal(n)) == n
  {
    if n >= 10 {
      DecimalIsDigits(n / 10);
    }
  }

  /** For example. */
  lemma DecimalOf255()
    ensures Decimal(255) == "255" && Value("255") == 255
  {
    assert "255"[..2] == "25" && "25"[..1] == "2" && "2"[..0] == "";
    assert Decimal(25) == "25";
    assert Value("2") == 2 && Value("25") == 25;
  }

  lemma {:induction false} DigitsEnd(s: string, i: nat, end: nat)
    requires i <= end <= |s| && (forall k :: i <= k < end ==> IsDigit(s[k])) && (end < |s| ==> !IsDigit(s[end]))
    ensures SkipDigits(s, i) == end
    decreases end - i
  {
    if i < end {
      DigitsEnd(s, i + 1, end);
    }
  }

  /** Reading back a printed number that is followed by something that is not a digit. */
  lemma NumberIsReadBack(s: string, i: nat, n: nat)
    requires n <= ULONG_MAX && i + |Decimal(n)| <= |s| && s[i..i + |Decimal(n)|] == Decimal(n)
    requires i + |Decimal(n)| < |s| ==> !IsDigit(s[i + |Decimal(n)|])
    ensures StrToUl(s, i) == (n, i + |Decimal(n)|)
  {
    DecimalIsDigits(n);
    var end := i + |Decimal(n)|;
    assert forall k :: i <= k < end ==> s[k] == Decimal(n)[k - i];
    DigitsEnd(s, i, end);
  }

  /** Tab, line feed, vertical tab, form feed, carriage return and blank. */
  const WHITE_SPACE: set<int> := {9, 10, 11, 12, 13, 32}

  lemma {:induction false} SpaceEnds(s: string, i: nat, end: nat)
    requires i <= end <= |s| && (forall k :: i <= k < end ==> s[k] as int in WHITE_SPACE)
    requires end < |s| ==> !IsSpace(s[end])
    ensures SkipSpace(s, i) == end
    decreases end - i
  {
    if i < end {
      SpaceEnds(s, i + 1, end);
    }
  }

  lemma PartsAreRead(s: string, blanks: nat, first: nat, end: nat)
    requires blanks <= first < end <= |s| && SkipSpace(s, 0) == blanks && SkipDigits(s, first) == end
    requires if first == blanks then IsDigit(s[blanks])
             else first == blanks + 1 && (s[blanks] == '+' || s[blanks] == '-')
    ensures var n := Value(s[first..end]);
            StrToUl(s, 0) ==
            (if n > 0xFFFF_FFFF_FFFF_FFFF then 0xFFFF_FFFF_FFFF_FFFF
             else if first > blanks && s[blanks] == '-' && n > 0 then 0x1_0000_0000_0000_0000 - n
             else n, end)
  {
    hide SkipSpace, SkipDigits, Value;
  }

  /** All that `strtoul` reads: white space and a sign before the digits; a minus wraps around, and too large a number
      becomes the largest. */
  lemma SignedNumberIsRead(blanks: string, sign: string, n: nat, rest: string)
    requires forall k :: 0 <= k < |blanks| ==> blanks[k] as int in WHITE_SPACE
    requires sign == "" || sign == "+" || sign == "-"
    requires rest != "" ==> !IsDigit(rest[0])
    ensures var s := blanks + sign + Decimal(n) + rest;
            var end := |blanks| + |sign| + |Decimal(n)|;
            StrToUl(s, 0) ==
            (if n > 0xFFFF_FFFF_FFFF_FFFF then 0xFFFF_FFFF_FFFF_FFFF
             else if sign == "-" && n > 0 then 0x1_0000_0000_0000_0000 - n
             else n, end)
  {
    hide Decimal, StrToUl, SkipSpace, SkipDigits, Value;
    DecimalIsDigits(n);
    var s := blanks + sign + Decimal(n) + rest;
    var first := |blanks| + |sign|;
    var end := first + |Decimal(n)|;
    assert s[first..end] == Decimal(n);
    assert s[first] == Decimal(n)[0];
    assert sign != "" ==> s[|blanks|] == sign[0];
    SpaceEnds(s, 0, |blanks|);
    assert end < |s| ==> s[end] == rest[0];
    assert forall k :: first <= k < end ==> s[k] == Decimal(n)[k - first];
    DigitsEnd(s, first, end);
    PartsAreRead(s, |blanks|, first, end);
  }

  /** Without digits nothing is read. */
  lemma NoNumberIsRead(s: string, i: nat)
    requires i <= |s| && (i < |s| ==> s[i] as int !in WHITE_SPACE && s[i] !in "0123456789+-")
    ensures StrToUl(s, i) == (0, i)
  {
  }

  lemma NumbersAreReadBack(name: string, t: PELIType, bits: nat)
    requires t.bits >= 1 && bits < 256
    ensures var s := name + Decimal(t.bits) + if t.lanes != 1 then "x" + Decimal(t.lanes) else "";
            ParseNumbers(s, |name|, t.code, bits) == Some(t)
  {
    hide Decimal, StrToUl;
    var s := name + Decimal(t.bits) + if t.lanes != 1 then "x" + Decimal(t.lanes) else "";
    var delim := |name| + |Decimal(t.bits)|;
    assert s[|name|..delim] == Decimal(t.bits);
    assert delim < |s| ==> s[delim] == 'x';
    NumberIsReadBack(s, |name|, t.bits);
    if t.lanes != 1 {
      assert s[delim] == 'x' && s[delim + 1..] == Decimal(t.lanes);
      NumberIsReadBack(s, delim + 1, t.lanes);
    }
  }

  /** The types that come back from their printed form. */
  predicate RoundTrips(t: PELIType) {
    || (t.code in {DL_INT, DL_UINT, DL_FLOAT} && t.bits >= 1)
    || (t.code == HANDLE && t.bits == 64 && t.lanes == 1)
    || (t.code == HANDLE && t.bits == 0 && t.lanes == 0)
  }

  /** Parsing the printed form gives back the type for exactly these. */
  lemma PrintedTypeIsParsed(t: PELIType)
    ensures PELIType2String(t).Some? && String2PELIType(PELIType2String(t).value) == Some(t) <==> RoundTrips(t)
  {
    hide Decimal, ParseNumbers;
    if t.bits > 0 && t.code != HANDLE && t.code < 14 && t != PELIType(DL_UINT, 1, 1) {
      if t.code <= DL_FLOAT {
        var name, s := TypeCode2Str(t.code).value, Shown(t).value;
        NumbersAreReadBack(name, t, 32);
        assert name <= s && s[0] == name[0];
      } else {
        OtherNamesAreUnknown(TypeCode2Str(t.code).value, Shown(t).value);
      }
    } else if t.bits > 0 && t.code == HANDLE {
      PlainHandle();
    } else if t.bits > 0 {
      assert "bool"[0] == 'b';
    }
  }

  // ----- The codes -----

  /** How lanes are printed. */
  function Lanes(lanes: nat): string {
    if lanes == 1 then "" else "x" + Decimal(lanes)
  }

  /** What each code is printed as, for all widths and lanes. */
  lemma PrintedForms(bits: nat, lanes: nat)
    requires 1 <= bits < 256 && lanes < 65536
    ensures PELIType2String(PELIType(0, bits, lanes)) == Some("int" + Decimal(bits) + Lanes(lanes))
    ensures PELIType2String(PELIType(1, bits, lanes)) ==
            Some(if bits == 1 && lanes == 1 then "bool" else "uint" + Decimal(bits) + Lanes(lanes))
    ensures PELIType2String(PELIType(2, bits, lanes)) == Some("float" + Decimal(bits) + Lanes(lanes))
    ensures PELIType2String(PELIType(3, bits, lanes)) == Some("handle")
    ensures forall code :: 0 <= code < 256 ==> PELIType2String(PELIType(code, 0, lanes)) == Some("")
  {
  }

  /** The names of the other codes. */
  const OTHER_NAMES: seq<string> :=
    ["NULL", "PELIType", "PELIContext", "ArrayHandle", "NodeHandle", "ModuleHandle", "FunctionHandle", "str", "bytes",
     "NDArrayContainer"]

  lemma OtherPrintedForms(code: nat, bits: nat, lanes: nat)
    requires 4 <= code < 256 && 1 <= bits < 256 && lanes < 65536
    ensures PELIType2String(PELIType(code, bits, lanes)) ==
            if code < 14 then Some(OTHER_NAMES[code - 4] + Decimal(bits) + Lanes(lanes)) else None
  {
  }

  /** What each name is parsed as, for all widths and lanes. */
  lemma ParsedForms(bits: nat, lanes: nat)
    requires 1 <= bits < 256 && lanes < 65536
    ensures String2PELIType("int" + Decimal(bits) + Lanes(lanes)) == Some(PELIType(0, bits, lanes))
    ensures String2PELIType("uint" + Decimal(bits) + Lanes(lanes)) == Some(PELIType(1, bits, lanes))
    ensures String2PELIType("float" + Decimal(bits) + Lanes(lanes)) == Some(PELIType(2, bits, lanes))
    ensures String2PELIType("handle" + Decimal(bits) + Lanes(lanes)) == Some(PELIType(3, bits, lanes))
  {
    hide Decimal, ParseNumbers;
    ParsedName("int", 0, 32, bits, lanes);
    ParsedName("uint", 1, 32, bits, lanes);
    ParsedName("float", 2, 32, bits, lanes);
    ParsedName("handle", 3, 64, bits, lanes);
  }

  lemma ParsedName(name: string, code: nat, default_: nat, bits: nat, lanes: nat)
    requires 1 <= bits < 256 && lanes < 65536
    requires (name == "int" && code == 0) || (name == "uint" && code == 1) || (name == "float" && code == 2)
             || (name == "handle" && code == 3)
    requires default_ == if name == "handle" then 64 else 32
    ensures String2PELIType(name + Decimal(bits) + Lanes(lanes)) == Some(PELIType(code, bits, lanes))
  {
    hide Decimal, ParseNumbers;
    NumbersAreReadBack(name, PELIType(code, bits, lanes), default_);
    var s := name + Decimal(bits) + Lanes(lanes);
    assert name <= s && s[0] == name[0];
  }

  /** Names without a width, and the two strings that are no names. */
  lemma ParsedNames()
    ensures String2PELIType("int") == Some(PELIType(0, 32, 1)) && String2PELIType("uint") == Some(PELIType(1, 32, 1))
    ensures String2PELIType("float") == Some(PELIType(2, 32, 1))
    ensures String2PELIType("handle") == Some(PELIType(3, 64, 1))
    ensures String2PELIType("bool") == Some(PELIType(1, 1, 1)) && String2PELIType("") == Some(PELIType(3, 0, 0))
  {
    assert "int"[0] == 'i' && "uint"[0] == 'u' && "float"[0] == 'f' && "bool"[0] == 'b';
    NoNumberIsRead("int", 3);
    NoNumberIsRead("uint", 4);
    NoNumberIsRead("float", 5);
    PlainHandle();
  }

  lemma PlainHandle()
    ensures String2PELIType("handle") == Some(PELIType(HANDLE, 64, 1))
  {
    var s := "handle";
    assert s[0] == 'h' && |s| == 6;
    assert StrToUl(s, 6) == (0, 6);
  }

  /** What begins with another name is not a type. */
  lemma OtherNamesAreUnknown(name: string, s: string)
    requires exists code :: 4 <= code < 14 && TypeCode2Str(code) == Some(name)
    requires name <= s
    ensures String2PELIType(s) == None
  {
    assert s[0] == name[0] && s[1] == name[1];
  }
}
