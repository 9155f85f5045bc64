/**
 * The argument validators of the todo command line: a todo id must parse as a
 * positive decimal integer, a title must hold something other than white space
 * and be at most 255 UTF-16 code units long, a description at most 1000. A
 * validator that would print a message and exit the process returns a
 * `Failure` holding the reason instead.
 */
module CliHelpers {
  import opened Wrappers

  // Strings as the JavaScript built-ins see them

  /** The characters `String.prototype.trim` and `parseInt` skip: ECMAScript
      WhiteSpace (tab, vertical tab, form feed, space, no-break space, byte
      order mark and the space separators) and LineTerminator. */
  predicate IsWhiteSpace(c: char)
    ensures c == ' ' || c == '\t' || c == '\n' || c == '\r' ==> IsWhiteSpace(c)
    ensures IsWhiteSpace(c) ==> c as int < 0x1_0000 && !('0' <= c <= '9')
  {
    var n := c as int;
    || 0x09 <= n <= 0x0D
    || n == 0x20 || n == 0xA0 || n == 0x1680
    || 0x2000 <= n <= 0x200A
    || n == 0x2028 || n == 0x2029 || n == 0x202F || n == 0x205F
    || n == 0x3000 || n == 0xFEFF
  }

  predicate AllWhiteSpace(s: string) {
    forall i :: 0 <= i < |s| ==> IsWhiteSpace(s[i])
  }

  /** How many white-space characters `s` starts with. */
  function LeadingWhiteSpace(s: string): (k: nat)
    ensures k <= |s|
    ensures forall i :: 0 <= i < k ==> IsWhiteSpace(s[i])
    ensures k < |s| ==> !IsWhiteSpace(s[k])
  {
    if s != [] && IsWhiteSpace(s[0]) then
      var k := LeadingWhiteSpace(s[1..]);
      assert forall i :: 1 <= i < k + 1 ==> s[i] == s[1..][i - 1];
      k + 1
    else 0
  }

  /** Where the white space that `s` ends with begins. */
  function TrailingWhiteSpace(s: string): (k: nat)
    ensures k <= |s|
    ensures forall i :: k <= i < |s| ==> IsWhiteSpace(s[i])
    ensures k > 0 ==> !IsWhiteSpace(s[k - 1])
  {
    if s != [] && IsWhiteSpace(s[|s| - 1]) then
      var k := TrailingWhiteSpace(s[..|s| - 1]);
      assert forall i :: k <= i < |s| - 1 ==> s[i] == s[..|s| - 1][i];
      k
    else |s|
  }

  /** `s` without its leading white space. */
  function TrimStart(s: string): (r: string)
    ensures |r| <= |s| && forall i :: 0 <= i < |r| ==> r[i] == s[|s| - |r| + i]
    ensures forall i :: 0 <= i < |s| - |r| ==> IsWhiteSpace(s[i])
    ensures r != [] ==> !IsWhiteSpace(r[0])
  {
    s[LeadingWhiteSpace(s)..]
  }

  /** `r` is the part of `s` from `a`, with only white space before and after it. */
  ghost predicate TrimmedAt(s: string, a: nat, r: string) {
    && a + |r| <= |s| && r == s[a..a + |r|]
    && (forall i :: 0 <= i < a ==> IsWhiteSpace(s[i]))
    && (forall i :: a + |r| <= i < |s| ==> IsWhiteSpace(s[i]))
  }

  /** `String.prototype.trim`: `s` without white space at either end. */
  function Trim(s: string): (r: string)
    ensures TrimmedAt(s, LeadingWhiteSpace(s), r)
    ensures r != [] ==> !IsWhiteSpace(r[0]) && !IsWhiteSpace(r[|r| - 1])
    ensures r == [] <==> AllWhiteSpace(s)
  {
    var a, b := LeadingWhiteSpace(s), TrailingWhiteSpace(s);
    if a < b then s[a..b] else []
  }

  /** Trimming twice trims nothing more. */
  lemma TrimIdempotent(s: string)
    ensures Trim(Trim(s)) == Trim(s)
  {
    var r := Trim(s);
    if r != [] {
      assert LeadingWhiteSpace(r) == 0;
      assert TrailingWhiteSpace(r) == |r|;
    }
  }

  /** `String.prototype.length`: the number of UTF-16 code units, two for a
      character outside the Basic Multilingual Plane. */
  function Utf16Length(s: string): (n: nat)
    ensures |s| <= n <= 2 * |s|
  {
    if s == [] then 0 else Utf16Length(s[..|s| - 1]) + (if s[|s| - 1] as int < 0x1_0000 then 1 else 2)
  }

  /** One code unit for a character of the Basic Multilingual Plane, two for any other. */
  lemma Utf16LengthChar(c: char)
    ensures Utf16Length([c]) == if c as int < 0x1_0000 then 1 else 2
  {
    assert [c][..0] == [];
  }

  /** A string of Basic Multilingual Plane characters has one code unit per character. */
  lemma {:induction false} Utf16LengthBmp(s: string)
    requires forall i :: 0 <= i < |s| ==> s[i] as int < 0x1_0000
    ensures Utf16Length(s) == |s|
  {
    if s != [] {
      Utf16LengthBmp(s[..|s| - 1]);
    }
  }

  /** The length of a concatenation is the sum of the lengths. */
  lemma {:induction false} Utf16LengthAppend(a: string, b: string)
    ensures Utf16Length(a + b) == Utf16Length(a) + Utf16Length(b)
    decreases |b|
  {
    if b != [] {
      var c := b[|b| - 1];
      var unit := if c as int < 0x1_0000 then 1 else 2;
      assert (a + b)[..|a + b| - 1] == a + b[..|b| - 1];
      assert (a + b)[|a + b| - 1] == c;
      assert Utf16Length(a + b) == Utf16Length(a + b[..|b| - 1]) + unit;
      assert Utf16Length(b) == Utf16Length(b[..|b| - 1]) + unit;
      Utf16LengthAppend(a, b[..|b| - 1]);
    } else {
      assert a + b == a;
    }
  }

  /** Splitting a string splits its length. */
  lemma Utf16LengthSplit(s: string, k: nat)
    requires k <= |s|
    ensures Utf16Length(s) == Utf16Length(s[..k]) + Utf16Length(s[k..])
  {
    assert s == s[..k] + s[k..];
    Utf16LengthAppend(s[..k], s[k..]);
  }

  /** A part of a string is no longer than the string. */
  lemma Utf16LengthSlice(s: string, i: nat, j: nat)
    requires i <= j <= |s|
    ensures Utf16Length(s[i..j]) <= Utf16Length(s)
  {
    var p := s[..j];
    Utf16LengthSplit(s, j);
    Utf16LengthSplit(p, i);
    assert p[i..] == s[i..j];
  }

  /** Trimming never makes a string longer. */
  lemma TrimShortens(s: string)
    ensures Utf16Length(Trim(s)) <= Utf16Length(s)
  {
    var a, b := LeadingWhiteSpace(s), TrailingWhiteSpace(s);
    if a < b {
      Utf16LengthSlice(s, a, b);
    }
  }

  // Decimal integers

  predicate IsDigit(c: char) {
    '0' <= c <= '9'
  }

  predicate AllDigits(s: string) {
    forall i :: 0 <= i < |s| ==> IsDigit(s[i])
  }

  /** The longest prefix of `s` made of decimal digits. */
  function DigitPrefix(s: string): (r: string)
    ensures |r| <= |s| && r == s[..|r|] && AllDigits(r)
    ensures |r| < |s| ==> !IsDigit(s[|r|])
  {
    if s != [] && IsDigit(s[0]) then [s[0]] + DigitPrefix(s[1..]) else []
  }

  /** The value of a string of decimal digits, most significant first. */
  function DecimalValue(ds: string): nat
    requires AllDigits(ds)
  {
    if ds == [] then 0 else DecimalValue(ds[..|ds| - 1]) * 10 + (ds[|ds| - 1] as int - '0' as int)
  }

  /** The decimal numeral of `n`, without leading zeros. */
  function ToDecimal(n: nat): (r: string)
    ensures r != [] && AllDigits(r)
    ensures r[0] == '0' ==> n == 0
  {
    if n < 10 then [('0' as int + n) as char] else ToDecimal(n / 10) + [('0' as int + n % 10) as char]
  }

  /** Reading back the numeral of `n` gives `n`. */
  lemma {:induction false} DecimalRoundTrip(n: nat)
    ensures DecimalValue(ToDecimal(n)) == n
  {
    if n >= 10 {
      var ds := ToDecimal(n);
      assert ds[..|ds| - 1] == ToDecimal(n / 10);
      DecimalRoundTrip(n / 10);
    }
  }

  /** `parseInt(s, 10)`: skip leading white space, read an optional sign, then
      the longest run of decimal digits; `None` (NaN) when there is no digit. */
  function ParseInt(s: string): (r: Option<int>)
    ensures AllWhiteSpace(s) ==> r == None
    ensures r.Some? ==> exists i :: 0 <= i < |s| && IsDigit(s[i])
    ensures r.Some? && r.value < 0 ==> exists i :: 0 <= i < |s| && s[i] == '-'
  {
    var t := TrimStart(s);
    assert t != [] ==> t[0] == s[|s| - |t|];
    assert |t| > 1 ==> t[1] == s[|s| - |t| + 1];
    ParseSigned(t)
  }

  /** An optional sign and the digits after it. */
  function ParseSigned(t: string): (r: Option<int>)
    ensures r.Some? <==> (t != [] && IsDigit(t[0])) || (|t| > 1 && (t[0] == '-' || t[0] == '+') && IsDigit(t[1]))
    ensures r.Some? && r.value < 0 ==> t[0] == '-'
  {
    var negative := t != [] && t[0] == '-';
    var unsigned := if t != [] && (t[0] == '-' || t[0] == '+') then t[1..] else t;
    match ParseDigits(unsigned)
    case None => None
    case Some(n) => Some(if negative then -(n as int) else n)
  }

  /** The value of the digits `t` starts with, if it starts with one. */
  function ParseDigits(t: string): (r: Option<nat>)
    ensures r.Some? <==> t != [] && IsDigit(t[0])
  {
    var digits := DigitPrefix(t);
    if digits == [] then None else Some(DecimalValue(digits))
  }

  /** Leading white space is skipped, up to the first other character. */
  lemma TrimStartSkips(ws: string, s: string)
    requires AllWhiteSpace(ws) && (s == [] || !IsWhiteSpace(s[0]))
    ensures LeadingWhiteSpace(ws + s) == |ws| && TrimStart(ws + s) == s
  {
    var x := ws + s;
    assert forall i :: 0 <= i < |ws| ==> x[i] == ws[i];
    assert s != [] ==> x[|ws|] == s[0];
  }

  /** The digit run ends where the first non-digit starts. */
  lemma {:induction false} DigitPrefixStops(ds: string, rest: string)
    requires AllDigits(ds) && (rest == [] || !IsDigit(rest[0]))
    ensures DigitPrefix(ds + rest) == ds
    decreases |ds|
  {
    if ds != [] {
      assert (ds + rest)[1..] == ds[1..] + rest;
      DigitPrefixStops(ds[1..], rest);
      assert ds == [ds[0]] + ds[1..];
    }
  }

  /** A numeral is read up to the first character that is not a digit. */
  lemma ParseDigitsReads(n: nat, rest: string)
    requires rest == [] || !IsDigit(rest[0])
    ensures ParseDigits(ToDecimal(n) + rest) == Some(n)
  {
    DigitPrefixStops(ToDecimal(n), rest);
    DecimalRoundTrip(n);
  }

  /** Concatenation regrouped to the right. */
  lemma Regroup(a: string, b: string, c: string, d: string)
    ensures a + b + c + d == a + (b + (c + d))
  {
  }

  /** `parseInt` reads what follows the leading white space. */
  lemma ParseIntSkipsWhiteSpace(ws: string, t: string)
    requires AllWhiteSpace(ws) && (t == [] || !IsWhiteSpace(t[0]))
    ensures ParseInt(ws + t) == ParseSigned(t)
  {
    TrimStartSkips(ws, t);
  }

  /** `parseInt` reads a numeral after white space, and ignores whatever
      follows the digits. */
  lemma ParseIntReads(ws: string, n: nat, rest: string)
    requires AllWhiteSpace(ws) && (rest == [] || !IsDigit(rest[0]))
    ensures ParseInt(ws + ToDecimal(n) + rest) == Some(n)
  {
    var t := ToDecimal(n) + rest;
    assert t[0] == ToDecimal(n)[0];
    assert ws + ToDecimal(n) + rest == ws + t;
    ParseIntSkipsWhiteSpace(ws, t);
    ParseDigitsReads(n, rest);
  }

  /** A sign before a numeral gives its value that sign. */
  lemma ParseSignedSkipsSign(sign: char, n: nat, rest: string)
    requires (sign == '+' || sign == '-') && (rest == [] || !IsDigit(rest[0]))
    ensures ParseSigned([sign] + (ToDecimal(n) + rest)) == Some(if sign == '-' then -(n as int) else n)
  {
    var t := ToDecimal(n) + rest;
    ParseDigitsReads(n, rest);
    assert ([sign] + t)[1..] == t;
  }

  /** A sign between the white space and the numeral gives the value its sign. */
  lemma ParseIntReadsSigned(ws: string, sign: char, n: nat, rest: string)
    requires AllWhiteSpace(ws) && (sign == '+' || sign == '-')
    requires rest == [] || !IsDigit(rest[0])
    ensures ParseInt(ws + [sign] + ToDecimal(n) + rest) == Some(if sign == '-' then -(n as int) else n)
  {
    var t := [sign] + (ToDecimal(n) + rest);
    Regroup(ws, [sign], ToDecimal(n), rest);
    ParseSignedSkipsSign(sign, n, rest);
    ParseIntSkipsWhiteSpace(ws, t);
  }

  /** A string without a digit is not a number. */
  lemma ParseIntNeedsDigit(s: string)
    requires forall i :: 0 <= i < |s| ==> !IsDigit(s[i])
    ensures ParseInt(s) == None
  {
    var k := LeadingWhiteSpace(s);
    if k < |s| && (s[k] == '-' || s[k] == '+') {
      assert s[k..][1..] == [] || s[k..][1..][0] == s[k + 1];
    } else {
      assert s[k..] == [] || s[k..][0] == s[k];
    }
  }

  // The validators

  datatype ValidationError = InvalidId | EmptyTitle | TitleTooLong | DescriptionTooLong

  /** What the command line prints for each rejection before it exits. */
  function Message(e: ValidationError): (m: string)
    ensures |m| > 2 && m[0] == '❌' && m[1] == ' '
  {
    "❌ " + match e
      case InvalidId => "Invalid ID. Please provide a positive number."
      case EmptyTitle => "Title cannot be empty."
      case TitleTooLong => "Title is too long. Maximum 255 characters."
      case DescriptionTooLong => "Description is too long. Maximum 1000 characters."
  }

  const MaxTitleLength := 255
  const MaxDescriptionLength := 1000

  /** `validateId`: the id is a positive integer read by `parseInt`. */
  function ValidateId(idString: string): (r: Result<int, ValidationError>)
    ensures r.Success? <==> ParseInt(idString).Some? && ParseInt(idString).value > 0
    ensures r.Success? ==> r.value > 0 && ParseInt(idString) == Some(r.value)
    ensures r.Failure? ==> r.error == InvalidId
  {
    match ParseInt(idString)
    case None => Failure(InvalidId)
    case Some(id) => if id <= 0 then Failure(InvalidId) else Success(id)
  }

  /** A numeral, with white space before it and anything but a digit after
      it, is accepted as its value exactly when that value is positive. */
  lemma ValidateIdReads(ws: string, n: nat, rest: string)
    requires AllWhiteSpace(ws) && (rest == [] || !IsDigit(rest[0]))
    ensures ValidateId(ws + ToDecimal(n) + rest) == if n > 0 then Success(n) else Failure(InvalidId)
  {
    ParseIntReads(ws, n, rest);
  }

  /** A numeral with a minus sign is rejected. */
  lemma ValidateIdRejectsNegative(ws: string, n: nat, rest: string)
    requires AllWhiteSpace(ws) && (rest == [] || !IsDigit(rest[0]))
    ensures ValidateId(ws + "-" + ToDecimal(n) + rest) == Failure(InvalidId)
  {
    ParseIntReadsSigned(ws, '-', n, rest);
  }

  /** A string without a digit is rejected. */
  lemma ValidateIdNeedsDigit(idString: string)
    requires forall i :: 0 <= i < |idString| ==> !IsDigit(idString[i])
    ensures ValidateId(idString) == Failure(InvalidId)
  {
    ParseIntNeedsDigit(idString);
  }

  /** `validateTitle`: a title that is empty or only white space is rejected,
      then one longer than 255 code units before trimming; an accepted title
      is returned trimmed. */
  function ValidateTitle(title: string): (r: Result<string, ValidationError>)
    ensures r == Failure(EmptyTitle) <==> AllWhiteSpace(title)
    ensures r == Failure(TitleTooLong) <==> !AllWhiteSpace(title) && Utf16Length(title) > MaxTitleLength
    ensures r.Success? <==> !AllWhiteSpace(title) && Utf16Length(title) <= MaxTitleLength
    ensures r.Failure? ==> r.error == EmptyTitle || r.error == TitleTooLong
    ensures r.Success? ==> r.value == Trim(title)
    ensures r.Success? ==> r.value != [] && !IsWhiteSpace(r.value[0]) && !IsWhiteSpace(r.value[|r.value| - 1])
    ensures r.Success? ==> Utf16Length(r.value) <= MaxTitleLength
  {
    if title == [] || |Trim(title)| == 0 then Failure(EmptyTitle)
    else if Utf16Length(title) > MaxTitleLength then Failure(TitleTooLong)
    else
      TrimShortens(title);
      Success(Trim(title))
  }

  /** An accepted title is accepted again unchanged. */
  lemma ValidateTitleIdempotent(title: string)
    requires ValidateTitle(title).Success?
    ensures ValidateTitle(ValidateTitle(title).value) == ValidateTitle(title)
  {
    TrimIdempotent(title);
  }

  /** Surrounding white space counts towards the 255-unit limit: a title whose
      trimmed text would fit is still rejected when padding before or after it
      makes it too long. */
  lemma ValidateTitleCountsPadding(pad: string, title: string)
    requires AllWhiteSpace(pad) && ValidateTitle(title).Success?
    requires Utf16Length(pad) + Utf16Length(title) > MaxTitleLength
    ensures ValidateTitle(pad + title) == Failure(TitleTooLong)
    ensures ValidateTitle(title + pad) == Failure(TitleTooLong)
  {
    Utf16LengthAppend(pad, title);
    Utf16LengthAppend(title, pad);
    var a := LeadingWhiteSpace(title);
    assert (pad + title)[|pad| + a] == title[a];
    assert (title + pad)[a] == title[a];
  }

  /** `validateDescription`: one longer than 1000 code units is rejected; any
      other is returned trimmed, the empty description as the empty string. */
  function ValidateDescription(description: string): (r: Result<string, ValidationError>)
    ensures r.Failure? <==> Utf16Length(description) > MaxDescriptionLength
    ensures r.Failure? ==> r.error == DescriptionTooLong
    ensures r.Success? ==> r.value == Trim(description) && Utf16Length(r.value) <= MaxDescriptionLength
    ensures description == [] ==> r == Success([])
  {
    if description != [] && Utf16Length(description) > MaxDescriptionLength then Failure(DescriptionTooLong)
    else
      TrimShortens(description);
      Success(if description != [] then Trim(description) else [])
  }

  /** An accepted description is accepted again unchanged. */
  lemma ValidateDescriptionIdempotent(description: string)
    requires ValidateDescription(description).Success?
    ensures ValidateDescription(ValidateDescription(description).value) == ValidateDescription(description)
  {
    TrimIdempotent(description);
    TrimShortens(description);
  }
}
