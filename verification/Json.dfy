/** JSON trees, their compact text, and a reference parser for sections 2 to 7 of RFC 8259. */
module JsonText {
  import opened Decimals
  import opened Sequences

  datatype Json =
    | Null
    | Bool(b: bool)
    | Num(mantissa: Decimal, exp: int)
    | Str(s: string)
    | Arr(items: seq<Json>)
    | Obj(members: seq<Member>)

  datatype Member = Member(key: string, value: Json)

  // ---- Text -----------------------------------------------------------------

  function HexDigit(d: nat): char
    requires d < 16
  {
    if d < 10 then (d + '0' as int) as char else (d - 10 + 'a' as int) as char
  }

  /** The text of one string character inside quotes (section 7). */
  function Escape(c: char): string {
    match c
    case '"' => "\\\""
    case '\\' => "\\\\"
    case '\n' => "\\n"
    case '\r' => "\\r"
    case '\t' => "\\t"
    case _ =>
      if c as int == 8 then "\\b"
      else if c as int == 12 then "\\f"
      else if c as int < 0x20 then
        "\\u00" + [HexDigit(c as int / 16), HexDigit(c as int % 16)]
      else [c]
  }

  /** Only what must be escaped is, and only other control characters than these five take six
      characters. */
  lemma EscapedIff(c: char)
    requires c != '\0'
    ensures Escape(c) == [c] <==> c >= ' ' && c != '"' && c != '\\'
    ensures |Escape(c)| == 2 <==> c == '"' || c == '\\' || c as int in {8, 9, 10, 12, 13}
    ensures |Escape(c)| in {1, 2, 6}
  {
  }

  function EscapeAll(s: string): string {
    if s == "" then "" else Escape(s[0]) + EscapeAll(s[1..])
  }

  function Quote(s: string): string {
    "\"" + EscapeAll(s) + "\""
  }

  function Exponent(e: int): string {
    if e == 0 then "" else "e" + FormatInt(e)
  }

  function Print(j: Json): string
    decreases j
  {
    match j
    case Null => "null"
    case Bool(b) => if b then "true" else "false"
    case Num(m, e) => Format(m) + Exponent(e)
    case Str(s) => Quote(s)
    case Arr(items) => "[" + PrintItems(items) + "]"
    case Obj(members) => "{" + PrintMembers(members) + "}"
  }

  function PrintItems(items: seq<Json>): string
    decreases items
  {
    if items == [] then ""
    else if |items| == 1 then Print(items[0])
    else Print(items[0]) + "," + PrintItems(items[1..])
  }

  function PrintMember(m: Member): string
    decreases m
  {
    Quote(m.key) + ":" + Print(m.value)
  }

  function PrintMembers(members: seq<Member>): string
    decreases members
  {
    if members == [] then ""
    else if |members| == 1 then PrintMember(members[0])
    else PrintMember(members[0]) + "," + PrintMembers(members[1..])
  }

  // ---- Reference parser -------------------------------------------------------

  /** What a parsing function made of the front of its input, and what it left. */
  datatype Parsed<T> = Fail | Ok(value: T, rest: string)

  predicate IsWs(c: char) {
    c == ' ' || c == '\t' || c == '\n' || c == '\r'
  }

  function SkipWs(s: string): (r: string)
    ensures |r| <= |s|
  {
    if s != "" && IsWs(s[0]) then SkipWs(s[1..]) else s
  }

  /** Length of the longest prefix of digits. */
  function Span(s: string): (n: nat)
    ensures n <= |s| && AllDigits(s[..n])
    ensures n < |s| ==> !IsDigit(s[n])
  {
    if s == "" || !IsDigit(s[0]) then 0
    else
      var n := 1 + Span(s[1..]);
      assert forall i :: 0 < i < n ==> s[i] == s[1..][i - 1];
      assert n < |s| ==> s[n] == s[1..][n - 1];
      n
  }

  function ParseFraction(s: string): (r: Parsed<string>)
    ensures r.Ok? ==> AllDigits(r.value) && |r.rest| <= |s|
  {
    if s == "" || s[0] != '.' then Ok("", s)
    else
      var n := Span(s[1..]);
      if n == 0 then Fail else Ok(s[1..][..n], s[1..][n..])
  }

  function Signed(neg: bool, mag: nat): int {
    var n: int := mag;
    if neg then -n else n
  }

  function ParseExponent(s: string): (r: Parsed<int>)
    ensures r.Ok? ==> |r.rest| <= |s|
  {
    if s == "" || (s[0] != 'e' && s[0] != 'E') then Ok(0, s)
    else
      var signed := |s| > 1 && (s[1] == '-' || s[1] == '+');
      var t := if signed then s[2..] else s[1..];
      var n := Span(t);
      if n == 0 then Fail
      else Ok(Signed(signed && s[1] == '-', Value(t[..n])), t[n..])
  }

  /** number = [ minus ] int [ frac ] [ exp ] (section 6); no leading zeros. */
  function ParseNumber(s: string): (r: Parsed<Json>)
    ensures r.Ok? ==> |r.rest| < |s|
  {
    var neg := s != "" && s[0] == '-';
    var t := if neg then s[1..] else s;
    var n := Span(t);
    if n == 0 || (n > 1 && t[0] == '0') then Fail
    else
      var frac := ParseFraction(t[n..]);
      if frac.Fail? then Fail
      else
        var e := ParseExponent(frac.rest);
        if e.Fail? then Fail
        else
          assert AllDigits(t[..n] + frac.value);
          Ok(Num(Decimal(neg, Value(t[..n] + frac.value), |frac.value|), e.value), e.rest)
  }

  predicate IsHex(c: char) {
    IsDigit(c) || 'a' <= c <= 'f' || 'A' <= c <= 'F'
  }

  function HexValue(c: char): (v: nat)
    requires IsHex(c)
    ensures v < 16
  {
    if IsDigit(c) then c as int - '0' as int
    else if 'a' <= c <= 'f' then c as int - 'a' as int + 10
    else c as int - 'A' as int + 10
  }

  /** The character of a two-character escape, None when RFC 8259 has no such escape. */
  function Unescape(c: char): (r: Parsed<char>) {
    match c
    case '"' => Ok('"', "")
    case '\\' => Ok('\\', "")
    case '/' => Ok('/', "")
    case 'b' => Ok(8 as char, "")
    case 'f' => Ok(12 as char, "")
    case 'n' => Ok('\n', "")
    case 'r' => Ok('\r', "")
    case 't' => Ok('\t', "")
    case _ => Fail
  }

  /** The characters up to and including the closing quote (section 7). Escapes of
      characters that take more than one byte in UTF-8 are not accepted. */
  function ParseChars(s: string): (r: Parsed<string>)
    ensures r.Ok? ==> |r.rest| < |s|
  {
    if s == "" then Fail
    else if s[0] == '"' then Ok("", s[1..])
    else if s[0] != '\\' then
      if s[0] as int < 0x20 then Fail else Prepend(s[0], ParseChars(s[1..]))
    else if |s| < 2 then Fail
    else if s[1] != 'u' then
      var c := Unescape(s[1]);
      if c.Fail? then Fail else Prepend(c.value, ParseChars(s[2..]))
    else if |s| < 6 || !(forall i :: 2 <= i < 6 ==> IsHex(s[i])) then Fail
    else
      var v := ((HexValue(s[2]) * 16 + HexValue(s[3])) * 16 + HexValue(s[4])) * 16 + HexValue(s[5]);
      if v < 0x80 then Prepend(v as char, ParseChars(s[6..])) else Fail
  }

  function Prepend(c: char, p: Parsed<string>): Parsed<string> {
    if p.Fail? then Fail else Ok([c] + p.value, p.rest)
  }

  predicate StartsWith(s: string, prefix: string) {
    |prefix| <= |s| && s[..|prefix|] == prefix
  }

  function ParseLiteral(s: string): (r: Parsed<Json>)
    ensures r.Ok? ==> |r.rest| < |s|
  {
    if StartsWith(s, "null") then Ok(Null, s[4..])
    else if StartsWith(s, "true") then Ok(Bool(true), s[4..])
    else if StartsWith(s, "false") then Ok(Bool(false), s[5..])
    else Fail
  }

  /** One value, with the whitespace section 2 allows before it. */
  function ParseValue(s0: string): (r: Parsed<Json>)
    ensures r.Ok? ==> |r.rest| < |s0|
    decreases |s0|, 1
  {
    var s := SkipWs(s0);
    if s == "" then Fail
    else if s[0] == '"' then
      var r := ParseChars(s[1..]);
      if r.Fail? then Fail else Ok(Str(r.value), r.rest)
    else if s[0] == '[' then
      var t := SkipWs(s[1..]);
      if t != "" && t[0] == ']' then Ok(Arr([]), t[1..])
      else
        var r := ParseItems(s[1..]);
        if r.Fail? then Fail else Ok(Arr(r.value), r.rest)
    else if s[0] == '{' then
      var t := SkipWs(s[1..]);
      if t != "" && t[0] == '}' then Ok(Obj([]), t[1..])
      else
        var r := ParseMembers(s[1..]);
        if r.Fail? then Fail else Ok(Obj(r.value), r.rest)
    else if s[0] in {'n', 't', 'f'} then ParseLiteral(s)
    else ParseNumber(s)
  }

  /** value *( "," value ) "]" */
  function ParseItems(s: string): (r: Parsed<seq<Json>>)
    ensures r.Ok? ==> |r.rest| < |s|
    decreases |s|, 2
  {
    var v := ParseValue(s);
    if v.Fail? then Fail
    else
      var t := SkipWs(v.rest);
      if t == "" then Fail
      else if t[0] == ']' then Ok([v.value], t[1..])
      else if t[0] == ',' then
        var more := ParseItems(t[1..]);
        if more.Fail? then Fail else Ok([v.value] + more.value, more.rest)
      else Fail
  }

  /** string ":" value */
  function ParseMember(s0: string): (r: Parsed<Member>)
    ensures r.Ok? ==> |r.rest| < |s0|
    decreases |s0|, 2
  {
    var s := SkipWs(s0);
    if s == "" || s[0] != '"' then Fail
    else
      var key := ParseChars(s[1..]);
      if key.Fail? then Fail
      else
        var t := SkipWs(key.rest);
        if t == "" || t[0] != ':' then Fail
        else
          var v := ParseValue(t[1..]);
          if v.Fail? then Fail else Ok(Member(key.value, v.value), v.rest)
  }

  /** member *( "," member ) "}" */
  function ParseMembers(s: string): (r: Parsed<seq<Member>>)
    ensures r.Ok? ==> |r.rest| < |s|
    decreases |s|, 3
  {
    var m := ParseMember(s);
    if m.Fail? then Fail
    else
      var t := SkipWs(m.rest);
      if t == "" then Fail
      else if t[0] == '}' then Ok([m.value], t[1..])
      else if t[0] == ',' then
        var more := ParseMembers(t[1..]);
        if more.Fail? then Fail else Ok([m.value] + more.value, more.rest)
      else Fail
  }

  /** JSON-text = ws value ws, with nothing left over. */
  function ParseDocument(s: string): Parsed<Json> {
    var v := ParseValue(s);
    if v.Ok? && SkipWs(v.rest) == "" then Ok(v.value, "") else Fail
  }

  // ---- Parsing undoes printing -------------------------------------------------

  /** A text that does not prolong a number in front of it. */
  predicate EndsNumber(rest: string) {
    rest == "" || !(IsDigit(rest[0]) || rest[0] in {'.', 'e', 'E', '+', '-'})
  }

  lemma {:induction false} SpanConcat(a: string, rest: string)
    requires AllDigits(a)
    requires rest == "" || !IsDigit(rest[0])
    ensures Span(a + rest) == |a|
  {
    if a == "" {
      assert a + rest == rest;
    } else {
      SpanConcat(a[1..], rest);
      assert (a + rest)[1..] == a[1..] + rest;
    }
  }

  lemma {:induction false} SplitAt(a: string, b: string)
    ensures (a + b)[..|a|] == a && (a + b)[|a|..] == b
  {
  }

  lemma Regroup(a: string, b: string, c: string, d: string, e: string)
    ensures ((a + (b + c)) + d) + e == a + (b + (c + (d + e)))
  {
  }

  lemma {:induction false} FractionInverse(d: Decimal, rest: string)
    requires rest == "" || (!IsDigit(rest[0]) && rest[0] != '.')
    ensures ParseFraction(Fraction(d) + rest) == Ok(Padded(d.mag, d.places), rest)
  {
    if d.places == 0 {
      assert Fraction(d) + rest == rest;
    } else {
      var frac := Padded(d.mag, d.places);
      PaddedDigits(d.mag, d.places);
      SpanConcat(frac, rest);
      SplitAt(frac, rest);
      assert (Fraction(d) + rest)[1..] == frac + rest;
    }
  }

  lemma AfterE(digits: string, rest: string)
    requires digits != ""
    ensures var s := "e" + "" + digits + rest;
            s[0] == 'e' && s[1] == digits[0] && s[1..] == digits + rest
    ensures var s := "e" + "-" + digits + rest;
            s[0] == 'e' && s[1] == '-' && s[2..] == digits + rest
  {
  }

  /** An exponent written after its letter and optional minus sign. */
  lemma {:induction false} DigitsAfterE(neg: bool, digits: string, rest: string)
    requires digits != "" && AllDigits(digits)
    requires rest == "" || !IsDigit(rest[0])
    ensures ParseExponent("e" + Sign(neg) + digits + rest) == Ok(Signed(neg, Value(digits)), rest)
  {
    var s := "e" + Sign(neg) + digits + rest;
    SpanConcat(digits, rest);
    SplitAt(digits, rest);
    AfterE(digits, rest);
  }

  lemma {:induction false} IntText(n: int)
    ensures FormatInt(n) == Sign(n < 0) + Digits(OfInt(n).mag)
  {
    assert Whole(OfInt(n)) + "" == Whole(OfInt(n));
  }

  lemma {:induction false} ExponentInverse(e: int, rest: string)
    requires EndsNumber(rest)
    ensures ParseExponent(Exponent(e) + rest) == Ok(e, rest)
  {
    if e == 0 {
      assert Exponent(e) + rest == rest;
    } else {
      hide ParseExponent, Digits;
      IntText(e);
      DigitsValue(OfInt(e).mag);
      DigitsAfterE(e < 0, Digits(OfInt(e).mag), rest);
      Assoc("e", Sign(e < 0), Digits(OfInt(e).mag));
    }
  }

  lemma {:induction false} MantissaInverse(d: Decimal, tail: string)
    requires tail == "" || (!IsDigit(tail[0]) && tail[0] != '.')
    ensures
      var t := Whole(d) + (Fraction(d) + tail);
      var n := Span(t);
      && n > 0 && (n > 1 ==> t[0] != '0')
      && t[..n] == Whole(d)
      && ParseFraction(t[n..]) == Ok(Padded(d.mag, d.places), tail)
      && AllDigits(t[..n] + Padded(d.mag, d.places))
      && Value(t[..n] + Padded(d.mag, d.places)) == d.mag
  {
    DigitsValue(Shift(d.mag, d.places));
    SplitValue(d.mag, d.places);
    var back := Fraction(d) + tail;
    assert back == "" || !IsDigit(back[0]);
    SpanConcat(Whole(d), back);
    SplitAt(Whole(d), back);
    FractionInverse(d, tail);
  }

  /** ParseNumber on a text whose parts are known. */
  lemma {:induction false} NumberParts(neg: bool, t: string, frac: string, tail: string, e: int, rest: string)
    requires Span(t) > 0 && (Span(t) > 1 ==> t[0] != '0')
    requires AllDigits(frac) && ParseFraction(t[Span(t)..]) == Ok(frac, tail)
    requires ParseExponent(tail) == Ok(e, rest)
    ensures AllDigits(t[..Span(t)] + frac)
    ensures ParseNumber(Sign(neg) + t) == Ok(Num(Decimal(neg, Value(t[..Span(t)] + frac), |frac|), e), rest)
  {
    var s := Sign(neg) + t;
    assert IsDigit(t[..Span(t)][0]);
    assert (if neg then s[1..] else s) == t;
  }

  lemma {:induction false} NumberInverse(d: Decimal, e: int, rest: string)
    requires EndsNumber(rest)
    ensures ParseNumber(Print(Num(d, e)) + rest) == Ok(Num(d, e), rest)
  {
    hide ParseNumber, ParseExponent, Whole, Fraction, Span;
    var tail := Exponent(e) + rest;
    var t := Whole(d) + (Fraction(d) + tail);
    assert e != 0 ==> tail[0] == 'e';
    assert e == 0 ==> tail == rest;
    MantissaInverse(d, tail);
    ExponentInverse(e, rest);
    PaddedDigits(d.mag, d.places);
    NumberParts(d.neg, t, Padded(d.mag, d.places), tail, e, rest);
    Regroup(Sign(d.neg), Whole(d), Fraction(d), Exponent(e), rest);
  }

  lemma {:induction false} HexInverse(d: nat)
    requires d < 16
    ensures IsHex(HexDigit(d)) && HexValue(HexDigit(d)) == d
  {
  }

  lemma {:induction false} AtPlain(c: char, rest: string)
    requires c as int >= 0x20 && c != '"' && c != '\\'
    ensures ParseChars([c] + rest) == Prepend(c, ParseChars(rest))
  {
    assert ([c] + rest)[1..] == rest;
  }

  lemma {:induction false} AtShort(e: char, rest: string)
    requires Unescape(e).Ok?
    ensures ParseChars(['\\', e] + rest) == Prepend(Unescape(e).value, ParseChars(rest))
  {
    assert (['\\', e] + rest)[2..] == rest;
  }

  lemma {:induction false} AtUnicode(hi: char, lo: char, rest: string)
    requires IsHex(hi) && IsHex(lo) && HexValue(hi) * 16 + HexValue(lo) < 0x80
    ensures ParseChars(['\\', 'u', '0', '0', hi, lo] + rest)
            == Prepend((HexValue(hi) * 16 + HexValue(lo)) as char, ParseChars(rest))
  {
    var s := ['\\', 'u', '0', '0', hi, lo] + rest;
    assert s[6..] == rest;
    assert s[2] == '0' && s[3] == '0' && s[4] == hi && s[5] == lo;
  }

  lemma {:induction false} EscapeInverse(c: char, rest: string)
    ensures ParseChars(Escape(c) + rest) == Prepend(c, ParseChars(rest))
  {
    hide ParseChars;
    if |Escape(c)| == 1 {
      AtPlain(c, rest);
    } else if |Escape(c)| == 2 {
      AtShort(Escape(c)[1], rest);
      assert Escape(c) == ['\\', Escape(c)[1]];
    } else {
      var hi, lo := HexDigit(c as int / 16), HexDigit(c as int % 16);
      HexInverse(c as int / 16);
      HexInverse(c as int % 16);
      AtUnicode(hi, lo, rest);
      assert Escape(c) == ['\\', 'u', '0', '0', hi, lo];
    }
  }

  lemma AtQuote(rest: string)
    ensures ParseChars("\"" + rest) == Ok("", rest)
  {
    assert ("\"" + rest)[1..] == rest;
  }

  lemma FirstEscaped(first: string, others: string, quote: string, rest: string)
    ensures (first + others) + quote + rest == first + (others + quote + rest)
  {
  }

  lemma {:induction false} CharsInverse(s: string, rest: string)
    ensures ParseChars(EscapeAll(s) + "\"" + rest) == Ok(s, rest)
  {
    if s == "" {
      AtQuote(rest);
      assert EscapeAll(s) + "\"" + rest == "\"" + rest;
    } else {
      hide ParseChars, Escape;
      var tail := EscapeAll(s[1..]) + "\"" + rest;
      CharsInverse(s[1..], rest);
      EscapeInverse(s[0], tail);
      FirstEscaped(Escape(s[0]), EscapeAll(s[1..]), "\"", rest);
      assert [s[0]] + s[1..] == s;
    }
  }

  /** No value's text starts with whitespace or with a closing bracket. */
  lemma {:induction false} PrintStart(j: Json)
    ensures Print(j) != "" && !IsWs(Print(j)[0]) && Print(j)[0] !in {']', '}', ',', ':'}
    ensures j.Num? ==> Print(j)[0] == '-' || IsDigit(Print(j)[0])
  {
    if j.Num? {
      DigitsValue(Shift(j.mantissa.mag, j.mantissa.places));
    }
  }

  // How the parser proceeds at each first character.

  lemma {:induction false} AtString(t: string)
    ensures ParseValue("\"" + t) ==
            var r := ParseChars(t); if r.Fail? then Fail else Ok(Str(r.value), r.rest)
  {
    assert ("\"" + t)[1..] == t;
  }

  lemma {:induction false} AtArray(t: string)
    requires t != "" && !IsWs(t[0])
    ensures ParseValue("[" + t) ==
            if t[0] == ']' then Ok(Arr([]), t[1..])
            else var r := ParseItems(t); if r.Fail? then Fail else Ok(Arr(r.value), r.rest)
  {
    assert ("[" + t)[1..] == t;
  }

  lemma {:induction false} AtObject(t: string)
    requires t != "" && !IsWs(t[0])
    ensures ParseValue("{" + t) ==
            if t[0] == '}' then Ok(Obj([]), t[1..])
            else var r := ParseMembers(t); if r.Fail? then Fail else Ok(Obj(r.value), r.rest)
  {
    assert ("{" + t)[1..] == t;
  }

  lemma {:induction false} AtNumber(s: string)
    requires s != "" && (s[0] == '-' || IsDigit(s[0]))
    ensures ParseValue(s) == ParseNumber(s)
  {
    hide ParseNumber, ParseChars, ParseItems, ParseMembers, ParseLiteral;
  }

  lemma {:induction false} AfterItem(s: string, v: Json, c: char, t: string)
    requires ParseValue(s) == Ok(v, [c] + t)
    ensures c == ']' ==> ParseItems(s) == Ok([v], t)
    ensures c == ',' ==>
      ParseItems(s) == var more := ParseItems(t);
                       if more.Fail? then Fail else Ok([v] + more.value, more.rest)
  {
    assert ([c] + t)[1..] == t;
  }

  lemma {:induction false} AfterMember(s: string, m: Member, c: char, t: string)
    requires ParseMember(s) == Ok(m, [c] + t)
    ensures c == '}' ==> ParseMembers(s) == Ok([m], t)
    ensures c == ',' ==>
      ParseMembers(s) == var more := ParseMembers(t);
                         if more.Fail? then Fail else Ok([m] + more.value, more.rest)
  {
    assert ([c] + t)[1..] == t;
  }

  lemma {:induction false} AfterKey(t: string, key: string, value: string)
    requires ParseChars(t) == Ok(key, ":" + value)
    ensures ParseMember("\"" + t) ==
            var v := ParseValue(value); if v.Fail? then Fail else Ok(Member(key, v.value), v.rest)
  {
    assert ("\"" + t)[1..] == t;
    assert (":" + value)[1..] == value;
  }

  lemma {:induction false} LiteralInverse(j: Json, rest: string)
    requires j.Null? || j.Bool?
    ensures ParseValue(Print(j) + rest) == Ok(j, rest)
  {
    SplitAt(Print(j), rest);
    var s := Print(j) + rest;
    assert s[0] == Print(j)[0];
    assert SkipWs(s) == s;
    assert !j.Null? ==> s[..4] != "null";
    assert j == Bool(false) ==> s[..4] != "true";
  }

  lemma {:induction false} PrintItemsStart(items: seq<Json>)
    requires items != []
    ensures PrintItems(items) != "" && !IsWs(PrintItems(items)[0]) && PrintItems(items)[0] != ']'
  {
    PrintStart(items[0]);
  }

  lemma {:induction false} PrintMembersStart(members: seq<Member>)
    requires members != []
    ensures PrintMembers(members) != "" && PrintMembers(members)[0] == '"'
  {
  }

  /** The parser reads back exactly the printed tree and stops where its text ends. */
  lemma {:induction false} ValueInverse(j: Json, rest: string)
    requires EndsNumber(rest)
    ensures ParseValue(Print(j) + rest) == Ok(j, rest)
    decreases j
  {
    hide ParseValue, ParseItems, ParseMembers, ParseChars, ParseNumber;
    match j
    case Null => LiteralInverse(j, rest);
    case Bool(_) => LiteralInverse(j, rest);
    case Num(d, e) =>
      PrintStart(j);
      NumberInverse(d, e, rest);
      AtNumber(Print(j) + rest);
    case Str(t) =>
      CharsInverse(t, rest);
      AtString(EscapeAll(t) + "\"" + rest);
      Around("\"", EscapeAll(t), "\"", rest);
    case Arr(items) =>
      if items == [] {
        EmptyArrayInverse(rest);
      } else {
        PrintItemsStart(items);
        ItemsInverse(items, rest);
        AtArray(PrintItems(items) + "]" + rest);
        Around("[", PrintItems(items), "]", rest);
      }
    case Obj(members) =>
      if members == [] {
        EmptyObjectInverse(rest);
      } else {
        PrintMembersStart(members);
        MembersInverse(members, rest);
        AtObject(PrintMembers(members) + "}" + rest);
        Around("{", PrintMembers(members), "}", rest);
      }
  }

  lemma Around(open: string, body: string, close: string, rest: string)
    ensures (open + body + close) + rest == open + (body + close + rest)
  {
  }

  lemma {:induction false} EmptyArrayInverse(rest: string)
    ensures ParseValue(Print(Arr([])) + rest) == Ok(Arr([]), rest)
  {
    hide ParseValue;
    AtArray("]" + rest);
    assert Print(Arr([])) + rest == "[" + ("]" + rest);
  }

  lemma {:induction false} EmptyObjectInverse(rest: string)
    ensures ParseValue(Print(Obj([])) + rest) == Ok(Obj([]), rest)
  {
    hide ParseValue;
    AtObject("}" + rest);
    assert Print(Obj([])) + rest == "{" + ("}" + rest);
  }

  lemma Between(first: string, more: string, close: string, rest: string)
    ensures (first + "," + more) + close + rest == first + ("," + (more + close + rest))
  {
  }

  lemma {:induction false} ItemsInverse(items: seq<Json>, rest: string)
    requires items != []
    ensures ParseItems(PrintItems(items) + "]" + rest) == Ok(items, rest)
    decreases items
  {
    hide ParseItems, ParseValue;
    var s := PrintItems(items) + "]" + rest;
    if |items| == 1 {
      ValueInverse(items[0], "]" + rest);
      Assoc(Print(items[0]), "]", rest);
      AfterItem(s, items[0], ']', rest);
      assert items == [items[0]];
    } else {
      var tail := PrintItems(items[1..]) + "]" + rest;
      ValueInverse(items[0], "," + tail);
      Between(Print(items[0]), PrintItems(items[1..]), "]", rest);
      AfterItem(s, items[0], ',', tail);
      ItemsInverse(items[1..], rest);
      assert items == [items[0]] + items[1..];
    }
  }

  lemma {:induction false} MemberInverse(m: Member, rest: string)
    requires EndsNumber(rest)
    ensures ParseMember(PrintMember(m) + rest) == Ok(m, rest)
    decreases m
  {
    hide ParseMember, ParseValue, ParseChars;
    var value := Print(m.value) + rest;
    var t := EscapeAll(m.key) + "\"" + (":" + value);
    CharsInverse(m.key, ":" + value);
    ValueInverse(m.value, rest);
    AfterKey(t, m.key, value);
    assert PrintMember(m) + rest == "\"" + t;
  }

  lemma {:induction false} MembersInverse(members: seq<Member>, rest: string)
    requires members != []
    ensures ParseMembers(PrintMembers(members) + "}" + rest) == Ok(members, rest)
    decreases members
  {
    hide ParseMember, ParseMembers, PrintMember;
    var s := PrintMembers(members) + "}" + rest;
    if |members| == 1 {
      MemberInverse(members[0], "}" + rest);
      Assoc(PrintMember(members[0]), "}", rest);
      AfterMember(s, members[0], '}', rest);
      assert members == [members[0]];
    } else {
      var tail := PrintMembers(members[1..]) + "}" + rest;
      MemberInverse(members[0], "," + tail);
      Between(PrintMember(members[0]), PrintMembers(members[1..]), "}", rest);
      AfterMember(s, members[0], ',', tail);
      MembersInverse(members[1..], rest);
      assert members == [members[0]] + members[1..];
    }
  }

  lemma {:induction false} DocumentInverse(j: Json)
    ensures ParseDocument(Print(j)) == Ok(j, "")
  {
    ValueInverse(j, "");
    assert Print(j) + "" == Print(j);
  }
}
