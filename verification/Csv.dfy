/** CSV records as export.c writes them, and a reference reader for section 2 of RFC 4180. */
module Csv {
  import opened Sequences

  predicate Special(c: char) {
    c == ',' || c == '"' || c == '\n' || c == '\r'
  }

  predicate NeedsQuotes(s: string) {
    exists i :: 0 <= i < |s| && Special(s[i])
  }

  function DoubleQuotes(s: string): string {
    if s == "" then ""
    else (if s[0] == '"' then "\"\"" else [s[0]]) + DoubleQuotes(s[1..])
  }

  function Field(s: string): string {
    if NeedsQuotes(s) then "\"" + DoubleQuotes(s) + "\"" else s
  }

  /** A field is quoted if and only if it holds a comma, a quote or a line break. */
  lemma PlainIff(s: string)
    ensures Field(s) == s <==> ',' !in s && '"' !in s && '\n' !in s && '\r' !in s
  {
    if i :| 0 <= i < |s| && Special(s[i]) {
      DoublingGrows(s);
      assert |Field(s)| > |s|;
    }
  }

  lemma {:induction false} DoublingGrows(s: string)
    ensures |DoubleQuotes(s)| >= |s|
  {
    if s != "" {
      DoublingGrows(s[1..]);
    }
  }

  /** Fields that follow others: each with the comma in front of it. */
  function Tail(fields: seq<string>): string {
    if fields == [] then "" else "," + Field(fields[0]) + Tail(fields[1..])
  }

  function Record(fields: seq<string>): string
    requires fields != []
  {
    Field(fields[0]) + Tail(fields[1..])
  }

  // ---- Reference reader -----------------------------------------------------

  datatype Read<T> = Fail | Ok(value: T, rest: string)

  function Prepend(c: char, r: Read<string>): Read<string> {
    if r.Fail? then Fail else Ok([c] + r.value, r.rest)
  }

  /** escaped = DQUOTE *( TEXTDATA / COMMA / CR / LF / 2DQUOTE ) DQUOTE, after its first quote. */
  function ReadQuoted(s: string): (r: Read<string>)
    ensures r.Ok? ==> |r.rest| < |s|
  {
    if s == "" then Fail
    else if s[0] != '"' then Prepend(s[0], ReadQuoted(s[1..]))
    else if |s| > 1 && s[1] == '"' then Prepend('"', ReadQuoted(s[2..]))
    else Ok("", s[1..])
  }

  /** non-escaped = *TEXTDATA */
  function ReadPlain(s: string): (r: Read<string>)
    ensures r.Ok? && |r.rest| <= |s|
  {
    if s == "" || Special(s[0]) then Ok("", s) else Prepend(s[0], ReadPlain(s[1..]))
  }

  function ReadField(s: string): (r: Read<string>)
    ensures r.Ok? ==> |r.rest| <= |s|
  {
    if s != "" && s[0] == '"' then ReadQuoted(s[1..]) else ReadPlain(s)
  }

  /** record = field *( COMMA field ), ended by CRLF or by the end of the text. */
  function ReadRecord(s: string): (r: Read<seq<string>>)
    ensures r.Ok? ==> r.value != []
    decreases |s|
  {
    var f := ReadField(s);
    if f.Fail? then Fail
    else if f.rest == "" then Ok([f.value], "")
    else if f.rest[0] == ',' then
      var more := ReadRecord(f.rest[1..]);
      if more.Fail? then Fail else Ok([f.value] + more.value, more.rest)
    else if |f.rest| > 1 && f.rest[0] == '\r' && f.rest[1] == '\n' then Ok([f.value], f.rest[2..])
    else Fail
  }

  // ---- Reading undoes writing -------------------------------------------------

  lemma {:induction false} QuotedInverse(s: string, rest: string)
    requires rest == "" || rest[0] != '"'
    ensures ReadQuoted(DoubleQuotes(s) + "\"" + rest) == Ok(s, rest)
  {
    var t := DoubleQuotes(s) + "\"" + rest;
    if s == "" {
      assert t == "\"" + rest;
    } else {
      QuotedInverse(s[1..], rest);
      var more := DoubleQuotes(s[1..]) + "\"" + rest;
      if s[0] == '"' {
        assert t == "\"\"" + more;
      } else {
        assert t == [s[0]] + more;
      }
      assert [s[0]] + s[1..] == s;
    }
  }

  lemma {:induction false} PlainInverse(s: string, rest: string)
    requires !NeedsQuotes(s)
    requires rest == "" || Special(rest[0])
    ensures ReadPlain(s + rest) == Ok(s, rest)
  {
    if s == "" {
      assert s + rest == rest;
    } else {
      assert forall i :: 0 <= i < |s[1..]| ==> s[1..][i] == s[i + 1];
      PlainInverse(s[1..], rest);
      assert (s + rest)[1..] == s[1..] + rest;
      assert [s[0]] + s[1..] == s;
    }
  }

  lemma {:induction false} FieldInverse(s: string, rest: string)
    requires rest == "" || rest[0] == ','
    ensures ReadField(Field(s) + rest) == Ok(s, rest)
  {
    if NeedsQuotes(s) {
      QuotedInverse(s, rest);
      assert Field(s) + rest == "\"" + (DoubleQuotes(s) + "\"" + rest);
    } else {
      PlainInverse(s, rest);
      assert s != "" ==> (s + rest)[0] == s[0];
    }
  }

  lemma {:induction false} AfterField(s: string, f: string, more: string)
    requires ReadField(s) == Ok(f, "," + more)
    ensures ReadRecord(s) ==
            var r := ReadRecord(more); if r.Fail? then Fail else Ok([f] + r.value, r.rest)
  {
    hide ReadField;
    assert ("," + more)[1..] == more;
  }

  /** A written record is read back as exactly its fields, with nothing left over,
      whatever bytes the fields hold. */
  lemma {:induction false} RecordInverse(fields: seq<string>)
    requires fields != []
    ensures ReadRecord(Record(fields)) == Ok(fields, "")
  {
    hide ReadField, Field;
    FieldInverse(fields[0], Tail(fields[1..]));
    if |fields| > 1 {
      Assoc(",", Field(fields[1]), Tail(fields[1..][1..]));
      AfterField(Record(fields), fields[0], Record(fields[1..]));
      RecordInverse(fields[1..]);
      assert fields == [fields[0]] + fields[1..];
    } else {
      assert fields == [fields[0]];
    }
  }

  // ---- Building a record from the left ------------------------------------------

  lemma {:induction false} TailConcat(a: seq<string>, b: seq<string>)
    ensures Tail(a + b) == Tail(a) + Tail(b)
  {
    if a == [] {
      assert a + b == b;
    } else {
      TailConcat(a[1..], b);
      Assoc("," + Field(a[0]), Tail(a[1..]), Tail(b));
      assert (a + b)[1..] == a[1..] + b;
    }
  }
}
