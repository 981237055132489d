/**
  Serialisation of one CSV row as `csv.writer(...).writerow(fields)` does it
  with Python's default `excel` dialect (bot.py lines 84-96): fields are
  separated by `,`, the quote character is `"`, quoting is minimal, an
  embedded quote is written twice and every record ends with `\r\n`.

  The partner of the writer is a reader for the record grammar of section 2
  of RFC 4180 (rules 2.1, 2.4 to 2.7): reading a written row gives back its
  fields.
*/
module CsvRow {
  import opened Wrappers

  /**
    Minimal quoting: a field is quoted when it holds the delimiter, the
    quote character or a character of the line terminator.
  */
  predicate NeedsQuotes(f: string) {
    ',' in f || '"' in f || '\r' in f || '\n' in f
  }

  /** A character that may stand in a field written without quotes. */
  predicate IsPlain(c: char) {
    c != ',' && c != '"' && c != '\r' && c != '\n'
  }

  /** The body of a quoted field: every `"` of `f` written twice. */
  function EscapeQuotes(f: string): (r: string)
    ensures |r| >= |f|
    ensures '"' !in f ==> r == f
  {
    if f == [] then []
    else if f[0] == '"' then "\"\"" + EscapeQuotes(f[1..])
    else [f[0]] + EscapeQuotes(f[1..])
  }

  /** One field as the writer emits it. */
  function EncodeField(f: string): (r: string)
    ensures |r| > 0 && r[0] == '"' <==> NeedsQuotes(f)
    ensures !NeedsQuotes(f) ==> r == f
  {
    if NeedsQuotes(f) then "\"" + EscapeQuotes(f) + "\"" else f
  }

  /** The encoded fields joined by `,`. */
  function JoinFields(fs: seq<string>): string {
    if fs == [] then []
    else if |fs| == 1 then EncodeField(fs[0])
    else EncodeField(fs[0]) + "," + JoinFields(fs[1..])
  }

  /**
    `writerow(fields)`: the joined fields and the line terminator. A record
    whose text would be empty although it has a field (a single empty field)
    is written as `""` so that it reads back as one field.
  */
  function WriteRow(fs: seq<string>): (r: string)
    ensures |r| >= 2 && r[|r| - 2..] == "\r\n"
  {
    (if fs == [""] then "\"\"" else JoinFields(fs)) + "\r\n"
  }

  /** `s` joined by `,` with no quoting at all. */
  function JoinPlain(fs: seq<string>): string {
    if fs == [] then []
    else if |fs| == 1 then fs[0]
    else fs[0] + "," + JoinPlain(fs[1..])
  }

  /** Fields without special characters are written as they are, joined by `,`. */
  lemma {:induction false} WriteRowPlain(fs: seq<string>)
    requires fs != [""]
    requires forall i :: 0 <= i < |fs| ==> !NeedsQuotes(fs[i])
    ensures WriteRow(fs) == JoinPlain(fs) + "\r\n"
  {
    JoinFieldsPlain(fs);
  }

  lemma {:induction false} JoinFieldsPlain(fs: seq<string>)
    requires forall i :: 0 <= i < |fs| ==> !NeedsQuotes(fs[i])
    ensures JoinFields(fs) == JoinPlain(fs)
    decreases |fs|
  {
    if |fs| > 1 {
      JoinFieldsPlain(fs[1..]);
    }
  }

  // ---------------------------------------------------------------------
  // Reader (section 2 of RFC 4180)
  // ---------------------------------------------------------------------

  /** The length of the longest prefix of `s` made of plain characters. */
  function PlainPrefix(s: string): (n: nat)
    ensures n <= |s|
    ensures forall i :: 0 <= i < n ==> IsPlain(s[i])
    ensures n < |s| ==> !IsPlain(s[n])
  {
    if s == [] || !IsPlain(s[0]) then 0 else 1 + PlainPrefix(s[1..])
  }

  /**
    The body of a quoted field, read from just after its opening quote: the
    field's characters (with each `""` read as one `"`) and what follows the
    closing quote. None when the closing quote is missing.
  */
  function ReadQuoted(s: string): (r: Option<(string, string)>)
    ensures r.Some? ==> |r.value.1| < |s|
  {
    if s == [] then None
    else if s[0] == '"' then
      if |s| > 1 && s[1] == '"' then
        match ReadQuoted(s[2..])
        case None => None
        case Some((f, rest)) => Some(("\"" + f, rest))
      else Some(([], s[1..]))
    else
      match ReadQuoted(s[1..])
      case None => None
      case Some((f, rest)) => Some(([s[0]] + f, rest))
  }

  /**
    `Some(fs)` prepended by `f`; None stays None.
  */
  function Cons(f: string, r: Option<seq<string>>): Option<seq<string>> {
    match r
    case None => None
    case Some(fs) => Some([f] + fs)
  }

  /**
    The fields of a record without its line break: `field *(COMMA field)`,
    where a field is quoted (rules 2.5 to 2.7) or made of plain characters
    (rule 2.4).
  */
  function ReadFields(s: string): Option<seq<string>>
    decreases |s|
  {
    if |s| > 0 && s[0] == '"' then
      match ReadQuoted(s[1..])
      case None => None
      case Some((f, rest)) =>
        if rest == [] then Some([f])
        else if rest[0] == ',' then Cons(f, ReadFields(rest[1..]))
        else None
    else
      var n := PlainPrefix(s);
      if n == |s| then Some([s])
      else if s[n] == ',' then Cons(s[..n], ReadFields(s[n + 1..]))
      else None
  }

  /** One record terminated by CRLF (rule 2.1). */
  function ReadRow(s: string): Option<seq<string>> {
    if |s| >= 2 && s[|s| - 2..] == "\r\n" then ReadFields(s[..|s| - 2]) else None
  }

  // ---------------------------------------------------------------------
  // Round trip
  // ---------------------------------------------------------------------

  /** Reading an escaped field and its closing quote gives back the field and what follows. */
  lemma {:induction false} ReadQuotedEscape(f: string, t: string)
    requires t == [] || t[0] != '"'
    ensures ReadQuoted(EscapeQuotes(f) + "\"" + t) == Some((f, t))
    decreases |f|
  {
    var s := EscapeQuotes(f) + "\"" + t;
    if f == [] {
      assert s == "\"" + t;
      ReadQuotedClose(s, t);
    } else {
      var e := EscapeQuotes(f[1..]);
      var u := e + "\"" + t;
      ReadQuotedEscape(f[1..], t);
      if f[0] == '"' {
        assert s == "\"\"" + u;
        ReadQuotedDoubled(s, u);
        assert "\"" + f[1..] == f;
      } else {
        assert s == [f[0]] + u;
        ReadQuotedChar(s, u);
        assert [f[0]] + f[1..] == f;
      }
    }
  }

  /** A quote not followed by another closes the field. */
  lemma ReadQuotedClose(s: string, t: string)
    requires s == "\"" + t
    requires t == [] || t[0] != '"'
    ensures ReadQuoted(s) == Some(([], t))
  {
    assert s[1..] == t;
  }

  /** A doubled quote reads as one quote of the field. */
  lemma ReadQuotedDoubled(s: string, u: string)
    requires s == "\"\"" + u
    ensures ReadQuoted(s) ==
      match ReadQuoted(u)
      case None => None
      case Some((f, rest)) => Some(("\"" + f, rest))
  {
    assert s[2..] == u;
  }

  /** Any other character is a character of the field. */
  lemma ReadQuotedChar(s: string, u: string)
    requires |s| > 0 && s[0] != '"' && s[1..] == u
    ensures ReadQuoted(s) ==
      match ReadQuoted(u)
      case None => None
      case Some((f, rest)) => Some(([s[0]] + f, rest))
  {
  }

  /** A field that needs no quotes is made of plain characters. */
  lemma PlainChars(f: string)
    requires !NeedsQuotes(f)
    ensures forall i :: 0 <= i < |f| ==> IsPlain(f[i])
  {
    forall i | 0 <= i < |f|
      ensures IsPlain(f[i])
    {
      assert f[i] in f;
    }
  }

  /** Plain characters followed by the end of the record or a comma are read up to there. */
  lemma {:induction false} PlainPrefixUntil(f: string, t: string)
    requires forall i :: 0 <= i < |f| ==> IsPlain(f[i])
    requires t == [] || !IsPlain(t[0])
    ensures PlainPrefix(f + t) == |f|
    decreases |f|
  {
    if f == [] {
      assert f + t == t;
    } else {
      assert (f + t)[0] == f[0];
      assert (f + t)[1..] == f[1..] + t;
      assert forall i :: 0 <= i < |f[1..]| ==> f[1..][i] == f[i + 1];
      PlainPrefixUntil(f[1..], t);
    }
  }

  /** A quoted field followed by the end of the record or by `,` and more is read back. */
  lemma ReadFieldsQuoted(f: string, t: string)
    requires t == [] || t[0] == ','
    ensures ReadFields(['"'] + (EscapeQuotes(f) + "\"" + t)) ==
      if t == [] then Some([f]) else Cons(f, ReadFields(t[1..]))
  {
    var q := EscapeQuotes(f) + "\"" + t;
    assert (['"'] + q)[1..] == q;
    ReadQuotedEscape(f, t);
    ReadFieldsAfterQuoted(['"'] + q, f, t);
  }

  /** A record that starts with a quoted field, read up to its closing quote. */
  lemma ReadFieldsAfterQuoted(s: string, f: string, t: string)
    requires |s| > 0 && s[0] == '"' && ReadQuoted(s[1..]) == Some((f, t))
    requires t == [] || t[0] == ','
    ensures ReadFields(s) == if t == [] then Some([f]) else Cons(f, ReadFields(t[1..]))
  {
  }

  /** A plain field followed by the end of the record or by `,` and more is read back. */
  lemma ReadFieldsUnquoted(f: string, t: string)
    requires !NeedsQuotes(f)
    requires t == [] || t[0] == ','
    ensures ReadFields(f + t) ==
      if t == [] then Some([f]) else Cons(f, ReadFields(t[1..]))
  {
    var s := f + t;
    PlainChars(f);
    PlainPrefixUntil(f, t);
    if f != [] {
      assert s[0] == f[0];
    }
    if t == [] {
      assert s == f;
    } else {
      assert s[|f|] == ',';
      assert s[..|f|] == f;
      assert s[|f| + 1..] == t[1..];
    }
  }

  /** An encoded field followed by the end of the record or by `,` and more is read back. */
  lemma ReadFieldsEncoded(f: string, t: string)
    requires t == [] || t[0] == ','
    ensures ReadFields(EncodeField(f) + t) ==
      if t == [] then Some([f]) else Cons(f, ReadFields(t[1..]))
  {
    if NeedsQuotes(f) {
      assert EncodeField(f) + t == ['"'] + (EscapeQuotes(f) + "\"" + t);
      ReadFieldsQuoted(f, t);
    } else {
      ReadFieldsUnquoted(f, t);
    }
  }

  lemma {:induction false} ReadJoinFields(fs: seq<string>)
    requires |fs| >= 1
    ensures ReadFields(JoinFields(fs)) == Some(fs)
    decreases |fs|
  {
    if |fs| == 1 {
      ReadFieldsEncoded(fs[0], []);
      assert EncodeField(fs[0]) + [] == EncodeField(fs[0]);
      assert fs == [fs[0]];
    } else {
      var t := "," + JoinFields(fs[1..]);
      assert JoinFields(fs) == EncodeField(fs[0]) + t;
      assert t[1..] == JoinFields(fs[1..]);
      ReadFieldsEncoded(fs[0], t);
      ReadJoinFields(fs[1..]);
      calc {
        ReadFields(JoinFields(fs));
        Cons(fs[0], ReadFields(JoinFields(fs[1..])));
        Cons(fs[0], Some(fs[1..]));
        Some([fs[0]] + fs[1..]);
        { assert [fs[0]] + fs[1..] == fs; }
        Some(fs);
      }
    }
  }

  /** Reading a written row under RFC 4180 gives back its fields. */
  lemma {:induction false} ReadWriteRow(fs: seq<string>)
    requires |fs| >= 1
    ensures ReadRow(WriteRow(fs)) == Some(fs)
  {
    var r := WriteRow(fs);
    var body := if fs == [""] then "\"\"" else JoinFields(fs);
    assert r[..|r| - 2] == body;
    if fs == [""] {
      assert body[1..] == "\"";
    } else {
      ReadJoinFields(fs);
    }
  }

  /** The empty row is written as a bare line break, which reads as one empty field. */
  lemma WriteEmptyRow()
    ensures WriteRow([]) == "\r\n"
    ensures ReadRow(WriteRow([])) == Some([""])
  {
    assert WriteRow([])[..0] == [];
  }
}
