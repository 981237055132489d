/**
  The value of the "Confirm & Log" button: the parsed fields and the id of
  the user who posted the message, joined with `|` (bot.py line 139), and
  read back with `split('|')` and a four-way unpacking (bot.py lines
  150-151).
*/
module Payload {
  import opened Wrappers
  import Ascii
  import Config
  import MessageParse

  /** The four fields the button carries. */
  datatype ButtonValue = ButtonValue(retailer: string, tranche: string, pageCount: string, userId: string)

  const Separator: char := '|'

  /** How often `c` occurs in `s`. */
  function Count(s: string, c: char): nat {
    if s == [] then 0 else (if s[0] == c then 1 else 0) + Count(s[1..], c)
  }

  lemma {:induction false} CountAppend(a: string, b: string, c: char)
    ensures Count(a + b, c) == Count(a, c) + Count(b, c)
    decreases |a|
  {
    if a == [] {
      assert a + b == b;
    } else {
      assert (a + b)[0] == a[0];
      assert (a + b)[1..] == a[1..] + b;
      CountAppend(a[1..], b, c);
    }
  }

  lemma {:induction false} CountAbsent(s: string, c: char)
    ensures Count(s, c) == 0 <==> c !in s
    decreases |s|
  {
    if s != [] {
      CountAbsent(s[1..], c);
      assert s == [s[0]] + s[1..];
    }
  }

  /** The parts joined with `sep` in between. */
  function Join(parts: seq<string>, sep: char): string {
    if parts == [] then []
    else if |parts| == 1 then parts[0]
    else parts[0] + [sep] + Join(parts[1..], sep)
  }

  /**
    `s.split(sep)`: the pieces between the separators, so at least one, none
    containing `sep`, and joining them again gives `s`.
  */
  function Split(s: string, sep: char): (parts: seq<string>)
    ensures |parts| >= 1
    ensures forall i :: 0 <= i < |parts| ==> sep !in parts[i]
    ensures Join(parts, sep) == s
    decreases |s|
  {
    if s == [] then [[]]
    else
      var rest := Split(s[1..], sep);
      if s[0] == sep then
        assert [sep] + Join(rest, sep) == s;
        [[]] + rest
      else
        var parts := [[s[0]] + rest[0]] + rest[1..];
        assert Join(parts, sep) == s by {
          if |rest| == 1 {
            assert Join(parts, sep) == [s[0]] + rest[0];
          } else {
            assert parts[1..] == rest[1..];
            assert Join(rest, sep) == rest[0] + [sep] + Join(rest[1..], sep);
          }
        }
        parts
  }

  /** Splitting gives one part more than there are separators. */
  lemma {:induction false} SplitCount(s: string, sep: char)
    ensures |Split(s, sep)| == Count(s, sep) + 1
    decreases |s|
  {
    if s != [] {
      SplitCount(s[1..], sep);
    }
  }

  /** Splitting a join of separator-free parts gives back the parts. */
  lemma {:induction false} SplitJoin(parts: seq<string>, sep: char)
    requires |parts| >= 1
    requires forall i :: 0 <= i < |parts| ==> sep !in parts[i]
    ensures Split(Join(parts, sep), sep) == parts
    decreases |parts|
  {
    var p := parts[0];
    if |parts| == 1 {
      SplitPlain(p, [], sep);
      assert p + [] == p;
      assert parts == [p];
    } else {
      var tail := Join(parts[1..], sep);
      assert Join(parts, sep) == p + ([sep] + tail);
      SplitJoin(parts[1..], sep);
      SplitCons(p, tail, sep);
      assert [p] + parts[1..] == parts;
    }
  }

  /** A separator-free part, a separator and more split into that part and the rest's parts. */
  lemma SplitCons(p: string, tail: string, sep: char)
    requires sep !in p
    ensures Split(p + ([sep] + tail), sep) == [p] + Split(tail, sep)
  {
    SplitAtSeparator(tail, sep);
    SplitPlain(p, [sep] + tail, sep);
    var r := Split([sep] + tail, sep);
    assert r[0] == [] && r[1..] == Split(tail, sep);
    assert p + [] == p;
  }

  /** A separator-free prefix joins the first part. */
  lemma {:induction false} SplitPlain(a: string, b: string, sep: char)
    requires sep !in a
    ensures var r := Split(b, sep); Split(a + b, sep) == [a + r[0]] + r[1..]
    decreases |a|
  {
    var r := Split(b, sep);
    if a == [] {
      assert a + b == b;
      assert a + r[0] == r[0];
      assert [r[0]] + r[1..] == r;
    } else {
      assert a[0] in a;
      assert (a + b)[0] == a[0];
      assert (a + b)[1..] == a[1..] + b;
      SplitPlain(a[1..], b, sep);
      assert [a[0]] + (a[1..] + r[0]) == a + r[0];
    }
  }

  /** A leading separator starts a new, initially empty part. */
  lemma SplitAtSeparator(s: string, sep: char)
    ensures Split([sep] + s, sep) == [[]] + Split(s, sep)
  {
    assert ([sep] + s)[1..] == s;
  }

  /** `f"{retailer}|{tranche}|{page_count}|{user_id}"`. */
  function Encode(v: ButtonValue): (s: string)
    ensures Count(s, Separator) ==
      3 + Count(v.retailer, Separator) + Count(v.tranche, Separator) +
      Count(v.pageCount, Separator) + Count(v.userId, Separator)
  {
    var parts := [v.retailer, v.tranche, v.pageCount, v.userId];
    assert parts[1..] == [v.tranche, v.pageCount, v.userId];
    assert parts[1..][1..] == [v.pageCount, v.userId];
    assert parts[1..][1..][1..] == [v.userId];
    assert Join(parts[1..][1..], Separator) == v.pageCount + [Separator] + v.userId;
    assert Join(parts[1..], Separator) == v.tranche + [Separator] + (v.pageCount + [Separator] + v.userId);
    assert Join(parts, Separator) ==
      v.retailer + [Separator] + (v.tranche + [Separator] + (v.pageCount + [Separator] + v.userId));
    CountAppend(v.retailer + [Separator], v.tranche + [Separator] + (v.pageCount + [Separator] + v.userId), Separator);
    CountAppend(v.retailer, [Separator], Separator);
    CountAppend(v.tranche + [Separator], v.pageCount + [Separator] + v.userId, Separator);
    CountAppend(v.tranche, [Separator], Separator);
    CountAppend(v.pageCount + [Separator], v.userId, Separator);
    CountAppend(v.pageCount, [Separator], Separator);
    Join(parts, Separator)
  }

  /**
    `retailer, tranche, count, original_user_id = value.split('|')`: the
    unpacking succeeds only when there are exactly four parts; otherwise
    Python raises, which is modelled as None.
  */
  function Decode(s: string): (r: Option<ButtonValue>)
    ensures r.Some? <==> Count(s, Separator) == 3
  {
    SplitCount(s, Separator);
    var parts := Split(s, Separator);
    if |parts| == 4 then Some(ButtonValue(parts[0], parts[1], parts[2], parts[3])) else None
  }

  /** No field holds the separator. */
  predicate Plain(v: ButtonValue) {
    Separator !in v.retailer && Separator !in v.tranche && Separator !in v.pageCount && Separator !in v.userId
  }

  /** Decoding an encoded value gives it back exactly when no field holds `|`. */
  lemma DecodeEncode(v: ButtonValue)
    ensures Decode(Encode(v)) == Some(v) <==> Plain(v)
    ensures !Plain(v) ==> Decode(Encode(v)) == None
  {
    CountAbsent(v.retailer, Separator);
    CountAbsent(v.tranche, Separator);
    CountAbsent(v.pageCount, Separator);
    CountAbsent(v.userId, Separator);
    if Plain(v) {
      var parts := [v.retailer, v.tranche, v.pageCount, v.userId];
      SplitJoin(parts, Separator);
    }
  }

  /** Whatever decodes is the encoding of what it decodes to. */
  lemma EncodeDecode(s: string)
    requires Decode(s).Some?
    ensures Encode(Decode(s).value) == s
    ensures Plain(Decode(s).value)
  {
    var parts := Split(s, Separator);
    assert parts == [parts[0], parts[1], parts[2], parts[3]];
  }

  /** A string of digits holds no separator. */
  lemma DigitsPlain(r: string)
    requires MessageParse.AllDigits(r)
    ensures Separator !in r
  {
    forall k | 0 <= k < |r|
      ensures r[k] != Separator
    {
      assert Ascii.IsDigit(r[k]);
    }
  }

  /** The retailer found in a table of separator-free names holds no separator. */
  lemma RetailerPlain(table: seq<Config.Retailer>, t: string)
    requires Config.NamesPipeFree(table)
    ensures Separator !in MessageParse.FirstRetailer(table, t)
  {
    var r := MessageParse.FirstRetailer(table, t);
    if r == "Unknown" {
      assert Separator !in "Unknown";
    }
  }

  /** The retailer found in a table of separator-free names, the tranche and the page count never hold `|`. */
  lemma ParsedFieldsPlain(table: seq<Config.Retailer>, text: string)
    requires Config.NamesPipeFree(table)
    ensures Separator !in MessageParse.FirstRetailer(table, Ascii.Lower(text))
    ensures Separator !in MessageParse.Tranche(text)
    ensures Separator !in MessageParse.PageCount(text)
  {
    RetailerPlain(table, Ascii.Lower(text));
    var t := MessageParse.Tranche(text);
    if t != "Unknown" {
      DigitsPlain(t[1..]);
      assert t == [t[0]] + t[1..];
    }
    var c := MessageParse.PageCount(text);
    if c != "0" {
      DigitsPlain(c);
    }
  }

  /**
    The button built from a parsed message carries the parsed fields back
    to the confirmation handler exactly when the user id holds no `|`.
  */
  lemma ButtonRoundTrip(text: string, userId: string)
    ensures var v := ButtonValue(
        MessageParse.FirstRetailer(Config.Retailers(), Ascii.Lower(text)),
        MessageParse.Tranche(text), MessageParse.PageCount(text), userId);
      Decode(Encode(v)) == Some(v) <==> Separator !in userId
  {
    Config.RetailersWellFormed();
    ParsedFieldsPlain(Config.Retailers(), text);
    var v := ButtonValue(
        MessageParse.FirstRetailer(Config.Retailers(), Ascii.Lower(text)),
        MessageParse.Tranche(text), MessageParse.PageCount(text), userId);
    DecodeEncode(v);
  }
}
