/**
  `parse_message` (bot.py lines 39-58): the page count, the tranche and the
  retailer named in a Slack message.

  The three `re.search` calls are written as scanning functions over the
  text. Each scan tries the start positions from left to right, as
  `re.search` does, and at one position decides directly what the
  backtracking engine ends up with; a lemma beside each scan shows that this
  decision agrees with the regular expression read declaratively.
*/
module MessageParse {
  import opened Wrappers
  import opened Ascii
  import Config

  // ---------------------------------------------------------------------
  // Runs of characters
  // ---------------------------------------------------------------------

  /** The end of the run of digits that starts at `i`. */
  function DigitRunEnd(s: string, i: nat): (j: nat)
    requires i <= |s|
    ensures i <= j <= |s|
    ensures forall k :: i <= k < j ==> IsDigit(s[k])
    ensures j < |s| ==> !IsDigit(s[j])
    decreases |s| - i
  {
    if i < |s| && IsDigit(s[i]) then DigitRunEnd(s, i + 1) else i
  }

  /** The end of the run of whitespace that starts at `i`. */
  function SpaceRunEnd(s: string, i: nat): (j: nat)
    requires i <= |s|
    ensures i <= j <= |s|
    ensures forall k :: i <= k < j ==> IsSpace(s[k])
    ensures j < |s| ==> !IsSpace(s[j])
    decreases |s| - i
  {
    if i < |s| && IsSpace(s[i]) then SpaceRunEnd(s, i + 1) else i
  }

  predicate AllDigits(s: string) {
    forall k :: 0 <= k < |s| ==> IsDigit(s[k])
  }

  // ---------------------------------------------------------------------
  // Page count: re.search(r"(\d+)\s*pages?", text, re.IGNORECASE)
  // ---------------------------------------------------------------------

  /**
    The pattern matches at `i`: a digit starts there, and after the whole
    run of digits and the whole run of whitespace comes "page" in any case.
    The optional trailing `s` never decides whether the pattern matches.
  */
  predicate PageMatchAt(s: string, i: nat) {
    i < |s| && IsDigit(s[i]) && MatchesIgnoreCaseAt(s, SpaceRunEnd(s, DigitRunEnd(s, i)), "page")
  }

  /**
    The pattern read declaratively: group 1 is `s[i..j]`, a non-empty run of
    digits, followed by some whitespace and "page".
  */
  ghost predicate PageRegexAt(s: string, i: nat, j: nat) {
    i < j <= |s| && (forall k :: i <= k < j ==> IsDigit(s[k])) &&
    exists w :: j <= w <= |s| && (forall k :: j <= k < w ==> IsSpace(s[k])) && MatchesIgnoreCaseAt(s, w, "page")
  }

  /**
    Whitespace from `j` to `w` followed by "page": the whitespace is the
    whole run at `j`, and no digit stands at `j`.
  */
  lemma SpacesThenPage(s: string, j: nat, w: nat)
    requires j <= w <= |s| && forall k :: j <= k < w ==> IsSpace(s[k])
    requires MatchesIgnoreCaseAt(s, w, "page")
    ensures j < |s| && !IsDigit(s[j])
    ensures w == SpaceRunEnd(s, j)
  {
    assert LowerChar(s[w + 0]) == LowerChar("page"[0]) == 'p';
  }

  /**
    At a given start the pattern has at most one reading, and it is the
    greedy one: group 1 is the whole run of digits. So backtracking into
    `\d+` or `\s*` never yields a different match.
  */
  lemma PageRegexGreedy(s: string, i: nat, j: nat)
    ensures PageRegexAt(s, i, j) <==> PageMatchAt(s, i) && j == DigitRunEnd(s, i)
  {
    if PageRegexAt(s, i, j) {
      var w :| j <= w <= |s| && (forall k :: j <= k < w ==> IsSpace(s[k])) && MatchesIgnoreCaseAt(s, w, "page");
      SpacesThenPage(s, j, w);
    }
    if PageMatchAt(s, i) && j == DigitRunEnd(s, i) {
      var w := SpaceRunEnd(s, j);
      assert j <= w <= |s| && (forall k :: j <= k < w ==> IsSpace(s[k])) && MatchesIgnoreCaseAt(s, w, "page");
    }
  }

  /** The leftmost start at or after `from` where the pattern matches. */
  function FirstPageMatch(s: string, from: nat): (r: Option<nat>)
    ensures r.Some? ==> from <= r.value < |s| && PageMatchAt(s, r.value)
    ensures r.Some? ==> forall k :: from <= k < r.value ==> !PageMatchAt(s, k)
    ensures r.None? ==> forall k :: from <= k < |s| ==> !PageMatchAt(s, k)
    decreases |s| - from
  {
    if from >= |s| then None
    else if PageMatchAt(s, from) then Some(from)
    else FirstPageMatch(s, from + 1)
  }

  /** `page_count`: group 1 of the leftmost match, or "0" when there is none. */
  function PageCount(s: string): (r: string)
    ensures r == "0" || (|r| > 0 && AllDigits(r))
  {
    match FirstPageMatch(s, 0)
    case Some(i) => s[i..DigitRunEnd(s, i)]
    case None => "0"
  }

  /** A match inside a run of digits implies one at the digit before. */
  lemma PageMatchExtends(s: string, i: nat)
    requires 0 < i && PageMatchAt(s, i) && IsDigit(s[i - 1])
    ensures PageMatchAt(s, i - 1)
    ensures DigitRunEnd(s, i - 1) == DigitRunEnd(s, i)
  {
  }

  /** Without a match the page count is "0". */
  lemma PageCountNoMatch(s: string)
    requires forall i :: 0 <= i < |s| ==> !PageMatchAt(s, i)
    ensures PageCount(s) == "0"
  {
  }

  /**
    With a match, the page count is the first maximal run of digits that is
    followed by optional whitespace and "page" in any case.
  */
  lemma PageCountFirstMatch(s: string, i: nat)
    requires PageMatchAt(s, i)
    requires forall k :: 0 <= k < i ==> !PageMatchAt(s, k)
    ensures PageCount(s) == s[i..DigitRunEnd(s, i)]
    ensures i == 0 || !IsDigit(s[i - 1])
  {
    assert FirstPageMatch(s, 0) == Some(i);
    if 0 < i && IsDigit(s[i - 1]) {
      PageMatchExtends(s, i);
      assert false;
    }
  }

  // ---------------------------------------------------------------------
  // Tranche: re.search(r"(Tranche|T)[\s-]?(\d+)", text, re.IGNORECASE)
  // ---------------------------------------------------------------------

  /** The class `[\s-]`. */
  predicate IsSeparator(c: char) {
    IsSpace(c) || c == '-'
  }

  /**
    Where group 2 starts when the word ends at `p`: the greedy `[\s-]?`
    takes a separator when digits follow it, and otherwise the digits must
    start at `p` itself.
  */
  function DigitsAfter(s: string, p: nat): (r: Option<nat>)
    ensures r.Some? ==> r.value < |s| && IsDigit(s[r.value])
  {
    if p + 1 < |s| && IsSeparator(s[p]) && IsDigit(s[p + 1]) then Some(p + 1)
    else if p < |s| && IsDigit(s[p]) then Some(p)
    else None
  }

  /**
    Where group 2 starts for a match at `i`, trying the alternative
    "Tranche" before "T", as the alternation does.
  */
  function TrancheAt(s: string, i: nat): (r: Option<nat>)
    ensures r.Some? ==> r.value < |s| && IsDigit(s[r.value])
  {
    if MatchesIgnoreCaseAt(s, i, "tranche") && DigitsAfter(s, i + 7).Some? then DigitsAfter(s, i + 7)
    else if MatchesIgnoreCaseAt(s, i, "t") then DigitsAfter(s, i + 1)
    else None
  }

  /** Group 2 may start at `d` when the word ends at `p`. */
  ghost predicate SeparatorGap(s: string, p: nat, d: nat) {
    d < |s| && IsDigit(s[d]) && (d == p || (d == p + 1 && IsSeparator(s[p])))
  }

  /** The pattern read declaratively: a match at `i` whose group 2 starts at `d`. */
  ghost predicate TrancheRegexAt(s: string, i: nat, d: nat) {
    || (MatchesIgnoreCaseAt(s, i, "tranche") && SeparatorGap(s, i + 7, d))
    || (MatchesIgnoreCaseAt(s, i, "t") && SeparatorGap(s, i + 1, d))
  }

  /** At each start the pattern has at most one reading, and `TrancheAt` finds it. */
  lemma TrancheRegexUnique(s: string, i: nat, d: nat)
    ensures TrancheRegexAt(s, i, d) <==> TrancheAt(s, i) == Some(d)
  {
    if MatchesIgnoreCaseAt(s, i, "tranche") {
      assert LowerChar(s[i + 1]) == LowerChar("tranche"[1]) == 'r';
      assert !IsSeparator(s[i + 1]) && !IsDigit(s[i + 1]);
    }
  }

  /** The leftmost start at or after `from` where the pattern matches. */
  function FirstTrancheMatch(s: string, from: nat): (r: Option<nat>)
    ensures r.Some? ==> from <= r.value < |s| && TrancheAt(s, r.value).Some?
    ensures r.Some? ==> forall k :: from <= k < r.value ==> TrancheAt(s, k).None?
    ensures r.None? ==> forall k :: from <= k < |s| ==> TrancheAt(s, k).None?
    decreases |s| - from
  {
    if from >= |s| then None
    else if TrancheAt(s, from).Some? then Some(from)
    else FirstTrancheMatch(s, from + 1)
  }

  /** `tranche`: "T" and group 2 of the leftmost match, or "Unknown". */
  function Tranche(s: string): (r: string)
    ensures r == "Unknown" || (|r| >= 2 && r[0] == 'T' && AllDigits(r[1..]))
  {
    match FirstTrancheMatch(s, 0)
    case Some(i) =>
      var d := TrancheAt(s, i).value;
      "T" + s[d..DigitRunEnd(s, d)]
    case None => "Unknown"
  }

  /** Without a match the tranche is "Unknown". */
  lemma TrancheNoMatch(s: string)
    requires forall i: nat, d: nat :: i < |s| ==> !TrancheRegexAt(s, i, d)
    ensures Tranche(s) == "Unknown"
  {
    match FirstTrancheMatch(s, 0)
    case None =>
    case Some(i) =>
      TrancheRegexUnique(s, i, TrancheAt(s, i).value);
      assert false;
  }

  /**
    With a match, the tranche is "T" followed by the whole run of digits
    after the first "Tranche" or "T" (in any case, optionally followed by
    one whitespace or hyphen).
  */
  lemma TrancheFirstMatch(s: string, i: nat, d: nat)
    requires i < |s| && TrancheRegexAt(s, i, d)
    requires forall k: nat, e: nat :: k < i ==> !TrancheRegexAt(s, k, e)
    ensures Tranche(s) == "T" + s[d..DigitRunEnd(s, d)]
  {
    TrancheRegexUnique(s, i, d);
    forall k | 0 <= k < i ensures TrancheAt(s, k).None? {
      if TrancheAt(s, k).Some? {
        TrancheRegexUnique(s, k, TrancheAt(s, k).value);
        assert false;
      }
    }
    assert FirstTrancheMatch(s, 0) == Some(i);
  }

  /** A lone "t" counts: in "at 3" the tranche is "T3". */
  lemma TrancheOfLoneT()
    ensures Tranche("at 3") == "T3"
  {
    var s := "at 3";
    assert TrancheAt(s, 0).None?;
    assert TrancheAt(s, 1) == Some(3);
    assert FirstTrancheMatch(s, 0) == Some(1);
    assert s[3..DigitRunEnd(s, 3)] == "3";
  }

  // ---------------------------------------------------------------------
  // Retailer: the first table entry with a keyword at word boundaries
  // ---------------------------------------------------------------------

  /** `\b` at position `i`: a word character on exactly one side. */
  predicate Boundary(t: string, i: nat) {
    (0 < i <= |t| && IsWordChar(t[i - 1])) != (i < |t| && IsWordChar(t[i]))
  }

  /** `\b` + `re.escape(kw)` + `\b` matches at `i`. */
  predicate WordAt(t: string, kw: string, i: nat) {
    i + |kw| <= |t| && t[i..i + |kw|] == kw && Boundary(t, i) && Boundary(t, i + |kw|)
  }

  /** `re.search` for the keyword pattern, trying the starts from `from` on. */
  function SearchWord(t: string, kw: string, from: nat): (found: bool)
    ensures found <==> exists i :: from <= i && WordAt(t, kw, i)
    decreases |t| - from
  {
    if from + |kw| > |t| then false
    else WordAt(t, kw, from) || SearchWord(t, kw, from + 1)
  }

  /** The keyword occurs in `t` as a whole word. */
  predicate ContainsWord(t: string, kw: string) {
    SearchWord(t, kw, 0)
  }

  /** Some keyword of the entry occurs in `t` as a whole word. */
  predicate EntryMatches(e: Config.Retailer, t: string) {
    exists j :: 0 <= j < |e.keywords| && ContainsWord(t, e.keywords[j])
  }

  /** Entry `i` matches and no earlier entry does. */
  ghost predicate IsFirstMatch(table: seq<Config.Retailer>, t: string, i: nat) {
    i < |table| && EntryMatches(table[i], t) && forall j :: 0 <= j < i ==> !EntryMatches(table[j], t)
  }

  /**
    The retailer the lookup settles on: the name of the first entry, in
    table order, that matches, or "Unknown" when none does.
  */
  function FirstRetailer(table: seq<Config.Retailer>, t: string): (r: string)
    ensures r == "Unknown" || exists i :: 0 <= i < |table| && EntryMatches(table[i], t) && r == table[i].name
  {
    if table == [] then "Unknown"
    else if EntryMatches(table[0], t) then table[0].name
    else
      assert forall i :: 1 <= i < |table| ==> table[i] == table[1..][i - 1];
      FirstRetailer(table[1..], t)
  }

  /** When entry `i` is the first to match, the lookup gives its name. */
  lemma {:induction false} FirstRetailerFirstMatch(table: seq<Config.Retailer>, t: string, i: nat)
    requires IsFirstMatch(table, t, i)
    ensures FirstRetailer(table, t) == table[i].name
    decreases i
  {
    if i > 0 {
      assert !EntryMatches(table[0], t);
      assert IsFirstMatch(table[1..], t, i - 1) by {
        assert forall j :: 0 <= j < i ==> table[1..][j] == table[j + 1];
      }
      FirstRetailerFirstMatch(table[1..], t, i - 1);
    }
  }

  /** When no entry matches, the lookup gives "Unknown". */
  lemma {:induction false} FirstRetailerNoMatch(table: seq<Config.Retailer>, t: string)
    requires forall i :: 0 <= i < |table| ==> !EntryMatches(table[i], t)
    ensures FirstRetailer(table, t) == "Unknown"
    decreases |table|
  {
    if table != [] {
      assert forall j :: 0 <= j < |table[1..]| ==> table[1..][j] == table[j + 1];
      FirstRetailerNoMatch(table[1..], t);
    }
  }

  /**
    The nested loops of bot.py lines 50-56 over `table`, searching the
    lowercased text `t`. After an entry's inner loop, the outer loop stops as
    soon as the result is no longer the sentinel "Unknown"; when no entry is
    called "Unknown" this is exactly the first match.
  */
  method FindRetailer(table: seq<Config.Retailer>, t: string) returns (retailer: string)
    ensures retailer == "Unknown" || exists i :: 0 <= i < |table| && EntryMatches(table[i], t) && retailer == table[i].name
    ensures Config.NamesKnown(table) ==> retailer == FirstRetailer(table, t)
  {
    retailer := "Unknown";
    var i := 0;
    while i < |table|
      invariant 0 <= i <= |table|
      invariant retailer == "Unknown"
      invariant forall j :: 0 <= j < i ==> !EntryMatches(table[j], t) || table[j].name == "Unknown"
    {
      var keywords := table[i].keywords;
      var k := 0;
      while k < |keywords|
        invariant 0 <= k <= |keywords|
        invariant retailer == "Unknown"
        invariant forall m :: 0 <= m < k ==> !ContainsWord(t, keywords[m])
      {
        if ContainsWord(t, keywords[k]) {
          retailer := table[i].name;
          break;
        }
        k := k + 1;
      }
      if retailer != "Unknown" {
        assert EntryMatches(table[i], t);
        if Config.NamesKnown(table) {
          assert IsFirstMatch(table, t, i);
          FirstRetailerFirstMatch(table, t, i);
        }
        return;
      }
      i := i + 1;
    }
    if Config.NamesKnown(table) {
      FirstRetailerNoMatch(table, t);
    }
  }

  /**
    `parse_message`: the retailer, tranche and page count of a message.
    The retailer is looked up in the lowercased text, the other two in the
    text as written.
  */
  method ParseMessage(text: string) returns (retailer: string, tranche: string, pageCount: string)
    ensures retailer == FirstRetailer(Config.Retailers(), Lower(text))
    ensures tranche == Tranche(text)
    ensures pageCount == PageCount(text)
  {
    pageCount := PageCount(text);
    tranche := Tranche(text);
    var textLower := Lower(text);
    Config.RetailersWellFormed();
    retailer := FindRetailer(Config.Retailers(), textLower);
  }

  // ---------------------------------------------------------------------
  // Properties of the lookup
  // ---------------------------------------------------------------------

  /** The retailer is always a name of the table or "Unknown". */
  lemma RetailerIsKeyOrUnknown(text: string)
    ensures var r := FirstRetailer(Config.Retailers(), Lower(text));
      r == "Unknown" || exists i :: 0 <= i < |Config.Retailers()| && Config.Retailers()[i].name == r
  {
  }

  /** Lowering keeps word characters word characters and others not. */
  lemma LowerKeepsWordChars(c: char)
    ensures IsWordChar(LowerChar(c)) == IsWordChar(c)
  {
  }

  /**
    Because keywords are lower case, searching the lowercased text is a
    case-insensitive search of the text as written, with the word
    boundaries of the text as written.
  */
  lemma KeywordCaseInsensitive(text: string, kw: string, i: nat)
    requires IsLowercase(kw)
    ensures WordAt(Lower(text), kw, i) <==>
      MatchesIgnoreCaseAt(text, i, kw) && Boundary(text, i) && Boundary(text, i + |kw|)
  {
    var t := Lower(text);
    forall k | 0 <= k < |text| ensures IsWordChar(t[k]) == IsWordChar(text[k]) {
      LowerKeepsWordChars(text[k]);
    }
    forall k | 0 <= k < |kw| ensures LowerChar(kw[k]) == kw[k] {
      assert kw[k] in kw;
    }
    if i + |kw| <= |text| {
      if t[i..i + |kw|] == kw {
        forall k | 0 <= k < |kw| ensures LowerChar(text[i + k]) == LowerChar(kw[k]) {
          assert t[i..i + |kw|][k] == t[i + k];
        }
      }
      if MatchesIgnoreCaseAt(text, i, kw) {
        assert forall k :: 0 <= k < |kw| ==> t[i..i + |kw|][k] == kw[k];
      }
    }
  }

  /** A keyword that starts with a letter never matches right after a letter or digit. */
  lemma EmbeddedKeywordNoMatch(t: string, kw: string, i: nat)
    requires 0 < i <= |t| && IsWordChar(t[i - 1])
    requires |kw| > 0 && IsWordChar(kw[0])
    ensures !WordAt(t, kw, i)
  {
  }

  /** "gap" does not match inside "singapore". */
  lemma GapNotInSingapore()
    ensures !ContainsWord("singapore", "gap")
  {
    var t := "singapore";
    forall i: nat | WordAt(t, "gap", i) ensures false {
    }
  }
}
