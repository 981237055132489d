/**
  The retailer tables of `config.py`.

  `RETAILERS` is a Python dict literal. A dict keeps its insertion order and
  the parser walks it in that order, so it is modelled as a sequence of
  entries. `RETAILER_INFO` is only ever looked up by key and is a map.
*/
module Config {
  import Ascii

  /** One `RETAILERS` entry: canonical name and the keywords that select it. */
  datatype Retailer = Retailer(name: string, keywords: seq<string>)

  /** Every keyword is free of upper-case letters. */
  ghost predicate KeywordsLowercase(table: seq<Retailer>) {
    forall i, j :: 0 <= i < |table| && 0 <= j < |table[i].keywords| ==>
      Ascii.IsLowercase(table[i].keywords[j])
  }

  /** Every entry has at least one keyword. */
  ghost predicate KeywordListsNonEmpty(table: seq<Retailer>) {
    forall i :: 0 <= i < |table| ==> |table[i].keywords| > 0
  }

  /** No two entries share a canonical name. */
  ghost predicate NamesDistinct(table: seq<Retailer>) {
    forall i, j :: 0 <= i < j < |table| ==> table[i].name != table[j].name
  }

  /** No name of `a` is a name of `b`. */
  ghost predicate NamesDisjoint(a: seq<Retailer>, b: seq<Retailer>) {
    forall i, j :: 0 <= i < |a| && 0 <= j < |b| ==> a[i].name != b[j].name
  }

  /** No canonical name is the parser's sentinel "Unknown". */
  ghost predicate NamesKnown(table: seq<Retailer>) {
    forall i :: 0 <= i < |table| ==> table[i].name != "Unknown"
  }

  /** No canonical name contains the `|` that separates the fields of a button payload. */
  ghost predicate NamesPipeFree(table: seq<Retailer>) {
    forall i :: 0 <= i < |table| ==> '|' !in table[i].name
  }

  /** Everything the rest of the model relies on about the table. */
  ghost predicate WellFormed(table: seq<Retailer>) {
    && KeywordsLowercase(table)
    && KeywordListsNonEmpty(table)
    && NamesDistinct(table)
    && NamesKnown(table)
    && NamesPipeFree(table)
  }

  /**
    `RETAILERS` in declaration order (config.py lines 6-54), written as
    eight consecutive groups of at most six entries so that the facts about
    each group stay small enough for the verifier to evaluate.
  */
  function Retailers(): (table: seq<Retailer>)
    ensures |table| == 47
  {
    Group1() + Group2() + Group3() + Group4() + Group5() + Group6() + Group7() + Group8()
  }

  /*
    Name distinctness of a literal is decided by the following predicates,
    which the verifier unfolds one index at a time; the lemmas after them
    restate them as the quantified predicates above.
  */

  /** No entry of `table` from index `i` on is called `name`. */
  predicate NameAbsentFrom(table: seq<Retailer>, i: nat, name: string)
    decreases |table| - i
  {
    i >= |table| || (table[i].name != name && NameAbsentFrom(table, i + 1, name))
  }

  /** No name of `a` from index `i` on occurs in `b`. */
  predicate NamesDisjointFrom(a: seq<Retailer>, b: seq<Retailer>, i: nat)
    decreases |a| - i
  {
    i >= |a| || (NameAbsentFrom(b, 0, a[i].name) && NamesDisjointFrom(a, b, i + 1))
  }

  /** The names of `table` from index `i` on are pairwise different. */
  predicate NamesDistinctFrom(table: seq<Retailer>, i: nat)
    decreases |table| - i
  {
    i >= |table| || (NameAbsentFrom(table, i + 1, table[i].name) && NamesDistinctFrom(table, i + 1))
  }

  lemma {:induction false} NameAbsentFromSound(table: seq<Retailer>, i: nat, name: string)
    requires NameAbsentFrom(table, i, name)
    ensures forall k :: i <= k < |table| ==> table[k].name != name
    decreases |table| - i
  {
    if i < |table| {
      NameAbsentFromSound(table, i + 1, name);
    }
  }

  lemma {:induction false} NamesDisjointFromSound(a: seq<Retailer>, b: seq<Retailer>, i: nat)
    requires NamesDisjointFrom(a, b, i)
    ensures forall k, j :: i <= k < |a| && 0 <= j < |b| ==> a[k].name != b[j].name
    decreases |a| - i
  {
    if i < |a| {
      NameAbsentFromSound(b, 0, a[i].name);
      NamesDisjointFromSound(a, b, i + 1);
    }
  }

  lemma {:induction false} NamesDistinctFromSound(table: seq<Retailer>, i: nat)
    requires NamesDistinctFrom(table, i)
    ensures forall k, j :: i <= k < j < |table| ==> table[k].name != table[j].name
    decreases |table| - i
  {
    if i < |table| {
      NameAbsentFromSound(table, i + 1, table[i].name);
      NamesDistinctFromSound(table, i + 1);
    }
  }

  /** Disjointness from `c` extends to a concatenation on the left. */
  lemma DisjointAppend(a: seq<Retailer>, b: seq<Retailer>, c: seq<Retailer>)
    requires NamesDisjoint(a, c) && NamesDisjoint(b, c)
    ensures NamesDisjoint(a + b, c)
  {
    forall i, j | 0 <= i < |a + b| && 0 <= j < |c| ensures (a + b)[i].name != c[j].name {
      if i < |a| { assert (a + b)[i] == a[i]; } else { assert (a + b)[i] == b[i - |a|]; }
    }
  }

  /** Two well-formed tables with disjoint names concatenate to a well-formed table. */
  lemma WellFormedAppend(a: seq<Retailer>, b: seq<Retailer>)
    requires WellFormed(a) && WellFormed(b) && NamesDisjoint(a, b)
    ensures WellFormed(a + b)
  {
    var t := a + b;
    forall i | 0 <= i < |t| ensures t[i] == if i < |a| then a[i] else b[i - |a|] {
    }
  }

  /**
    The table is well formed: keywords are lower case and non-empty, and
    names are distinct, never "Unknown" and free of `|`.
  */
  lemma RetailersWellFormed()
    ensures WellFormed(Retailers())
  {
    Prefix8();
  }

  lemma Prefix1()
    ensures WellFormed(Group1())
  {
    Group1WellFormed();
  }

  lemma Prefix2()
    ensures WellFormed(Group1() + Group2())
  {
    Prefix1();
    Group2WellFormed();
    Disjoint1x2();
    WellFormedAppend(Group1(), Group2());
  }

  lemma Prefix3()
    ensures WellFormed(Group1() + Group2() + Group3())
  {
    Prefix2();
    Group3WellFormed();
    Disjoint1x3();
    Disjoint2x3();
    DisjointAppend(Group1(), Group2(), Group3());
    WellFormedAppend(Group1() + Group2(), Group3());
  }

  lemma Prefix4()
    ensures WellFormed(Group1() + Group2() + Group3() + Group4())
  {
    Prefix3();
    Group4WellFormed();
    Disjoint1x4();
    Disjoint2x4();
    Disjoint3x4();
    DisjointAppend(Group1(), Group2(), Group4());
    DisjointAppend(Group1() + Group2(), Group3(), Group4());
    WellFormedAppend(Group1() + Group2() + Group3(), Group4());
  }

  lemma Prefix5()
    ensures WellFormed(Group1() + Group2() + Group3() + Group4() + Group5())
  {
    Prefix4();
    Group5WellFormed();
    Disjoint1x5();
    Disjoint2x5();
    Disjoint3x5();
    Disjoint4x5();
    DisjointAppend(Group1(), Group2(), Group5());
    DisjointAppend(Group1() + Group2(), Group3(), Group5());
    DisjointAppend(Group1() + Group2() + Group3(), Group4(), Group5());
    WellFormedAppend(Group1() + Group2() + Group3() + Group4(), Group5());
  }

  lemma Prefix6()
    ensures WellFormed(Group1() + Group2() + Group3() + Group4() + Group5() + Group6())
  {
    Prefix5();
    Group6WellFormed();
    Disjoint1x6();
    Disjoint2x6();
    Disjoint3x6();
    Disjoint4x6();
    Disjoint5x6();
    DisjointAppend(Group1(), Group2(), Group6());
    DisjointAppend(Group1() + Group2(), Group3(), Group6());
    DisjointAppend(Group1() + Group2() + Group3(), Group4(), Group6());
    DisjointAppend(Group1() + Group2() + Group3() + Group4(), Group5(), Group6());
    WellFormedAppend(Group1() + Group2() + Group3() + Group4() + Group5(), Group6());
  }

  lemma Prefix7()
    ensures WellFormed(Group1() + Group2() + Group3() + Group4() + Group5() + Group6() + Group7())
  {
    Prefix6();
    Group7WellFormed();
    Disjoint1x7();
    Disjoint2x7();
    Disjoint3x7();
    Disjoint4x7();
    Disjoint5x7();
    Disjoint6x7();
    DisjointAppend(Group1(), Group2(), Group7());
    DisjointAppend(Group1() + Group2(), Group3(), Group7());
    DisjointAppend(Group1() + Group2() + Group3(), Group4(), Group7());
    DisjointAppend(Group1() + Group2() + Group3() + Group4(), Group5(), Group7());
    DisjointAppend(Group1() + Group2() + Group3() + Group4() + Group5(), Group6(), Group7());
    WellFormedAppend(Group1() + Group2() + Group3() + Group4() + Group5() + Group6(), Group7());
  }

  lemma Prefix8()
    ensures WellFormed(Group1() + Group2() + Group3() + Group4() + Group5() + Group6() + Group7() + Group8())
  {
    Prefix7();
    Group8WellFormed();
    Disjoint1x8();
    Disjoint2x8();
    Disjoint3x8();
    Disjoint4x8();
    Disjoint5x8();
    Disjoint6x8();
    Disjoint7x8();
    DisjointAppend(Group1(), Group2(), Group8());
    DisjointAppend(Group1() + Group2(), Group3(), Group8());
    DisjointAppend(Group1() + Group2() + Group3(), Group4(), Group8());
    DisjointAppend(Group1() + Group2() + Group3() + Group4(), Group5(), Group8());
    DisjointAppend(Group1() + Group2() + Group3() + Group4() + Group5(), Group6(), Group8());
    DisjointAppend(Group1() + Group2() + Group3() + Group4() + Group5() + Group6(), Group7(), Group8());
    WellFormedAppend(Group1() + Group2() + Group3() + Group4() + Group5() + Group6() + Group7(), Group8());
  }

  /** config.py lines 7-12. */
  function Group1(): seq<Retailer> {
    [
      Retailer("Lenovo US", ["lenovo us", "lenovo usa"]),
      Retailer("Lenovo Intel", ["lenovo intel"]),
      Retailer("Lenovo LAS", ["lenovo las"]),
      Retailer("Lenovo Global", ["lenovo global"]),
      Retailer("Lenovo Qualcomm", ["lenovo qualcomm", "snapdragon"]),
      Retailer("J Crew", ["j crew", "jcrew"])
    ]
  }

  lemma Group1WellFormed()
    ensures WellFormed(Group1())
  {
    Group1Keywords();
    Group1Names();
    Group1Shape();
    NamesDistinctFromSound(Group1(), 0);
  }

  lemma Group1Keywords()
    ensures KeywordsLowercase(Group1())
  {
    Group1KeywordsLow();
    Group1KeywordsHigh();
  }

  lemma Group1KeywordsLow()
    ensures forall i, j :: 0 <= i < 3 && 0 <= j < |Group1()[i].keywords| ==> Ascii.IsLowercase(Group1()[i].keywords[j])
  {
  }

  lemma Group1KeywordsHigh()
    ensures forall i, j :: 3 <= i < |Group1()| && 0 <= j < |Group1()[i].keywords| ==> Ascii.IsLowercase(Group1()[i].keywords[j])
  {
  }

  lemma Group1Names()
    ensures NamesPipeFree(Group1())
  {
    Group1NamesLow();
    Group1NamesHigh();
  }

  lemma Group1NamesLow()
    ensures forall i :: 0 <= i < 3 ==> '|' !in Group1()[i].name
  {
  }

  lemma Group1NamesHigh()
    ensures forall i :: 3 <= i < |Group1()| ==> '|' !in Group1()[i].name
  {
  }

  lemma Group1Shape()
    ensures KeywordListsNonEmpty(Group1()) && NamesKnown(Group1())
    ensures NamesDistinctFrom(Group1(), 0)
  {
  }

  /** config.py lines 13-18. */
  function Group2(): seq<Retailer> {
    [
      Retailer("Madewell", ["madewell"]),
      Retailer("Dillards", ["dillards"]),
      Retailer("Staples", ["staples"]),
      Retailer("Unique Vintage", ["unique vintage"]),
      Retailer("Ann Taylor", ["ann taylor"]),
      Retailer("LOFT", ["loft"])
    ]
  }

  lemma Group2WellFormed()
    ensures WellFormed(Group2())
  {
    Group2Keywords();
    Group2Names();
    Group2Shape();
    NamesDistinctFromSound(Group2(), 0);
  }

  lemma Group2Keywords()
    ensures KeywordsLowercase(Group2())
  {
    Group2KeywordsLow();
    Group2KeywordsHigh();
  }

  lemma Group2KeywordsLow()
    ensures forall i, j :: 0 <= i < 3 && 0 <= j < |Group2()[i].keywords| ==> Ascii.IsLowercase(Group2()[i].keywords[j])
  {
  }

  lemma Group2KeywordsHigh()
    ensures forall i, j :: 3 <= i < |Group2()| && 0 <= j < |Group2()[i].keywords| ==> Ascii.IsLowercase(Group2()[i].keywords[j])
  {
  }

  lemma Group2Names()
    ensures NamesPipeFree(Group2())
  {
    Group2NamesLow();
    Group2NamesHigh();
  }

  lemma Group2NamesLow()
    ensures forall i :: 0 <= i < 3 ==> '|' !in Group2()[i].name
  {
  }

  lemma Group2NamesHigh()
    ensures forall i :: 3 <= i < |Group2()| ==> '|' !in Group2()[i].name
  {
  }

  lemma Group2Shape()
    ensures KeywordListsNonEmpty(Group2()) && NamesKnown(Group2())
    ensures NamesDistinctFrom(Group2(), 0)
  {
  }

  /** config.py lines 19-24. */
  function Group3(): seq<Retailer> {
    [
      Retailer("GAP US", ["gap us", "gap usa"]),
      Retailer("Old Navy", ["old navy"]),
      Retailer("Banana Republic", ["banana republic", "br factory"]),
      Retailer("Athleta", ["athleta us"]),
      Retailer("Athleta Canada", ["athleta canada"]),
      Retailer("Gap Factory", ["gap factory"])
    ]
  }

  lemma Group3WellFormed()
    ensures WellFormed(Group3())
  {
    Group3Keywords();
    Group3Names();
    Group3Shape();
    NamesDistinctFromSound(Group3(), 0);
  }

  lemma Group3Keywords()
    ensures KeywordsLowercase(Group3())
  {
    Group3KeywordsLow();
    Group3KeywordsHigh();
  }

  lemma Group3KeywordsLow()
    ensures forall i, j :: 0 <= i < 3 && 0 <= j < |Group3()[i].keywords| ==> Ascii.IsLowercase(Group3()[i].keywords[j])
  {
  }

  lemma Group3KeywordsHigh()
    ensures forall i, j :: 3 <= i < |Group3()| && 0 <= j < |Group3()[i].keywords| ==> Ascii.IsLowercase(Group3()[i].keywords[j])
  {
  }

  lemma Group3Names()
    ensures NamesPipeFree(Group3())
  {
    Group3NamesLow();
    Group3NamesHigh();
  }

  lemma Group3NamesLow()
    ensures forall i :: 0 <= i < 3 ==> '|' !in Group3()[i].name
  {
  }

  lemma Group3NamesHigh()
    ensures forall i :: 3 <= i < |Group3()| ==> '|' !in Group3()[i].name
  {
  }

  lemma Group3Shape()
    ensures KeywordListsNonEmpty(Group3()) && NamesKnown(Group3())
    ensures NamesDistinctFrom(Group3(), 0)
  {
  }

  /** config.py lines 25-30. */
  function Group4(): seq<Retailer> {
    [
      Retailer("Gap Canada", ["gap can", "gap canada"]),
      Retailer("Joe Fresh", ["joe fresh"]),
      Retailer("Simply Be", ["simplybe", "simply be"]),
      Retailer("JD Williams", ["jd williams"]),
      Retailer("Jacamo", ["jacamo"]),
      Retailer("Lululemon", ["lululemon", "lulu"])
    ]
  }

  lemma Group4WellFormed()
    ensures WellFormed(Group4())
  {
    Group4Keywords();
    Group4Names();
    Group4Shape();
    NamesDistinctFromSound(Group4(), 0);
  }

  lemma Group4Keywords()
    ensures KeywordsLowercase(Group4())
  {
    Group4KeywordsLow();
    Group4KeywordsHigh();
  }

  lemma Group4KeywordsLow()
    ensures forall i, j :: 0 <= i < 3 && 0 <= j < |Group4()[i].keywords| ==> Ascii.IsLowercase(Group4()[i].keywords[j])
  {
  }

  lemma Group4KeywordsHigh()
    ensures forall i, j :: 3 <= i < |Group4()| && 0 <= j < |Group4()[i].keywords| ==> Ascii.IsLowercase(Group4()[i].keywords[j])
  {
  }

  lemma Group4Names()
    ensures NamesPipeFree(Group4())
  {
    Group4NamesLow();
    Group4NamesHigh();
  }

  lemma Group4NamesLow()
    ensures forall i :: 0 <= i < 3 ==> '|' !in Group4()[i].name
  {
  }

  lemma Group4NamesHigh()
    ensures forall i :: 3 <= i < |Group4()| ==> '|' !in Group4()[i].name
  {
  }

  lemma Group4Shape()
    ensures KeywordListsNonEmpty(Group4()) && NamesKnown(Group4())
    ensures NamesDistinctFrom(Group4(), 0)
  {
  }

  /** config.py lines 31-36. */
  function Group5(): seq<Retailer> {
    [
      Retailer("Foot Locker", ["foot locker"]),
      Retailer("Sole Supplier", ["sole supplier"]),
      Retailer("Janie and Jack", ["janie and jack"]),
      Retailer("NAPA Online", ["napa", "genuine parts"]),
      Retailer("Pet Supermarket", ["pet supermarket"]),
      Retailer("EVO", ["evo"])
    ]
  }

  lemma Group5WellFormed()
    ensures WellFormed(Group5())
  {
    Group5Keywords();
    Group5Names();
    Group5Shape();
    NamesDistinctFromSound(Group5(), 0);
  }

  lemma Group5Keywords()
    ensures KeywordsLowercase(Group5())
  {
    Group5KeywordsLow();
    Group5KeywordsHigh();
  }

  lemma Group5KeywordsLow()
    ensures forall i, j :: 0 <= i < 3 && 0 <= j < |Group5()[i].keywords| ==> Ascii.IsLowercase(Group5()[i].keywords[j])
  {
  }

  lemma Group5KeywordsHigh()
    ensures forall i, j :: 3 <= i < |Group5()| && 0 <= j < |Group5()[i].keywords| ==> Ascii.IsLowercase(Group5()[i].keywords[j])
  {
  }

  lemma Group5Names()
    ensures NamesPipeFree(Group5())
  {
    Group5NamesLow();
    Group5NamesHigh();
  }

  lemma Group5NamesLow()
    ensures forall i :: 0 <= i < 3 ==> '|' !in Group5()[i].name
  {
  }

  lemma Group5NamesHigh()
    ensures forall i :: 3 <= i < |Group5()| ==> '|' !in Group5()[i].name
  {
  }

  lemma Group5Shape()
    ensures KeywordListsNonEmpty(Group5()) && NamesKnown(Group5())
    ensures NamesDistinctFrom(Group5(), 0)
  {
  }

  /** config.py lines 37-42. */
  function Group6(): seq<Retailer> {
    [
      Retailer("Brooks Brothers", ["brooks brothers"]),
      Retailer("Revzilla", ["revzilla"]),
      Retailer("Croma", ["croma"]),
      Retailer("Halloween Costumes", ["halloween costumes"]),
      Retailer("Ambrose Wilson", ["ambrose wilson"]),
      Retailer("Fashion World", ["fashion world"])
    ]
  }

  lemma Group6WellFormed()
    ensures WellFormed(Group6())
  {
    Group6Keywords();
    Group6Names();
    Group6Shape();
    NamesDistinctFromSound(Group6(), 0);
  }

  lemma Group6Keywords()
    ensures KeywordsLowercase(Group6())
  {
    Group6KeywordsLow();
    Group6KeywordsHigh();
  }

  lemma Group6KeywordsLow()
    ensures forall i, j :: 0 <= i < 3 && 0 <= j < |Group6()[i].keywords| ==> Ascii.IsLowercase(Group6()[i].keywords[j])
  {
  }

  lemma Group6KeywordsHigh()
    ensures forall i, j :: 3 <= i < |Group6()| && 0 <= j < |Group6()[i].keywords| ==> Ascii.IsLowercase(Group6()[i].keywords[j])
  {
  }

  lemma Group6Names()
    ensures NamesPipeFree(Group6())
  {
    Group6NamesLow();
    Group6NamesHigh();
  }

  lemma Group6NamesLow()
    ensures forall i :: 0 <= i < 3 ==> '|' !in Group6()[i].name
  {
  }

  lemma Group6NamesHigh()
    ensures forall i :: 3 <= i < |Group6()| ==> '|' !in Group6()[i].name
  {
  }

  lemma Group6Shape()
    ensures KeywordListsNonEmpty(Group6()) && NamesKnown(Group6())
    ensures NamesDistinctFrom(Group6(), 0)
  {
  }

  /** config.py lines 43-48. */
  function Group7(): seq<Retailer> {
    [
      Retailer("Pacsun", ["pacsun"]),
      Retailer("Quiksilver", ["quick silver", "quiksilver"]),
      Retailer("Billabong", ["billabong"]),
      Retailer("Reebok", ["reebok"]),
      Retailer("Vince Camuto", ["vince camuto"]),
      Retailer("David Jones", ["david jones"])
    ]
  }

  lemma Group7WellFormed()
    ensures WellFormed(Group7())
  {
    Group7Keywords();
    Group7Names();
    Group7Shape();
    NamesDistinctFromSound(Group7(), 0);
  }

  lemma Group7Keywords()
    ensures KeywordsLowercase(Group7())
  {
    Group7KeywordsLow();
    Group7KeywordsHigh();
  }

  lemma Group7KeywordsLow()
    ensures forall i, j :: 0 <= i < 3 && 0 <= j < |Group7()[i].keywords| ==> Ascii.IsLowercase(Group7()[i].keywords[j])
  {
  }

  lemma Group7KeywordsHigh()
    ensures forall i, j :: 3 <= i < |Group7()| && 0 <= j < |Group7()[i].keywords| ==> Ascii.IsLowercase(Group7()[i].keywords[j])
  {
  }

  lemma Group7Names()
    ensures NamesPipeFree(Group7())
  {
    Group7NamesLow();
    Group7NamesHigh();
  }

  lemma Group7NamesLow()
    ensures forall i :: 0 <= i < 3 ==> '|' !in Group7()[i].name
  {
  }

  lemma Group7NamesHigh()
    ensures forall i :: 3 <= i < |Group7()| ==> '|' !in Group7()[i].name
  {
  }

  lemma Group7Shape()
    ensures KeywordListsNonEmpty(Group7()) && NamesKnown(Group7())
    ensures NamesDistinctFrom(Group7(), 0)
  {
  }

  /** config.py lines 49-53. */
  function Group8(): seq<Retailer> {
    [
      Retailer("SnapAV", ["snapav"]),
      Retailer("DSG", ["dsg", "dick's sporting goods"]),
      Retailer("Rainbow Shops", ["rainbow", "rainbowshops"]),
      Retailer("Alex & Ani", ["alex & ani", "alex and ani"]),
      Retailer("Roots", ["roots"])
    ]
  }

  lemma Group8WellFormed()
    ensures WellFormed(Group8())
  {
    Group8Keywords();
    Group8Names();
    Group8Shape();
    NamesDistinctFromSound(Group8(), 0);
  }

  lemma Group8Keywords()
    ensures KeywordsLowercase(Group8())
  {
    Group8KeywordsLow();
    Group8KeywordsHigh();
  }

  lemma Group8KeywordsLow()
    ensures forall i, j :: 0 <= i < 3 && 0 <= j < |Group8()[i].keywords| ==> Ascii.IsLowercase(Group8()[i].keywords[j])
  {
  }

  lemma Group8KeywordsHigh()
    ensures forall i, j :: 3 <= i < |Group8()| && 0 <= j < |Group8()[i].keywords| ==> Ascii.IsLowercase(Group8()[i].keywords[j])
  {
  }

  lemma Group8Names()
    ensures NamesPipeFree(Group8())
  {
    Group8NamesLow();
    Group8NamesHigh();
  }

  lemma Group8NamesLow()
    ensures forall i :: 0 <= i < 3 ==> '|' !in Group8()[i].name
  {
  }

  lemma Group8NamesHigh()
    ensures forall i :: 3 <= i < |Group8()| ==> '|' !in Group8()[i].name
  {
  }

  lemma Group8Shape()
    ensures KeywordListsNonEmpty(Group8()) && NamesKnown(Group8())
    ensures NamesDistinctFrom(Group8(), 0)
  {
  }

  lemma Disjoint1x2()
    ensures NamesDisjoint(Group1(), Group2())
  {
    assert NamesDisjointFrom(Group1(), Group2(), 0);
    NamesDisjointFromSound(Group1(), Group2(), 0);
  }

  lemma Disjoint1x3()
    ensures NamesDisjoint(Group1(), Group3())
  {
    assert NamesDisjointFrom(Group1(), Group3(), 0);
    NamesDisjointFromSound(Group1(), Group3(), 0);
  }

  lemma Disjoint1x4()
    ensures NamesDisjoint(Group1(), Group4())
  {
    assert NamesDisjointFrom(Group1(), Group4(), 0);
    NamesDisjointFromSound(Group1(), Group4(), 0);
  }

  lemma Disjoint1x5()
    ensures NamesDisjoint(Group1(), Group5())
  {
    assert NamesDisjointFrom(Group1(), Group5(), 0);
    NamesDisjointFromSound(Group1(), Group5(), 0);
  }

  lemma Disjoint1x6()
    ensures NamesDisjoint(Group1(), Group6())
  {
    assert NamesDisjointFrom(Group1(), Group6(), 0);
    NamesDisjointFromSound(Group1(), Group6(), 0);
  }

  lemma Disjoint1x7()
    ensures NamesDisjoint(Group1(), Group7())
  {
    assert NamesDisjointFrom(Group1(), Group7(), 0);
    NamesDisjointFromSound(Group1(), Group7(), 0);
  }

  lemma Disjoint1x8()
    ensures NamesDisjoint(Group1(), Group8())
  {
    assert NamesDisjointFrom(Group1(), Group8(), 0);
    NamesDisjointFromSound(Group1(), Group8(), 0);
  }

  lemma Disjoint2x3()
    ensures NamesDisjoint(Group2(), Group3())
  {
    assert NamesDisjointFrom(Group2(), Group3(), 0);
    NamesDisjointFromSound(Group2(), Group3(), 0);
  }

  lemma Disjoint2x4()
    ensures NamesDisjoint(Group2(), Group4())
  {
    assert NamesDisjointFrom(Group2(), Group4(), 0);
    NamesDisjointFromSound(Group2(), Group4(), 0);
  }

  lemma Disjoint2x5()
    ensures NamesDisjoint(Group2(), Group5())
  {
    assert NamesDisjointFrom(Group2(), Group5(), 0);
    NamesDisjointFromSound(Group2(), Group5(), 0);
  }

  lemma Disjoint2x6()
    ensures NamesDisjoint(Group2(), Group6())
  {
    assert NamesDisjointFrom(Group2(), Group6(), 0);
    NamesDisjointFromSound(Group2(), Group6(), 0);
  }

  lemma Disjoint2x7()
    ensures NamesDisjoint(Group2(), Group7())
  {
    assert NamesDisjointFrom(Group2(), Group7(), 0);
    NamesDisjointFromSound(Group2(), Group7(), 0);
  }

  lemma Disjoint2x8()
    ensures NamesDisjoint(Group2(), Group8())
  {
    assert NamesDisjointFrom(Group2(), Group8(), 0);
    NamesDisjointFromSound(Group2(), Group8(), 0);
  }

  lemma Disjoint3x4()
    ensures NamesDisjoint(Group3(), Group4())
  {
    assert NamesDisjointFrom(Group3(), Group4(), 0);
    NamesDisjointFromSound(Group3(), Group4(), 0);
  }

  lemma Disjoint3x5()
    ensures NamesDisjoint(Group3(), Group5())
  {
    assert NamesDisjointFrom(Group3(), Group5(), 0);
    NamesDisjointFromSound(Group3(), Group5(), 0);
  }

  lemma Disjoint3x6()
    ensures NamesDisjoint(Group3(), Group6())
  {
    assert NamesDisjointFrom(Group3(), Group6(), 0);
    NamesDisjointFromSound(Group3(), Group6(), 0);
  }

  lemma Disjoint3x7()
    ensures NamesDisjoint(Group3(), Group7())
  {
    assert NamesDisjointFrom(Group3(), Group7(), 0);
    NamesDisjointFromSound(Group3(), Group7(), 0);
  }

  lemma Disjoint3x8()
    ensures NamesDisjoint(Group3(), Group8())
  {
    assert NamesDisjointFrom(Group3(), Group8(), 0);
    NamesDisjointFromSound(Group3(), Group8(), 0);
  }

  lemma Disjoint4x5()
    ensures NamesDisjoint(Group4(), Group5())
  {
    assert NamesDisjointFrom(Group4(), Group5(), 0);
    NamesDisjointFromSound(Group4(), Group5(), 0);
  }

  lemma Disjoint4x6()
    ensures NamesDisjoint(Group4(), Group6())
  {
    assert NamesDisjointFrom(Group4(), Group6(), 0);
    NamesDisjointFromSound(Group4(), Group6(), 0);
  }

  lemma Disjoint4x7()
    ensures NamesDisjoint(Group4(), Group7())
  {
    assert NamesDisjointFrom(Group4(), Group7(), 0);
    NamesDisjointFromSound(Group4(), Group7(), 0);
  }

  lemma Disjoint4x8()
    ensures NamesDisjoint(Group4(), Group8())
  {
    assert NamesDisjointFrom(Group4(), Group8(), 0);
    NamesDisjointFromSound(Group4(), Group8(), 0);
  }

  lemma Disjoint5x6()
    ensures NamesDisjoint(Group5(), Group6())
  {
    assert NamesDisjointFrom(Group5(), Group6(), 0);
    NamesDisjointFromSound(Group5(), Group6(), 0);
  }

  lemma Disjoint5x7()
    ensures NamesDisjoint(Group5(), Group7())
  {
    assert NamesDisjointFrom(Group5(), Group7(), 0);
    NamesDisjointFromSound(Group5(), Group7(), 0);
  }

  lemma Disjoint5x8()
    ensures NamesDisjoint(Group5(), Group8())
  {
    assert NamesDisjointFrom(Group5(), Group8(), 0);
    NamesDisjointFromSound(Group5(), Group8(), 0);
  }

  lemma Disjoint6x7()
    ensures NamesDisjoint(Group6(), Group7())
  {
    assert NamesDisjointFrom(Group6(), Group7(), 0);
    NamesDisjointFromSound(Group6(), Group7(), 0);
  }

  lemma Disjoint6x8()
    ensures NamesDisjoint(Group6(), Group8())
  {
    assert NamesDisjointFrom(Group6(), Group8(), 0);
    NamesDisjointFromSound(Group6(), Group8(), 0);
  }

  lemma Disjoint7x8()
    ensures NamesDisjoint(Group7(), Group8())
  {
    assert NamesDisjointFrom(Group7(), Group8(), 0);
    NamesDisjointFromSound(Group7(), Group8(), 0);
  }

  /** `RETAILER_INFO` (config.py lines 57-63): dashboard metadata by canonical name. */
  function RetailerInfo(): (info: map<string, string>)
    ensures forall n :: n in info ==> exists i :: 0 <= i < |Retailers()| && Retailers()[i].name == n
  {
    var table := Retailers();
    assert table[3].name == "Lenovo Global" && table[6].name == "Madewell" && table[7].name == "Dillards";
    assert table[18].name == "Gap Canada" && table[23].name == "Lululemon" && table[36].name == "Pacsun";
    map[
      "Madewell" := "Weekly/Biweekly",
      "Dillards" := "Weekly/Biweekly",
      "Pacsun" := "Biweekly/Monthly",
      "Lululemon" := "Biweekly/Monthly",
      "Gap Canada" := "Monthly (Includes ON, GAP, BR, Athleta)",
      "Lenovo Global" := "21 Regions"
    ]
  }
}
