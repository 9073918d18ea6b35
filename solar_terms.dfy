/**
 * The two solar terms of each Gregorian month: the sectional term (jieqi),
 * which falls on day 3 to 9, and the principal term (zhongqi), which falls
 * on day 18 to 24. Both are read from four-year blocks of a table; a row of
 * block starts picks the block for a year, and a few years are corrected by
 * hand.
 */
module SolarTerms {
  import opened CalendarTables
  import opened Wrappers

  /** Years outside this range have no table entry; their term days are 0. */
  predicate TermYear(y: int) { 1901 <= y <= 2100 }

  /** The year counted from 1900, as the term tables index it: 1 for 1901. */
  function RelativeYear(y: int): int { y - BaseYear + 1 }

  /**
   * Entry `j` of `row`. The recursive step keeps a proof about a symbolic
   * position from reading a known row entry by entry; on a known position
   * it evaluates.
   */
  function Entry<T>(row: seq<T>, j: int, hops: nat): T
    requires 0 <= j < |row|
    decreases hops, j
  {
    if hops == 0 then row[j] else Entry(row, j, hops - 1)
  }

  /*
   * The rows of the four tables, each behind one recursive step: a proof
   * about an arbitrary month then never loads a whole table, while a known
   * month still evaluates to its row (`SectionalStartsIs` and the others).
   */

  function SectionalStartsAfter(m0: int, hops: nat): seq<int>
    requires 0 <= m0 < 12
    decreases hops, m0
  {
    if hops == 0 then SectionalTermYear[m0] else SectionalStartsAfter(m0, hops - 1)
  }

  function SectionalDaysAfter(m0: int, hops: nat): seq<SectionalDay>
    requires 0 <= m0 < 12
    decreases hops, m0
  {
    if hops == 0 then SectionalTermMap[m0] else SectionalDaysAfter(m0, hops - 1)
  }

  function PrincipalStartsAfter(m0: int, hops: nat): seq<int>
    requires 0 <= m0 < 12
    decreases hops, m0
  {
    if hops == 0 then PrincipleTermYear[m0] else PrincipalStartsAfter(m0, hops - 1)
  }

  function PrincipalDaysAfter(m0: int, hops: nat): seq<PrincipalDay>
    requires 0 <= m0 < 12
    decreases hops, m0
  {
    if hops == 0 then PrincipleTermMap[m0] else PrincipalDaysAfter(m0, hops - 1)
  }

  lemma {:induction false} RowsAfterAre(m0: int, hops: nat)
    requires 0 <= m0 < 12
    ensures SectionalStartsAfter(m0, hops) == SectionalTermYear[m0]
    ensures SectionalDaysAfter(m0, hops) == SectionalTermMap[m0]
    ensures PrincipalStartsAfter(m0, hops) == PrincipleTermYear[m0]
    ensures PrincipalDaysAfter(m0, hops) == PrincipleTermMap[m0]
    decreases hops
  {
    if hops > 0 {
      RowsAfterAre(m0, hops - 1);
    }
  }

  /** Block starts of the sectional terms of 0-based month `m0`. */
  function SectionalStarts(m0: int): seq<int>
    requires 0 <= m0 < 12
  {
    SectionalStartsAfter(m0, 1)
  }

  /** Term days of the sectional terms of 0-based month `m0`, four per block. */
  function SectionalDays(m0: int): seq<SectionalDay>
    requires 0 <= m0 < 12
  {
    SectionalDaysAfter(m0, 1)
  }

  /** Block starts of the principal terms of 0-based month `m0`. */
  function PrincipalStarts(m0: int): seq<int>
    requires 0 <= m0 < 12
  {
    PrincipalStartsAfter(m0, 1)
  }

  /** Term days of the principal terms of 0-based month `m0`, four per block. */
  function PrincipalDays(m0: int): seq<PrincipalDay>
    requires 0 <= m0 < 12
  {
    PrincipalDaysAfter(m0, 1)
  }

  /**
   * The first position from `i` on whose block start lies after `ry`: the
   * block that year `ry` belongs to.
   */
  function Bracket(row: seq<int>, ry: int, i: nat): (r: nat)
    requires i < |row| && ry < row[|row| - 1]
    ensures i <= r < |row| && ry < row[r]
    ensures forall k :: i <= k < r ==> row[k] <= ry
    decreases |row| - i, ry
  {
    if ry < row[i] then i else Bracket(row, ry, i + 1)
  }

  /** The block is the only position past every earlier start and before its own. */
  lemma {:induction false} BracketUnique(row: seq<int>, ry: int, i: nat, r: nat)
    requires i <= r < |row| && ry < row[|row| - 1]
    requires ry < row[r]
    requires forall k :: i <= k < r ==> row[k] <= ry
    ensures Bracket(row, ry, i) == r
    decreases r - i
  {
    if i < r {
      assert row[i] <= ry;
      BracketUnique(row, ry, i + 1, r);
    }
  }

  /** A start beyond every year of the range bounds the block from above. */
  lemma BracketBelow(row: seq<int>, ry: int, k: nat)
    requires k < |row| && ry < row[k] && ry < row[|row| - 1]
    ensures Bracket(row, ry, 0) <= k
    ensures Bracket(row, ry, 0) == k && k > 0 ==> row[k - 1] <= ry
  {
  }

  /** How many block starts an in-range year can pass in sectional row `m0`. */
  function SectionalBlocks(m0: int): nat
  {
    if m0 <= 1 then 6 else if m0 == 5 || m0 == 7 then 8 else 7
  }

  /** How many block starts an in-range year can pass in principal row `m0`. */
  function PrincipalBlocks(m0: int): nat
  {
    if m0 <= 1 then 6 else 7
  }

  /**
   * The shape the sectional lookup relies on: the row's first start past 2100
   * ends the search, and the last block only holds 2100 itself when its
   * columns run short.
   */
  lemma SectionalRowShape(m0: int)
    requires 0 <= m0 < 12
    ensures SectionalBlocks(m0) < |SectionalStarts(m0)|
    ensures SectionalStarts(m0)[SectionalBlocks(m0)] > 200
    ensures SectionalStarts(m0)[|SectionalStarts(m0)| - 1] > 200
    ensures 4 * SectionalBlocks(m0) < |SectionalDays(m0)|
    ensures 4 * SectionalBlocks(m0) + 3 < |SectionalDays(m0)|
            || SectionalStarts(m0)[SectionalBlocks(m0) - 1] == 200
  {
    RowsAfterAre(m0, 1);
    if m0 == 0 {} else if m0 == 1 {} else if m0 == 2 {} else if m0 == 3 {}
    else if m0 == 4 {} else if m0 == 5 {} else if m0 == 6 {} else if m0 == 7 {}
    else if m0 == 8 {} else if m0 == 9 {} else if m0 == 10 {} else {}
  }

  /** The same shape for the principal rows. */
  lemma PrincipalRowShape(m0: int)
    requires 0 <= m0 < 12
    ensures PrincipalBlocks(m0) < |PrincipalStarts(m0)|
    ensures PrincipalStarts(m0)[PrincipalBlocks(m0)] > 200
    ensures PrincipalStarts(m0)[|PrincipalStarts(m0)| - 1] > 200
    ensures 4 * PrincipalBlocks(m0) < |PrincipalDays(m0)|
    ensures 4 * PrincipalBlocks(m0) + 3 < |PrincipalDays(m0)|
            || PrincipalStarts(m0)[PrincipalBlocks(m0) - 1] == 200
  {
    RowsAfterAre(m0, 1);
    if m0 == 0 {} else if m0 == 1 {} else if m0 == 2 {} else if m0 == 3 {}
    else if m0 == 4 {} else if m0 == 5 {} else if m0 == 6 {} else if m0 == 7 {}
    else if m0 == 8 {} else if m0 == 9 {} else if m0 == 10 {} else {}
  }

  /** The column an in-range year reads lies inside the block table. */
  lemma ColumnFits(starts: seq<int>, days: nat, blocks: nat, ry: int)
    requires 1 <= ry <= 200
    requires 0 < blocks < |starts| && starts[blocks] > 200 && starts[|starts| - 1] > 200
    requires 4 * blocks < days
    requires 4 * blocks + 3 < days || starts[blocks - 1] == 200
    ensures 4 * Bracket(starts, ry, 0) + ry % 4 < days
  {
    BracketBelow(starts, ry, blocks);
  }

  /**
   * The day of the sectional term of 0-based Gregorian month `m0` in year
   * `y`; 0 outside 1901..2100, None where the month has no table row.
   */
  function SectionalTermDay(y: int, m0: int): (r: Option<int>)
    ensures !TermYear(y) ==> r == Some(0)
    ensures TermYear(y) ==> (r.Some? <==> 0 <= m0 < 12)
    ensures TermYear(y) && r.Some? ==> 3 <= r.value <= 9
  {
    if !TermYear(y) then Some(0)
    else if !(0 <= m0 < 12) then None
    else
      var ry := RelativeYear(y);
      SectionalRowShape(m0);
      var row := SectionalStarts(m0);
      ColumnFits(row, |SectionalDays(m0)|, SectionalBlocks(m0), ry);
      var term := Entry(SectionalDays(m0), 4 * Bracket(row, ry, 0) + ry % 4, 1);
      if (ry == 121 || ry == 132) && m0 == 3 then Some(5)
      else if ry == 194 && m0 == 5 then Some(6)
      else Some(term)
  }

  /**
   * The day of the principal term of 0-based Gregorian month `m0` in year
   * `y`; 0 outside 1901..2100, None where the month has no table row.
   */
  function PrincipalTermDay(y: int, m0: int): (r: Option<int>)
    ensures !TermYear(y) ==> r == Some(0)
    ensures TermYear(y) ==> (r.Some? <==> 0 <= m0 < 12)
    ensures TermYear(y) && r.Some? ==> 18 <= r.value <= 24
  {
    if !TermYear(y) then Some(0)
    else if !(0 <= m0 < 12) then None
    else
      var ry := RelativeYear(y);
      PrincipalRowShape(m0);
      var row := PrincipalStarts(m0);
      ColumnFits(row, |PrincipalDays(m0)|, PrincipalBlocks(m0), ry);
      var term := Entry(PrincipalDays(m0), 4 * Bracket(row, ry, 0) + ry % 4, 1);
      if ry == 171 && m0 == 2 then Some(21)
      else if ry == 181 && m0 == 4 then Some(21)
      else Some(term)
  }

  /**
   * The search loop of both term lookups: the first position whose block
   * start lies after `ry`. `bound` is a position whose start does.
   */
  method FindBlock(row: seq<int>, ry: int, bound: nat) returns (index: nat)
    requires bound < |row| && ry < row[bound] && ry < row[|row| - 1]
    ensures index == Bracket(row, ry, 0)
  {
    index := 0;
    while ry >= row[index]
      invariant index <= bound
      invariant forall k :: 0 <= k < index ==> row[k] <= ry
      decreases bound - index
    {
      index := index + 1;
    }
    BracketUnique(row, ry, 0, index);
  }

  /**
   * The sectional lookup of an in-range year and month: the search has a
   * bound, the table entry it reads exists, and the term day is that entry
   * unless the year is corrected by hand.
   */
  lemma SectionalFound(y: int, m0: int)
    requires TermYear(y) && 0 <= m0 < 12
    ensures SectionalBlocks(m0) < |SectionalStarts(m0)|
    ensures RelativeYear(y) < SectionalStarts(m0)[SectionalBlocks(m0)]
    ensures RelativeYear(y) < SectionalStarts(m0)[|SectionalStarts(m0)| - 1]
    ensures 4 * Bracket(SectionalStarts(m0), RelativeYear(y), 0) + RelativeYear(y) % 4 < |SectionalDays(m0)|
    ensures var ry := RelativeYear(y);
            SectionalTermDay(y, m0)
            == Some(if (ry == 121 || ry == 132) && m0 == 3 then 5
                    else if ry == 194 && m0 == 5 then 6
                    else Entry(SectionalDays(m0), 4 * Bracket(SectionalStarts(m0), ry, 0) + ry % 4, 1))
  {
    SectionalRowShape(m0);
    ColumnFits(SectionalStarts(m0), |SectionalDays(m0)|, SectionalBlocks(m0), RelativeYear(y));
  }

  /** The same for the principal lookup. */
  lemma PrincipalFound(y: int, m0: int)
    requires TermYear(y) && 0 <= m0 < 12
    ensures PrincipalBlocks(m0) < |PrincipalStarts(m0)|
    ensures RelativeYear(y) < PrincipalStarts(m0)[PrincipalBlocks(m0)]
    ensures RelativeYear(y) < PrincipalStarts(m0)[|PrincipalStarts(m0)| - 1]
    ensures 4 * Bracket(PrincipalStarts(m0), RelativeYear(y), 0) + RelativeYear(y) % 4 < |PrincipalDays(m0)|
    ensures var ry := RelativeYear(y);
            PrincipalTermDay(y, m0)
            == Some(if ry == 171 && m0 == 2 then 21
                    else if ry == 181 && m0 == 4 then 21
                    else Entry(PrincipalDays(m0), 4 * Bracket(PrincipalStarts(m0), ry, 0) + ry % 4, 1))
  {
    PrincipalRowShape(m0);
    ColumnFits(PrincipalStarts(m0), |PrincipalDays(m0)|, PrincipalBlocks(m0), RelativeYear(y));
  }

  /**
   * The sectional term as the calendar computes it: a linear search for the
   * block, then the table entry and the corrected years. None stands for the
   * index error a month outside 0..11 raises.
   */
  method SectionalTerm(y: int, m0: int) returns (r: Option<int>)
    ensures r == SectionalTermDay(y, m0)
  {
    var m := m0 + 1;
    if y < 1901 || y > 2100 {
      return Some(0);
    }
    if !(1 <= m <= 12) {
      return None;
    }
    var ry := y - BaseYear + 1;
    SectionalFound(y, m - 1);
    var index := FindBlock(SectionalStarts(m - 1), ry, SectionalBlocks(m - 1));
    var term := Entry(SectionalDays(m - 1), 4 * index + ry % 4, 1);
    if ry == 121 && m == 4 {
      term := 5;
    }
    if ry == 132 && m == 4 {
      term := 5;
    }
    if ry == 194 && m == 6 {
      term := 6;
    }
    return Some(term);
  }

  /** The principal term, computed as SectionalTerm computes the sectional one. */
  method PrincipalTerm(y: int, m0: int) returns (r: Option<int>)
    ensures r == PrincipalTermDay(y, m0)
  {
    var m := m0 + 1;
    if y < 1901 || y > 2100 {
      return Some(0);
    }
    if !(1 <= m <= 12) {
      return None;
    }
    var ry := y - BaseYear + 1;
    PrincipalFound(y, m - 1);
    var index := FindBlock(PrincipalStarts(m - 1), ry, PrincipalBlocks(m - 1));
    var term := Entry(PrincipalDays(m - 1), 4 * index + ry % 4, 1);
    if ry == 171 && m == 3 {
      term := 21;
    }
    if ry == 181 && m == 5 {
      term := 21;
    }
    return Some(term);
  }

  /** Within a month the sectional term always comes before the principal one. */
  lemma SectionalBeforePrincipal(y: int, m0: int)
    requires TermYear(y) && 0 <= m0 < 12
    ensures SectionalTermDay(y, m0).value + 9 <= PrincipalTermDay(y, m0).value
  {
  }

  /** No block of `starts` begins in the four years after `ry`. */
  predicate SameBlock(starts: seq<int>, ry: int)
  {
    forall k :: 0 <= k < |starts| ==> !(ry < starts[k] <= ry + 4)
  }

  /** Within one block the search lands in the same place four years later. */
  lemma {:induction false} BracketFourYears(starts: seq<int>, ry: int, i: nat)
    requires i < |starts| && ry + 4 < starts[|starts| - 1]
    requires SameBlock(starts, ry)
    ensures Bracket(starts, ry, i) == Bracket(starts, ry + 4, i)
    decreases |starts| - i
  {
    if ry < starts[i] {
      assert !(ry < starts[i] <= ry + 4);
    } else {
      BracketFourYears(starts, ry, i + 1);
    }
  }

  /**
   * The sectional table repeats every four years inside a block: a year and
   * the year four later share their term day unless a new block starts
   * between them or one of them is a corrected year.
   */
  lemma SectionalFourYearCycle(y: int, m0: int)
    requires TermYear(y) && TermYear(y + 4) && 0 <= m0 < 12
    requires SameBlock(SectionalStarts(m0), RelativeYear(y))
    requires !(m0 == 3 && RelativeYear(y) in [121, 132, 117, 128])
    requires !(m0 == 5 && RelativeYear(y) in [194, 190])
    ensures SectionalTermDay(y, m0) == SectionalTermDay(y + 4, m0)
  {
    SectionalRowShape(m0);
    BracketFourYears(SectionalStarts(m0), RelativeYear(y), 0);
  }

  /** The principal table repeats every four years inside a block as well. */
  lemma PrincipalFourYearCycle(y: int, m0: int)
    requires TermYear(y) && TermYear(y + 4) && 0 <= m0 < 12
    requires SameBlock(PrincipalStarts(m0), RelativeYear(y))
    requires !(m0 == 2 && RelativeYear(y) in [171, 167])
    requires !(m0 == 4 && RelativeYear(y) in [181, 177])
    ensures PrincipalTermDay(y, m0) == PrincipalTermDay(y + 4, m0)
  {
    PrincipalRowShape(m0);
    BracketFourYears(PrincipalStarts(m0), RelativeYear(y), 0);
  }
}
