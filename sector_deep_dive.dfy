/** The sortable sector table of src/sections/SectorDeepDive.tsx: the sort
    key and direction state, the copy-then-sort of the summaries, the
    single-expanded-row toggle and the top-three highlight cards.

    `localeCompare` is modelled as lexicographic order on code points. */
module SectorDeepDive {
  import opened Types

  datatype SortKey = Sector | TotalRoles | HhShare | AvgPtr | AvgNfc | AvgAiExposure
  datatype SortDirection = Asc | Desc

  /** The value of a numeric column. */
  function NumericKey(s: SectorSummary, key: SortKey): real
    requires key != Sector
  {
    match key
    case TotalRoles => s.totalRoles as real
    case HhShare => s.hhShare
    case AvgPtr => s.avgPtr
    case AvgNfc => s.avgNfc
    case AvgAiExposure => s.avgAiExposure
  }

  // ---------------------------------------------------------------------
  // String order
  // ---------------------------------------------------------------------

  /** `a.localeCompare(b) <= 0`, as lexicographic order. */
  predicate StrLe(a: string, b: string)
    decreases |a|
  {
    a == [] || (b != [] && (a[0] < b[0] || (a[0] == b[0] && StrLe(a[1..], b[1..]))))
  }

  lemma {:induction false} StrLeTotal(a: string, b: string)
    ensures StrLe(a, b) || StrLe(b, a)
    decreases |a|
  {
    if a != [] && b != [] && a[0] == b[0] {
      StrLeTotal(a[1..], b[1..]);
    }
  }

  /** Two names each at most the other are equal: the order is a total
      order, not a preorder. */
  lemma {:induction false} StrLeAntisymmetric(a: string, b: string)
    requires StrLe(a, b) && StrLe(b, a)
    ensures a == b
    decreases |a|
  {
    if a != [] {
      StrLeAntisymmetric(a[1..], b[1..]);
      assert a == [a[0]] + a[1..] && b == [b[0]] + b[1..];
    }
  }

  lemma {:induction false} StrLeTransitive(a: string, b: string, c: string)
    requires StrLe(a, b) && StrLe(b, c)
    ensures StrLe(a, c)
    decreases |a|
  {
    if a != [] && a[0] == b[0] && b[0] == c[0] {
      StrLeTransitive(a[1..], b[1..], c[1..]);
    }
  }

  // ---------------------------------------------------------------------
  // The comparator and the sorted copy
  // ---------------------------------------------------------------------

  /** The table's comparator returns at most 0 for (a, b): `a` may stand
      before `b`. Strings compare by `localeCompare`, numbers by difference;
      `desc` swaps the operands. */
  predicate MayPrecede(key: SortKey, dir: SortDirection, a: SectorSummary, b: SectorSummary)
  {
    if key == Sector then
      (if dir == Asc then StrLe(a.sector, b.sector) else StrLe(b.sector, a.sector))
    else
      (if dir == Asc then NumericKey(a, key) <= NumericKey(b, key)
       else NumericKey(b, key) <= NumericKey(a, key))
  }

  lemma MayPrecedeTotal(key: SortKey, dir: SortDirection, a: SectorSummary, b: SectorSummary)
    ensures MayPrecede(key, dir, a, b) || MayPrecede(key, dir, b, a)
  {
    if key == Sector {
      StrLeTotal(a.sector, b.sector);
    }
  }

  lemma MayPrecedeTransitive(key: SortKey, dir: SortDirection, a: SectorSummary, b: SectorSummary, c: SectorSummary)
    requires MayPrecede(key, dir, a, b) && MayPrecede(key, dir, b, c)
    ensures MayPrecede(key, dir, a, c)
  {
    if key == Sector {
      if dir == Asc {
        StrLeTransitive(a.sector, b.sector, c.sector);
      } else {
        StrLeTransitive(c.sector, b.sector, a.sector);
      }
    }
  }

  predicate SortedBy(key: SortKey, dir: SortDirection, s: seq<SectorSummary>)
  {
    forall i, j :: 0 <= i < j < |s| ==> MayPrecede(key, dir, s[i], s[j])
  }

  /** Inserts `x` after every element that may precede it: the step of a
      stable sort that places a later element. */
  function Insert(key: SortKey, dir: SortDirection, x: SectorSummary, s: seq<SectorSummary>)
    : (r: seq<SectorSummary>)
    ensures |r| == |s| + 1
    ensures multiset(r) == multiset(s) + multiset{x}
  {
    if s == [] then [x]
    else if !MayPrecede(key, dir, s[0], x) then [x] + s
    else
      var rest := Insert(key, dir, x, s[1..]);
      assert s == [s[0]] + s[1..];
      [s[0]] + rest
  }

  lemma {:induction false} InsertKeepsSorted(key: SortKey, dir: SortDirection, x: SectorSummary,
                                             s: seq<SectorSummary>)
    requires SortedBy(key, dir, s)
    ensures SortedBy(key, dir, Insert(key, dir, x, s))
  {
    var r := Insert(key, dir, x, s);
    if s == [] {
    } else if !MayPrecede(key, dir, s[0], x) {
      MayPrecedeTotal(key, dir, s[0], x);
      forall j | 0 <= j < |s| ensures MayPrecede(key, dir, x, s[j]) {
        if j > 0 {
          MayPrecedeTransitive(key, dir, x, s[0], s[j]);
        }
      }
      assert forall j :: 1 <= j < |r| ==> r[j] == s[j - 1];
    } else {
      InsertKeepsSorted(key, dir, x, s[1..]);
      var rest := Insert(key, dir, x, s[1..]);
      assert r == [s[0]] + rest;
      forall j | 0 <= j < |rest| ensures MayPrecede(key, dir, s[0], rest[j]) {
        assert rest[j] in multiset(rest);
        assert rest[j] == x || rest[j] in multiset(s[1..]);
        if rest[j] != x {
          var k :| 0 <= k < |s[1..]| && s[1..][k] == rest[j];
          assert s[k + 1] == rest[j];
        }
      }
    }
  }

  /** `[...sectors].sort(comparator)`: a sorted permutation of the input.
      The input is a value and is left as it was. */
  function SortSectors(sectors: seq<SectorSummary>, key: SortKey, dir: SortDirection)
    : (r: seq<SectorSummary>)
    ensures |r| == |sectors|
    ensures multiset(r) == multiset(sectors)
    ensures SortedBy(key, dir, r)
  {
    if sectors == [] then []
    else
      var init := sectors[..|sectors| - 1];
      var last := sectors[|sectors| - 1];
      var sortedInit := SortSectors(init, key, dir);
      InsertKeepsSorted(key, dir, last, sortedInit);
      assert sectors == init + [last];
      Insert(key, dir, last, sortedInit)
  }

  /** What sorted means for each column: numbers non-decreasing for `asc`
      and non-increasing for `desc`; sector names in string order, reversed
      for `desc`. */
  lemma SortedSectorsOrder(sectors: seq<SectorSummary>, key: SortKey, dir: SortDirection, i: int, j: int)
    requires 0 <= i < j < |sectors|
    ensures var r := SortSectors(sectors, key, dir);
      && (key != Sector && dir == Asc ==> NumericKey(r[i], key) <= NumericKey(r[j], key))
      && (key != Sector && dir == Desc ==> NumericKey(r[i], key) >= NumericKey(r[j], key))
      && (key == Sector && dir == Asc ==> StrLe(r[i].sector, r[j].sector))
      && (key == Sector && dir == Desc ==> StrLe(r[j].sector, r[i].sector))
  {
  }

  // ---------------------------------------------------------------------
  // Table state
  // ---------------------------------------------------------------------

  function Flip(d: SortDirection): SortDirection
  {
    if d == Asc then Desc else Asc
  }

  /** `handleSort(key)`: the same column flips the direction, another column
      becomes the key with direction `desc` whatever the direction was. */
  function NextSort(current: SortKey, dir: SortDirection, key: SortKey): (r: (SortKey, SortDirection))
    ensures r.0 == key
    ensures key == current ==> r.1 != dir
    ensures key != current ==> r.1 == Desc
  {
    if current == key then (current, Flip(dir)) else (key, Desc)
  }

  /** Clicking a column twice returns to the state before. */
  lemma SortTwiceRestores(current: SortKey, dir: SortDirection)
    ensures NextSort(current, Flip(dir), current) == (current, dir)
  {
  }

  /** The rows drawn expanded: those whose sector name is the expanded one. */
  predicate IsExpanded(expanded: Option<string>, row: SectorSummary)
  {
    expanded == Some(row.sector)
  }

  /** With distinct sector names, at most one row is expanded. */
  lemma AtMostOneExpanded(rows: seq<SectorSummary>, expanded: Option<string>, i: int, j: int)
    requires forall a, b :: 0 <= a < b < |rows| ==> rows[a].sector != rows[b].sector
    requires 0 <= i < |rows| && 0 <= j < |rows|
    requires IsExpanded(expanded, rows[i]) && IsExpanded(expanded, rows[j])
    ensures i == j
  {
  }

  datatype Highlight = Highlight(sector: SectorSummary, rank: nat)

  /** `sortedSectors.slice(0, 3)` with ranks 1, 2, 3. */
  function Highlights(sorted: seq<SectorSummary>): (r: seq<Highlight>)
    ensures |r| == if |sorted| < 3 then |sorted| else 3
    ensures forall i :: 0 <= i < |r| ==> r[i].sector == sorted[i] && r[i].rank == i + 1
  {
    var n := if |sorted| < 3 then |sorted| else 3;
    seq(n, i requires 0 <= i < n => Highlight(sorted[i], i + 1))
  }

  /** Every highlighted sector may precede every sector of the table below
      it: under the default order, the cards are the highest HH shares. */
  lemma HighlightsLeadTheTable(sectors: seq<SectorSummary>, key: SortKey, dir: SortDirection)
    ensures var sorted := SortSectors(sectors, key, dir);
      forall i, j :: 0 <= i < |Highlights(sorted)| && i < j < |sorted| ==>
        MayPrecede(key, dir, Highlights(sorted)[i].sector, sorted[j])
  {
  }

  /** `Math.max(...sectors.map(s => s.hh_share))`. Rows exist only when the
      list is non-empty, so the maximum is only taken of a non-empty list. */
  function MaxHhShare(sectors: seq<SectorSummary>): (r: real)
    requires |sectors| > 0
    ensures forall i :: 0 <= i < |sectors| ==> sectors[i].hhShare <= r
    ensures exists i :: 0 <= i < |sectors| && sectors[i].hhShare == r
  {
    if |sectors| == 1 then sectors[0].hhShare
    else
      var rest := MaxHhShare(sectors[1..]);
      assert forall i :: 1 <= i < |sectors| ==> sectors[i] == sectors[1..][i - 1];
      if sectors[0].hhShare >= rest then sectors[0].hhShare else rest
  }

  /** Width, in percent, of a row's HH-share bar. */
  function BarWidth(share: real, maxShare: real): real
    requires maxShare != 0.0
  {
    share / maxShare * 100.0
  }

  /** A share between 0 and the maximum gives a bar between 0 and 100. */
  lemma BarWithinFull(share: real, m: real)
    requires 0.0 <= share <= m && m > 0.0
    ensures 0.0 <= BarWidth(share, m) <= 100.0
  {
    FullBar(m);
    assert share / m <= m / m by {
      assert share * (1.0 / m) <= m * (1.0 / m);
    }
  }

  /** A share equal to the maximum fills its bar. */
  lemma FullBar(m: real)
    requires m > 0.0
    ensures BarWidth(m, m) == 100.0
  {
  }

  /** With non-negative shares and a positive maximum, every bar lies within
      0..100 percent and the sector with the largest share fills its bar. */
  lemma BarWidthsWithinFull(sectors: seq<SectorSummary>)
    requires |sectors| > 0
    requires forall i :: 0 <= i < |sectors| ==> sectors[i].hhShare >= 0.0
    requires MaxHhShare(sectors) > 0.0
    ensures forall i :: 0 <= i < |sectors| ==>
      0.0 <= BarWidth(sectors[i].hhShare, MaxHhShare(sectors)) <= 100.0
    ensures exists i :: 0 <= i < |sectors| && BarWidth(sectors[i].hhShare, MaxHhShare(sectors)) == 100.0
  {
    var m := MaxHhShare(sectors);
    forall i | 0 <= i < |sectors|
      ensures 0.0 <= BarWidth(sectors[i].hhShare, m) <= 100.0
    {
      BarWithinFull(sectors[i].hhShare, m);
    }
    var k :| 0 <= k < |sectors| && sectors[k].hhShare == m;
    FullBar(m);
  }

  /** The state of the section: sort column, direction and expanded row. */
  class TableState {
    var sortKey: SortKey
    var sortDirection: SortDirection
    var expandedSector: Option<string>

    constructor ()
      ensures sortKey == HhShare && sortDirection == Desc && expandedSector == None
    {
      sortKey := HhShare;
      sortDirection := Desc;
      expandedSector := None;
    }

    /** The rows in display order. */
    function Rows(sectors: seq<SectorSummary>): (r: seq<SectorSummary>)
      reads this
      ensures multiset(r) == multiset(sectors)
      ensures SortedBy(sortKey, sortDirection, r)
    {
      SortSectors(sectors, sortKey, sortDirection)
    }

    method HandleSort(key: SortKey)
      modifies this
      ensures (sortKey, sortDirection) == NextSort(old(sortKey), old(sortDirection), key)
      ensures expandedSector == old(expandedSector)
    {
      if sortKey == key {
        sortDirection := if sortDirection == Asc then Desc else Asc;
      } else {
        sortKey := key;
        sortDirection := Desc;
      }
    }

    method ToggleRow(row: string)
      modifies this
      ensures expandedSector == Toggle(old(expandedSector), row)
      ensures sortKey == old(sortKey) && sortDirection == old(sortDirection)
    {
      expandedSector := Toggle(expandedSector, row);
    }
  }
}
