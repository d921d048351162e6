/**
 * The dashboard page: the category filter buttons, the records the selected
 * filter keeps, the table view's two-tier colouring of each value cell, and the
 * page's two pieces of view state (selected category and view mode).
 */
module App {
  import opened Types
  import opened Text
  import MetricCard

  /** The filter value that keeps every record. */
  const AllLabel := "Todos"

  /** `['Todos', ...Object.values(Category)]`: the filter buttons, left to right. */
  function Categories(): (r: seq<string>)
    ensures |r| == 10
    ensures r[0] == AllLabel
    ensures forall i :: 0 <= i < |AllCategories| ==> r[i + 1] == Label(AllCategories[i])
    ensures forall i, j :: 0 <= i < j < |r| ==> r[i] != r[j]
  {
    CategoryIsNineValued();
    [AllLabel] + seq(|AllCategories|, i requires 0 <= i < |AllCategories| => Label(AllCategories[i]))
  }

  /** Every category's label is offered as a filter, and nothing else is offered besides "Todos". */
  lemma CategoriesCoverEveryCategory(s: string)
    ensures s in Categories() <==> s == AllLabel || exists c: Category :: Label(c) == s
  {
    var r := Categories();
    if s in r && s != AllLabel {
      var i :| 0 <= i < |r| && r[i] == s;
      assert Label(AllCategories[i - 1]) == s;
    }
    if exists c: Category :: Label(c) == s {
      var c: Category :| Label(c) == s;
      assert r[IndexOf(c) + 1] == s;
    }
  }

  // ---------------------------------------------------------------------------
  // Filtering

  /** `item.category === selected`; only a category button, never "Todos", selects a record. */
  predicate InCategory(item: ExamDataPoint, selected: string): (r: bool)
    ensures r ==> selected != AllLabel && selected in Categories()
  {
    assert Categories()[IndexOf(item.category) + 1] == Label(item.category);
    Label(item.category) == selected
  }

  /** `data.filter(item => item.category === selected)`. */
  function Filter(data: seq<ExamDataPoint>, selected: string): (r: seq<ExamDataPoint>)
    ensures |r| <= |data|
    ensures forall x :: x in r ==> x in data && InCategory(x, selected)
  {
    if data == [] then []
    else if InCategory(data[0], selected) then [data[0]] + Filter(data[1..], selected)
    else Filter(data[1..], selected)
  }

  /** Every position of a sequence of positions moved one place to the right. */
  ghost function Shifted(ix: seq<nat>): (r: seq<nat>)
    ensures |r| == |ix| && forall k :: 0 <= k < |ix| ==> r[k] == ix[k] + 1
  {
    seq(|ix|, k requires 0 <= k < |ix| => ix[k] + 1)
  }

  /** The positions, in increasing order, of the records a filter keeps. */
  ghost function MatchIndices(data: seq<ExamDataPoint>, selected: string): seq<nat>
  {
    if data == [] then []
    else if InCategory(data[0], selected) then [0] + Shifted(MatchIndices(data[1..], selected))
    else Shifted(MatchIndices(data[1..], selected))
  }

  /** `r` lists the records of `data` at the positions `ix`, in that order. */
  ghost predicate PicksAt(r: seq<ExamDataPoint>, data: seq<ExamDataPoint>, ix: seq<nat>)
  {
    |r| == |ix| && forall k :: 0 <= k < |ix| ==> ix[k] < |data| && r[k] == data[ix[k]]
  }

  lemma PicksAtShifted(r: seq<ExamDataPoint>, data: seq<ExamDataPoint>, ix: seq<nat>)
    requires data != [] && PicksAt(r, data[1..], ix)
    ensures PicksAt(r, data, Shifted(ix))
  {
    forall k | 0 <= k < |ix| ensures Shifted(ix)[k] < |data| && r[k] == data[Shifted(ix)[k]] {
      assert data[1..][ix[k]] == data[ix[k] + 1];
    }
  }

  lemma PicksAtCons(r: seq<ExamDataPoint>, data: seq<ExamDataPoint>, ix: seq<nat>)
    requires data != [] && PicksAt(r, data, ix)
    ensures PicksAt([data[0]] + r, data, [0] + ix)
  {
    var r1, ix1 := [data[0]] + r, [0] + ix;
    forall k | 1 <= k < |ix1| ensures ix1[k] < |data| && r1[k] == data[ix1[k]] {
      assert ix1[k] == ix[k - 1] && r1[k] == r[k - 1];
    }
  }

  /** The k-th record kept is the record at the k-th matching position. */
  lemma {:induction false} FilterPicksMatchIndices(data: seq<ExamDataPoint>, selected: string)
    ensures PicksAt(Filter(data, selected), data, MatchIndices(data, selected))
  {
    if data != [] {
      FilterPicksMatchIndices(data[1..], selected);
      PicksAtShifted(Filter(data[1..], selected), data, MatchIndices(data[1..], selected));
      if InCategory(data[0], selected) {
        PicksAtCons(Filter(data[1..], selected), data, Shifted(MatchIndices(data[1..], selected)));
      }
    }
  }

  ghost predicate Increasing(ix: seq<nat>)
  {
    forall k, l :: 0 <= k < l < |ix| ==> ix[k] < ix[l]
  }

  lemma IncreasingShifted(ix: seq<nat>)
    requires Increasing(ix)
    ensures Increasing(Shifted(ix)) && forall k :: 0 <= k < |ix| ==> Shifted(ix)[k] > 0
  {
  }

  lemma IncreasingCons(ix: seq<nat>)
    requires Increasing(ix) && forall k :: 0 <= k < |ix| ==> ix[k] > 0
    ensures Increasing([0] + ix)
  {
    var ix1 := [0] + ix;
    forall k, l | 0 <= k < l < |ix1| ensures ix1[k] < ix1[l] {
      assert ix1[l] == ix[l - 1];
      if k > 0 {
        assert ix1[k] == ix[k - 1];
      }
    }
  }

  /** The matching positions strictly increase, so the filter keeps the input's order. */
  lemma {:induction false} MatchIndicesIncrease(data: seq<ExamDataPoint>, selected: string)
    ensures Increasing(MatchIndices(data, selected))
  {
    if data != [] {
      var tail := MatchIndices(data[1..], selected);
      MatchIndicesIncrease(data[1..], selected);
      IncreasingShifted(tail);
      if InCategory(data[0], selected) {
        IncreasingCons(Shifted(tail));
      }
    }
  }

  /** A position is a matching position exactly when the record there is in the selected category. */
  lemma {:induction false} MatchIndicesComplete(data: seq<ExamDataPoint>, selected: string, j: nat)
    requires j < |data|
    ensures j in MatchIndices(data, selected) <==> InCategory(data[j], selected)
    decreases j
  {
    var tail := MatchIndices(data[1..], selected);
    InShifted(tail, j);
    if j > 0 {
      MatchIndicesComplete(data[1..], selected, j - 1);
      assert data[1..][j - 1] == data[j];
    }
  }

  lemma InShifted(ix: seq<nat>, j: nat)
    ensures j in Shifted(ix) <==> j >= 1 && j - 1 in ix
  {
    if j in Shifted(ix) {
      var k :| 0 <= k < |ix| && Shifted(ix)[k] == j;
      assert ix[k] == j - 1;
    }
    if j >= 1 && j - 1 in ix {
      var k :| 0 <= k < |ix| && ix[k] == j - 1;
      assert Shifted(ix)[k] == j;
    }
  }

  /**
   * The filter keeps an order-preserving subsequence of the data: the k-th record
   * kept is the record at the k-th position whose category is the selected one,
   * those positions increase, and every matching position is among them.
   */
  lemma FilterIsMatchingSubsequence(data: seq<ExamDataPoint>, selected: string)
    ensures var r, ix := Filter(data, selected), MatchIndices(data, selected);
      && |r| == |ix|
      && (forall k :: 0 <= k < |ix| ==> ix[k] < |data| && r[k] == data[ix[k]])
      && Increasing(ix)
      && (forall j :: 0 <= j < |data| ==> (j in ix <==> InCategory(data[j], selected)))
  {
    FilterPicksMatchIndices(data, selected);
    MatchIndicesIncrease(data, selected);
    forall j | 0 <= j < |data| ensures j in MatchIndices(data, selected) <==> InCategory(data[j], selected) {
      MatchIndicesComplete(data, selected, j);
    }
  }

  /** No matching record is dropped, and a matching record is kept exactly as often as it occurs. */
  lemma {:induction false} FilterKeepsAllMatches(data: seq<ExamDataPoint>, selected: string, x: ExamDataPoint)
    ensures x in Filter(data, selected) <==> x in data && InCategory(x, selected)
    ensures multiset(Filter(data, selected))[x] == if InCategory(x, selected) then multiset(data)[x] else 0
  {
    if data != [] {
      var head, rest := data[0], data[1..];
      FilterKeepsAllMatches(rest, selected, x);
      assert data == [head] + rest;
      assert multiset(data) == multiset([head]) + multiset(rest);
      if InCategory(head, selected) {
        assert multiset(Filter(data, selected)) == multiset([head]) + multiset(Filter(rest, selected));
      } else {
        assert Filter(data, selected) == Filter(rest, selected);
      }
    }
  }

  /** `filteredData`: the whole dataset under "Todos", otherwise the records of the selected category. */
  function FilteredData(data: seq<ExamDataPoint>, selected: string): (r: seq<ExamDataPoint>)
    ensures selected == AllLabel ==> r == data
    ensures selected != AllLabel ==> r == Filter(data, selected)
    ensures selected != AllLabel ==> forall x :: x in r <==> x in data && InCategory(x, selected)
  {
    if selected == AllLabel then data
    else
      (forall x | x in data ensures x in Filter(data, selected) <==> InCategory(x, selected) {
         FilterKeepsAllMatches(data, selected, x);
       }
       Filter(data, selected))
  }

  function CountInCategory(data: seq<ExamDataPoint>, c: Category): nat
  {
    |Filter(data, Label(c))|
  }

  function SumOverCategories(data: seq<ExamDataPoint>, cats: seq<Category>): nat
  {
    if cats == [] then 0 else CountInCategory(data, cats[0]) + SumOverCategories(data, cats[1..])
  }

  /** The nine category filters partition the dataset: their sizes add up to the whole. */
  lemma {:induction false} CategoryFiltersPartition(data: seq<ExamDataPoint>)
    ensures SumOverCategories(data, AllCategories) == |data|
  {
    if data == [] {
      SumOverNothing(AllCategories);
    } else {
      CategoryFiltersPartition(data[1..]);
      CategoryIsNineValued();
      var i := IndexOf(data[0].category);
      SumSplits(data, AllCategories, i);
    }
  }

  lemma {:induction false} SumOverNothing(cats: seq<Category>)
    ensures SumOverCategories([], cats) == 0
  {
    if cats != [] {
      SumOverNothing(cats[1..]);
    }
  }

  /** Peeling the first record off adds one to the sum exactly at its own, unique category. */
  lemma {:induction false} SumSplits(data: seq<ExamDataPoint>, cats: seq<Category>, i: nat)
    requires data != [] && i < |cats| && cats[i] == data[0].category
    requires forall a, b :: 0 <= a < b < |cats| ==> cats[a] != cats[b]
    ensures SumOverCategories(data, cats) == SumOverCategories(data[1..], cats) + 1
    decreases |cats|
  {
    CategoryIsNineValued();
    if i > 0 {
      SumSplits(data, cats[1..], i - 1);
      assert cats[0] != data[0].category;
    } else {
      SumUnchanged(data, cats[1..]);
    }
  }

  lemma {:induction false} SumUnchanged(data: seq<ExamDataPoint>, cats: seq<Category>)
    requires data != [] && data[0].category !in cats
    ensures SumOverCategories(data, cats) == SumOverCategories(data[1..], cats)
    decreases |cats|
  {
    CategoryIsNineValued();
    if cats != [] {
      SumUnchanged(data, cats[1..]);
    }
  }

  // ---------------------------------------------------------------------------
  // Table view

  datatype TableTone = Green | Red

  datatype TableCell = Dash | Pill(tone: TableTone, value: ObsValue, unit: string)

  /** The table's colour for a status: green for "normal" or "negativo", red for anything else. */
  function TableColor(status: string): (r: TableTone)
    ensures r == Green <==> Occurs("normal", ToLower(status)) || Occurs("negativo", ToLower(status))
  {
    ContainsIffOccurs(ToLower(status), "normal");
    ContainsIffOccurs(ToLower(status), "negativo");
    if Contains(ToLower(status), "normal") || Contains(ToLower(status), "negativo") then Green else Red
  }

  /** One date column of the table: "-" for an absent value, otherwise a coloured pill with value and unit. */
  function CellOf(v: ObsValue, status: string, unit: string): (r: TableCell)
    ensures r == Dash <==> v.Missing?
    ensures r.Pill? ==> r.tone == TableColor(status) && r.value == v && r.unit == unit
  {
    if !v.Missing? then Pill(TableColor(status), v, unit) else Dash
  }

  /** A green cell is always an emerald card badge: the table's keywords are among the card's. */
  lemma GreenCellIsEmeraldBadge(status: string)
    requires TableColor(status) == Green
    ensures MetricCard.StatusColor(status) == MetricCard.Emerald
  {
    assert "normal" in MetricCard.EmeraldKeywords && "negativo" in MetricCard.EmeraldKeywords;
  }

  /**
   * The table has no amber tier and does not know "ausentes": a status the card
   * shows amber, or emerald through "ausentes" alone, is red in the table.
   */
  lemma TableIsCoarserThanCard(status: string)
    requires MetricCard.StatusColor(status) != MetricCard.Rose
    requires !Occurs("normal", ToLower(status)) && !Occurs("negativo", ToLower(status))
    ensures TableColor(status) == Red
    ensures MetricCard.StatusColor(status) == MetricCard.Amber || Occurs("ausentes", ToLower(status))
  {
  }

  /** For instance "Ausentes" is an emerald badge on a card and a red pill in the table. */
  lemma AusentesDiffers()
    ensures MetricCard.StatusColor("Ausentes") == MetricCard.Emerald
    ensures TableColor("Ausentes") == Red
  {
    assert ToLower("Ausentes") == "ausentes";
    assert ToLower("ausentes") == "ausentes";
    MetricCard.EmeraldAnywhere("", "Ausentes", "");
    assert "" + "Ausentes" + "" == "Ausentes";
    AbsentWhenNoStart("normal", "ausentes");
    AbsentWhenNoStart("negativo", "ausentes");
  }

  /** A pattern whose first character starts no window of the right length does not occur. */
  lemma AbsentWhenNoStart(p: string, s: string)
    requires p != [] && forall i :: 0 <= i <= |s| - |p| ==> s[i] != p[0]
    ensures !Occurs(p, s)
  {
    forall i ensures !OccursAt(p, s, i) {
      if 0 <= i && i + |p| <= |s| {
        assert s[i..i + |p|][0] == s[i];
      }
    }
  }

  datatype TableRow = TableRow(name: string, reference: string, unit: string,
                               cell1: TableCell, cell2: TableCell, observation: string)

  /** One row of the table view. */
  function Row(d: ExamDataPoint): (r: TableRow)
    ensures r.cell1 == CellOf(d.value1, d.status1, d.unit) && r.cell2 == CellOf(d.value2, d.status2, d.unit)
    ensures r.cell1 == Dash <==> d.value1.Missing?
    ensures r.cell2 == Dash <==> d.value2.Missing?
    ensures r.name == d.name && r.reference == d.reference && r.unit == d.unit && r.observation == d.observation
  {
    TableRow(d.name, d.reference, d.unit,
             CellOf(d.value1, d.status1, d.unit), CellOf(d.value2, d.status2, d.unit),
             d.observation)
  }

  // ---------------------------------------------------------------------------
  // Page state

  datatype ViewMode = Grid | Table

  /** The page's view state over a fixed dataset. */
  class Dashboard {
    const data: seq<ExamDataPoint>
    var viewMode: ViewMode
    var selectedCategory: string

    /** The selection is always one of the filter buttons. */
    ghost predicate Valid()
      reads this
    {
      selectedCategory in Categories()
    }

    /**
     * The records the page currently shows, in grid or table form: with a valid
     * selection, the whole dataset or the records of exactly one category.
     */
    function Visible(): (r: seq<ExamDataPoint>)
      reads this
      ensures selectedCategory == AllLabel ==> r == data
      ensures Valid() && selectedCategory != AllLabel ==>
        exists c: Category :: Label(c) == selectedCategory && r == Filter(data, Label(c))
    {
      CategoriesCoverEveryCategory(selectedCategory);
      FilteredData(data, selectedCategory)
    }

    constructor (data: seq<ExamDataPoint>)
      ensures Valid()
      ensures this.data == data && viewMode == Grid && selectedCategory == AllLabel
      ensures Visible() == data
    {
      this.data := data;
      viewMode := Grid;
      selectedCategory := AllLabel;
    }

    /** A click on one of the filter buttons. */
    method SelectCategory(cat: string)
      requires Valid() && cat in Categories()
      modifies this
      ensures Valid()
      ensures selectedCategory == cat && viewMode == old(viewMode)
      ensures Visible() == FilteredData(data, cat)
    {
      selectedCategory := cat;
    }

    /** A click on the grid or the table toggle; the selection, and so the visible records, stay. */
    method SetViewMode(mode: ViewMode)
      requires Valid()
      modifies this
      ensures Valid()
      ensures viewMode == mode && selectedCategory == old(selectedCategory)
      ensures Visible() == old(Visible())
    {
      viewMode := mode;
    }
  }
}
