/** A whole page: the strokes draw the grid, the texts fill its cells. */
module RuledPage {
  import opened Options
  import opened RuledGrid
  import opened RuledTable

  ghost predicate OnGrid(strokes: set<Segment>, fs: multiset<Fragment>, t: Table, xs: seq<real>, ys: seq<real>) {
    IsGrid(strokes, xs, ys) && Acceptable(xs, ys, fs) && TableOf(xs, ys, fs, t)
  }

  // The strokes draw a grid on which the fragments make this table.
  ghost predicate PageTable(strokes: set<Segment>, fs: multiset<Fragment>, t: Table) {
    exists xs, ys :: OnGrid(strokes, fs, t, xs, ys)
  }

  // The page is accepted exactly when it is not rotated, its texts are readable and together with
  // its strokes they make a table; None stands for the refusals.
  method ReadPage(rotate: int, segments: seq<Segment>, spans: seq<Span>) returns (table: Option<Table>)
    ensures table.Some? <==>
      rotate % 360 == 0 && AllReadable(spans) && exists t :: PageTable(AsSet(segments), multiset(FragmentsOf(spans)), t)
    ensures table.Some? ==> PageTable(AsSet(segments), multiset(FragmentsOf(spans)), table.value)
  {
    hide IsGrid, Acceptable, TableOf, AllReadable, AsSet, FragmentsOf, PageTable;
    ghost var strokes, fs := AsSet(segments), multiset(FragmentsOf(spans));
    if rotate % 360 != 0 {
      return None;
    }
    var grid := Recognise(segments);
    if grid.None? {
      forall t | PageTable(strokes, fs, t) ensures false {
        SomeGrid(strokes, fs, t);
      }
      return None;
    }
    var xs, ys := grid.value.0, grid.value.1;
    GridSize(strokes, xs, ys);
    table := FillPage(xs, ys, spans);
    forall t | PageTable(strokes, fs, t) ensures Acceptable(xs, ys, fs) {
      OnThisGrid(strokes, fs, t, xs, ys);
    }
    if table.Some? {
      MakesTable(strokes, fs, table.value, xs, ys);
    }
  }

  lemma MakesTable(strokes: set<Segment>, fs: multiset<Fragment>, t: Table, xs: seq<real>, ys: seq<real>)
    requires OnGrid(strokes, fs, t, xs, ys)
    ensures PageTable(strokes, fs, t)
  {
    hide OnGrid;
  }

  lemma SomeGrid(strokes: set<Segment>, fs: multiset<Fragment>, t: Table)
    requires PageTable(strokes, fs, t)
    ensures exists xs, ys :: IsGrid(strokes, xs, ys)
  {
    hide OnGrid;
    var xs, ys :| OnGrid(strokes, fs, t, xs, ys);
    OnGridMeans(strokes, fs, t, xs, ys);
  }

  lemma OnGridMeans(strokes: set<Segment>, fs: multiset<Fragment>, t: Table, xs: seq<real>, ys: seq<real>)
    requires OnGrid(strokes, fs, t, xs, ys)
    ensures IsGrid(strokes, xs, ys) && |xs| >= 3 && |ys| >= 3 && Acceptable(xs, ys, fs) && TableOf(xs, ys, fs, t)
  {
  }

  lemma GridSize(strokes: set<Segment>, xs: seq<real>, ys: seq<real>)
    requires IsGrid(strokes, xs, ys)
    ensures |xs| >= 3 && |ys| >= 3
  {
  }

  lemma OnThisGrid(strokes: set<Segment>, fs: multiset<Fragment>, t: Table, xs: seq<real>, ys: seq<real>)
    requires PageTable(strokes, fs, t) && IsGrid(strokes, xs, ys)
    ensures |xs| >= 3 && |ys| >= 3 && Acceptable(xs, ys, fs) && TableOf(xs, ys, fs, t)
  {
    hide IsGrid, Acceptable, TableOf, OnGrid;
    var us, vs :| OnGrid(strokes, fs, t, us, vs);
    OnGridMeans(strokes, fs, t, us, vs);
    GridIsUnique(strokes, xs, ys, us, vs);
  }

  // Strokes and texts determine the table, whatever order either of them comes in.
  lemma OneTable(strokes: set<Segment>, fs: multiset<Fragment>, t: Table, u: Table)
    requires PageTable(strokes, fs, t) && PageTable(strokes, fs, u)
    ensures t == u
  {
    hide IsGrid, Acceptable, TableOf, OnGrid;
    var xs, ys :| OnGrid(strokes, fs, t, xs, ys);
    OnGridMeans(strokes, fs, t, xs, ys);
    OnThisGrid(strokes, fs, u, xs, ys);
    TableUnique(xs, ys, fs, t, u);
  }

  ghost predicate CellOf(xs: seq<real>, ys: seq<real>, p: Place) {
    p.row + 1 < |ys| && p.col + 1 < |xs|
  }

  // No text is lost, moved or made up: each lies inside exactly one cell of the drawn grid and is
  // the content of that cell, and a cell in which no text lies is empty.
  lemma TextsFillTheirCells(strokes: set<Segment>, fs: multiset<Fragment>, t: Table, xs: seq<real>, ys: seq<real>)
    requires PageTable(strokes, fs, t) && IsGrid(strokes, xs, ys)
    ensures forall f :: f in fs ==> fs[f] == 1 && exists p :: CellOf(xs, ys, p) && Inside(xs, ys, f, p)
    ensures forall f, p, q ::
      f in fs && CellOf(xs, ys, p) && CellOf(xs, ys, q) && Inside(xs, ys, f, p) && Inside(xs, ys, f, q) ==> p == q
    ensures forall f, p :: f in fs && CellOf(xs, ys, p) && Inside(xs, ys, f, p) ==> At(t, p) == f.value != ""
    ensures forall p :: CellOf(xs, ys, p) && (forall f :: f in fs ==> !Inside(xs, ys, f, p)) ==> At(t, p) == ""
  {
    OnThisGrid(strokes, fs, t, xs, ys);
    GridIsUnique(strokes, xs, ys, xs, ys);
    hide IsGrid, Inside, PlaceOf, At, FormulaLike, Spaced;
    forall f, p | f in fs && CellOf(xs, ys, p) ensures Inside(xs, ys, f, p) <==> PlaceOf(xs, ys, f) == Some(p) {
      InsideIsPlaced(xs, ys, f, p);
    }
    forall f | f in fs ensures fs[f] == 1 && exists p :: CellOf(xs, ys, p) && Inside(xs, ys, f, p) {
      assert Fits(xs, ys, f) && CellOf(xs, ys, PlaceOf(xs, ys, f).value);
    }
    forall p | CellOf(xs, ys, p) && forall f :: f in fs ==> !Inside(xs, ys, f, p) ensures At(t, p) == "" {
      assert !Filled(xs, ys, fs, p);
    }
  }

  lemma InsideIsPlaced(xs: seq<real>, ys: seq<real>, f: Fragment, p: Place)
    requires Spaced(xs) && Spaced(ys) && CellOf(xs, ys, p)
    ensures Inside(xs, ys, f, p) <==> PlaceOf(xs, ys, f) == Some(p)
  {
    hide Spaced, PlaceOf;
    PlacedWhereItLies(xs, ys, f, p.row, p.col);
    assert p == Place(p.row, p.col);
  }
}
