/** A ruled PDF page as a table: the grid its strokes draw, and the cell each text fragment
    fills. Coordinates are exact reals. */
module RuledTable {
  import opened Options
  import opened Text

  const EPS := 1.0
  const MAX_COLUMNS := 12
  const MAX_ROWS := 60

  datatype Fragment = Fragment(x: real, y: real, value: string)

  // A piece of text as the extractor reports it: its transformation and the origin of its text matrix.
  datatype Span = Span(text: string, cm: seq<real>, x: real, y: real)

  // Cell (row, col), rows counted from the top.
  datatype Place = Place(row: nat, col: nat)

  predicate Spaced(lines: seq<real>) {
    forall i, k :: 0 <= i < k < |lines| ==> lines[i] + 12.0 <= lines[k]
  }

  predicate Between(lines: seq<real>, i: nat, v: real)
    requires i + 1 < |lines|
  {
    lines[i] + EPS <= v <= lines[i + 1] - EPS
  }

  // The band between two neighbouring grid lines that holds v.
  function Band(lines: seq<real>, v: real): (r: Option<nat>)
    ensures r.Some? ==> r.value + 1 < |lines| && Between(lines, r.value, v)
    ensures r.None? ==> forall i :: 0 <= i && i + 1 < |lines| ==> !Between(lines, i, v)
  {
    BandFrom(lines, v, 0)
  }

  function BandFrom(lines: seq<real>, v: real, from: nat): (r: Option<nat>)
    ensures r.Some? ==> from <= r.value && r.value + 1 < |lines| && Between(lines, r.value, v)
    ensures r.None? ==> forall i :: from <= i && i + 1 < |lines| ==> !Between(lines, i, v)
    decreases |lines| - from
  {
    if from + 1 >= |lines| then None
    else if Between(lines, from, v) then Some(from)
    else BandFrom(lines, v, from + 1)
  }

  // Bands do not overlap, so the first one found is the only one.
  lemma BandUnique(lines: seq<real>, v: real, i: nat)
    requires Spaced(lines) && i + 1 < |lines| && Between(lines, i, v)
    ensures Band(lines, v) == Some(i)
  {
    assert forall k :: 0 <= k <= i ==> lines[k] <= lines[i];
    assert forall k :: i < k < |lines| ==> lines[i + 1] <= lines[k];
  }

  function PlaceOf(xs: seq<real>, ys: seq<real>, f: Fragment): (r: Option<Place>)
    ensures r.Some? ==> r.value.row + 1 < |ys| && r.value.col + 1 < |xs|
  {
    var col, bottom := Band(xs, f.x), Band(ys, f.y);
    if col.None? || bottom.None? then None else Some(Place(|ys| - 2 - bottom.value, col.value))
  }

  // A cell a spreadsheet would evaluate.
  predicate FormulaLike(value: string) {
    value != "" && (if IsSpace(value[0]) then FormulaLike(value[1..]) else value[0] in {'=', '+', '-', '@'})
  }

  // ---- what the loop decides, said without an order

  predicate Fits(xs: seq<real>, ys: seq<real>, f: Fragment) {
    PlaceOf(xs, ys, f).Some? && !FormulaLike(f.value)
  }

  // Every fragment lies inside a cell and no two share one.
  ghost predicate Placeable(xs: seq<real>, ys: seq<real>, fs: multiset<Fragment>) {
    && (forall f :: f in fs ==> Fits(xs, ys, f) && fs[f] == 1)
    && (forall f, g :: f in fs && g in fs && f != g ==> PlaceOf(xs, ys, f) != PlaceOf(xs, ys, g))
  }

  ghost predicate Filled(xs: seq<real>, ys: seq<real>, fs: multiset<Fragment>, p: Place) {
    exists f :: f in fs && PlaceOf(xs, ys, f) == Some(p)
  }

  ghost predicate RowFilled(xs: seq<real>, ys: seq<real>, fs: multiset<Fragment>, row: nat) {
    exists c: nat :: c + 1 < |xs| && Filled(xs, ys, fs, Place(row, c))
  }

  // The header is complete and no row is empty.
  ghost predicate Covers(xs: seq<real>, ys: seq<real>, fs: multiset<Fragment>) {
    && (forall c: nat :: c + 1 < |xs| ==> Filled(xs, ys, fs, Place(0, c)))
    && (forall r: nat :: r + 1 < |ys| ==> RowFilled(xs, ys, fs, r))
  }

  ghost predicate Acceptable(xs: seq<real>, ys: seq<real>, fs: multiset<Fragment>) {
    |fs| > 0 && Placeable(xs, ys, fs) && Covers(xs, ys, fs)
  }

  type Table = seq<seq<string>>

  predicate Shaped(t: Table, rows: nat, cols: nat) {
    |t| == rows && forall r :: 0 <= r < rows ==> |t[r]| == cols
  }

  // The table of a page: each fragment's text is in its cell and the other cells are empty.
  ghost predicate TableOf(xs: seq<real>, ys: seq<real>, fs: multiset<Fragment>, t: Table)
    requires |xs| >= 1 && |ys| >= 1
  {
    && Shaped(t, |ys| - 1, |xs| - 1)
    && (forall f :: f in fs ==> PlaceOf(xs, ys, f).Some? && At(t, PlaceOf(xs, ys, f).value) == f.value && f.value != "")
    && (forall p: Place :: p.row < |ys| - 1 && p.col < |xs| - 1 && !Filled(xs, ys, fs, p) ==> At(t, p) == "")
  }

  function At(t: Table, p: Place): string
  {
    if p.row < |t| && p.col < |t[p.row]| then t[p.row][p.col] else ""
  }

  function Put(t: Table, p: Place, value: string): Table
    requires p.row < |t| && p.col < |t[p.row]|
  {
    t[p.row := t[p.row][p.col := value]]
  }

  function EmptyTable(rows: nat, cols: nat): Table {
    seq(rows, r => seq(cols, c => ""))
  }

  // ---- the loop

  lemma PrefixBags(fs: seq<Fragment>, i: nat)
    requires i < |fs|
    ensures multiset(fs[..i + 1]) == multiset(fs[..i]) + multiset{fs[i]}
    ensures multiset(fs[..i + 1]) <= multiset(fs)
  {
    assert fs[..i + 1] == fs[..i] + [fs[i]];
    assert fs == fs[..i + 1] + fs[i + 1..];
  }

  // A fragment that meets an occupied cell makes the whole page unacceptable.
  lemma Collision(xs: seq<real>, ys: seq<real>, fs: seq<Fragment>, i: nat)
    requires i < |fs| && PlaceOf(xs, ys, fs[i]).Some? && Filled(xs, ys, multiset(fs[..i]), PlaceOf(xs, ys, fs[i]).value)
    ensures !Placeable(xs, ys, multiset(fs))
  {
    var before := multiset(fs[..i]);
    var g :| g in before && PlaceOf(xs, ys, g) == PlaceOf(xs, ys, fs[i]);
    PrefixBags(fs, i);
    if g == fs[i] {
      assert multiset(fs[..i + 1])[g] >= 2;
    }
  }

  lemma PlaceOne(xs: seq<real>, ys: seq<real>, fs: multiset<Fragment>, f: Fragment)
    requires Placeable(xs, ys, fs) && Fits(xs, ys, f) && !Filled(xs, ys, fs, PlaceOf(xs, ys, f).value)
    ensures Placeable(xs, ys, fs + multiset{f})
    ensures forall p :: Filled(xs, ys, fs + multiset{f}, p) <==> Filled(xs, ys, fs, p) || p == PlaceOf(xs, ys, f).value
  {
    assert f !in fs;
  }

  lemma PutHolds(xs: seq<real>, ys: seq<real>, fs: multiset<Fragment>, f: Fragment, t: Table)
    requires |xs| >= 1 && |ys| >= 1 && TableOf(xs, ys, fs, t) && f.value != ""
    requires Placeable(xs, ys, fs) && Fits(xs, ys, f) && !Filled(xs, ys, fs, PlaceOf(xs, ys, f).value)
    ensures TableOf(xs, ys, fs + multiset{f}, Put(t, PlaceOf(xs, ys, f).value, f.value))
  {
    var p := PlaceOf(xs, ys, f).value;
    PlaceOne(xs, ys, fs, f);
    hide PlaceOf, FormulaLike, At, Put, Fits, Placeable, Filled;
    AtPut(t, p, f.value);
    forall g | g in fs + multiset{f}
      ensures PlaceOf(xs, ys, g).Some? && At(Put(t, p, f.value), PlaceOf(xs, ys, g).value) == g.value && g.value != ""
    {
      if g != f {
        assert g in fs;
        PlaceFilled(xs, ys, fs, g);
      }
    }
    PutLeavesEmpty(xs, ys, fs, f, t, p);
  }

  lemma PutLeavesEmpty(xs: seq<real>, ys: seq<real>, fs: multiset<Fragment>, f: Fragment, t: Table, p: Place)
    requires |xs| >= 1 && |ys| >= 1 && TableOf(xs, ys, fs, t) && p.row < |t| && p.col < |t[p.row]|
    requires forall q :: Filled(xs, ys, fs + multiset{f}, q) <==> Filled(xs, ys, fs, q) || q == p
    ensures forall q: Place :: q.row < |ys| - 1 && q.col < |xs| - 1 && !Filled(xs, ys, fs + multiset{f}, q) ==>
              At(Put(t, p, f.value), q) == ""
  {
    hide PlaceOf, At, Put, Filled;
    AtPut(t, p, f.value);
  }

  lemma PlaceFilled(xs: seq<real>, ys: seq<real>, fs: multiset<Fragment>, g: Fragment)
    requires g in fs && PlaceOf(xs, ys, g).Some?
    ensures Filled(xs, ys, fs, PlaceOf(xs, ys, g).value)
  {
  }

  lemma AtPut(t: Table, p: Place, value: string)
    requires p.row < |t| && p.col < |t[p.row]|
    ensures forall q :: At(Put(t, p, value), q) == if q == p then value else At(t, q)
    ensures forall rows, cols :: Shaped(t, rows, cols) ==> Shaped(Put(t, p, value), rows, cols)
  {
  }

  // The assignment of the fragments, refusing at the first one that does not fit.
  method Assign(xs: seq<real>, ys: seq<real>, fs: seq<Fragment>) returns (table: Option<Table>)
    requires |xs| >= 1 && |ys| >= 1 && forall i :: 0 <= i < |fs| ==> fs[i].value != ""
    ensures table.Some? <==> Placeable(xs, ys, multiset(fs))
    ensures table.Some? ==> TableOf(xs, ys, multiset(fs), table.value)
  {
    hide Placeable, TableOf;
    var cells := EmptyTable(|ys| - 1, |xs| - 1);
    BlankHolds(xs, ys);
    for i := 0 to |fs|
      invariant Placeable(xs, ys, multiset(fs[..i])) && TableOf(xs, ys, multiset(fs[..i]), cells)
    {
      var f := fs[i];
      PrefixBags(fs, i);
      var place := PlaceOf(xs, ys, f);
      if place.None? {
        OneUnfit(xs, ys, fs, i);
        return None;
      }
      CellState(xs, ys, multiset(fs[..i]), cells, place.value);
      if cells[place.value.row][place.value.col] != "" {
        Collision(xs, ys, fs, i);
        return None;
      }
      if FormulaLike(f.value) {
        OneUnfit(xs, ys, fs, i);
        return None;
      }
      PlaceOne(xs, ys, multiset(fs[..i]), f);
      PutHolds(xs, ys, multiset(fs[..i]), f, cells);
      cells := cells[place.value.row := cells[place.value.row][place.value.col := f.value]];
    }
    assert fs[..|fs|] == fs;
    table := Some(cells);
  }

  lemma BlankHolds(xs: seq<real>, ys: seq<real>)
    requires |xs| >= 1 && |ys| >= 1
    ensures Placeable(xs, ys, multiset{}) && TableOf(xs, ys, multiset{}, EmptyTable(|ys| - 1, |xs| - 1))
  {
  }

  lemma OneUnfit(xs: seq<real>, ys: seq<real>, fs: seq<Fragment>, i: nat)
    requires i < |fs| && !Fits(xs, ys, fs[i])
    ensures !Placeable(xs, ys, multiset(fs))
  {
    assert fs[i] in multiset(fs);
  }

  lemma CellState(xs: seq<real>, ys: seq<real>, fs: multiset<Fragment>, t: Table, p: Place)
    requires |xs| >= 1 && |ys| >= 1 && TableOf(xs, ys, fs, t) && p.row < |ys| - 1 && p.col < |xs| - 1
    ensures p.row < |t| && p.col < |t[p.row]| && (t[p.row][p.col] != "" <==> Filled(xs, ys, fs, p))
  {
  }

  // ---- the visitor

  const MAX_CELL_CHARS := 240
  const IDENTITY := [1.0, 0.0, 0.0, 1.0, 0.0, 0.0]

  predicate IsNewline(c: char) {
    c == '\r' || c == '\n'
  }

  function DropFirstNewlines(s: string): string {
    if s != "" && IsNewline(s[0]) then DropFirstNewlines(s[1..]) else s
  }

  function DropEndNewlines(s: string): string {
    if s != "" && IsNewline(s[|s| - 1]) then DropEndNewlines(s[..|s| - 1]) else s
  }

  // The text without the carriage returns and line feeds around it.
  function ContentOf(span: Span): string {
    DropEndNewlines(DropFirstNewlines(span.text))
  }

  predicate Untransformed(cm: seq<real>) {
    forall i :: 0 <= i < |cm| && i < |IDENTITY| ==> -0.001 <= cm[i] - IDENTITY[i] <= 0.001
  }

  // One line of at most 240 characters, not transformed.
  predicate Readable(span: Span) {
    && (forall c :: c in ContentOf(span) ==> !IsNewline(c))
    && |ContentOf(span)| <= MAX_CELL_CHARS && Untransformed(span.cm)
  }

  predicate BlankSpan(span: Span) {
    Strip(ContentOf(span)) == ""
  }

  function FragmentOf(span: Span): Fragment {
    Fragment(span.x, span.y, Strip(ContentOf(span)))
  }

  function FragmentsOf(spans: seq<Span>): (fs: seq<Fragment>)
    ensures forall i :: 0 <= i < |fs| ==> fs[i].value != ""
  {
    if spans == [] then []
    else
      var last := spans[|spans| - 1];
      FragmentsOf(spans[..|spans| - 1]) + (if BlankSpan(last) then [] else [FragmentOf(last)])
  }

  // Blank spans are skipped whatever else they are; any other must be readable.
  predicate AllReadable(spans: seq<Span>) {
    forall i :: 0 <= i < |spans| ==> BlankSpan(spans[i]) || Readable(spans[i])
  }

  // The extractor calls the visitor span by span; None stands for the refusal it raises.
  method Visit(spans: seq<Span>) returns (fragments: Option<seq<Fragment>>)
    ensures fragments == if AllReadable(spans) then Some(FragmentsOf(spans)) else None
  {
    hide Strip, ContentOf, Untransformed;
    var kept := [];
    for i := 0 to |spans|
      invariant AllReadable(spans[..i]) && kept == FragmentsOf(spans[..i])
    {
      assert spans[..i + 1][..i] == spans[..i];
      var span := spans[i];
      var content := ContentOf(span);
      if Strip(content) != "" {
        if (exists c :: c in content && IsNewline(c)) || |content| > MAX_CELL_CHARS || !Untransformed(span.cm) {
          return None;
        }
        kept := kept + [Fragment(span.x, span.y, Strip(content))];
      }
    }
    assert spans[..|spans|] == spans;
    fragments := Some(kept);
  }

  lemma {:induction false} FrontDropped(s: string)
    ensures forall c :: c in DropSpaces(s) ==> c in s
  {
    if s != "" && IsSpace(s[0]) {
      FrontDropped(s[1..]);
      assert forall c :: c in s[1..] ==> c in s;
    }
  }

  lemma {:induction false} EndDropped(s: string)
    ensures |DropLastSpaces(s)| <= |s| && forall c :: c in DropLastSpaces(s) ==> c in s
    ensures var r := DropLastSpaces(s); r != "" ==> r[0] == s[0] && !IsSpace(r[|r| - 1])
  {
    if s != "" && IsSpace(s[|s| - 1]) {
      EndDropped(s[..|s| - 1]);
      assert forall c :: c in s[..|s| - 1] ==> c in s;
    }
  }

  lemma Stripped(s: string)
    requires Strip(s) != ""
    ensures |Strip(s)| <= |s| && forall c :: c in Strip(s) ==> c in s
    ensures !IsSpace(Strip(s)[0]) && !IsSpace(Strip(s)[|Strip(s)| - 1])
  {
    hide IsSpace;
    FrontDropped(s);
    EndDropped(DropSpaces(s));
  }

  // Every fragment is one line of 1 to 240 characters without blanks around it.
  lemma FragmentIsCellText(spans: seq<Span>, f: Fragment)
    requires AllReadable(spans) && f in FragmentsOf(spans)
    ensures 1 <= |f.value| <= MAX_CELL_CHARS && forall c :: c in f.value ==> !IsNewline(c)
    ensures !IsSpace(f.value[0]) && !IsSpace(f.value[|f.value| - 1])
    ensures exists i :: 0 <= i < |spans| && !BlankSpan(spans[i]) && f == FragmentOf(spans[i])
  {
    hide ContentOf, IsSpace, IsNewline, Untransformed, Strip, FragmentsOf;
    FragmentFrom(spans, f);
    var i :| 0 <= i < |spans| && !BlankSpan(spans[i]) && f == FragmentOf(spans[i]);
    Stripped(ContentOf(spans[i]));
  }

  lemma {:induction false} FragmentFrom(spans: seq<Span>, f: Fragment)
    requires f in FragmentsOf(spans)
    ensures exists i :: 0 <= i < |spans| && !BlankSpan(spans[i]) && f == FragmentOf(spans[i])
  {
    hide BlankSpan, FragmentOf;
    var n := |spans| - 1;
    if f in FragmentsOf(spans[..n]) {
      FragmentFrom(spans[..n], f);
      var i :| 0 <= i < n && !BlankSpan(spans[..n][i]) && f == FragmentOf(spans[..n][i]);
      assert spans[..n][i] == spans[i];
    }
  }

  // ---- the page

  // The spans of a page on a recognised grid; None stands for the refusals.
  method FillPage(xs: seq<real>, ys: seq<real>, spans: seq<Span>) returns (table: Option<Table>)
    requires |xs| >= 3 && |ys| >= 3
    ensures table.Some? <==> AllReadable(spans) && Acceptable(xs, ys, multiset(FragmentsOf(spans)))
    ensures table.Some? ==> TableOf(xs, ys, multiset(FragmentsOf(spans)), table.value)
  {
    hide Acceptable, TableOf, AllReadable;
    var fragments := Visit(spans);
    if fragments.None? {
      return None;
    }
    table := FillTable(xs, ys, fragments.value);
  }

  // The fragments in their cells, then the completeness of the header and of every row.
  method FillTable(xs: seq<real>, ys: seq<real>, fs: seq<Fragment>) returns (table: Option<Table>)
    requires |xs| >= 3 && |ys| >= 3 && forall i :: 0 <= i < |fs| ==> fs[i].value != ""
    ensures table.Some? <==> Acceptable(xs, ys, multiset(fs))
    ensures table.Some? ==> TableOf(xs, ys, multiset(fs), table.value)
  {
    hide Placeable, TableOf, Filled;
    if fs == [] {
      return None;
    }
    var placed := Assign(xs, ys, fs);
    if placed.None? {
      return None;
    }
    var cells := placed.value;
    TableShape(xs, ys, multiset(fs), cells);
    for c := 0 to |xs| - 1
      invariant forall k: nat :: k < c ==> Filled(xs, ys, multiset(fs), Place(0, k))
    {
      CellState(xs, ys, multiset(fs), cells, Place(0, c));
      if cells[0][c] == "" {
        return None;
      }
    }
    for r := 0 to |ys| - 1
      invariant forall k: nat :: k < r ==> RowFilled(xs, ys, multiset(fs), k)
    {
      var any := false;
      for c := 0 to |xs| - 1
        invariant any <==> exists k: nat :: k < c && Filled(xs, ys, multiset(fs), Place(r, k))
      {
        CellState(xs, ys, multiset(fs), cells, Place(r, c));
        if cells[r][c] != "" {
          any := true;
        }
      }
      assert any <==> RowFilled(xs, ys, multiset(fs), r);
      if !any {
        return None;
      }
    }
    table := Some(cells);
  }

  lemma TableShape(xs: seq<real>, ys: seq<real>, fs: multiset<Fragment>, t: Table)
    requires |xs| >= 1 && |ys| >= 1 && TableOf(xs, ys, fs, t)
    ensures Shaped(t, |ys| - 1, |xs| - 1)
  {
  }

  // ---- what an accepted page means

  // The table is determined by the fragments alone, whatever order they arrive in.
  lemma TableUnique(xs: seq<real>, ys: seq<real>, fs: multiset<Fragment>, t: Table, u: Table)
    requires |xs| >= 1 && |ys| >= 1 && TableOf(xs, ys, fs, t) && TableOf(xs, ys, fs, u)
    ensures t == u
  {
    forall r, c | 0 <= r < |t| && 0 <= c < |t[r]| ensures t[r][c] == u[r][c] {
      var p := Place(r, c);
      assert At(t, p) == t[r][c] && At(u, p) == u[r][c];
      if Filled(xs, ys, fs, p) {
        var f :| f in fs && PlaceOf(xs, ys, f) == Some(p);
      }
    }
    forall r | 0 <= r < |t| ensures t[r] == u[r] {
    }
  }

  // The fragment lies strictly inside the drawn cell: rows run from the top edge down and columns
  // from the left edge right.
  predicate Inside(xs: seq<real>, ys: seq<real>, f: Fragment, p: Place)
    requires p.row + 1 < |ys| && p.col + 1 < |xs|
  {
    var bottom := |ys| - 2 - p.row;
    xs[p.col] + 1.0 <= f.x <= xs[p.col + 1] - 1.0 && ys[bottom] + 1.0 <= f.y <= ys[bottom + 1] - 1.0
  }

  // The one fragment of a cell.
  ghost predicate Sole(xs: seq<real>, ys: seq<real>, fs: multiset<Fragment>, f: Fragment, p: Place) {
    && f in fs && fs[f] == 1 && PlaceOf(xs, ys, f) == Some(p)
    && (forall g :: g in fs && PlaceOf(xs, ys, g) == Some(p) ==> g == f)
  }

  // Fragments and non-empty cells are in bijection, and each fragment lies inside its cell.
  lemma CellsAreFragments(xs: seq<real>, ys: seq<real>, fs: multiset<Fragment>, t: Table, p: Place)
    requires |xs| >= 1 && |ys| >= 1 && Placeable(xs, ys, fs) && TableOf(xs, ys, fs, t)
    requires p.row + 1 < |ys| && p.col + 1 < |xs|
    ensures At(t, p) != "" <==> exists f :: Sole(xs, ys, fs, f, p)
    ensures forall f :: Sole(xs, ys, fs, f, p) ==> At(t, p) == f.value && Inside(xs, ys, f, p)
  {
    hide PlaceOf, FormulaLike, At, Inside;
    if Filled(xs, ys, fs, p) {
      var f :| f in fs && PlaceOf(xs, ys, f) == Some(p);
      SoleOf(xs, ys, fs, f);
    }
    forall f | Sole(xs, ys, fs, f, p) ensures Inside(xs, ys, f, p) {
      PlacedInside(xs, ys, f, p);
    }
  }

  lemma PlacedInside(xs: seq<real>, ys: seq<real>, f: Fragment, p: Place)
    requires p.row + 1 < |ys| && p.col + 1 < |xs| && PlaceOf(xs, ys, f) == Some(p)
    ensures Inside(xs, ys, f, p)
  {
    assert Between(xs, p.col, f.x) && Between(ys, |ys| - 2 - p.row, f.y);
  }

  // No fragment is dropped: each is the one text of the cell it is placed in.
  lemma SoleOf(xs: seq<real>, ys: seq<real>, fs: multiset<Fragment>, f: Fragment)
    requires Placeable(xs, ys, fs) && f in fs
    ensures PlaceOf(xs, ys, f).Some? && Sole(xs, ys, fs, f, PlaceOf(xs, ys, f).value)
  {
    assert Fits(xs, ys, f);
    hide PlaceOf, FormulaLike;
  }

  // On a spaced grid a fragment is placed exactly when it lies inside some cell, and then in that one.
  lemma PlacedWhereItLies(xs: seq<real>, ys: seq<real>, f: Fragment, r: nat, c: nat)
    requires Spaced(xs) && Spaced(ys) && c + 1 < |xs| && r + 1 < |ys|
    ensures PlaceOf(xs, ys, f) == Some(Place(r, c)) <==> Between(xs, c, f.x) && Between(ys, |ys| - 2 - r, f.y)
  {
    if Between(xs, c, f.x) && Between(ys, |ys| - 2 - r, f.y) {
      BandUnique(xs, f.x, c);
      BandUnique(ys, f.y, |ys| - 2 - r);
    }
  }
}
