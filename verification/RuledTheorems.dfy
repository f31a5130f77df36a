/** What an accepted page looks like, said of the strokes and texts themselves: which drawings are
    grids, which texts may lie on them, and where. */
module RuledTheorems {
  import opened Options
  import opened Text
  import opened RuledGrid
  import opened RuledPage
  import opened RuledTable

  // ---- strokes

  predicate Close(a: real, b: real) {
    -0.01 < a - b < 0.01
  }

  predicate Apart(a: real, b: real) {
    a - b >= 10.0 || b - a >= 10.0
  }

  predicate Upright(s: Segment) {
    Close(s.x1, s.x2) && Apart(s.y1, s.y2)
  }

  predicate Level(s: Segment) {
    Close(s.y1, s.y2) && Apart(s.x1, s.x2)
  }

  predicate Speck(s: Segment) {
    Close(s.x1, s.x2) && Close(s.y1, s.y2)
  }

  // v is r to two decimals, and of two such numbers equally near the one with an even last digit.
  predicate RoundsTo(r: real, v: real, hundredths: int) {
    v == hundredths as real / 100.0 && IsNearest(r * 100.0, hundredths)
  }

  predicate IsNearest(x: real, n: int) {
    -0.5 <= x - n as real <= 0.5 && (x - n as real == 0.5 || x - n as real == -0.5 ==> n % 2 == 0)
  }

  ghost predicate Rounded(r: real, v: real) {
    exists hundredths :: RoundsTo(r, v, hundredths)
  }

  // A stroke between a and b comes within a point of both ends of the frame.
  predicate Reaches(a: real, b: real, low: real, high: real) {
    (a <= low + 1.0 || b <= low + 1.0) && (a >= high - 1.0 || b >= high - 1.0)
  }

  // It leaves the frame by no more than a point.
  predicate Keeps(a: real, b: real, low: real, high: real) {
    low - 1.0 <= a <= high + 1.0 && low - 1.0 <= b <= high + 1.0
  }

  ghost predicate UprightAt(strokes: set<Segment>, s: Segment, x: real) {
    s in strokes && Upright(s) && Rounded(s.x1, x)
  }

  ghost predicate LevelAt(strokes: set<Segment>, s: Segment, y: real) {
    s in strokes && Level(s) && Rounded(s.y1, y)
  }

  // One stroke rules the line from edge to edge.
  ghost predicate RuledUpright(strokes: set<Segment>, x: real, low: real, high: real) {
    exists s :: UprightAt(strokes, s, x) && Reaches(s.y1, s.y2, low, high)
  }

  ghost predicate RuledLevel(strokes: set<Segment>, y: real, low: real, high: real) {
    exists s :: LevelAt(strokes, s, y) && Reaches(s.x1, s.x2, low, high)
  }

  // Neighbouring lines are 12 points or more apart.
  predicate Laid(lines: seq<real>) {
    forall i :: 0 <= i && i + 1 < |lines| ==> lines[i] + 12.0 <= lines[i + 1]
  }

  // The lines of the drawing are these; each is ruled from edge to edge, and nothing else is drawn.
  ghost predicate Drawn(strokes: set<Segment>, xs: seq<real>, ys: seq<real>) {
    && 3 <= |xs| <= 13 && 3 <= |ys| <= 61 && Laid(xs) && Laid(ys)
    && (forall s :: s in strokes ==> Upright(s) || Level(s) || Speck(s))
    && (forall x :: x in xs <==> exists s :: UprightAt(strokes, s, x))
    && (forall y :: y in ys <==> exists s :: LevelAt(strokes, s, y))
    && (forall i :: 0 <= i < |xs| ==> RuledUpright(strokes, xs[i], ys[0], ys[|ys| - 1]))
    && (forall i :: 0 <= i < |ys| ==> RuledLevel(strokes, ys[i], xs[0], xs[|xs| - 1]))
    && (forall s :: s in strokes && Upright(s) ==> Keeps(s.y1, s.y2, ys[0], ys[|ys| - 1]))
    && (forall s :: s in strokes && Level(s) ==> Keeps(s.x1, s.x2, xs[0], xs[|xs| - 1]))
  }

  lemma RoundMeans(r: real, v: real)
    ensures Rounded(r, v) <==> v == Round2(r)
  {
    var x := r * 100.0;
    var k := HalfEven(x);
    assert Round2(r) == k as real / 100.0;
    hide Round2, HalfEven, IsNearest;
    HalfEvenIsNearest(x);
    assert RoundsTo(r, k as real / 100.0, k);
    forall h | RoundsTo(r, v, h) ensures h == k {
      OneNearest(x, h);
    }
  }

  lemma HalfEvenIsNearest(x: real)
    ensures IsNearest(x, HalfEven(x))
  {
    var f := x.Floor;
    assert (f + 1) as real == f as real + 1.0;
    assert f % 2 == 0 || (f + 1) % 2 == 0;
  }

  lemma OneNearest(x: real, n: int)
    requires IsNearest(x, n)
    ensures n == HalfEven(x)
  {
    var f := x.Floor;
    assert (f + 1) as real == f as real + 1.0 && f as real <= x < f as real + 1.0;
    assert f - 1 < n < f + 2;
  }

  lemma KindsMean(s: Segment)
    ensures (Upright(s) <==> IsVertical(s)) && (Level(s) <==> IsHorizontal(s)) && (Speck(s) <==> IsDot(s))
  {
  }

  lemma VerticalSpan(strokes: set<Segment>, x: real, low: real, high: real)
    ensures SpansAt(Verticals(strokes), x, low, high) <==> RuledUpright(strokes, x, low, high)
  {
    if SpansAt(Verticals(strokes), x, low, high) {
      var r :| r in Verticals(strokes) && r.at == x && r.low <= low + EPS && r.high >= high - EPS;
      var s :| s in strokes && IsVertical(s) && VerticalRule(s) == r;
      RoundMeans(s.x1, x);
      assert UprightAt(strokes, s, x) && Reaches(s.y1, s.y2, low, high);
    }
    if RuledUpright(strokes, x, low, high) {
      var s :| UprightAt(strokes, s, x) && Reaches(s.y1, s.y2, low, high);
      RoundMeans(s.x1, x);
      assert VerticalRule(s) in Verticals(strokes);
    }
  }

  lemma HorizontalSpan(strokes: set<Segment>, y: real, low: real, high: real)
    ensures SpansAt(Horizontals(strokes), y, low, high) <==> RuledLevel(strokes, y, low, high)
  {
    if SpansAt(Horizontals(strokes), y, low, high) {
      var r :| r in Horizontals(strokes) && r.at == y && r.low <= low + EPS && r.high >= high - EPS;
      var s :| s in strokes && IsHorizontal(s) && HorizontalRule(s) == r;
      RoundMeans(s.y1, y);
      assert LevelAt(strokes, s, y) && Reaches(s.x1, s.x2, low, high);
    }
    if RuledLevel(strokes, y, low, high) {
      var s :| LevelAt(strokes, s, y) && Reaches(s.x1, s.x2, low, high);
      RoundMeans(s.y1, y);
      assert HorizontalRule(s) in Horizontals(strokes);
    }
  }

  lemma VerticalLine(strokes: set<Segment>, x: real)
    ensures x in Positions(Verticals(strokes)) <==> exists s :: UprightAt(strokes, s, x)
  {
    if x in Positions(Verticals(strokes)) {
      var r :| r in Verticals(strokes) && r.at == x;
      var s :| s in strokes && IsVertical(s) && VerticalRule(s) == r;
      RoundMeans(s.x1, x);
      assert UprightAt(strokes, s, x);
    }
    if exists s :: UprightAt(strokes, s, x) {
      var s :| UprightAt(strokes, s, x);
      RoundMeans(s.x1, x);
      assert VerticalRule(s) in Verticals(strokes);
    }
  }

  lemma HorizontalLine(strokes: set<Segment>, y: real)
    ensures y in Positions(Horizontals(strokes)) <==> exists s :: LevelAt(strokes, s, y)
  {
    if y in Positions(Horizontals(strokes)) {
      var r :| r in Horizontals(strokes) && r.at == y;
      var s :| s in strokes && IsHorizontal(s) && HorizontalRule(s) == r;
      RoundMeans(s.y1, y);
      assert LevelAt(strokes, s, y);
    }
    if exists s :: LevelAt(strokes, s, y) {
      var s :| LevelAt(strokes, s, y);
      RoundMeans(s.y1, y);
      assert HorizontalRule(s) in Horizontals(strokes);
    }
  }

  lemma FrameMeans(strokes: set<Segment>, low: real, high: real)
    ensures WithinFrame(Verticals(strokes), low, high) <==>
      forall s :: s in strokes && Upright(s) ==> Keeps(s.y1, s.y2, low, high)
    ensures WithinFrame(Horizontals(strokes), low, high) <==>
      forall s :: s in strokes && Level(s) ==> Keeps(s.x1, s.x2, low, high)
  {
    forall s | s in strokes && Upright(s)
      ensures VerticalRule(s) in Verticals(strokes)
    {
    }
    forall s | s in strokes && Level(s)
      ensures HorizontalRule(s) in Horizontals(strokes)
    {
    }
  }

  lemma LaidMeans(lines: seq<real>)
    ensures Laid(lines) <==> Steps(lines)
    ensures Laid(lines) ==> Increasing(lines)
  {
    if Laid(lines) {
      StepsSpace(lines);
    }
  }

  lemma LinesMean(strokes: set<Segment>, xs: seq<real>, ys: seq<real>)
    ensures Sorts(xs, Positions(Verticals(strokes))) <==>
      Increasing(xs) && forall x :: x in xs <==> exists s :: UprightAt(strokes, s, x)
    ensures Sorts(ys, Positions(Horizontals(strokes))) <==>
      Increasing(ys) && forall y :: y in ys <==> exists s :: LevelAt(strokes, s, y)
  {
    hide Verticals, Horizontals, Positions, UprightAt, LevelAt, Increasing;
    forall x ensures x in Positions(Verticals(strokes)) <==> exists s :: UprightAt(strokes, s, x) {
      VerticalLine(strokes, x);
    }
    forall y ensures y in Positions(Horizontals(strokes)) <==> exists s :: LevelAt(strokes, s, y) {
      HorizontalLine(strokes, y);
    }
  }

  lemma SpansMean(strokes: set<Segment>, lines: seq<real>, low: real, high: real)
    ensures forall i :: 0 <= i < |lines| ==>
              (SpansAt(Verticals(strokes), lines[i], low, high) <==> RuledUpright(strokes, lines[i], low, high))
    ensures forall i :: 0 <= i < |lines| ==>
              (SpansAt(Horizontals(strokes), lines[i], low, high) <==> RuledLevel(strokes, lines[i], low, high))
  {
    hide SpansAt, RuledUpright, RuledLevel, Verticals, Horizontals;
    forall i | 0 <= i < |lines|
      ensures SpansAt(Verticals(strokes), lines[i], low, high) <==> RuledUpright(strokes, lines[i], low, high)
      ensures SpansAt(Horizontals(strokes), lines[i], low, high) <==> RuledLevel(strokes, lines[i], low, high)
    {
      VerticalSpan(strokes, lines[i], low, high);
      HorizontalSpan(strokes, lines[i], low, high);
    }
  }

  // The recognised grids are the drawings of a fully ruled rectangle of 2 to 12 columns and 2 to 60
  // rows, each line ruled from edge to edge, with nothing drawn outside.
  lemma GridMeans(strokes: set<Segment>, xs: seq<real>, ys: seq<real>)
    ensures IsGrid(strokes, xs, ys) <==> Drawn(strokes, xs, ys)
  {
    LaidMeans(xs);
    LaidMeans(ys);
    LinesMean(strokes, xs, ys);
    KindsAll(strokes);
    if |xs| > 0 && |ys| > 0 {
      SpansMean(strokes, xs, ys[0], ys[|ys| - 1]);
      SpansMean(strokes, ys, xs[0], xs[|xs| - 1]);
      FrameMeans(strokes, ys[0], ys[|ys| - 1]);
      FrameMeans(strokes, xs[0], xs[|xs| - 1]);
    }
    hide SpansAt, RuledUpright, RuledLevel, UprightAt, LevelAt, Keeps, Verticals, Horizontals, Positions, Sorts,
      WithinFrame, Upright, Level, Speck, IsVertical, IsHorizontal, IsDot, Increasing, Laid, Steps;
  }

  lemma KindsAll(strokes: set<Segment>)
    ensures (forall s :: s in strokes ==> Upright(s) || Level(s) || Speck(s)) <==>
      (forall s :: s in strokes ==> IsVertical(s) || IsHorizontal(s) || IsDot(s))
  {
    hide Upright, Level, Speck, IsVertical, IsHorizontal, IsDot;
    forall s
      ensures (Upright(s) <==> IsVertical(s)) && (Level(s) <==> IsHorizontal(s)) && (Speck(s) <==> IsDot(s))
    {
      KindsMean(s);
    }
  }

  // ---- texts

  // After blanks the text begins with a sign that a spreadsheet takes for a formula.
  ghost predicate StartsFormula(s: string) {
    exists i :: 0 <= i < |s| && BlankUpTo(s, i) && (s[i] == '=' || s[i] == '+' || s[i] == '-' || s[i] == '@')
  }

  predicate BlankUpTo(s: string, i: nat)
    requires i <= |s|
  {
    forall k :: 0 <= k < i ==> IsSpace(s[k])
  }

  lemma {:induction false} FormulaMeans(s: string)
    ensures FormulaLike(s) <==> StartsFormula(s)
  {
    hide IsSpace;
    if s != "" && IsSpace(s[0]) {
      FormulaMeans(s[1..]);
      if StartsFormula(s[1..]) {
        var i :| 0 <= i < |s[1..]| && BlankUpTo(s[1..], i)
          && (s[1..][i] == '=' || s[1..][i] == '+' || s[1..][i] == '-' || s[1..][i] == '@');
        BlankMore(s, i);
        assert s[i + 1] == s[1..][i];
      }
      if StartsFormula(s) {
        var i :| 0 <= i < |s| && BlankUpTo(s, i) && (s[i] == '=' || s[i] == '+' || s[i] == '-' || s[i] == '@');
        SignIsNoBlank();
        BlankMore(s, i - 1);
        assert s[i] == s[1..][i - 1];
      }
    } else if s != "" && s[0] in {'=', '+', '-', '@'} {
      assert BlankUpTo(s, 0);
    }
  }

  lemma SignIsNoBlank()
    ensures !IsSpace('=') && !IsSpace('+') && !IsSpace('-') && !IsSpace('@')
  {
  }

  lemma BlankMore(s: string, i: nat)
    requires i < |s| && IsSpace(s[0])
    ensures BlankUpTo(s[1..], i) <==> BlankUpTo(s, i + 1)
  {
    hide IsSpace;
    if BlankUpTo(s[1..], i) {
      forall k | 0 <= k < i + 1 ensures IsSpace(s[k]) {
        assert k > 0 ==> s[k] == s[1..][k - 1];
      }
    }
  }

  ghost predicate InCell(xs: seq<real>, ys: seq<real>, fs: multiset<Fragment>, f: Fragment, p: Place) {
    f in fs && CellOf(xs, ys, p) && Inside(xs, ys, f, p)
  }

  ghost predicate Held(xs: seq<real>, ys: seq<real>, fs: multiset<Fragment>, p: Place) {
    exists f :: InCell(xs, ys, fs, f, p)
  }

  ghost predicate RowHeld(xs: seq<real>, ys: seq<real>, fs: multiset<Fragment>, r: nat) {
    exists c: nat :: Held(xs, ys, fs, Place(r, c))
  }

  ghost predicate Lodged(xs: seq<real>, ys: seq<real>, fs: multiset<Fragment>, f: Fragment) {
    exists p :: InCell(xs, ys, fs, f, p)
  }

  // The texts fill the grid: each in a cell of its own and no formula, a header without gaps and no
  // empty row.
  ghost predicate FillsGrid(xs: seq<real>, ys: seq<real>, fs: multiset<Fragment>) {
    && (forall f :: f in fs ==> fs[f] == 1 && !StartsFormula(f.value) && Lodged(xs, ys, fs, f))
    && (forall f, g, p :: InCell(xs, ys, fs, f, p) && InCell(xs, ys, fs, g, p) ==> f == g)
    && (forall c: nat :: c + 1 < |xs| ==> Held(xs, ys, fs, Place(0, c)))
    && (forall r: nat :: r + 1 < |ys| ==> RowHeld(xs, ys, fs, r))
  }

  lemma CellsMean(xs: seq<real>, ys: seq<real>, fs: multiset<Fragment>)
    requires Spaced(xs) && Spaced(ys)
    ensures forall f, p :: InCell(xs, ys, fs, f, p) <==> f in fs && PlaceOf(xs, ys, f) == Some(p)
  {
    hide Inside, PlaceOf, Spaced;
    forall f, p
      ensures InCell(xs, ys, fs, f, p) <==> f in fs && PlaceOf(xs, ys, f) == Some(p)
    {
      if CellOf(xs, ys, p) {
        InsideIsPlaced(xs, ys, f, p);
      }
    }
  }

  lemma PlaceableMeans(xs: seq<real>, ys: seq<real>, fs: multiset<Fragment>)
    requires Spaced(xs) && Spaced(ys)
    ensures Placeable(xs, ys, fs) <==>
      && (forall f :: f in fs ==> fs[f] == 1 && !StartsFormula(f.value) && Lodged(xs, ys, fs, f))
      && (forall f, g, p :: InCell(xs, ys, fs, f, p) && InCell(xs, ys, fs, g, p) ==> f == g)
  {
    CellsMean(xs, ys, fs);
    hide InCell, PlaceOf, StartsFormula, FormulaLike, Spaced;
    forall f | f in fs
      ensures Fits(xs, ys, f) <==> !StartsFormula(f.value) && Lodged(xs, ys, fs, f)
    {
      FormulaMeans(f.value);
    }
    if Placeable(xs, ys, fs) {
      forall f, g, p | InCell(xs, ys, fs, f, p) && InCell(xs, ys, fs, g, p) ensures f == g {
        assert PlaceOf(xs, ys, f) == PlaceOf(xs, ys, g);
      }
    }
  }

  lemma CoversMeans(xs: seq<real>, ys: seq<real>, fs: multiset<Fragment>)
    requires Spaced(xs) && Spaced(ys)
    ensures Covers(xs, ys, fs) <==>
      && (forall c: nat :: c + 1 < |xs| ==> Held(xs, ys, fs, Place(0, c)))
      && (forall r: nat :: r + 1 < |ys| ==> RowHeld(xs, ys, fs, r))
  {
    CellsMean(xs, ys, fs);
    hide PlaceOf, Spaced, Inside;
    forall p ensures Filled(xs, ys, fs, p) <==> Held(xs, ys, fs, p) {
    }
    assert forall p :: Held(xs, ys, fs, p) ==> CellOf(xs, ys, p);
    hide Filled, Held;
    forall r: nat ensures RowFilled(xs, ys, fs, r) <==> RowHeld(xs, ys, fs, r) {
      if RowHeld(xs, ys, fs, r) {
        var c: nat :| Held(xs, ys, fs, Place(r, c));
        assert CellOf(xs, ys, Place(r, c)) && Filled(xs, ys, fs, Place(r, c));
      }
    }
  }

  // Which fragments a grid accepts, said of where they lie.
  lemma AcceptableMeans(xs: seq<real>, ys: seq<real>, fs: multiset<Fragment>)
    requires Spaced(xs) && Spaced(ys)
    ensures Acceptable(xs, ys, fs) <==> |fs| > 0 && FillsGrid(xs, ys, fs)
  {
    PlaceableMeans(xs, ys, fs);
    CoversMeans(xs, ys, fs);
    hide InCell, PlaceOf, StartsFormula, FormulaLike, Spaced, Held, RowHeld, Lodged, Placeable, Covers;
  }

  // ---- spans

  predicate IsBreakChar(c: char) {
    c == '\r' || c == '\n'
  }

  // Between i and j lies the text without the carriage returns and line feeds around it.
  predicate Trimmed(s: string, i: nat, j: nat) {
    && i <= j <= |s| && (i < j ==> !IsBreakChar(s[i]) && !IsBreakChar(s[j - 1]))
    && (forall k :: 0 <= k < i ==> IsBreakChar(s[k])) && forall k :: j <= k < |s| ==> IsBreakChar(s[k])
  }

  // One line of at most 240 characters, drawn without a transformation.
  predicate IsLine(span: Span, i: nat, j: nat)
    requires i <= j <= |span.text|
  {
    && j - i <= 240 && (forall k :: i <= k < j ==> !IsBreakChar(span.text[k]))
    && (|span.cm| > 0 ==> 0.999 <= span.cm[0] <= 1.001) && (|span.cm| > 1 ==> -0.001 <= span.cm[1] <= 0.001)
    && (|span.cm| > 2 ==> -0.001 <= span.cm[2] <= 0.001) && (|span.cm| > 3 ==> 0.999 <= span.cm[3] <= 1.001)
    && (|span.cm| > 4 ==> -0.001 <= span.cm[4] <= 0.001) && (|span.cm| > 5 ==> -0.001 <= span.cm[5] <= 0.001)
  }

  lemma {:induction false} FrontTrimmed(s: string) returns (i: nat)
    ensures i <= |s| && DropFirstNewlines(s) == s[i..] && forall k :: 0 <= k < i ==> IsBreakChar(s[k])
    ensures i < |s| ==> !IsBreakChar(s[i])
  {
    if s != "" && IsNewline(s[0]) {
      i := FrontTrimmed(s[1..]);
      i := i + 1;
      assert forall k :: 1 <= k < i ==> s[k] == s[1..][k - 1];
    } else {
      i := 0;
    }
  }

  lemma {:induction false} EndTrimmed(s: string) returns (j: nat)
    ensures j <= |s| && DropEndNewlines(s) == s[..j] && forall k :: j <= k < |s| ==> IsBreakChar(s[k])
    ensures j > 0 ==> !IsBreakChar(s[j - 1])
  {
    if s != "" && IsNewline(s[|s| - 1]) {
      j := EndTrimmed(s[..|s| - 1]);
      assert s[..|s| - 1][..j] == s[..j];
      assert forall k :: j <= k < |s| - 1 ==> s[k] == s[..|s| - 1][k];
    } else {
      j := |s|;
      assert s[..j] == s;
    }
  }

  lemma ContentMeans(span: Span) returns (i: nat, j: nat)
    ensures Trimmed(span.text, i, j) && ContentOf(span) == span.text[i..j]
  {
    i := FrontTrimmed(span.text);
    var rest := span.text[i..];
    var n := EndTrimmed(rest);
    j := i + n;
    assert rest[..n] == span.text[i..j];
    assert n > 0 ==> rest[n - 1] == span.text[j - 1];
    forall k | j <= k < |span.text| ensures IsBreakChar(span.text[k]) {
      assert span.text[k] == rest[k - i];
    }
  }

  // Between a and b lies the text without the blanks around it.
  predicate Bare(s: string, a: nat, b: nat) {
    && a <= b <= |s| && (a < b ==> !IsSpace(s[a]) && !IsSpace(s[b - 1]))
    && (forall k :: 0 <= k < a ==> IsSpace(s[k])) && forall k :: b <= k < |s| ==> IsSpace(s[k])
  }

  lemma {:induction false} FrontBare(s: string) returns (a: nat)
    ensures a <= |s| && DropSpaces(s) == s[a..] && forall k :: 0 <= k < a ==> IsSpace(s[k])
  {
    hide IsSpace;
    if s != "" && IsSpace(s[0]) {
      a := FrontBare(s[1..]);
      a := a + 1;
      assert forall k :: 1 <= k < a ==> s[k] == s[1..][k - 1];
    } else {
      a := 0;
    }
  }

  lemma {:induction false} EndBare(s: string) returns (b: nat)
    ensures b <= |s| && DropLastSpaces(s) == s[..b] && forall k :: b <= k < |s| ==> IsSpace(s[k])
    ensures b > 0 ==> !IsSpace(s[b - 1])
  {
    hide IsSpace;
    if s != "" && IsSpace(s[|s| - 1]) {
      b := EndBare(s[..|s| - 1]);
      assert s[..|s| - 1][..b] == s[..b];
      assert forall k :: b <= k < |s| - 1 ==> s[k] == s[..|s| - 1][k];
    } else {
      b := |s|;
      assert s[..b] == s;
    }
  }

  lemma StripMeans(s: string) returns (a: nat, b: nat)
    ensures Bare(s, a, b) && Strip(s) == s[a..b]
  {
    hide IsSpace;
    a := FrontBare(s);
    var rest := s[a..];
    var n := EndBare(rest);
    b := a + n;
    assert rest[..n] == s[a..b];
    assert n > 0 ==> rest[n - 1] == s[b - 1] && rest[0] == s[a];
    forall k | b <= k < |s| ensures IsSpace(s[k]) {
      assert s[k] == rest[k - a];
    }
  }

  lemma BreakIsSpace(c: char)
    requires IsBreakChar(c)
    ensures IsSpace(c)
  {
  }

  lemma ReadableMeans(span: Span, i: nat, j: nat)
    requires Trimmed(span.text, i, j) && ContentOf(span) == span.text[i..j]
    ensures Readable(span) <==> IsLine(span, i, j)
  {
    hide ContentOf;
    var content := span.text[i..j];
    assert forall k :: i <= k < j ==> span.text[k] == content[k - i] && content[k - i] in content;
    UntransformedMeans(span.cm);
  }

  lemma UntransformedMeans(cm: seq<real>)
    ensures Untransformed(cm) <==>
      && (|cm| > 0 ==> 0.999 <= cm[0] <= 1.001) && (|cm| > 1 ==> -0.001 <= cm[1] <= 0.001)
      && (|cm| > 2 ==> -0.001 <= cm[2] <= 0.001) && (|cm| > 3 ==> 0.999 <= cm[3] <= 1.001)
      && (|cm| > 4 ==> -0.001 <= cm[4] <= 0.001) && (|cm| > 5 ==> -0.001 <= cm[5] <= 0.001)
  {
    assert IDENTITY[0] == 1.0 && IDENTITY[1] == 0.0 && IDENTITY[2] == 0.0;
    assert IDENTITY[3] == 1.0 && IDENTITY[4] == 0.0 && IDENTITY[5] == 0.0;
  }

  // What the visitor makes of a text: nothing of a blank one; of any other the text without blanks
  // around it, where it stands, if between its line breaks it is one untransformed line.
  lemma SpanMeans(span: Span) returns (i: nat, j: nat, a: nat, b: nat)
    ensures Trimmed(span.text, i, j) && Bare(span.text, a, b)
    ensures BlankSpan(span) <==> forall k :: 0 <= k < |span.text| ==> IsSpace(span.text[k])
    ensures Readable(span) <==> IsLine(span, i, j)
    ensures !BlankSpan(span) ==> FragmentOf(span) == Fragment(span.x, span.y, span.text[a..b])
  {
    hide Strip, ContentOf, IsSpace, IsBreakChar, IsLine, Readable, Bare;
    i, j := ContentMeans(span);
    ReadableMeans(span, i, j);
    var c, d := StripMeans(span.text[i..j]);
    a, b := i + c, i + d;
    SliceOfSlice(span.text, i, j, c, d);
    BareWithin(span.text, i, j, c, d);
    BareMeans(span.text, a, b);
  }

  lemma SliceOfSlice(s: string, i: nat, j: nat, c: nat, d: nat)
    requires i <= j <= |s| && Bare(s[i..j], c, d)
    ensures c <= d <= j - i && s[i..j][c..d] == s[i + c..i + d]
  {
    var left, right := s[i..j][c..d], s[i + c..i + d];
    assert |left| == |right| && forall k :: 0 <= k < |left| ==> left[k] == s[i + c + k] == right[k];
  }

  // What is bare between the line breaks is bare in the whole text.
  lemma BareWithin(s: string, i: nat, j: nat, c: nat, d: nat)
    requires Trimmed(s, i, j) && Bare(s[i..j], c, d)
    ensures Bare(s, i + c, i + d)
  {
    hide IsSpace, IsBreakChar;
    var content := s[i..j];
    assert forall k :: i <= k < j ==> s[k] == content[k - i];
    forall k | 0 <= k < |s| && !(i + c <= k < i + d) ensures IsSpace(s[k]) {
      if !(i <= k < j) {
        BreakIsSpace(s[k]);
      } else {
        assert s[k] == content[k - i];
      }
    }
  }

  lemma BareMeans(s: string, a: nat, b: nat)
    requires Bare(s, a, b)
    ensures a <= b <= |s| && (a == b <==> forall k :: 0 <= k < |s| ==> IsSpace(s[k]))
  {
    hide IsSpace;
  }

  // The places of the texts of which this fragment is made.
  function Origins(spans: seq<Span>, f: Fragment): set<nat> {
    set i: nat | i < |spans| && !BlankSpan(spans[i]) && FragmentOf(spans[i]) == f
  }

  // Every text that is not blank gives one fragment, and no fragment comes from elsewhere.
  lemma {:induction false} FragmentsCounted(spans: seq<Span>, f: Fragment)
    ensures multiset(FragmentsOf(spans))[f] == |Origins(spans, f)|
  {
    hide BlankSpan, FragmentOf;
    if spans == [] {
      assert Origins(spans, f) == {};
    } else {
      var init, last := spans[..|spans| - 1], spans[|spans| - 1];
      FragmentsCounted(init, f);
      assert spans == init + [last];
      OneMoreOrigin(init, last, f);
      hide Origins;
    }
  }

  lemma OneMoreOrigin(spans: seq<Span>, last: Span, f: Fragment)
    ensures |Origins(spans + [last], f)|
      == |Origins(spans, f)| + if !BlankSpan(last) && FragmentOf(last) == f then 1 else 0
  {
    hide BlankSpan, FragmentOf;
    var more := spans + [last];
    assert forall i :: 0 <= i < |spans| ==> more[i] == spans[i];
    assert Origins(more, f)
      == Origins(spans, f) + if !BlankSpan(last) && FragmentOf(last) == f then {|spans|} else {};
  }
}
