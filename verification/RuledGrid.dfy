/** The grid a page's strokes draw: which stroke lists are accepted as a fully ruled rectangle,
    and the line positions read from them. */
module RuledGrid {
  import opened Options
  import opened RuledTable

  datatype Segment = Segment(x1: real, y1: real, x2: real, y2: real)

  // A rule at a position along one axis, reaching from `low` to `high` along the other.
  datatype Rule = Rule(at: real, low: real, high: real)

  function Abs(r: real): real {
    if r < 0.0 then -r else r
  }

  function Smaller(a: real, b: real): real {
    if a <= b then a else b
  }

  function Larger(a: real, b: real): real {
    if a <= b then b else a
  }

  // round(x), halves to even.
  function HalfEven(x: real): int {
    var f := x.Floor;
    var rest := x - f as real;
    if rest < 0.5 || (rest == 0.5 && f % 2 == 0) then f else f + 1
  }

  // round(r, 2)
  function Round2(r: real): real {
    HalfEven(r * 100.0) as real / 100.0
  }

  predicate IsVertical(s: Segment) {
    Abs(s.x1 - s.x2) < 0.01 && Abs(s.y1 - s.y2) >= 10.0
  }

  predicate IsHorizontal(s: Segment) {
    Abs(s.y1 - s.y2) < 0.01 && Abs(s.x1 - s.x2) >= 10.0
  }

  // A stroke too short to be anything.
  predicate IsDot(s: Segment) {
    Abs(s.x1 - s.x2) < 0.01 && Abs(s.y1 - s.y2) < 0.01
  }

  function VerticalRule(s: Segment): Rule {
    Rule(Round2(s.x1), Smaller(s.y1, s.y2), Larger(s.y1, s.y2))
  }

  function HorizontalRule(s: Segment): Rule {
    Rule(Round2(s.y1), Smaller(s.x1, s.x2), Larger(s.x1, s.x2))
  }

  function Verticals(segments: set<Segment>): set<Rule> {
    set s | s in segments && IsVertical(s) :: VerticalRule(s)
  }

  function Horizontals(segments: set<Segment>): set<Rule> {
    set s | s in segments && IsHorizontal(s) :: HorizontalRule(s)
  }

  function Positions(rules: set<Rule>): set<real> {
    set r | r in rules :: r.at
  }

  predicate Increasing(lines: seq<real>) {
    forall i, k :: 0 <= i < k < |lines| ==> lines[i] < lines[k]
  }

  ghost predicate Sorts(lines: seq<real>, positions: set<real>) {
    Increasing(lines) && forall v :: v in positions <==> v in lines
  }

  // A set has only one sorted list.
  lemma {:induction false} SortedOnce(a: seq<real>, b: seq<real>, positions: set<real>)
    requires Sorts(a, positions) && Sorts(b, positions)
    ensures a == b
    decreases |a|
  {
    BothEmpty(a, b, positions);
    if a != [] {
      assert a[0] in b && b[0] in a && b != [];
      var i :| 0 <= i < |b| && b[i] == a[0];
      var k :| 0 <= k < |a| && a[k] == b[0];
      assert a[0] == b[0];
      TailSorts(a, positions);
      TailSorts(b, positions);
      SortedOnce(a[1..], b[1..], positions - {a[0]});
      assert a == [a[0]] + a[1..] && b == [b[0]] + b[1..];
    }
  }

  lemma BothEmpty(a: seq<real>, b: seq<real>, positions: set<real>)
    requires Sorts(a, positions) && Sorts(b, positions)
    ensures a == [] <==> b == []
  {
    if a != [] {
      assert a[0] in a;
    }
    if b != [] {
      assert b[0] in b;
    }
  }

  lemma TailSorts(a: seq<real>, positions: set<real>)
    requires Sorts(a, positions) && a != []
    ensures Sorts(a[1..], positions - {a[0]})
  {
    forall v ensures v in positions - {a[0]} <==> v in a[1..] {
      if v in a && v != a[0] {
        var i :| 0 <= i < |a| && a[i] == v;
        assert a[1..][i - 1] == v;
      }
      if v in a[1..] {
        var i :| 0 <= i < |a[1..]| && a[1..][i] == v;
        assert a[i + 1] == v;
      }
    }
  }

  predicate SpansAt(rules: set<Rule>, v: real, low: real, high: real) {
    exists r :: r in rules && r.at == v && r.low <= low + EPS && r.high >= high - EPS
  }

  predicate WithinFrame(rules: set<Rule>, low: real, high: real) {
    forall r :: r in rules ==> low - EPS <= r.low && r.high <= high + EPS
  }

  predicate Steps(lines: seq<real>) {
    forall i :: 0 <= i && i + 1 < |lines| ==> 12.0 <= lines[i + 1] - lines[i]
  }

  // The drawing is a fully ruled grid with these lines and nothing else.
  ghost predicate IsGrid(segments: set<Segment>, xs: seq<real>, ys: seq<real>) {
    && (forall s :: s in segments ==> IsVertical(s) || IsHorizontal(s) || IsDot(s))
    && Sorts(xs, Positions(Verticals(segments))) && Sorts(ys, Positions(Horizontals(segments)))
    && 3 <= |xs| <= MAX_COLUMNS + 1 && 3 <= |ys| <= MAX_ROWS + 1
    && Steps(xs) && Steps(ys)
    && (forall i :: 0 <= i < |xs| ==> SpansAt(Verticals(segments), xs[i], ys[0], ys[|ys| - 1]))
    && (forall i :: 0 <= i < |ys| ==> SpansAt(Horizontals(segments), ys[i], xs[0], xs[|xs| - 1]))
    && WithinFrame(Verticals(segments), ys[0], ys[|ys| - 1]) && WithinFrame(Horizontals(segments), xs[0], xs[|xs| - 1])
  }

  // The strokes fix the grid whatever order they are drawn in, and its lines are far enough
  // apart for every point to lie in at most one cell.
  lemma GridIsUnique(segments: set<Segment>, xs: seq<real>, ys: seq<real>, us: seq<real>, vs: seq<real>)
    requires IsGrid(segments, xs, ys) && IsGrid(segments, us, vs)
    ensures xs == us && ys == vs && Spaced(xs) && Spaced(ys)
  {
    hide SpansAt, WithinFrame, Positions, Verticals, Horizontals;
    SortedOnce(xs, us, Positions(Verticals(segments)));
    SortedOnce(ys, vs, Positions(Horizontals(segments)));
    StepsSpace(xs);
    StepsSpace(ys);
  }

  lemma StepsSpace(lines: seq<real>)
    requires Steps(lines)
    ensures Spaced(lines)
  {
    forall i, k | 0 <= i < k < |lines| ensures lines[i] + 12.0 <= lines[k] {
      StepsApart(lines, i, k);
    }
  }

  lemma {:induction false} StepsApart(lines: seq<real>, i: nat, k: nat)
    requires Steps(lines) && i < k < |lines|
    ensures lines[i] + 12.0 <= lines[k]
    decreases k
  {
    assert 12.0 <= lines[k - 1 + 1] - lines[k - 1];
    if i < k - 1 {
      StepsApart(lines, i, k - 1);
    }
  }

  // ---- the recognition

  function AsSet(segments: seq<Segment>): (r: set<Segment>)
    ensures forall s :: s in r <==> s in segments
  {
    set i | 0 <= i < |segments| :: segments[i]
  }

  // Every stroke is a rule, or too short to count.
  method Classify(segments: seq<Segment>) returns (r: Option<(set<Rule>, set<Rule>)>)
    ensures r.Some? <==> forall s :: s in AsSet(segments) ==> IsVertical(s) || IsHorizontal(s) || IsDot(s)
    ensures r.Some? ==> r.value == (Verticals(AsSet(segments)), Horizontals(AsSet(segments)))
  {
    var vertical, horizontal := {}, {};
    for i := 0 to |segments|
      invariant vertical == Verticals(AsSet(segments[..i])) && horizontal == Horizontals(AsSet(segments[..i]))
      invariant forall s :: s in AsSet(segments[..i]) ==> IsVertical(s) || IsHorizontal(s) || IsDot(s)
    {
      var s := segments[i];
      assert s in AsSet(segments);
      assert AsSet(segments[..i + 1]) == AsSet(segments[..i]) + {s};
      if IsVertical(s) {
        vertical := vertical + {VerticalRule(s)};
      } else if IsHorizontal(s) {
        horizontal := horizontal + {HorizontalRule(s)};
      } else if Abs(s.x1 - s.x2) >= 0.01 || Abs(s.y1 - s.y2) >= 0.01 {
        return None;
      }
    }
    assert segments[..|segments|] == segments;
    r := Some((vertical, horizontal));
  }

  method Sorted(rules: set<Rule>) returns (lines: seq<real>)
    ensures Sorts(lines, Positions(rules))
  {
    lines := [];
    var rest := rules;
    while rest != {}
      invariant rest <= rules && Sorts(lines, Positions(rules - rest))
      decreases |rest|
    {
      var r :| r in rest;
      assert rules - (rest - {r}) == rules - rest + {r};
      assert Positions(rules - rest + {r}) == Positions(rules - rest) + {r.at};
      if r.at !in lines {
        lines := Insert(lines, r.at, Positions(rules - rest));
      } else {
        assert Positions(rules - rest) + {r.at} == Positions(rules - rest);
      }
      rest := rest - {r};
    }
    assert rules - rest == rules;
  }

  method Insert(lines: seq<real>, v: real, positions: set<real>) returns (r: seq<real>)
    requires v !in positions && Sorts(lines, positions)
    ensures Sorts(r, positions + {v})
  {
    var i := 0;
    while i < |lines| && lines[i] < v
      invariant 0 <= i <= |lines| && forall k :: 0 <= k < i ==> lines[k] < v
    {
      i := i + 1;
    }
    InsertSorts(lines, i, v, positions);
    r := lines[..i] + [v] + lines[i..];
  }

  lemma InsertSorts(lines: seq<real>, i: nat, v: real, positions: set<real>)
    requires v !in positions && Sorts(lines, positions) && i <= |lines|
    requires forall k :: 0 <= k < i ==> lines[k] < v
    requires i < |lines| ==> v <= lines[i]
    ensures Sorts(lines[..i] + [v] + lines[i..], positions + {v})
  {
    var r := lines[..i] + [v] + lines[i..];
    if i < |lines| {
      assert lines[i] in lines;
    }
    assert forall k :: 0 <= k < |r| ==> r[k] == if k < i then lines[k] else if k == i then v else lines[k - 1];
    assert Increasing(r);
    assert lines == lines[..i] + lines[i..];
    assert forall w :: w in r <==> w in lines[..i] || w == v || w in lines[i..];
    assert forall w :: w in lines <==> w in lines[..i] || w in lines[i..];
  }

  method Recognise(segments: seq<Segment>) returns (grid: Option<(seq<real>, seq<real>)>)
    ensures grid.Some? <==> exists xs, ys :: IsGrid(AsSet(segments), xs, ys)
    ensures grid.Some? ==> IsGrid(AsSet(segments), grid.value.0, grid.value.1)
  {
    hide SpansAt, WithinFrame, Positions, Verticals, Horizontals, Sorts, IsVertical, IsHorizontal, IsDot, AsSet, Steps;
    var rules := Classify(segments);
    if rules.None? {
      return None;
    }
    var vertical, horizontal := rules.value.0, rules.value.1;
    var xs := Sorted(vertical);
    var ys := Sorted(horizontal);
    OnlyThese(AsSet(segments), xs, ys);
    if !(3 <= |xs| <= MAX_COLUMNS + 1) || !(3 <= |ys| <= MAX_ROWS + 1) {
      return None;
    }
    if !Steps(xs) || !Steps(ys) {
      return None;
    }
    if !(forall i :: 0 <= i < |xs| ==> SpansAt(vertical, xs[i], ys[0], ys[|ys| - 1])) {
      return None;
    }
    if !(forall i :: 0 <= i < |ys| ==> SpansAt(horizontal, ys[i], xs[0], xs[|xs| - 1])) {
      return None;
    }
    if !WithinFrame(vertical, ys[0], ys[|ys| - 1]) || !WithinFrame(horizontal, xs[0], xs[|xs| - 1]) {
      return None;
    }
    assert IsGrid(AsSet(segments), xs, ys);
    grid := Some((xs, ys));
  }

  // No other lines than the sorted positions can make the drawing a grid.
  lemma OnlyThese(segments: set<Segment>, xs: seq<real>, ys: seq<real>)
    requires Sorts(xs, Positions(Verticals(segments))) && Sorts(ys, Positions(Horizontals(segments)))
    ensures forall us, vs :: IsGrid(segments, us, vs) ==> us == xs && vs == ys
  {
    hide SpansAt, WithinFrame, Positions, Verticals, Horizontals, Sorts;
    forall us, vs | IsGrid(segments, us, vs) ensures us == xs && vs == ys {
      SortedOnce(us, xs, Positions(Verticals(segments)));
      SortedOnce(vs, ys, Positions(Horizontals(segments)));
    }
  }
}
