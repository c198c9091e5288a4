/**
  `process_file`: one pass over the lines of a file that keeps the first
  shape of greatest area and the first shape of greatest perimeter, and
  counts the lines read and the shapes parsed.
 */
module Process {
  import opened Optional
  import opened Shapes
  import opened Text
  import opened Parser

  /** The file: its lines, or the failure of `open` (handled by the outer `except`). */
  datatype Source = Unreadable | Lines(lines: seq<string>)

  /** A measure the scan maximises: area or perimeter. */
  type Scorer = Shape -> real

  function AreaOf(m: Math): Scorer {
    s => Area(s, m)
  }

  function PerimeterOf(m: Math): Scorer {
    s => Perimeter(s, m)
  }

  /** A running maximum: `float('-inf')` before any shape, a number after. */
  datatype Bound = NegInf | Finite(value: real)

  /** The shape holding a running maximum and that maximum. */
  datatype Champion = Champion(shape: Option<Shape>, best: Bound)

  /** What `process_file` returns (the two shapes) and what it prints (the two counts). */
  datatype Report = Report(maxAreaShape: Option<Shape>, maxPerimeterShape: Option<Shape>, total: nat, valid: nat)

  /** The variables of the loop; `halted` records that an exception ended it. */
  datatype State = State(total: nat, valid: nat, halted: bool, byArea: Champion, byPerimeter: Champion)

  /** `x > max` where `max` may still be `float('-inf')`. */
  predicate Exceeds(x: real, b: Bound) {
    b.NegInf? || x > b.value
  }

  /** One comparison of the loop: a strictly greater score takes over, a tie does not. */
  function Challenge(c: Champion, s: Shape, score: Scorer): (r: Champion)
    ensures r.best.Finite?
    ensures r == c || r == Champion(Some(s), Finite(score(s)))
    ensures c.best.NegInf? ==> r == Champion(Some(s), Finite(score(s)))
    ensures c.best.Finite? ==> r.best.value == if score(s) > c.best.value then score(s) else c.best.value
    ensures c.best.Finite? && score(s) <= c.best.value ==> r == c
  {
    var v := score(s);
    if Exceeds(v, c.best) then Champion(Some(s), Finite(v)) else c
  }

  /** The champion after the shapes `xs`, offered in order. */
  function ChampionOf(xs: seq<Shape>, score: Scorer): Champion {
    if xs == [] then Champion(None, NegInf)
    else Challenge(ChampionOf(xs[..|xs| - 1], score), xs[|xs| - 1], score)
  }

  /** `xs[k]` has the greatest score of `xs` and no earlier shape reaches it. */
  ghost predicate FirstMax(xs: seq<Shape>, k: int, score: Scorer)
    requires 0 <= k < |xs|
  {
    (forall j :: 0 <= j < |xs| ==> score(xs[j]) <= score(xs[k])) &&
    (forall j :: 0 <= j < k ==> score(xs[j]) < score(xs[k]))
  }

  /** The running maximum keeps the first shape of greatest score, with that
      score as its bound; it holds no shape, and the bound -inf, exactly when
      no shape was offered. */
  lemma {:induction false} ChampionIsFirstMax(xs: seq<Shape>, score: Scorer)
    ensures ChampionOf(xs, score).shape.None? <==> xs == []
    ensures ChampionOf(xs, score).shape.None? ==> ChampionOf(xs, score).best == NegInf
    ensures ChampionOf(xs, score).shape.Some? ==>
      var s := ChampionOf(xs, score).shape.value;
      ChampionOf(xs, score).best == Finite(score(s)) &&
      exists k :: 0 <= k < |xs| && xs[k] == s && FirstMax(xs, k, score)
  {
    if xs != [] {
      var init, x := xs[..|xs| - 1], xs[|xs| - 1];
      ChampionIsFirstMax(init, score);
      var c0 := ChampionOf(init, score);
      var v := score(x);
      if Exceeds(v, c0.best) {
        assert FirstMax(xs, |xs| - 1, score) by {
          if c0.shape.Some? {
            var k :| 0 <= k < |init| && init[k] == c0.shape.value && FirstMax(init, k, score);
            forall j | 0 <= j < |xs| - 1 ensures score(xs[j]) < v {
              assert xs[j] == init[j];
            }
          }
        }
      } else {
        var k :| 0 <= k < |init| && init[k] == c0.shape.value && FirstMax(init, k, score);
        assert xs[k] == init[k];
        assert FirstMax(xs, k, score) by {
          forall j | 0 <= j < |xs| ensures score(xs[j]) <= score(xs[k]) {
            if j < |init| {
              assert xs[j] == init[j];
            }
          }
          forall j | 0 <= j < k ensures score(xs[j]) < score(xs[k]) {
            assert xs[j] == init[j];
          }
        }
      }
    }
  }

  const Start := State(0, 0, false, Champion(None, NegInf), Champion(None, NegInf))

  /** One iteration of `for line in f`, given what `parse_shape` did with the
      line: count the line, and offer a parsed shape to both running maxima;
      a parse error ends the scan. */
  function Step(st: State, o: Outcome, area: Scorer, perimeter: Scorer): (r: State)
    ensures r.total == st.total + 1
    ensures r.valid == if o.Found? then st.valid + 1 else st.valid
    ensures r.halted <==> st.halted || o.ParseError?
    ensures o.Found? ==> r.byArea.best.Finite? && r.byPerimeter.best.Finite?
    ensures !o.Found? ==> r.byArea == st.byArea && r.byPerimeter == st.byPerimeter
  {
    var counted := st.(total := st.total + 1);
    match o
    case ParseError(_) => counted.(halted := true)
    case NoShape => counted
    case Found(s) =>
      counted.(valid := st.valid + 1,
               byArea := Challenge(st.byArea, s, area),
               byPerimeter := Challenge(st.byPerimeter, s, perimeter))
  }

  /** The loop state after the lines whose parse outcomes are `outs`; nothing
      is read once it has halted. */
  function Scan(outs: seq<Outcome>, area: Scorer, perimeter: Scorer): (st: State)
    ensures st.valid <= st.total <= |outs|
  {
    if outs == [] then Start
    else
      var prev := Scan(outs[..|outs| - 1], area, perimeter);
      if prev.halted then prev else Step(prev, outs[|outs| - 1], area, perimeter)
  }

  /** `parse_shape` with `float()` fixed, as a function of the line alone. */
  function ParserOf(toFloat: FloatParser): string -> Outcome {
    line => ParseShape(line, toFloat)
  }

  /** The outcomes of parsing each line, one per line, in order. */
  function Outcomes(lines: seq<string>, parse: string -> Outcome): (outs: seq<Outcome>)
    ensures |outs| == |lines|
    ensures forall k {:trigger parse(lines[k])} :: 0 <= k < |lines| ==> outs[k] == parse(lines[k])
  {
    if lines == [] then []
    else
      var rest := Outcomes(lines[1..], parse);
      assert forall k :: 1 <= k < |lines| ==> parse(lines[1..][k - 1]) == parse(lines[k]);
      [parse(lines[0])] + rest
  }

  /** The outcome of each line of a file, each the outcome of `parse_shape`
      on that line. */
  lemma ParseEach(lines: seq<string>, toFloat: FloatParser) returns (outs: seq<Outcome>)
    ensures |outs| == |lines|
    ensures forall k {:trigger ParseShape(lines[k], toFloat)} :: 0 <= k < |lines| ==> outs[k] == ParseShape(lines[k], toFloat)
  {
    outs := Outcomes(lines, ParserOf(toFloat));
    OutcomesOfParser(lines, toFloat, outs);
  }

  /** The outcomes of a file's lines are determined by `parse_shape`. */
  lemma OutcomesOfParser(lines: seq<string>, toFloat: FloatParser, outs: seq<Outcome>)
    requires |outs| == |lines|
    ensures outs == Outcomes(lines, ParserOf(toFloat)) <==>
      forall k {:trigger ParseShape(lines[k], toFloat)} :: 0 <= k < |lines| ==> outs[k] == ParseShape(lines[k], toFloat)
  {
    var parse := ParserOf(toFloat);
    var expected := Outcomes(lines, parse);
    forall k | 0 <= k < |lines| ensures expected[k] == ParseShape(lines[k], toFloat) {
      assert expected[k] == parse(lines[k]);
    }
  }

  /** The outcomes of the first lines of a file are the first outcomes. */
  lemma OutcomesPrefix(lines: seq<string>, i: nat, parse: string -> Outcome)
    requires i <= |lines|
    ensures Outcomes(lines[..i], parse) == Outcomes(lines, parse)[..i]
  {
    var pre, outs := Outcomes(lines[..i], parse), Outcomes(lines, parse);
    forall k | 0 <= k < i ensures pre[k] == outs[k] {
      assert parse(lines[..i][k]) == parse(lines[k]);
    }
  }

  /** What `process_file` returns and prints for a file. */
  function Expected(file: Source, toFloat: FloatParser, m: Math): Report {
    match file
    case Unreadable => Report(None, None, 0, 0)
    case Lines(lines) =>
      var st := Scan(Outcomes(lines, ParserOf(toFloat)), AreaOf(m), PerimeterOf(m));
      Report(st.byArea.shape, st.byPerimeter.shape, st.total, st.valid)
  }

  /** The shapes among the outcomes, in order. */
  function FoundShapes(outs: seq<Outcome>): (xs: seq<Shape>)
    ensures |xs| <= |outs|
    ensures forall k :: 0 <= k < |xs| ==> Found(xs[k]) in outs
  {
    if outs == [] then []
    else
      var xs := FoundShapes(outs[..|outs| - 1]);
      assert forall k :: 0 <= k < |xs| ==> Found(xs[k]) in outs by {
        forall k | 0 <= k < |xs| ensures Found(xs[k]) in outs {
          var j :| 0 <= j < |outs| - 1 && outs[..|outs| - 1][j] == Found(xs[k]);
          assert outs[j] == Found(xs[k]);
        }
      }
      match outs[|outs| - 1]
      case Found(s) => xs + [s]
      case _ => xs
  }

  /** Once the scan has halted, later lines change nothing. */
  lemma {:induction false} HaltedScanIsFinal(outs: seq<Outcome>, j: nat, area: Scorer, perimeter: Scorer)
    requires j <= |outs| && Scan(outs[..j], area, perimeter).halted
    ensures Scan(outs, area, perimeter) == Scan(outs[..j], area, perimeter)
  {
    if j < |outs| {
      var init := outs[..|outs| - 1];
      assert init[..j] == outs[..j];
      HaltedScanIsFinal(init, j, area, perimeter);
    } else {
      assert outs[..j] == outs;
    }
  }

  /** The scan of one more outcome: a step from the scan before it, unless
      that one had halted. */
  lemma ScanExtend(outs: seq<Outcome>, i: nat, area: Scorer, perimeter: Scorer)
    requires i < |outs|
    ensures var prev := Scan(outs[..i], area, perimeter);
      Scan(outs[..i + 1], area, perimeter) == if prev.halted then prev else Step(prev, outs[i], area, perimeter)
  {
    assert outs[..i + 1][..i] == outs[..i];
  }

  /** Where the scan stops: it halts exactly when some line raises, after
      reading up to and including the first such line, and reads every line
      otherwise. */
  lemma {:induction false} ScanStops(outs: seq<Outcome>, area: Scorer, perimeter: Scorer)
    ensures var st := Scan(outs, area, perimeter);
      && (st.halted <==> exists i :: 0 <= i < |outs| && outs[i].ParseError?)
      && (!st.halted ==> st.total == |outs|)
      && (st.halted ==> 0 < st.total && outs[st.total - 1].ParseError?)
      && (forall i :: 0 <= i < st.total - 1 ==> !outs[i].ParseError?)
  {
    if outs != [] {
      var init := outs[..|outs| - 1];
      ScanStops(init, area, perimeter);
      assert forall i :: 0 <= i < |init| ==> init[i] == outs[i];
    }
  }

  /** What the scan has seen: its counts are the lines read and the shapes
      parsed from them, and its maxima are the champions of those shapes. */
  lemma {:induction false} ScanTallies(outs: seq<Outcome>, area: Scorer, perimeter: Scorer)
    ensures var st := Scan(outs, area, perimeter);
      var xs := FoundShapes(outs[..st.total]);
      && st.valid == |xs|
      && st.byArea == ChampionOf(xs, area)
      && st.byPerimeter == ChampionOf(xs, perimeter)
  {
    if outs == [] {
      assert outs[..0] == [];
    } else {
      var init, o := outs[..|outs| - 1], outs[|outs| - 1];
      ScanTallies(init, area, perimeter);
      var st0 := Scan(init, area, perimeter);
      if st0.halted {
        assert outs[..st0.total] == init[..st0.total];
      } else {
        ScanStops(init, area, perimeter);
        assert init[..st0.total] == init;
        var xs0 := FoundShapes(init);
        var st := Step(st0, o, area, perimeter);
        assert Scan(outs, area, perimeter) == st;
        assert outs[..st.total] == outs;
        match o
        case Found(s) =>
          assert FoundShapes(outs) == xs0 + [s];
          assert (xs0 + [s])[..|xs0|] == xs0;
          assert st.byArea == ChampionOf(xs0 + [s], area);
          assert st.byPerimeter == ChampionOf(xs0 + [s], perimeter);
        case NoShape =>
          assert FoundShapes(outs) == xs0;
        case ParseError(_) =>
          assert FoundShapes(outs) == xs0;
      }
    }
  }

  /** A line that raises ends the scan: when outcome `i` is the first error,
      the scan is the scan of the outcomes before it, with line `i` counted. */
  lemma ScanStopsAtError(outs: seq<Outcome>, i: nat, area: Scorer, perimeter: Scorer)
    requires i < |outs| && outs[i].ParseError?
    requires forall j :: 0 <= j < i ==> !outs[j].ParseError?
    ensures Scan(outs, area, perimeter) == Scan(outs[..i], area, perimeter).(total := i + 1, halted := true)
  {
    ScanStops(outs[..i], area, perimeter);
    ScanExtend(outs, i, area, perimeter);
    HaltedScanIsFinal(outs, i + 1, area, perimeter);
  }

  /** `process_file` with the file given as its lines. The loop does what the
      scan of those lines' parse outcomes describes. */
  method ProcessFile(file: Source, toFloat: FloatParser, m: Math)
    returns (maxAreaShape: Option<Shape>, maxPerimeterShape: Option<Shape>, shapesCount: nat, validShapesCount: nat)
    ensures var r := Expected(file, toFloat, m);
      && maxAreaShape == r.maxAreaShape && maxPerimeterShape == r.maxPerimeterShape
      && shapesCount == r.total && validShapesCount == r.valid
  {
    maxAreaShape := None;
    var maxArea := NegInf;
    maxPerimeterShape := None;
    var maxPerimeter := NegInf;
    shapesCount := 0;
    validShapesCount := 0;
    if file.Lines? {
      var lines := file.lines;
      ghost var outs := ParseEach(lines, toFloat);
      ghost var byArea, byPerimeter := AreaOf(m), PerimeterOf(m);
      var i := 0;
      while i < |lines|
        invariant 0 <= i <= |lines|
        invariant Scan(outs[..i], byArea, byPerimeter).total == shapesCount
        invariant Scan(outs[..i], byArea, byPerimeter).valid == validShapesCount
        invariant !Scan(outs[..i], byArea, byPerimeter).halted
        invariant Scan(outs[..i], byArea, byPerimeter).byArea == Champion(maxAreaShape, maxArea)
        invariant Scan(outs[..i], byArea, byPerimeter).byPerimeter == Champion(maxPerimeterShape, maxPerimeter)
      {
        assert outs[..i + 1][..i] == outs[..i];
        shapesCount := shapesCount + 1;
        var shape := ParseShape(lines[i], toFloat);
        if shape.ParseError? {
          // the exception leaves the loop for the outer handler
          HaltedScanIsFinal(outs, i + 1, byArea, byPerimeter);
          break;
        }
        if shape.Found? {
          validShapesCount := validShapesCount + 1;
          var area := Area(shape.shape, m);
          var perimeter := Perimeter(shape.shape, m);
          if Exceeds(area, maxArea) {
            maxArea := Finite(area);
            maxAreaShape := Some(shape.shape);
          }
          if Exceeds(perimeter, maxPerimeter) {
            maxPerimeter := Finite(perimeter);
            maxPerimeterShape := Some(shape.shape);
          }
        }
        i := i + 1;
      }
      assert i == |lines| ==> outs[..i] == outs;
      OutcomesOfParser(lines, toFloat, outs);
      ghost var st := Scan(outs, byArea, byPerimeter);
      assert st.total == shapesCount && st.valid == validShapesCount;
      assert st.byArea == Champion(maxAreaShape, maxArea);
      assert st.byPerimeter == Champion(maxPerimeterShape, maxPerimeter);
    }
  }

  /** The result of `process_file` on a readable file: valid <= total <= the
      number of lines; each shape is `None` exactly when no shape was parsed
      before the scan stopped, and otherwise is the first shape of greatest
      area (resp. perimeter) among those parsed, each parsed shape valid. */
  lemma ProcessFileMeaning(lines: seq<string>, toFloat: FloatParser, m: Math)
    ensures var r := Expected(Lines(lines), toFloat, m);
      var xs := FoundShapes(Outcomes(lines, ParserOf(toFloat))[..r.total]);
      && r.valid == |xs| && r.valid <= r.total <= |lines|
      && (forall k :: 0 <= k < |xs| ==> Valid(xs[k]))
      && (r.maxAreaShape.None? <==> xs == [])
      && (r.maxPerimeterShape.None? <==> xs == [])
      && (r.maxAreaShape.Some? ==>
            exists k :: 0 <= k < |xs| && xs[k] == r.maxAreaShape.value && FirstMax(xs, k, AreaOf(m)))
      && (r.maxPerimeterShape.Some? ==>
            exists k :: 0 <= k < |xs| && xs[k] == r.maxPerimeterShape.value && FirstMax(xs, k, PerimeterOf(m)))
  {
    var parse := ParserOf(toFloat);
    var outs := Outcomes(lines, parse);
    ScanTallies(outs, AreaOf(m), PerimeterOf(m));
    var st := Scan(outs, AreaOf(m), PerimeterOf(m));
    var xs := FoundShapes(outs[..st.total]);
    forall k | 0 <= k < |xs| ensures Valid(xs[k]) {
      var j :| 0 <= j < st.total && outs[..st.total][j] == Found(xs[k]);
      assert outs[j] == parse(lines[j]) == ParseShape(lines[j], toFloat);
    }
    ChampionIsFirstMax(xs, AreaOf(m));
    ChampionIsFirstMax(xs, PerimeterOf(m));
  }

  /** A line that raises ends the scan: when line `i` is the first that raises,
      the result is what the lines before it gave, with line `i` counted. */
  lemma ParseErrorKeepsEarlierMaxima(lines: seq<string>, i: nat, toFloat: FloatParser, m: Math)
    requires i < |lines| && ParseShape(lines[i], toFloat).ParseError?
    requires forall j :: 0 <= j < i ==> !ParseShape(lines[j], toFloat).ParseError?
    ensures Expected(Lines(lines), toFloat, m) == Expected(Lines(lines[..i]), toFloat, m).(total := i + 1)
  {
    var parse := ParserOf(toFloat);
    var outs := Outcomes(lines, parse);
    OutcomesPrefix(lines, i, parse);
    OutcomesOfParser(lines, toFloat, outs);
    forall j | 0 <= j < i ensures !outs[j].ParseError? {
      assert outs[j] == ParseShape(lines[j], toFloat);
    }
    assert outs[i] == ParseShape(lines[i], toFloat);
    ScanStopsAtError(outs, i, AreaOf(m), PerimeterOf(m));
  }

  /** `float()` on the numerals of the example file below. */
  function ExampleFloat(token: string): Option<real> {
    if token == "1" then Some(1.0)
    else if token == "3" then Some(3.0)
    else if token == "4" then Some(4.0)
    else if token == "5" then Some(5.0)
    else None
  }

  /** A file with a rectangle, a blank line, a circle whose radius is not a
      number, and a triangle that breaks the triangle inequality, each line
      written as its tokens separated by single spaces. */
  const ExampleLines: seq<string> := [
    Join(["Rectangle", "3", "4"]) + "\n",
    "\n",
    Join(["Circle", "abc"]) + "\n",
    Join(["Triangle", "1", "1", "5"]) + "\n"
  ]

  /** The first line of that file is the rectangle it writes out. */
  lemma ExampleRectangleLine()
    ensures ParseShape(ExampleLines[0], ExampleFloat) == Found(Rectangle(3.0, 4.0))
  {
    var rect := Rectangle(3.0, 4.0);
    assert [TagOf(rect)] + ["3", "4"] == ["Rectangle", "3", "4"];
    assert ExampleLines[0] == "" + Join([TagOf(rect)] + ["3", "4"]) + "\n";
    ParseShapeOfWritten(rect, ["3", "4"], "", "\n", ExampleFloat);
  }

  /** The circle line of that file raises on its radius. */
  lemma ExampleCircleLine()
    ensures ParseShape(ExampleLines[2], ExampleFloat).ParseError?
  {
    var circle := ["Circle", "abc"];
    assert ExampleLines[2] == "" + Join(circle) + "\n";
    assert Token("abc");
    SplitPaddedJoin("", circle, "\n");
    assert circle[1..] == ["abc"];
  }

  /** What `parse_shape` makes of the first three lines of that file. */
  lemma ExampleOutcomes()
    ensures ParseShape(ExampleLines[0], ExampleFloat) == Found(Rectangle(3.0, 4.0))
    ensures ParseShape(ExampleLines[1], ExampleFloat) == NoShape
    ensures ParseShape(ExampleLines[2], ExampleFloat).ParseError?
  {
    ExampleRectangleLine();
    assert Blank(ExampleLines[1]);
    ExampleCircleLine();
  }

  /** The scan of a shape followed by a line that is no shape. */
  lemma ScanOfShapeThenNone(outs: seq<Outcome>, s: Shape, area: Scorer, perimeter: Scorer)
    requires outs == [Found(s), NoShape]
    ensures Scan(outs, area, perimeter) ==
      State(2, 1, false, Champion(Some(s), Finite(area(s))), Champion(Some(s), Finite(perimeter(s))))
  {
    assert outs[..1][..0] == [];
    assert Scan(outs[..1], area, perimeter) == Step(Start, Found(s), area, perimeter);
  }

  /** A file whose first line is a shape, whose second is not, and whose
      third raises: the scan reports that shape for both maxima and counts
      three lines, whatever follows. */
  lemma ShapeThenErrorStops(outs: seq<Outcome>, s: Shape, area: Scorer, perimeter: Scorer)
    requires 3 <= |outs| && outs[0] == Found(s) && outs[1] == NoShape && outs[2].ParseError?
    ensures Scan(outs, area, perimeter) ==
      State(3, 1, true, Champion(Some(s), Finite(area(s))), Champion(Some(s), Finite(perimeter(s))))
  {
    ScanOfShapeThenNone(outs[..2], s, area, perimeter);
    ScanStopsAtError(outs, 2, area, perimeter);
  }

  /** On that file the bad radius raises out of `parse_shape` and ends the
      scan: three lines are counted, not four, the triangle is never read, and
      the rectangle wins both maxima. */
  lemma ExampleFileStopsAtBadNumber(m: Math)
    ensures Expected(Lines(ExampleLines), ExampleFloat, m) ==
      Report(Some(Rectangle(3.0, 4.0)), Some(Rectangle(3.0, 4.0)), 3, 1)
  {
    var lines := ExampleLines;
    ExampleOutcomes();
    var outs := Outcomes(lines, ParserOf(ExampleFloat));
    OutcomesOfParser(lines, ExampleFloat, outs);
    assert outs[0] == ParseShape(lines[0], ExampleFloat);
    assert outs[1] == ParseShape(lines[1], ExampleFloat);
    assert outs[2] == ParseShape(lines[2], ExampleFloat);
    ShapeThenErrorStops(outs, Rectangle(3.0, 4.0), AreaOf(m), PerimeterOf(m));
  }
}
