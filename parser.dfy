/**
  `parse_shape`: one input line to a shape. The line is split on whitespace;
  the first token names the shape and the rest are its parameters.
 */
module Parser {
  import opened Optional
  import opened Text
  import opened Shapes

  /** What `parse_shape` does with a line: returns a shape, returns `None`, or
      raises the `ValueError` of `float()` on a token that is not a number. */
  datatype Outcome = Found(shape: Shape) | NoShape | ParseError(token: string)

  /** Python's `float()` on one token, abstracted: the number it denotes, or
      `None` when it raises. */
  type FloatParser = string -> Option<real>

  predicate AllNumeric(tokens: seq<string>, toFloat: FloatParser) {
    forall i :: 0 <= i < |tokens| ==> toFloat(tokens[i]).Some?
  }

  datatype Conversion = Numbers(values: seq<real>) | NotANumber(token: string)

  /** `[float(p) for p in tokens]`: every value in order, or the first token
      that does not convert. */
  function ConvertAll(tokens: seq<string>, toFloat: FloatParser): (r: Conversion)
    ensures r.Numbers? <==> AllNumeric(tokens, toFloat)
    ensures r.Numbers? ==>
      |r.values| == |tokens| && forall i :: 0 <= i < |tokens| ==> toFloat(tokens[i]) == Some(r.values[i])
    ensures r.NotANumber? ==>
      (exists i :: 0 <= i < |tokens| && tokens[i] == r.token && toFloat(tokens[i]).None? && AllNumeric(tokens[..i], toFloat))
  {
    if tokens == [] then Numbers([])
    else match toFloat(tokens[0])
      case None =>
        assert tokens[..0] == [];
        NotANumber(tokens[0])
      case Some(x) =>
        var rest := ConvertAll(tokens[1..], toFloat);
        if rest.NotANumber? then
          ghost var i :| 0 <= i < |tokens[1..]| && tokens[1..][i] == rest.token &&
            toFloat(tokens[1..][i]).None? && AllNumeric(tokens[1..][..i], toFloat);
          assert tokens[i + 1] == rest.token;
          assert forall j :: 1 <= j < i + 1 ==> tokens[j] == tokens[1..][..i][j - 1];
          rest
        else
          Numbers([x] + rest.values)
  }

  /** The number of parameters each tag takes; `None` for a tag that names no shape. */
  function Arity(tag: string): Option<nat> {
    if tag == "Triangle" then Some(3)
    else if tag == "Rectangle" then Some(2)
    else if tag == "Trapeze" then Some(4)
    else if tag == "Parallelogram" then Some(3)
    else if tag == "Circle" then Some(1)
    else None
  }

  /** The arity table agrees with the shapes: a shape's tag takes exactly its
      parameters. */
  lemma ArityOfShape(s: Shape)
    ensures Arity(TagOf(s)) == Some(|ParamsOf(s)|)
  {
  }

  /** A constructor call in the `try`: a `ValueError` it raises becomes `None`. */
  function Catch(c: Construction): (r: Outcome)
    ensures !r.ParseError?
    ensures r.Found? <==> c.Built?
    ensures r.Found? ==> r.shape == c.shape
  {
    match c
    case Built(s) => Found(s)
    case ValueError(_) => NoShape
  }

  /** The `match` on the tag: the constructor of the named shape when the
      number of parameters is right, and no shape otherwise. */
  function Construct(tag: string, ps: seq<real>): (r: Outcome)
    ensures !r.ParseError?
    ensures r.Found? ==> Valid(r.shape) && TagOf(r.shape) == tag && ParamsOf(r.shape) == ps
  {
    if tag == "Triangle" then
      if |ps| == 3 then Catch(NewTriangle(ps[0], ps[1], ps[2])) else NoShape
    else if tag == "Rectangle" then
      if |ps| == 2 then Catch(NewRectangle(ps[0], ps[1])) else NoShape
    else if tag == "Trapeze" then
      if |ps| == 4 then Catch(NewTrapeze(ps[0], ps[1], ps[2], ps[3])) else NoShape
    else if tag == "Parallelogram" then
      if |ps| == 3 then Catch(NewParallelogram(ps[0], ps[1], ps[2])) else NoShape
    else if tag == "Circle" then
      if |ps| == 1 then Catch(NewCircle(ps[0])) else NoShape
    else NoShape
  }

  /** Every valid shape is built back from its own tag and parameters. */
  lemma ConstructComplete(s: Shape)
    requires Valid(s)
    ensures Construct(TagOf(s), ParamsOf(s)) == Found(s)
  {
  }

  /** The tokens name shape `s`: the tag of `s` followed by tokens that
      `float()` reads as the parameters of `s`, in order. */
  predicate Describes(parts: seq<string>, s: Shape, toFloat: FloatParser) {
    |parts| == |ParamsOf(s)| + 1 && parts[0] == TagOf(s) &&
    forall i :: 0 <= i < |ParamsOf(s)| ==> toFloat(parts[i + 1]) == Some(ParamsOf(s)[i])
  }

  /** `parse_shape` after the split: convert the parameters (outside the
      `try`, so a bad token escapes as an error), then dispatch on the tag. */
  function Dispatch(parts: seq<string>, toFloat: FloatParser): (r: Outcome)
    ensures parts == [] ==> r == NoShape
    ensures r.ParseError? <==> parts != [] && !AllNumeric(parts[1..], toFloat)
    ensures r.ParseError? ==> r.token in parts[1..] && toFloat(r.token).None?
    ensures r.Found? ==> Valid(r.shape) && Describes(parts, r.shape, toFloat)
  {
    if parts == [] then NoShape
    else
      match ConvertAll(parts[1..], toFloat)
      case NotANumber(token) => ParseError(token)
      case Numbers(params) => Construct(parts[0], params)
  }

  function ParseShape(line: string, toFloat: FloatParser): (r: Outcome)
    ensures Blank(line) ==> r == NoShape
    ensures r.ParseError? <==> Split(line) != [] && !AllNumeric(Split(line)[1..], toFloat)
    ensures r.Found? ==> Valid(r.shape) && Describes(Split(line), r.shape, toFloat)
  {
    SplitOfStrip(line);
    SplitEmptyIffBlank(line);
    Dispatch(Split(Strip(line)), toFloat)
  }

  /** Tokens that describe a valid shape dispatch to exactly that shape. */
  lemma DispatchComplete(parts: seq<string>, s: Shape, toFloat: FloatParser)
    requires Valid(s) && Describes(parts, s, toFloat)
    ensures Dispatch(parts, toFloat) == Found(s)
  {
    var c := ConvertAll(parts[1..], toFloat);
    assert AllNumeric(parts[1..], toFloat) by {
      forall i | 0 <= i < |parts[1..]| ensures toFloat(parts[1..][i]).Some? {
        assert parts[1..][i] == parts[i + 1];
        assert toFloat(parts[i + 1]) == Some(ParamsOf(s)[i]);
      }
    }
    assert c.values == ParamsOf(s) by {
      forall i | 0 <= i < |ParamsOf(s)| ensures c.values[i] == ParamsOf(s)[i] {
        assert parts[1..][i] == parts[i + 1];
      }
    }
    ConstructComplete(s);
  }

  /** A line whose tokens describe a valid shape parses to exactly that shape. */
  lemma ParseShapeComplete(line: string, s: Shape, toFloat: FloatParser)
    requires Valid(s) && Describes(Split(line), s, toFloat)
    ensures ParseShape(line, toFloat) == Found(s)
  {
    SplitOfStrip(line);
    DispatchComplete(Split(line), s, toFloat);
  }

  /** The ways a line of numbers yields no shape: an unknown tag, or a
      parameter count other than the tag's arity. */
  lemma ParseShapeRejects(line: string, toFloat: FloatParser)
    requires Split(line) != [] && AllNumeric(Split(line)[1..], toFloat)
    requires Arity(Split(line)[0]) == None || Arity(Split(line)[0]) != Some(|Split(line)| - 1)
    ensures ParseShape(line, toFloat) == NoShape
  {
    var r := ParseShape(line, toFloat);
    if r.Found? {
      ArityOfShape(r.shape);
    }
  }

  /** A shape's tag is a single token. */
  lemma TagIsToken(s: Shape)
    ensures Token(TagOf(s))
  {
  }

  /** A shape's tag followed by numerals for its parameters: the tokens that
      describe it. */
  lemma WrittenDescribes(s: Shape, numerals: seq<string>, toFloat: FloatParser)
    requires |numerals| == |ParamsOf(s)|
    requires forall i :: 0 <= i < |numerals| ==> Token(numerals[i]) && toFloat(numerals[i]) == Some(ParamsOf(s)[i])
    ensures AllTokens([TagOf(s)] + numerals) && Describes([TagOf(s)] + numerals, s, toFloat)
  {
    var ws := [TagOf(s)] + numerals;
    TagIsToken(s);
    forall k | 1 <= k < |ws| ensures ws[k] == numerals[k - 1] {
    }
  }

  /** A shape written as its tag and numerals for its parameters, separated
      by single spaces and surrounded by any whitespace, parses back to it. */
  lemma ParseShapeOfWritten(s: Shape, numerals: seq<string>, p: string, q: string, toFloat: FloatParser)
    requires Valid(s) && Blank(p) && Blank(q)
    requires |numerals| == |ParamsOf(s)|
    requires forall i :: 0 <= i < |numerals| ==> Token(numerals[i]) && toFloat(numerals[i]) == Some(ParamsOf(s)[i])
    ensures ParseShape(p + Join([TagOf(s)] + numerals) + q, toFloat) == Found(s)
  {
    var ws := [TagOf(s)] + numerals;
    WrittenDescribes(s, numerals, toFloat);
    SplitPaddedJoin(p, ws, q);
    ParseShapeComplete(p + Join(ws) + q, s, toFloat);
  }
}
