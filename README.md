# Shapes: validation, measures, line parser and max reducer

This project models `shapes.py`, a small program in three parts:

- **Five plane shapes.** Triangle, Rectangle, Trapeze, Parallelogram and Circle each have a validating constructor and their `perimeter`/`area` formulas.
- **`parse_shape`.** It turns one text line into a shape.
- **`process_file`.** It makes one pass over a file's lines. It keeps the shape of greatest area and the shape of greatest perimeter, and counts the lines read and the shapes parsed.

The model is split into these modules:

- `Optional` (`optional.dfy`) holds the `Option` type, standing for Python's `X | None`.
- `Text` (`text.dfy`) models Python's `str.strip()` and `str.split()`. Whitespace is exactly the set of characters for which `str.isspace()` holds.
- `Shapes` (`shapes.dfy`) covers the shapes:
  - the shapes are a `datatype` and validity is a predicate;
  - each constructor returns `Built(shape)` or the `ValueError` message it raises;
  - perimeter and area are functions.
  - `math.sqrt` and `math.pi` arrive as a `Math` record. The model assumes only that pi is positive and that the square root of a non-negative number is non-negative.
- `Parser` (`parser.dfy`) covers `parse_shape`:
  - A line has three outcomes: `Found(shape)`, `NoShape` (Python's `None`), or `ParseError(token)`.
  - The conversion `[float(p) for p in parts[1:]]` stands outside the `try` of `parse_shape`. So a token that is not a number raises out of the function instead of giving `None`, and the model keeps this.
  - `float()` itself is a parameter of type `string -> Option<real>`.
- `Process` (`process.dfy`) covers `process_file`:
  - It is an imperative `method` with the source's loop and variables, proved equal to `Scan`, a fold over the parse outcomes of the lines.
  - The file is its sequence of lines, or `Unreadable` when `open` fails.
  - An exception from `parse_shape` leaves the loop for the outer handler. The maxima found so far are still returned.
  - The two counts, which the source prints, are returned as well.

A token that is not a number makes the whole scan stop. In `parse_shape` the conversion `float(p)` runs before the `try`, so a non-numeric token raises out of `parse_shape` instead of giving `None`. The outer `except` of `process_file` then ends the scan. Take a file of `Rectangle 3 4`, a blank line, `Circle abc` and `Triangle 1 1 5`. Its scan counts 3 lines and 1 valid shape, the triangle line is never read, and the rectangle holds both maxima (`Process.ExampleFileStopsAtBadNumber`).

## Model

| member | source | states |
|---|---|---|
| Shapes.NewTriangle | shapes.py:16-22 | builds the triangle exactly when all sides are positive and each side is strictly less than the sum of the other two; otherwise it raises `ValueError` with the message "Invalid triangle sides" |
| Shapes.NewRectangle | shapes.py:33-38 | builds the rectangle exactly when both sides are positive; otherwise it raises `ValueError` with the message "Rectangle sides must be positive" |
| Shapes.NewTrapeze | shapes.py:48-55 | builds the trapeze exactly when all four sides are positive; otherwise it raises `ValueError` with the message "Trapeze sides must be positive" |
| Shapes.NewParallelogram | shapes.py:70-76 | builds the parallelogram exactly when both sides and the height are positive; otherwise it raises `ValueError` with the message "Parallelogram parameters must be positive" |
| Shapes.NewCircle | shapes.py:86-90 | builds the circle exactly when the radius is positive; otherwise it raises `ValueError` with the message "Circle radius must be positive" |
| Shapes.TagAndParamsDetermineShape | shapes.py:15-90 | two shapes with the same class name and the same constructor arguments are the same shape |
| Shapes.Perimeter | shapes.py:24-93 | the perimeter of every valid polygon is strictly positive |
| Shapes.PerimeterIsSumOfEdges | shapes.py:24-79 | the perimeter of each polygon is the sum of its sides in order (a+b+c; a+b+a+b for Rectangle and Parallelogram; a+b+c+d) |
| Shapes.Area | shapes.py:27-96 | the area of a valid polygon is non-negative; a valid Rectangle or Parallelogram has a strictly positive area |
| Shapes.HeronRadicandPositive | shapes.py:27-29 | for a valid triangle, the value under Heron's square root is strictly positive, so `math.sqrt` never raises there |
| Shapes.TrapezeFallbackReachable | shapes.py:60-66 | the `except ValueError` of `Trapeze.area` is reachable: the valid trapeze with sides 1, 1, 1, 10 has a negative radicand and area 0 |
| Shapes.TrapezeRadicandOfRectangle | shapes.py:60-64 | for sides a, b, a, b the trapeze radicand equals the square of the rectangle's area a·b |
| Shapes.ParallelogramAreaIgnoresSide | shapes.py:81-82 | a parallelogram's area does not depend on its side b |
| Shapes.RectangleIsRightParallelogram | shapes.py:40-82 | a rectangle a×b has the area and perimeter of the parallelogram with sides a, b and height b |
| Shapes.CircleMeasuresPositive | shapes.py:92-96 | a valid circle has a positive perimeter and area |
| Shapes.MeasuresSigns | shapes.py:24-96 | every valid shape has a positive perimeter and a non-negative area |
| Shapes.CircleAreaFromPerimeter | shapes.py:92-96 | twice a circle's area equals its radius times its perimeter |
| Text.TrimStart | shapes.py:100 | removing leading whitespace never lengthens the string, and what remains starts with a non-whitespace character or is empty |
| Text.TrimStartSplits | shapes.py:100 | what `TrimStart` keeps is a suffix of the string, and the prefix it removes is all whitespace |
| Text.TrimEnd | shapes.py:100 | removing trailing whitespace never lengthens the string, and what remains ends with a non-whitespace character or is empty |
| Text.TrimEndSplits | shapes.py:100 | what `TrimEnd` keeps is a prefix of the string, and the suffix it removes is all whitespace |
| Text.Strip | shapes.py:100 | `strip()` leaves a string that is empty or starts and ends with a non-whitespace character |
| Text.StripEmptyIffBlank | shapes.py:100 | `strip()` gives the empty string exactly when the line is all whitespace |
| Text.Word | shapes.py:100 | a word is the longest prefix that contains no whitespace |
| Text.Split | shapes.py:100 | every element `split()` returns is non-empty and contains no whitespace |
| Text.SplitEmptyIffBlank | shapes.py:100-102 | `split()` returns no parts exactly when the line is all whitespace, the case where `parse_shape` returns `None` |
| Text.SplitSkipsLeading | shapes.py:100 | leading whitespace does not change what `split()` returns |
| Text.SplitSkipsTrailing | shapes.py:100 | trailing whitespace does not change what `split()` returns |
| Text.WordOfConcat | shapes.py:100 | a word ends at the first whitespace, whatever follows the string |
| Text.WordOfToken | shapes.py:100 | a token is its own word |
| Text.SplitOfStrip | shapes.py:100 | `line.strip().split()` equals `line.split()` |
| Text.SplitToken | shapes.py:100 | a token followed by any whitespace, or by nothing, splits off as the first part. A run of whitespace of any length separates tokens, and the rest splits on its own |
| Text.SplitJoin | shapes.py:100 | `split()` inverts `" ".join` on tokens |
| Text.SplitPaddedJoin | shapes.py:100 | tokens joined by spaces and padded with whitespace (a trailing newline, say) split back into those tokens |
| Parser.ConvertAll | shapes.py:105 | the conversion gives numbers exactly when every token converts, and then gives the value of each token in order; otherwise it names a token that fails, with every token before it converting |
| Parser.ArityOfShape | shapes.py:108-123 | the tag-to-arity table agrees with the shapes (Triangle 3, Rectangle 2, Trapeze 4, Parallelogram 3, Circle 1) |
| Parser.Construct | shapes.py:107-127 | the dispatch on the tag never raises, because a constructor's `ValueError` becomes `None`; a shape it returns is valid, has the tag as its class name and has the parameters in order |
| Parser.Catch | shapes.py:124-125 | a constructor's `ValueError` becomes `None` and a built shape is returned as found; nothing raises |
| Parser.ConstructComplete | shapes.py:107-125 | every valid shape is built back from its own tag and parameters |
| Parser.ParseShape | shapes.py:99-127 | a blank line gives `None`; the function raises exactly when the line has a tag and some later token does not convert; a returned shape is valid, and the line's tokens are its tag followed by its parameters |
| Parser.Dispatch | shapes.py:101-127 | no parts gives `None`. The parameters are converted before the `try`: it raises exactly when a parameter token does not convert, naming such a token. A shape it returns is valid and the tokens are its tag and its parameters in order |
| Parser.DispatchComplete | shapes.py:104-127 | tokens that name a valid shape and its parameters dispatch to that shape |
| Parser.ParseShapeComplete | shapes.py:99-127 | a line whose tokens describe a valid shape parses to exactly that shape |
| Parser.ParseShapeRejects | shapes.py:108-127 | a line of convertible parameters whose tag is unknown, or whose count differs from the tag's arity, gives `None` |
| Parser.TagIsToken | shapes.py:108-123 | each tag is a single token |
| Parser.WrittenDescribes | shapes.py:104-105 | a shape's tag followed by numerals for its parameters are tokens that describe the shape |
| Parser.ParseShapeOfWritten | shapes.py:99-127 | a shape written as its tag and numerals for its parameters, with any surrounding whitespace, parses back to that shape |
| Process.Challenge | shapes.py:155-161 | the first shape always beats `-inf`. Afterwards the bound becomes the larger of the old bound and the new score, a score that does not exceed the bound (a tie included) changes nothing, and otherwise the new shape takes over |
| Process.ChampionIsFirstMax | shapes.py:155-161 | the running maximum with strict `>` holds the first shape of greatest score, with that score as its bound; it holds no shape, and `-inf`, exactly when no shape was offered |
| Process.Step | shapes.py:143-161 | one iteration counts the line. A found shape also counts as valid and leaves both maxima finite. A line with no shape leaves the maxima unchanged, and a line that raises ends the scan |
| Process.Scan | shapes.py:142-163 | the shapes parsed never outnumber the lines read, and the lines read never outnumber the file's lines |
| Process.Outcomes | shapes.py:142-144 | there is one outcome per line, and each is the outcome of parsing that line |
| Process.ParseEach | shapes.py:142-144 | each line's outcome is the outcome of `parse_shape` on it |
| Process.OutcomesOfParser | shapes.py:142-144 | a list of outcomes is the outcomes of the file exactly when each one is `parse_shape` of its line |
| Process.OutcomesPrefix | shapes.py:142-144 | the outcomes of the first lines are the first outcomes |
| Process.FoundShapes | shapes.py:144-149 | the parsed shapes are no more than the lines, and each comes from some line |
| Process.HaltedScanIsFinal | shapes.py:140-166 | after a line raises, the lines after it change nothing |
| Process.ScanStops | shapes.py:140-166 | the scan ends early exactly when some line raises. It then ends on the first such line, counting it; otherwise it reads every line |
| Process.ScanTallies | shapes.py:142-161 | the valid count is the number of shapes parsed from the lines read. Each maximum is the running champion of those shapes |
| Process.ScanStopsAtError | shapes.py:140-166 | when line i is the first to raise, the result is the scan of the lines before it, with line i counted |
| Process.ProcessFile | shapes.py:130-169 | the loop returns the two maxima and the two counts that `Scan` gives for the file's parse outcomes; an unreadable file gives `None`, `None` and zero counts |
| Process.ProcessFileMeaning | shapes.py:130-169 | for a readable file, `valid <= total <= lines`, and every parsed shape is valid. Each result is `None` exactly when no shape was parsed, and otherwise is the first shape of greatest area, or of greatest perimeter, among those parsed |
| Process.ParseErrorKeepsEarlierMaxima | shapes.py:140-166 | a line that raises ends the scan: the result is what the lines before it give, with that line counted |
| Process.ScanOfShapeThenNone | shapes.py:142-161 | one shape and then one non-shape line leave that shape as both maxima, with counts 2 and 1 |
| Process.ShapeThenErrorStops | shapes.py:140-166 | outcomes that start with a shape, a line with no shape and a line that raises give that shape for both maxima, 3 lines counted and 1 valid, and the scan ended, whatever follows |
| Process.ExampleRectangleLine | shapes.py:99-127 | the line `Rectangle 3 4` parses to the 3×4 rectangle |
| Process.ExampleCircleLine | shapes.py:99-127 | the line `Circle abc` raises |
| Process.ExampleOutcomes | shapes.py:99-127 | what `parse_shape` gives for the first three lines of the example file |
| Process.ExampleFileStopsAtBadNumber | shapes.py:105-166 | on the example file the scan stops at `Circle abc`: total 3, valid 1, and the rectangle holds both maxima |

## Left out

- `download_input_files` (shapes.py:172-186) and `main` (shapes.py:189-208) are left out. They fetch files over the network and format console output.
- The `print` calls in `process_file` are not modelled. The counts they report are returned instead.
- File reading is reduced to two cases: a file is its sequence of lines, or `Unreadable` when `open` fails. A decoding error partway through a file is not modelled; it would reach the same outer `except` after some lines.
- `float()` is an abstract partial function from token to number. Its exact syntax, and the values `nan` and `inf`, are not modelled.
- Numbers are mathematical reals, so floating-point rounding and overflow are not modelled.
- The inner `except Exception` (shapes.py:162-163) is not modelled. Over the reals no measure of a valid shape raises: the triangle's radicand is positive, and the trapeze catches its own `ValueError`. In floating point `self.r**2` can raise `OverflowError` for a huge radius. That shape would then be counted as valid without being compared.
- Shapes.Area: states only the signs of the areas, because `math.sqrt` and `math.pi` are abstract. No numeric value of a Heron or circle area is proved.
- Shapes.Perimeter: states only that a valid polygon's perimeter is positive. A circle's perimeter is positive under the facts about pi (`CircleMeasuresPositive`). The side sums are stated separately by `PerimeterIsSumOfEdges`.
- The abstract base class `Shape` (shapes.py:5-12) is the `datatype` itself. Its abstract methods are the functions `Perimeter` and `Area`.
