/** The Google Sheets add-on's interpreter: it runs a list of action records
    against the active sheet, in order, keeping the selected range in a local
    variable and a clipboard in a module-level variable, and returns the
    `TellUser` messages joined by spaces.

    Three things the script calls into are parameters of the model (`Env`):
    the JavaScript regular-expression engine (`compiles`, whether
    `new RegExp(pattern)` accepts a pattern, and `matches`, the test of a
    pattern against a cell value, which `test` reads as `String(value)`,
    `JsText` below), the spreadsheet's
    formula recalculation (`evaluate`, the value a formula shows at a cell
    of a given sheet) and its translation of an A1-style formula entered at
    a cell into R1C1 form (`toR1C1`). A fourth parameter, `asWritten`,
    chooses between the two cell updates the script gets wrong (the number
    format and the paste past a clipboard row's end) exactly as written and
    their corrected forms. Cells and ranges are 0-based here; A1 text is
    1-based. */
module AppsScript {
  import opened Wrappers
  import opened Text
  import opened ActionSchema

  // ------------------------------------------------------------ the sheet

  /** What `getValue` returns: an empty cell, a number or a string. */
  datatype Value = Blank | Number(n: int) | Str(s: string)

  /** What a cell holds: a literal value, or a formula in R1C1 form. */
  datatype Content = Literal(v: Value) | Formula(r1c1: string)

  datatype Sides = Sides(top: bool, left: bool, bottom: bool, right: bool, vertical: bool, horizontal: bool)

  /** The cell attributes the script can set. `line` is the font line
      ("none", "underline" or "line-through"). */
  datatype CellFormat = CellFormat(
    bold: bool, italic: bool, line: string,
    background: Option<string>, fontColor: Option<string>, fontSize: Option<int>,
    hAlign: Option<string>, vAlign: Option<string>,
    border: Sides, wrap: Option<bool>, numberFormat: string)

  /** The sheet's dimensions (`getMaxRows`, `getMaxColumns`), the three
      services the model takes as given, and whether the script runs as
      written. */
  datatype Env = Env(
    rows: nat, cols: nat,
    compiles: string -> bool,
    matches: (string, Value) -> bool,
    evaluate: (Grid, string, int, int) -> Value,
    toR1C1: (string, int, int) -> string,
    asWritten: bool)

  type Grid = seq<seq<Content>>
  type Formats = seq<seq<CellFormat>>
  /** The clipboard: one row per copied row, `None` where a cell was skipped. */
  type Clip = seq<seq<Option<Value>>>

  predicate Shaped<T>(g: seq<seq<T>>, n: nat, m: nat) {
    |g| == n && forall r :: 0 <= r < n ==> |g[r]| == m
  }

  /** A range: inclusive 0-based corners, top-left to bottom-right. */
  datatype Rect = Rect(top: nat, left: nat, bottom: nat, right: nat)

  predicate Fits(env: Env, rect: Rect) {
    rect.top <= rect.bottom < env.rows && rect.left <= rect.right < env.cols
  }

  predicate InRect(rect: Rect, r: int, c: int) {
    rect.top <= r <= rect.bottom && rect.left <= c <= rect.right
  }

  /** The value cell (r, c) of sheet `g` shows: a literal as it is, a
      formula as the sheet computes it from the cells as they are now. */
  function ValueAt(env: Env, g: Grid, r: nat, c: nat): Value
    requires r < |g| && c < |g[r]|
  {
    match g[r][c]
    case Literal(v) => v
    case Formula(f) => env.evaluate(g, f, r, c)
  }

  /** JavaScript's `String(value)` for what `getValue` returns. */
  function JsText(v: Value): string {
    match v
    case Blank => ""
    case Number(n) => IntToString(n)
    case Str(s) => s
  }

  /** `!regExp || regExp.test(value)`, where `regExp` exists only for a
      non-empty `reg`. */
  predicate Passes(env: Env, reg: Option<string>, v: Value) {
    !Truthy(reg) || env.matches(reg.value, v)
  }

  /** `new RegExp(reg)` throws a SyntaxError: a non-empty pattern the
      engine rejects. */
  predicate BadPattern(env: Env, reg: Option<string>) {
    Truthy(reg) && !env.compiles(reg.value)
  }

  /** The SyntaxError's message, up to the engine's own detail. */
  function PatternError(reg: string): string {
    "Invalid regular expression: /" + reg + "/"
  }

  /** What `setValue(text)` stores. */
  function TextValue(text: string): (v: Value)
    ensures JsText(v) == text
  {
    if text == "" then Blank else Str(text)
  }

  // ----------------------------------------------------- getRangeFromSelect

  const RangeNotFound: string := "Range not found"
  const OutsideSheet: string := "The coordinates of the range are outside the dimensions of the sheet."

  /** A row number of A1 notation: decimal digits, at least 1. */
  function RowNumber(s: string): (r: Option<nat>)
    ensures r.Some? ==> r.value >= 1
  {
    if |s| > 0 && AllDigits(s) && DigitsValue(s) >= 1 then Some(DigitsValue(s)) else None
  }

  lemma ColumnIndexRange(s: string)
    requires ColumnIndexFromString(s).Some?
    ensures 1 <= ColumnIndexFromString(s).value <= MaxColumn
  {
    LettersValueBounds(Upper(s));
  }

  function Min(a: int, b: int): int { if a <= b then a else b }
  function Max(a: int, b: int): int { if a <= b then b else a }

  /** `sheet.getRange(col1 + row1 + ":" + col2 + row2)`: the two corners may
      come in either order; a malformed reference or one beyond the sheet
      raises. */
  function A1Range(env: Env, col1: string, row1: string, col2: string, row2: string): (r: Result<Rect>)
    ensures r.Success? ==> Fits(env, r.value)
  {
    match (ColumnIndexFromString(col1), RowNumber(row1), ColumnIndexFromString(col2), RowNumber(row2))
    case (Some(c1), Some(r1), Some(c2), Some(r2)) =>
      ColumnIndexRange(col1);
      ColumnIndexRange(col2);
      var rect := Rect(Min(r1, r2) - 1, Min(c1, c2) - 1, Max(r1, r2) - 1, Max(c1, c2) - 1);
      if rect.bottom < env.rows && rect.right < env.cols then Success(rect) else Failure(OutsideSheet)
    case _ => Failure(RangeNotFound)
  }

  lemma RowNumberOfNat(n: nat)
    requires n >= 1
    ensures RowNumber(NatToString(n)) == Some(n)
  {
    DigitsOfNat(n);
  }

  /** What `getRange` makes of corners that parse. */
  lemma A1RangeParsed(env: Env, col1: string, row1: string, col2: string, row2: string,
                      c1: nat, r1: nat, c2: nat, r2: nat)
    requires ColumnIndexFromString(col1) == Some(c1) && RowNumber(row1) == Some(r1)
    requires ColumnIndexFromString(col2) == Some(c2) && RowNumber(row2) == Some(r2)
    requires Max(r1, r2) <= env.rows && Max(c1, c2) <= env.cols
    ensures A1Range(env, col1, row1, col2, row2)
         == Success(Rect(Min(r1, r2) - 1, Min(c1, c2) - 1, Max(r1, r2) - 1, Max(c1, c2) - 1))
  {
  }

  /** Corners that parse to a range's own numbers name it in either order. */
  lemma A1RangeOfCorners(env: Env, cl: string, rt: string, cr: string, rb: string, rect: Rect)
    requires Fits(env, rect)
    requires ColumnIndexFromString(cl) == Some(rect.left + 1) && RowNumber(rt) == Some(rect.top + 1)
    requires ColumnIndexFromString(cr) == Some(rect.right + 1) && RowNumber(rb) == Some(rect.bottom + 1)
    ensures A1Range(env, cl, rt, cr, rb) == Success(rect)
    ensures A1Range(env, cr, rb, cl, rt) == Success(rect)
  {
    A1RangeParsed(env, cl, rt, cr, rb, rect.left + 1, rect.top + 1, rect.right + 1, rect.bottom + 1);
    A1RangeParsed(env, cr, rb, cl, rt, rect.right + 1, rect.bottom + 1, rect.left + 1, rect.top + 1);
  }

  /** The A1 text of a range's corners, in either order, names that range. */
  lemma A1RangeRoundTrip(env: Env, rect: Rect)
    requires Fits(env, rect) && rect.right < MaxColumn
    ensures A1Range(env, ColumnLetters(rect.left + 1), NatToString(rect.top + 1),
                    ColumnLetters(rect.right + 1), NatToString(rect.bottom + 1)) == Success(rect)
    ensures A1Range(env, ColumnLetters(rect.right + 1), NatToString(rect.bottom + 1),
                    ColumnLetters(rect.left + 1), NatToString(rect.top + 1)) == Success(rect)
  {
    ColumnIndexRoundTrip(rect.left + 1);
    ColumnIndexRoundTrip(rect.right + 1);
    RowNumberOfNat(rect.top + 1);
    RowNumberOfNat(rect.bottom + 1);
    A1RangeOfCorners(env, ColumnLetters(rect.left + 1), NatToString(rect.top + 1),
                     ColumnLetters(rect.right + 1), NatToString(rect.bottom + 1), rect);
  }

  predicate EmptyRow(row: seq<Content>) {
    forall c :: 0 <= c < |row| ==> row[c] == Literal(Blank)
  }

  /** `sheet.getLastRow()`: the number of the last row holding anything. */
  function LastRow(g: Grid): (n: nat)
    ensures n <= |g|
  {
    if g == [] then 0
    else if EmptyRow(g[|g| - 1]) then LastRow(g[..|g| - 1])
    else |g|
  }

  lemma {:induction false} LastRowIsLast(g: Grid)
    ensures forall r :: LastRow(g) <= r < |g| ==> EmptyRow(g[r])
    ensures LastRow(g) > 0 ==> !EmptyRow(g[LastRow(g) - 1])
  {
    if g != [] && EmptyRow(g[|g| - 1]) {
      var p := g[..|g| - 1];
      LastRowIsLast(p);
      forall r | LastRow(g) <= r < |g|
        ensures EmptyRow(g[r])
      {
        if r < |p| {
          assert g[r] == p[r];
        }
      }
      if LastRow(g) > 0 {
        assert g[LastRow(g) - 1] == p[LastRow(g) - 1];
      }
    }
  }

  /** `getRangeFromSelect`: a missing or empty `col2` is `col1`, a missing
      `row2` is `row1`, and `row2` of "-1" is the sheet's last row. */
  function RangeFromSelect(env: Env, g: Grid, col1: string, row1: string,
                           col2: Option<string>, row2: Option<string>): (r: Result<Rect>)
    ensures r.Success? ==> Fits(env, r.value)
  {
    var c2 := if Truthy(col2) then col2.value else col1;
    var r2 := if row2 == Some("-1") then NatToString(LastRow(g))
              else if row2.None? then row1
              else row2.value;
    A1Range(env, col1, row1, c2, r2)
  }

  /** A single-cell select names exactly that cell; "-1" reaches down to the
      last row holding content (whose number the A1 text then carries). */
  lemma RangeFromSelectDefaults(env: Env, g: Grid, rect: Rect)
    requires Fits(env, rect) && rect.right < MaxColumn
    ensures RangeFromSelect(env, g, ColumnLetters(rect.left + 1), NatToString(rect.top + 1), None, None)
         == Success(Rect(rect.top, rect.left, rect.top, rect.left))
  {
    var cl := ColumnLetters(rect.left + 1);
    var rt := NatToString(rect.top + 1);
    ColumnIndexRoundTrip(rect.left + 1);
    RowNumberOfNat(rect.top + 1);
    assert RangeFromSelect(env, g, cl, rt, None, None) == A1Range(env, cl, rt, cl, rt);
    A1RangeParsed(env, cl, rt, cl, rt, rect.left + 1, rect.top + 1, rect.left + 1, rect.top + 1);
  }

  /** What `getRangeFromSelect` reads for an empty `col2` and a `row2`
      of "-1". */
  lemma SelectToLastRow(env: Env, g: Grid, col1: string, row1: string)
    ensures RangeFromSelect(env, g, col1, row1, Some(""), Some("-1"))
         == A1Range(env, col1, row1, col1, NatToString(LastRow(g)))
  {
    assert !Truthy(Some(""));
  }

  /** `row2` of "-1" reaches down to the last row holding content, and an
      empty `col2` stands for `col1`. */
  lemma RangeFromSelectToLastRow(env: Env, g: Grid, rect: Rect)
    requires Fits(env, rect) && rect.right < MaxColumn
    requires LastRow(g) == rect.bottom + 1 && rect.left == rect.right
    ensures RangeFromSelect(env, g, ColumnLetters(rect.left + 1), NatToString(rect.top + 1), Some(""), Some("-1"))
         == Success(rect)
  {
    ColumnIndexRoundTrip(rect.left + 1);
    RowNumberOfNat(rect.top + 1);
    SelectColumnToLastRow(env, g, ColumnLetters(rect.left + 1), NatToString(rect.top + 1), rect);
  }

  /** The same for any column and row text that parse to the range's
      corner. */
  lemma SelectColumnToLastRow(env: Env, g: Grid, cl: string, rt: string, rect: Rect)
    requires Fits(env, rect) && LastRow(g) == rect.bottom + 1 && rect.left == rect.right
    requires ColumnIndexFromString(cl) == Some(rect.left + 1) && RowNumber(rt) == Some(rect.top + 1)
    ensures RangeFromSelect(env, g, cl, rt, Some(""), Some("-1")) == Success(rect)
  {
    SelectToLastRow(env, g, cl, rt);
    RowNumberOfNat(rect.bottom + 1);
    A1RangeOfCorners(env, cl, rt, cl, NatToString(rect.bottom + 1), rect);
  }

  // ------------------------------------------------------------- applyFormat

  /** `action.border[key]`: the first entry for the key, if any. */
  function Lookup(b: Border, key: string): (r: Option<bool>)
    ensures r.Some? <==> exists i :: 0 <= i < |b| && b[i].0 == key
  {
    if b == [] then None else if b[0].0 == key then Some(b[0].1) else Lookup(b[1..], key)
  }

  function Side(current: bool, change: Option<bool>): bool {
    if change.Some? then change.value else current
  }

  /** `setBorder(top, left, bottom, right, vertical, horizontal)`, where a
      side the dictionary leaves out is left as it is. */
  function SetBorder(s: Sides, b: Border): (r: Sides)
    ensures b == [] ==> r == s
  {
    Sides(Side(s.top, Lookup(b, "top")), Side(s.left, Lookup(b, "left")),
          Side(s.bottom, Lookup(b, "bottom")), Side(s.right, Lookup(b, "right")),
          Side(s.vertical, Lookup(b, "vertical")), Side(s.horizontal, Lookup(b, "horizontal")))
  }

  predicate KnownStyle(s: string) {
    s in {"bold", "italic", "underline", "strikethrough", "backgroundcolor", "fontcolor",
          "fontsize", "horizontalalignment", "verticalalignment", "border", "wraptext", "numberformat"}
  }

  /** One cell of `applyFormat`: the attribute the lower-cased style names,
      when the field it needs is present (JavaScript truthiness; a font size
      is truthy unless it is 0). The number format is read from
      `valueFormat`, the field Format records carry. Any other style, or a
      style whose field is missing, leaves the cell as it is. */
  function FormatCell(f: CellFormat, a: Action): (r: CellFormat)
    requires a.Format?
    ensures !KnownStyle(Lower(a.style)) ==> r == f
    ensures Lower(a.style) == "bold" ==> r == f.(bold := true)
    ensures Lower(a.style) == "italic" ==> r == f.(italic := true)
    ensures Lower(a.style) == "underline" ==> r == f.(line := "underline")
    ensures Lower(a.style) == "strikethrough" ==> r == f.(line := "line-through")
    ensures Lower(a.style) == "backgroundcolor" ==>
      r == if Truthy(a.color) then f.(background := a.color) else f
    ensures Lower(a.style) == "fontcolor" ==>
      r == if Truthy(a.color) then f.(fontColor := a.color) else f
    ensures Lower(a.style) == "fontsize" ==>
      r == if a.size.Some? && a.size.value != 0 then f.(fontSize := a.size) else f
    ensures Lower(a.style) == "horizontalalignment" ==>
      r == if Truthy(a.alignment) then f.(hAlign := a.alignment) else f
    ensures Lower(a.style) == "verticalalignment" ==>
      r == if Truthy(a.alignment) then f.(vAlign := a.alignment) else f
    ensures Lower(a.style) == "border" ==>
      r == if a.border.Some? then f.(border := SetBorder(f.border, a.border.value)) else f
    ensures Lower(a.style) == "wraptext" ==> r == f.(wrap := a.wrap)
    ensures Lower(a.style) == "numberformat" ==>
      r == if Truthy(a.valueFormat) then f.(numberFormat := a.valueFormat.value) else f
  {
    var s := Lower(a.style);
    if s == "bold" then f.(bold := true)
    else if s == "italic" then f.(italic := true)
    else if s == "underline" then f.(line := "underline")
    else if s == "strikethrough" then f.(line := "line-through")
    else if s == "backgroundcolor" && Truthy(a.color) then f.(background := a.color)
    else if s == "fontcolor" && Truthy(a.color) then f.(fontColor := a.color)
    else if s == "fontsize" && a.size.Some? && a.size.value != 0 then f.(fontSize := a.size)
    else if s == "horizontalalignment" && Truthy(a.alignment) then f.(hAlign := a.alignment)
    else if s == "verticalalignment" && Truthy(a.alignment) then f.(vAlign := a.alignment)
    else if s == "border" && a.border.Some? then f.(border := SetBorder(f.border, a.border.value))
    else if s == "wraptext" then f.(wrap := a.wrap)
    else if s == "numberformat" && Truthy(a.valueFormat) then f.(numberFormat := a.valueFormat.value)
    else f
  }

  /** `applyFormat` as written: its number-format branch tests and reads
      `action.format`, a field no Format record has, so that branch is never
      taken and a "numberformat" style falls through every test. */
  function FormatCellAsWritten(f: CellFormat, a: Action): (r: CellFormat)
    requires a.Format?
    ensures Lower(a.style) != "numberformat" ==> r == FormatCell(f, a)
    ensures Lower(a.style) == "numberformat" ==> r == f
  {
    if Lower(a.style) == "numberformat" then f else FormatCell(f, a)
  }

  /** A Format record asking for a number format changes nothing as
      written, while it sets the format once the field is read by its name. */
  lemma NumberFormatIgnored(f: CellFormat)
    requires f.numberFormat != "0.00"
    ensures var a := Format(None, "numberFormat", None, None, None, None, None, Some("0.00"));
            FormatCellAsWritten(f, a) == f && FormatCell(f, a).numberFormat == "0.00"
  {
    var a := Format(None, "numberFormat", None, None, None, None, None, Some("0.00"));
    assert Lower(a.style) == "numberformat";
  }

  /** The style the script gives one cell: as written, or corrected. */
  function StyleCell(env: Env, f: CellFormat, a: Action): (r: CellFormat)
    requires a.Format?
    ensures Lower(a.style) != "numberformat" ==> r == FormatCell(f, a)
    ensures env.asWritten && Lower(a.style) == "numberformat" ==> r == f
  {
    if env.asWritten then FormatCellAsWritten(f, a) else FormatCell(f, a)
  }

  /** The formats after `applyFormat` on `rect`: the cells whose value passes
      the filter get the style. */
  function FormatGrid(env: Env, fm: Formats, g: Grid, rect: Rect, a: Action): (r: Formats)
    requires a.Format? && Shaped(fm, env.rows, env.cols) && Shaped(g, env.rows, env.cols)
    ensures Shaped(r, env.rows, env.cols)
    ensures forall i, j {:trigger r[i][j]} :: 0 <= i < env.rows && 0 <= j < env.cols ==>
      r[i][j] == if InRect(rect, i, j) && Passes(env, a.reg, ValueAt(env, g, i, j))
                 then StyleCell(env, fm[i][j], a) else fm[i][j]
  {
    seq(env.rows, i requires 0 <= i < env.rows =>
      seq(env.cols, j requires 0 <= j < env.cols =>
        if InRect(rect, i, j) && Passes(env, a.reg, ValueAt(env, g, i, j))
        then StyleCell(env, fm[i][j], a) else fm[i][j]))
  }

  /** As written, a Format record asking for a number format leaves every
      format as it was; corrected, it gives its format to exactly the cells
      of the range that pass the filter. */
  lemma NumberFormatGrid(env: Env, fm: Formats, g: Grid, rect: Rect, a: Action, i: nat, j: nat)
    requires a.Format? && Lower(a.style) == "numberformat" && Truthy(a.valueFormat)
    requires Shaped(fm, env.rows, env.cols) && Shaped(g, env.rows, env.cols)
    requires i < env.rows && j < env.cols
    ensures env.asWritten ==> FormatGrid(env, fm, g, rect, a) == fm
    ensures !env.asWritten ==>
      FormatGrid(env, fm, g, rect, a)[i][j]
        == if InRect(rect, i, j) && Passes(env, a.reg, ValueAt(env, g, i, j))
           then fm[i][j].(numberFormat := a.valueFormat.value) else fm[i][j]
  {
    var r := FormatGrid(env, fm, g, rect, a);
    if env.asWritten {
      forall r0, c0 | 0 <= r0 < env.rows && 0 <= c0 < env.cols
        ensures r[r0][c0] == fm[r0][c0]
      {
      }
      SameGrid(r, fm, env.rows, env.cols);
    }
  }

  // ------------------------------------------------------------ applySet

  /** What `applySet` writes and where: the text, whether it is a formula
      (`action.text.trim().startsWith("=")`, worked out once before the
      loops), and the filter. */
  datatype SetJob = SetJob(text: string, formula: bool, reg: Option<string>)

  function JobOf(text: string, reg: Option<string>): SetJob {
    SetJob(text, StartsWith(Trim(text), "="), reg)
  }

  /** What `setFormula(text)` or `setValue(text)` leaves in cell (r, c). */
  function SetContent(env: Env, w: SetJob, r: int, c: int): Content {
    if w.formula then Formula(env.toR1C1(w.text, r, c)) else Literal(TextValue(w.text))
  }

  /** `applySet` at cell (r, c) of the sheet `h` the earlier cells left: the
      cell's value, read now, decides whether it gets the text. */
  function SetCell(env: Env, h: Grid, w: SetJob, r: nat, c: nat): (k: Grid)
    requires Shaped(h, env.rows, env.cols) && r < env.rows && c < env.cols
    ensures Shaped(k, env.rows, env.cols)
  {
    if Passes(env, w.reg, ValueAt(env, h, r, c)) then h[r := h[r][c := SetContent(env, w, r, c)]] else h
  }

  /** One cell of `applySet` writes that cell at most. */
  lemma SetCellAt(env: Env, h: Grid, w: SetJob, r: nat, c: nat, a: nat, b: nat)
    requires Shaped(h, env.rows, env.cols) && r < env.rows && c < env.cols && a < env.rows && b < env.cols
    ensures SetCell(env, h, w, r, c)[a][b]
         == if a == r && b == c && Passes(env, w.reg, ValueAt(env, h, r, c)) then SetContent(env, w, r, c) else h[a][b]
  {
  }

  /** The first `n` cells of row `r` of the range, left to right. */
  function SetRow(env: Env, h: Grid, rect: Rect, w: SetJob, r: nat, n: nat): (k: Grid)
    requires Shaped(h, env.rows, env.cols) && Fits(env, rect) && r < env.rows
    requires n <= rect.right - rect.left + 1
    ensures Shaped(k, env.rows, env.cols)
    decreases n
  {
    if n == 0 then h
    else SetCell(env, SetRow(env, h, rect, w, r, n - 1), w, r, rect.left + n - 1)
  }

  /** The first `n` rows of the range, top to bottom. */
  function SetRows(env: Env, g: Grid, rect: Rect, w: SetJob, n: nat): (h: Grid)
    requires Shaped(g, env.rows, env.cols) && Fits(env, rect) && n <= rect.bottom - rect.top + 1
    ensures Shaped(h, env.rows, env.cols)
    decreases n
  {
    if n == 0 then g
    else SetRow(env, SetRows(env, g, rect, w, n - 1), rect, w,
                rect.top + n - 1, rect.right - rect.left + 1)
  }

  /** The sheet after `applySet` on `rect`. */
  function SetGrid(env: Env, g: Grid, rect: Rect, w: SetJob): (h: Grid)
    requires Shaped(g, env.rows, env.cols) && Fits(env, rect)
    ensures Shaped(h, env.rows, env.cols)
  {
    SetRows(env, g, rect, w, rect.bottom - rect.top + 1)
  }

  /** The sheet `applySet` reads cell (i, j) of the range from: the cells
      before it in row-by-row order already written. */
  function SetBefore(env: Env, g: Grid, rect: Rect, w: SetJob, i: nat, j: nat): (h: Grid)
    requires Shaped(g, env.rows, env.cols) && Fits(env, rect) && InRect(rect, i, j)
    ensures Shaped(h, env.rows, env.cols)
  {
    SetRow(env, SetRows(env, g, rect, w, i - rect.top), rect, w, i, j - rect.left)
  }

  lemma SetRowNext(env: Env, h: Grid, rect: Rect, w: SetJob, r: nat, n: nat)
    requires Shaped(h, env.rows, env.cols) && Fits(env, rect) && r < env.rows
    requires n < rect.right - rect.left + 1
    ensures SetRow(env, h, rect, w, r, n + 1)
         == SetCell(env, SetRow(env, h, rect, w, r, n), w, r, rect.left + n)
  {
  }

  /** One more cell of a row, on the sheet the earlier cells left. */
  lemma SetRowStep(env: Env, above: Grid, rect: Rect, w: SetJob, r: nat, n: nat, h: Grid)
    requires Shaped(above, env.rows, env.cols) && Fits(env, rect) && r < env.rows
    requires n < rect.right - rect.left + 1 && h == SetRow(env, above, rect, w, r, n)
    ensures Shaped(h, env.rows, env.cols)
    ensures SetRow(env, above, rect, w, r, n + 1)
         == if Passes(env, w.reg, ValueAt(env, h, r, rect.left + n))
            then h[r := h[r][rect.left + n := SetContent(env, w, r, rect.left + n)]] else h
  {
  }

  lemma SetRowsNext(env: Env, g: Grid, rect: Rect, w: SetJob, n: nat)
    requires Shaped(g, env.rows, env.cols) && Fits(env, rect) && n < rect.bottom - rect.top + 1
    ensures SetRows(env, g, rect, w, n + 1)
         == SetRow(env, SetRows(env, g, rect, w, n), rect, w, rect.top + n, rect.right - rect.left + 1)
  {
  }

  /** The loops of `applySet`, row by row over the range, on the sheet `g`:
      each cell's value is read after the cells before it have been
      written. */
  method SetCells(env: Env, g: Grid, rect: Rect, w: SetJob) returns (h: Grid)
    requires Shaped(g, env.rows, env.cols) && Fits(env, rect)
    ensures h == SetGrid(env, g, rect, w)
  {
    h := g;
    var rows := rect.bottom - rect.top + 1;
    var i := 0;
    while i < rows
      invariant 0 <= i <= rows
      invariant h == SetRows(env, g, rect, w, i)
    {
      h := SetRowCells(env, g, rect, w, i, h);
      i := i + 1;
    }
  }

  /** The inner loop of `applySet`: row `n` of the range, left to right,
      on the sheet the rows above it left. */
  method SetRowCells(env: Env, g: Grid, rect: Rect, w: SetJob, n: nat, above: Grid)
    returns (h: Grid)
    requires Shaped(g, env.rows, env.cols) && Fits(env, rect) && n < rect.bottom - rect.top + 1
    requires above == SetRows(env, g, rect, w, n)
    ensures h == SetRows(env, g, rect, w, n + 1)
  {
    h := above;
    var r, cols := rect.top + n, rect.right - rect.left + 1;
    var j := 0;
    while j < cols
      invariant 0 <= j <= cols
      invariant h == SetRow(env, above, rect, w, r, j)
    {
      SetRowStep(env, above, rect, w, r, j, h);
      if Passes(env, w.reg, ValueAt(env, h, r, rect.left + j)) {
        h := h[r := h[r][rect.left + j := SetContent(env, w, r, rect.left + j)]];
      }
      j := j + 1;
    }
    SetRowsNext(env, g, rect, w, n);
  }

  /** Cells of a row after the first `n` leave those `n`, and every cell
      outside the row, alone. */
  lemma {:induction false} SetRowPrefix(env: Env, h: Grid, rect: Rect, w: SetJob,
                                        r: nat, n: nat, m: nat, a: nat, b: nat)
    requires Shaped(h, env.rows, env.cols) && Fits(env, rect) && r < env.rows
    requires n <= m <= rect.right - rect.left + 1 && a < env.rows && b < env.cols
    requires !(a == r && rect.left + n <= b < rect.left + m)
    ensures SetRow(env, h, rect, w, r, m)[a][b] == SetRow(env, h, rect, w, r, n)[a][b]
    decreases m
  {
    if m > n {
      SetRowPrefix(env, h, rect, w, r, n, m - 1, a, b);
      SetCellAt(env, SetRow(env, h, rect, w, r, m - 1), w, r, rect.left + m - 1, a, b);
    }
  }

  /** Rows of the range after the first `n` leave those `n` alone. */
  lemma {:induction false} SetRowsPrefix(env: Env, g: Grid, rect: Rect, w: SetJob,
                                         n: nat, m: nat, a: nat, b: nat)
    requires Shaped(g, env.rows, env.cols) && Fits(env, rect)
    requires n <= m <= rect.bottom - rect.top + 1 && a < env.rows && b < env.cols && a < rect.top + n
    ensures SetRows(env, g, rect, w, m)[a][b] == SetRows(env, g, rect, w, n)[a][b]
    decreases m
  {
    if m > n {
      SetRowsPrefix(env, g, rect, w, n, m - 1, a, b);
      SetRowPrefix(env, SetRows(env, g, rect, w, m - 1), rect, w,
                   rect.top + m - 1, 0, rect.right - rect.left + 1, a, b);
    }
  }

  /** The first `n` rows of the range touch no cell outside them. */
  lemma {:induction false} SetRowsFrame(env: Env, g: Grid, rect: Rect, w: SetJob,
                                        n: nat, a: nat, b: nat)
    requires Shaped(g, env.rows, env.cols) && Fits(env, rect)
    requires n <= rect.bottom - rect.top + 1 && a < env.rows && b < env.cols
    requires !(InRect(rect, a, b) && a < rect.top + n)
    ensures SetRows(env, g, rect, w, n)[a][b] == g[a][b]
    decreases n
  {
    if n > 0 {
      SetRowsFrame(env, g, rect, w, n - 1, a, b);
      SetRowPrefix(env, SetRows(env, g, rect, w, n - 1), rect, w,
                   rect.top + n - 1, 0, rect.right - rect.left + 1, a, b);
    }
  }

  /** `applySet` cell by cell: a cell outside the range keeps its content;
      a cell of the range gets the text exactly when its value passes the
      filter on the sheet as the cells before it left it, which is the
      final sheet on those earlier cells and the original one elsewhere. */
  lemma SetEffect(env: Env, g: Grid, rect: Rect, w: SetJob, i: nat, j: nat)
    requires Shaped(g, env.rows, env.cols) && Fits(env, rect) && i < env.rows && j < env.cols
    ensures var h := SetGrid(env, g, rect, w);
      && (!InRect(rect, i, j) ==> h[i][j] == g[i][j])
      && (InRect(rect, i, j) ==>
            var before := SetBefore(env, g, rect, w, i, j);
            && h[i][j] == (if Passes(env, w.reg, ValueAt(env, before, i, j)) then SetContent(env, w, i, j) else g[i][j])
            && forall r, c {:trigger before[r][c]} :: 0 <= r < env.rows && 0 <= c < env.cols ==>
                 before[r][c] == if Visited(rect, r, c, i, j) then h[r][c] else g[r][c])
  {
    var height := rect.bottom - rect.top + 1;
    if !InRect(rect, i, j) {
      SetRowsFrame(env, g, rect, w, height, i, j);
    } else {
      SetCellEffect(env, g, rect, w, i, j);
      forall r, c | 0 <= r < env.rows && 0 <= c < env.cols
        ensures SetBefore(env, g, rect, w, i, j)[r][c]
             == if Visited(rect, r, c, i, j) then SetGrid(env, g, rect, w)[r][c] else g[r][c]
      {
        SetBeforeCell(env, g, rect, w, i, j, r, c);
      }
    }
  }

  /** Cell (i, j) of the range in the final sheet. */
  lemma SetCellEffect(env: Env, g: Grid, rect: Rect, w: SetJob, i: nat, j: nat)
    requires Shaped(g, env.rows, env.cols) && Fits(env, rect) && InRect(rect, i, j)
    ensures var before := SetBefore(env, g, rect, w, i, j);
      SetGrid(env, g, rect, w)[i][j]
        == if Passes(env, w.reg, ValueAt(env, before, i, j)) then SetContent(env, w, i, j) else g[i][j]
  {
    var n, m, width, height := i - rect.top, j - rect.left, rect.right - rect.left + 1, rect.bottom - rect.top + 1;
    var above := SetRows(env, g, rect, w, n);
    var before := SetRow(env, above, rect, w, i, m);
    assert before == SetBefore(env, g, rect, w, i, j);
    var row := SetRow(env, above, rect, w, i, width);
    SetRowsNext(env, g, rect, w, n);
    assert SetRows(env, g, rect, w, n + 1) == row;
    SetRowsPrefix(env, g, rect, w, n + 1, height, i, j);
    assert SetGrid(env, g, rect, w)[i][j] == row[i][j];
    SetRowPrefix(env, above, rect, w, i, m + 1, width, i, j);
    SetRowNext(env, above, rect, w, i, m);
    assert row[i][j] == SetCell(env, before, w, i, j)[i][j];
    SetCellAt(env, before, w, i, j, i, j);
    SetRowPrefix(env, above, rect, w, i, 0, m, i, j);
    SetRowsFrame(env, g, rect, w, n, i, j);
    assert before[i][j] == g[i][j];
  }

  /** Any cell of the sheet `applySet` reads cell (i, j) from. */
  lemma SetBeforeCell(env: Env, g: Grid, rect: Rect, w: SetJob, i: nat, j: nat, r: nat, c: nat)
    requires Shaped(g, env.rows, env.cols) && Fits(env, rect) && InRect(rect, i, j)
    requires r < env.rows && c < env.cols
    ensures SetBefore(env, g, rect, w, i, j)[r][c]
         == if Visited(rect, r, c, i, j) then SetGrid(env, g, rect, w)[r][c] else g[r][c]
  {
    var n, m, width, height := i - rect.top, j - rect.left, rect.right - rect.left + 1, rect.bottom - rect.top + 1;
    var above := SetRows(env, g, rect, w, n);
    var before := SetRow(env, above, rect, w, i, m);
    assert before == SetBefore(env, g, rect, w, i, j);
    var h := SetGrid(env, g, rect, w);
    if r < i && InRect(rect, r, c) {
      SetRowPrefix(env, above, rect, w, i, 0, m, r, c);
      assert before[r][c] == above[r][c];
      SetRowsPrefix(env, g, rect, w, n, height, r, c);
      assert h[r][c] == above[r][c];
    } else if r == i && Visited(rect, r, c, i, j) {
      var row := SetRow(env, above, rect, w, i, width);
      SetRowsNext(env, g, rect, w, n);
      assert SetRows(env, g, rect, w, n + 1) == row;
      SetRowsPrefix(env, g, rect, w, n + 1, height, r, c);
      assert h[r][c] == row[r][c];
      SetRowPrefix(env, above, rect, w, i, m, width, r, c);
    } else {
      SetRowPrefix(env, above, rect, w, i, 0, m, r, c);
      assert before[r][c] == above[r][c];
      SetRowsFrame(env, g, rect, w, n, r, c);
    }
  }

  // ------------------------------------------------------- applyToolAction

  /** What the write-back `range.setValues(values)` of `applyToolAction`
      puts in each cell of the range: the cell's value read before the
      tool ran (plain), emptied when it passes the filter ("delete"), or
      the clipboard's entry ("paste"). */
  datatype CellOp =
    | Flatten
    | Delete(reg: Option<string>)
    | Paste(clip: Clip, reg: Option<string>)
    | Drag(formula: string)

  /** The value "paste" leaves at offset (i, j) of the target: the clipboard
      entry there, when it exists and is not null and the target cell
      passes the filter. */
  function PasteValue(env: Env, clip: Clip, reg: Option<string>, i: int, j: int, v: Value): (r: Value)
    ensures r != v ==> 0 <= i < |clip| && 0 <= j < |clip[i]| && clip[i][j] == Some(r) && Passes(env, reg, v)
    ensures 0 <= i < |clip| && 0 <= j < |clip[i]| && clip[i][j].Some? && Passes(env, reg, v) ==> r == clip[i][j].value
  {
    if 0 <= i < |clip| && 0 <= j < |clip[i]| && clip[i][j].Some? && Passes(env, reg, v) then clip[i][j].value else v
  }

  /** The paste as written: `clipboard[i] && clipboard[i][j] !== null` is
      true when row i exists but column j lies beyond it (the entry is
      `undefined`), so such a cell, when it passes the filter, is written
      with `undefined`, which `setValues` stores as an empty cell. */
  function PasteValueAsWritten(env: Env, clip: Clip, reg: Option<string>, i: int, j: int, v: Value): (r: Value)
    ensures 0 <= i < |clip| && 0 <= j < |clip[i]| ==> r == PasteValue(env, clip, reg, i, j, v)
    ensures 0 <= i < |clip| && j >= |clip[i]| ==> r == if Passes(env, reg, v) then Blank else v
    ensures !(0 <= i < |clip|) || j < 0 ==> r == v
  {
    if 0 <= i < |clip| && (j >= |clip[i]| || (0 <= j && clip[i][j].Some?)) && Passes(env, reg, v) then
      (if 0 <= j < |clip[i]| then clip[i][j].value else Blank)
    else v
  }

  /** Pasting a one-cell clipboard into a two-cell-wide target empties the
      second cell as written; the corrected paste leaves it alone. */
  lemma PasteBeyondClipboardWidth(env: Env)
    ensures var clip := [[Some(Str("x"))]];
            PasteValueAsWritten(env, clip, None, 0, 1, Str("keep")) == Blank
            && PasteValue(env, clip, None, 0, 1, Str("keep")) == Str("keep")
  {
  }

  /** The value the script pastes: as written, or corrected. */
  function PasteAt(env: Env, clip: Clip, reg: Option<string>, i: int, j: int, v: Value): (r: Value)
    ensures 0 <= i < |clip| && 0 <= j < |clip[i]| ==> r == PasteValue(env, clip, reg, i, j, v)
    ensures !env.asWritten ==> r == PasteValue(env, clip, reg, i, j, v)
  {
    if env.asWritten then PasteValueAsWritten(env, clip, reg, i, j, v) else PasteValue(env, clip, reg, i, j, v)
  }

  /** What cell (r, c) of `rect` becomes under `op`, where `g` is the sheet
      as it was when the range's values were read. */
  function ApplyOp(env: Env, g: Grid, op: CellOp, rect: Rect, r: nat, c: nat): (x: Content)
    requires r < |g| && c < |g[r]|
    ensures !op.Drag? ==> x.Literal?
    ensures op.Flatten? ==> x.v == ValueAt(env, g, r, c)
    ensures op.Delete? ==> x.v == if Passes(env, op.reg, ValueAt(env, g, r, c)) then Blank else ValueAt(env, g, r, c)
    ensures op.Drag? ==> x == if r == rect.top && c == rect.left then g[r][c] else Formula(op.formula)
  {
    match op
    case Drag(f) => if r == rect.top && c == rect.left then g[r][c] else Formula(f)
    case Flatten => Literal(ValueAt(env, g, r, c))
    case Delete(reg) =>
      var v := ValueAt(env, g, r, c);
      Literal(if Passes(env, reg, v) then Blank else v)
    case Paste(clip, reg) =>
      Literal(PasteAt(env, clip, reg, r - rect.top, c - rect.left, ValueAt(env, g, r, c)))
  }

  /** The grid after `op` has been applied to every cell of `rect`. */
  function MapGrid(env: Env, g: Grid, rect: Rect, op: CellOp): (r: Grid)
    requires Shaped(g, env.rows, env.cols)
    ensures Shaped(r, env.rows, env.cols)
    ensures forall i, j {:trigger r[i][j]} :: 0 <= i < env.rows && 0 <= j < env.cols ==>
      r[i][j] == if InRect(rect, i, j) then ApplyOp(env, g, op, rect, i, j) else g[i][j]
  {
    seq(env.rows, i requires 0 <= i < env.rows =>
      seq(env.cols, j requires 0 <= j < env.cols =>
        if InRect(rect, i, j) then ApplyOp(env, g, op, rect, i, j) else g[i][j]))
  }

  /** The clipboard "copy" builds: the range's shape, each value that passes
      the filter, null for the rest. */
  function ClipOf(env: Env, g: Grid, rect: Rect, reg: Option<string>): (r: Clip)
    requires Shaped(g, env.rows, env.cols) && Fits(env, rect)
    ensures Shaped(r, rect.bottom - rect.top + 1, rect.right - rect.left + 1)
  {
    seq(rect.bottom - rect.top + 1, i requires 0 <= i <= rect.bottom - rect.top =>
      ClipRow(env, g, rect, reg, i, rect.right - rect.left + 1))
  }

  /** The first `n` entries of row `i` of the clipboard. */
  function ClipRow(env: Env, g: Grid, rect: Rect, reg: Option<string>, i: nat, n: nat): (r: seq<Option<Value>>)
    requires Shaped(g, env.rows, env.cols) && Fits(env, rect)
    requires i <= rect.bottom - rect.top && n <= rect.right - rect.left + 1
    ensures |r| == n
  {
    seq(n, j requires 0 <= j < n => ClipEntry(env, g, rect.top + i, rect.left + j, reg))
  }

  function ClipEntry(env: Env, g: Grid, r: nat, c: nat, reg: Option<string>): (e: Option<Value>)
    requires Shaped(g, env.rows, env.cols) && r < env.rows && c < env.cols
    ensures e.Some? <==> Passes(env, reg, ValueAt(env, g, r, c))
    ensures e.Some? ==> e.value == ValueAt(env, g, r, c)
  {
    var v := ValueAt(env, g, r, c);
    if Passes(env, reg, v) then Some(v) else None
  }

  /** `applyToolAction` on `rect`: the grid after `range.setValues(values)`
      and the clipboard. "copy" fills the clipboard, "paste" (or
      "pasteasvalues") with an empty clipboard returns before writing
      anything, "delete" empties the cells that pass the filter; every tool
      that reaches the write-back replaces the range's formulas by the
      values they showed when the range was read. */
  function ToolResult(env: Env, g: Grid, clip: Option<Clip>, rect: Rect, a: Action): (r: (Grid, Option<Clip>))
    requires a.ToolAction? && Shaped(g, env.rows, env.cols) && Fits(env, rect)
    ensures Shaped(r.0, env.rows, env.cols)
  {
    var t := Lower(a.tool);
    if t == "copy" then (MapGrid(env, g, rect, Flatten), Some(ClipOf(env, g, rect, a.reg)))
    else if t == "paste" || t == "pasteasvalues" then
      if clip.None? then (g, clip) else (MapGrid(env, g, rect, Paste(clip.value, a.reg)), clip)
    else if t == "delete" then (MapGrid(env, g, rect, Delete(a.reg)), clip)
    else (MapGrid(env, g, rect, Flatten), clip)
  }

  /** No tool changes the content of a cell outside the range, and every
      tool that reaches the write-back leaves literal values in the range;
      on the range's cells, "copy" and the tools the script does not know
      change no value; "delete" empties exactly the cells that pass the
      filter; "paste" with an empty clipboard changes nothing, and
      otherwise writes each clipboard entry that exists and is not null at
      its own offset in every target cell that passes the filter, and
      changes no other value, except that as written a cell beyond the end
      of its clipboard row that passes the filter is emptied. (A formula
      outside the range keeps its text but may show a new value.) */
  lemma ToolEffects(env: Env, g: Grid, clip: Option<Clip>, rect: Rect, a: Action, i: nat, j: nat)
    requires a.ToolAction? && Shaped(g, env.rows, env.cols) && Fits(env, rect)
    requires i < env.rows && j < env.cols
    ensures var (h, c) := ToolResult(env, g, clip, rect, a);
      var t := Lower(a.tool);
      var before, after := ValueAt(env, g, i, j), ValueAt(env, h, i, j);
      var pasting := (t == "paste" || t == "pasteasvalues") && clip.Some?;
      var k, l := i - rect.top, j - rect.left;
      && (!InRect(rect, i, j) ==> h[i][j] == g[i][j])
      && (t == "copy" ==> c == Some(ClipOf(env, g, rect, a.reg)))
      && (t != "copy" ==> c == clip)
      && ((t == "paste" || t == "pasteasvalues") && clip.None? ==> h == g)
      && (InRect(rect, i, j) ==>
            && (!((t == "paste" || t == "pasteasvalues") && clip.None?) ==> h[i][j].Literal?)
            && (!(t in {"paste", "pasteasvalues", "delete"}) ==> after == before)
            && (t == "delete" ==> after == if Passes(env, a.reg, before) then Blank else before)
            && ((pasting && k < |clip.value| && l < |clip.value[k]| && clip.value[k][l].Some?
                   && Passes(env, a.reg, before)) ==> after == clip.value[k][l].value)
            && (pasting && after != before ==>
                  && k < |clip.value| && Passes(env, a.reg, before)
                  && ((l < |clip.value[k]| && clip.value[k][l] == Some(after))
                      || (env.asWritten && l >= |clip.value[k]| && after == Blank)))
            && (pasting && k < |clip.value| && l >= |clip.value[k]| ==>
                  after == if env.asWritten && Passes(env, a.reg, before) then Blank else before))
  {
    var t := Lower(a.tool);
    if t == "copy" || !(t in {"paste", "pasteasvalues", "delete"}) {
      var h := MapGrid(env, g, rect, Flatten);
      assert h[i][j] == if InRect(rect, i, j) then ApplyOp(env, g, Flatten, rect, i, j) else g[i][j];
    } else if t == "delete" {
      var h := MapGrid(env, g, rect, Delete(a.reg));
      assert h[i][j] == if InRect(rect, i, j) then ApplyOp(env, g, Delete(a.reg), rect, i, j) else g[i][j];
    } else if clip.Some? {
      var op := Paste(clip.value, a.reg);
      var h := MapGrid(env, g, rect, op);
      if InRect(rect, i, j) {
        assert h[i][j] == Literal(PasteAt(env, clip.value, a.reg, i - rect.top, j - rect.left, ValueAt(env, g, i, j)));
      } else {
        assert h[i][j] == g[i][j];
      }
    }
  }

  /** The clipboard after "copy" holds, at each offset of the range, the
      value there if it passes the filter and null otherwise. */
  lemma CopiedEntry(env: Env, g: Grid, rect: Rect, reg: Option<string>, k: nat, l: nat)
    requires Shaped(g, env.rows, env.cols) && Fits(env, rect)
    requires k <= rect.bottom - rect.top && l <= rect.right - rect.left
    ensures var v := ValueAt(env, g, rect.top + k, rect.left + l);
      ClipOf(env, g, rect, reg)[k][l] == if Passes(env, reg, v) then Some(v) else None
  {
    var row := ClipRow(env, g, rect, reg, k, rect.right - rect.left + 1);
    assert ClipOf(env, g, rect, reg)[k] == row;
    assert row[l] == ClipEntry(env, g, rect.top + k, rect.left + l, reg);
  }

  // ------------------------------------------------- applySelectAndDrag

  /** `applySelectAndDrag`: the R1C1 formula of the range's top-left cell is
      written to every other cell of the range; without one, nothing. */
  function DragGrid(env: Env, g: Grid, rect: Rect): (r: Grid)
    requires Shaped(g, env.rows, env.cols) && Fits(env, rect)
    ensures Shaped(r, env.rows, env.cols)
    ensures forall i, j {:trigger r[i][j]} :: 0 <= i < env.rows && 0 <= j < env.cols ==>
      r[i][j] == if InRect(rect, i, j) && !(i == rect.top && j == rect.left) && g[rect.top][rect.left].Formula?
                    && g[rect.top][rect.left].r1c1 != "" then g[rect.top][rect.left] else g[i][j]
  {
    match g[rect.top][rect.left]
    case Formula(f) => if f != "" then MapGrid(env, g, rect, Drag(f)) else g
    case Literal(_) => g
  }

  // --------------------------------------------- processSequentialActions

  /** What `processSequentialActions` carries from one action to the next. */
  datatype RunState = RunState(cells: Grid, formats: Formats, clipboard: Option<Clip>,
                               selected: Option<Rect>, messages: seq<string>)

  predicate StateOk(env: Env, st: RunState) {
    Shaped(st.cells, env.rows, env.cols) && Shaped(st.formats, env.rows, env.cols)
    && (st.selected.Some? ==> Fits(env, st.selected.value))
  }

  /** One action. Actions that work on the selection are skipped while there
      is none; a `Format`, `Set` or `ToolAction` whose filter pattern does
      not compile throws before it writes anything; "Terminate" (its
      `return` only leaves the `forEach` callback) and "Read" do nothing. */
  function Step(env: Env, st: RunState, a: Action): (r: Result<RunState>)
    requires StateOk(env, st)
    ensures r.Success? ==> StateOk(env, r.value)
  {
    match a
    case Select(_, col1, row1, col2, row2) =>
      var rect :- RangeFromSelect(env, st.cells, col1, row1, col2, row2);
      Success(st.(selected := Some(rect)))
    case ToolAction(reg, _) =>
      if st.selected.None? then Success(st)
      else if BadPattern(env, reg) then Failure(PatternError(reg.value))
      else
        var t := ToolResult(env, st.cells, st.clipboard, st.selected.value, a);
        Success(st.(cells := t.0, clipboard := t.1))
    case Set(reg, text) =>
      if st.selected.None? then Success(st)
      else if BadPattern(env, reg) then Failure(PatternError(reg.value))
      else Success(st.(cells := SetGrid(env, st.cells, st.selected.value, JobOf(text, reg))))
    case Format(reg, _, _, _, _, _, _, _) =>
      if st.selected.None? then Success(st)
      else if BadPattern(env, reg) then Failure(PatternError(reg.value))
      else Success(st.(formats := FormatGrid(env, st.formats, st.cells, st.selected.value, a)))
    case SelectAndDrag(_, col1, row1, col2, row2) =>
      if st.selected.None? then Success(st)
      else
        var rect :- RangeFromSelect(env, st.cells, col1, row1, Some(col2), Some(row2));
        Success(st.(selected := Some(rect), cells := DragGrid(env, st.cells, rect)))
    case TellUser(_, m) => Success(if m != "" then st.(messages := st.messages + [m]) else st)
    case Terminate(_) => Success(st)
    case Read(_, _, _, _, _) => Success(st)
  }

  /** The actions in order; the first exception ends the run. */
  function Run(env: Env, st: RunState, actions: seq<Action>): (r: Result<RunState>)
    requires StateOk(env, st)
    ensures r.Success? ==> StateOk(env, r.value)
    decreases |actions|
  {
    if actions == [] then Success(st)
    else
      match Step(env, st, actions[0])
      case Failure(e) => Failure(e)
      case Success(next) => Run(env, next, actions[1..])
  }

  /** The state a run stops in: the final state when every action
      succeeds, else the state just before the action that throws (the
      script has no `try`, so the earlier actions' writes stay). */
  function Halted(env: Env, st: RunState, actions: seq<Action>): (r: RunState)
    requires StateOk(env, st)
    ensures StateOk(env, r)
    ensures Run(env, st, actions).Success? ==> r == Run(env, st, actions).value
    decreases |actions|
  {
    if actions == [] then st
    else
      match Step(env, st, actions[0])
      case Failure(_) => st
      case Success(next) => Halted(env, next, actions[1..])
  }

  /** A run that throws has run some prefix of the actions to completion,
      ending in the halted state, and the next action throws the run's
      error from there. */
  lemma {:induction false} HaltedAt(env: Env, st: RunState, actions: seq<Action>) returns (k: nat)
    requires StateOk(env, st) && Run(env, st, actions).Failure?
    ensures k < |actions|
    ensures Run(env, st, actions[..k]) == Success(Halted(env, st, actions))
    ensures Step(env, Halted(env, st, actions), actions[k]) == Failure(Run(env, st, actions).error)
    decreases |actions|
  {
    match Step(env, st, actions[0])
    case Failure(e) =>
      k := 0;
      assert actions[..0] == [];
    case Success(next) =>
      var j := HaltedAt(env, next, actions[1..]);
      k := j + 1;
      assert actions[..k][0] == actions[0] && actions[..k][1..] == actions[1..][..j];
      assert actions[1..][j] == actions[k];
  }

  /** The halted state from position `k` is the one from `k + 1` after a
      successful step, and the current state after a failing one. */
  lemma HaltedFrom(env: Env, st: RunState, xs: seq<Action>, k: nat)
    requires StateOk(env, st) && k < |xs|
    ensures Halted(env, st, xs[k..]) == match Step(env, st, xs[k])
                                        case Success(next) => Halted(env, next, xs[k + 1..])
                                        case Failure(_) => st
  {
    assert xs[k..][0] == xs[k] && xs[k..][1..] == xs[k + 1..];
  }

  /** A successful step at `k` carries the halted state on to `k + 1`. */
  lemma HaltedTo(env: Env, st0: RunState, cur: RunState, next: RunState, xs: seq<Action>, k: nat)
    requires StateOk(env, st0) && StateOk(env, cur) && k < |xs|
    requires Halted(env, st0, xs) == Halted(env, cur, xs[k..]) && Step(env, cur, xs[k]) == Success(next)
    ensures StateOk(env, next) && Halted(env, st0, xs) == Halted(env, next, xs[k + 1..])
  {
    HaltedFrom(env, cur, xs, k);
  }

  /** A failing step at `k` halts the run in the state before it. */
  lemma HaltedStops(env: Env, st0: RunState, cur: RunState, xs: seq<Action>, k: nat)
    requires StateOk(env, st0) && StateOk(env, cur) && k < |xs|
    requires Halted(env, st0, xs) == Halted(env, cur, xs[k..]) && Step(env, cur, xs[k]).Failure?
    ensures Halted(env, st0, xs) == cur
  {
    HaltedFrom(env, cur, xs, k);
  }

  /** The non-empty `TellUser` messages, in order. */
  function Told(actions: seq<Action>): (r: seq<string>)
    ensures |r| <= |actions|
    ensures forall k :: 0 <= k < |r| ==> r[k] != ""
  {
    if actions == [] then []
    else (if actions[0].TellUser? && actions[0].message != "" then [actions[0].message] else [])
         + Told(actions[1..])
  }

  /** Only a `TellUser` with a non-empty message adds to the messages. */
  lemma StepMessages(env: Env, st: RunState, a: Action)
    requires StateOk(env, st) && Step(env, st, a).Success?
    ensures Step(env, st, a).value.messages
         == st.messages + if a.TellUser? && a.message != "" then [a.message] else []
  {
  }

  /** With a range selected, a `Format`, `Set` or `ToolAction` throws
      exactly when its filter pattern does not compile, and then with the
      SyntaxError. */
  lemma PatternThrows(env: Env, st: RunState, a: Action)
    requires StateOk(env, st) && st.selected.Some? && (a.Format? || a.Set? || a.ToolAction?)
    ensures Step(env, st, a).Failure? <==> BadPattern(env, a.reg)
    ensures BadPattern(env, a.reg) ==> Step(env, st, a) == Failure(PatternError(a.reg.value))
  {
  }

  /** Each kind of action changes only its own part of the state: a `Set`
      or a `SelectAndDrag` no format, a `Format` no cell, only a tool action
      the clipboard, only `Select` and `SelectAndDrag` the selection, and a
      `Set` or `Format` acts on the range that stays selected. */
  lemma StepFrames(env: Env, st: RunState, a: Action)
    requires StateOk(env, st) && Step(env, st, a).Success?
    ensures var n := Step(env, st, a).value;
      && (!a.ToolAction? ==> n.clipboard == st.clipboard)
      && (!(a.Select? || a.SelectAndDrag?) ==> n.selected == st.selected)
      && (a.Set? || a.SelectAndDrag? || a.ToolAction? ==> n.formats == st.formats)
      && (a.Format? || a.Select? ==> n.cells == st.cells)
      && (a.Set? && st.selected.Some? ==> n.cells == SetGrid(env, st.cells, st.selected.value, JobOf(a.text, a.reg)))
      && (a.Format? && st.selected.Some? ==> n.formats == FormatGrid(env, st.formats, st.cells, st.selected.value, a))
  {
  }

  /** A run that completes has collected exactly the non-empty messages of
      its `TellUser` actions, in order, and nothing else. */
  lemma {:induction false} RunMessages(env: Env, st: RunState, actions: seq<Action>)
    requires StateOk(env, st) && Run(env, st, actions).Success?
    ensures Run(env, st, actions).value.messages == st.messages + Told(actions)
    decreases |actions|
  {
    if actions != [] {
      var next := RunHead(env, st, actions);
      RunMessages(env, next, actions[1..]);
      ToldCons(st.messages, actions);
    }
  }

  /** The first action's message, then the rest's. */
  lemma ToldCons(before: seq<string>, actions: seq<Action>)
    requires actions != []
    ensures before + Told(actions)
         == before + (if actions[0].TellUser? && actions[0].message != "" then [actions[0].message] else [])
            + Told(actions[1..])
  {
    var m := if actions[0].TellUser? && actions[0].message != "" then [actions[0].message] else [];
    assert Told(actions) == m + Told(actions[1..]);
    AppendAssoc(before, m, Told(actions[1..]));
  }

  lemma AppendAssoc(a: seq<string>, b: seq<string>, c: seq<string>)
    ensures a + (b + c) == a + b + c
  {
  }

  /** A run that completes completes its first step, which adds the first
      action's message if it is a non-empty `TellUser`, then the rest. */
  lemma RunHead(env: Env, st: RunState, actions: seq<Action>) returns (next: RunState)
    requires StateOk(env, st) && actions != [] && Run(env, st, actions).Success?
    ensures StateOk(env, next) && Run(env, next, actions[1..]) == Run(env, st, actions)
    ensures next.messages == st.messages
         + if actions[0].TellUser? && actions[0].message != "" then [actions[0].message] else []
  {
    next := Step(env, st, actions[0]).value;
    StepMessages(env, st, actions[0]);
  }

  /** Running `xs + ys` runs `xs`, then `ys` from where `xs` left off. */
  lemma {:induction false} RunAppend(env: Env, st: RunState, xs: seq<Action>, ys: seq<Action>)
    requires StateOk(env, st)
    ensures Run(env, st, xs + ys) == match Run(env, st, xs)
                                     case Success(mid) => Run(env, mid, ys)
                                     case Failure(e) => Failure(e)
    decreases |xs|
  {
    if xs != [] {
      assert (xs + ys)[0] == xs[0] && (xs + ys)[1..] == xs[1..] + ys;
      if Step(env, st, xs[0]).Success? {
        RunAppend(env, Step(env, st, xs[0]).value, xs[1..], ys);
      }
    } else {
      assert xs + ys == ys;
    }
  }

  /** The run from position `k` takes the step at `k`, then runs on. */
  lemma RunFrom(env: Env, st: RunState, xs: seq<Action>, k: nat)
    requires StateOk(env, st) && k < |xs|
    ensures Run(env, st, xs[k..]) == match Step(env, st, xs[k])
                                     case Success(next) => Run(env, next, xs[k + 1..])
                                     case Failure(e) => Failure(e)
  {
    assert xs[k..][0] == xs[k] && xs[k..][1..] == xs[k + 1..];
  }

  /** A run that has reached `cur` at position `k` either stops with the
      step's failure or goes on from the step's result. */
  lemma Advance(env: Env, st0: RunState, cur: RunState, xs: seq<Action>, k: nat)
    requires StateOk(env, st0) && StateOk(env, cur) && k < |xs|
    requires Run(env, st0, xs) == Run(env, cur, xs[k..])
    ensures match Step(env, cur, xs[k])
      case Success(next) => Run(env, st0, xs) == Run(env, next, xs[k + 1..])
      case Failure(e) => Run(env, st0, xs) == Failure(e)
  {
    RunFrom(env, cur, xs, k);
  }

  /** A step that succeeds moves the run on to its result. */
  lemma AdvanceTo(env: Env, st0: RunState, cur: RunState, next: RunState, xs: seq<Action>, k: nat)
    requires StateOk(env, st0) && StateOk(env, cur) && k < |xs|
    requires Run(env, st0, xs) == Run(env, cur, xs[k..]) && Step(env, cur, xs[k]) == Success(next)
    ensures StateOk(env, next) && Run(env, st0, xs) == Run(env, next, xs[k + 1..])
  {
    Advance(env, st0, cur, xs, k);
  }

  /** A step that fails ends the run with its error. */
  lemma AdvanceFails(env: Env, st0: RunState, cur: RunState, xs: seq<Action>, k: nat, e: string)
    requires StateOk(env, st0) && StateOk(env, cur) && k < |xs|
    requires Run(env, st0, xs) == Run(env, cur, xs[k..]) && Step(env, cur, xs[k]) == Failure(e)
    ensures Run(env, st0, xs) == Failure(e)
  {
    Advance(env, st0, cur, xs, k);
  }

  /** A run from no messages that has taken every action ends in the state
      reached, whose messages are the ones told along the way. */
  lemma RunDone(env: Env, st0: RunState, last: RunState, xs: seq<Action>)
    requires StateOk(env, st0) && StateOk(env, last) && st0.messages == []
    requires Run(env, st0, xs) == Run(env, last, xs[|xs|..])
    ensures Run(env, st0, xs) == Success(last) && last.messages == Told(xs)
  {
    assert xs[|xs|..] == [];
    RunMessages(env, st0, xs);
    assert [] + Told(xs) == Told(xs);
  }

  /** `TellUser` keeps the run going with its message added, unless empty. */
  lemma TellAdvance(env: Env, st0: RunState, cur: RunState, xs: seq<Action>, k: nat) returns (next: RunState)
    requires StateOk(env, st0) && StateOk(env, cur) && k < |xs| && xs[k].TellUser?
    requires Run(env, st0, xs) == Run(env, cur, xs[k..])
    ensures next == if xs[k].message != "" then cur.(messages := cur.messages + [xs[k].message]) else cur
    ensures Step(env, cur, xs[k]) == Success(next)
    ensures StateOk(env, next) && Run(env, st0, xs) == Run(env, next, xs[k + 1..])
  {
    TellStep(env, cur, xs[k]);
    next := Step(env, cur, xs[k]).value;
    AdvanceTo(env, st0, cur, next, xs, k);
  }

  /** A message is added unless it is empty. */
  lemma TellStep(env: Env, st: RunState, a: Action)
    requires StateOk(env, st) && a.TellUser?
    ensures Step(env, st, a) == Success(if a.message != "" then st.(messages := st.messages + [a.message]) else st)
  {
  }

  /** "Terminate" does not stop the run: the actions after it still run, as
      if it were not there. */
  lemma TerminateDoesNotStop(env: Env, st: RunState, xs: seq<Action>, reg: Option<string>, ys: seq<Action>)
    requires StateOk(env, st)
    ensures Run(env, st, xs + [Terminate(reg)] + ys) == Run(env, st, xs + ys)
  {
    RunAppend(env, st, xs, [Terminate(reg)] + ys);
    assert xs + [Terminate(reg)] + ys == xs + ([Terminate(reg)] + ys);
    RunAppend(env, st, xs, ys);
    if Run(env, st, xs).Success? {
      RunAfterTerminate(env, Run(env, st, xs).value, reg, ys);
    }
  }

  /** A leading "Terminate" is skipped. */
  lemma RunAfterTerminate(env: Env, st: RunState, reg: Option<string>, ys: seq<Action>)
    requires StateOk(env, st)
    ensures Run(env, st, [Terminate(reg)] + ys) == Run(env, st, ys)
  {
    var zs := [Terminate(reg)] + ys;
    assert zs[0] == Terminate(reg) && zs[1..] == ys;
    assert Step(env, st, Terminate(reg)) == Success(st);
  }

  /** With no range selected, the actions on a selection change nothing. */
  lemma SkippedWithoutSelection(env: Env, st: RunState, a: Action)
    requires StateOk(env, st) && st.selected.None?
    requires a.ToolAction? || a.Set? || a.Format? || a.SelectAndDrag?
    ensures Step(env, st, a) == Success(st)
  {
  }

  /** A selection changes nothing but the selection, and a message nothing
      but the messages. */
  lemma SelectAndTellFrames(env: Env, st: RunState, a: Action)
    requires StateOk(env, st) && (a.Select? || a.TellUser?) && Step(env, st, a).Success?
    ensures var n := Step(env, st, a).value;
      n.cells == st.cells && n.formats == st.formats && n.clipboard == st.clipboard
      && (a.Select? ==> n.messages == st.messages && n.selected.Some?)
      && (a.TellUser? ==> n.selected == st.selected)
  {
  }

  // ----------------------------------------------------------- the script

  lemma SameGrid<T>(a: seq<seq<T>>, b: seq<seq<T>>, n: nat, m: nat)
    requires Shaped(a, n, m) && Shaped(b, n, m)
    requires forall r, c {:trigger a[r][c]} :: 0 <= r < n && 0 <= c < m ==> a[r][c] == b[r][c]
    ensures a == b
  {
    forall r | 0 <= r < n
      ensures a[r] == b[r]
    {
      assert forall c :: 0 <= c < m ==> a[r][c] == b[r][c];
    }
  }

  /** Cell (r, c) of `rect` comes before cell (i, j) in row-by-row order. */
  predicate Visited(rect: Rect, r: int, c: int, i: int, j: int) {
    InRect(rect, r, c) && (r < i || (r == i && c < j))
  }

  lemma ClipRowNext(env: Env, g: Grid, rect: Rect, reg: Option<string>, i: nat, n: nat)
    requires Shaped(g, env.rows, env.cols) && Fits(env, rect)
    requires i <= rect.bottom - rect.top && n < rect.right - rect.left + 1
    ensures ClipRow(env, g, rect, reg, i, n + 1)
         == ClipRow(env, g, rect, reg, i, n) + [ClipEntry(env, g, rect.top + i, rect.left + n, reg)]
  {
  }

  /** The active sheet together with the script's module-level clipboard. */
  class Script {
    const env: Env
    var cells: Grid
    var formats: Formats
    var clipboard: Option<Clip>

    predicate Valid()
      reads this
    {
      Shaped(cells, env.rows, env.cols) && Shaped(formats, env.rows, env.cols)
    }

    /** The script is loaded with an empty clipboard. */
    constructor(e: Env, g: Grid, fm: Formats)
      requires Shaped(g, e.rows, e.cols) && Shaped(fm, e.rows, e.cols)
      ensures Valid() && env == e && cells == g && formats == fm && clipboard == None
    {
      env := e;
      cells := g;
      formats := fm;
      clipboard := None;
    }

    /** Writes `op` into every cell of `rect`, row by row, from the values
        the range held when it was read. */
    method MapCells(rect: Rect, op: CellOp)
      requires Valid() && Fits(env, rect)
      modifies this
      ensures Valid() && cells == MapGrid(env, old(cells), rect, op)
      ensures formats == old(formats) && clipboard == old(clipboard)
    {
      var values := cells;
      var i := rect.top;
      while i <= rect.bottom
        invariant rect.top <= i <= rect.bottom + 1
        invariant Valid() && formats == old(formats) && clipboard == old(clipboard)
        invariant forall r, c {:trigger cells[r][c]} :: 0 <= r < env.rows && 0 <= c < env.cols ==>
          cells[r][c] == if Visited(rect, r, c, i, rect.left) then ApplyOp(env, values, op, rect, r, c) else values[r][c]
      {
        var j := rect.left;
        while j <= rect.right
          invariant rect.left <= j <= rect.right + 1
          invariant Valid() && formats == old(formats) && clipboard == old(clipboard)
          invariant forall r, c {:trigger cells[r][c]} :: 0 <= r < env.rows && 0 <= c < env.cols ==>
            cells[r][c] == if Visited(rect, r, c, i, j) then ApplyOp(env, values, op, rect, r, c) else values[r][c]
        {
          cells := cells[i := cells[i][j := ApplyOp(env, values, op, rect, i, j)]];
          j := j + 1;
        }
        i := i + 1;
      }
      SameGrid(cells, MapGrid(env, values, rect, op), env.rows, env.cols);
    }

    /** `applySet`: cell by cell, row by row, each cell of the range whose
        value, read after the earlier cells were written, passes the filter
        gets the text, as a formula when it starts with "=" once trimmed. */
    method ApplySet(rect: Rect, a: Action)
      requires Valid() && Fits(env, rect) && a.Set?
      modifies this
      ensures Valid() && cells == SetGrid(env, old(cells), rect, JobOf(a.text, a.reg))
      ensures formats == old(formats) && clipboard == old(clipboard)
    {
      cells := SetCells(env, cells, rect, JobOf(a.text, a.reg));
    }

    /** `applyFormat`: each cell of the range whose value passes the filter
        gets the style. */
    method ApplyFormat(rect: Rect, a: Action)
      requires Valid() && Fits(env, rect) && a.Format?
      modifies this
      ensures Valid() && formats == FormatGrid(env, old(formats), cells, rect, a)
      ensures cells == old(cells) && clipboard == old(clipboard)
    {
      ghost var fm := formats;
      var i := rect.top;
      while i <= rect.bottom
        invariant rect.top <= i <= rect.bottom + 1
        invariant Valid() && cells == old(cells) && clipboard == old(clipboard)
        invariant forall r, c {:trigger formats[r][c]} :: 0 <= r < env.rows && 0 <= c < env.cols ==>
          formats[r][c] == if Visited(rect, r, c, i, rect.left) && Passes(env, a.reg, ValueAt(env, cells, r, c))
                           then StyleCell(env, fm[r][c], a) else fm[r][c]
      {
        var j := rect.left;
        while j <= rect.right
          invariant rect.left <= j <= rect.right + 1
          invariant Valid() && cells == old(cells) && clipboard == old(clipboard)
          invariant forall r, c {:trigger formats[r][c]} :: 0 <= r < env.rows && 0 <= c < env.cols ==>
            formats[r][c] == if Visited(rect, r, c, i, j) && Passes(env, a.reg, ValueAt(env, cells, r, c))
                             then StyleCell(env, fm[r][c], a) else fm[r][c]
        {
          if Passes(env, a.reg, ValueAt(env, cells, i, j)) {
            formats := formats[i := formats[i][j := StyleCell(env, formats[i][j], a)]];
          }
          j := j + 1;
        }
        i := i + 1;
      }
      SameGrid(formats, FormatGrid(env, fm, cells, rect, a), env.rows, env.cols);
    }

    /** `applySelectAndDrag`. */
    method ApplySelectAndDrag(rect: Rect)
      requires Valid() && Fits(env, rect)
      modifies this
      ensures Valid() && cells == DragGrid(env, old(cells), rect)
      ensures formats == old(formats) && clipboard == old(clipboard)
    {
      var source := cells[rect.top][rect.left];
      if source.Literal? || source.r1c1 == "" {
        return;
      }
      MapCells(rect, Drag(source.r1c1));
    }

    /** The "copy" branch of `applyToolAction`: the clipboard is rebuilt row
        by row. */
    method CopyRange(rect: Rect, reg: Option<string>)
      requires Valid() && Fits(env, rect)
      modifies this
      ensures Valid() && clipboard == Some(ClipOf(env, cells, rect, reg))
      ensures cells == old(cells) && formats == old(formats)
    {
      var h, w := rect.bottom - rect.top + 1, rect.right - rect.left + 1;
      var g := cells;
      var clip: Clip := [];
      var i := 0;
      while i < h
        invariant 0 <= i <= h && |clip| == i
        invariant cells == g && formats == old(formats) && Valid()
        invariant forall k :: 0 <= k < i ==> clip[k] == ClipRow(env, g, rect, reg, k, w)
      {
        var row: seq<Option<Value>> := [];
        var j := 0;
        while j < w
          invariant 0 <= j <= w && row == ClipRow(env, g, rect, reg, i, j)
          invariant cells == g && formats == old(formats) && Valid()
        {
          var v := ValueAt(env, g, rect.top + i, rect.left + j);
          ClipRowNext(env, g, rect, reg, i, j);
          row := row + [if Passes(env, reg, v) then Some(v) else None];
          j := j + 1;
        }
        clip := clip + [row];
        i := i + 1;
      }
      assert clip == ClipOf(env, g, rect, reg);
      clipboard := Some(clip);
    }

    /** `applyToolAction`. */
    method ApplyToolAction(rect: Rect, a: Action)
      requires Valid() && Fits(env, rect) && a.ToolAction?
      modifies this
      ensures Valid() && (cells, clipboard) == ToolResult(env, old(cells), old(clipboard), rect, a)
      ensures formats == old(formats)
    {
      var t := Lower(a.tool);
      if t == "copy" {
        CopyRange(rect, a.reg);
        MapCells(rect, Flatten);
      } else if t == "paste" || t == "pasteasvalues" {
        if clipboard.None? {
          return;
        }
        MapCells(rect, Paste(clipboard.value, a.reg));
      } else if t == "delete" {
        MapCells(rect, Delete(a.reg));
      } else {
        MapCells(rect, Flatten);
      }
    }

    /** One action other than `TellUser`, given the current selection;
        returns the new selection or the exception that ends the run. */
    method Act(a: Action, selected: Option<Rect>, ghost messages: seq<string>) returns (r: Result<Option<Rect>>)
      requires Valid() && (selected.Some? ==> Fits(env, selected.value)) && !a.TellUser?
      modifies this
      ensures Valid()
      ensures Step(env, RunState(old(cells), old(formats), old(clipboard), selected, messages), a)
              == if r.Success? then Success(RunState(cells, formats, clipboard, r.value, messages)) else Failure(r.error)
      ensures r.Failure? ==> cells == old(cells) && formats == old(formats) && clipboard == old(clipboard)
    {
      match a
      case Select(_, col1, row1, col2, row2) =>
        var range := RangeFromSelect(env, cells, col1, row1, col2, row2);
        if range.Failure? {
          return Failure(range.error);
        }
        return Success(Some(range.value));
      case ToolAction(_, _) =>
        if selected.None? {
          return Success(None);
        }
        if BadPattern(env, a.reg) {
          return Failure(PatternError(a.reg.value));
        }
        ApplyToolAction(selected.value, a);
        return Success(selected);
      case Set(_, _) =>
        if selected.None? {
          return Success(None);
        }
        if BadPattern(env, a.reg) {
          return Failure(PatternError(a.reg.value));
        }
        ApplySet(selected.value, a);
        return Success(selected);
      case Format(_, _, _, _, _, _, _, _) =>
        if selected.None? {
          return Success(None);
        }
        if BadPattern(env, a.reg) {
          return Failure(PatternError(a.reg.value));
        }
        ApplyFormat(selected.value, a);
        return Success(selected);
      case SelectAndDrag(_, col1, row1, col2, row2) =>
        if selected.None? {
          return Success(None);
        }
        var range := RangeFromSelect(env, cells, col1, row1, Some(col2), Some(row2));
        if range.Failure? {
          return Failure(range.error);
        }
        ApplySelectAndDrag(range.value);
        return Success(Some(range.value));
      case _ =>
        return Success(selected);
    }

    /** `processSequentialActions`: the run of `Run` from no selection and no
        messages; the result is the messages joined by spaces. */
    method ProcessSequentialActions(actions: seq<Action>) returns (r: Result<string>)
      requires Valid()
      modifies this
      ensures Valid()
      ensures match Run(env, RunState(old(cells), old(formats), old(clipboard), None, []), actions)
        case Success(st) => r == Success(Join(st.messages, " ")) && cells == st.cells
                            && formats == st.formats && clipboard == st.clipboard
        case Failure(e) => r == Failure(e)
      ensures var fin := Halted(env, RunState(old(cells), old(formats), old(clipboard), None, []), actions);
        cells == fin.cells && formats == fin.formats && clipboard == fin.clipboard
      ensures r.Success? ==> r.value == Join(Told(actions), " ")
    {
      ghost var st0 := RunState(cells, formats, clipboard, None, []);
      var selected: Option<Rect> := None;
      var messages: seq<string> := [];
      var k := 0;
      while k < |actions|
        invariant 0 <= k <= |actions|
        invariant Valid() && (selected.Some? ==> Fits(env, selected.value))
        invariant Run(env, st0, actions) == Run(env, RunState(cells, formats, clipboard, selected, messages), actions[k..])
        invariant Halted(env, st0, actions) == Halted(env, RunState(cells, formats, clipboard, selected, messages), actions[k..])
      {
        ghost var cur := RunState(cells, formats, clipboard, selected, messages);
        var a := actions[k];
        if a.TellUser? {
          ghost var next := TellAdvance(env, st0, cur, actions, k);
          HaltedTo(env, st0, cur, next, actions, k);
          if a.message != "" {
            messages := messages + [a.message];
          }
        } else {
          var res := Act(a, selected, messages);
          if res.Failure? {
            AdvanceFails(env, st0, cur, actions, k, res.error);
            HaltedStops(env, st0, cur, actions, k);
            return Failure(res.error);
          }
          selected := res.value;
          AdvanceTo(env, st0, cur, RunState(cells, formats, clipboard, selected, messages), actions, k);
          HaltedTo(env, st0, cur, RunState(cells, formats, clipboard, selected, messages), actions, k);
        }
        k := k + 1;
      }
      RunDone(env, st0, RunState(cells, formats, clipboard, selected, messages), actions);
      assert actions[|actions|..] == [];
      r := Success(Join(messages, " "));
    }
  }
}
