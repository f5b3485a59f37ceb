/** The local interpreter (`Action` in `action_interpret.py`): a sheet held
    as a pandas frame for values and an openpyxl sheet for formatting, a
    current selection, a clipboard and an input field, changed in place by
    one method per action. Every method returns the message the source
    returns, or `Failure` where the source raises. */
module Interpreter {
  import opened Wrappers
  import opened Text
  import opened Grid
  import ActionSchema

  /** A column or row argument: the source accepts strings and ints. */
  datatype Ref = Word(s: string) | Number(n: int)

  /** `str.isalpha()` on ASCII letters. */
  predicate IsAlpha(s: string) {
    |s| > 0 && forall i :: 0 <= i < |s| ==> IsUpperLetter(UpperChar(s[i]))
  }

  /** The messages of a failed `int` and of an unknown column name. */
  const BadIntPrefix: string := "invalid literal for int() with base 10: '"
  const BadColumnSuffix: string := " is not a valid column name"

  /** `int(x)`. */
  function ToInt(x: Ref): Result<int> {
    match x
    case Number(n) => Success(n)
    case Word(s) =>
      match ParseInt(s)
      case None => Failure(BadIntPrefix + s + "'")
      case Some(n) => Success(n)
  }

  /** `_convert_excel_ref`: a letter column through the column letters,
      anything else through `int`, both made 0-based; the row through
      `int`. */
  function ConvertRef(col: Ref, row: Ref): Result<(int, int)> {
    var c :- ColumnNumber(col);
    var r :- ToInt(row);
    Success((r - 1, c - 1))
  }

  /** The 1-based column of `_convert_excel_ref`: letters through the
      column letters, anything else through `int`. */
  function ColumnNumber(col: Ref): (r: Result<int>)
    ensures col.Word? && IsAlpha(col.s) && r.Success? ==> 1 <= r.value <= MaxColumn
  {
    if col.Word? && IsAlpha(col.s) then
      match ColumnIndexFromString(col.s)
      case None => Failure(col.s + BadColumnSuffix)
      case Some(k) => Success(k as int)
    else ToInt(col)
  }

  /** `_get_cell_address`: the column letters of `col + 1`, then `row + 1`. */
  function CellAddress(row: int, col: int): (r: Result<string>)
    ensures r.Success? <==> 0 <= col < MaxColumn
    ensures r.Failure? ==> r.error == BadColumnPrefix + IntToString(col + 1)
  {
    match GetColumnLetter(col + 1)
    case None => Failure(BadColumnPrefix + IntToString(col + 1))
    case Some(letters) => Success(letters + IntToString(row + 1))
  }

  /** An address that `CellAddress` writes converts back to the same
      0-based position, and every column of openpyxl's range has one. */
  lemma AddressRoundTrip(row: int, col: int)
    requires 0 <= col < MaxColumn
    ensures CellAddress(row, col).Success?
    ensures ConvertRef(Word(ColumnLetters(col + 1)), Word(IntToString(row + 1))) == Success((row, col))
    ensures CellAddress(row, col).value == ColumnLetters(col + 1) + IntToString(row + 1)
  {
    var letters := ColumnLetters(col + 1);
    var digits := IntToString(row + 1);
    assert IsAlpha(letters) && ColumnIndexFromString(letters) == Some(col + 1) by {
      ColumnIndexRoundTrip(col + 1);
    }
    assert ParseInt(digits) == Some(row + 1) by { IntRoundTrip(row + 1); }
    ConvertWords(letters, digits, col + 1, row + 1);
  }

  /** Converting a letter column and a numeric row. */
  lemma ConvertWords(cs: string, rs: string, k: nat, n: int)
    requires IsAlpha(cs) && ColumnIndexFromString(cs) == Some(k) && ParseInt(rs) == Some(n)
    ensures ConvertRef(Word(cs), Word(rs)) == Success((n - 1, k - 1))
  {
    assert ToInt(Word(rs)) == Success(n);
    assert ColumnNumber(Word(cs)) == Success(k);
  }

  /** Column then row conversion of both corners. */
  function SelectionOf(col1: Ref, row1: Ref, col2: Ref, row2: Ref): Result<(int, int, int, int)> {
    var (sr, sc) :- ConvertRef(col1, row1);
    var (er, ec) :- ConvertRef(col2, row2);
    Success((sr, sc, er, ec))
  }

  /** What `select` calls the selection: whole columns when it starts at
      the first row and reaches the last, else whole rows when it starts
      at the first column and reaches the last, else a range. */
  function SelectionName(sel: (int, int, int, int), n: nat, m: nat): Result<string> {
    var (sr, sc, er, ec) := sel;
    if sr == 0 && er >= n - 1 then
      var first :- CellColumn(sc);
      if sc != ec then
        var last :- CellColumn(ec);
        Success("Columns " + first + " to " + last)
      else Success("Column " + first)
    else if sc == 0 && ec >= m - 1 then
      if sr != er then Success("Rows " + IntToString(sr + 1) + " to " + IntToString(er + 1))
      else Success("Row " + IntToString(sr + 1))
    else
      var a :- CellAddress(sr, sc);
      var b :- CellAddress(er, ec);
      Success("Range " + a + ":" + b)
  }

  /** `get_column_letter(col + 1)`. */
  function CellColumn(col: int): Result<string> {
    match GetColumnLetter(col + 1)
    case None => Failure(BadColumnPrefix + IntToString(col + 1))
    case Some(letters) => Success(letters)
  }

  /** `with condition: ...` is added when a condition is given. */
  function WithCondition(prefix: string, condition: Option<string>): string {
    if ActionSchema.Truthy(condition) then prefix + " with condition: " + condition.value else prefix
  }

  /** A selection that is neither whole rows nor whole columns is named
      by the addresses of its corners. */
  lemma RangeName(sr: int, sc: int, er: int, ec: int, n: nat, m: nat)
    requires 0 <= sc < MaxColumn && 0 <= ec < MaxColumn
    requires !(sr == 0 && er >= n - 1) && !(sc == 0 && ec >= m - 1)
    ensures SelectionName((sr, sc, er, ec), n, m) ==
      Success("Range " + (ColumnLetters(sc + 1) + IntToString(sr + 1)) + ":" + (ColumnLetters(ec + 1) + IntToString(er + 1)))
  {
    assert CellAddress(sr, sc) == Success(ColumnLetters(sc + 1) + IntToString(sr + 1));
    assert CellAddress(er, ec) == Success(ColumnLetters(ec + 1) + IntToString(er + 1));
  }

  /** The addresses of a selection's corners select it again. */
  lemma SelectionRoundTrip(sr: int, sc: int, er: int, ec: int)
    requires 0 <= sc < MaxColumn && 0 <= ec < MaxColumn
    ensures SelectionOf(Word(ColumnLetters(sc + 1)), Word(IntToString(sr + 1)),
                        Word(ColumnLetters(ec + 1)), Word(IntToString(er + 1))) == Success((sr, sc, er, ec))
  {
    AddressRoundTrip(sr, sc);
    AddressRoundTrip(er, ec);
  }

  /** `str(value)` as the input field shows it; an empty cell is NaN. */
  function CellText(v: Cell): string {
    match v
    case Empty => "nan"
    case Num(n) => IntToString(n)
    case Str(s) => s
  }

  /** The value `set_input` writes: a formula as text, else the number
      `pd.to_numeric` reads, else the text. */
  function InputValue(text: string): (r: Cell)
    ensures StartsWith(text, "=") ==> r == Str(text)
    ensures !StartsWith(text, "=") && ParseInt(text).Some? ==> r == Num(ParseInt(text).value)
    ensures !StartsWith(text, "=") && ParseInt(text).None? ==> r == Str(text)
    ensures r.Num? ==> ParseInt(text) == Some(r.n)
    ensures r.Str? ==> r.s == text
  {
    if StartsWith(text, "=") then Str(text)
    else match ParseInt(text)
      case Some(n) => Num(n)
      case None => Str(text)
  }

  /** A number typed in its own decimal form is stored as that number, and
      any other text shows back unchanged in the input field. */
  lemma InputShowsBack(text: string)
    ensures ParseInt(text).None? ==> CellText(InputValue(text)) == text
    ensures StartsWith(text, "=") ==> CellText(InputValue(text)) == text
    ensures forall n :: text == IntToString(n) ==> InputValue(text) == Num(n) && CellText(InputValue(text)) == text
  {
    forall n | text == IntToString(n)
      ensures InputValue(text) == Num(n)
    {
      IntRoundTrip(n);
      assert text[0] != '=';
    }
  }

  /** What `select_input_field` puts in the field: nothing without a
      selection or when its first cell lies past the frame's end, else
      that cell's text (raising for an index before the start). */
  function FieldShows(g: seq<seq<Cell>>, n: nat, m: nat, sel: Option<(int, int, int, int)>): (r: Result<Option<string>>)
    requires Shaped(g, n, m)
    ensures sel.Some? && 0 <= sel.value.0 < n && 0 <= sel.value.1 < m ==>
      r == Success(Some(CellText(g[sel.value.0][sel.value.1])))
    ensures sel.None? ==> r == Success(None)
  {
    match sel
    case None => Success(None)
    case Some((sr, sc, _, _)) =>
      if sr <= n - 1 && sc <= m - 1 then
        match (Norm(sr, n), Norm(sc, m))
        case (Some(i), Some(j)) => Success(Some(CellText(g[i][j])))
        case _ => Failure(OutOfBounds)
      else Success(None)
  }

  /** The message of `set_input` once the cells are written. */
  function SetMessage(text: string, sel: (int, int, int, int)): (r: Result<string>)
    ensures StartsWith(text, "=") ==> r.Success?
    ensures !StartsWith(text, "=") ==>
      (r.Success? <==> CellAddress(sel.0, sel.1).Success?
                       && ((sel.0 == sel.2 && sel.1 == sel.3) || CellAddress(sel.2, sel.3).Success?))
  {
    var (sr, sc, er, ec) := sel;
    if StartsWith(text, "=") then Success("Formula '" + text + "' entered in selected range")
    else
      var a :- CellAddress(sr, sc);
      if sr == er && sc == ec then Success("Set value '" + text + "' in cell " + a)
      else
        var b :- CellAddress(er, ec);
        Success("Set value '" + text + "' in range " + a + ":" + b)
  }

  /** What `select_and_drag` checks before writing: both references
      convert, `iloc` reaches the source and the source has an address. */
  function DragPlan(col1: Ref, row1: Ref, col2: Ref, row2: Ref, n: nat, m: nat): (r: Result<(int, int, int, int)>)
    ensures r.Success? ==> Norm(r.value.0, n).Some? && Norm(r.value.1, m).Some?
    ensures r.Success? ==> CellAddress(r.value.0, r.value.1).Success?
  {
    var (sr, sc) :- ConvertRef(col1, row1);
    var (tr, tc) :- ConvertRef(col2, row2);
    if Norm(sr, n).None? || Norm(sc, m).None? then Failure(OutOfBounds)
    else
      var _ :- CellAddress(sr, sc);
      Success((sr, sc, tr, tc))
  }

  /** The result of `select_and_drag` once the source is read: a write
      past the end raises, else the target's address is needed. */
  function DragMessage(sr: int, sc: int, tr: int, tc: int, n: nat, m: nat, condition: Option<string>): Result<string>
    requires CellAddress(sr, sc).Success?
  {
    if DragFails(sr, sc, tr, tc, n, m) then Failure(OutOfBounds)
    else
      var b :- CellAddress(tr, tc);
      Success(WithCondition("Filled from " + CellAddress(sr, sc).value + " to " + b, condition))
  }

  /** A value of the tools' parameter dictionary. */
  datatype ToolValue = TStr(s: string) | TInt(n: int)

  /** `str(value)`. */
  function ValueString(v: ToolValue): string {
    match v
    case TStr(s) => s
    case TInt(n) => IntToString(n)
  }

  /** `parameters.get(key, default)` on a dictionary that may be `None`
      (then `get` raises). */
  function Get(parameters: map<string, ToolValue>, key: string, default: ToolValue): ToolValue {
    if key in parameters then parameters[key] else default
  }

  // The messages the interpreter's calls return.
  const OutOfBounds: string := "single positional indexer is out-of-bounds"
  const NotInDemo: string := " (not implemented in this demo)"
  const InputSelected: string := "Input field selected"
  const ToolPrefix: string := "Selected tool: "
  const MenuToolPrefix: string := "Selected context menu tool: "
  const BelowOne: string := "Row or column values must be at least 1"
  const PasteDone: string := "Pasted data from clipboard"
  const BadColumnPrefix: string := "Invalid column index "
  const EmptyClipboard: string := "Error: Nothing to paste"
  const NoMenuSelection: string := "Error: No selection for context menu action"
  const NoFormatRange: string := "Error: No range selected for formatting"
  const InputNotSelected: string := "Error: Input field is not selected"
  const UnboundStartRow: string := "cannot access local variable 'start_row' where it is not associated with a value"
  const RuleWithoutParameters: string := "Error: Conditional formatting requires parameters"
  const DeleteDone: string := "Deleted contents of selected cells"
  const CopyDone: string := "Copied selection to clipboard"
  const ClearDone: string := "Cleared formatting from selected cells"
  const NumberFormatPrefix: string := "Applied number format '"
  const ItalicDone: string := "Applied italic formatting to selected range"
  const AboveThresholdPrefix: string := "Applied conditional formatting for values > "
  const BoldDone: string := "Applied bold formatting to selected range"
  const ToSelectedSuffix: string := "' to selected range"

  const Yellow := "FFFF00"

  /** `float(value) > threshold` for an integer threshold; a value that
      does not convert, or a threshold that is not a number, compares
      false. */
  predicate Exceeds(v: Cell, threshold: ToolValue) {
    threshold.TInt? &&
    match v
    case Num(x) => x > threshold.n
    case Str(s) => ParseInt(s).Some? && ParseInt(s).value > threshold.n
    case Empty => false
  }

  /** The cell (1-based key) that conditional formatting marks: inside the
      selection and the frame, at a non-negative index (a negative one
      raises in openpyxl and is skipped), and above the threshold. */
  predicate Marked(g: seq<seq<Cell>>, n: nat, m: nat, sel: (int, int, int, int), threshold: ToolValue, k: (int, int))
    requires Shaped(g, n, m)
  {
    var (sr, sc, er, ec) := sel;
    1 <= k.0 <= n && 1 <= k.1 <= m && sr <= k.0 - 1 <= er && sc <= k.1 - 1 <= ec
    && Exceeds(g[k.0 - 1][k.1 - 1], threshold)
  }

  /** `now` is `st` with `e` applied to exactly the cells marked in
      `box` or in `more`. */
  ghost predicate MarkedStyles(st: Styles, now: Styles, g: seq<seq<Cell>>, n: nat, m: nat, threshold: ToolValue,
                               e: StyleEdit, box: (int, int, int, int), more: (int, int, int, int))
    requires Shaped(g, n, m)
  {
    forall k {:trigger StyleAt(now, k)} ::
      StyleAt(now, k) ==
      if Marked(g, n, m, box, threshold, k) || Marked(g, n, m, more, threshold, k)
      then Apply(StyleAt(st, k), e) else StyleAt(st, k)
  }

  /** One cell of the column loop: marking cell `(r, c)` when it exceeds
      the threshold extends the marked part of row `r` by one column. */
  lemma MarkCellStep(st: Styles, before: Styles, after: Styles, g: seq<seq<Cell>>, n: nat, m: nat,
                     threshold: ToolValue, e: StyleEdit, sr: int, sc: int, ec: int, r: int, c: int)
    requires Shaped(g, n, m) && sc <= c
    requires MarkedStyles(st, before, g, n, m, threshold, e, (sr, sc, r - 1, ec), (r, sc, r, c - 1))
    requires after == if 0 <= r < n && 0 <= c < m && Exceeds(g[r][c], threshold)
                      then before[(r + 1, c + 1) := Apply(StyleAt(before, (r + 1, c + 1)), e)] else before
    ensures MarkedStyles(st, after, g, n, m, threshold, e, (sr, sc, r - 1, ec), (r, sc, r, c))
  {
    forall k
      ensures StyleAt(after, k) ==
        if Marked(g, n, m, (sr, sc, r - 1, ec), threshold, k) || Marked(g, n, m, (r, sc, r, c), threshold, k)
        then Apply(StyleAt(st, k), e) else StyleAt(st, k)
    {
      assert StyleAt(before, k) ==
        if Marked(g, n, m, (sr, sc, r - 1, ec), threshold, k) || Marked(g, n, m, (r, sc, r, c - 1), threshold, k)
        then Apply(StyleAt(st, k), e) else StyleAt(st, k);
      MarkedColumns(g, n, m, threshold, sr, sc, ec, r, c, k);
      if k != (r + 1, c + 1) {
        assert StyleAt(after, k) == StyleAt(before, k);
      }
    }
  }

  /** Columns `sc .. c` of row `r` are columns `sc .. c - 1` and cell
      `(r, c)`, which no row above holds. */
  lemma MarkedColumns(g: seq<seq<Cell>>, n: nat, m: nat, threshold: ToolValue,
                      sr: int, sc: int, ec: int, r: int, c: int, k: (int, int))
    requires Shaped(g, n, m) && sc <= c
    ensures Marked(g, n, m, (r, sc, r, c), threshold, k)
        == (Marked(g, n, m, (r, sc, r, c - 1), threshold, k)
            || (k == (r + 1, c + 1) && 0 <= r < n && 0 <= c < m && Exceeds(g[r][c], threshold)))
    ensures k == (r + 1, c + 1) ==> !Marked(g, n, m, (sr, sc, r - 1, ec), threshold, k)
    ensures k == (r + 1, c + 1) ==> !Marked(g, n, m, (r, sc, r, c - 1), threshold, k)
  {
  }

  /** The end of a row: the marked part of row `r` joins the rows above. */
  lemma MarkRowDone(st: Styles, now: Styles, g: seq<seq<Cell>>, n: nat, m: nat,
                    threshold: ToolValue, e: StyleEdit, sr: int, sc: int, ec: int, r: int, c: int)
    requires Shaped(g, n, m) && sr <= r && (c == ec + 1 || (c == sc && ec < sc))
    requires MarkedStyles(st, now, g, n, m, threshold, e, (sr, sc, r - 1, ec), (r, sc, r, c - 1))
    ensures MarkedStyles(st, now, g, n, m, threshold, e, (sr, sc, r, ec), (r + 1, sc, r + 1, sc - 1))
  {
    forall k
      ensures StyleAt(now, k) ==
        if Marked(g, n, m, (sr, sc, r, ec), threshold, k) || Marked(g, n, m, (r + 1, sc, r + 1, sc - 1), threshold, k)
        then Apply(StyleAt(st, k), e) else StyleAt(st, k)
    {
      assert StyleAt(now, k) ==
        if Marked(g, n, m, (sr, sc, r - 1, ec), threshold, k) || Marked(g, n, m, (r, sc, r, c - 1), threshold, k)
        then Apply(StyleAt(st, k), e) else StyleAt(st, k);
      MarkedRows(g, n, m, threshold, sr, sc, ec, r, c, k);
    }
  }

  /** A box of rows `sr .. r` is the rows above `r` and row `r` itself. */
  lemma MarkedRows(g: seq<seq<Cell>>, n: nat, m: nat, threshold: ToolValue,
                   sr: int, sc: int, ec: int, r: int, c: int, k: (int, int))
    requires Shaped(g, n, m) && sr <= r && (c == ec + 1 || (c == sc && ec < sc))
    ensures Marked(g, n, m, (sr, sc, r, ec), threshold, k)
        == (Marked(g, n, m, (sr, sc, r - 1, ec), threshold, k) || Marked(g, n, m, (r, sc, r, c - 1), threshold, k))
    ensures !Marked(g, n, m, (r + 1, sc, r + 1, sc - 1), threshold, k)
  {
  }

  /** The end of the row loop: exactly the cells marked in the whole
      selection are restyled. */
  lemma MarkDone(st: Styles, now: Styles, g: seq<seq<Cell>>, n: nat, m: nat,
                 threshold: ToolValue, e: StyleEdit, sr: int, sc: int, er: int, ec: int, r: int)
    requires Shaped(g, n, m) && (r == er + 1 || (r == sr && er < sr))
    requires MarkedStyles(st, now, g, n, m, threshold, e, (sr, sc, r - 1, ec), (r, sc, r, sc - 1))
    ensures forall k {:trigger StyleAt(now, k)} ::
              StyleAt(now, k) ==
              if Marked(g, n, m, (sr, sc, er, ec), threshold, k) then Apply(StyleAt(st, k), e) else StyleAt(st, k)
  {
    forall k
      ensures StyleAt(now, k) ==
        if Marked(g, n, m, (sr, sc, er, ec), threshold, k) then Apply(StyleAt(st, k), e) else StyleAt(st, k)
    {
      assert StyleAt(now, k) ==
        if Marked(g, n, m, (sr, sc, r - 1, ec), threshold, k) || Marked(g, n, m, (r, sc, r, sc - 1), threshold, k)
        then Apply(StyleAt(st, k), e) else StyleAt(st, k);
    }
  }

  /** `after` is `before` with `e` applied to every cell in the box. */
  ghost predicate Restyled(before: Styles, after: Styles, r0: int, c0: int, r1: int, c1: int, e: StyleEdit) {
    forall k {:trigger StyleAt(after, k)} ::
      StyleAt(after, k) == if InBox(k, r0, c0, r1, c1) then Apply(StyleAt(before, k), e) else StyleAt(before, k)
  }

  function FontEdit(f: Font): StyleEdit {
    StyleEdit(Some(f), None, None)
  }

  /** A solid fill of `color`, stored as openpyxl stores it. */
  function FillEdit(color: string): StyleEdit {
    StyleEdit(None, Some(Some(Argb(color))), None)
  }

  /** `clear_formatting`: plain font, no fill, `General`. */
  const ClearEdit := StyleEdit(Some(PlainFont), Some(None), Some("General"))

  /** A box loop over the selection (shifted to 1-based) with the edit
      `e`: the message when no cell raises, else openpyxl's error. */
  ghost predicate BoxDone(before: Styles, after: Styles, sel: (int, int, int, int), e: StyleEdit,
                          message: string, r: Result<string>) {
    var (sr, sc, er, ec) := sel;
    if BoxFails(sr + 1, sc + 1, er + 1, ec + 1) then r == Failure(BelowOne) && after == before
    else Restyled(before, after, sr + 1, sc + 1, er + 1, ec + 1, e) && r == Success(message)
  }

  class Workbook {
    /** The frame's values, `rows` by `cols`. */
    var df: seq<seq<Cell>>
    const rows: nat
    const cols: nat
    /** The openpyxl sheet's formatting. */
    var styles: Styles
    /** `(start_row, start_col, end_row, end_col)`, 0-based, or none yet. */
    var selectedRange: Option<(int, int, int, int)>
    /** `None`, or the list of row lists that `copy` built. */
    var clipboard: Option<seq<seq<Cell>>>
    var inputFieldContent: string
    var inputFieldSelected: bool

    predicate Valid()
      reads this
    {
      Shaped(df, rows, cols)
    }

    /** A freshly loaded workbook: no selection, no clipboard, an empty,
        unselected input field. */
    constructor(grid: seq<seq<Cell>>, width: nat, st: Styles)
      requires Shaped(grid, |grid|, width)
      ensures Valid()
      ensures df == grid && rows == |grid| && cols == width && styles == st
      ensures selectedRange == None && clipboard == None
      ensures inputFieldContent == "" && !inputFieldSelected
    {
      df := grid;
      rows := |grid|;
      cols := width;
      styles := st;
      selectedRange := None;
      clipboard := None;
      inputFieldContent := "";
      inputFieldSelected := false;
    }

    /** `df.iloc[r, c] = v` for indices `iloc` accepts. */
    method Put(r: int, c: int, v: Cell)
      requires Valid()
      requires Norm(r, rows).Some? && Norm(c, cols).Some?
      modifies this
      ensures Valid()
      ensures forall i, j {:trigger df[i][j]} :: 0 <= i < rows && 0 <= j < cols ==>
        df[i][j] == if At(i, r, rows) && At(j, c, cols) then v else old(df)[i][j]
      ensures styles == old(styles) && selectedRange == old(selectedRange) && clipboard == old(clipboard)
      ensures inputFieldContent == old(inputFieldContent) && inputFieldSelected == old(inputFieldSelected)
    {
      var i := Norm(r, rows).value;
      var j := Norm(c, cols).value;
      df := df[i := df[i][j := v]];
      assert forall k :: 0 <= k < rows ==> |df[k]| == cols;
    }

    /** `select`: the converted corners become the selection (a missing
        end is the start), then the selection is named. */
    method Select(col1: Ref, row1: Ref, col2: Option<Ref>, row2: Option<Ref>, condition: Option<string>)
      returns (r: Result<string>)
      requires Valid()
      modifies this
      ensures Valid()
      ensures df == old(df) && styles == old(styles) && clipboard == old(clipboard)
      ensures inputFieldContent == old(inputFieldContent) && inputFieldSelected == old(inputFieldSelected)
      ensures var sel := SelectionOf(col1, row1, if col2.Some? then col2.value else col1,
                                     if row2.Some? then row2.value else row1);
        match sel
        case Failure(e) => r == Failure(e) && selectedRange == old(selectedRange)
        case Success(s) =>
          selectedRange == Some(s)
          && r == match SelectionName(s, rows, cols)
                  case Failure(e) => Failure(e)
                  case Success(name) => Success(WithCondition("Selected " + name, condition))
    {
      var c2 := if col2.Some? then col2.value else col1;
      var r2 := if row2.Some? then row2.value else row1;
      var sel := SelectionOf(col1, row1, c2, r2);
      if sel.Failure? {
        return Failure(sel.error);
      }
      selectedRange := Some(sel.value);
      var name := SelectionName(sel.value, rows, cols);
      if name.Failure? {
        return Failure(name.error);
      }
      r := Success(WithCondition("Selected " + name.value, condition));
    }

    /** The guarded double loop of `set_input` and `delete`: `v` goes to
        every cell of the selection inside the frame. Either the first
        write raises and nothing changes, or no write raises. */
    method FillSelection(sr: int, sc: int, er: int, ec: int, v: Cell) returns (ok: bool)
      requires Valid()
      modifies this
      ensures Valid()
      ensures ok == !RectFails(sr, sc, er, ec, rows, cols)
      ensures df == if ok then Fill(old(df), rows, cols, sr, sc, er, ec, v) else old(df)
      ensures styles == old(styles) && selectedRange == old(selectedRange) && clipboard == old(clipboard)
      ensures inputFieldContent == old(inputFieldContent) && inputFieldSelected == old(inputFieldSelected)
    {
      if RectFails(sr, sc, er, ec, rows, cols) {
        return false;
      }
      ghost var g := df;
      var r := sr;
      while r <= er
        invariant Valid()
        invariant r == sr || sr < r <= er + 1
        invariant forall i, j {:trigger df[i][j]} :: 0 <= i < rows && 0 <= j < cols ==>
          df[i][j] == if Hit(i, sr, r - 1, rows) && Hit(j, sc, ec, cols) then v else g[i][j]
        invariant styles == old(styles) && selectedRange == old(selectedRange) && clipboard == old(clipboard)
        invariant inputFieldContent == old(inputFieldContent) && inputFieldSelected == old(inputFieldSelected)
        decreases er - r
      {
        var c := sc;
        while c <= ec
          invariant Valid()
          invariant c == sc || sc < c <= ec + 1
          invariant forall i, j {:trigger df[i][j]} :: 0 <= i < rows && 0 <= j < cols ==>
            df[i][j] == if (Hit(i, sr, r - 1, rows) && Hit(j, sc, ec, cols))
                           || (r < rows && At(i, r, rows) && Hit(j, sc, c - 1, cols)) then v else g[i][j]
          invariant styles == old(styles) && selectedRange == old(selectedRange) && clipboard == old(clipboard)
          invariant inputFieldContent == old(inputFieldContent) && inputFieldSelected == old(inputFieldSelected)
          decreases ec - c
        {
          if r < rows && c < cols {
            assert Attempts(sr, sc, er, ec, rows, cols);
            Put(r, c, v);
          }
          HitNext(sc, c, cols);
          c := c + 1;
        }
        HitNext(sr, r, rows);
        r := r + 1;
      }
      assert forall i, j :: 0 <= i < rows && 0 <= j < cols ==>
        df[i][j] == Fill(g, rows, cols, sr, sc, er, ec, v)[i][j];
      SameCells(df, Fill(g, rows, cols, sr, sc, er, ec, v), rows, cols);
      ok := true;
    }

    /** The openpyxl loop over rows `r0..r1` and columns `c0..c1` (1-based)
        that applies `e` to every cell's style. Either the first cell
        raises and nothing changes, or none does. */
    method StyleBox(r0: int, c0: int, r1: int, c1: int, e: StyleEdit) returns (ok: bool)
      requires Valid()
      modifies this
      ensures Valid()
      ensures ok == !BoxFails(r0, c0, r1, c1)
      ensures !ok ==> styles == old(styles)
      ensures forall k {:trigger StyleAt(styles, k)} ::
                StyleAt(styles, k) ==
                if ok && InBox(k, r0, c0, r1, c1) then Apply(StyleAt(old(styles), k), e) else StyleAt(old(styles), k)
      ensures df == old(df) && selectedRange == old(selectedRange) && clipboard == old(clipboard)
      ensures inputFieldContent == old(inputFieldContent) && inputFieldSelected == old(inputFieldSelected)
    {
      if BoxFails(r0, c0, r1, c1) {
        return false;
      }
      ghost var st := styles;
      var r := r0;
      while r <= r1
        invariant r == r0 || r0 < r <= r1 + 1
        invariant forall k {:trigger StyleAt(styles, k)} ::
                    StyleAt(styles, k) ==
                    if InBox(k, r0, c0, r - 1, c1) then Apply(StyleAt(st, k), e) else StyleAt(st, k)
        invariant df == old(df) && selectedRange == old(selectedRange) && clipboard == old(clipboard)
        invariant inputFieldContent == old(inputFieldContent) && inputFieldSelected == old(inputFieldSelected)
        decreases r1 - r
      {
        var c := c0;
        while c <= c1
          invariant c == c0 || c0 < c <= c1 + 1
          invariant forall k {:trigger StyleAt(styles, k)} ::
                      StyleAt(styles, k) ==
                      if InBox(k, r0, c0, r - 1, c1) || InBox(k, r, c0, r, c - 1) then Apply(StyleAt(st, k), e) else StyleAt(st, k)
          invariant df == old(df) && selectedRange == old(selectedRange) && clipboard == old(clipboard)
          invariant inputFieldContent == old(inputFieldContent) && inputFieldSelected == old(inputFieldSelected)
          decreases c1 - c
        {
          ghost var before := styles;
          styles := styles[(r, c) := Apply(StyleAt(styles, (r, c)), e)];
          assert forall k {:trigger StyleAt(styles, k)} ::
                   StyleAt(styles, k) == if k == (r, c) then Apply(StyleAt(before, k), e) else StyleAt(before, k);
          c := c + 1;
        }
        r := r + 1;
      }
      ok := true;
    }

    /** `select_input_field`: the field is selected and, when the
        selection's first cell is not past the frame's end, shows that
        cell's value (an index below the start raises). */
    method SelectInputField() returns (r: Result<string>)
      requires Valid()
      modifies this
      ensures Valid() && inputFieldSelected
      ensures df == old(df) && styles == old(styles) && selectedRange == old(selectedRange) && clipboard == old(clipboard)
      ensures match FieldShows(df, rows, cols, selectedRange)
              case Failure(e) => r == Failure(e) && inputFieldContent == old(inputFieldContent)
              case Success(None) => r == Success(InputSelected) && inputFieldContent == old(inputFieldContent)
              case Success(Some(t)) => r == Success(InputSelected) && inputFieldContent == t
    {
      inputFieldSelected := true;
      var shown := FieldShows(df, rows, cols, selectedRange);
      if shown.Failure? {
        return Failure(shown.error);
      }
      if shown.value.Some? {
        inputFieldContent := shown.value.value;
      }
      r := Success(InputSelected);
    }

    /** `set_input`: with the field selected, the text goes into the field
        and then into every cell of the selection inside the frame, as a
        formula, a number or text; the message names the cell or range. */
    method SetInput(text: string) returns (r: Result<string>)
      requires Valid()
      modifies this
      ensures Valid()
      ensures styles == old(styles) && selectedRange == old(selectedRange) && clipboard == old(clipboard)
      ensures inputFieldSelected == old(inputFieldSelected)
      ensures !old(inputFieldSelected) ==>
        r == Success(InputNotSelected) && df == old(df) && inputFieldContent == old(inputFieldContent)
      ensures old(inputFieldSelected) ==> inputFieldContent == text
      ensures old(inputFieldSelected) && selectedRange.None? ==> r == Failure(UnboundStartRow) && df == old(df)
      ensures old(inputFieldSelected) && selectedRange.Some? ==>
        var (sr, sc, er, ec) := selectedRange.value;
        if RectFails(sr, sc, er, ec, rows, cols) then r == Failure(OutOfBounds) && df == old(df)
        else df == Fill(old(df), rows, cols, sr, sc, er, ec, InputValue(text))
             && r == SetMessage(text, selectedRange.value)
    {
      if !inputFieldSelected {
        return Success(InputNotSelected);
      }
      inputFieldContent := text;
      if selectedRange.None? {
        return Failure(UnboundStartRow);
      }
      var (sr, sc, er, ec) := selectedRange.value;
      var ok := FillSelection(sr, sc, er, ec, InputValue(text));
      if !ok {
        return Failure(OutOfBounds);
      }
      r := SetMessage(text, selectedRange.value);
    }

    /** The `copy` loops: one list per selected row, holding that row's
        cells inside the frame. */
    method CopyCells(sr: int, sc: int, er: int, ec: int) returns (clip: seq<seq<Cell>>)
      requires Valid() && !RectFails(sr, sc, er, ec, rows, cols)
      ensures clip == CopyRect(df, rows, cols, sr, sc, er, ec)
    {
      clip := [];
      var r := sr;
      while r <= er
        invariant r == sr || sr < r <= er + 1
        invariant |clip| == r - sr
        invariant forall k :: 0 <= k < |clip| ==> clip[k] == CopyRect(df, rows, cols, sr, sc, er, ec)[k]
        decreases er - r
      {
        var rowData: seq<Cell> := [];
        var c := sc;
        while c <= ec
          invariant c == sc || sc < c <= ec + 1
          invariant |rowData| == if r < rows then Width(sc, c - 1, cols) else 0
          invariant forall l :: 0 <= l < |rowData| ==> rowData[l] == df[Norm(r, rows).value][Norm(sc + l, cols).value]
          decreases ec - c
        {
          if r < rows && c < cols {
            assert Attempts(sr, sc, er, ec, rows, cols);
            rowData := rowData + [df[Norm(r, rows).value][Norm(c, cols).value]];
          }
          c := c + 1;
        }
        clip := clip + [rowData];
        r := r + 1;
      }
    }

    /** The `paste` loops: entry `(ro, co)` of the clipboard goes to row
        `sr + ro`, column `sc + co` when that is inside the frame. Either
        the first write raises and nothing changes, or none does. */
    method PasteCells(clip: seq<seq<Cell>>, sr: int, sc: int) returns (ok: bool)
      requires Valid()
      modifies this
      ensures Valid()
      ensures ok == !PasteFails(clip, sr, sc, rows, cols)
      ensures df == if ok then Paste(old(df), rows, cols, clip, sr, sc) else old(df)
      ensures styles == old(styles) && selectedRange == old(selectedRange) && clipboard == old(clipboard)
      ensures inputFieldContent == old(inputFieldContent) && inputFieldSelected == old(inputFieldSelected)
    {
      if PasteFails(clip, sr, sc, rows, cols) {
        return false;
      }
      ghost var g := df;
      var ro := 0;
      while ro < |clip|
        invariant Valid()
        invariant 0 <= ro <= |clip|
        invariant forall i, j {:trigger df[i][j]} :: 0 <= i < rows && 0 <= j < cols ==>
          df[i][j] == match PasteSoFar(clip, sr, sc, rows, cols, i, j, ro, 0)
                      case Some(v) => v
                      case None => g[i][j]
        invariant styles == old(styles) && selectedRange == old(selectedRange) && clipboard == old(clipboard)
        invariant inputFieldContent == old(inputFieldContent) && inputFieldSelected == old(inputFieldSelected)
      {
        var co := 0;
        while co < |clip[ro]|
          invariant Valid()
          invariant 0 <= co <= |clip[ro]|
          invariant forall i, j {:trigger df[i][j]} :: 0 <= i < rows && 0 <= j < cols ==>
            df[i][j] == match PasteSoFar(clip, sr, sc, rows, cols, i, j, ro, co)
                        case Some(v) => v
                        case None => g[i][j]
          invariant styles == old(styles) && selectedRange == old(selectedRange) && clipboard == old(clipboard)
          invariant inputFieldContent == old(inputFieldContent) && inputFieldSelected == old(inputFieldSelected)
        {
          var r := sr + ro;
          var c := sc + co;
          if r < rows && c < cols {
            Put(r, c, clip[ro][co]);
          }
          forall i, j | 0 <= i < rows && 0 <= j < cols {
            PasteStep(clip, sr, sc, rows, cols, ro, co, i, j);
          }
          co := co + 1;
        }
        forall i, j | 0 <= i < rows && 0 <= j < cols {
          PasteRowEnd(clip, sr, sc, rows, cols, ro, i, j);
        }
        ro := ro + 1;
      }
      SameCells(df, Paste(g, rows, cols, clip, sr, sc), rows, cols);
      ok := true;
    }

    /** The row loop of `select_and_drag`: columns `sc + 1 .. tc` of the
        source row get the stepped source value, until the row ends. */
    method DragAlongRow(sr: int, sc: int, tc: int, v: Cell) returns (ok: bool)
      requires Valid() && Norm(sr, rows).Some? && Norm(sc, cols).Some?
      modifies this
      ensures Valid()
      ensures ok == (tc < cols)
      ensures var R := Norm(sr, rows).value; df == old(df)[R := LineFill(old(df)[R], sc, tc, v)]
      ensures styles == old(styles) && selectedRange == old(selectedRange) && clipboard == old(clipboard)
      ensures inputFieldContent == old(inputFieldContent) && inputFieldSelected == old(inputFieldSelected)
    {
      ghost var g := df;
      var R := Norm(sr, rows).value;
      var c := sc + 1;
      ok := true;
      while c <= tc
        invariant Valid()
        invariant c == sc + 1 || sc + 1 < c <= tc + 1
        invariant c <= cols
        invariant forall i, j {:trigger df[i][j]} :: 0 <= i < rows && 0 <= j < cols ==>
          df[i][j] == if i == R then LineFill(g[R], sc, c - 1, v)[j] else g[i][j]
        invariant styles == old(styles) && selectedRange == old(selectedRange) && clipboard == old(clipboard)
        invariant inputFieldContent == old(inputFieldContent) && inputFieldSelected == old(inputFieldSelected)
        decreases tc - c
      {
        if c >= cols {
          ok := false;
          break;
        }
        Put(sr, c, Step(v, c - sc));
        forall j | 0 <= j < cols {
          LineStep(g[R], sc, c, v, j);
        }
        c := c + 1;
      }
      if ok {
        assert forall j :: 0 <= j < cols ==> LineFill(g[R], sc, c - 1, v)[j] == LineFill(g[R], sc, tc, v)[j];
      } else {
        LineClip(g[R], sc, tc, v);
      }
      SameCells(df, g[R := LineFill(g[R], sc, tc, v)], rows, cols);
    }

    /** The column loop of `select_and_drag`: rows `sr + 1 .. tr` of the
        source column get the stepped source value, until the column ends. */
    method DragAlongColumn(sr: int, sc: int, tr: int, v: Cell) returns (ok: bool)
      requires Valid() && Norm(sr, rows).Some? && Norm(sc, cols).Some?
      modifies this
      ensures Valid()
      ensures ok == (tr < rows)
      ensures var C := Norm(sc, cols).value;
        df == SetColumn(old(df), rows, cols, C, LineFill(Column(old(df), rows, cols, C), sr, tr, v))
      ensures styles == old(styles) && selectedRange == old(selectedRange) && clipboard == old(clipboard)
      ensures inputFieldContent == old(inputFieldContent) && inputFieldSelected == old(inputFieldSelected)
    {
      ghost var g := df;
      var C := Norm(sc, cols).value;
      ghost var line := Column(g, rows, cols, C);
      var r := sr + 1;
      ok := true;
      while r <= tr
        invariant Valid()
        invariant r == sr + 1 || sr + 1 < r <= tr + 1
        invariant r <= rows
        invariant forall i, j {:trigger df[i][j]} :: 0 <= i < rows && 0 <= j < cols ==>
          df[i][j] == if j == C then LineFill(line, sr, r - 1, v)[i] else g[i][j]
        invariant styles == old(styles) && selectedRange == old(selectedRange) && clipboard == old(clipboard)
        invariant inputFieldContent == old(inputFieldContent) && inputFieldSelected == old(inputFieldSelected)
        decreases tr - r
      {
        if r >= rows {
          ok := false;
          break;
        }
        Put(r, sc, Step(v, r - sr));
        forall i | 0 <= i < rows {
          LineStep(line, sr, r, v, i);
        }
        r := r + 1;
      }
      if ok {
        assert forall i :: 0 <= i < rows ==> LineFill(line, sr, r - 1, v)[i] == LineFill(line, sr, tr, v)[i];
      } else {
        LineClip(line, sr, tr, v);
      }
      SameCells(df, SetColumn(g, rows, cols, C, LineFill(line, sr, tr, v)), rows, cols);
    }

    /** The block loops of `select_and_drag`: every cell of rows `sr .. tr`
        and columns `sc .. tc` but the source gets the source value, row
        by row, until a row or column index runs past the end. */
    method DragBlock(sr: int, sc: int, tr: int, tc: int, v: Cell) returns (ok: bool)
      requires Valid() && Norm(sr, rows).Some? && Norm(sc, cols).Some?
      requires df[Norm(sr, rows).value][Norm(sc, cols).value] == v
      modifies this
      ensures Valid()
      ensures ok == !(sr <= tr && sc <= tc && (cols <= tc || rows <= tr))
      ensures df == if sr <= tr && cols <= tc then Fill(old(df), rows, cols, sr, sc, sr, cols - 1, v)
                    else Fill(old(df), rows, cols, sr, sc, tr, tc, v)
      ensures styles == old(styles) && selectedRange == old(selectedRange) && clipboard == old(clipboard)
      ensures inputFieldContent == old(inputFieldContent) && inputFieldSelected == old(inputFieldSelected)
    {
      ghost var g := df;
      ghost var cEnd := sc;
      var r := sr;
      ok := true;
      while r <= tr
        invariant Valid() && ok && cEnd == sc
        invariant r == sr || sr < r <= tr + 1
        invariant sc <= tc && sr < r ==> tc < cols && r <= rows
        invariant Blocked(df, g, rows, cols, sr, sc, tc, r, sc, v)
        invariant styles == old(styles) && selectedRange == old(selectedRange) && clipboard == old(clipboard)
        invariant inputFieldContent == old(inputFieldContent) && inputFieldSelected == old(inputFieldSelected)
        decreases tr - r
      {
        var c;
        ok, c := DragRow(g, sr, sc, tc, r, v);
        if !ok {
          cEnd := c;
          break;
        }
        BlockRow(df, g, rows, cols, sr, sc, tc, r, v);
        r := r + 1;
      }
      BlockDone(df, g, rows, cols, sr, sc, tr, tc, r, cEnd, v, ok);
    }

    /** The inner loop of the block loops of `select_and_drag`: row `r`
        from column `sc` to `tc`, the source cell skipped, until a row or
        column index runs past the end. */
    method DragRow(ghost g: seq<seq<Cell>>, sr: int, sc: int, tc: int, r: int, v: Cell) returns (ok: bool, c: int)
      requires Valid() && Shaped(g, rows, cols) && Norm(sr, rows).Some? && Norm(sc, cols).Some?
      requires g[Norm(sr, rows).value][Norm(sc, cols).value] == v
      requires r == sr || sr < r
      requires sc <= tc && sr < r ==> tc < cols && r <= rows
      requires Blocked(df, g, rows, cols, sr, sc, tc, r, sc, v)
      modifies this
      ensures Valid()
      ensures c == sc || sc < c <= tc + 1
      ensures c <= cols
      ensures sc < c && sr < r ==> r < rows
      ensures Blocked(df, g, rows, cols, sr, sc, tc, r, c, v)
      ensures ok ==> tc < c
      ensures !ok ==> (rows <= r || cols <= c) && (r != sr || c != sc) && c <= tc
      ensures styles == old(styles) && selectedRange == old(selectedRange) && clipboard == old(clipboard)
      ensures inputFieldContent == old(inputFieldContent) && inputFieldSelected == old(inputFieldSelected)
    {
      c := sc;
      ok := true;
      while c <= tc
        invariant Valid() && ok
        invariant c == sc || sc < c <= tc + 1
        invariant c <= cols
        invariant sc < c && sr < r ==> r < rows
        invariant Blocked(df, g, rows, cols, sr, sc, tc, r, c, v)
        invariant styles == old(styles) && selectedRange == old(selectedRange) && clipboard == old(clipboard)
        invariant inputFieldContent == old(inputFieldContent) && inputFieldSelected == old(inputFieldSelected)
        decreases tc - c
      {
        if r != sr || c != sc {
          if r >= rows || c >= cols {
            ok := false;
            return;
          }
          ghost var before := df;
          Put(r, c, v);
          BlockCell(before, df, g, rows, cols, sr, sc, tc, r, c, v);
        } else {
          BlockSource(df, g, rows, cols, sr, sc, tc, v);
        }
        c := c + 1;
      }
    }

    /** The three loops of `select_and_drag`, chosen by where the target
        lies from the source. */
    method DragFrom(sr: int, sc: int, tr: int, tc: int)
      requires Valid() && Norm(sr, rows).Some? && Norm(sc, cols).Some?
      modifies this
      ensures Valid()
      ensures df == Drag(old(df), rows, cols, sr, sc, tr, tc)
      ensures styles == old(styles) && selectedRange == old(selectedRange) && clipboard == old(clipboard)
      ensures inputFieldContent == old(inputFieldContent) && inputFieldSelected == old(inputFieldSelected)
    {
      ghost var g := df;
      var v := df[Norm(sr, rows).value][Norm(sc, cols).value];
      var ok;
      if sr == tr {
        DragRowCase(g, rows, cols, sr, sc, tc);
        ok := DragAlongRow(sr, sc, tc, v);
      } else if sc == tc {
        DragColumnCase(g, rows, cols, sr, sc, tr);
        ok := DragAlongColumn(sr, sc, tr, v);
      } else {
        DragBlockCase(g, rows, cols, sr, sc, tr, tc);
        ok := DragBlock(sr, sc, tr, tc, v);
      }
    }

    /** `select_and_drag`: read the source cell, then fill along its row,
        along its column or over the block up to the target. */
    method SelectAndDrag(col1: Ref, row1: Ref, col2: Ref, row2: Ref, condition: Option<string>)
      returns (r: Result<string>)
      requires Valid()
      modifies this
      ensures Valid()
      ensures styles == old(styles) && selectedRange == old(selectedRange) && clipboard == old(clipboard)
      ensures inputFieldContent == old(inputFieldContent) && inputFieldSelected == old(inputFieldSelected)
      ensures match DragPlan(col1, row1, col2, row2, rows, cols)
              case Failure(e) => r == Failure(e) && df == old(df)
              case Success((sr, sc, tr, tc)) =>
                df == Drag(old(df), rows, cols, sr, sc, tr, tc)
                && r == DragMessage(sr, sc, tr, tc, rows, cols, condition)
    {
      var plan := DragPlan(col1, row1, col2, row2, rows, cols);
      if plan.Failure? {
        return Failure(plan.error);
      }
      var (sr, sc, tr, tc) := plan.value;
      DragFrom(sr, sc, tr, tc);
      r := DragMessage(sr, sc, tr, tc, rows, cols, condition);
    }

    /** The `greater_than` loops of conditional formatting: every marked
        cell gets a yellow fill; a cell that raises is skipped. */
    method MarkAbove(sr: int, sc: int, er: int, ec: int, threshold: ToolValue)
      requires Valid()
      modifies this
      ensures Valid()
      ensures forall k {:trigger StyleAt(styles, k)} ::
                StyleAt(styles, k) ==
                if Marked(df, rows, cols, (sr, sc, er, ec), threshold, k)
                then Apply(StyleAt(old(styles), k), FillEdit(Yellow)) else StyleAt(old(styles), k)
      ensures df == old(df) && selectedRange == old(selectedRange) && clipboard == old(clipboard)
      ensures inputFieldContent == old(inputFieldContent) && inputFieldSelected == old(inputFieldSelected)
    {
      ghost var st := styles;
      var e := FillEdit(Yellow);
      var r := sr;
      while r <= er
        invariant Valid()
        invariant r == sr || sr < r <= er + 1
        invariant MarkedStyles(st, styles, df, rows, cols, threshold, e, (sr, sc, r - 1, ec), (r, sc, r, sc - 1))
        invariant df == old(df) && selectedRange == old(selectedRange) && clipboard == old(clipboard)
        invariant inputFieldContent == old(inputFieldContent) && inputFieldSelected == old(inputFieldSelected)
        decreases er - r
      {
        var c := sc;
        while c <= ec
          invariant Valid()
          invariant c == sc || sc < c <= ec + 1
          invariant MarkedStyles(st, styles, df, rows, cols, threshold, e, (sr, sc, r - 1, ec), (r, sc, r, c - 1))
          invariant df == old(df) && selectedRange == old(selectedRange) && clipboard == old(clipboard)
          invariant inputFieldContent == old(inputFieldContent) && inputFieldSelected == old(inputFieldSelected)
          decreases ec - c
        {
          ghost var before := styles;
          if 0 <= r < rows && 0 <= c < cols && Exceeds(df[r][c], threshold) {
            styles := styles[(r + 1, c + 1) := Apply(StyleAt(styles, (r + 1, c + 1)), e)];
          }
          MarkCellStep(st, before, styles, df, rows, cols, threshold, e, sr, sc, ec, r, c);
          c := c + 1;
        }
        MarkRowDone(st, styles, df, rows, cols, threshold, e, sr, sc, ec, r, c);
        r := r + 1;
      }
      MarkDone(st, styles, df, rows, cols, threshold, e, sr, sc, er, ec, r);
    }

    /** `select_top_menu_tool`: bold, italic and number format restyle the
        selection, conditional formatting marks the cells above a
        threshold, and any other tool only answers with a message. */
    method SelectTopMenuTool(tool: string, parameters: Option<map<string, ToolValue>>) returns (r: Result<string>)
      requires Valid()
      modifies this
      ensures Valid()
      ensures df == old(df) && selectedRange == old(selectedRange) && clipboard == old(clipboard)
      ensures inputFieldContent == old(inputFieldContent) && inputFieldSelected == old(inputFieldSelected)
      ensures selectedRange.None? ==> r == Success(NoFormatRange) && styles == old(styles)
      ensures selectedRange.Some? ==>
        var sel := selectedRange.value;
        var t := Lower(tool);
        if t == "bold" then
          BoxDone(old(styles), styles, sel, FontEdit(Font(true, false, false)), BoldDone, r)
        else if t == "italic" then
          BoxDone(old(styles), styles, sel, FontEdit(Font(false, true, false)), ItalicDone, r)
        else if t == "conditional_formatting" then
          if parameters.None? || parameters.value == map[] then
            r == Success(RuleWithoutParameters) && styles == old(styles)
          else
            var rule := Get(parameters.value, "rule_type", TStr(""));
            var threshold := Get(parameters.value, "threshold", TInt(0));
            if rule == TStr("greater_than") then
              r == Success(AboveThresholdPrefix + ValueString(threshold))
              && forall k {:trigger StyleAt(styles, k)} ::
                   StyleAt(styles, k) ==
                   if Marked(df, rows, cols, sel, threshold, k)
                   then Apply(StyleAt(old(styles), k), FillEdit(Yellow)) else StyleAt(old(styles), k)
            else r == Success("Applied " + ValueString(rule) + " conditional formatting") && styles == old(styles)
        else if t == "number_format" then
          if parameters.None? then r == Failure("'NoneType' object has no attribute 'get'") && styles == old(styles)
          else
            var code := ValueString(Get(parameters.value, "format", TStr("General")));
            BoxDone(old(styles), styles, sel, StyleEdit(None, None, Some(code)),
                    NumberFormatPrefix + code + ToSelectedSuffix, r)
        else r == Success(ToolPrefix + tool + NotInDemo) && styles == old(styles)
    {
      if selectedRange.None? {
        return Success(NoFormatRange);
      }
      var (sr, sc, er, ec) := selectedRange.value;
      var t := Lower(tool);
      if t == "bold" || t == "italic" || t == "number_format" {
        var e, message;
        if t == "bold" {
          e, message := FontEdit(Font(true, false, false)), BoldDone;
        } else if t == "italic" {
          e, message := FontEdit(Font(false, true, false)), ItalicDone;
        } else {
          if parameters.None? {
            return Failure("'NoneType' object has no attribute 'get'");
          }
          var code := ValueString(Get(parameters.value, "format", TStr("General")));
          e, message := StyleEdit(None, None, Some(code)), NumberFormatPrefix + code + ToSelectedSuffix;
        }
        var ok := StyleBox(sr + 1, sc + 1, er + 1, ec + 1, e);
        r := if ok then Success(message) else Failure(BelowOne);
      } else if t == "conditional_formatting" {
        if parameters.None? || parameters.value == map[] {
          return Success(RuleWithoutParameters);
        }
        var rule := Get(parameters.value, "rule_type", TStr(""));
        var threshold := Get(parameters.value, "threshold", TInt(0));
        if rule == TStr("greater_than") {
          MarkAbove(sr, sc, er, ec, threshold);
          r := Success(AboveThresholdPrefix + ValueString(threshold));
        } else {
          r := Success("Applied " + ValueString(rule) + " conditional formatting");
        }
      } else {
        r := Success(ToolPrefix + tool + NotInDemo);
      }
    }

    /** `select_context_menu_tool`: copy fills the clipboard, paste writes
        it back from the selection's first cell, delete empties the
        selection, clear_formatting resets its styles; any other tool only
        answers with a message. */
    method SelectContextMenuTool(tool: string) returns (r: Result<string>)
      requires Valid()
      modifies this
      ensures Valid()
      ensures selectedRange == old(selectedRange)
      ensures inputFieldContent == old(inputFieldContent) && inputFieldSelected == old(inputFieldSelected)
      ensures selectedRange.None? ==>
        r == Success(NoMenuSelection)
        && df == old(df) && styles == old(styles) && clipboard == old(clipboard)
      ensures selectedRange.Some? ==>
        var (sr, sc, er, ec) := selectedRange.value;
        var t := Lower(tool);
        if t == "copy" then
          df == old(df) && styles == old(styles)
          && if RectFails(sr, sc, er, ec, rows, cols) then clipboard == Some([]) && r == Failure(OutOfBounds)
             else clipboard == Some(CopyRect(df, rows, cols, sr, sc, er, ec)) && r == Success(CopyDone)
        else if t == "paste" then
          styles == old(styles) && clipboard == old(clipboard)
          && if clipboard.None? || clipboard.value == [] then
               r == Success(EmptyClipboard) && df == old(df)
             else if PasteFails(clipboard.value, sr, sc, rows, cols) then r == Failure(OutOfBounds) && df == old(df)
             else df == Paste(old(df), rows, cols, clipboard.value, sr, sc) && r == Success(PasteDone)
        else if t == "delete" then
          styles == old(styles) && clipboard == old(clipboard)
          && if RectFails(sr, sc, er, ec, rows, cols) then r == Failure(OutOfBounds) && df == old(df)
             else df == Fill(old(df), rows, cols, sr, sc, er, ec, Empty) && r == Success(DeleteDone)
        else if t == "clear_formatting" then
          df == old(df) && clipboard == old(clipboard)
          && BoxDone(old(styles), styles, selectedRange.value, ClearEdit, ClearDone, r)
        else
          r == Success(MenuToolPrefix + tool + NotInDemo)
          && df == old(df) && styles == old(styles) && clipboard == old(clipboard)
    {
      if selectedRange.None? {
        return Success(NoMenuSelection);
      }
      var (sr, sc, er, ec) := selectedRange.value;
      var t := Lower(tool);
      if t == "copy" {
        if RectFails(sr, sc, er, ec, rows, cols) {
          clipboard := Some([]);
          return Failure(OutOfBounds);
        }
        var clip := CopyCells(sr, sc, er, ec);
        clipboard := Some(clip);
        r := Success(CopyDone);
      } else if t == "paste" {
        if clipboard.None? || clipboard.value == [] {
          return Success(EmptyClipboard);
        }
        var ok := PasteCells(clipboard.value, sr, sc);
        r := if ok then Success(PasteDone) else Failure(OutOfBounds);
      } else if t == "delete" {
        var ok := FillSelection(sr, sc, er, ec, Empty);
        r := if ok then Success(DeleteDone) else Failure(OutOfBounds);
      } else if t == "clear_formatting" {
        var ok := StyleBox(sr + 1, sc + 1, er + 1, ec + 1, ClearEdit);
        r := if ok then Success(ClearDone) else Failure(BelowOne);
      } else {
        r := Success(MenuToolPrefix + tool + NotInDemo);
      }
    }

    /** `tell_user`: the message itself; nothing changes. */
    method TellUser(message: string) returns (r: string)
      ensures r == message
    {
      r := message;
    }
  }
}
