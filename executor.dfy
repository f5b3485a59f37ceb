/** The bridge from free-form action strings to the local interpreter
    (`ActionExecutor` in `action_executor.py`). A string is stripped and
    tried against a fixed order of substring tests and regular
    expressions; the first that matches picks the interpreter call, whose
    outcome is reported as `(success, message)`. Exceptions of the call
    become `(false, "Error executing ...: <message>")`; the one exception
    that escapes (an invalid column name in `Select A1:B5`) is `Failure`. */
module Executor {
  import opened Wrappers
  import opened Text
  import opened Grid
  import opened Interpreter

  // ------------------------------------------------------------ dispatch

  /** The groups of `Select\s+([A-Z]+)(\d+)(?::([A-Z]+)(\d+))?`, searched
      ignoring case. */
  datatype ExcelRefs = ExcelRefs(col1: string, row1: nat, second: Option<(string, nat)>)

  /** What each regular expression of the dispatcher finds in the
      stripped string, searched ignoring case; the regex engine itself is
      not modelled, so a scan is an input:
      `select4`  `Select\s*\(\s*(\d+)\s*,\s*(\d+)\s*,\s*(\d+)\s*,\s*(\d+)\s*\)`,
      `select2`  `Select\s*\(\s*(\d+)\s*,\s*(\d+)\s*\)`,
      `selectRefs` the `ExcelRefs` pattern,
      `drag`     `(?:Select\s*and\s*Drag|SelectAndDrag)\s*\(` and four numbers,
      `setQuoted` the text of `Set\s*\(\s*["'](.+?)["']\s*\)`,
      `setBare`  the group of `Set\s*\(\s*([^)]+)\s*\)` (before stripping),
      `format`   the group of `Format\s*\(\s*(.+?)\s*\)`,
      `tool`     the name in `(Copy|Paste|Delete|Cut|Bold|Italic|Underline)\s*\(\s*\)`,
      `formatDialog` whether `Format\s+Cells|Apply\s+Formatting|Background\s+Color` occurs,
      `menu`     whether `Copy/Paste/Delete/\.\.\.|Right\s*Click|Context\s+Menu` occurs,
      `color`    the group of `color\s*=\s*["']?([#\w]+)["']?` in the Format text. */
  datatype Scan = Scan(
    select4: Option<(nat, nat, nat, nat)>,
    select2: Option<(nat, nat)>,
    selectRefs: Option<ExcelRefs>,
    drag: Option<(nat, nat, nat, nat)>,
    setQuoted: Option<string>,
    setBare: Option<string>,
    format: Option<string>,
    tool: Option<string>,
    formatDialog: bool,
    menu: bool,
    color: Option<string>)

  /** The names the tool pattern can capture, lower-cased. */
  predicate ToolWord(name: string) {
    name in {"copy", "paste", "delete", "cut", "bold", "italic", "underline"}
  }

  /** What the patterns can give back: the tool pattern only captures its
      seven words (in any case). */
  predicate ScanOk(scan: Scan) {
    scan.tool.Some? ==> ToolWord(Lower(scan.tool.value))
  }

  /** The call `parse_and_execute` decides on. */
  // The messages `parse_and_execute` and its calls report.
  const AskUserReply: string := "User interaction required"
  const StopReply: string := "Task terminated"
  const DialogWithSelection: string := "Formatting already applied during selection (cells are highlighted in yellow)"
  const DialogWithoutSelection: string := "No cells selected for formatting"
  const MenuWithSelection: string := "Selection is already highlighted and formatted"
  const MenuWithoutSelection: string := "Menu action acknowledged (no file changes needed)"
  const UnparsedPrefix: string := "Could not parse action: "
  const NoRangeToFormat: string := "No range selected for formatting"
  const UnknownCut: string := "Unknown tool: cut"
  const UnknownToolPrefix: string := "Unknown tool: "
  const PastedMessage: string := "Pasted data from clipboard"
  const NothingToPaste: string := "Error: Nothing to paste"
  const NoContextSelection: string := "Error: No selection for context menu action"
  const NoRangeForTool: string := "Error: No range selected for formatting"
  const SelectBelowOne: string := "Error executing select: Row or column values must be at least 1"
  const FormatBelowOne: string := "Error executing format: Row or column values must be at least 1"
  const FormatBadColor: string := "Error executing format: Colors must be aRGB hex values"
  const DeletedMessage: string := "Deleted contents of selected cells"
  const CopiedMessage: string := "Copied selection to clipboard"
  const ItalicApplied: string := "Applied italic formatting to selected range"
  const BoldApplied: string := "Applied bold formatting to selected range"
  const DragErrorPrefix: string := "Error executing select and drag: "
  const SelectErrorPrefix: string := "Error executing select: "
  const SetErrorPrefix: string := "Error executing set: "
  const ToolErrorPrefix: string := "Error executing tool "
  const NotImplementedSuffix: string := " (not implemented in this demo)"
  const FormattingPrefix: string := "Applied formatting: "

  datatype Command =
    | AskUser
    | Stop
    | SelectCells(c1: int, r1: int, c2: int, r2: int)
    | SelectRefs(refs: ExcelRefs)
    | DragCells(c1: int, r1: int, c2: int, r2: int)
    | SetText(text: string)
    | FormatText(params: string)
    | UseTool(name: string)
    | FormatDialog
    | Menu
    | Unparsed(text: string)

  /** None of the tests of `parse_and_execute` fires on `t`. */
  predicate NothingMatches(t: string, scan: Scan) {
    !Contains(t, "Tell User") && !Contains(t, "TellUser") && !Contains(t, "Terminate")
    && scan.select4.None? && scan.select2.None? && scan.selectRefs.None? && scan.drag.None?
    && scan.setQuoted.None? && scan.setBare.None? && scan.format.None? && scan.tool.None?
    && !scan.formatDialog && !scan.menu
  }

  /** The ordered tests of `parse_and_execute` on the stripped string. */
  function Classify(s: string, scan: Scan): Command {
    var t := Trim(s);
    if Contains(t, "Tell User") || Contains(t, "TellUser") then AskUser
    else if Contains(t, "Terminate") then Stop
    else if scan.select4.Some? then
      var (c1, r1, c2, r2) := scan.select4.value;
      SelectCells(c1, r1, c2, r2)
    else if scan.select2.Some? then
      var (c, r) := scan.select2.value;
      SelectCells(c, r, c, r)
    else if scan.selectRefs.Some? then SelectRefs(scan.selectRefs.value)
    else if scan.drag.Some? then
      var (c1, r1, c2, r2) := scan.drag.value;
      DragCells(c1, r1, c2, r2)
    else if scan.setQuoted.Some? then SetText(scan.setQuoted.value)
    else if scan.setBare.Some? then SetText(Trim(scan.setBare.value))
    else if scan.format.Some? then FormatText(scan.format.value)
    else if scan.tool.Some? then UseTool(Lower(scan.tool.value))
    else if scan.formatDialog then FormatDialog
    else if scan.menu then Menu
    else Unparsed(t)
  }

  /** A hand-off to the user wins over every other reading of the string,
      and `Terminate` over every reading but that one. */
  lemma ClassifyPriority(s: string, scan: Scan, other: Scan)
    ensures Contains(Trim(s), "Tell User") || Contains(Trim(s), "TellUser") ==>
      Classify(s, scan) == Classify(s, other) == AskUser
    ensures Classify(s, scan) == Stop <==>
      Contains(Trim(s), "Terminate") && !Contains(Trim(s), "Tell User") && !Contains(Trim(s), "TellUser")
    ensures Classify(s, scan) == Stop ==> Classify(s, other) == Stop
  {
  }

  /** A string is unparsed exactly when no test fires, and the message
      then quotes it stripped. */
  lemma UnparsedExactly(s: string, scan: Scan)
    ensures Classify(s, scan).Unparsed? <==> NothingMatches(Trim(s), scan)
    ensures Classify(s, scan).Unparsed? ==> Classify(s, scan).text == Trim(s)
  {
  }

  /** The two-number select is a single cell, and a tool command always
      names one of the seven captured words in lower case. */
  lemma ClassifyShapes(s: string, scan: Scan)
    requires ScanOk(scan)
    ensures Classify(s, scan).UseTool? ==> ToolWord(Classify(s, scan).name)
    ensures scan.select4.None? && scan.select2.Some? && Classify(s, scan).SelectCells? ==>
      Classify(s, scan).c1 == Classify(s, scan).c2 && Classify(s, scan).r1 == Classify(s, scan).r2
  {
  }

  /** The 0-based corners `(col1, row1, col2, row2)` of `Select A1:B5`; a
      missing second reference repeats the first. An invalid column name
      raises out of `parse_and_execute`. */
  function RefCorners(refs: ExcelRefs): (r: Result<(int, int, int, int)>)
    ensures r.Success? ==> r.value.0 >= 0 && r.value.1 >= -1 && r.value.2 >= 0 && r.value.3 >= -1
  {
    match ColumnIndexFromString(refs.col1)
    case None => Failure(refs.col1 + BadColumnSuffix)
    case Some(k1) =>
      match refs.second
      case None => Success((k1 - 1, refs.row1 - 1, k1 - 1, refs.row1 - 1))
      case Some((col2, row2)) =>
        match ColumnIndexFromString(col2)
        case None => Failure(col2 + BadColumnSuffix)
        case Some(k2) => Success((k1 - 1, refs.row1 - 1, k2 - 1, row2 - 1))
  }

  /** The address of a cell, read back by the reference pattern, gives
      that single cell's 0-based corners. */
  lemma RefCornersRoundTrip(row: nat, col: nat)
    requires col < MaxColumn
    ensures RefCorners(ExcelRefs(ColumnLetters(col + 1), row + 1, None)) == Success((col, row, col, row))
  {
    ColumnIndexRoundTrip(col + 1);
  }

  /** Two addresses give the range between them, in the order written. */
  lemma RefCornersRange(row1: nat, col1: nat, row2: nat, col2: nat)
    requires col1 < MaxColumn && col2 < MaxColumn
    ensures RefCorners(ExcelRefs(ColumnLetters(col1 + 1), row1 + 1, Some((ColumnLetters(col2 + 1), row2 + 1))))
            == Success((col1, row1, col2, row2))
  {
    ColumnIndexRoundTrip(col1 + 1);
    ColumnIndexRoundTrip(col2 + 1);
  }

  // -------------------------------------------------------------- format

  /** `Font(bold=True)`, `Font(italic=True)`, `Font(underline="single")`
      are set in that order, each a whole new font, so the last one named
      in the parameters is the one that stays. */
  function FormatFont(params: string): (f: Option<Font>)
    ensures f.Some? <==> Contains(Lower(params), "bold") || Contains(Lower(params), "italic")
                         || Contains(Lower(params), "underline")
    ensures Contains(Lower(params), "underline") ==> f == Some(Font(false, false, true))
    ensures !Contains(Lower(params), "underline") && Contains(Lower(params), "italic") ==>
      f == Some(Font(false, true, false))
  {
    var p := Lower(params);
    if Contains(p, "underline") then Some(Font(false, false, true))
    else if Contains(p, "italic") then Some(Font(false, true, false))
    else if Contains(p, "bold") then Some(Font(true, false, false))
    else None
  }

  /** The colour group with every `#` removed. */
  function FillColor(color: string): (c: string)
    ensures HasNo(c, '#')
  {
    ReplaceRemoves(color, '#', "");
    Replace(color, "#", "")
  }

  /** What the format loop does to each cell: the font of `FormatFont`,
      and a solid fill when a colour was found. */
  function FormatEdit(params: string, color: Option<string>): (e: StyleEdit)
    ensures e.numberFormat.None?
    ensures e.font == FormatFont(params)
    ensures color.Some? ==> e.fill == Some(Some(Argb(FillColor(color.value))))
    ensures color.None? ==> e.fill.None?
  {
    StyleEdit(FormatFont(params), if color.Some? then Some(Some(Argb(FillColor(color.value)))) else None, None)
  }

  /** The font-only part of the edit: what the first cell keeps when its
      fill raises. */
  function FontPart(e: StyleEdit): StyleEdit {
    StyleEdit(e.font, None, None)
  }

  /** The format loop visits at least one cell. */
  predicate NonEmptyBox(r0: int, c0: int, r1: int, c1: int) {
    r0 <= r1 && c0 <= c1
  }

  /** Where `_execute_tool` sends a name: copy, paste and delete to the
      context menu, bold, italic and underline to the top menu. */
  predicate ContextTool(name: string) {
    name in {"copy", "paste", "delete"}
  }

  predicate TopTool(name: string) {
    name in {"bold", "italic", "underline"}
  }

  /** Everything the executor and its workbook hold. */
  datatype State = State(df: seq<seq<Cell>>, styles: Styles, selectedRange: Option<(int, int, int, int)>,
                         clipboard: Option<seq<seq<Cell>>>, inputFieldContent: string,
                         inputFieldSelected: bool, lastOperationResult: string)

  // ------------------------------------------------------------ executor

  class ActionExecutor {
    /** The wrapped interpreter (`excel_action`). */
    const book: Workbook
    var lastOperationResult: string

    predicate Valid()
      reads this, book
    {
      book.Valid()
    }

    function Snapshot(): State
      reads this, book
    {
      State(book.df, book.styles, book.selectedRange, book.clipboard, book.inputFieldContent,
            book.inputFieldSelected, lastOperationResult)
    }

    /** An executor over a loaded workbook, with no result yet. */
    constructor(b: Workbook)
      requires b.Valid()
      ensures Valid() && book == b && lastOperationResult == ""
    {
      book := b;
      lastOperationResult := "";
    }

    /** What `_execute_select` does: the selection is stored, every cell of
        it is filled yellow, and its name is reported; a corner below 1 or
        an unnamed column is an error that keeps the styles. */
    twostate predicate Selected(c1: int, r1: int, c2: int, r2: int, ok: bool, msg: string)
      reads this, book
    {
      && book.selectedRange == Some((r1, c1, r2, c2))
      && book.df == old(book.df) && book.clipboard == old(book.clipboard)
      && book.inputFieldContent == old(book.inputFieldContent)
      && book.inputFieldSelected == old(book.inputFieldSelected)
      && match SelectionName((r1, c1, r2, c2), book.rows, book.cols)
         case Failure(e) =>
           !ok && msg == SelectErrorPrefix + e
           && book.styles == old(book.styles) && lastOperationResult == old(lastOperationResult)
         case Success(name) =>
           lastOperationResult == "Selected " + name
           && if BoxFails(r1 + 1, c1 + 1, r2 + 1, c2 + 1) then
                !ok && msg == SelectBelowOne && book.styles == old(book.styles)
              else
                ok && msg == "Selected " + name
                && Restyled(old(book.styles), book.styles, r1 + 1, c1 + 1, r2 + 1, c2 + 1, FillEdit(Yellow))
    }

    /** What `_execute_select_and_drag` does: the interpreter's drag from
        the first cell to the second and its report, or its error with the
        values unchanged; only the values and the last result change. */
    twostate predicate Dragged(c1: int, r1: int, c2: int, r2: int, ok: bool, msg: string)
      reads this, book
    {
      && old(book.Valid()) && book.Valid()
      && book.styles == old(book.styles) && book.selectedRange == old(book.selectedRange)
      && book.clipboard == old(book.clipboard)
      && book.inputFieldContent == old(book.inputFieldContent)
      && book.inputFieldSelected == old(book.inputFieldSelected)
      && var plan := DragPlan(Number(c1 + 1), Number(r1 + 1), Number(c2 + 1), Number(r2 + 1), book.rows, book.cols);
         (plan.Failure? ==> book.df == old(book.df))
         && (plan.Success? ==>
               plan.value == (r1, c1, r2, c2) && book.df == Drag(old(book.df), book.rows, book.cols, r1, c1, r2, c2))
         && match if plan.Failure? then Failure(plan.error) else DragMessage(r1, c1, r2, c2, book.rows, book.cols, None)
            case Failure(e) => !ok && msg == DragErrorPrefix + e && lastOperationResult == old(lastOperationResult)
            case Success(m) => ok && msg == m && lastOperationResult == m
    }

    /** What `_execute_set` does: the input field is selected, the text is
        typed into it and written over the selection, and the interpreter's
        message or error is reported. */
    twostate predicate TextSet(text: string, ok: bool, msg: string)
      reads this, book
    {
      && old(book.Valid()) && book.Valid()
      && book.inputFieldSelected
      && book.styles == old(book.styles) && book.selectedRange == old(book.selectedRange)
      && book.clipboard == old(book.clipboard)
      && var shown := FieldShows(old(book.df), book.rows, book.cols, book.selectedRange);
         if shown.Failure? then
           !ok && msg == SetErrorPrefix + shown.error
           && book.df == old(book.df) && book.inputFieldContent == old(book.inputFieldContent)
           && lastOperationResult == old(lastOperationResult)
         else
           book.inputFieldContent == text
           && if book.selectedRange.None? then
                !ok && msg == SetErrorPrefix + UnboundStartRow
                && book.df == old(book.df) && lastOperationResult == old(lastOperationResult)
              else
                var (sr, sc, er, ec) := book.selectedRange.value;
                if RectFails(sr, sc, er, ec, book.rows, book.cols) then
                  !ok && msg == SetErrorPrefix + OutOfBounds
                  && book.df == old(book.df) && lastOperationResult == old(lastOperationResult)
                else
                  book.df == Fill(old(book.df), book.rows, book.cols, sr, sc, er, ec, InputValue(text))
                  && match SetMessage(text, book.selectedRange.value)
                     case Failure(e) => !ok && msg == SetErrorPrefix + e
                                        && lastOperationResult == old(lastOperationResult)
                     case Success(m) => ok && msg == m && lastOperationResult == m
    }

    /** What `_execute_format` does: with a selection, every cell of it
        takes the edit of `FormatEdit`, or the first cell only its font when
        the colour is bad; nothing but the styles and the last result
        changes. */
    twostate predicate Formatted(params: string, color: Option<string>, ok: bool, msg: string)
      reads this, book
    {
      && book.df == old(book.df) && book.selectedRange == old(book.selectedRange)
      && book.clipboard == old(book.clipboard)
      && book.inputFieldContent == old(book.inputFieldContent)
      && book.inputFieldSelected == old(book.inputFieldSelected)
      && (book.selectedRange.None? ==>
            !ok && msg == NoRangeToFormat
            && book.styles == old(book.styles) && lastOperationResult == old(lastOperationResult))
      && (book.selectedRange.Some? ==>
            var sel := book.selectedRange.value;
            var e := FormatEdit(params, color);
            var badColor := color.Some? && !IsHexColor(FillColor(color.value));
            if BoxFails(sel.0 + 1, sel.1 + 1, sel.2 + 1, sel.3 + 1) then
              !ok && msg == FormatBelowOne
              && book.styles == old(book.styles) && lastOperationResult == old(lastOperationResult)
            else if badColor && NonEmptyBox(sel.0 + 1, sel.1 + 1, sel.2 + 1, sel.3 + 1) then
              !ok && msg == FormatBadColor
              && Restyled(old(book.styles), book.styles, sel.0 + 1, sel.1 + 1, sel.0 + 1, sel.1 + 1, FontPart(e))
              && lastOperationResult == old(lastOperationResult)
            else
              ok && msg == FormattingPrefix + params && lastOperationResult == msg
              && Restyled(old(book.styles), book.styles, sel.0 + 1, sel.1 + 1, sel.2 + 1, sel.3 + 1, e))
    }

    /** What the context-menu tools do: copy fills the clipboard, paste
        writes it from the selection's corner, delete empties the selection;
        without a selection each only reports. */
    twostate predicate ContextUsed(name: string, ok: bool, msg: string)
      reads this, book
    {
      && old(book.Valid()) && book.Valid()
      && book.selectedRange == old(book.selectedRange)
      && book.inputFieldContent == old(book.inputFieldContent)
      && book.inputFieldSelected == old(book.inputFieldSelected)
      && (ok ==> lastOperationResult == msg)
      && (!ok ==> lastOperationResult == old(lastOperationResult))
      && (book.selectedRange.None? ==>
            ok && msg == NoContextSelection
            && book.df == old(book.df) && book.styles == old(book.styles) && book.clipboard == old(book.clipboard))
      && (book.selectedRange.Some? && name == "copy" ==>
            var (sr, sc, er, ec) := book.selectedRange.value;
            book.df == old(book.df) && book.styles == old(book.styles)
            && if RectFails(sr, sc, er, ec, book.rows, book.cols) then
                 !ok && msg == ToolErrorPrefix + name + ": " + OutOfBounds && book.clipboard == Some([])
               else ok && msg == CopiedMessage
                    && book.clipboard == Some(CopyRect(book.df, book.rows, book.cols, sr, sc, er, ec)))
      && (book.selectedRange.Some? && name == "paste" ==>
            var (sr, sc, er, ec) := book.selectedRange.value;
            book.styles == old(book.styles) && book.clipboard == old(book.clipboard)
            && if book.clipboard.None? || book.clipboard.value == [] then
                 ok && msg == NothingToPaste && book.df == old(book.df)
               else if PasteFails(book.clipboard.value, sr, sc, book.rows, book.cols) then
                 !ok && msg == ToolErrorPrefix + name + ": " + OutOfBounds && book.df == old(book.df)
               else ok && msg == PastedMessage
                    && book.df == Paste(old(book.df), book.rows, book.cols, book.clipboard.value, sr, sc))
      && (book.selectedRange.Some? && name == "delete" ==>
            var (sr, sc, er, ec) := book.selectedRange.value;
            book.styles == old(book.styles) && book.clipboard == old(book.clipboard)
            && if RectFails(sr, sc, er, ec, book.rows, book.cols) then
                 !ok && msg == ToolErrorPrefix + name + ": " + OutOfBounds && book.df == old(book.df)
               else ok && msg == DeletedMessage
                    && book.df == Fill(old(book.df), book.rows, book.cols, sr, sc, er, ec, Empty))
    }

    /** What the top-menu tools do: bold and italic set the font of every
        selected cell, underline is only reported; the values and the
        clipboard stay. */
    twostate predicate TopUsed(name: string, ok: bool, msg: string)
      reads this, book
    {
      && book.selectedRange == old(book.selectedRange)
      && book.inputFieldContent == old(book.inputFieldContent)
      && book.inputFieldSelected == old(book.inputFieldSelected)
      && book.df == old(book.df) && book.clipboard == old(book.clipboard)
      && (ok ==> lastOperationResult == msg)
      && (!ok ==> lastOperationResult == old(lastOperationResult))
      && (book.selectedRange.None? ==> ok && msg == NoRangeForTool && book.styles == old(book.styles))
      && (book.selectedRange.Some? && name == "bold" ==>
            var (sr, sc, er, ec) := book.selectedRange.value;
            if BoxFails(sr + 1, sc + 1, er + 1, ec + 1) then
              !ok && msg == ToolErrorPrefix + name + ": " + BelowOne && book.styles == old(book.styles)
            else ok && msg == BoldApplied
                 && Restyled(old(book.styles), book.styles, sr + 1, sc + 1, er + 1, ec + 1, FontEdit(Font(true, false, false))))
      && (book.selectedRange.Some? && name == "italic" ==>
            var (sr, sc, er, ec) := book.selectedRange.value;
            if BoxFails(sr + 1, sc + 1, er + 1, ec + 1) then
              !ok && msg == ToolErrorPrefix + name + ": " + BelowOne && book.styles == old(book.styles)
            else ok && msg == ItalicApplied
                 && Restyled(old(book.styles), book.styles, sr + 1, sc + 1, er + 1, ec + 1, FontEdit(Font(false, true, false))))
      && (book.selectedRange.Some? && name == "underline" ==>
            ok && msg == "Selected tool: " + name + NotImplementedSuffix && book.styles == old(book.styles))
    }

    /** What `_execute_tool` does: a context-menu or top-menu word has that
        menu's effect; any other word is refused and changes nothing. */
    twostate predicate ToolUsed(name: string, ok: bool, msg: string)
      reads this, book
    {
      && (ContextTool(name) ==> ContextUsed(name, ok, msg))
      && (TopTool(name) ==> TopUsed(name, ok, msg))
      && (!ContextTool(name) && !TopTool(name) ==>
            !ok && msg == UnknownToolPrefix + name && Snapshot() == old(Snapshot()))
    }

    /** `_execute_select`: the interpreter selects the 1-based corners,
        which stores exactly the given 0-based ones; then every cell of
        the rectangle is filled yellow. */
    method ExecuteSelect(c1: int, r1: int, c2: int, r2: int) returns (ok: bool, msg: string)
      requires Valid()
      modifies this, book
      ensures Valid()
      ensures Selected(c1, r1, c2, r2, ok, msg)
    {
      var sel := book.Select(Number(c1 + 1), Number(r1 + 1), Some(Number(c2 + 1)), Some(Number(r2 + 1)), None);
      if sel.Failure? {
        return false, SelectErrorPrefix + sel.error;
      }
      lastOperationResult := sel.value;
      var filled := book.StyleBox(r1 + 1, c1 + 1, r2 + 1, c2 + 1, FillEdit(Yellow));
      if !filled {
        return false, SelectBelowOne;
      }
      ok, msg := true, sel.value;
    }

    /** `_execute_select_and_drag`: the interpreter's drag on the 1-based
        corners. */
    method ExecuteSelectAndDrag(c1: int, r1: int, c2: int, r2: int) returns (ok: bool, msg: string)
      requires Valid()
      modifies this, book
      ensures Valid()
      ensures Dragged(c1, r1, c2, r2, ok, msg)
    {
      var res := book.SelectAndDrag(Number(c1 + 1), Number(r1 + 1), Number(c2 + 1), Number(r2 + 1), None);
      if res.Failure? {
        return false, DragErrorPrefix + res.error;
      }
      lastOperationResult := res.value;
      ok, msg := true, res.value;
    }

    /** `_execute_set`: the input field is selected first, then the text
        is typed into it and the selection. */
    method ExecuteSet(text: string) returns (ok: bool, msg: string)
      requires Valid()
      modifies this, book
      ensures Valid()
      ensures TextSet(text, ok, msg)
    {
      var field := book.SelectInputField();
      if field.Failure? {
        return false, SetErrorPrefix + field.error;
      }
      var res := book.SetInput(text);
      if res.Failure? {
        return false, SetErrorPrefix + res.error;
      }
      lastOperationResult := res.value;
      ok, msg := true, res.value;
    }

    /** `_execute_format`: with a selection, the edit of `FormatEdit` goes
        to every cell of it (1-based); openpyxl raises on the first cell
        below row or column 1, and on a colour that is not hex after the
        first cell's font is set. */
    method ExecuteFormat(params: string, color: Option<string>) returns (ok: bool, msg: string)
      requires Valid()
      modifies this, book
      ensures Valid()
      ensures Formatted(params, color, ok, msg)
    {
      if book.selectedRange.None? {
        return false, NoRangeToFormat;
      }
      var (sr, sc, er, ec) := book.selectedRange.value;
      var e := FormatEdit(params, color);
      var badColor := color.Some? && !IsHexColor(FillColor(color.value));
      // A bad colour raises once the first cell's font is set; otherwise
      // the whole box is styled.
      var firstOnly := badColor && !BoxFails(sr + 1, sc + 1, er + 1, ec + 1) && NonEmptyBox(sr + 1, sc + 1, er + 1, ec + 1);
      var lastRow, lastCol, edit := if firstOnly then sr + 1 else er + 1, if firstOnly then sc + 1 else ec + 1,
                                    if firstOnly then FontPart(e) else e;
      var done := book.StyleBox(sr + 1, sc + 1, lastRow, lastCol, edit);
      if firstOnly {
        return false, FormatBadColor;
      }
      if !done {
        return false, FormatBelowOne;
      }
      msg := FormattingPrefix + params;
      lastOperationResult := msg;
      ok := true;
    }

    /** The context-menu half of the tool map: copy, paste and delete. */
    method ContextMenuTool(name: string) returns (ok: bool, msg: string)
      requires ContextTool(name)
      requires Valid()
      modifies this, book
      ensures Valid()
      ensures ContextUsed(name, ok, msg)
    {
      LowerOfLower(name);
      var res := book.SelectContextMenuTool(name);
      if res.Failure? {
        return false, ToolErrorPrefix + name + ": " + res.error;
      }
      lastOperationResult := res.value;
      ok, msg := true, res.value;
    }

    /** The top-menu half of the tool map: bold, italic and underline. */
    method TopMenuTool(name: string) returns (ok: bool, msg: string)
      requires TopTool(name)
      requires Valid()
      modifies this, book
      ensures Valid()
      ensures TopUsed(name, ok, msg)
    {
      LowerOfLower(name);
      var res := book.SelectTopMenuTool(name, None);
      if res.Failure? {
        return false, ToolErrorPrefix + name + ": " + res.error;
      }
      lastOperationResult := res.value;
      ok, msg := true, res.value;
    }

    /** `_execute_tool`: a mapped name goes to its menu method, which
        answers without raising when nothing is selected; any other name
        (`cut`) is unknown. */
    method ExecuteTool(name: string) returns (ok: bool, msg: string)
      requires Valid()
      modifies this, book
      ensures Valid()
      ensures ToolUsed(name, ok, msg)
    {
      if ContextTool(name) {
        ok, msg := ContextMenuTool(name);
      } else if TopTool(name) {
        ok, msg := TopMenuTool(name);
      } else {
        ok, msg := false, UnknownToolPrefix + name;
      }
    }

    /** What `parse_and_execute` reports for `cmd`, and what it does: the
        call `Classify` picks, reported as `(success, message)`, with that
        call's effect on the workbook; an invalid column name in
        `Select A1:B5` raises out of it. */
    twostate predicate Reports(cmd: Command, color: Option<string>, new r: Result<(bool, string)>)
      reads this, book
    {
      Answered(cmd, r) && ReportsOnCells(cmd, r) && ReportsStyle(cmd, color, r)
    }

    /** The commands that only answer change nothing. */
    twostate predicate Answered(cmd: Command, new r: Result<(bool, string)>)
      reads this, book
    {
      && (cmd.AskUser? ==> r == Success((true, AskUserReply)) && Snapshot() == old(Snapshot()))
      && (cmd.Stop? ==> r == Success((true, StopReply)) && Snapshot() == old(Snapshot()))
      && (cmd.FormatDialog? ==>
            Snapshot() == old(Snapshot())
            && r == if book.selectedRange.Some?
                    then Success((true, DialogWithSelection))
                    else Success((false, DialogWithoutSelection)))
      && (cmd.Menu? ==>
            Snapshot() == old(Snapshot())
            && r == if book.selectedRange.Some?
                    then Success((true, MenuWithSelection))
                    else Success((true, MenuWithoutSelection)))
      && (cmd.Unparsed? ==> r == Success((false, UnparsedPrefix + cmd.text)) && Snapshot() == old(Snapshot()))
    }

    /** A selection lands where the command says and is highlighted, a drag
        writes the dragged values, and text goes into the input field and
        the selection. */
    twostate predicate ReportsOnCells(cmd: Command, new r: Result<(bool, string)>)
      reads this, book
    {
      && (cmd.SelectCells? ==>
            r.Success? && Selected(cmd.c1, cmd.r1, cmd.c2, cmd.r2, r.value.0, r.value.1))
      && (cmd.SelectRefs? ==>
            match RefCorners(cmd.refs)
            case Failure(e) => r == Failure(e) && Snapshot() == old(Snapshot())
            case Success((c1, r1, c2, r2)) => r.Success? && Selected(c1, r1, c2, r2, r.value.0, r.value.1))
      && (cmd.DragCells? ==>
            r.Success? && Dragged(cmd.c1, cmd.r1, cmd.c2, cmd.r2, r.value.0, r.value.1))
      && (cmd.SetText? ==> r.Success? && TextSet(cmd.text, r.value.0, r.value.1))
    }

    /** Formatting restyles the selection with the scanned colour, and a
        tool word has its menu's effect; the one unknown word, `cut`,
        changes nothing. */
    twostate predicate ReportsStyle(cmd: Command, color: Option<string>, new r: Result<(bool, string)>)
      reads this, book
    {
      && (cmd.FormatText? ==> r.Success? && Formatted(cmd.params, color, r.value.0, r.value.1))
      && (cmd.UseTool? ==>
            r.Success? && ToolWord(cmd.name) && ToolUsed(cmd.name, r.value.0, r.value.1)
            && (!ContextTool(cmd.name) && !TopTool(cmd.name) ==>
                  cmd.name == "cut" && r.value == (false, UnknownCut) && Snapshot() == old(Snapshot())))
    }

    /** The commands that only answer: a hand-off to the user, a request to
        terminate, the format dialog, the menu and an unparsed string. */
    method Acknowledge(cmd: Command) returns (r: Result<(bool, string)>)
      requires cmd.AskUser? || cmd.Stop? || cmd.FormatDialog? || cmd.Menu? || cmd.Unparsed?
      ensures Reports(cmd, None, r)
    {
      match cmd {
        case AskUser =>
          r := Success((true, AskUserReply));
        case Stop =>
          r := Success((true, StopReply));
        case FormatDialog =>
          if book.selectedRange.Some? {
            r := Success((true, DialogWithSelection));
          } else {
            r := Success((false, DialogWithoutSelection));
          }
        case Menu =>
          if book.selectedRange.Some? {
            r := Success((true, MenuWithSelection));
          } else {
            r := Success((true, MenuWithoutSelection));
          }
        case Unparsed(t) =>
          r := Success((false, UnparsedPrefix + t));
      }
    }

    /** The commands that move the selection or change cells. */
    method PerformOnCells(cmd: Command) returns (r: Result<(bool, string)>)
      requires Valid()
      requires cmd.SelectCells? || cmd.SelectRefs? || cmd.DragCells? || cmd.SetText?
      modifies this, book
      ensures Valid()
      ensures Reports(cmd, None, r)
    {
      var ok: bool, msg: string;
      match cmd {
        case SelectRefs(refs) =>
          var corners := RefCorners(refs);
          if corners.Failure? {
            return Failure(corners.error);
          }
          var (c1, r1, c2, r2) := corners.value;
          ok, msg := ExecuteSelect(c1, r1, c2, r2);
        case SelectCells(c1, r1, c2, r2) =>
          ok, msg := ExecuteSelect(c1, r1, c2, r2);
        case DragCells(c1, r1, c2, r2) =>
          ok, msg := ExecuteSelectAndDrag(c1, r1, c2, r2);
        case SetText(text) =>
          ok, msg := ExecuteSet(text);
      }
      r := Success((ok, msg));
    }

    /** The commands that restyle cells or use a tool. */
    method PerformStyle(cmd: Command, color: Option<string>) returns (r: Result<(bool, string)>)
      requires Valid()
      requires cmd.FormatText? || (cmd.UseTool? && ToolWord(cmd.name))
      modifies this, book
      ensures Valid()
      ensures Reports(cmd, color, r)
    {
      var ok: bool, msg: string;
      if cmd.FormatText? {
        ok, msg := ExecuteFormat(cmd.params, color);
      } else {
        ok, msg := ExecuteTool(cmd.name);
        if !ContextTool(cmd.name) && !TopTool(cmd.name) {
          assert cmd.name == "cut" && msg == UnknownCut;
        }
      }
      r := Success((ok, msg));
    }

    /** Carries out a classified command. */
    method Execute(cmd: Command, color: Option<string>) returns (r: Result<(bool, string)>)
      requires Valid() && (cmd.UseTool? ==> ToolWord(cmd.name))
      modifies this, book
      ensures Valid()
      ensures Reports(cmd, color, r)
    {
      if cmd.AskUser? || cmd.Stop? || cmd.FormatDialog? || cmd.Menu? || cmd.Unparsed? {
        r := Acknowledge(cmd);
      } else if cmd.FormatText? || cmd.UseTool? {
        r := PerformStyle(cmd, color);
      } else {
        r := PerformOnCells(cmd);
      }
    }

    /** `parse_and_execute`: classify the string, then carry out the call
        it picks. */
    method ParseAndExecute(s: string, scan: Scan) returns (r: Result<(bool, string)>)
      requires Valid() && ScanOk(scan)
      modifies this, book
      ensures Valid()
      ensures Reports(Classify(s, scan), scan.color, r)
    {
      ClassifyShapes(s, scan);
      r := Execute(Classify(s, scan), scan.color);
    }
  }
}
