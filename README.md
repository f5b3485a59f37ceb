# Excel agent: action language, interpreters and agent loop

A Dafny model of the core of an agent that edits spreadsheets. The agent asks a language model for actions, writes them in a small command language and runs them against a sheet. The model covers:

- **The action language** (`action_schema.dfy`, `action_parse.dfy`, `action_roundtrip.dfy`, `format_roundtrip.dfy`). The action records are Select, SelectAndDrag, Format, Set, ToolAction, TellUser and Terminate. Each carries an optional regex filter. The parser's `READ` branch builds a record `Read` that the schema module never defines; the model gives it a record of its own (see "Left out"). The model has their text form `REGEX <pattern> | <VERB> <params>` (`to_string`, `action_list_to_str`) and the reverse parser (`parse_cell_range`, `parse_format_params`, `parse_action_entry`, `parse_action_string`). It proves that every well-formed list written out parses back to its canonical form. The canonical form is a missing filter as `^.*$`, a one-cell Select as `col1row1:col1-1`, and falsy Format fields dropped.
- **The local interpreter** (`grid.dfy`, `interpreter.dfy`). The class `Interpreter.Workbook` holds a pandas-style frame of cell values addressed as `iloc` addresses it, the openpyxl styles, the selection, the clipboard and the input field. One method per action changes these in place: select, fill-handle drag, input field and set, top-menu and context-menu tools, tell user.
- **The executor** (`executor.dfy`). The class `Executor.ActionExecutor` classifies a free-form action string by an ordered list of tests, calls the interpreter and reports `(success, message)`.
- **The Google Sheets add-on** (`addon.dfy`). The class `AppsScript.Script` runs a list of action records over a sheet of values, formulas and formats, with a module-level clipboard. A formula's value is computed from the sheet as it is at the moment it is read, so `applySet` is a row-by-row fold in which each cell's filter sees the cells written before it. The environment flag `asWritten` selects the number-format and paste updates exactly as the script writes them, or their corrected forms (see "Findings"). Each loop is proved against a function over the whole grid, and the action loop against `AppsScript.Run`.
- **The agent** (`agent_state.dfy`, `chat.dfy`, `response.dfy`, `singular_agent.dfy`, `run_loop.dfy`). This covers:
  - the agent state and its three histories;
  - chat histories;
  - the section extraction from model replies;
  - the reflection verdict that commits or flags a step;
  - the one-shot web agent's configuration and chat;
  - the command-line main loop with its iteration bound, stagnation counter, Tell User hand-off, Terminate exit and memory deduplication.

Every model reply, user reply, environment variable and file content is a parameter of the model. `Failure` stands for a raised exception.

## Model

| member | source | states |
|---|---|---|
| Text.Trim | ExcelAgent/api/action_reverse_parse.py:61-62 | `strip()` leaves no whitespace at either end and leaves a stripped text as it is |
| Text.SplitLast | ExcelAgent/chat/response.py:39 | `split(m)[-1]`: a suffix holding no `m`; when `m` occurs, an occurrence of `m` ends exactly where the suffix begins; when it does not, the whole text |
| Text.SplitLastOverlap | ExcelAgent/chat/response.py:39 | occurrences that overlap are cut left to right as `split` cuts them: the last piece of `"aaa"` split on `"aa"` is `"a"` |
| Text.SplitFirst | ExcelAgent/chat/response.py:40 | `split(m)[0]`: the text before the first occurrence of `m`, and the whole text when `m` does not occur |
| Text.SplitAtOnly | ExcelAgent/chat/response.py:39-40 | where `m` occurs exactly once, `split(m)[0]` is the text before it and `split(m)[-1]` the text after it |
| Text.SplitBetweenOnly | ExcelAgent/chat/response.py:39-40 | with two markers occurring once each, the first before the second, `split(m)[-1].split(n)[0]` is the text between them |
| Text.TwoSections | ExcelAgent/chat/response.py:80-86 | for a text `x m t n v` with each marker once, the section after `m` and before `n` is `t`, and the text after `n` is `v` |
| Text.ThreeSections | ExcelAgent/chat/response.py:38-58 | for a text `x m t n a l u` with each marker once, the three sections cut as the action reply is cut are `t`, `a` and `u` |
| Text.ReplaceRemoves | ExcelAgent/chat/response.py:41-42 | replacing a character by a text without it removes every occurrence |
| Text.ReplaceKeepsAbsent | ExcelAgent/chat/response.py:43 | replacing cannot bring in a character that neither the text nor the replacement holds |
| Text.SplitJoin | ExcelAgent/api/action_reverse_parse.py:49 | splitting texts joined by a separator that none holds gives the texts back |
| Text.SplitPaddedCommaList | ExcelAgent/api/action_reverse_parse.py:49 | splitting a comma-and-space list at commas and stripping the parts gives the stripped entries back |
| Text.Lower | ExcelAgent/utils/action_interpret.py:310 | `lower()` maps each character to its lower-case letter, keeping the length |
| Text.IntRoundTrip | ExcelAgent/api/action_reverse_parse.py:39 | `int(str(n))` is `n` for every integer |
| Text.ParseIntPadded | ExcelAgent/api/action_reverse_parse.py:39 | `int()` ignores whitespace around a decimal numeral and reads its value |
| Text.GetColumnLetter | ExcelAgent/utils/action_interpret.py:97 | `get_column_letter` succeeds exactly on 1..18278 and gives one to three capital letters |
| Text.ColumnIndexFromString | ExcelAgent/utils/action_interpret.py:76 | a column that `column_index_from_string` reads lies between 1 and 18278 |
| Text.ColumnIndexRoundTrip | ExcelAgent/utils/action_interpret.py:76 | the letters of a column number up to the sheet maximum read back as that number |
| Text.ColumnLetterRoundTrip | ExcelAgent/utils/action_interpret.py:97 | a column read from letters prints back as the same letters in upper case |
| ActionSchema.BorderItems | ExcelAgent/api/action_schemas.py:65 | one `side: True`/`side: False` item per border entry, in the dictionary's order |
| ActionSchema.ParamTexts | ExcelAgent/api/action_schemas.py:54-72 | one `key: value` text per Format parameter, in the order the record writes them |
| ActionSchema.ToStrings | ExcelAgent/api/action_schemas.py:105-106 | one `to_string` line per action, in order |
| ActionSchema.Canon | ExcelAgent/api/action_reverse_parse.py:56-99 | the record the parser rebuilds keeps the action's verb and the filter text it was written with |
| ActionSchema.CanonStable | ExcelAgent/api/action_reverse_parse.py:9-18 | a canonical record is well formed again and is its own canonical form (a one-cell range becomes `col1 row1 : col1 -1` once and stays so) |
| ActionParse.SplitOnce | ExcelAgent/api/action_reverse_parse.py:65 | `split(None, 1)` unpacked into two: the second piece is non-empty and does not start with whitespace |
| ActionParse.MatchCellRef | ExcelAgent/api/action_reverse_parse.py:6 | a matched cell reference has a column of capital letters and a row of an optional minus and digits |
| ActionParse.ParseCellRange | ExcelAgent/api/action_reverse_parse.py:9-18 | a range is accepted exactly when it has one or two `:`-parts that each match the cell pattern; more parts fail with the unpacking error; one part gives the same column and row `-1` as the far end; every accepted range has two columns and two rows of the cell pattern |
| ActionParse.SplitParams | ExcelAgent/api/action_reverse_parse.py:31 | the comma split always gives at least one piece |
| ActionParse.ApplyParts | ExcelAgent/api/action_reverse_parse.py:33-52 | reading the parts fails only if some part is a size part (the `int` conversion) or a border part (its items) |
| ActionParse.ParseFormatParams | ExcelAgent/api/action_reverse_parse.py:20-54 | `parse_format_params` fails only if one of the stripped parts split at top-level commas is a size or border part |
| ActionParse.ParseRangeAction | ExcelAgent/api/action_reverse_parse.py:71-74 | a `SELECT` line yields a Select and a `READ` line a Read, each with its own verb |
| ActionParse.ParseDrag | ExcelAgent/api/action_reverse_parse.py:64-69 | a `SELECTANDDRAG` line yields a SelectAndDrag |
| ActionParse.ParseFormat | ExcelAgent/api/action_reverse_parse.py:76-79 | a `FORMAT` line yields a Format whose border is always a dictionary |
| ActionRoundTrip.MatchEntryLine | ExcelAgent/api/action_reverse_parse.py:7 | a line of `REGEX r`, a bar and `l`, with a trimmed, bar-free `r` and a trimmed single-line `l` matches the entry pattern with groups `r` and `l` |
| ActionRoundTrip.SplitOnceVerb | ExcelAgent/api/action_reverse_parse.py:65 | `verb rest` splits into the verb and `rest` |
| ActionRoundTrip.CellRef | ExcelAgent/api/action_reverse_parse.py:6 | a column followed by a row matches the cell pattern with those two groups |
| ActionRoundTrip.RangeRoundTrip | ExcelAgent/api/action_reverse_parse.py:9-18 | reading a written range gives both ends back, or `(col1, row1, col1, "-1")` when an end was not written |
| ActionRoundTrip.RangeOneEnd | ExcelAgent/api/action_reverse_parse.py:11-13 | one cell reads as the cell down to row `-1` |
| ActionRoundTrip.RangeTwoEnds | ExcelAgent/api/action_reverse_parse.py:14-17 | `c1r1:c2r2` reads as its two ends |
| ActionRoundTrip.DispatchDrag | ExcelAgent/api/action_reverse_parse.py:64-69 | a `SELECTANDDRAG` action part goes to the drag parser |
| ActionRoundTrip.DispatchSelect | ExcelAgent/api/action_reverse_parse.py:71-74 | `SELECT` (and not `SELECTANDDRAG`) goes to the range parser |
| ActionRoundTrip.DispatchFormat | ExcelAgent/api/action_reverse_parse.py:76-79 | `FORMAT` goes to the Format parser |
| ActionRoundTrip.DispatchSet | ExcelAgent/api/action_reverse_parse.py:81-83 | `SET` yields the stripped text after the verb |
| ActionRoundTrip.DispatchTool | ExcelAgent/api/action_reverse_parse.py:85-87 | `TOOLACTION` yields the stripped tool name |
| ActionRoundTrip.DispatchTell | ExcelAgent/api/action_reverse_parse.py:89-91 | `TELLUSER` yields the stripped message |
| ActionRoundTrip.DispatchTerminate | ExcelAgent/api/action_reverse_parse.py:93-94 | `TERMINATE` yields a Terminate |
| ActionRoundTrip.DispatchRead | ExcelAgent/api/action_reverse_parse.py:96-99 | `READ`, after every other verb failed, goes to the range parser |
| ActionRoundTrip.EntryVerb | ExcelAgent/api/action_reverse_parse.py:56-101 | an entry that parses yields a record whose verb starts its action part |
| ActionRoundTrip.RangeCanon | ExcelAgent/api/action_reverse_parse.py:71-74 | the verb line of a Select or Read parses to its canonical record |
| ActionRoundTrip.LineShape | ExcelAgent/api/action_schemas.py:13-15 | a written action, stripped, is `REGEX`, the filter, a bar, the verb and its parameters (no trailing space when there are no parameters) |
| ActionRoundTrip.VerbLineShape | ExcelAgent/api/action_schemas.py:13-15 | the verb line of a well-formed action is non-empty, trimmed and free of `;` and newlines |
| ActionRoundTrip.FormatTextShape | ExcelAgent/api/action_schemas.py:54-72 | a Format's parameter text is non-empty, trimmed and free of `;` and newlines |
| ActionRoundTrip.EntryRange | ExcelAgent/api/action_reverse_parse.py:71-74 | a matched Select or Read line parses to the canonical record |
| ActionRoundTrip.EntryDrag | ExcelAgent/api/action_reverse_parse.py:64-69 | a matched SelectAndDrag line parses to the same record |
| ActionRoundTrip.EntryFormat | ExcelAgent/api/action_reverse_parse.py:76-79 | a matched Format line parses to the canonical record |
| ActionRoundTrip.EntryText | ExcelAgent/api/action_reverse_parse.py:81-94 | a matched Set, ToolAction, TellUser or Terminate line parses to the canonical record |
| ActionRoundTrip.ParseEntryToString | ExcelAgent/api/action_reverse_parse.py:56-101 | `parse_action_entry(a.to_string())` is the canonical form of `a`, for every well-formed action |
| ActionRoundTrip.ToStringShape | ExcelAgent/api/action_schemas.py:13-15 | a written action holds no `;` or newline and is not blank |
| ActionRoundTrip.SplitWritten | ExcelAgent/api/action_reverse_parse.py:105 | splitting a non-empty written list at `;` and newlines gives back exactly its lines |
| ActionRoundTrip.ParseEntriesWritten | ExcelAgent/api/action_reverse_parse.py:106-111 | the written lines parse to the canonical records, in order |
| ActionRoundTrip.ParseEmptyString | ExcelAgent/api/action_reverse_parse.py:103-115 | the empty string parses to no actions |
| ActionRoundTrip.ParseEntriesBlankHead | ExcelAgent/api/action_reverse_parse.py:108 | a blank entry is skipped |
| ActionRoundTrip.ParseListToString | ExcelAgent/api/action_reverse_parse.py:103-115 | `parse_action_string(action_list_to_str(xs))` gives the canonical form of every action of `xs`, in order |
| ActionRoundTrip.ParseEntriesStep | ExcelAgent/api/action_reverse_parse.py:107-111 | when a list parses, its tail parses and so does its head unless blank |
| ActionRoundTrip.ParsedEntriesParse | ExcelAgent/api/action_reverse_parse.py:107-111 | a list that parses has every non-blank entry parsing |
| ActionRoundTrip.EntriesParseParsed | ExcelAgent/api/action_reverse_parse.py:107-111 | a list whose non-blank entries all parse parses |
| ActionRoundTrip.ParseEntriesAll | ExcelAgent/api/action_reverse_parse.py:103-115 | a list parses if and only if each of its non-blank entries does |
| ActionRoundTrip.ParseEntriesShape | ExcelAgent/api/action_reverse_parse.py:112-114 | every failure carries the `Error parsing action string: ` prefix; a success has one action per non-blank entry |
| ActionRoundTrip.NoRegexFails | ExcelAgent/api/action_reverse_parse.py:57-59 | an entry that does not start with `REGEX` is rejected with "Invalid action entry: " followed by the entry |
| FormatRoundTrip.SplitParamsPrefix | ExcelAgent/api/action_reverse_parse.py:31 | a prefix whose commas all sit inside braces is glued to the first piece |
| FormatRoundTrip.SplitParamsSingle | ExcelAgent/api/action_reverse_parse.py:31 | a single well-formed part comes back as itself |
| FormatRoundTrip.SplitParamsJoin | ExcelAgent/api/action_reverse_parse.py:31 | splitting `", ".join(parts)` at commas outside braces and stripping gives `parts` back |
| FormatRoundTrip.BorderPartOk | ExcelAgent/api/action_schemas.py:64-66 | the border text is a part the splitter keeps whole: its commas lie inside the braces |
| FormatRoundTrip.ReadBorderItem | ExcelAgent/api/action_reverse_parse.py:50-52 | a written `side: flag` item is read back as that side and flag |
| FormatRoundTrip.ParseBorderItemsOf | ExcelAgent/api/action_reverse_parse.py:49-52 | the written border items are read back into the dictionary, in order |
| FormatRoundTrip.ApplyBorderText | ExcelAgent/api/action_reverse_parse.py:47-52 | the written border part restores the border entries |
| FormatRoundTrip.ApplyParamText | ExcelAgent/api/action_reverse_parse.py:33-52 | each written parameter sets exactly its own field back |
| FormatRoundTrip.ApplyPartsOf | ExcelAgent/api/action_reverse_parse.py:33-52 | the written parameters, read in order, set their fields in order |
| FormatRoundTrip.PutAllFresh | ExcelAgent/api/action_reverse_parse.py:52 | storing distinct new sides appends them in order |
| FormatRoundTrip.FormatParamsOk | ExcelAgent/api/action_schemas.py:54-72 | every parameter a well-formed Format writes can be read back |
| FormatRoundTrip.SetFormatParams | ExcelAgent/api/action_reverse_parse.py:20-29 | the written parameters, applied to the empty parameter dictionary, give the canonical record's fields |
| FormatRoundTrip.ParseFormatParamsText | ExcelAgent/api/action_reverse_parse.py:20-54 | `parse_format_params` of a Format's parameter text gives the canonical record's fields |
| Grid.Norm | ExcelAgent/utils/action_interpret.py:172 | `iloc` reaches an index exactly when it lies in `-n .. n-1`, and then lands on it or on it plus `n` |
| Grid.HitMeans | ExcelAgent/utils/action_interpret.py:265-267 | a position is hit exactly when some index of the loop's range that passes the `< n` guard lands on it |
| Grid.HitInside | ExcelAgent/utils/action_interpret.py:265-267 | for a range starting at a non-negative index, hit means inside the range |
| Grid.SameCells | ExcelAgent/utils/action_interpret.py:21 | two frames of the same shape with the same cells are equal |
| Grid.Fill | ExcelAgent/utils/action_interpret.py:265-267 | the guarded double loop writes `v` to exactly the cells it reaches and leaves every other cell alone |
| Grid.FillInside | ExcelAgent/utils/action_interpret.py:265-267 | from a non-negative corner no write raises, and exactly the cells of the rectangle inside the frame get `v` |
| Grid.CopyRect | ExcelAgent/utils/action_interpret.py:389-396 | `copy` collects one list per selected row; rows inside the frame hold the in-frame width of cells, rows past it are empty |
| Grid.CopiedCell | ExcelAgent/utils/action_interpret.py:393-395 | entry `l` of copied row `k` is the cell `iloc` reaches at that offset |
| Grid.CopyInside | ExcelAgent/utils/action_interpret.py:393-395 | from a non-negative corner the copied entry is the cell at the same offset |
| Grid.PasteStep | ExcelAgent/utils/action_interpret.py:405-410 | writing one clipboard entry makes it the last value written at every position it lands on |
| Grid.PasteRowEnd | ExcelAgent/utils/action_interpret.py:405-406 | finishing a clipboard row is the same as starting the next one |
| Grid.Paste | ExcelAgent/utils/action_interpret.py:405-410 | each cell holds the last clipboard entry written on it, or its old value when none is |
| Grid.PasteCopyInPlace | ExcelAgent/utils/action_interpret.py:389-410 | pasting what was just copied at the same corner never raises and leaves the frame unchanged |
| Grid.Step | ExcelAgent/utils/action_interpret.py:178-183 | a numeric source grows by the increment; anything else is copied as it is |
| Grid.LineStep | ExcelAgent/utils/action_interpret.py:181-186 | the last index of a one-line drag holds the source stepped by its distance; the earlier ones are the shorter drag's |
| Grid.LineClip | ExcelAgent/utils/action_interpret.py:181-186 | writes stop at the frame's end: a drag past the last index fills like one to the last index |
| Grid.BlockCell | ExcelAgent/utils/action_interpret.py:209-214 | writing the next cell of the block keeps the block-so-far invariant |
| Grid.BlockSource | ExcelAgent/utils/action_interpret.py:211-212 | skipping the source cell keeps the invariant, because the source already holds the value |
| Grid.BlockRow | ExcelAgent/utils/action_interpret.py:209-210 | finishing a row of the block moves the invariant to the next row |
| Grid.BlockDone | ExcelAgent/utils/action_interpret.py:208-214 | when the block loops end or the first write raises, the frame is the block fill (cut at the first row when the columns run past the frame) |
| Grid.HitClip | ExcelAgent/utils/action_interpret.py:209 | a range reaching past the frame hits what the range up to the last index hits |
| Grid.Column | ExcelAgent/utils/action_interpret.py:189-197 | a column of the frame, one cell per row |
| Grid.SetColumn | ExcelAgent/utils/action_interpret.py:189-197 | replaces exactly one column and keeps every other cell |
| Grid.Drag | ExcelAgent/utils/action_interpret.py:176-214 | the frame after a drag keeps the frame's shape |
| Grid.DragCases | ExcelAgent/utils/action_interpret.py:176-214 | a drag along the source row fills that row, one along the source column fills that column, any other fills the block |
| Grid.DragRowInside | ExcelAgent/utils/action_interpret.py:178-186 | inside the frame, a row drag writes the stepped source to the cells after it up to the target and nothing else |
| Grid.DragColumnInside | ExcelAgent/utils/action_interpret.py:189-197 | inside the frame, a column drag writes the stepped source below it down to the target and nothing else |
| Grid.DragBlockInside | ExcelAgent/utils/action_interpret.py:208-214 | inside the frame, a block drag copies the source to every cell of the block, and an inverted block changes nothing |
| Grid.Argb | ExcelAgent/utils/action_interpret.py:343 | a valid colour is stored as eight hex digits ending in the given ones |
| Grid.Apply | ExcelAgent/utils/action_interpret.py:314-315 | a style edit replaces exactly the parts it sets |
| Interpreter.AddressRoundTrip | ExcelAgent/utils/action_interpret.py:63-98 | the address written for a cell converts back to the same 0-based position |
| Interpreter.ConvertWords | ExcelAgent/utils/action_interpret.py:75-84 | a letter column and a decimal row convert to their 0-based indices |
| Interpreter.ColumnNumber | ExcelAgent/utils/action_interpret.py:75-84 | a letter column that converts lies between 1 and 18278 |
| Interpreter.CellAddress | ExcelAgent/utils/action_interpret.py:86-98 | `_get_cell_address` succeeds exactly for columns 0..18277; otherwise it fails with `get_column_letter`'s error for `col + 1` |
| Interpreter.RangeName | ExcelAgent/utils/action_interpret.py:136-139 | a selection that is neither whole columns nor whole rows is named by its two corner addresses |
| Interpreter.SelectionRoundTrip | ExcelAgent/utils/action_interpret.py:117-122 | the addresses of a selection select it again |
| Interpreter.InputShowsBack | ExcelAgent/utils/action_interpret.py:262-284 | a number typed in its own decimal form is stored as that number, and any other text shows back unchanged |
| Interpreter.InputValue | ExcelAgent/utils/action_interpret.py:262-284 | a text starting with "=" is written as that text; any other text that reads as an integer is written as that number; any other text is written as itself; a number is written only when the text reads as that number, and a text value only as the text itself |
| Interpreter.SetMessage | ExcelAgent/utils/action_interpret.py:264-291 | the message of a formula always comes back; otherwise it fails exactly when the start corner, or the end corner of a range, has no column letters |
| Interpreter.FieldShows | ExcelAgent/utils/action_interpret.py:233-237 | with a selection whose corner is in the frame, the input field shows the corner's text; with none, it is left alone |
| Interpreter.DragPlan | ExcelAgent/utils/action_interpret.py:167-173 | a planned drag has a source that `iloc` reaches and that has an address |
| Interpreter.MarkCellStep | ExcelAgent/utils/action_interpret.py:337-345 | marking one more cell keeps the marked-so-far invariant of the conditional formatting loops |
| Interpreter.MarkedColumns | ExcelAgent/utils/action_interpret.py:337-338 | the marked cells of a row up to a column are those up to the previous column plus this one if it passes |
| Interpreter.MarkRowDone | ExcelAgent/utils/action_interpret.py:336-337 | finishing a row moves the invariant to the next row |
| Interpreter.MarkedRows | ExcelAgent/utils/action_interpret.py:336-337 | the marked cells up to a row are those of the rows before plus those of this row |
| Interpreter.MarkDone | ExcelAgent/utils/action_interpret.py:336-345 | when the loops end, exactly the marked cells have the yellow fill and all other styles are kept |
| Interpreter.Workbook.constructor | ExcelAgent/utils/action_interpret.py:12-28 | a workbook over a frame, with no selection, no clipboard and an empty, unselected input field |
| Interpreter.Workbook.Put | ExcelAgent/utils/action_interpret.py:183 | one `iloc` write: exactly the cell the index lands on changes |
| Interpreter.Workbook.Select | ExcelAgent/utils/action_interpret.py:100-149 | stores the converted selection (a missing end is the start) and names it as whole columns, whole rows or a range, with the condition appended; a conversion error leaves the selection alone |
| Interpreter.Workbook.FillSelection | ExcelAgent/utils/action_interpret.py:265-267 | writes `v` over the selection exactly as `Fill` says, unless the first write raises, which changes nothing |
| Interpreter.Workbook.StyleBox | ExcelAgent/utils/action_interpret.py:312-315 | applies the edit to every 1-based cell of the box, or raises before any write when a corner is below 1 |
| Interpreter.Workbook.SelectInputField | ExcelAgent/utils/action_interpret.py:224-239 | selects the input field and loads the selection's corner text into it when the corner is in the frame |
| Interpreter.Workbook.SetInput | ExcelAgent/utils/action_interpret.py:241-291 | refuses when the field is not selected; else stores the text, writes a formula as text, a number as a number, other text as text over the selection, and reports the cell or range; with no selection it fails on the unbound corner |
| Interpreter.Workbook.CopyCells | ExcelAgent/utils/action_interpret.py:389-396 | the clipboard the copy loops build is `CopyRect` of the frame |
| Interpreter.Workbook.PasteCells | ExcelAgent/utils/action_interpret.py:405-410 | writes the clipboard at the selection's corner as `Paste` says, unless a write raises first |
| Interpreter.Workbook.DragAlongRow | ExcelAgent/utils/action_interpret.py:178-186 | fills the source row from the source to the target as `LineFill` says; it raises when the target is past the frame |
| Interpreter.Workbook.DragAlongColumn | ExcelAgent/utils/action_interpret.py:189-197 | fills the source column from the source to the target; it raises when the target is past the frame |
| Interpreter.Workbook.DragBlock | ExcelAgent/utils/action_interpret.py:208-214 | copies the source over the block except the source itself; when the block runs past the frame the writes stop at the first one that raises |
| Interpreter.Workbook.DragRow | ExcelAgent/utils/action_interpret.py:209-214 | one row of the block loops writes the source to the row's cells from the source column to the target column, skipping the source, and stops at the first write that raises, keeping the block-so-far invariant and every other field |
| Interpreter.Workbook.DragFrom | ExcelAgent/utils/action_interpret.py:176-214 | the frame after the drag is `Drag` of the old frame |
| Interpreter.Workbook.SelectAndDrag | ExcelAgent/utils/action_interpret.py:151-222 | a drag whose references convert and whose source is reachable fills as `Drag` says and reports source and target; otherwise nothing changes and the error is returned |
| Interpreter.Workbook.MarkAbove | ExcelAgent/utils/action_interpret.py:336-345 | gives the yellow fill to exactly the cells inside the selection and the frame whose value exceeds the threshold |
| Interpreter.Workbook.SelectTopMenuTool | ExcelAgent/utils/action_interpret.py:293-371 | without a selection, refuses; else bold, italic, number format and conditional formatting restyle as their loops do, with their messages; other tools are reported as not implemented |
| Interpreter.Workbook.SelectContextMenuTool | ExcelAgent/utils/action_interpret.py:373-435 | without a selection, refuses; else copy fills the clipboard, paste writes it (or reports an empty clipboard), delete empties the selection, clear_formatting resets the styles; other tools are reported as not implemented; a copy, paste or delete outside the frame raises pandas' out-of-bounds error and a box below row or column 1 raises openpyxl's error |
| Interpreter.Workbook.TellUser | ExcelAgent/utils/action_interpret.py:437-447 | returns the message unchanged |
| Executor.ClassifyPriority | ExcelAgent/utils/action_executor.py:40-46 | a hand-off to the user wins over every other reading of the string, and `Terminate` over every reading but that one, whatever the patterns find |
| Executor.UnparsedExactly | ExcelAgent/utils/action_executor.py:118-120 | a string is reported as unparsed exactly when no test fires, and the report carries the stripped string |
| Executor.ClassifyShapes | ExcelAgent/utils/action_executor.py:55-98 | a tool command names one of the seven tool words, and the two-number `Select` selects one cell |
| Executor.RefCorners | ExcelAgent/utils/action_executor.py:61-68 | letter references give a column index from 0 and a row index from -1 |
| Executor.RefCornersRoundTrip | ExcelAgent/utils/action_executor.py:61-68 | `Select A1`-style text for a cell selects that cell again |
| Executor.RefCornersRange | ExcelAgent/utils/action_executor.py:61-68 | `Select A1:B5`-style text for two cells selects the range between them |
| Executor.FormatFont | ExcelAgent/utils/action_executor.py:222-246 | a font is set exactly when the parameters mention bold, italic or underline; underline wins over italic, italic over bold |
| Executor.FillColor | ExcelAgent/utils/action_executor.py:248 | the colour written has every `#` removed |
| Executor.FormatEdit | ExcelAgent/utils/action_executor.py:222-249 | the style edit of a format call: the font of `FormatFont`, the fill only when a colour is given, no number format |
| Executor.ActionExecutor.constructor | ExcelAgent/utils/action_executor.py:17-26 | an executor over a workbook, with no last result |
| Executor.ActionExecutor.ExecuteSelect | ExcelAgent/utils/action_executor.py:127-162 | selects the range, highlights it in yellow and reports its name; a corner below 1 or an unnamed column is an error that keeps the styles |
| Executor.ActionExecutor.ExecuteSelectAndDrag | ExcelAgent/utils/action_executor.py:164-187 | drags from the first cell to the second as the interpreter does and reports it, or reports the interpreter's error with nothing changed |
| Executor.ActionExecutor.ExecuteSet | ExcelAgent/utils/action_executor.py:189-208 | selects the input field, types the text, and writes it over the selection as the interpreter does |
| Executor.ActionExecutor.ExecuteFormat | ExcelAgent/utils/action_executor.py:210-264 | restyles every selected cell; without a selection it refuses; a bad colour raises after the first cell's font is set |
| Executor.ActionExecutor.ContextMenuTool | ExcelAgent/utils/action_executor.py:266-291 | copy, paste and delete go to the context menu, with the interpreter's effects and messages; a raising copy, paste or delete reports `Error executing tool <name>: ` followed by pandas' out-of-bounds error |
| Executor.ActionExecutor.TopMenuTool | ExcelAgent/utils/action_executor.py:266-291 | bold, italic and underline go to the top menu, with the interpreter's effects and messages; a raising bold or italic reports `Error executing tool <name>: ` followed by openpyxl's error for a row or column below 1 |
| Executor.ActionExecutor.ExecuteTool | ExcelAgent/utils/action_executor.py:266-298 | the six known tools reach their menu and record the result; any other name is refused and changes nothing |
| Executor.ActionExecutor.Acknowledge | ExcelAgent/utils/action_executor.py:40-120 | hand-offs, `Terminate`, the format dialog, menus and unparsed strings are answered without changing anything |
| Executor.ActionExecutor.PerformOnCells | ExcelAgent/utils/action_executor.py:48-86 | a selection lands where the command says and is highlighted yellow with its name reported; a drag writes the interpreter's dragged values; set text fills the selection with the typed value; each with the branch's message or error |
| Executor.ActionExecutor.PerformStyle | ExcelAgent/utils/action_executor.py:88-98 | formatting restyles the selection with the scanned colour (or only the first cell's font on a bad colour); a tool word has its menu's effect on values, styles or clipboard; `cut` changes nothing |
| Executor.ActionExecutor.Execute | ExcelAgent/utils/action_executor.py:40-120 | each command kind has the effect and report of its branch: answers change nothing, selections, drags, set text, formatting and tools change the workbook as their branch methods state |
| Executor.ActionExecutor.ParseAndExecute | ExcelAgent/utils/action_executor.py:28-120 | the ordered tests pick one command, and the workbook changes exactly as that command's branch states, with its report |
| AppsScript.TextValue | GoogleAdd-on/ActionExecuter.js:108 | the value `setValue(text)` stores shows the same text again |
| AppsScript.RowNumber | GoogleAdd-on/ActionExecuter.js:44-46 | a row part of an A1 reference that parses names a row numbered from 1 |
| AppsScript.ColumnIndexRange | GoogleAdd-on/ActionExecuter.js:44-46 | a column part that parses names a column between 1 and the sheet-wide maximum |
| AppsScript.A1Range | GoogleAdd-on/ActionExecuter.js:44-46 | a range that `getRange` accepts lies inside the sheet |
| AppsScript.RowNumberOfNat | GoogleAdd-on/ActionExecuter.js:44 | the decimal text of a row number reads back as that row |
| AppsScript.A1RangeParsed | GoogleAdd-on/ActionExecuter.js:44-46 | two well-formed corners inside the sheet give the rectangle they span, in either order |
| AppsScript.A1RangeOfCorners | GoogleAdd-on/ActionExecuter.js:44-46 | any spelling of a rectangle's corners gives back that rectangle, whichever corner comes first |
| AppsScript.A1RangeRoundTrip | GoogleAdd-on/ActionExecuter.js:44-46 | printing a rectangle's corners in A1 notation and reading them back gives the rectangle |
| AppsScript.LastRow | GoogleAdd-on/ActionExecuter.js:39 | `getLastRow` is at most the number of rows |
| AppsScript.LastRowIsLast | GoogleAdd-on/ActionExecuter.js:39 | every row below `getLastRow` is empty and the row it names is not |
| AppsScript.RangeFromSelect | GoogleAdd-on/ActionExecuter.js:32-47 | a selected range lies inside the sheet |
| AppsScript.RangeFromSelectDefaults | GoogleAdd-on/ActionExecuter.js:35-42 | a missing second column and row default to the first, selecting one cell |
| AppsScript.SelectToLastRow | GoogleAdd-on/ActionExecuter.js:38-39 | a second row of -1 selects down to the last non-empty row, in the first column when the second is empty |
| AppsScript.RangeFromSelectToLastRow | GoogleAdd-on/ActionExecuter.js:35-39 | a column selected down to -1 is the column from the first row to the last non-empty row |
| AppsScript.SelectColumnToLastRow | GoogleAdd-on/ActionExecuter.js:35-39 | the same for any spelling of the first corner |
| AppsScript.Lookup | GoogleAdd-on/ActionExecuter.js:79 | a border side is found exactly when the dictionary names it |
| AppsScript.SetBorder | GoogleAdd-on/ActionExecuter.js:79 | an empty border dictionary changes no side |
| AppsScript.FormatCell | GoogleAdd-on/ActionExecuter.js:60-84 | each of the twelve lower-cased style names sets exactly its own attribute when its field is present (a size of 0 counts as absent), and changes nothing when it is absent; bold, italic, the two font lines and wrap need no field; any other style changes nothing; the number format is read from the record's value format |
| AppsScript.FormatCellAsWritten | GoogleAdd-on/ActionExecuter.js:82-83 | as written, the number format never changes, and every other style agrees with the corrected cell update |
| AppsScript.StyleCell | GoogleAdd-on/ActionExecuter.js:60-84 | every style but the number format is the corrected update, and as written the number format changes nothing |
| AppsScript.NumberFormatIgnored | GoogleAdd-on/ActionExecuter.js:82-83 | a `numberFormat` action carrying "0.00" leaves the cell untouched as written and sets "0.00" once corrected |
| AppsScript.FormatGrid | GoogleAdd-on/ActionExecuter.js:49-88 | exactly the cells of the range whose value, read from the current sheet, passes the filter get the style the script gives them (as written or corrected); every other cell keeps its format |
| AppsScript.NumberFormatGrid | GoogleAdd-on/ActionExecuter.js:82-83 | as written, a number-format action leaves every format as it was; corrected, it sets the format on exactly the range's cells whose value passes the filter |
| AppsScript.PasteValue | GoogleAdd-on/ActionExecuter.js:169-176 | a cell changes only to a present clipboard entry at its offset and only if its value passes the filter, and then it always does |
| AppsScript.PasteValueAsWritten | GoogleAdd-on/ActionExecuter.js:171 | as written, inside the clipboard's bounds the paste agrees with the corrected one |
| AppsScript.PasteBeyondClipboardWidth | GoogleAdd-on/ActionExecuter.js:171 | a cell beyond the end of a clipboard row is blanked as written and kept once corrected |
| AppsScript.PasteAt | GoogleAdd-on/ActionExecuter.js:169-176 | the value pasted agrees with the corrected paste inside the clipboard's bounds, and everywhere when the script is not run as written |
| AppsScript.ApplyOp | GoogleAdd-on/ActionExecuter.js:145-192 | a tool leaves literal values; without a write the value read is kept, delete empties a value passing the filter, and drag puts the formula everywhere but the top-left cell |
| AppsScript.MapGrid | GoogleAdd-on/ActionExecuter.js:145-192 | each cell of the range becomes the cell operation applied to the sheet as it was read before the loops; every other cell keeps its content |
| AppsScript.ClipOf | GoogleAdd-on/ActionExecuter.js:147-161 | the clipboard has the range's shape |
| AppsScript.ClipRow | GoogleAdd-on/ActionExecuter.js:150-159 | a clipboard row has one entry per column copied |
| AppsScript.ClipEntry | GoogleAdd-on/ActionExecuter.js:152-158 | a clipboard entry holds the cell's value exactly when it passes the filter, and is null otherwise |
| AppsScript.SetEffect | GoogleAdd-on/ActionExecuter.js:90-113 | a cell outside the range keeps its content; a cell of the range gets the text (a formula when the trimmed text starts with "=", else a value) exactly when its value passes the filter, read from the sheet in which the cells before it, row by row, are already written; otherwise it keeps its content |
| AppsScript.SetCellAt | GoogleAdd-on/ActionExecuter.js:99-109 | one cell of `applySet` writes that cell at most, and writes it exactly when its current value passes the filter |
| AppsScript.SetRowStep | GoogleAdd-on/ActionExecuter.js:98-110 | one more cell of a row is read and written on the sheet the earlier cells left |
| AppsScript.SetRowPrefix | GoogleAdd-on/ActionExecuter.js:98-110 | the later cells of a row leave the earlier ones, and every cell outside the row, alone |
| AppsScript.SetRowsPrefix | GoogleAdd-on/ActionExecuter.js:97-111 | the later rows of the range leave the earlier ones alone |
| AppsScript.SetRowsFrame | GoogleAdd-on/ActionExecuter.js:97-111 | the rows written so far touch no cell outside them |
| AppsScript.SetCellEffect | GoogleAdd-on/ActionExecuter.js:99-109 | a cell of the range in the final sheet is the text exactly when it passed the filter on the sheet it was read from |
| AppsScript.SetBeforeCell | GoogleAdd-on/ActionExecuter.js:97-111 | the sheet a cell is read from equals the final sheet on the cells before it and the original sheet elsewhere |
| AppsScript.SetCells | GoogleAdd-on/ActionExecuter.js:97-112 | the row loop builds the sheet `SetGrid` defines |
| AppsScript.SetRowCells | GoogleAdd-on/ActionExecuter.js:98-111 | the column loop of one row extends the rows written so far by that row |
| AppsScript.ToolResult | GoogleAdd-on/ActionExecuter.js:143-193 | a tool action keeps the sheet's shape; its effect on each cell is stated by `ToolEffects` |
| AppsScript.ToolEffects | GoogleAdd-on/ActionExecuter.js:143-193 | cells outside the range never change; copy changes no value and replaces the clipboard; paste with no clipboard changes nothing; otherwise paste writes each present entry at its offset into the cells passing the filter, and as written also empties a passing cell beyond the end of its clipboard row; delete empties exactly the cells passing the filter; other tools change no value |
| AppsScript.CopiedEntry | GoogleAdd-on/ActionExecuter.js:149-160 | the clipboard entry at each offset is that cell's value if it passes the filter and null otherwise |
| AppsScript.DragGrid | GoogleAdd-on/ActionExecuter.js:116-139 | when the top-left cell holds a formula, every other cell of the range gets it and no cell outside does; otherwise nothing changes |
| AppsScript.Step | GoogleAdd-on/ActionExecuter.js:7-27 | one action, with every filter reading the current sheet and the format and paste updates as written or corrected as the environment says, keeps the state well formed; with a range selected, a `Format`, `Set` or `ToolAction` whose non-empty filter pattern does not compile throws before writing |
| AppsScript.Run | GoogleAdd-on/ActionExecuter.js:6-28 | the actions in order, each as `Step` runs it, keep the state well formed |
| AppsScript.StepMessages | GoogleAdd-on/ActionExecuter.js:20-23 | only a `TellUser` with a non-empty message adds a message, and it adds exactly that one |
| AppsScript.PatternThrows | GoogleAdd-on/ActionExecuter.js:50-144 | with a range selected, a `Format`, `Set` or `ToolAction` step throws exactly when its non-empty filter pattern does not compile, and then with the pattern's SyntaxError |
| AppsScript.StepFrames | GoogleAdd-on/ActionExecuter.js:7-27 | each action changes only its own part of the state: only tools the clipboard, only selections the selection, no Set, drag or tool a format, no Format or Select a cell; a Set writes the selection as `SetGrid` says and a Format restyles it as `FormatGrid` says |
| AppsScript.Told | GoogleAdd-on/ActionExecuter.js:20-23 | at most one message per action, and none of them empty |
| AppsScript.RunMessages | GoogleAdd-on/ActionExecuter.js:4-29 | a run collects exactly the non-empty `TellUser` messages, in order |
| AppsScript.RunHead | GoogleAdd-on/ActionExecuter.js:6 | a successful run is its first step followed by the run of the rest |
| AppsScript.RunAppend | GoogleAdd-on/ActionExecuter.js:6 | running two lists one after the other is running their concatenation, and a failure in the first stops it |
| AppsScript.RunFrom | GoogleAdd-on/ActionExecuter.js:6 | running from position k is the step at k followed by the run from k + 1 |
| AppsScript.Advance | GoogleAdd-on/ActionExecuter.js:6 | after k steps, the whole run is the step at k followed by the rest, or that step's failure |
| AppsScript.AdvanceTo | GoogleAdd-on/ActionExecuter.js:6 | a successful step at k carries the whole run on to position k + 1 |
| AppsScript.AdvanceFails | GoogleAdd-on/ActionExecuter.js:6 | a failing step at k is the failure of the whole run |
| AppsScript.RunDone | GoogleAdd-on/ActionExecuter.js:29 | once every action has run, the result is the current state and its messages are the told ones |
| AppsScript.Halted | GoogleAdd-on/ActionExecuter.js:6-28 | the state the run stops in: the completed run's final state when no action throws |
| AppsScript.HaltedAt | GoogleAdd-on/ActionExecuter.js:6-28 | when the run throws, some prefix of the actions runs to completion ending in the halted state, and the next action throws the run's error from there |
| AppsScript.HaltedFrom | GoogleAdd-on/ActionExecuter.js:6 | the halted state from k is the one from k + 1 after a successful step and the current state after a throwing one |
| AppsScript.HaltedTo | GoogleAdd-on/ActionExecuter.js:6 | a successful step at k carries the halted state on to k + 1 |
| AppsScript.HaltedStops | GoogleAdd-on/ActionExecuter.js:6 | a throwing step at k halts the run in the state before it |
| AppsScript.TellAdvance | GoogleAdd-on/ActionExecuter.js:20-23 | a `TellUser` at k is a successful step that appends its message when non-empty and carries the run on to k + 1 |
| AppsScript.TellStep | GoogleAdd-on/ActionExecuter.js:20-23 | a `TellUser` step changes only the messages, and only when its message is non-empty |
| AppsScript.TerminateDoesNotStop | GoogleAdd-on/ActionExecuter.js:24-27 | a `Terminate` anywhere in the list changes nothing: the later actions still run |
| AppsScript.RunAfterTerminate | GoogleAdd-on/ActionExecuter.js:24-27 | a leading `Terminate` is skipped |
| AppsScript.SkippedWithoutSelection | GoogleAdd-on/ActionExecuter.js:10-19 | tool, set, format and drag actions do nothing while no range is selected |
| AppsScript.SelectAndTellFrames | GoogleAdd-on/ActionExecuter.js:7-9 | `Select` changes only the selection and `TellUser` only the messages |
| AppsScript.Script.constructor | GoogleAdd-on/ActionExecuter.js:141 | a new script holds the given sheet and an empty clipboard |
| AppsScript.Script.MapCells | GoogleAdd-on/ActionExecuter.js:145-192 | the nested loop writes the cell operation over the range as `MapGrid` does, from the values read before the loop, and changes nothing else |
| AppsScript.Script.ApplySet | GoogleAdd-on/ActionExecuter.js:90-113 | the loops write the text into the range cell by cell, each filter reading the sheet as the earlier cells left it, ending in `SetGrid`; formats and clipboard are kept |
| AppsScript.Script.ApplyFormat | GoogleAdd-on/ActionExecuter.js:49-88 | `applyFormat` updates the formats as `FormatGrid` defines (the number-format branch as written or corrected) and changes no value |
| AppsScript.Script.ApplySelectAndDrag | GoogleAdd-on/ActionExecuter.js:116-139 | `applySelectAndDrag` copies the top-left formula as the drag grid function defines |
| AppsScript.Script.CopyRange | GoogleAdd-on/ActionExecuter.js:147-161 | copy fills the clipboard with the filtered values of the range and changes no cell |
| AppsScript.Script.ApplyToolAction | GoogleAdd-on/ActionExecuter.js:143-193 | a tool action changes cells and clipboard as `ToolResult` defines (the paste as written or corrected) and no format |
| AppsScript.Script.Act | GoogleAdd-on/ActionExecuter.js:7-27 | one non-message action changes the script's state exactly as a step does, and fails when the step fails (a range it cannot resolve, or a filter pattern that does not compile); an action that throws changes nothing |
| AppsScript.Script.ProcessSequentialActions | GoogleAdd-on/ActionExecuter.js:1-30 | the loop ends in the state the run of the actions defines, or with its failure; either way the sheet, formats and clipboard are the `Halted` state, so an action that throws leaves every earlier action's writes in place; on success it returns the non-empty `TellUser` messages joined by spaces |
| Chat.Roles | ExcelAgent/chat/chat.py:8 | the role sequence lists each entry's role, in order |
| Chat.InitActionChat | ExcelAgent/chat/chat.py:5-9 | the action chat starts with one system entry holding the operating-assistant prompt |
| Chat.InitReflectChat | ExcelAgent/chat/chat.py:12-16 | the reflection chat starts with one system entry holding the short assistant prompt |
| Chat.InitMemoryChat | ExcelAgent/chat/chat.py:19-23 | the memory chat starts with one system entry holding the short assistant prompt |
| Chat.AddResponse | ExcelAgent/chat/chat.py:38-47 | the new history is the old one, unchanged, with one more entry of the given role holding one text item |
| Chat.AddResponseOld | ExcelAgent/chat/chat.py:26-35 | the older version also keeps the old history and adds one entry |
| Chat.AddResponseVersionsAgree | ExcelAgent/chat/chat.py:26-47 | both versions build the same history, whatever image argument either gets |
| Chat.AddResponseRoles | ExcelAgent/chat/chat.py:46 | each call adds its role at the end of the role sequence |
| Chat.ExchangeRoles | ExcelAgent/chat/response.py:27-28 | an action exchange runs system, user, assistant |
| Agents.AgentState.constructor | ExcelAgent/agents/agent_state.py:2-23 | a new agent state has empty histories and texts, the "temp" directory name, no error, the Gemini defaults and every prompt flag off |
| Agents.AgentState.Record | ExcelAgent/chat/response.py:94-96 | a recorded step appends to the three histories together, keeping them the same length, and changes nothing else |
| Agents.AgentState.SetMemory | run.py:294-295 | replaces the memory and changes nothing else |
| Agents.AgentState.SetReflectionThought | run.py:256 | replaces the reflection thought and changes nothing else |
| Response.LastOr | ExcelAgent/chat/response.py:7-8 | the last history entry, or "" for an empty history |
| Response.Tidy | ExcelAgent/chat/response.py:49-51 | the tidied text is stripped and on one line |
| Response.Thought | ExcelAgent/chat/response.py:38-45 | the thought is stripped, on one line and free of colons |
| Response.ActionText | ExcelAgent/chat/response.py:46-52 | the action is stripped and on one line |
| Response.Summary | ExcelAgent/chat/response.py:53-58 | the summary is stripped and on one line |
| Response.SummaryWithoutMarker | ExcelAgent/chat/response.py:54 | a reply without an operation marker is summarised whole |
| Response.SectionsAreCut | ExcelAgent/chat/response.py:39-48 | the thought section holds neither its opening nor its closing marker, and the action section likewise |
| Response.PrefixKeepsAbsent | ExcelAgent/chat/response.py:40 | cutting a text before a marker cannot create an occurrence of a marker the text lacked |
| Response.ActionAgentResponse | ExcelAgent/chat/response.py:6-65 | the three sections returned are stripped and on one line, and the thought has no colon; their text for a reply in the prompted layout is stated by `ActionReplySections` |
| Response.ReflectionThought | ExcelAgent/chat/response.py:80-85 | the reflection thought is stripped and on one line |
| Response.Answer | ExcelAgent/chat/response.py:86 | the verdict text is stripped and on one line |
| Response.Completed | ExcelAgent/chat/response.py:121-123 | the completed-requirements text is stripped and on one line |
| Response.ThoughtLine | ExcelAgent/chat/response.py:41-44 | the thought text tidied is stripped, on one line and free of colons |
| Response.OneLine | ExcelAgent/chat/response.py:83-84 | the text with newlines turned to spaces and stripped is on one line |
| Response.ActionReplySections | ExcelAgent/chat/response.py:38-58 | for a reply `x`, thought marker, `t`, action marker, `a`, operation marker, `u`, with each marker once: the thought is `t` tidied without colons, the action `a` tidied, the summary `u` tidied, and `action_agent_response` returns them in the order thought, summary, action |
| Response.ReflectReplySections | ExcelAgent/chat/response.py:80-86 | for a reflection reply with each marker once, the reflection thought is the text between the thought and answer markers and the verdict the text after the answer marker, each on one line |
| Response.PlanningReplySection | ExcelAgent/chat/response.py:121-123 | for a planning reply with its marker once, the completed requirements are the text after the marker, on one line |
| Response.VerdictOf | ExcelAgent/chat/response.py:93-134 | an "A" anywhere accepts; otherwise a "B" or "C" rejects; otherwise neither |
| Response.ReflectAgentResponse | ExcelAgent/chat/response.py:67-165 | returns the reflection thought; an accepted or unjudged step is recorded and the completed requirements are taken from the planning reply; acceptance clears the error flag; rejection sets it and records nothing; the histories stay aligned and the memory is untouched |
| Response.Judge | ExcelAgent/chat/response.py:93-163 | the same four branches on the verdict text |
| Singular.Provider | ExcelAgent/api/singular_agent.py:40-46 | no provider means Gemini; a given one is lower-cased; "auto" detects from the URL when there is one and otherwise means Gemini |
| Singular.LookupDefaultApiKey | ExcelAgent/api/singular_agent.py:82-89 | the provider's own variable wins when set and non-empty; Gemini then falls back to GENAI_API_KEY and finds no key when neither is set; an unknown provider other than Gemini has no default key, and any key found is the value of some environment variable |
| Singular.EnvKeyVar | ExcelAgent/api/singular_agent.py:13-19 | the five known providers, and only they, have a key variable, and each variable name ends with `_API_KEY` |
| Singular.DefaultApiUrl | ExcelAgent/api/singular_agent.py:21-27 | exactly the providers with a key variable other than Gemini have a default URL, and it is an `https://` address |
| Singular.Configure | ExcelAgent/api/singular_agent.py:40-55 | the constructor fails with the key-required error exactly when no key resolves; otherwise the key and model are non-empty, the provider is the settled one, and a missing URL is the provider's default |
| Singular.DefaultEndpoint | ExcelAgent/api/singular_agent.py:21-27 | a known provider other than Gemini given without URL gets its default endpoint |
| Singular.ContinuingPrompt | ExcelAgent/api/singular_agent.py:102-117 | the prompt is the request line, followed by the sheet rows when they are given and not empty, followed by the read results when they are given and not empty |
| Singular.ChatShapeGrows | ExcelAgent/api/singular_agent.py:129-144 | one more user entry and reply keep the chat system-first and alternating user and assistant |
| Singular.SystemOnlyFirst | ExcelAgent/api/singular_agent.py:121-125 | the system entry appears only at the start of the chat |
| Singular.SingularAgent.constructor | ExcelAgent/api/singular_agent.py:57-75 | a new agent has an empty chat, has not chatted yet, and its system prompt is the fixed instructions followed by the grammar |
| Singular.SingularAgent.SingularAgentResponse | ExcelAgent/api/singular_agent.py:96-147 | the first request adds the system entry; each request then adds the user prompt and the reply and returns the reply, keeping the chat's shape |
| RunLoop.SkipSpaces | run.py:228-231 | skipping whitespace stops at the first non-whitespace character, passing only whitespace |
| RunLoop.CallOpenAt | run.py:231 | a `Tell User (` opening found at an index ends at an opening parenthesis |
| RunLoop.TellUserCallQuoted | run.py:228-233 | `TellUser("...")` is recognised as a question to the user |
| RunLoop.TellUserCallSpaced | run.py:231 | case and whitespace around the words do not stop the match |
| RunLoop.TellUserCallNeedsArgument | run.py:231 | an empty argument is no question to the user |
| RunLoop.MemoryNote | run.py:291-293 | the memory note ends with a newline; its text is stated by `MemoryNoteParagraph` and `MemoryNoteTail` |
| RunLoop.MemoryNoteParagraph | run.py:291-293 | with the marker once and a blank line after it, the note is the stripped text between the marker and the first blank line, then a newline |
| RunLoop.MemoryNoteTail | run.py:291-293 | with the marker once and no blank line after it, the note is the stripped rest of the reply, then a newline |
| RunLoop.Remember | run.py:294-295 | the memory grows by the note exactly when the note does not say "None" and is not in the memory yet, and otherwise stays |
| RunLoop.RememberIdempotent | run.py:294-295 | the same note is never stored twice |
| RunLoop.RememberStores | run.py:294-295 | after the memory step the memory holds the note, unless the note says "None" |
| RunLoop.UpdatedMemory | run.py:291-295 | the memory either stays or grows by the note at its end, and afterwards holds the note unless the note says "None" |
| RunLoop.Clarified | run.py:249-252 | the user's reply appears in the completed requirements, after any text that was there |
| RunLoop.AcceptClarification | run.py:244-256 | the step is recorded, the reply joins the completed requirements, and the error flag and reflection are cleared |
| RunLoop.AfterAction | run.py:274-300 | the memory and reflection steps run exactly when switched on; with reflection on, the step is recorded, rejected or kept by the reflection verdict exactly as `reflect_agent_response` does (`Response.Reflected`); with reflection off, the three histories, the completed requirements and the error flag are unchanged |
| RunLoop.Subtask | run.py:219-300 | a question with a non-empty reply gives the new instruction and records the step; a question without one or a `Terminate` ends the run and leaves every field of the state unchanged; otherwise the memory step follows when switched on, and the reflection verdict on this pass's thought, summary and action decides what is recorded (with reflection off, the histories, requirements and error flag are unchanged) |
| RunLoop.Pass | run.py:219-263 | a new instruction from a pass is never empty and does not end the run |
| RunLoop.MainLoop | run.py:184-303 | the loop runs at most `max_iters` action steps, and at most `patience` per instruction the user supplied; the instruction changes only to a non-empty reply; the histories stay aligned |

## Left out

- Spreadsheet files are not read or written. The workbook, executor and script start from given grids, and `save`, `get_df`, `get_workbook` and `get_sheet_summary` of `ExcelAgent/utils/action_executor.py` are not modelled: they are file I/O and display.
- The temporary directory `AgentState` prepares at construction is not modelled. It is file-system I/O.
- Language-model calls (`inference_chat`), `input()`, `time.sleep`, logging and printing are left out. Their results are parameters: the `Replies` record of `RunLoop`, the reply arguments of `Response` and `Singular`.
- The prompt builders are not part of this model. The prompt texts they produce appear only as opaque strings.
- The manager prompt built at `run.py:195-203` is not modelled. Its result is unused, since the subtask list is always the instruction.
- The executor's search regexes are not modelled. The executor matches free-form strings with Python regexes; the model takes which patterns matched as an input `Scan` record and models the order in which they are tried and what each branch does.
- The add-on's filter regexes (`new RegExp(reg)`, as `compiles`, and `.test`, as `matches`), the sheet's formula evaluation and its A1-to-R1C1 translation are parameters of `AppsScript.Env`. `setValue` stores the text; the sheet's own parsing of typed text into numbers or dates is not modelled.
- The add-on's style values (colours, alignments, sizes, number formats) are stored as the given strings. Google Sheets' own validation of them is not modelled.
- Values are integers or text. `pd.to_numeric`, `float` values and the numeric drag sequence are modelled on integers only: floating point is left out.
- ActionSchema.Verb: each record's `type` field has a default (`type: str = "Select"` and so on) that a caller could override when building the record, and `to_string` prints `self.type.upper()`. The model fixes the verb per constructor, so a record built with another `type` is not modelled.
- AppsScript.Script: the clipboard is a field of the object and carries over between calls of `ProcessSequentialActions` on one `Script`. In Apps Script each server call starts with a fresh module-level `clipboard`. Only a single call matches the deployed behaviour when a `paste` runs before any `copy` in that call.
- Interpreter.CellText: every empty cell shows as `nan`, because the model has one empty value and no pandas column types. The delete tool (ExcelAgent/utils/action_interpret.py:419) stores `None`; in a text (object) column that cell keeps `None` and shows as `None` in the input field, while in a numeric column it becomes NaN and shows as `nan`. The model does not tell these apart, so `Interpreter.FieldShows` and `Interpreter.Workbook.SelectInputField` give `nan` for a deleted text cell.
- Exception messages of Python library calls are approximations. They use the exception type's usual wording rather than the exact library text (for example the parser's `'NoneType' object has no attribute 'groups'`).
- `Text.Lower`, `Text.Upper` and the case-insensitive regex flags fold ASCII letters only, and whitespace is the ASCII part of `str.isspace`: Unicode case folding and Unicode whitespace are left out.
- `Singular.Provider` takes provider detection from a URL (`_detect_provider_from_url`) as a parameter, and `Singular.Configure` takes key resolution (`_resolve_api_key`) as one. Those functions are not part of this model. The BNF file is the constructor's `bnf` argument.
- RunLoop.MainLoop: does not state that a new instruction equals the stripped user reply of its pass; that fact is stated per pass by `RunLoop.Subtask`.
- RunLoop.Subtask: the quoted `Tell User("...")` pattern tried first at `run.py:228` is not modelled separately. It matches only where the fallback pattern matches, and the extracted message is only printed.
- The subtask loop of `run.py:219` is modelled for the one-element list that `run.py:207` always builds.
- ActionParse.ParseRangeAction: `ExcelAgent/api/action_schemas.py` defines no `Read` class, so as written every `READ` line raises `NameError` at `action_reverse_parse.py:99`, which `parse_action_string` turns into its parse error. The model builds a `Read` record instead; that record, its text form and the round trips through it are the model's own.
- Text.ParseInt: reads ASCII decimal digits with an optional sign only. Python's `int()` also accepts `_` between digits and non-ASCII decimal digits; the model rejects both. The same holds for the `\d` of the cell-reference pattern (ExcelAgent/api/action_reverse_parse.py:6): Python's `re` matches any Unicode decimal digit there, while `ActionParse` (through `DigitRun`) accepts ASCII digits only.
- Interpreter.InputValue: reads numbers with `int()` rules rather than `pd.to_numeric`. So an empty text (`Set(   )` strips to "" in ExcelAgent/utils/action_executor.py:83-86) is written as the empty text, where `pd.to_numeric("")` gives NaN. A numeral with a trailing tab or newline is written as a number, where `pd.to_numeric` rejects it and writes the text. Decimal fractions and exponents are read by `pd.to_numeric` and are not numbers in the model.
- Grid.Step: the numeric drag adds on unbounded integers. A pandas `int64` column wraps around past 2^63 - 1, which the model does not capture.
- The add-on's filter test `regExp.test(value)` is the parameter `matches` applied to the cell's value; the conversion `String(value)` it performs first (`AppsScript.JsText`) is left inside that parameter.

## Findings

| source | as written | input that shows it | evidently intended | confidence | as-written member | corrected member |
|---|---|---|---|---|---|---|
| GoogleAdd-on/ActionExecuter.js:82-83 | the number-format branch reads `action.format`, a field the Format record never has (it carries `value_format`), so the branch never fires | a Format action with style `numberFormat` and value format "0.00" | set the cell's number format to the record's value format | high, not executed | AppsScript.FormatCellAsWritten (with AppsScript.NumberFormatIgnored and AppsScript.NumberFormatGrid; the script runs it through AppsScript.StyleCell when `asWritten` holds) | AppsScript.FormatCell |
| GoogleAdd-on/ActionExecuter.js:171 | `clipboard[i][j] !== null` is true for an index beyond the clipboard row, so `undefined` is pasted and the cell is blanked | clipboard `[["x"]]` pasted into a two-column range whose second cell holds "keep" | leave cells beyond the clipboard's extent unchanged | medium, not executed | AppsScript.PasteValueAsWritten (with AppsScript.PasteBeyondClipboardWidth; the script runs it through AppsScript.PasteAt when `asWritten` holds) | AppsScript.PasteValue |
