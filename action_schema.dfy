/** The action records of the command language and their serialisation
    (`to_string`, `action_list_to_str`). Every record carries an optional
    regex filter `reg`. `Read` is constructed by the parser but has no
    record in the schema file; here it has the same four cell fields as
    `Select` and is written out the same way. */
module ActionSchema {
  import opened Wrappers
  import opened Text

  /** A border dictionary in insertion order: side name to flag. */
  type Border = seq<(string, bool)>

  datatype Action =
    | Select(reg: Option<string>, col1: string, row1: string, col2: Option<string>, row2: Option<string>)
    | SelectAndDrag(reg: Option<string>, col1: string, row1: string, targetCol: string, targetRow: string)
    | Format(reg: Option<string>, style: string, color: Option<string>, size: Option<int>,
             alignment: Option<string>, border: Option<Border>, wrap: Option<bool>,
             valueFormat: Option<string>)
    | Set(reg: Option<string>, text: string)
    | ToolAction(reg: Option<string>, tool: string)
    | TellUser(reg: Option<string>, message: string)
    | Terminate(reg: Option<string>)
    | Read(reg: Option<string>, col1: string, row1: string, col2: Option<string>, row2: Option<string>)

  /** One `key: value` item of a Format record's parameter list. */
  datatype Param =
    | PStyle(s: string)
    | PColor(s: string)
    | PSize(n: int)
    | PAlignment(s: string)
    | PBorder(b: Border)
    | PWrap(w: bool)
    | PValueFormat(s: string)

  /** The pattern written when `reg` is absent or empty. */
  const MatchAll: string := "^.*$"

  /** Python truthiness of an optional string. */
  predicate Truthy(o: Option<string>) {
    o.Some? && o.value != ""
  }

  function BoolString(b: bool): string {
    if b then "True" else "False"
  }

  /** The upper-cased `type` field. Each record class gives the field a
      default (`"Select"`, `"Format"`, ...) that the model fixes per
      constructor. */
  function Verb(a: Action): string {
    match a
    case Select(_, _, _, _, _) => "SELECT"
    case SelectAndDrag(_, _, _, _, _) => "SELECTANDDRAG"
    case Format(_, _, _, _, _, _, _, _) => "FORMAT"
    case Set(_, _) => "SET"
    case ToolAction(_, _) => "TOOLACTION"
    case TellUser(_, _) => "TELLUSER"
    case Terminate(_) => "TERMINATE"
    case Read(_, _, _, _, _) => "READ"
  }

  function RegText(reg: Option<string>): string {
    if Truthy(reg) then reg.value else MatchAll
  }

  /** `col1 row1 : col2 row2` when both ends are given, else `col1 row1`. */
  function RangeText(col1: string, row1: string, col2: Option<string>, row2: Option<string>): string {
    if Truthy(col2) && Truthy(row2) then col1 + row1 + ":" + col2.value + row2.value else col1 + row1
  }

  function BorderItems(b: Border): (r: seq<string>)
    ensures |r| == |b|
    ensures forall k :: 0 <= k < |b| ==> r[k] == b[k].0 + ": " + BoolString(b[k].1)
  {
    if b == [] then [] else [b[0].0 + ": " + BoolString(b[0].1)] + BorderItems(b[1..])
  }

  function BorderText(b: Border): string {
    "border: { " + Join(BorderItems(b), ", ") + " }"
  }

  function ParamText(p: Param): string {
    match p
    case PStyle(s) => "style: " + s
    case PColor(s) => "color: " + s
    case PSize(n) => "size: " + IntToString(n)
    case PAlignment(s) => "alignment: " + s
    case PBorder(b) => BorderText(b)
    case PWrap(w) => "wrap: " + BoolString(w)
    case PValueFormat(s) => "value_format: " + s
  }

  function ParamTexts(ps: seq<Param>): (r: seq<string>)
    ensures |r| == |ps|
    ensures forall k :: 0 <= k < |ps| ==> r[k] == ParamText(ps[k])
  {
    if ps == [] then [] else [ParamText(ps[0])] + ParamTexts(ps[1..])
  }

  /** The items a Format record writes, in the order it writes them; falsy
      values are skipped, `wrap` is skipped only when absent. */
  function FormatParams(a: Action): seq<Param>
    requires a.Format?
  {
    Then(if a.style != "" then Some(PStyle(a.style)) else None,
    Then(if Truthy(a.color) then Some(PColor(a.color.value)) else None,
    Then(if a.size.Some? && a.size.value != 0 then Some(PSize(a.size.value)) else None,
    Then(if Truthy(a.alignment) then Some(PAlignment(a.alignment.value)) else None,
    Then(if a.border.Some? && a.border.value != [] then Some(PBorder(a.border.value)) else None,
    Then(if a.wrap.Some? then Some(PWrap(a.wrap.value)) else None,
    Then(if Truthy(a.valueFormat) then Some(PValueFormat(a.valueFormat.value)) else None,
    [])))))))
  }

  /** An item that may be skipped, in front of the rest. */
  function Then(p: Option<Param>, rest: seq<Param>): seq<Param> {
    if p.Some? then [p.value] + rest else rest
  }

  function ParamsText(a: Action): string {
    match a
    case Select(_, c1, r1, c2, r2) => RangeText(c1, r1, c2, r2)
    case SelectAndDrag(_, c1, r1, c2, r2) => c1 + r1 + ":" + c2 + r2
    case Format(_, _, _, _, _, _, _, _) => Join(ParamTexts(FormatParams(a)), ", ")
    case Set(_, t) => t
    case ToolAction(_, t) => t
    case TellUser(_, m) => m
    case Terminate(_) => ""
    case Read(_, c1, r1, c2, r2) => RangeText(c1, r1, c2, r2)
  }

  /** `Action.to_string`. */
  function ToString(a: Action): string {
    "REGEX " + RegText(a.reg) + " | " + Verb(a) + " " + ParamsText(a)
  }

  function ToStrings(actions: seq<Action>): (r: seq<string>)
    ensures |r| == |actions|
    ensures forall k :: 0 <= k < |actions| ==> r[k] == ToString(actions[k])
  {
    if actions == [] then [] else [ToString(actions[0])] + ToStrings(actions[1..])
  }

  /** `action_list_to_str`: one action per line. */
  function ActionListToStr(actions: seq<Action>): string {
    Join(ToStrings(actions), "\n")
  }

  // ------------------------------------------------------------ well-formed

  /** A column reference as the cell pattern reads it: capital letters. */
  predicate IsColumn(c: string) {
    |c| > 0 && AllUpperLetters(c)
  }

  /** A row reference as the cell pattern reads it: an optional minus, then
      decimal digits. */
  predicate IsRow(r: string) {
    (|r| > 0 && AllDigits(r)) || (|r| > 1 && r[0] == '-' && AllDigits(r[1..]))
  }

  /** Free text that survives a trip through a line: no separator, and no
      surrounding whitespace (which the parser strips). */
  predicate LineText(s: string) {
    Trimmed(s) && HasNo(s, ';') && HasNo(s, '\n')
  }

  predicate RegOk(reg: Option<string>) {
    !Truthy(reg) || (LineText(reg.value) && HasNo(reg.value, '|'))
  }

  /** A Format value: also free of the characters the parameter splitter
      and the border syntax give meaning to. */
  predicate ValueText(s: string) {
    LineText(s) && HasNo(s, ',') && HasNo(s, '{') && HasNo(s, '}')
  }

  predicate OptValue(o: Option<string>) {
    o.None? || ValueText(o.value)
  }

  predicate BorderKey(k: string) {
    ValueText(k) && HasNo(k, ':')
  }

  predicate BorderOk(b: Border) {
    (forall k :: 0 <= k < |b| ==> BorderKey(b[k].0))
    && (forall i, j :: 0 <= i < j < |b| ==> b[i].0 != b[j].0)
  }

  predicate RangeOk(col1: string, row1: string, col2: Option<string>, row2: Option<string>) {
    IsColumn(col1) && IsRow(row1)
    && (Truthy(col2) && Truthy(row2) ==> IsColumn(col2.value) && IsRow(row2.value))
  }

  /** The actions that `to_string` writes in a form the parser reads back. */
  predicate WellFormed(a: Action) {
    RegOk(a.reg) &&
    match a
    case Select(_, c1, r1, c2, r2) => RangeOk(c1, r1, c2, r2)
    case SelectAndDrag(_, c1, r1, c2, r2) => IsColumn(c1) && IsRow(r1) && IsColumn(c2) && IsRow(r2)
    case Format(_, style, color, _, alignment, border, _, valueFormat) =>
      style != "" && ValueText(style) && OptValue(color) && OptValue(alignment) && OptValue(valueFormat)
      && (border.Some? ==> BorderOk(border.value))
    case Set(_, t) => LineText(t)
    case ToolAction(_, t) => LineText(t)
    case TellUser(_, m) => LineText(m)
    case Terminate(_) => true
    case Read(_, c1, r1, c2, r2) => RangeOk(c1, r1, c2, r2)
  }

  // -------------------------------------------------------------- canonical

  function CanonReg(reg: Option<string>): (r: Option<string>)
    ensures r.Some? && r.value != ""
    ensures Truthy(reg) ==> r == reg
  {
    Some(RegText(reg))
  }

  function Falsy(o: Option<string>): Option<string> {
    if Truthy(o) then o else None
  }

  /** The record the parser builds from `to_string(a)`: the filter is made
      explicit, a range with a missing end gets the column itself and row
      `-1`, falsy Format values are dropped and the border is always a
      dictionary. */
  function Canon(a: Action): (r: Action)
    ensures Verb(r) == Verb(a)
    ensures RegText(r.reg) == RegText(a.reg)
  {
    match a
    case Select(reg, c1, r1, c2, r2) =>
      if Truthy(c2) && Truthy(r2) then Select(CanonReg(reg), c1, r1, c2, r2)
      else Select(CanonReg(reg), c1, r1, Some(c1), Some("-1"))
    case SelectAndDrag(reg, c1, r1, c2, r2) => SelectAndDrag(CanonReg(reg), c1, r1, c2, r2)
    case Format(reg, style, color, size, alignment, border, wrap, valueFormat) =>
      Format(CanonReg(reg), style, Falsy(color),
             if size == Some(0) then None else size,
             Falsy(alignment),
             if border.None? then Some([]) else border,
             wrap, Falsy(valueFormat))
    case Set(reg, t) => Set(CanonReg(reg), t)
    case ToolAction(reg, t) => ToolAction(CanonReg(reg), t)
    case TellUser(reg, m) => TellUser(CanonReg(reg), m)
    case Terminate(reg) => Terminate(CanonReg(reg))
    case Read(reg, c1, r1, c2, r2) =>
      if Truthy(c2) && Truthy(r2) then Read(CanonReg(reg), c1, r1, c2, r2)
      else Read(CanonReg(reg), c1, r1, Some(c1), Some("-1"))
  }

  /** Canonical records stay well formed and are their own canonical form. */
  lemma CanonStable(a: Action)
    requires WellFormed(a)
    ensures WellFormed(Canon(a))
    ensures Canon(Canon(a)) == Canon(a)
  {
    match a {
      case Select(reg, c1, r1, c2, r2) =>
        assert IsRow("-1") by { assert "-1"[1..] == "1"; }
      case Read(reg, c1, r1, c2, r2) =>
        assert IsRow("-1") by { assert "-1"[1..] == "1"; }
      case _ =>
    }
  }

  /** Only the falsy parts of a Format record are lost in writing it out:
      its canonical form writes the same parameter list. */
  lemma CanonFormatParams(a: Action)
    requires a.Format?
    ensures FormatParams(Canon(a)) == FormatParams(a)
  {
  }
}
