/** The reverse parser: text lines `REGEX <pattern> | <VERB> <params>`,
    separated by `;` or newlines, back to action records. The parser's own
    regular expressions are simple enough to be written out exactly:
    the entry pattern `REGEX\s+([^|]+)\s*\|\s*(.*)` (full match), the cell
    pattern `([A-Z]+)(-?\d+)` (prefix match) and the parameter splitter
    `,(?![^{]*\})`. A raised exception is a `Failure`. */
module ActionParse {
  import opened Wrappers
  import opened Text
  import opened ActionSchema

  // ------------------------------------------------------------ entry regex

  /** The full match of the entry pattern on the stripped entry, giving the
      stripped pattern group and the stripped action part. */
  function MatchEntry(e: string): (r: Option<(string, string)>)
  {
    var s := Trim(e);
    if !StartsWith(s, "REGEX") then None else MatchAfterKeyword(s[5..])
  }

  /** The rest of the entry pattern after `REGEX`: at least one space, a
      pattern up to the first bar, and a single-line action part. */
  function MatchAfterKeyword(t: string): (r: Option<(string, string)>)
  {
    if |t| == 0 || !IsSpace(t[0]) then None
    else
      match Find(t, "|")
      case None => None
      case Some(p) => SplitAtBar(t, p)
  }

  function SplitAtBar(t: string, p: nat): (r: Option<(string, string)>)
    requires p < |t|
  {
    var rest := t[p + 1..];
    if p < 2 || !HasNo(TrimLeft(rest), '\n') then None
    else Some((Trim(t[..p]), Trim(rest)))
  }

  // --------------------------------------------------------------- splitting

  /** `s.split(None, 1)` when it yields exactly two items (the unpacking the
      parser does); `None` when it does not. */
  function SplitOnce(s: string): (r: Option<(string, string)>)
    ensures r.Some? ==> r.value.1 != [] && !IsSpace(r.value.1[0])
  {
    var w := TrimLeft(s);
    var i := FirstSpace(w);
    if i == |w| then None
    else
      var rest := TrimLeft(w[i..]);
      if rest == [] then None else Some((w[..i], rest))
  }

  /** Index of the first whitespace character, or the length. */
  function FirstSpace(s: string): (i: nat)
    ensures i <= |s|
    ensures i < |s| ==> IsSpace(s[i])
    ensures forall k :: 0 <= k < i ==> !IsSpace(s[k])
  {
    if s == [] then 0 else if IsSpace(s[0]) then 0 else 1 + FirstSpace(s[1..])
  }

  function UpperRun(s: string): (n: nat)
    ensures n <= |s| && AllUpperLetters(s[..n])
    ensures n < |s| ==> !IsUpperLetter(s[n])
  {
    if s != [] && IsUpperLetter(s[0]) then
      var n := 1 + UpperRun(s[1..]);
      assert s[..n] == [s[0]] + s[1..][..n - 1];
      n
    else 0
  }

  function DigitRun(s: string): (n: nat)
    ensures n <= |s| && AllDigits(s[..n])
    ensures n < |s| ==> !IsDigit(s[n])
  {
    if s != [] && IsDigit(s[0]) then
      var n := 1 + DigitRun(s[1..]);
      assert s[..n] == [s[0]] + s[1..][..n - 1];
      n
    else 0
  }

  /** `re.match(cell_ref_pattern, s.strip())`: the longest capital-letter
      prefix, then a minus sign if digits follow it, then the digits. Text
      after the match is ignored. */
  function MatchCellRef(s: string): (r: Option<(string, string)>)
    ensures r.Some? ==> IsColumn(r.value.0) && IsRow(r.value.1)
  {
    var t := Trim(s);
    var n := UpperRun(t);
    var u := t[n..];
    if n == 0 then None
    else if |u| > 0 && u[0] == '-' && DigitRun(u[1..]) > 0 then
      assert u[..1 + DigitRun(u[1..])][1..] == u[1..][..DigitRun(u[1..])];
      Some((t[..n], u[..1 + DigitRun(u[1..])]))
    else if DigitRun(u) > 0 then Some((t[..n], u[..DigitRun(u)]))
    else None
  }

  /** `parse_cell_range`: one reference gives the same column and row `-1`
      as the other end; two give both; more raise (the function returns
      None, which cannot be unpacked). */
  function ParseCellRange(range: string): (r: Result<(string, string, string, string)>)
    ensures r.Success? ==> IsColumn(r.value.0) && IsRow(r.value.1) && IsColumn(r.value.2) && IsRow(r.value.3)
    ensures var parts := SplitAny(range, {':'});
      r.Success? <==> (|parts| == 1 && MatchCellRef(parts[0]).Some?)
                      || (|parts| == 2 && MatchCellRef(parts[0]).Some? && MatchCellRef(parts[1]).Some?)
    ensures |SplitAny(range, {':'})| > 2 ==> r == Failure("cannot unpack non-iterable NoneType object")
    ensures r.Success? && |SplitAny(range, {':'})| == 1 ==> r.value.2 == r.value.0 && r.value.3 == "-1"
  {
    var parts := SplitAny(range, {':'});
    if |parts| == 1 then
      match MatchCellRef(parts[0])
      case None => Failure("'NoneType' object has no attribute 'groups'")
      case Some((c, w)) =>
        assert IsRow("-1") by { assert "-1"[1..] == "1"; }
        Success((c, w, c, "-1"))
    else if |parts| == 2 then
      match (MatchCellRef(parts[0]), MatchCellRef(parts[1]))
      case (Some((c1, w1)), Some((c2, w2))) => Success((c1, w1, c2, w2))
      case _ => Failure("'NoneType' object has no attribute 'groups'")
    else Failure("cannot unpack non-iterable NoneType object")
  }

  /** The lookahead `(?![^{]*\})` fails at `s` exactly when a `}` comes
      before any `{`. */
  predicate ClosesAhead(s: string) {
    |s| > 0 && (s[0] == '}' || (s[0] != '{' && ClosesAhead(s[1..])))
  }

  /** `re.split(r",(?![^{]*\})", s)`: split at every comma that is not
      inside a brace pair. */
  function SplitParams(s: string): (r: seq<string>)
    ensures |r| >= 1
  {
    if s == [] then [""]
    else
      var rest := SplitParams(s[1..]);
      if s[0] == ',' && !ClosesAhead(s[1..]) then [""] + rest else [[s[0]] + rest[0]] + rest[1..]
  }

  // -------------------------------------------------------- format params

  /** The dictionary `parse_format_params` fills in; `border` starts empty. */
  datatype FormatFields = FormatFields(
    style: Option<string>, color: Option<string>, size: Option<int>,
    alignment: Option<string>, wrap: Option<bool>, valueFormat: Option<string>,
    border: Border)

  const NoFields := FormatFields(None, None, None, None, None, None, [])

  /** `d[k] = v` on an insertion-ordered dictionary. */
  function Put(b: Border, k: string, v: bool): Border
  {
    if b == [] then [(k, v)]
    else if b[0].0 == k then [(k, v)] + b[1..]
    else [b[0]] + Put(b[1..], k, v)
  }

  /** One `side: value` item of a border; anything but exactly one colon
      fails to unpack. */
  function ParseBorderItems(b: Border, items: seq<string>): Result<Border>
    decreases |items|
  {
    if items == [] then Success(b)
    else
      var kv := SplitAny(items[0], {':'});
      if |kv| != 2 then Failure("wrong number of values to unpack")
      else ParseBorderItems(Put(b, Trim(kv[0]), Trim(kv[1]) == "True"), items[1..])
  }

  /** One stripped part of the parameter string; a part that matches no
      key is ignored. */
  function ApplyPart(f: FormatFields, part: string): Result<FormatFields> {
    if StartsWith(part, "style: ") then Success(f.(style := Some(part[7..])))
    else if StartsWith(part, "color: ") then Success(f.(color := Some(part[7..])))
    else if StartsWith(part, "size: ") then
      match ParseInt(part[6..])
      case None => Failure("invalid literal for int() with base 10")
      case Some(n) => Success(f.(size := Some(n)))
    else if StartsWith(part, "alignment: ") then Success(f.(alignment := Some(part[11..])))
    else if StartsWith(part, "wrap: ") then Success(f.(wrap := Some(part[6..] == "True")))
    else if StartsWith(part, "value_format: ") then Success(f.(valueFormat := Some(part[14..])))
    else if StartsWith(part, "border: {") && EndsWith(part, "}") then
      assert |part| != 9 by { assert part[..9][8] == '{'; }
      match ParseBorderItems(f.border, TrimAll(SplitAny(part[9..|part| - 1], {','})))
      case Failure(e) => Failure(e)
      case Success(b) => Success(f.(border := b))
    else Success(f)
  }

  /** The parts that can make `parse_format_params` raise: an `int` that
      fails, and a border item that does not unpack. */
  predicate MayRaise(part: string) {
    StartsWith(part, "size: ") || StartsWith(part, "border: {")
  }

  function ApplyParts(f: FormatFields, parts: seq<string>): (r: Result<FormatFields>)
    ensures r.Failure? ==> exists k :: 0 <= k < |parts| && MayRaise(parts[k])
    decreases |parts|
  {
    if parts == [] then Success(f)
    else
      match ApplyPart(f, parts[0])
      case Failure(e) => Failure(e)
      case Success(g) =>
        var r := ApplyParts(g, parts[1..]);
        assert r.Failure? ==> exists k :: 0 <= k < |parts| && MayRaise(parts[k]) by {
          if r.Failure? {
            var k :| 0 <= k < |parts| - 1 && MayRaise(parts[1..][k]);
            assert parts[k + 1] == parts[1..][k];
          }
        }
        r
  }

  /** `parse_format_params`. */
  function ParseFormatParams(s: string): (r: Result<FormatFields>)
    ensures r.Failure? ==> exists k :: 0 <= k < |TrimAll(SplitParams(s))| && MayRaise(TrimAll(SplitParams(s))[k])
  {
    ApplyParts(NoFields, TrimAll(SplitParams(s)))
  }

  // ------------------------------------------------------------------ entry

  /** A range action's verb is dropped with `split(None, 1)` and the rest is
      read by `parse_cell_range`. */
  function ParseRangeAction(reg: string, part: string, isRead: bool): (r: Result<Action>)
    ensures r.Success? ==> (if isRead then r.value.Read? else r.value.Select?)
    ensures r.Success? ==> Verb(r.value) == if isRead then "READ" else "SELECT"
  {
    match SplitOnce(part)
    case None => Failure("not enough values to unpack")
    case Some((_, range)) =>
      match ParseCellRange(range)
      case Failure(e) => Failure(e)
      case Success((c1, w1, c2, w2)) =>
        if isRead then Success(Read(Some(reg), c1, w1, Some(c2), Some(w2)))
        else Success(Select(Some(reg), c1, w1, Some(c2), Some(w2)))
  }

  function ParseDrag(reg: string, part: string): (r: Result<Action>)
    ensures r.Success? ==> r.value.SelectAndDrag? && Verb(r.value) == "SELECTANDDRAG"
  {
    match SplitOnce(part)
    case None => Failure("not enough values to unpack")
    case Some((_, range)) =>
      var cells := SplitAny(range, {':'});
      if |cells| != 2 then Failure("wrong number of values to unpack")
      else
        match (MatchCellRef(cells[0]), MatchCellRef(cells[1]))
        case (Some((c1, w1)), Some((c2, w2))) => Success(SelectAndDrag(Some(reg), c1, w1, c2, w2))
        case _ => Failure("'NoneType' object has no attribute 'groups'")
  }

  function ParseFormat(reg: string, part: string): (r: Result<Action>)
    requires StartsWith(part, "FORMAT")
    ensures r.Success? ==> r.value.Format? && r.value.border.Some? && Verb(r.value) == "FORMAT"
  {
    match ParseFormatParams(Trim(part[6..]))
    case Failure(e) => Failure(e)
    case Success(f) =>
      if f.style.None? then Failure("style: field required")
      else Success(Format(if reg == "" then None else Some(reg), f.style.value, f.color, f.size,
                          f.alignment, Some(f.border), f.wrap, f.valueFormat))
  }

  /** `parse_action_entry`: the verbs are tried as prefixes in the source's
      order, so `SELECTANDDRAG` is tried before `SELECT`. */
  function ParseEntry(e: string): (r: Result<Action>)
  {
    match MatchEntry(e)
    case None => Failure("Invalid action entry: " + e)
    case Some((reg, part)) =>
      if StartsWith(part, "SELECTANDDRAG") then ParseDrag(reg, part)
      else if StartsWith(part, "SELECT") then ParseRangeAction(reg, part, false)
      else if StartsWith(part, "FORMAT") then ParseFormat(reg, part)
      else if StartsWith(part, "SET") then Success(Set(Some(reg), Trim(part[3..])))
      else if StartsWith(part, "TOOLACTION") then Success(ToolAction(Some(reg), Trim(part[10..])))
      else if StartsWith(part, "TELLUSER") then Success(TellUser(Some(reg), Trim(part[8..])))
      else if StartsWith(part, "TERMINATE") then Success(Terminate(Some(reg)))
      else if StartsWith(part, "READ") then ParseRangeAction(reg, part, true)
      else Failure("Invalid action entry: " + e)
  }

  function ParseEntries(entries: seq<string>): Result<seq<Action>>
    decreases |entries|
  {
    if entries == [] then Success([])
    else if Trim(entries[0]) == [] then ParseEntries(entries[1..])
    else
      match ParseEntry(entries[0])
      case Failure(e) => Failure("Error parsing action string: " + e)
      case Success(a) =>
        match ParseEntries(entries[1..])
        case Failure(e) => Failure(e)
        case Success(rest) => Success([a] + rest)
  }

  /** `parse_action_string`: split on `;` and newlines, skip blank entries,
      and turn any error into one parse error. */
  function ParseActionString(s: string): Result<seq<Action>> {
    ParseEntries(SplitAny(s, {';', '\n'}))
  }
}
