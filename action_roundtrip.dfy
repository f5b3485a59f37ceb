/** Reading back what `to_string` writes: every well-formed action parses
    to its canonical form, and so does every list written by
    `action_list_to_str`. */
module ActionRoundTrip {
  import opened Wrappers
  import opened Text
  import opened ActionSchema
  import opened ActionParse
  import opened FormatRoundTrip

  // ------------------------------------------------------------ entry regex

  /** No `|` in front of position `p` of ` R | L`. */
  lemma FirstBar(t: string, r: string, l: string)
    requires HasNo(r, '|') && t == [' '] + r + " | " + l
    ensures Find(t, "|") == Some(|r| + 2)
  {
    var p := |r| + 2;
    assert t[p..p + 1] == "|";
    forall k | 0 <= k < p ensures !OccursAt(t, "|", k) {
      if 1 <= k <= |r| {
        assert t[k] == r[k - 1];
      }
      assert t[k..k + 1][0] == t[k];
    }
    assert OccursAt(t, "|", p);
    var f := Find(t, "|");
    assert f.Some?;
    assert !(f.value < p);
    assert !(f.value > p);
  }

  /** The pieces of ` R | L` on either side of the bar. */
  lemma EntryPieces(t: string, r: string, l: string)
    requires t == [' '] + r + " | " + l
    ensures t[..|r| + 2] == [' '] + r + [' '] && t[|r| + 3..] == [' '] + l
  {
  }

  /** What the entry pattern does once the bar is found. */
  lemma MatchEntryAt(e: string, s: string, t: string, p: nat)
    requires s == Trim(e) && StartsWith(s, "REGEX") && s[5..] == t && |t| > 0 && IsSpace(t[0])
    requires Find(t, "|") == Some(p) && p >= 2 && HasNo(TrimLeft(t[p + 1..]), '\n')
    ensures MatchEntry(e) == Some((Trim(t[..p]), Trim(t[p + 1..])))
  {
    assert MatchAfterKeyword(t) == SplitAtBar(t, p);
  }

  /** `lstrip()` drops a leading space. */
  lemma SpaceThenTrimLeft(l: string)
    ensures TrimLeft([' '] + l) == TrimLeft(l)
  {
    var a := [' '];
    assert AllSpace(a);
    TrimLeftSpaces(a, l);
  }

  /** A stripped text after one space: what `strip()` and `lstrip()` give. */
  lemma SpaceThenTrimmed(l: string)
    requires Trimmed(l)
    ensures Trim([' '] + l) == l && TrimLeft([' '] + l) == TrimLeft(l)
  {
    SpaceThenTrimLeft(l);
    assert Trim([' '] + l) == TrimRight(TrimLeft(l));
  }

  /** ` R | L` after the keyword. */
  function EntryTail(r: string, l: string): string {
    [' '] + r + " | " + l
  }

  lemma EntryKeyword(s: string, r: string, l: string)
    requires s == "REGEX " + r + " | " + l
    ensures StartsWith(s, "REGEX") && s[5..] == EntryTail(r, l)
  {
    assert s == "REGEX" + EntryTail(r, l);
    StartsWithConcat("REGEX", EntryTail(r, l));
  }

  lemma EntryPatternPart(r: string, l: string)
    requires Trimmed(r)
    ensures Trim(EntryTail(r, l)[..|r| + 2]) == r
  {
    EntryPieces(EntryTail(r, l), r, l);
    TrimAround([' '], r, [' ']);
  }

  lemma EntryActionPart(r: string, l: string)
    requires |l| > 0 && Trimmed(l) && HasNo(l, '\n')
    ensures Trim(EntryTail(r, l)[|r| + 3..]) == l && HasNo(TrimLeft(EntryTail(r, l)[|r| + 3..]), '\n')
  {
    EntryPieces(EntryTail(r, l), r, l);
    SpaceThenTrimmed(l);
    assert TrimLeft(l) == l;
  }

  /** The entry pattern splits a stripped line `REGEX R | L` into `R` and
      `L` when `R` has no bar and `L` no line break. */
  lemma MatchEntryLine(e: string, r: string, l: string)
    requires |r| > 0 && Trimmed(r) && HasNo(r, '|')
    requires |l| > 0 && Trimmed(l) && HasNo(l, '\n')
    requires Trim(e) == "REGEX " + r + " | " + l
    ensures MatchEntry(e) == Some((r, l))
  {
    var t := EntryTail(r, l);
    EntryKeyword(Trim(e), r, l);
    FirstBar(t, r, l);
    EntryPatternPart(r, l);
    EntryActionPart(r, l);
    MatchEntryAt(e, Trim(e), t, |r| + 2);
  }

  // ------------------------------------------------------------- verb split

  /** `split(None, 1)` on `verb x` gives the verb and `x`. */
  lemma SplitOnceVerb(v: string, x: string)
    requires |v| > 0 && forall i :: 0 <= i < |v| ==> !IsSpace(v[i])
    requires |x| > 0 && !IsSpace(x[0])
    ensures SplitOnce(v + [' '] + x) == Some((v, x))
  {
    var s := v + [' '] + x;
    assert TrimLeft(s) == s;
    var i := FirstSpace(s);
    assert s[|v|] == ' ';
    assert !(i < |v|);
    assert !(i > |v|);
    assert s[..i] == v;
    assert s[i..] == [' '] + x;
    TrimLeftSpaces([' '], x);
    assert TrimLeft(x) == x;
  }

  // --------------------------------------------------------------- cell refs

  lemma TakeUpper(s: string, n: nat)
    requires n <= |s| && AllUpperLetters(s[..n])
    ensures forall k :: 0 <= k < n ==> IsUpperLetter(s[k])
  {
    forall k | 0 <= k < n ensures IsUpperLetter(s[k]) {
      assert s[..n][k] == s[k];
    }
  }

  lemma UpperRunOf(c: string, r: string)
    requires AllUpperLetters(c) && (r == [] || !IsUpperLetter(r[0]))
    ensures UpperRun(c + r) == |c|
  {
    var s := c + r;
    var n := UpperRun(s);
    TakeUpper(s, n);
    if r != [] {
      assert s[|c|] == r[0];
    }
    assert !(n < |c|);
    assert !(n > |c|);
  }

  lemma DigitRunOf(d: string)
    requires AllDigits(d)
    ensures DigitRun(d) == |d|
  {
  }

  /** The cell pattern reads a column followed by a row back as the two. */
  lemma CellRef(c: string, r: string)
    requires IsColumn(c) && IsRow(r)
    ensures MatchCellRef(c + r) == Some((c, r))
  {
    var t := c + r;
    assert Trimmed(t) by {
      assert t[0] == c[0];
      assert t[|t| - 1] == r[|r| - 1];
    }
    UpperRunOf(c, r);
    var u := t[|c|..];
    assert u == r;
    if r[0] == '-' {
      DigitRunOf(r[1..]);
      assert r[..1 + |r[1..]|] == r;
    } else {
      DigitRunOf(r);
      assert r[..|r|] == r;
    }
    assert t[..|c|] == c;
  }

  /** A range written by `to_string` reads back as its two ends, or as one
      end with the column repeated and row `-1`. */
  lemma RangeRoundTrip(c1: string, r1: string, c2: Option<string>, r2: Option<string>)
    requires RangeOk(c1, r1, c2, r2)
    ensures ParseCellRange(RangeText(c1, r1, c2, r2))
         == Success(if Truthy(c2) && Truthy(r2) then (c1, r1, c2.value, r2.value) else (c1, r1, c1, "-1"))
  {
    if Truthy(c2) && Truthy(r2) {
      RangeTwoEnds(c1, r1, c2.value, r2.value);
    } else {
      RangeOneEnd(c1, r1);
    }
  }

  lemma RangeOneEnd(c1: string, r1: string)
    requires IsColumn(c1) && IsRow(r1)
    ensures ParseCellRange(c1 + r1) == Success((c1, r1, c1, "-1"))
  {
    CellNoColon(c1, r1);
    SplitAnyNone(c1 + r1, {':'});
    CellRef(c1, r1);
    assert IsRow("-1") by { assert "-1"[1..] == "1"; }
  }

  lemma RangeTwoEnds(c1: string, r1: string, c2: string, r2: string)
    requires IsColumn(c1) && IsRow(r1) && IsColumn(c2) && IsRow(r2)
    ensures ParseCellRange(c1 + r1 + ":" + c2 + r2) == Success((c1, r1, c2, r2))
  {
    CellNoColon(c1, r1);
    CellNoColon(c2, r2);
    CellPair(c1, r1, c2, r2);
    CellRef(c1, r1);
    CellRef(c2, r2);
    RangeOfTwoParts(c1 + r1 + ":" + c2 + r2, c1 + r1, c2 + r2, (c1, r1), (c2, r2));
  }

  lemma RangeOfTwoParts(range: string, p: string, q: string, x: (string, string), y: (string, string))
    requires SplitAny(range, {':'}) == [p, q] && MatchCellRef(p) == Some(x) && MatchCellRef(q) == Some(y)
    ensures ParseCellRange(range) == Success((x.0, x.1, y.0, y.1))
  {
  }

  lemma CellNoColon(c: string, r: string)
    requires IsColumn(c) && IsRow(r)
    ensures NoneIn(c + r, {':'})
    ensures forall x :: x in c + r ==> IsUpperLetter(x) || IsDigit(x) || x == '-'
  {
    forall x | x in c + r ensures IsUpperLetter(x) || IsDigit(x) || x == '-' {
      var i :| 0 <= i < |c + r| && (c + r)[i] == x;
      if i >= |c| {
        assert x == r[i - |c|];
        if r[0] == '-' && i > |c| {
          assert x == r[1..][i - |c| - 1];
        }
      }
    }
    forall i | 0 <= i < |c + r| ensures (c + r)[i] !in {':'} {
      assert (c + r)[i] in c + r;
    }
  }

  /** `c1r1:c2r2` splits at its one colon. */
  lemma CellPair(c1: string, r1: string, c2: string, r2: string)
    requires NoneIn(c1 + r1, {':'}) && NoneIn(c2 + r2, {':'})
    ensures SplitAny(c1 + r1 + ":" + c2 + r2, {':'}) == [c1 + r1, c2 + r2]
  {
    assert c1 + r1 + ":" + c2 + r2 == Join([c1 + r1, c2 + r2], ":");
    SplitJoin([c1 + r1, c2 + r2], ':', {':'});
  }

  // ------------------------------------------------------ parameter shapes

  lemma {:induction false} JoinTrimmed(xs: seq<string>, sep: string)
    requires |xs| >= 1 && forall k :: 0 <= k < |xs| ==> xs[k] != [] && Trimmed(xs[k])
    ensures Join(xs, sep) != [] && Trimmed(Join(xs, sep))
    decreases |xs|
  {
    if |xs| > 1 {
      JoinTrimmed(xs[1..], sep);
      var j := Join(xs, sep);
      var rest := Join(xs[1..], sep);
      assert j == xs[0] + sep + rest;
      assert j[0] == xs[0][0];
      assert j[|j| - 1] == rest[|rest| - 1];
    }
  }

  /** A written Format item is never empty, and has neither entry
      separator. */
  lemma BorderHasNo(b: Border, c: char)
    requires b != [] && BorderOk(b) && (c == ';' || c == '\n')
    ensures HasNo(BorderText(b), c)
  {
    var items := BorderItems(b);
    forall k | 0 <= k < |items| ensures HasNo(items[k], c) {
      HasNoConcat(b[k].0, ": ", c);
      HasNoConcat(b[k].0 + ": ", BoolString(b[k].1), c);
    }
    HasNoJoin(items, ", ", c);
    HasNoConcat("border: { ", Join(items, ", "), c);
    HasNoConcat("border: { " + Join(items, ", "), " }", c);
  }

  lemma ParamTextShape(p: Param, c: char)
    requires ParamOk(p) && (c == ';' || c == '\n')
    ensures ParamText(p) != [] && HasNo(ParamText(p), c)
  {
    match p {
      case PStyle(s) => HasNoConcat("style: ", s, c);
      case PColor(s) => HasNoConcat("color: ", s, c);
      case PSize(n) => HasNoConcat("size: ", IntToString(n), c);
      case PAlignment(s) => HasNoConcat("alignment: ", s, c);
      case PBorder(b) => BorderHasNo(b, c);
      case PWrap(w) => HasNoConcat("wrap: ", BoolString(w), c);
      case PValueFormat(s) => HasNoConcat("value_format: ", s, c);
    }
  }

  lemma FormatTextShape(a: Action, c: char)
    requires a.Format? && WellFormed(a) && (c == ';' || c == '\n')
    ensures ParamsText(a) != [] && Trimmed(ParamsText(a)) && HasNo(ParamsText(a), c)
  {
    var ps := FormatParams(a);
    var texts := ParamTexts(ps);
    FormatParamsOk(a);
    assert |ps| >= 1;
    forall k | 0 <= k < |texts| ensures texts[k] != [] && Trimmed(texts[k]) && HasNo(texts[k], c) {
      assert ps[k] in ps;
      ParamPartOk(ps[k]);
      ParamTextShape(ps[k], c);
    }
    JoinTrimmed(texts, ", ");
    HasNoJoin(texts, ", ", c);
  }

  lemma CellShape(c: string, r: string, sep: char)
    requires IsColumn(c) && IsRow(r) && (sep == ';' || sep == '\n')
    ensures c + r != [] && Trimmed(c + r) && HasNo(c + r, sep)
  {
    CellNoColon(c, r);
    var t := c + r;
    assert t[0] in t && t[|t| - 1] in t;
    forall i | 0 <= i < |t| ensures t[i] != sep {
      assert t[i] in t;
    }
  }

  lemma PairShape(c1: string, r1: string, c2: string, r2: string, sep: char)
    requires IsColumn(c1) && IsRow(r1) && IsColumn(c2) && IsRow(r2) && (sep == ';' || sep == '\n')
    ensures var t := c1 + r1 + ":" + c2 + r2; t != [] && Trimmed(t) && HasNo(t, sep)
  {
    CellShape(c1, r1, sep);
    CellShape(c2, r2, sep);
    var t := c1 + r1 + ":" + c2 + r2;
    assert t == (c1 + r1) + (":" + (c2 + r2));
    HasNoConcat(":", c2 + r2, sep);
    HasNoConcat(c1 + r1, ":" + (c2 + r2), sep);
    assert t[0] == (c1 + r1)[0];
    assert t[|t| - 1] == (c2 + r2)[|c2 + r2| - 1];
  }

  /** What `to_string` writes after the verb: stripped, free of entry
      separators, and present for every verb that takes an argument. */
  lemma ParamsShape(a: Action, sep: char)
    requires WellFormed(a) && (sep == ';' || sep == '\n')
    ensures Trimmed(ParamsText(a)) && HasNo(ParamsText(a), sep)
    ensures a.Select? || a.Read? || a.SelectAndDrag? || a.Format? ==> ParamsText(a) != []
  {
    match a {
      case Select(_, c1, r1, c2, r2) =>
        if Truthy(c2) && Truthy(r2) { PairShape(c1, r1, c2.value, r2.value, sep); }
        else { CellShape(c1, r1, sep); }
      case Read(_, c1, r1, c2, r2) =>
        if Truthy(c2) && Truthy(r2) { PairShape(c1, r1, c2.value, r2.value, sep); }
        else { CellShape(c1, r1, sep); }
      case SelectAndDrag(_, c1, r1, c2, r2) => PairShape(c1, r1, c2, r2, sep);
      case Format(_, _, _, _, _, _, _, _) => FormatTextShape(a, sep);
      case _ =>
    }
  }

  // ------------------------------------------------------------- the line

  lemma RegShape(reg: Option<string>)
    requires RegOk(reg)
    ensures var r := RegText(reg); r != [] && Trimmed(r) && HasNo(r, '|') && HasNo(r, ';') && HasNo(r, '\n')
  {
  }

  lemma VerbShape(a: Action)
    ensures var v := Verb(a); v != [] && Trimmed(v) && (forall i :: 0 <= i < |v| ==> IsUpperLetter(v[i]))
  {
  }

  /** The part after the bar, once stripped: the verb, then a space and
      the parameters when there are any. */
  function VerbLine(a: Action): (l: string)
    requires WellFormed(a)
    ensures l == if ParamsText(a) == [] then Verb(a) else Verb(a) + [' '] + ParamsText(a)
  {
    ParamsShape(a, '\n');
    VerbShape(a);
    TrimVerbLine(Verb(a), ParamsText(a));
    Trim(Verb(a) + [' '] + ParamsText(a))
  }

  /** The stripped line for a prefix `x` (not starting with a space), verb
      `v` and parameters `p`. */
  lemma LineShapeOf(x: string, v: string, p: string)
    requires |x| > 0 && !IsSpace(x[0]) && |v| > 0 && Trimmed(v) && Trimmed(p)
    ensures Trim(x + v + " " + p) == x + (if p == [] then v else v + [' '] + p)
  {
    assert Trimmed(x + v) by {
      assert (x + v)[0] == x[0] && (x + v)[|x + v| - 1] == v[|v| - 1];
    }
    TrimVerbLine(x + v, p);
    assert x + v + [' '] + p == x + (v + [' '] + p);
  }

  /** `to_string` stripped is `REGEX`, the pattern, a bar and the verb line. */
  lemma LineShape(a: Action)
    requires WellFormed(a)
    ensures Trim(ToString(a)) == "REGEX " + RegText(a.reg) + " | " + VerbLine(a)
  {
    VerbShape(a);
    ParamsShape(a, '\n');
    var x := "REGEX " + RegText(a.reg) + " | ";
    assert x[0] == 'R';
    LineShapeOf(x, Verb(a), ParamsText(a));
  }

  // ----------------------------------------------------------- dispatch

  // Helpers: each lemma below names one branch of `ParseEntry`'s keyword
  // tests, so that `EntryVerb` and the round trips can take that branch
  // without unfolding the whole chain of tests.

  lemma DispatchDrag(e: string, reg: string, part: string)
    requires MatchEntry(e) == Some((reg, part)) && StartsWith(part, "SELECTANDDRAG")
    ensures ParseEntry(e) == ParseDrag(reg, part)
  {
  }

  lemma DispatchSelect(e: string, reg: string, part: string)
    requires MatchEntry(e) == Some((reg, part))
    requires !StartsWith(part, "SELECTANDDRAG") && StartsWith(part, "SELECT")
    ensures ParseEntry(e) == ParseRangeAction(reg, part, false)
  {
  }

  lemma DispatchFormat(e: string, reg: string, part: string)
    requires MatchEntry(e) == Some((reg, part))
    requires !StartsWith(part, "SELECTANDDRAG") && !StartsWith(part, "SELECT") && StartsWith(part, "FORMAT")
    ensures ParseEntry(e) == ParseFormat(reg, part)
  {
  }

  lemma DispatchSet(e: string, reg: string, part: string)
    requires MatchEntry(e) == Some((reg, part))
    requires !StartsWith(part, "SELECTANDDRAG") && !StartsWith(part, "SELECT") && !StartsWith(part, "FORMAT")
    requires StartsWith(part, "SET")
    ensures ParseEntry(e) == Success(Set(Some(reg), Trim(part[3..])))
  {
  }

  lemma DispatchTool(e: string, reg: string, part: string)
    requires MatchEntry(e) == Some((reg, part))
    requires !StartsWith(part, "SELECTANDDRAG") && !StartsWith(part, "SELECT") && !StartsWith(part, "FORMAT")
    requires !StartsWith(part, "SET") && StartsWith(part, "TOOLACTION")
    ensures ParseEntry(e) == Success(ToolAction(Some(reg), Trim(part[10..])))
  {
  }

  lemma DispatchTell(e: string, reg: string, part: string)
    requires MatchEntry(e) == Some((reg, part))
    requires !StartsWith(part, "SELECTANDDRAG") && !StartsWith(part, "SELECT") && !StartsWith(part, "FORMAT")
    requires !StartsWith(part, "SET") && !StartsWith(part, "TOOLACTION") && StartsWith(part, "TELLUSER")
    ensures ParseEntry(e) == Success(TellUser(Some(reg), Trim(part[8..])))
  {
  }

  lemma DispatchTerminate(e: string, reg: string, part: string)
    requires MatchEntry(e) == Some((reg, part))
    requires !StartsWith(part, "SELECTANDDRAG") && !StartsWith(part, "SELECT") && !StartsWith(part, "FORMAT")
    requires !StartsWith(part, "SET") && !StartsWith(part, "TOOLACTION") && !StartsWith(part, "TELLUSER")
    requires StartsWith(part, "TERMINATE")
    ensures ParseEntry(e) == Success(Terminate(Some(reg)))
  {
  }

  lemma DispatchRead(e: string, reg: string, part: string)
    requires MatchEntry(e) == Some((reg, part))
    requires !StartsWith(part, "SELECTANDDRAG") && !StartsWith(part, "SELECT") && !StartsWith(part, "FORMAT")
    requires !StartsWith(part, "SET") && !StartsWith(part, "TOOLACTION") && !StartsWith(part, "TELLUSER")
    requires !StartsWith(part, "TERMINATE") && StartsWith(part, "READ")
    ensures ParseEntry(e) == ParseRangeAction(reg, part, true)
  {
  }

  /** An entry that parses yields the record whose verb its action part
      starts with. */
  lemma EntryVerb(e: string, reg: string, part: string, a: Action)
    requires MatchEntry(e) == Some((reg, part)) && ParseEntry(e) == Success(a)
    ensures StartsWith(part, Verb(a))
  {
    if StartsWith(part, "SELECTANDDRAG") {
      DispatchDrag(e, reg, part);
    } else if StartsWith(part, "SELECT") {
      DispatchSelect(e, reg, part);
    } else if StartsWith(part, "FORMAT") {
      DispatchFormat(e, reg, part);
    } else if StartsWith(part, "SET") {
      DispatchSet(e, reg, part);
      assert a.Set?;
    } else if StartsWith(part, "TOOLACTION") {
      DispatchTool(e, reg, part);
      assert a.ToolAction?;
    } else if StartsWith(part, "TELLUSER") {
      DispatchTell(e, reg, part);
      assert a.TellUser?;
    } else if StartsWith(part, "TERMINATE") {
      DispatchTerminate(e, reg, part);
      assert a.Terminate?;
    } else {
      DispatchRead(e, reg, part);
    }
  }

  // ------------------------------------------------------- verb by verb

  lemma RangePart(reg: string, v: string, c1: string, r1: string, c2: Option<string>, r2: Option<string>, isRead: bool)
    requires v == "SELECT" || v == "READ"
    requires RangeOk(c1, r1, c2, r2)
    ensures var t := if Truthy(c2) && Truthy(r2) then (c1, r1, c2.value, r2.value) else (c1, r1, c1, "-1");
      ParseRangeAction(reg, v + [' '] + RangeText(c1, r1, c2, r2), isRead)
      == Success(if isRead then Read(Some(reg), t.0, t.1, Some(t.2), Some(t.3))
                 else Select(Some(reg), t.0, t.1, Some(t.2), Some(t.3)))
  {
    var p := RangeText(c1, r1, c2, r2);
    if Truthy(c2) && Truthy(r2) {
      PairShape(c1, r1, c2.value, r2.value, '\n');
    } else {
      CellShape(c1, r1, '\n');
    }
    SplitOnceVerb(v, p);
    RangeRoundTrip(c1, r1, c2, r2);
  }

  lemma RangeCanon(a: Action)
    requires (a.Select? || a.Read?) && RangeOk(a.col1, a.row1, a.col2, a.row2)
    ensures ParseRangeAction(RegText(a.reg), Verb(a) + [' '] + RangeText(a.col1, a.row1, a.col2, a.row2), a.Read?)
         == Success(Canon(a))
  {
    RangePart(RegText(a.reg), Verb(a), a.col1, a.row1, a.col2, a.row2, a.Read?);
  }

  lemma RangeLine(a: Action)
    requires (a.Select? || a.Read?) && WellFormed(a)
    ensures VerbLine(a) == Verb(a) + [' '] + RangeText(a.col1, a.row1, a.col2, a.row2)
  {
    ParamsShape(a, '\n');
  }

  lemma RangeContent(a: Action)
    requires (a.Select? || a.Read?) && WellFormed(a)
    ensures ParseRangeAction(RegText(a.reg), VerbLine(a), a.Read?) == Success(Canon(a))
  {
    RangeLine(a);
    assert RangeOk(a.col1, a.row1, a.col2, a.row2);
    RangeCanon(a);
  }

  /** Which verb prefixes a range line starts with. */
  lemma SelectPrefixes(x: string)
    ensures !StartsWith("SELECT" + [' '] + x, "SELECTANDDRAG") && StartsWith("SELECT" + [' '] + x, "SELECT")
  {
    var l := "SELECT" + [' '] + x;
    NotStartsWith(l, "SELECTANDDRAG", 6);
    assert l[..6] == "SELECT";
  }

  lemma ReadPrefixes(x: string)
    ensures var l := "READ" + [' '] + x;
      !StartsWith(l, "SELECTANDDRAG") && !StartsWith(l, "SELECT") && !StartsWith(l, "FORMAT")
      && !StartsWith(l, "SET") && !StartsWith(l, "TOOLACTION") && !StartsWith(l, "TELLUSER")
      && !StartsWith(l, "TERMINATE") && StartsWith(l, "READ")
  {
    var l := "READ" + [' '] + x;
    NotStartsWith(l, "SELECTANDDRAG", 0);
    NotStartsWith(l, "SELECT", 0);
    NotStartsWith(l, "FORMAT", 0);
    NotStartsWith(l, "SET", 0);
    NotStartsWith(l, "TOOLACTION", 0);
    NotStartsWith(l, "TELLUSER", 0);
    NotStartsWith(l, "TERMINATE", 0);
    assert l[..4] == "READ";
  }

  lemma EntryRange(e: string, a: Action)
    requires (a.Select? || a.Read?) && WellFormed(a)
    requires MatchEntry(e) == Some((RegText(a.reg), VerbLine(a)))
    ensures ParseEntry(e) == Success(Canon(a))
  {
    RangeLine(a);
    if a.Select? {
      SelectPrefixes(RangeText(a.col1, a.row1, a.col2, a.row2));
    } else {
      ReadPrefixes(RangeText(a.col1, a.row1, a.col2, a.row2));
    }
    RangeContent(a);
    if a.Select? {
      DispatchSelect(e, RegText(a.reg), VerbLine(a));
    } else {
      DispatchRead(e, RegText(a.reg), VerbLine(a));
    }
  }

  lemma DragPart(reg: string, c1: string, r1: string, c2: string, r2: string)
    requires IsColumn(c1) && IsRow(r1) && IsColumn(c2) && IsRow(r2)
    ensures ParseDrag(reg, "SELECTANDDRAG" + [' '] + (c1 + r1 + ":" + c2 + r2))
         == Success(SelectAndDrag(Some(reg), c1, r1, c2, r2))
  {
    PairShape(c1, r1, c2, r2, '\n');
    SplitOnceVerb("SELECTANDDRAG", c1 + r1 + ":" + c2 + r2);
    CellNoColon(c1, r1);
    CellNoColon(c2, r2);
    CellPair(c1, r1, c2, r2);
    CellRef(c1, r1);
    CellRef(c2, r2);
  }

  lemma DragPrefix(x: string)
    ensures StartsWith("SELECTANDDRAG" + [' '] + x, "SELECTANDDRAG")
  {
    assert ("SELECTANDDRAG" + [' '] + x)[..13] == "SELECTANDDRAG";
  }

  lemma DragLine(a: Action)
    requires a.SelectAndDrag? && WellFormed(a)
    ensures VerbLine(a) == "SELECTANDDRAG" + [' '] + (a.col1 + a.row1 + ":" + a.targetCol + a.targetRow)
  {
    ParamsShape(a, '\n');
  }

  lemma EntryDrag(e: string, a: Action)
    requires a.SelectAndDrag? && WellFormed(a)
    requires MatchEntry(e) == Some((RegText(a.reg), VerbLine(a)))
    ensures ParseEntry(e) == Success(Canon(a))
  {
    DragLine(a);
    var x := a.col1 + a.row1 + ":" + a.targetCol + a.targetRow;
    DragPrefix(x);
    DispatchDrag(e, RegText(a.reg), VerbLine(a));
    DragPart(RegText(a.reg), a.col1, a.row1, a.targetCol, a.targetRow);
  }

  lemma FormatPrefixes(x: string)
    requires Trimmed(x)
    ensures var l := "FORMAT" + [' '] + x;
      !StartsWith(l, "SELECTANDDRAG") && !StartsWith(l, "SELECT") && StartsWith(l, "FORMAT")
      && Trim(l[6..]) == x
  {
    var l := "FORMAT" + [' '] + x;
    NotStartsWith(l, "SELECTANDDRAG", 0);
    NotStartsWith(l, "SELECT", 0);
    assert l[..6] == "FORMAT";
    assert l[6..] == [' '] + x;
    TrimSpacePrefix(x);
  }

  lemma FormatBuild(reg: string, part: string, a: Action)
    requires a.Format? && WellFormed(a) && reg == RegText(a.reg)
    requires StartsWith(part, "FORMAT") && ParseFormatParams(Trim(part[6..])) == Success(FieldsOf(Canon(a)))
    ensures ParseFormat(reg, part) == Success(Canon(a))
  {
    RegShape(a.reg);
  }

  lemma FormatLine(a: Action)
    requires a.Format? && WellFormed(a)
    ensures VerbLine(a) == "FORMAT" + [' '] + ParamsText(a) && Trimmed(ParamsText(a))
  {
    ParamsShape(a, '\n');
  }

  lemma EntryFormat(e: string, a: Action)
    requires a.Format? && WellFormed(a)
    requires MatchEntry(e) == Some((RegText(a.reg), VerbLine(a)))
    ensures ParseEntry(e) == Success(Canon(a))
  {
    FormatLine(a);
    FormatPrefixes(ParamsText(a));
    ParseFormatParamsText(a);
    FormatBuild(RegText(a.reg), VerbLine(a), a);
    DispatchFormat(e, RegText(a.reg), VerbLine(a));
  }

  /** A free-text verb line is told apart from every verb tried before it. */
  lemma TextPrefixes(l: string, v: string)
    requires v == "SET" || v == "TOOLACTION" || v == "TELLUSER" || v == "TERMINATE"
    requires StartsWith(l, v)
    ensures !StartsWith(l, "SELECTANDDRAG") && !StartsWith(l, "SELECT") && !StartsWith(l, "FORMAT")
    ensures v != "SET" ==> !StartsWith(l, "SET")
    ensures v != "SET" && v != "TOOLACTION" ==> !StartsWith(l, "TOOLACTION")
    ensures v == "TERMINATE" ==> !StartsWith(l, "TELLUSER")
  {
    assert l[..|v|] == v;
    assert l[0] == v[0] && l[1] == v[1] && l[2] == v[2];
    if v == "SET" {
      NotStartsWith(l, "SELECTANDDRAG", 2);
      NotStartsWith(l, "SELECT", 2);
    } else {
      NotStartsWith(l, "SELECTANDDRAG", 0);
      NotStartsWith(l, "SELECT", 0);
      NotStartsWith(l, "SET", 0);
      if v != "TOOLACTION" {
        NotStartsWith(l, "TOOLACTION", 1);
      }
      if v == "TERMINATE" {
        NotStartsWith(l, "TELLUSER", 2);
      }
    }
    NotStartsWith(l, "FORMAT", 0);
  }

  /** The free-text verbs keep what follows the verb, stripped. */
  lemma TextLine(a: Action)
    requires (a.Set? || a.ToolAction? || a.TellUser? || a.Terminate?) && WellFormed(a)
    ensures StartsWith(VerbLine(a), Verb(a))
    ensures a.Set? ==> Canon(a) == Set(Some(RegText(a.reg)), Trim(VerbLine(a)[3..]))
    ensures a.ToolAction? ==> Canon(a) == ToolAction(Some(RegText(a.reg)), Trim(VerbLine(a)[10..]))
    ensures a.TellUser? ==> Canon(a) == TellUser(Some(RegText(a.reg)), Trim(VerbLine(a)[8..]))
    ensures a.Terminate? ==> Canon(a) == Terminate(Some(RegText(a.reg)))
  {
    ParamsShape(a, '\n');
    VerbShape(a);
    TrimAfterVerb(Verb(a), ParamsText(a));
  }

  lemma EntryText(e: string, a: Action)
    requires (a.Set? || a.ToolAction? || a.TellUser? || a.Terminate?) && WellFormed(a)
    requires MatchEntry(e) == Some((RegText(a.reg), VerbLine(a)))
    ensures ParseEntry(e) == Success(Canon(a))
  {
    var l := VerbLine(a);
    var r := RegText(a.reg);
    TextLine(a);
    TextPrefixes(l, Verb(a));
    if a.Set? {
      DispatchSet(e, r, l);
    } else if a.ToolAction? {
      DispatchTool(e, r, l);
    } else if a.TellUser? {
      DispatchTell(e, r, l);
    } else {
      DispatchTerminate(e, r, l);
    }
  }

  lemma VerbLineShape(a: Action, sep: char)
    requires WellFormed(a) && (sep == ';' || sep == '\n')
    ensures VerbLine(a) != [] && Trimmed(VerbLine(a)) && HasNo(VerbLine(a), sep)
  {
    var v := Verb(a);
    var p := ParamsText(a);
    ParamsShape(a, sep);
    VerbShape(a);
    assert HasNo(v, sep);
    if p != [] {
      HasNoConcat(v, [' '], sep);
      HasNoConcat(v + [' '], p, sep);
    }
  }

  // ---------------------------------------------------------- round trip

  /** `parse_action_entry(a.to_string())` rebuilds `a` up to its canonical
      form, for every well-formed action. */
  lemma ParseEntryToString(a: Action)
    requires WellFormed(a)
    ensures ParseEntry(ToString(a)) == Success(Canon(a))
  {
    var e := ToString(a);
    RegShape(a.reg);
    VerbLineShape(a, '\n');
    LineShape(a);
    MatchEntryLine(e, RegText(a.reg), VerbLine(a));
    if a.Select? || a.Read? {
      EntryRange(e, a);
    } else if a.SelectAndDrag? {
      EntryDrag(e, a);
    } else if a.Format? {
      EntryFormat(e, a);
    } else {
      EntryText(e, a);
    }
  }

  // ------------------------------------------------------------------ lists

  function CanonAll(actions: seq<Action>): (r: seq<Action>)
    ensures |r| == |actions|
    ensures forall k :: 0 <= k < |actions| ==> r[k] == Canon(actions[k])
  {
    if actions == [] then [] else [Canon(actions[0])] + CanonAll(actions[1..])
  }

  /** A written action has neither entry separator in it and is not blank. */
  lemma ToStringShape(a: Action)
    requires WellFormed(a)
    ensures NoneIn(ToString(a), {';', '\n'}) && Trim(ToString(a)) != []
  {
    var r := RegText(a.reg);
    var v := Verb(a);
    var p := ParamsText(a);
    RegShape(a.reg);
    VerbShape(a);
    ParamsShape(a, ';');
    ParamsShape(a, '\n');
    var e := ToString(a);
    assert e == "REGEX " + r + " | " + v + " " + p;
    forall i | 0 <= i < |e| ensures e[i] !in {';', '\n'} {
      if i < 6 {
      } else if i < 6 + |r| {
        assert e[i] == r[i - 6];
      } else if i < 9 + |r| {
      } else if i < 9 + |r| + |v| {
        assert e[i] == v[i - 9 - |r|];
      } else if i == 9 + |r| + |v| {
      } else {
        assert e[i] == p[i - 10 - |r| - |v|];
      }
    }
    LineShape(a);
    VerbLineShape(a, '\n');
  }

  lemma {:induction false} ParseEntriesWritten(actions: seq<Action>)
    requires forall k :: 0 <= k < |actions| ==> WellFormed(actions[k])
    ensures ParseEntries(ToStrings(actions)) == Success(CanonAll(actions))
    decreases |actions|
  {
    if actions != [] {
      var es := ToStrings(actions);
      assert es[1..] == ToStrings(actions[1..]);
      ToStringShape(actions[0]);
      ParseEntryToString(actions[0]);
      ParseEntriesWritten(actions[1..]);
    }
  }

  /** A non-empty written list splits back into its lines. */
  lemma SplitWritten(actions: seq<Action>)
    requires actions != []
    requires forall k :: 0 <= k < |actions| ==> WellFormed(actions[k])
    ensures SplitAny(ActionListToStr(actions), {';', '\n'}) == ToStrings(actions)
  {
    var es := ToStrings(actions);
    forall k | 0 <= k < |es| ensures NoneIn(es[k], {';', '\n'}) {
      ToStringShape(actions[k]);
    }
    SplitJoin(es, '\n', {';', '\n'});
  }

  /** The empty text is the empty list. */
  lemma ParseEmptyString()
    ensures ParseActionString("") == Success([])
  {
    var es := SplitAny("", {';', '\n'});
    assert es == [""];
    assert Trim(es[0]) == [];
    ParseEntriesBlankHead(es);
    assert es[1..] == [];
  }

  /** A blank entry is skipped. */
  lemma ParseEntriesBlankHead(entries: seq<string>)
    requires entries != [] && Trim(entries[0]) == []
    ensures ParseEntries(entries) == ParseEntries(entries[1..])
  {
  }

  /** `parse_action_string(action_list_to_str(actions))` gives back every
      action, in order, in canonical form. */
  lemma ParseListToString(actions: seq<Action>)
    requires forall k :: 0 <= k < |actions| ==> WellFormed(actions[k])
    ensures ParseActionString(ActionListToStr(actions)) == Success(CanonAll(actions))
  {
    if actions == [] {
      assert ActionListToStr(actions) == "";
      ParseEmptyString();
    } else {
      SplitWritten(actions);
      ParseEntriesWritten(actions);
    }
  }

  // ------------------------------------------------------------- rejection

  predicate EntriesParse(entries: seq<string>) {
    forall k :: 0 <= k < |entries| && Trim(entries[k]) != [] ==> ParseEntry(entries[k]).Success?
  }

  /** One step of the list parser: a parsed list's tail parses, and so does
      its head unless it is blank. */
  lemma ParseEntriesStep(entries: seq<string>)
    requires entries != [] && ParseEntries(entries).Success?
    ensures ParseEntries(entries[1..]).Success?
    ensures Trim(entries[0]) != [] ==> ParseEntry(entries[0]).Success?
  {
  }

  lemma {:induction false} ParsedEntriesParse(entries: seq<string>)
    requires ParseEntries(entries).Success?
    ensures EntriesParse(entries)
    decreases |entries|
  {
    if entries != [] {
      var tail := entries[1..];
      ParseEntriesStep(entries);
      ParsedEntriesParse(tail);
      forall k | 0 <= k < |entries| && Trim(entries[k]) != [] ensures ParseEntry(entries[k]).Success? {
        if k > 0 {
          assert entries[k] == tail[k - 1];
        }
      }
    }
  }

  lemma {:induction false} EntriesParseParsed(entries: seq<string>)
    requires EntriesParse(entries)
    ensures ParseEntries(entries).Success?
    decreases |entries|
  {
    if entries != [] {
      var tail := entries[1..];
      forall k | 0 <= k < |tail| && Trim(tail[k]) != [] ensures ParseEntry(tail[k]).Success? {
        assert tail[k] == entries[k + 1];
      }
      EntriesParseParsed(tail);
    }
  }

  /** A list parses exactly when each of its non-blank entries does. */
  lemma ParseEntriesAll(entries: seq<string>)
    ensures ParseEntries(entries).Success? <==> EntriesParse(entries)
  {
    if ParseEntries(entries).Success? {
      ParsedEntriesParse(entries);
    }
    if EntriesParse(entries) {
      EntriesParseParsed(entries);
    }
  }

  /** A failure carries the list-level prefix; success keeps one action
      per non-blank entry. */
  lemma {:induction false} ParseEntriesShape(entries: seq<string>)
    ensures ParseEntries(entries).Failure? ==> StartsWith(ParseEntries(entries).error, "Error parsing action string: ")
    ensures ParseEntries(entries).Success? ==> |ParseEntries(entries).value| == NonBlank(entries)
    decreases |entries|
  {
    if entries != [] {
      ParseEntriesShape(entries[1..]);
      if Trim(entries[0]) != [] {
        var h := ParseEntry(entries[0]);
        if h.Failure? {
          StartsWithConcat("Error parsing action string: ", h.error);
        }
      }
    }
  }

  /** How many entries are not blank. */
  function NonBlank(entries: seq<string>): (n: nat)
    ensures n <= |entries|
  {
    if entries == [] then 0 else (if Trim(entries[0]) == [] then 0 else 1) + NonBlank(entries[1..])
  }

  /** An entry that does not start with `REGEX` is rejected. */
  lemma NoRegexFails(e: string)
    requires !StartsWith(Trim(e), "REGEX")
    ensures ParseEntry(e) == Failure("Invalid action entry: " + e)
  {
  }
}
