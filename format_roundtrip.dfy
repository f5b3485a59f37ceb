/** The Format parameter list reads back: splitting the written parameter
    string at commas outside braces, stripping the parts and applying them
    one by one rebuilds the record's fields. */
module FormatRoundTrip {
  import opened Wrappers
  import opened Text
  import opened ActionSchema
  import opened ActionParse

  // ------------------------------------------------------------ lookahead

  predicate NoBraces(x: string) {
    HasNo(x, '{') && HasNo(x, '}')
  }

  /** How the brace lookahead sees a concatenation. */
  lemma {:induction false} ClosesAheadConcat(x: string, y: string)
    ensures ClosesAhead(x + y) == (ClosesAhead(x) || (NoBraces(x) && ClosesAhead(y)))
    decreases |x|
  {
    if x == [] {
      assert x + y == y;
    } else {
      assert (x + y)[1..] == x[1..] + y;
      ClosesAheadConcat(x[1..], y);
      if x[0] != '{' && x[0] != '}' {
        assert NoBraces(x) == NoBraces(x[1..]) by {
          if NoBraces(x[1..]) {
            forall i | 0 <= i < |x| ensures x[i] != '{' && x[i] != '}' {
              if i > 0 { assert x[i] == x[1..][i - 1]; }
            }
          }
        }
      }
    }
  }

  lemma {:induction false} NoCloseWithoutBrace(x: string)
    requires HasNo(x, '}')
    ensures !ClosesAhead(x)
    decreases |x|
  {
    if x != [] {
      NoCloseWithoutBrace(x[1..]);
    }
  }

  /** Every comma of a part is inside braces: the splitter leaves it. */
  predicate CommasClosed(x: string) {
    forall i :: 0 <= i < |x| && x[i] == ',' ==> ClosesAhead(x[i + 1..])
  }

  /** What a parameter part must satisfy to come back whole. */
  predicate PartOk(x: string) {
    Trimmed(x) && !ClosesAhead(x) && CommasClosed(x)
  }

  lemma {:induction false} SplitParamsPrefix(p: string, s: string)
    requires CommasClosed(p)
    ensures SplitParams(p + s) == [p + SplitParams(s)[0]] + SplitParams(s)[1..]
    decreases |p|
  {
    var r := SplitParams(s);
    if p == [] {
      assert p + s == s;
      assert p + r[0] == r[0];
      assert [r[0]] + r[1..] == r;
    } else {
      assert (p + s)[1..] == p[1..] + s;
      assert CommasClosed(p[1..]) by {
        forall i | 0 <= i < |p[1..]| && p[1..][i] == ','
          ensures ClosesAhead(p[1..][i + 1..])
        {
          assert p[i + 1] == ',';
          assert p[1..][i + 1..] == p[i + 2..];
        }
      }
      if p[0] == ',' {
        ClosesAheadConcat(p[1..], s);
      }
      SplitParamsPrefix(p[1..], s);
      assert [p[0]] + (p[1..] + r[0]) == p + r[0];
    }
  }

  lemma {:induction false} JoinNotCloses(xs: seq<string>)
    requires |xs| >= 1 && forall k :: 0 <= k < |xs| ==> !ClosesAhead(xs[k])
    ensures !ClosesAhead(Join(xs, ", "))
    decreases |xs|
  {
    if |xs| > 1 {
      var j := Join(xs[1..], ", ");
      JoinNotCloses(xs[1..]);
      assert Join(xs, ", ") == xs[0] + (", " + j);
      ClosesAheadConcat(xs[0], ", " + j);
      ClosesAheadConcat(", ", j);
    }
  }

  /** A comma followed by text that does not close a brace splits. */
  lemma SplitParamsCons(x: string, j: string)
    requires CommasClosed(x) && !ClosesAhead(j)
    ensures SplitParams(x + (", " + j)) == [x] + SplitParams([' '] + j)
  {
    var tail := [' '] + j;
    var s := [','] + tail;
    assert ", " + j == s;
    SplitParamsPrefix(x, s);
    ClosesAheadConcat([' '], j);
    assert s[1..] == tail;
    assert SplitParams(s) == [""] + SplitParams(tail);
    assert x + "" == x;
  }

  /** A leading space only pads the first piece, which stripping removes. */
  lemma TrimAllSpaced(j: string)
    ensures TrimAll(SplitParams([' '] + j)) == TrimAll(SplitParams(j))
  {
    SplitParamsPrefix([' '], j);
    var r := SplitParams(j);
    TrimSpacePrefix(r[0]);
    assert TrimAll(SplitParams([' '] + j)) == [Trim(r[0])] + TrimAll(r[1..]);
    assert TrimAll(r) == [Trim(r[0])] + TrimAll(r[1..]);
  }

  lemma SplitParamsSingle(x: string)
    requires PartOk(x)
    ensures TrimAll(SplitParams(x)) == [x]
  {
    SplitParamsPrefix(x, []);
    assert x + [] == x;
    assert SplitParams([]) == [""];
    assert SplitParams(x) == [x];
  }

  lemma SplitParamsStep(x: string, j: string, ys: seq<string>)
    requires PartOk(x) && !ClosesAhead(j) && TrimAll(SplitParams(j)) == ys
    ensures TrimAll(SplitParams(x + (", " + j))) == [x] + ys
  {
    SplitParamsCons(x, j);
    TrimAllSpaced(j);
    var t := SplitParams([' '] + j);
    assert TrimAll([x] + t) == [Trim(x)] + TrimAll(t);
  }

  /** Splitting `", ".join(xs)` at commas outside braces and stripping the
      pieces gives `xs` back. */
  lemma {:induction false} SplitParamsJoin(xs: seq<string>)
    requires |xs| >= 1 && forall k :: 0 <= k < |xs| ==> PartOk(xs[k])
    ensures TrimAll(SplitParams(Join(xs, ", "))) == xs
    decreases |xs|
  {
    if |xs| == 1 {
      SplitParamsSingle(xs[0]);
    } else {
      var j := JoinComma(xs);
      JoinNotCloses(xs[1..]);
      SplitParamsJoin(xs[1..]);
      SplitParamsStep(xs[0], j, xs[1..]);
      assert [xs[0]] + xs[1..] == xs;
    }
  }

  /** One unfolding of `", ".join(xs)`, grouped as the splitting lemmas use it. */
  lemma JoinComma(xs: seq<string>) returns (j: string)
    requires |xs| > 1
    ensures j == Join(xs[1..], ", ") && Join(xs, ", ") == xs[0] + (", " + j)
  {
    j := Join(xs[1..], ", ");
  }

  // ---------------------------------------------------------- the parts

  /** A key that starts with a non-space and holds no brace and no comma. */
  predicate PlainKey(key: string) {
    |key| > 0 && !IsSpace(key[0]) && NoBraces(key) && HasNo(key, ',')
  }

  lemma PlainKeys()
    ensures PlainKey("style: ") && PlainKey("color: ") && PlainKey("size: ")
    ensures PlainKey("alignment: ") && PlainKey("wrap: ") && PlainKey("value_format: ")
  {
  }

  lemma SimplePartOk(key: string, v: string)
    requires PlainKey(key)
    requires |v| > 0 && Trimmed(v) && NoBraces(v) && HasNo(v, ',')
    ensures PartOk(key + v)
  {
    var x := key + v;
    assert x[0] == key[0] && x[|x| - 1] == v[|v| - 1];
    HasNoConcat(key, v, '}');
    HasNoConcat(key, v, ',');
    NoCloseWithoutBrace(x);
  }

  lemma BorderBodyOk(b: Border)
    requires BorderOk(b)
    ensures NoBraces(Join(BorderItems(b), ", "))
  {
    var items := BorderItems(b);
    forall k | 0 <= k < |items| ensures NoBraces(items[k]) {
      HasNoConcat(b[k].0, ": ", '{');
      HasNoConcat(b[k].0 + ": ", BoolString(b[k].1), '{');
      HasNoConcat(b[k].0, ": ", '}');
      HasNoConcat(b[k].0 + ": ", BoolString(b[k].1), '}');
    }
    HasNoJoin(items, ", ", '{');
    HasNoJoin(items, ", ", '}');
  }

  /** Every comma of the written border item closes its brace ahead. */
  lemma BorderCommasClosed(b: Border)
    requires BorderOk(b)
    ensures CommasClosed(BorderText(b))
  {
    var body := Join(BorderItems(b), ", ");
    BorderBodyOk(b);
    var x := BorderText(b);
    assert x == "border: { " + body + " }";
    forall i | 0 <= i < |x| && x[i] == ',' ensures ClosesAhead(x[i + 1..]) {
      assert 10 <= i < 10 + |body|;
      assert x[i + 1..] == body[i - 9..] + " }";
      assert NoBraces(body[i - 9..]);
      ClosesAheadConcat(body[i - 9..], " }");
    }
  }

  /** No closing brace is ahead of a text that opens one before closing. */
  lemma NotClosingBeforeOpen(pre: string, rest: string)
    requires HasNo(pre, '}') && rest != [] && rest[0] == '{'
    ensures !ClosesAhead(pre + rest)
  {
    ClosesAheadConcat(pre, rest);
    NoCloseWithoutBrace(pre);
  }

  lemma BorderPartOk(b: Border)
    requires BorderOk(b)
    ensures PartOk(BorderText(b))
  {
    var x := BorderText(b);
    assert Trimmed(x) by {
      assert x[0] == 'b' && x[|x| - 1] == '}';
    }
    assert !ClosesAhead(x) by {
      assert x[..8] == "border: " && x[8] == '{';
      assert x == x[..8] + x[8..];
      NotClosingBeforeOpen(x[..8], x[8..]);
    }
    BorderCommasClosed(b);
  }

  // ------------------------------------------------------ reading a part

  /** `d[k] = v` for every item of `b`, in order. */
  function PutAll(acc: Border, b: Border): Border
    decreases |b|
  {
    if b == [] then acc else PutAll(Put(acc, b[0].0, b[0].1), b[1..])
  }

  /** What reading one written item does to the fields. */
  function SetParam(f: FormatFields, p: Param): FormatFields {
    match p
    case PStyle(s) => f.(style := Some(s))
    case PColor(s) => f.(color := Some(s))
    case PSize(n) => f.(size := Some(n))
    case PAlignment(s) => f.(alignment := Some(s))
    case PBorder(b) => f.(border := PutAll(f.border, b))
    case PWrap(w) => f.(wrap := Some(w))
    case PValueFormat(s) => f.(valueFormat := Some(s))
  }

  function SetParams(f: FormatFields, ps: seq<Param>): FormatFields
    decreases |ps|
  {
    if ps == [] then f else SetParams(SetParam(f, ps[0]), ps[1..])
  }

  /** The items `FormatParams` writes for a well-formed record. */
  predicate ParamOk(p: Param) {
    match p
    case PStyle(s) => s != "" && ValueText(s)
    case PColor(s) => s != "" && ValueText(s)
    case PSize(_) => true
    case PAlignment(s) => s != "" && ValueText(s)
    case PBorder(b) => b != [] && BorderOk(b)
    case PWrap(_) => true
    case PValueFormat(s) => s != "" && ValueText(s)
  }

  lemma BorderItemSplit(k: string, v: bool)
    requires BorderKey(k)
    ensures SplitAny(k + ": " + BoolString(v), {':'}) == [k, " " + BoolString(v)]
  {
    var w := " " + BoolString(v);
    assert k + ": " + BoolString(v) == Join([k, w], ":");
    SplitJoin([k, w], ':', {':'});
  }

  /** One step of the item reader, on an item that splits in two. */
  lemma ParseBorderItemsCons(acc: Border, item: string, rest: seq<string>, kp: string, vp: string)
    requires SplitAny(item, {':'}) == [kp, vp]
    ensures ParseBorderItems(acc, [item] + rest) == ParseBorderItems(Put(acc, Trim(kp), Trim(vp) == "True"), rest)
  {
    assert ([item] + rest)[0] == item && ([item] + rest)[1..] == rest;
  }

  /** Reading one `side: flag` item. */
  lemma ReadBorderItem(acc: Border, k: string, v: bool, rest: seq<string>)
    requires BorderKey(k)
    ensures ParseBorderItems(acc, [k + ": " + BoolString(v)] + rest) == ParseBorderItems(Put(acc, k, v), rest)
  {
    BorderItemSplit(k, v);
    ParseBorderItemsCons(acc, k + ": " + BoolString(v), rest, k, " " + BoolString(v));
    SpacedFlag(v);
  }

  /** A written flag after the separator's space reads back as itself. */
  lemma SpacedFlag(v: bool)
    ensures Trim(" " + BoolString(v)) == BoolString(v) && (BoolString(v) == "True") == v
  {
    TrimSpacePrefix(BoolString(v));
    FlagTrimmed(v);
  }

  lemma FlagTrimmed(v: bool)
    ensures Trimmed(BoolString(v))
  {
    var w := BoolString(v);
    assert w[0] == (if v then 'T' else 'F') && w[|w| - 1] == 'e';
  }

  lemma {:induction false} ParseBorderItemsOf(acc: Border, b: Border)
    requires forall k :: 0 <= k < |b| ==> BorderKey(b[k].0)
    ensures ParseBorderItems(acc, BorderItems(b)) == Success(PutAll(acc, b))
    decreases |b|
  {
    if b != [] {
      var items := BorderItems(b);
      assert items == [b[0].0 + ": " + BoolString(b[0].1)] + BorderItems(b[1..]);
      ReadBorderItem(acc, b[0].0, b[0].1, BorderItems(b[1..]));
      ParseBorderItemsOf(Put(acc, b[0].0, b[0].1), b[1..]);
    }
  }

  lemma BorderItemShape(k: string, v: bool)
    requires BorderKey(k)
    ensures Trimmed(k + ": " + BoolString(v)) && HasNo(k + ": " + BoolString(v), ',')
  {
    var x := k + ": " + BoolString(v);
    assert x[|x| - 1] == 'e';
    assert k != [] ==> x[0] == k[0];
    HasNoConcat(k, ": ", ',');
    HasNoConcat(k + ": ", BoolString(v), ',');
  }

  lemma BorderItemsShape(b: Border)
    requires forall k :: 0 <= k < |b| ==> BorderKey(b[k].0)
    ensures forall k :: 0 <= k < |b| ==> Trimmed(BorderItems(b)[k]) && HasNo(BorderItems(b)[k], ',')
  {
    var items := BorderItems(b);
    forall k | 0 <= k < |b| ensures Trimmed(items[k]) && HasNo(items[k], ',') {
      BorderItemShape(b[k].0, b[k].1);
    }
  }

  lemma BorderTextShape(b: Border)
    ensures StartsWith(BorderText(b), "border: {") && EndsWith(BorderText(b), "}")
    ensures BorderText(b)[9..|BorderText(b)| - 1] == [' '] + Join(BorderItems(b), ", ") + [' ']
  {
    var x := BorderText(b);
    assert x[..9] == "border: {";
  }

  /** A part starting with `b` is only read by the border branch. */
  lemma ApplyBorderPart(f: FormatFields, x: string)
    requires |x| >= 10 && x[0] == 'b'
    requires StartsWith(x, "border: {") && EndsWith(x, "}")
    ensures ApplyPart(f, x) ==
      match ParseBorderItems(f.border, TrimAll(SplitAny(x[9..|x| - 1], {','})))
      case Failure(e) => Failure(e)
      case Success(b) => Success(f.(border := b))
  {
    NotStartsWith(x, "style: ", 0);
    NotStartsWith(x, "color: ", 0);
    NotStartsWith(x, "size: ", 0);
    NotStartsWith(x, "alignment: ", 0);
    NotStartsWith(x, "wrap: ", 0);
    NotStartsWith(x, "value_format: ", 0);
  }

  lemma ApplyBorderText(f: FormatFields, b: Border)
    requires b != [] && forall k :: 0 <= k < |b| ==> BorderKey(b[k].0)
    ensures ApplyPart(f, BorderText(b)) == Success(f.(border := PutAll(f.border, b)))
  {
    var x := BorderText(b);
    var items := BorderItems(b);
    BorderTextShape(b);
    ApplyBorderPart(f, x);
    BorderItemsShape(b);
    SplitPaddedCommaList(items);
    ParseBorderItemsOf(f.border, b);
  }

  /** Each written item is read back into its own field. */
  lemma ApplyParamText(f: FormatFields, p: Param)
    requires ParamOk(p)
    ensures ApplyPart(f, ParamText(p)) == Success(SetParam(f, p))
  {
    var x := ParamText(p);
    match p {
      case PStyle(s) =>
        StartsWithConcat("style: ", s);
      case PColor(s) =>
        NotStartsWith(x, "style: ", 0);
        StartsWithConcat("color: ", s);
      case PSize(n) =>
        NotStartsWith(x, "style: ", 1);
        NotStartsWith(x, "color: ", 0);
        StartsWithConcat("size: ", IntToString(n));
        IntRoundTrip(n);
      case PAlignment(s) =>
        NotStartsWith(x, "style: ", 0);
        NotStartsWith(x, "color: ", 0);
        NotStartsWith(x, "size: ", 0);
        StartsWithConcat("alignment: ", s);
      case PBorder(b) =>
        ApplyBorderText(f, b);
      case PWrap(w) =>
        NotStartsWith(x, "style: ", 0);
        NotStartsWith(x, "color: ", 0);
        NotStartsWith(x, "size: ", 0);
        NotStartsWith(x, "alignment: ", 0);
        StartsWithConcat("wrap: ", BoolString(w));
      case PValueFormat(s) =>
        NotStartsWith(x, "style: ", 0);
        NotStartsWith(x, "color: ", 0);
        NotStartsWith(x, "size: ", 0);
        NotStartsWith(x, "alignment: ", 0);
        NotStartsWith(x, "wrap: ", 0);
        StartsWithConcat("value_format: ", s);
    }
  }

  lemma ParamPartOk(p: Param)
    requires ParamOk(p)
    ensures PartOk(ParamText(p))
  {
    PlainKeys();
    match p {
      case PStyle(s) => SimplePartOk("style: ", s);
      case PColor(s) => SimplePartOk("color: ", s);
      case PSize(n) => SimplePartOk("size: ", IntToString(n));
      case PAlignment(s) => SimplePartOk("alignment: ", s);
      case PBorder(b) => BorderPartOk(b);
      case PWrap(w) => SimplePartOk("wrap: ", BoolString(w));
      case PValueFormat(s) => SimplePartOk("value_format: ", s);
    }
  }

  // ---------------------------------------------------- the whole list

  lemma {:induction false} ApplyPartsOf(f: FormatFields, ps: seq<Param>)
    requires forall p :: p in ps ==> ParamOk(p)
    ensures ApplyParts(f, ParamTexts(ps)) == Success(SetParams(f, ps))
    decreases |ps|
  {
    if ps != [] {
      ApplyParamText(f, ps[0]);
      assert ParamTexts(ps)[1..] == ParamTexts(ps[1..]);
      ApplyPartsOf(SetParam(f, ps[0]), ps[1..]);
    }
  }

  lemma PutFresh(acc: Border, k: string, v: bool)
    requires forall i :: 0 <= i < |acc| ==> acc[i].0 != k
    ensures Put(acc, k, v) == acc + [(k, v)]
    decreases |acc|
  {
    if acc != [] {
      PutFresh(acc[1..], k, v);
    }
  }

  /** Keys that are all different go into an empty dictionary in order. */
  lemma {:induction false} PutAllFresh(acc: Border, b: Border)
    requires forall i, j :: 0 <= i < j < |b| ==> b[i].0 != b[j].0
    requires forall i, j :: 0 <= i < |acc| && 0 <= j < |b| ==> acc[i].0 != b[j].0
    ensures PutAll(acc, b) == acc + b
    decreases |b|
  {
    if b == [] {
      assert acc + b == acc;
    } else {
      assert forall i :: 0 <= i < |acc| ==> acc[i].0 != b[0].0;
      PutFresh(acc, b[0].0, b[0].1);
      var acc' := acc + [b[0]];
      var b' := b[1..];
      forall i, j | 0 <= i < |acc'| && 0 <= j < |b'| ensures acc'[i].0 != b'[j].0 {
        assert b'[j] == b[j + 1];
        if i < |acc| {
          assert acc'[i] == acc[i];
        } else {
          assert acc'[i] == b[0];
        }
      }
      forall i, j | 0 <= i < j < |b'| ensures b'[i].0 != b'[j].0 {
        assert b'[i] == b[i + 1] && b'[j] == b[j + 1];
      }
      PutAllFresh(acc', b');
      assert acc' + b' == acc + b;
    }
  }

  lemma ThenOk(p: Option<Param>, rest: seq<Param>)
    requires (p.Some? ==> ParamOk(p.value)) && forall q :: q in rest ==> ParamOk(q)
    ensures forall q :: q in Then(p, rest) ==> ParamOk(q)
  {
  }

  lemma FormatParamsOk(a: Action)
    requires a.Format? && WellFormed(a)
    ensures forall p :: p in FormatParams(a) ==> ParamOk(p)
  {
    var o7 := if Truthy(a.valueFormat) then Some(PValueFormat(a.valueFormat.value)) else None;
    ThenOk(o7, []);
    var l7 := Then(o7, []);
    var o6 := if a.wrap.Some? then Some(PWrap(a.wrap.value)) else None;
    ThenOk(o6, l7);
    var l6 := Then(o6, l7);
    var o5 := if a.border.Some? && a.border.value != [] then Some(PBorder(a.border.value)) else None;
    ThenOk(o5, l6);
    var l5 := Then(o5, l6);
    var o4 := if Truthy(a.alignment) then Some(PAlignment(a.alignment.value)) else None;
    ThenOk(o4, l5);
    var l4 := Then(o4, l5);
    var o3 := if a.size.Some? && a.size.value != 0 then Some(PSize(a.size.value)) else None;
    ThenOk(o3, l4);
    var l3 := Then(o3, l4);
    var o2 := if Truthy(a.color) then Some(PColor(a.color.value)) else None;
    ThenOk(o2, l3);
    var l2 := Then(o2, l3);
    var o1 := if a.style != "" then Some(PStyle(a.style)) else None;
    ThenOk(o1, l2);
    assert FormatParams(a) == Then(o1, l2);
  }

  /** The fields the parser fills in for a (canonical) Format record. */
  function FieldsOf(c: Action): FormatFields
    requires c.Format? && c.border.Some?
  {
    FormatFields(Some(c.style), c.color, c.size, c.alignment, c.wrap, c.valueFormat, c.border.value)
  }

  lemma SetThen(f: FormatFields, p: Option<Param>, rest: seq<Param>)
    ensures SetParams(f, Then(p, rest)) == SetParams(if p.Some? then SetParam(f, p.value) else f, rest)
  {
    if p.Some? {
      assert ([p.value] + rest)[1..] == rest;
    }
  }

  lemma SetStyle(f: FormatFields, a: Action, rest: seq<Param>)
    requires a.Format? && a.style != ""
    ensures SetParams(f, Then(Some(PStyle(a.style)), rest)) == SetParams(f.(style := Some(a.style)), rest)
  {
    SetThen(f, Some(PStyle(a.style)), rest);
  }

  lemma SetColor(f: FormatFields, a: Action, rest: seq<Param>)
    requires a.Format? && f.color.None?
    ensures SetParams(f, Then(if Truthy(a.color) then Some(PColor(a.color.value)) else None, rest))
         == SetParams(f.(color := Falsy(a.color)), rest)
  {
    SetThen(f, if Truthy(a.color) then Some(PColor(a.color.value)) else None, rest);
  }

  lemma SetSize(f: FormatFields, a: Action, rest: seq<Param>)
    requires a.Format? && f.size.None?
    ensures SetParams(f, Then(if a.size.Some? && a.size.value != 0 then Some(PSize(a.size.value)) else None, rest))
         == SetParams(f.(size := if a.size == Some(0) then None else a.size), rest)
  {
    SetThen(f, if a.size.Some? && a.size.value != 0 then Some(PSize(a.size.value)) else None, rest);
  }

  lemma SetAlignment(f: FormatFields, a: Action, rest: seq<Param>)
    requires a.Format? && f.alignment.None?
    ensures SetParams(f, Then(if Truthy(a.alignment) then Some(PAlignment(a.alignment.value)) else None, rest))
         == SetParams(f.(alignment := Falsy(a.alignment)), rest)
  {
    SetThen(f, if Truthy(a.alignment) then Some(PAlignment(a.alignment.value)) else None, rest);
  }

  lemma SetBorder(f: FormatFields, a: Action, rest: seq<Param>)
    requires a.Format? && f.border == []
    requires a.border.Some? ==> forall i, j :: 0 <= i < j < |a.border.value| ==> a.border.value[i].0 != a.border.value[j].0
    ensures SetParams(f, Then(if a.border.Some? && a.border.value != [] then Some(PBorder(a.border.value)) else None, rest))
         == SetParams(f.(border := if a.border.None? then [] else a.border.value), rest)
  {
    SetThen(f, if a.border.Some? && a.border.value != [] then Some(PBorder(a.border.value)) else None, rest);
    if a.border.Some? && a.border.value != [] {
      PutAllFresh([], a.border.value);
      assert [] + a.border.value == a.border.value;
    }
  }

  lemma SetWrap(f: FormatFields, a: Action, rest: seq<Param>)
    requires a.Format? && f.wrap.None?
    ensures SetParams(f, Then(if a.wrap.Some? then Some(PWrap(a.wrap.value)) else None, rest))
         == SetParams(f.(wrap := a.wrap), rest)
  {
    SetThen(f, if a.wrap.Some? then Some(PWrap(a.wrap.value)) else None, rest);
  }

  lemma SetValueFormat(f: FormatFields, a: Action)
    requires a.Format? && f.valueFormat.None?
    ensures SetParams(f, Then(if Truthy(a.valueFormat) then Some(PValueFormat(a.valueFormat.value)) else None, []))
         == f.(valueFormat := Falsy(a.valueFormat))
  {
    SetThen(f, if Truthy(a.valueFormat) then Some(PValueFormat(a.valueFormat.value)) else None, []);
  }

  /** The last four optional items fill alignment, border, wrap and value
      format of a record that has none of them yet. */
  lemma SetFormatTail(f: FormatFields, a: Action)
    requires a.Format? && f.alignment.None? && f.border == [] && f.wrap.None? && f.valueFormat.None?
    requires a.border.Some? ==> forall i, j :: 0 <= i < j < |a.border.value| ==> a.border.value[i].0 != a.border.value[j].0
    ensures SetParams(f,
              Then(if Truthy(a.alignment) then Some(PAlignment(a.alignment.value)) else None,
              Then(if a.border.Some? && a.border.value != [] then Some(PBorder(a.border.value)) else None,
              Then(if a.wrap.Some? then Some(PWrap(a.wrap.value)) else None,
              Then(if Truthy(a.valueFormat) then Some(PValueFormat(a.valueFormat.value)) else None, [])))))
         == f.(alignment := Falsy(a.alignment), border := if a.border.None? then [] else a.border.value,
               wrap := a.wrap, valueFormat := Falsy(a.valueFormat))
  {
    var B := if a.border.Some? && a.border.value != [] then Some(PBorder(a.border.value)) else None;
    var W := if a.wrap.Some? then Some(PWrap(a.wrap.value)) else None;
    var V := if Truthy(a.valueFormat) then Some(PValueFormat(a.valueFormat.value)) else None;
    var f4 := f.(alignment := Falsy(a.alignment));
    var f5 := f4.(border := if a.border.None? then [] else a.border.value);
    var f6 := f5.(wrap := a.wrap);
    SetAlignment(f, a, Then(B, Then(W, Then(V, []))));
    SetBorder(f4, a, Then(W, Then(V, [])));
    SetWrap(f5, a, Then(V, []));
    SetValueFormat(f6, a);
  }

  /** The items of a record with a style, one optional item after another. */
  lemma FormatParamsShape(a: Action)
    requires a.Format? && a.style != ""
    ensures FormatParams(a) == Then(Some(PStyle(a.style)),
      Then(if Truthy(a.color) then Some(PColor(a.color.value)) else None,
      Then(if a.size.Some? && a.size.value != 0 then Some(PSize(a.size.value)) else None,
      Then(if Truthy(a.alignment) then Some(PAlignment(a.alignment.value)) else None,
      Then(if a.border.Some? && a.border.value != [] then Some(PBorder(a.border.value)) else None,
      Then(if a.wrap.Some? then Some(PWrap(a.wrap.value)) else None,
      Then(if Truthy(a.valueFormat) then Some(PValueFormat(a.valueFormat.value)) else None, [])))))))
  {
  }

  /** The fields of the canonical record, one by one. */
  lemma CanonFields(a: Action)
    requires a.Format?
    ensures FieldsOf(Canon(a))
         == NoFields.(style := Some(a.style), color := Falsy(a.color),
                      size := if a.size == Some(0) then None else a.size,
                      alignment := Falsy(a.alignment), border := if a.border.None? then [] else a.border.value,
                      wrap := a.wrap, valueFormat := Falsy(a.valueFormat))
  {
  }

  /** Reading the written items one by one fills exactly the canonical
      record's fields. */
  lemma SetFormatParams(a: Action)
    requires a.Format? && a.style != ""
    requires a.border.Some? ==> forall i, j :: 0 <= i < j < |a.border.value| ==> a.border.value[i].0 != a.border.value[j].0
    ensures SetParams(NoFields, FormatParams(a)) == FieldsOf(Canon(a))
  {
    var C := if Truthy(a.color) then Some(PColor(a.color.value)) else None;
    var Z := if a.size.Some? && a.size.value != 0 then Some(PSize(a.size.value)) else None;
    var r4 := Then(if Truthy(a.alignment) then Some(PAlignment(a.alignment.value)) else None,
              Then(if a.border.Some? && a.border.value != [] then Some(PBorder(a.border.value)) else None,
              Then(if a.wrap.Some? then Some(PWrap(a.wrap.value)) else None,
              Then(if Truthy(a.valueFormat) then Some(PValueFormat(a.valueFormat.value)) else None, []))));
    var f1 := NoFields.(style := Some(a.style));
    var f2 := f1.(color := Falsy(a.color));
    var f3 := f2.(size := if a.size == Some(0) then None else a.size);
    FormatParamsShape(a);
    SetStyle(NoFields, a, Then(C, Then(Z, r4)));
    SetColor(f1, a, Then(Z, r4));
    SetSize(f2, a, r4);
    SetFormatTail(f3, a);
    CanonFields(a);
  }

  /** `parse_format_params` reads back what `Format._format_params` wrote. */
  lemma ParseFormatParamsText(a: Action)
    requires a.Format? && WellFormed(a)
    ensures ParseFormatParams(ParamsText(a)) == Success(FieldsOf(Canon(a)))
  {
    var ps := FormatParams(a);
    var texts := ParamTexts(ps);
    FormatParamsOk(a);
    forall k | 0 <= k < |texts| ensures PartOk(texts[k]) {
      assert ps[k] in ps;
      ParamPartOk(ps[k]);
    }
    SplitParamsJoin(texts);
    ApplyPartsOf(NoFields, ps);
    SetFormatParams(a);
  }
}
