/** The pieces of Python's string library the core relies on, written out:
    `strip`, `startswith`, `split`, `join`, `replace`, `int()` and `str()` on
    integers, and openpyxl's column-letter conversions. Whitespace is the
    ASCII part of `str.isspace` (the same set as the regex class `\s`). */
module Text {
  import opened Wrappers

  predicate IsSpace(c: char) {
    c == ' ' || c == '\t' || c == '\n' || c == '\r' || c == '\U{0B}' || c == '\U{0C}'
    || c == '\U{1C}' || c == '\U{1D}' || c == '\U{1E}' || c == '\U{1F}'
  }

  /** No whitespace at either end: what `strip()` leaves unchanged. */
  predicate Trimmed(s: string) {
    s == [] || (!IsSpace(s[0]) && !IsSpace(s[|s| - 1]))
  }

  predicate HasNo(s: string, c: char) {
    forall i :: 0 <= i < |s| ==> s[i] != c
  }

  // ---------------------------------------------------------------- strip

  /** `s.lstrip()`: drops the leading whitespace and nothing else. */
  function TrimLeft(s: string): (r: string)
    ensures |r| <= |s| && r == s[|s| - |r|..]
    ensures r == [] || !IsSpace(r[0])
  {
    if |s| > 0 && IsSpace(s[0]) then TrimLeft(s[1..]) else s
  }

  /** `s.rstrip()`: drops the trailing whitespace and nothing else. */
  function TrimRight(s: string): (r: string)
    ensures |r| <= |s| && r == s[..|r|]
    ensures r == [] || !IsSpace(r[|r| - 1])
  {
    if |s| > 0 && IsSpace(s[|s| - 1]) then TrimRight(s[..|s| - 1]) else s
  }

  /** `s.strip()`. */
  function Trim(s: string): (r: string)
    ensures Trimmed(r)
    ensures Trimmed(s) ==> r == s
  {
    TrimRight(TrimLeft(s))
  }

  /** Stripping only removes characters. */
  lemma TrimChars(s: string)
    ensures forall c :: c in Trim(s) ==> c in s
  {
    var l := TrimLeft(s);
    assert forall c :: c in Trim(s) ==> c in l;
  }

  predicate AllSpace(s: string) {
    forall i :: 0 <= i < |s| ==> IsSpace(s[i])
  }

  lemma {:induction false} TrimLeftSpaces(a: string, y: string)
    requires AllSpace(a)
    ensures TrimLeft(a + y) == TrimLeft(y)
    decreases |a|
  {
    if a != [] {
      assert (a + y)[1..] == a[1..] + y;
      TrimLeftSpaces(a[1..], y);
    } else {
      assert a + y == y;
    }
  }

  lemma {:induction false} TrimRightSpaces(y: string, b: string)
    requires AllSpace(b)
    ensures TrimRight(y + b) == TrimRight(y)
    decreases |b|
  {
    if b != [] {
      assert (y + b)[..|y + b| - 1] == y + b[..|b| - 1];
      TrimRightSpaces(y, b[..|b| - 1]);
    } else {
      assert y + b == y;
    }
  }

  /** Whitespace around a stripped text is exactly what `strip()` removes. */
  lemma TrimAround(a: string, x: string, b: string)
    requires AllSpace(a) && Trimmed(x) && AllSpace(b)
    ensures Trim(a + x + b) == x
  {
    assert a + x + b == a + (x + b);
    TrimLeftSpaces(a, x + b);
    if x == [] {
      assert x + b == b + [];
      TrimLeftSpaces(b, []);
      assert TrimLeft(x + b) == [];
    } else {
      assert (x + b)[0] == x[0];
      assert TrimLeft(x + b) == x + b;
      TrimRightSpaces(x, b);
      assert TrimRight(x) == x;
    }
  }

  lemma TrimSpacePrefix(x: string)
    ensures Trim([' '] + x) == Trim(x)
  {
    TrimLeftSpaces([' '], x);
  }

  /** The shape every serialised action line takes once stripped:
      `verb + " " + x` loses only the space when `x` is empty. */
  lemma TrimVerbLine(v: string, x: string)
    requires |v| > 0 && Trimmed(v) && Trimmed(x)
    ensures Trim(v + [' '] + x) == if x == [] then v else v + [' '] + x
  {
    if x == [] {
      TrimAround([], v, [' ']);
      assert [] + v + [' '] == v + [' '] + x;
    } else {
      var s := v + [' '] + x;
      assert s[0] == v[0] && s[|s| - 1] == x[|x| - 1];
    }
  }

  /** Taking the verb off a stripped line and stripping again gives `x`. */
  lemma TrimAfterVerb(v: string, x: string)
    requires |v| > 0 && Trimmed(v) && Trimmed(x)
    ensures StartsWith(Trim(v + [' '] + x), v)
    ensures Trim(Trim(v + [' '] + x)[|v|..]) == x
  {
    TrimVerbLine(v, x);
    var t := Trim(v + [' '] + x);
    if x == [] {
      assert t == v;
      assert t[|v|..] == [];
    } else {
      assert t == v + [' '] + x;
      assert t[..|v|] == v;
      assert t[|v|..] == [' '] + x + [];
      TrimAround([' '], x, []);
    }
  }


  // ----------------------------------------------------------- prefixes

  predicate StartsWith(s: string, p: string) {
    |p| <= |s| && s[..|p|] == p
  }

  predicate EndsWith(s: string, p: string) {
    |p| <= |s| && s[|s| - |p|..] == p
  }

  /** A text that differs from a prefix at some position does not start
      with it. */
  lemma NotStartsWith(s: string, p: string, i: nat)
    requires i < |s| && i < |p| && s[i] != p[i]
    ensures !StartsWith(s, p)
  {
    if |p| <= |s| {
      assert s[..|p|][i] == s[i];
    }
  }

  lemma StartsWithConcat(p: string, x: string)
    ensures StartsWith(p + x, p) && (p + x)[|p|..] == x
  {
    assert (p + x)[..|p|] == p;
  }

  lemma HasNoConcat(x: string, y: string, c: char)
    requires HasNo(x, c) && HasNo(y, c)
    ensures HasNo(x + y, c)
  {
    forall i | 0 <= i < |x + y| ensures (x + y)[i] != c {
      if i >= |x| {
        assert (x + y)[i] == y[i - |x|];
      }
    }
  }

  lemma {:induction false} HasNoJoin(xs: seq<string>, sep: string, c: char)
    requires HasNo(sep, c) && forall k :: 0 <= k < |xs| ==> HasNo(xs[k], c)
    ensures HasNo(Join(xs, sep), c)
    decreases |xs|
  {
    if |xs| > 1 {
      HasNoJoin(xs[1..], sep, c);
      HasNoConcat(xs[0], sep, c);
      HasNoConcat(xs[0] + sep, Join(xs[1..], sep), c);
    }
  }

  // ---------------------------------------------------------- substring

  predicate OccursAt(s: string, m: string, k: int) {
    0 <= k && k + |m| <= |s| && s[k..k + |m|] == m
  }

  /** `s.find(m)` as an option: the first position where `m` occurs. */
  function Find(s: string, m: string): (r: Option<nat>)
    ensures r.Some? ==> OccursAt(s, m, r.value)
    ensures r.Some? ==> forall k :: 0 <= k < r.value ==> !OccursAt(s, m, k)
    ensures r.None? ==> forall k :: !OccursAt(s, m, k)
    decreases |s|
  {
    if |s| < |m| then None
    else if s[..|m|] == m then Some(0)
    else
      var t := Find(s[1..], m);
      OccursShift(s, m);
      match t
      case None => None
      case Some(i) => Some(i + 1)
  }

  lemma OccursShift(s: string, m: string)
    requires |s| > 0
    ensures forall k :: 1 <= k ==> (OccursAt(s, m, k) <==> OccursAt(s[1..], m, k - 1))
  {
    forall k | 1 <= k
      ensures OccursAt(s, m, k) <==> OccursAt(s[1..], m, k - 1)
    {
      if k + |m| <= |s| {
        var a, b := s[k..k + |m|], s[1..][k - 1..k - 1 + |m|];
        assert |a| == |b| && forall j :: 0 <= j < |a| ==> a[j] == b[j];
      }
    }
  }

  /** Python's `m in s`. */
  predicate Contains(s: string, m: string) {
    Find(s, m).Some?
  }

  lemma ContainsAt(s: string, m: string, k: int)
    requires OccursAt(s, m, k)
    ensures Contains(s, m)
  {
  }

  /** The scan behind `s.split(m)`, from position `i`: an occurrence of `m`
      at `i` is a separator and the scan resumes after it, otherwise it moves
      one position on. `last` is where the text after the latest separator
      begins (0 before the first). Returns where the last piece begins: no
      occurrence starts at or after it, and unless it is 0 a separator ends
      right there. */
  function ScanCut(s: string, m: string, i: nat, last: nat): (c: nat)
    requires |m| > 0 && last <= i <= |s|
    requires forall k :: last <= k < i ==> !OccursAt(s, m, k)
    requires last != 0 ==> |m| <= last && OccursAt(s, m, last - |m|)
    ensures c <= |s| && forall k :: c <= k ==> !OccursAt(s, m, k)
    ensures c != 0 ==> |m| <= c && OccursAt(s, m, c - |m|)
    decreases |s| - i
  {
    if |s| < i + |m| then last
    else if s[i..i + |m|] == m then ScanCut(s, m, i + |m|, i + |m|)
    else ScanCut(s, m, i + 1, last)
  }

  /** Where the text after the last separator `m` begins. */
  function LastCut(s: string, m: string): (c: nat)
    requires |m| > 0
    ensures c <= |s| && forall k :: c <= k ==> !OccursAt(s, m, k)
    ensures c != 0 ==> |m| <= c && OccursAt(s, m, c - |m|)
  {
    ScanCut(s, m, 0, 0)
  }

  /** An occurrence in a suffix is an occurrence in the whole text. */
  lemma OccursIn(s: string, m: string, d: nat, k: int)
    requires d <= |s| && OccursAt(s[d..], m, k)
    ensures OccursAt(s, m, d + k)
  {
    assert s[d..][k..k + |m|] == s[d + k..d + k + |m|];
  }

  /** An occurrence past the start of a suffix is an occurrence in it. */
  lemma OccursFrom(s: string, m: string, d: nat, k: int)
    requires d <= k && OccursAt(s, m, k)
    ensures OccursAt(s[d..], m, k - d)
  {
    assert s[d..][k - d..k - d + |m|] == s[k..k + |m|];
  }

  /** `m` occurs in `s` at `k` and nowhere else. */
  ghost predicate OnlyAt(s: string, m: string, k: int) {
    OccursAt(s, m, k) && forall j :: OccursAt(s, m, j) ==> j == k
  }

  /** Dropping a prefix that ends before the only occurrence keeps it the
      only one. */
  lemma OnlyAtSuffix(s: string, m: string, k: int, d: nat)
    requires OnlyAt(s, m, k) && d <= k
    ensures OnlyAt(s[d..], m, k - d)
  {
    OccursFrom(s, m, d, k);
    forall j | OccursAt(s[d..], m, j) ensures j == k - d {
      OccursIn(s, m, d, j);
    }
  }

  /** Dropping a suffix that starts after the only occurrence keeps it the
      only one. */
  lemma OnlyAtPrefix(s: string, m: string, k: int, e: nat)
    requires OnlyAt(s, m, k) && k + |m| <= e <= |s|
    ensures OnlyAt(s[..e], m, k)
  {
    assert s[..e][k..k + |m|] == s[k..k + |m|];
    forall j | OccursAt(s[..e], m, j) ensures j == k {
      assert s[..e][j..j + |m|] == s[j..j + |m|];
      assert OccursAt(s, m, j);
    }
  }

  /** Where `m` occurs once, both splits cut at that occurrence. */
  lemma SplitAtOnly(s: string, m: string, k: int)
    requires |m| > 0 && OnlyAt(s, m, k)
    ensures SplitFirst(s, m) == s[..k]
    ensures SplitLast(s, m) == s[k + |m|..]
  {
    ContainsAt(s, m, k);
  }

  /** Where `m` first occurs at `k`, the first split is the text before. */
  lemma SplitFirstAt(s: string, m: string, k: int)
    requires |m| > 0 && OccursAt(s, m, k) && forall j :: 0 <= j < k ==> !OccursAt(s, m, j)
    ensures SplitFirst(s, m) == s[..k]
  {
    ContainsAt(s, m, k);
  }

  /** Where `m` and `n` each occur once, `m` first, the text after the
      last `m` and before the next `n` is what lies between them. */
  lemma SplitBetweenOnly(s: string, m: string, k: int, n: string, l: int)
    requires |m| > 0 && |n| > 0 && OnlyAt(s, m, k) && OnlyAt(s, n, l) && k + |m| <= l
    ensures SplitFirst(SplitLast(s, m), n) == s[k + |m|..l]
  {
    var d := k + |m|;
    var t := s[d..];
    assert SplitLast(s, m) == t by {
      SplitAtOnly(s, m, k);
    }
    assert SplitFirst(t, n) == t[..l - d] by {
      OnlyAtSuffix(s, n, l, d);
      SplitAtOnly(t, n, l - d);
    }
    assert t[..l - d] == s[d..l];
  }

  /** A text laid out as `x`, `m`, `t`, `n`, `v` with each marker once:
      the pieces after `m` and after `n` are `t` and `v`. */
  lemma TwoSections(x: string, m: string, t: string, n: string, v: string)
    requires |m| > 0 && |n| > 0
    requires OnlyAt(x + m + t + n + v, m, |x|) && OnlyAt(x + m + t + n + v, n, |x| + |m| + |t|)
    ensures SplitFirst(SplitLast(x + m + t + n + v, m), n) == t
    ensures SplitLast(x + m + t + n + v, n) == v
  {
    var o := x + m + t + n + v;
    var q := |x| + |m| + |t|;
    Pieces(x, m, t, n, v);
    assert SplitFirst(SplitLast(o, m), n) == t by {
      SplitBetweenOnly(o, m, |x|, n, q);
    }
    SplitAtOnly(o, n, q);
  }

  lemma Pieces(x: string, m: string, t: string, n: string, v: string)
    ensures var o := x + m + t + n + v;
      o[|x| + |m|..|x| + |m| + |t|] == t && o[|x| + |m| + |t| + |n|..] == v
  {
  }

  /** A text laid out as `x`, `m`, `t`, `n`, `a`, `l`, `u` with each marker
      once: the pieces after `m`, `n` and `l` are `t`, `a` and `u`. */
  lemma ThreeSections(x: string, m: string, t: string, n: string, a: string, l: string, u: string)
    requires |m| > 0 && |n| > 0 && |l| > 0
    requires var o := x + m + t + n + a + l + u;
      && OnlyAt(o, m, |x|)
      && OnlyAt(o, n, |x| + |m| + |t|)
      && OnlyAt(o, l, |x| + |m| + |t| + |n| + |a|)
    ensures var o := x + m + t + n + a + l + u;
      && SplitFirst(SplitLast(o, m), n) == t
      && SplitFirst(SplitLast(o, n), l) == a
      && SplitLast(o, l) == u
  {
    var o := x + m + t + n + a + l + u;
    TwoSections(x + m + t, n, a, l, u);
    Regroup(x + m + t + n, a, l, u);
    TwoSections(x, m, t, n, a + l + u);
  }

  lemma Regroup(p: string, a: string, l: string, u: string)
    ensures p + a + l + u == p + (a + l + u)
  {
  }

  /** `s.split(m)[-1]`: the text after the last of the occurrences of `m`
      found scanning left to right. For a marker that overlaps itself (the
      reply markers begin and end with `###`) the contract below admits more
      than one suffix; the body's left-to-right scan picks Python's, as
      `SplitLastOverlap` shows. */
  function SplitLast(s: string, m: string): (r: string)
    requires |m| > 0
    ensures |r| <= |s| && r == s[|s| - |r|..]
    ensures !Contains(r, m)
    ensures !Contains(s, m) ==> r == s
    ensures Contains(s, m) ==> |r| + |m| <= |s| && OccursAt(s, m, |s| - |r| - |m|)
  {
    var c := LastCut(s, m);
    assert !Contains(s[c..], m) by {
      if Contains(s[c..], m) {
        OccursIn(s, m, c, Find(s[c..], m).value);
      }
    }
    assert c == 0 <==> !Contains(s, m) by {
      if c != 0 {
        ContainsAt(s, m, c - |m|);
      }
    }
    s[c..]
  }

  /** Overlapping occurrences are cut as Python cuts them: `"aaa".split("aa")`
      is `["", "a"]`, so the last piece is `"a"`, not the empty text after the
      occurrence at 1. */
  lemma SplitLastOverlap()
    ensures SplitLast("aaa", "aa") == "a"
  {
    assert "aaa"[..2] == "aa";
  }

  /** `s.split(m)[0]`: the text before the first occurrence of `m`. */
  function SplitFirst(s: string, m: string): (r: string)
    requires |m| > 0
    ensures |r| <= |s| && r == s[..|r|]
    ensures !Contains(r, m)
    ensures !Contains(s, m) ==> r == s
    ensures Contains(s, m) ==> OccursAt(s, m, |r|) && forall k :: 0 <= k < |r| ==> !OccursAt(s, m, k)
  {
    match Find(s, m)
    case None => s
    case Some(i) =>
      assert forall k :: OccursAt(s[..i], m, k) ==> OccursAt(s, m, k) by {
        forall k | OccursAt(s[..i], m, k) ensures OccursAt(s, m, k) {
          assert s[..i][k..k + |m|] == s[k..k + |m|];
        }
      }
      s[..i]
  }

  /** `s.replace(pat, rep)`: left to right, non-overlapping. */
  function Replace(s: string, pat: string, rep: string): (r: string)
    requires |pat| > 0
    decreases |s|
  {
    if |s| < |pat| then s
    else if s[..|pat|] == pat then rep + Replace(s[|pat|..], pat, rep)
    else [s[0]] + Replace(s[1..], pat, rep)
  }

  /** A replacement never introduces a character that was in neither the
      text nor the replacement. */
  lemma {:induction false} ReplaceKeepsAbsent(s: string, pat: string, rep: string, c: char)
    requires |pat| > 0 && c !in s && c !in rep
    ensures c !in Replace(s, pat, rep)
    decreases |s|
  {
    if |s| < |pat| {
    } else if s[..|pat|] == pat {
      ReplaceKeepsAbsent(s[|pat|..], pat, rep, c);
    } else {
      ReplaceKeepsAbsent(s[1..], pat, rep, c);
    }
  }

  /** Replacing a single character by text without it removes it all. */
  lemma {:induction false} ReplaceRemoves(s: string, c: char, rep: string)
    requires c !in rep
    ensures c !in Replace(s, [c], rep)
    decreases |s|
  {
    if |s| < 1 {
    } else if s[..1] == [c] {
      ReplaceRemoves(s[1..], c, rep);
    } else {
      assert s[0] != c;
      ReplaceRemoves(s[1..], c, rep);
    }
  }

  // -------------------------------------------------------- split / join

  /** `re.split` on a set of single characters (and `str.split(c)` for one). */
  function SplitAny(s: string, seps: set<char>): (r: seq<string>)
    ensures |r| >= 1
  {
    if s == [] then [""]
    else
      var rest := SplitAny(s[1..], seps);
      if s[0] in seps then [""] + rest else [[s[0]] + rest[0]] + rest[1..]
  }

  /** `sep.join(xs)`. */
  function Join(xs: seq<string>, sep: string): string {
    if |xs| == 0 then ""
    else if |xs| == 1 then xs[0]
    else xs[0] + sep + Join(xs[1..], sep)
  }

  predicate NoneIn(s: string, seps: set<char>) {
    forall i :: 0 <= i < |s| ==> s[i] !in seps
  }

  lemma {:induction false} SplitAnyNone(s: string, seps: set<char>)
    requires NoneIn(s, seps)
    ensures SplitAny(s, seps) == [s]
    decreases |s|
  {
    if s != [] {
      SplitAnyNone(s[1..], seps);
      assert [s[0]] + s[1..] == s;
    }
  }

  lemma {:induction false} SplitAnyPrefix(p: string, s: string, seps: set<char>)
    requires NoneIn(p, seps)
    ensures SplitAny(p + s, seps) == [p + SplitAny(s, seps)[0]] + SplitAny(s, seps)[1..]
    decreases |p|
  {
    if p == [] {
      assert p + s == s;
      var r := SplitAny(s, seps);
      assert p + r[0] == r[0];
      assert [r[0]] + r[1..] == r;
    } else {
      assert (p + s)[1..] == p[1..] + s;
      SplitAnyPrefix(p[1..], s, seps);
      assert [p[0]] + (p[1..] + SplitAny(s, seps)[0]) == p + SplitAny(s, seps)[0];
    }
  }

  /** Splitting on the character a list was joined with gives the list
      back, provided no element contains a separator. */
  lemma {:induction false} SplitJoin(xs: seq<string>, c: char, seps: set<char>)
    requires |xs| >= 1 && c in seps
    requires forall k :: 0 <= k < |xs| ==> NoneIn(xs[k], seps)
    ensures SplitAny(Join(xs, [c]), seps) == xs
    decreases |xs|
  {
    if |xs| == 1 {
      SplitAnyNone(xs[0], seps);
    } else {
      var j := Join(xs[1..], [c]);
      assert Join(xs, [c]) == xs[0] + ([c] + j);
      SplitAnyPrefix(xs[0], [c] + j, seps);
      assert ([c] + j)[1..] == j;
      SplitJoin(xs[1..], c, seps);
      assert xs[0] + "" == xs[0];
    }
  }

  function TrimAll(xs: seq<string>): (r: seq<string>)
    ensures |r| == |xs|
    ensures forall k :: 0 <= k < |xs| ==> r[k] == Trim(xs[k])
  {
    if xs == [] then [] else [Trim(xs[0])] + TrimAll(xs[1..])
  }

  /** `" " + ", ".join(es) + " "` split on `,` and stripped gives `es`. */
  lemma {:induction false} SplitPaddedCommaList(es: seq<string>)
    requires |es| >= 1
    requires forall k :: 0 <= k < |es| ==> Trimmed(es[k]) && HasNo(es[k], ',')
    ensures TrimAll(SplitAny([' '] + Join(es, ", ") + [' '], {','})) == es
    decreases |es|
  {
    if |es| == 1 {
      var s := [' '] + es[0] + [' '];
      SplitAnyNone(s, {','});
      TrimAround([' '], es[0], [' ']);
    } else {
      var p := [' '] + es[0];
      var tail := [' '] + Join(es[1..], ", ") + [' '];
      PaddedJoinShape(es);
      assert NoneIn(p, {','});
      SplitAtComma(p, tail);
      SplitPaddedCommaList(es[1..]);
      TrimSpaceBefore(es[0]);
      TrimAllCons(p, SplitAny(tail, {','}));
    }
  }

  /** The padded list is its first element, a comma and the padded rest. */
  lemma PaddedJoinShape(es: seq<string>)
    requires |es| >= 2
    ensures [' '] + Join(es, ", ") + [' ']
         == ([' '] + es[0]) + ([','] + ([' '] + Join(es[1..], ", ") + [' ']))
  {
    assert Join(es, ", ") == es[0] + ", " + Join(es[1..], ", ");
    PadAroundComma(es[0], Join(es[1..], ", "));
  }

  lemma PadAroundComma(x: string, j: string)
    ensures [' '] + (x + ", " + j) + [' '] == ([' '] + x) + ([','] + ([' '] + j + [' ']))
  {
    assert ", " == [','] + [' '];
  }

  /** Splitting at the first comma. */
  lemma SplitAtComma(p: string, tail: string)
    requires NoneIn(p, {','})
    ensures SplitAny(p + ([','] + tail), {','}) == [p] + SplitAny(tail, {','})
  {
    SplitAnyPrefix(p, [','] + tail, {','});
    assert ([','] + tail)[1..] == tail;
    assert SplitAny([','] + tail, {','}) == [""] + SplitAny(tail, {','});
    assert p + "" == p;
  }

  lemma TrimSpaceBefore(x: string)
    requires Trimmed(x)
    ensures Trim([' '] + x) == x
  {
    assert [' '] + x == [' '] + x + [];
    TrimAround([' '], x, []);
  }

  lemma TrimAllCons(x: string, xs: seq<string>)
    ensures TrimAll([x] + xs) == [Trim(x)] + TrimAll(xs)
  {
    assert ([x] + xs)[1..] == xs;
  }

  // ------------------------------------------------------------ case

  function LowerChar(c: char): char {
    if 'A' <= c <= 'Z' then (c as int + 32) as char else c
  }

  function UpperChar(c: char): char {
    if 'a' <= c <= 'z' then (c as int - 32) as char else c
  }

  /** `s.lower()` on ASCII letters. */
  function Lower(s: string): (r: string)
    ensures |r| == |s| && forall i :: 0 <= i < |s| ==> r[i] == LowerChar(s[i])
  {
    seq(|s|, i requires 0 <= i < |s| => LowerChar(s[i]))
  }

  /** Text with no capital letter is its own lower case. */
  lemma LowerOfLower(s: string)
    requires forall i :: 0 <= i < |s| ==> !('A' <= s[i] <= 'Z')
    ensures Lower(s) == s
  {
  }

  /** `s.upper()` on ASCII letters. */
  function Upper(s: string): (r: string)
    ensures |r| == |s| && forall i :: 0 <= i < |s| ==> r[i] == UpperChar(s[i])
  {
    seq(|s|, i requires 0 <= i < |s| => UpperChar(s[i]))
  }

  // -------------------------------------------------------- integers

  predicate IsDigit(c: char) { '0' <= c <= '9' }

  predicate AllDigits(s: string) {
    forall i :: 0 <= i < |s| ==> IsDigit(s[i])
  }

  function DigitChar(d: nat): (c: char)
    requires d < 10
    ensures IsDigit(c) && c as int - '0' as int == d
  {
    ('0' as int + d) as char
  }

  /** `str(n)` for a natural number. */
  function NatToString(n: nat): (r: string)
    ensures |r| >= 1 && AllDigits(r)
  {
    if n < 10 then [DigitChar(n)] else NatToString(n / 10) + [DigitChar(n % 10)]
  }

  /** `str(n)` for any integer. */
  function IntToString(n: int): (r: string)
    ensures |r| >= 1 && Trimmed(r)
    ensures forall i :: 0 <= i < |r| ==> IsDigit(r[i]) || r[i] == '-'
  {
    if n < 0 then "-" + NatToString(-n) else NatToString(n)
  }

  function DigitsValue(s: string): nat
    requires AllDigits(s)
  {
    if s == [] then 0 else DigitsValue(s[..|s| - 1]) * 10 + (s[|s| - 1] as int - '0' as int)
  }

  /** Python's `int(s)` on a string: surrounding whitespace, an optional
      sign, then decimal digits; anything else raises ValueError. */
  function ParseInt(s: string): Option<int> {
    ParseStripped(Trim(s))
  }

  /** `int()` on a stripped text: an optional sign, then decimal digits. */
  function ParseStripped(t: string): Option<int> {
    if |t| > 1 && (t[0] == '-' || t[0] == '+') && AllDigits(t[1..]) then
      var v: int := DigitsValue(t[1..]);
      Some(if t[0] == '-' then -v else v)
    else if |t| > 0 && AllDigits(t) then Some(DigitsValue(t))
    else None
  }

  lemma {:induction false} DigitsOfNat(n: nat)
    ensures DigitsValue(NatToString(n)) == n
  {
    if n >= 10 {
      var s := NatToString(n);
      assert s[..|s| - 1] == NatToString(n / 10);
      DigitsOfNat(n / 10);
    }
  }

  /** `int(str(n)) == n`. */
  lemma IntRoundTrip(n: int)
    ensures ParseInt(IntToString(n)) == Some(n)
  {
    if n < 0 {
      NegativeRoundTrip(n, NatToString(-n));
    } else {
      NatRoundTrip(n, NatToString(n));
    }
  }

  lemma NatRoundTrip(n: nat, d: string)
    requires d == NatToString(n)
    ensures ParseInt(d) == Some(n)
  {
    assert DigitsValue(d) == n by {
      DigitsOfNat(n);
    }
    ParseDigits(d);
  }

  lemma NegativeRoundTrip(n: int, d: string)
    requires n < 0 && d == NatToString(-n)
    ensures ParseInt("-" + d) == Some(n)
  {
    assert DigitsValue(d) == -n by {
      DigitsOfNat(-n);
    }
    ParseNegative(d);
  }

  /** `int()` reads a run of digits as their decimal value. */
  lemma ParseDigits(t: string)
    requires |t| > 0 && AllDigits(t)
    ensures ParseInt(t) == Some(DigitsValue(t))
  {
    assert IsDigit(t[0]) && IsDigit(t[|t| - 1]);
    assert Trimmed(t);
    assert ParseStripped(t) == Some(DigitsValue(t));
  }

  /** `int()` reads a minus sign and a run of digits as the negated value. */
  lemma ParseNegative(t: string)
    requires |t| > 0 && AllDigits(t)
    ensures ParseInt("-" + t) == Some(-(DigitsValue(t) as int))
  {
    var s := "-" + t;
    assert IsDigit(t[|t| - 1]) && s[|s| - 1] == t[|t| - 1];
    assert Trimmed(s);
    StrippedNegative(t);
  }

  lemma StrippedNegative(t: string)
    requires |t| > 0 && AllDigits(t)
    ensures ParseStripped("-" + t) == Some(-(DigitsValue(t) as int))
  {
    assert ("-" + t)[1..] == t;
  }

  /** `int()` ignores whitespace around a stripped text, and it reads what
      `str()` writes even when padded. */
  lemma ParseIntPadded(a: string, n: int, b: string)
    requires AllSpace(a) && AllSpace(b)
    ensures ParseInt(a + IntToString(n) + b) == Some(n)
  {
    TrimAround(a, IntToString(n), b);
    IntRoundTrip(n);
  }

  // ------------------------------------------------- column letters

  /** openpyxl accepts column numbers 1..18278 (`A` .. `ZZZ`). */
  const MaxColumn: nat := 18278

  predicate IsUpperLetter(c: char) { 'A' <= c <= 'Z' }

  predicate AllUpperLetters(s: string) {
    forall i :: 0 <= i < |s| ==> IsUpperLetter(s[i])
  }

  /** Bijective base 26: 1 -> A, 26 -> Z, 27 -> AA. */
  function ColumnLetters(n: nat): (r: string)
    requires n >= 1
    ensures |r| >= 1 && AllUpperLetters(r)
  {
    if n <= 26 then [(64 + n) as char]
    else ColumnLetters((n - 1) / 26) + [(65 + (n - 1) % 26) as char]
  }

  function LettersValue(s: string): nat
    requires AllUpperLetters(s)
  {
    if s == [] then 0 else LettersValue(s[..|s| - 1]) * 26 + (s[|s| - 1] as int - 64)
  }

  /** openpyxl's `get_column_letter`: raises outside 1..18278. */
  function GetColumnLetter(n: int): (r: Option<string>)
    ensures r.Some? <==> 1 <= n <= MaxColumn
    ensures r.Some? ==> 1 <= |r.value| <= 3 && AllUpperLetters(r.value)
  {
    if 1 <= n <= MaxColumn then ColumnLettersLength(n); Some(ColumnLetters(n)) else None
  }

  /** openpyxl's `column_index_from_string`: one to three letters in
      either case, else ValueError. */
  function ColumnIndexFromString(s: string): (r: Option<nat>)
    ensures r.Some? ==> 1 <= r.value <= MaxColumn
  {
    var u := Upper(s);
    if 1 <= |u| <= 3 && AllUpperLetters(u) then
      LettersValueBounds(u);
      Some(LettersValue(u))
    else None
  }

  lemma {:induction false} LettersOfColumn(n: nat)
    requires n >= 1
    ensures LettersValue(ColumnLetters(n)) == n
  {
    if n > 26 {
      var s := ColumnLetters(n);
      assert s[..|s| - 1] == ColumnLetters((n - 1) / 26);
      LettersOfColumn((n - 1) / 26);
    }
  }

  lemma ColumnLettersLength(n: nat)
    requires 1 <= n <= MaxColumn
    ensures |ColumnLetters(n)| <= 3
  {
    if n > 26 {
      var q := (n - 1) / 26;
      assert q <= 702;
      if q > 26 {
        var q2 := (q - 1) / 26;
        assert q2 <= 26;
        assert |ColumnLetters(q2)| == 1;
        assert |ColumnLetters(q)| == 2;
      }
      assert |ColumnLetters(q)| <= 2;
    }
  }

  lemma UpperOfLetters(s: string)
    requires AllUpperLetters(s)
    ensures Upper(s) == s
  {
  }

  lemma {:induction false} LettersValueBounds(s: string)
    requires AllUpperLetters(s)
    ensures |s| >= 1 ==> LettersValue(s) >= 1
    ensures |s| <= 1 ==> LettersValue(s) <= 26
    ensures |s| <= 2 ==> LettersValue(s) <= 702
    ensures |s| <= 3 ==> LettersValue(s) <= MaxColumn
    decreases |s|
  {
    if s != [] {
      LettersValueBounds(s[..|s| - 1]);
    }
  }

  lemma {:induction false} ColumnOfLetters(s: string)
    requires |s| >= 1 && AllUpperLetters(s)
    ensures ColumnLetters(LettersValue(s)) == s
    decreases |s|
  {
    var p := s[..|s| - 1];
    var v := s[|s| - 1] as int - 64;
    LettersValueBounds(s);
    if p == [] {
      assert s == [s[0]];
    } else {
      LettersValueBounds(p);
      var n := LettersValue(s);
      assert n == LettersValue(p) * 26 + v;
      assert (n - 1) / 26 == LettersValue(p) && (n - 1) % 26 == v - 1;
      ColumnOfLetters(p);
      assert s == p + [s[|s| - 1]];
    }
  }

  /** `column_index_from_string(get_column_letter(n)) == n` on 1..18278. */
  lemma ColumnIndexRoundTrip(n: nat)
    requires 1 <= n <= MaxColumn
    ensures ColumnIndexFromString(ColumnLetters(n)) == Some(n)
  {
    ColumnLettersLength(n);
    UpperOfLetters(ColumnLetters(n));
    LettersOfColumn(n);
  }

  /** `get_column_letter(column_index_from_string(s)) == s.upper()`. */
  lemma ColumnLetterRoundTrip(s: string)
    requires ColumnIndexFromString(s).Some?
    ensures GetColumnLetter(ColumnIndexFromString(s).value) == Some(Upper(s))
  {
    var u := Upper(s);
    LettersValueBounds(u);
    ColumnOfLetters(u);
  }
}
