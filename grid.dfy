/** The data the local interpreter works on: a pandas frame of cell values
    with a fixed shape, addressed the way `DataFrame.iloc` addresses it
    (negative positions count from the end, anything else raises), and the
    openpyxl styles of the same sheet, addressed from 1. */
module Grid {
  import opened Wrappers

  /** A frame value: empty (`NaN` or `None`), an integer, or text (a
      formula is text starting with `=`). */
  datatype Cell = Empty | Num(n: int) | Str(s: string)

  /** `n` rows of `m` cells each. */
  predicate Shaped(g: seq<seq<Cell>>, n: nat, m: nat) {
    |g| == n && forall i :: 0 <= i < n ==> |g[i]| == m
  }

  /** The position `iloc` reaches for index `i` on an axis of length `n`. */
  function Norm(i: int, n: nat): (r: Option<nat>)
    ensures r.Some? <==> 0 <= i + n && i < n
    ensures r.Some? ==> r.value < n && (r.value == i || r.value == i + n)
  {
    if 0 <= i < n then Some(i) else if 0 <= i + n && i < 0 then Some(i + n) else None
  }

  /** Index `r` (already known to be in range) lands on position `p`. */
  predicate At(p: int, r: int, n: nat) {
    p == r || p == r + n
  }

  /** Position `p` of an axis of length `n` is reached by some index of
      `s..e` (the loops skip indices from `n` up). */
  predicate Hit(p: int, s: int, e: int, n: nat) {
    (s <= p <= e) || (s <= p - n <= e)
  }

  /** `Hit` says exactly that some index of the loop's range that passes
      its `< n` guard lands on `p`. */
  lemma HitMeans(p: nat, s: int, e: int, n: nat)
    requires p < n
    ensures Hit(p, s, e, n) <==> exists r :: s <= r <= e && r < n && Norm(r, n) == Some(p)
  {
    if Hit(p, s, e, n) {
      if s <= p <= e {
        assert Norm(p, n) == Some(p);
      } else {
        assert Norm(p - n, n) == Some(p);
      }
    }
  }

  /** Growing a loop range by one index adds the positions that index
      lands on. */
  lemma HitNext(s: int, e: int, n: nat)
    ensures forall p :: Hit(p, s, e, n) == (Hit(p, s, e - 1, n) || (s <= e && At(p, e, n)))
  {
  }

  /** Two frames of the same shape with the same cells are equal. */
  lemma SameCells(a: seq<seq<Cell>>, b: seq<seq<Cell>>, n: nat, m: nat)
    requires Shaped(a, n, m) && Shaped(b, n, m)
    requires forall i, j :: 0 <= i < n && 0 <= j < m ==> a[i][j] == b[i][j]
    ensures a == b
  {
    forall i | 0 <= i < n
      ensures a[i] == b[i]
    {
    }
  }

  /** With a selection inside the frame, the positions hit are exactly
      the selected ones. */
  lemma HitInside(p: nat, s: int, e: int, n: nat)
    requires p < n && 0 <= s
    ensures Hit(p, s, e, n) <==> s <= p <= e
  {
  }

  /** The loops over `s..e` and `s'..e'` attempt a write: both ranges are
      non-empty and their first indices pass the `< n` guards. */
  predicate Attempts(sr: int, sc: int, er: int, ec: int, n: nat, m: nat) {
    sr <= er && sc <= ec && sr < n && sc < m
  }

  /** The first attempted write raises `IndexError`; indices only grow
      from there, so no later write can. */
  predicate RectFails(sr: int, sc: int, er: int, ec: int, n: nat, m: nat) {
    Attempts(sr, sc, er, ec, n, m) && (sr + n < 0 || sc + m < 0)
  }

  /** Every cell that the guarded loops over the rectangle reach gets `v`. */
  function Fill(g: seq<seq<Cell>>, n: nat, m: nat, sr: int, sc: int, er: int, ec: int, v: Cell): (h: seq<seq<Cell>>)
    requires Shaped(g, n, m)
    ensures Shaped(h, n, m)
    ensures forall i, j {:trigger h[i][j]} :: 0 <= i < n && 0 <= j < m ==>
      h[i][j] == if Hit(i, sr, er, n) && Hit(j, sc, ec, m) then v else g[i][j]
  {
    seq(n, i requires 0 <= i < n => seq(m, j requires 0 <= j < m =>
      if Hit(i, sr, er, n) && Hit(j, sc, ec, m) then v else g[i][j]))
  }

  /** For a selection that starts inside the frame, exactly the selected
      cells that lie inside the frame get `v`, and no write raises. */
  lemma FillInside(g: seq<seq<Cell>>, n: nat, m: nat, sr: nat, sc: nat, er: int, ec: int, v: Cell)
    requires Shaped(g, n, m)
    ensures !RectFails(sr, sc, er, ec, n, m)
    ensures forall i, j :: 0 <= i < n && 0 <= j < m ==>
      Fill(g, n, m, sr, sc, er, ec, v)[i][j] == if sr <= i <= er && sc <= j <= ec then v else g[i][j]
  {
    forall i, j | 0 <= i < n && 0 <= j < m
      ensures Fill(g, n, m, sr, sc, er, ec, v)[i][j] == if sr <= i <= er && sc <= j <= ec then v else g[i][j]
    {
      HitInside(i, sr, er, n);
      HitInside(j, sc, ec, m);
    }
  }

  // ------------------------------------------------------------------ copy

  /** How many columns of `sc..ec` pass the `< m` guard. */
  function Width(sc: int, ec: int, m: nat): nat {
    if sc <= ec && sc < m then (if ec < m then ec else m - 1) - sc + 1 else 0
  }

  /** What `copy` collects: one list per row of the selection, holding the
      guarded cells of that row (rows from `n` on give empty lists). */
  function CopyRect(g: seq<seq<Cell>>, n: nat, m: nat, sr: int, sc: int, er: int, ec: int): (clip: seq<seq<Cell>>)
    requires Shaped(g, n, m) && !RectFails(sr, sc, er, ec, n, m)
    ensures |clip| == if sr <= er then er - sr + 1 else 0
    ensures forall k :: 0 <= k < |clip| ==> |clip[k]| == if sr + k < n then Width(sc, ec, m) else 0
  {
    var rowsOf := if sr <= er then er - sr + 1 else 0;
    seq(rowsOf, k requires 0 <= k < rowsOf =>
      var r := sr + k;
      if r < n && Width(sc, ec, m) > 0 then
        assert Attempts(sr, sc, er, ec, n, m);
        seq(Width(sc, ec, m), l requires 0 <= l < Width(sc, ec, m) =>
          g[Norm(r, n).value][Norm(sc + l, m).value])
      else [])
  }

  /** Entry `l` of copied row `k` is the frame's cell at row `sr + k`,
      column `sc + l`. */
  lemma CopiedCell(g: seq<seq<Cell>>, n: nat, m: nat, sr: int, sc: int, er: int, ec: int, k: nat, l: nat)
    requires Shaped(g, n, m) && !RectFails(sr, sc, er, ec, n, m)
    requires k < |CopyRect(g, n, m, sr, sc, er, ec)| && sr + k < n && l < Width(sc, ec, m)
    ensures Norm(sr + k, n).Some? && Norm(sc + l, m).Some?
    ensures CopyRect(g, n, m, sr, sc, er, ec)[k][l] == g[Norm(sr + k, n).value][Norm(sc + l, m).value]
  {
    assert Attempts(sr, sc, er, ec, n, m);
  }

  /** Copying a selection that starts inside the frame snapshots the
      frame's rows `sr ..` and columns `sc ..` as they are: no write
      raises, and entry `l` of row `k` is the cell at `(sr + k, sc + l)`. */
  lemma CopyInside(g: seq<seq<Cell>>, n: nat, m: nat, sr: nat, sc: nat, er: int, ec: int, k: nat, l: nat)
    requires Shaped(g, n, m)
    requires k < |CopyRect(g, n, m, sr, sc, er, ec)| && sr + k < n && l < Width(sc, ec, m)
    ensures sc + l < m && CopyRect(g, n, m, sr, sc, er, ec)[k][l] == g[sr + k][sc + l]
  {
    CopiedCell(g, n, m, sr, sc, er, ec, k, l);
  }

  // ----------------------------------------------------------------- paste

  /** The last value of `row` (first `lim` entries) that pasting from
      column `sc` puts at position `j`: offset `j - sc` lands on `j`
      itself, the smaller offset `j - m - sc` lands there from behind. */
  function RowPick(row: seq<Cell>, sc: int, m: nat, j: int, lim: int): Option<Cell> {
    var top := if lim < |row| then lim else |row|;
    if 0 <= j - sc < top then Some(row[j - sc])
    else if 0 <= j - m - sc < top then Some(row[j - m - sc])
    else None
  }

  /** The row offset `ro` of the clipboard as far as the paste loops have
      gone: whole rows before `k`, the first `l` entries of row `k`. */
  function RowSoFar(clip: seq<seq<Cell>>, ro: int, sc: int, m: nat, j: int, k: int, l: int): Option<Cell> {
    if 0 <= ro < k && ro < |clip| then RowPick(clip[ro], sc, m, j, |clip[ro]|)
    else if ro == k && 0 <= k < |clip| then RowPick(clip[k], sc, m, j, l)
    else None
  }

  /** The value the paste loops have last written at `(i, j)` once they
      have reached row offset `k`, entry `l`; the later of the two row
      offsets that land on `i` wins. */
  function PasteSoFar(clip: seq<seq<Cell>>, sr: int, sc: int, n: nat, m: nat, i: int, j: int, k: int, l: int): Option<Cell> {
    var late := RowSoFar(clip, i - sr, sc, m, j, k, l);
    if late.Some? then late else RowSoFar(clip, i - n - sr, sc, m, j, k, l)
  }

  /** Writing entry `l` of row `k` makes it the last value written at the
      positions it lands on. */
  lemma PasteStep(clip: seq<seq<Cell>>, sr: int, sc: int, n: nat, m: nat, k: nat, l: nat, i: nat, j: nat)
    requires k < |clip| && l < |clip[k]| && i < n && j < m
    ensures PasteSoFar(clip, sr, sc, n, m, i, j, k, l + 1) ==
      if At(i, sr + k, n) && At(j, sc + l, m) then Some(clip[k][l]) else PasteSoFar(clip, sr, sc, n, m, i, j, k, l)
  {
  }

  /** Finishing a row is starting the next. */
  lemma PasteRowEnd(clip: seq<seq<Cell>>, sr: int, sc: int, n: nat, m: nat, k: nat, i: nat, j: nat)
    requires k < |clip|
    ensures PasteSoFar(clip, sr, sc, n, m, i, j, k, |clip[k]|) == PasteSoFar(clip, sr, sc, n, m, i, j, k + 1, 0)
  {
  }

  /** `paste`: every cell that some clipboard entry lands on holds the
      last such entry. */
  function Paste(g: seq<seq<Cell>>, n: nat, m: nat, clip: seq<seq<Cell>>, sr: int, sc: int): (h: seq<seq<Cell>>)
    requires Shaped(g, n, m)
    ensures Shaped(h, n, m)
    ensures forall i, j {:trigger h[i][j]} :: 0 <= i < n && 0 <= j < m ==>
      h[i][j] == match PasteSoFar(clip, sr, sc, n, m, i, j, |clip|, 0)
                 case Some(v) => v
                 case None => g[i][j]
  {
    seq(n, i requires 0 <= i < n => seq(m, j requires 0 <= j < m =>
      match PasteSoFar(clip, sr, sc, n, m, i, j, |clip|, 0)
      case Some(v) => v
      case None => g[i][j]))
  }

  /** Some write of the paste loops raises; then the first one does, and
      nothing is written. */
  predicate PasteFails(clip: seq<seq<Cell>>, sr: int, sc: int, n: nat, m: nat) {
    sc < m && exists ro :: 0 <= ro < |clip| && |clip[ro]| > 0 && sr + ro < n && (sr + ro + n < 0 || sc + m < 0)
  }

  /** Pasting what was copied from a selection inside the frame back at
      the same place changes nothing. */
  lemma PasteCopyInPlace(g: seq<seq<Cell>>, n: nat, m: nat, sr: nat, sc: nat, er: int, ec: int)
    requires Shaped(g, n, m) && sc < m
    ensures !PasteFails(CopyRect(g, n, m, sr, sc, er, ec), sr, sc, n, m)
    ensures Paste(g, n, m, CopyRect(g, n, m, sr, sc, er, ec), sr, sc) == g
  {
    var clip := CopyRect(g, n, m, sr, sc, er, ec);
    var h := Paste(g, n, m, clip, sr, sc);
    forall i, j | 0 <= i < n && 0 <= j < m
      ensures h[i][j] == g[i][j]
    {
      var p := PasteSoFar(clip, sr, sc, n, m, i, j, |clip|, 0);
      assert RowSoFar(clip, i - n - sr, sc, m, j, |clip|, 0) == None;
      var ro := i - sr;
      if p.Some? {
        assert 0 <= ro < |clip|;
        var row := clip[ro];
        assert |row| == Width(sc, ec, m);
        assert 0 <= j - sc < |row|;
        CopiedCell(g, n, m, sr, sc, er, ec, ro, j - sc);
        assert p == Some(row[j - sc]);
      }
    }
    SameCells(h, g, n, m);
  }

  // ------------------------------------------------------------------ drag

  /** `source_value + increment`: numbers count up, an empty (NaN) cell
      stays empty, text is copied unchanged. */
  function Step(v: Cell, k: int): (r: Cell)
    ensures v.Num? ==> r == Num(v.n + k)
    ensures !v.Num? ==> r == v
  {
    match v
    case Num(x) => Num(x + k)
    case _ => v
  }

  /** A fill along one line of length `m` from index `s` to index `t`:
      index `c` of `s + 1 .. t` gets `Step(v, c - s)` at the position it
      lands on, the later index winning. */
  function LineFill(line: seq<Cell>, s: int, t: int, v: Cell): (r: seq<Cell>)
    ensures |r| == |line|
  {
    var m := |line|;
    seq(m, j requires 0 <= j < m =>
      if s < j <= t then Step(v, j - s)
      else if s < j - m <= t then Step(v, j - m - s)
      else line[j])
  }

  /** Filling up to index `t` is filling up to `t - 1` and then writing
      index `t`. */
  lemma LineStep(line: seq<Cell>, s: int, t: int, v: Cell, j: nat)
    requires s < t && j < |line|
    ensures LineFill(line, s, t, v)[j] ==
      if At(j, t, |line|) then Step(v, t - s) else LineFill(line, s, t - 1, v)[j]
  {
  }

  /** A fill that stops at the line's end does what the longer fill does. */
  lemma LineClip(line: seq<Cell>, s: int, t: int, v: Cell)
    requires |line| - 1 <= t
    ensures LineFill(line, s, t, v) == LineFill(line, s, |line| - 1, v)
  {
  }

  /** What the block loops of `select_and_drag` have written by the time
      they reach cell `(r, c)`: `v` on rows `sr .. r - 1` of columns
      `sc .. tc` and on columns `sc .. c - 1` of row `r`, `g` elsewhere. */
  ghost predicate Blocked(now: seq<seq<Cell>>, g: seq<seq<Cell>>, n: nat, m: nat,
                          sr: int, sc: int, tc: int, r: int, c: int, v: Cell)
    requires Shaped(now, n, m) && Shaped(g, n, m)
  {
    forall i, j {:trigger now[i][j]} :: 0 <= i < n && 0 <= j < m ==>
      now[i][j] == if (Hit(i, sr, r - 1, n) && Hit(j, sc, tc, m)) || (At(i, r, n) && Hit(j, sc, c - 1, m))
                   then v else g[i][j]
  }

  /** Writing `v` at `(r, c)` extends the written part of row `r`. */
  lemma BlockCell(before: seq<seq<Cell>>, after: seq<seq<Cell>>, g: seq<seq<Cell>>, n: nat, m: nat,
                  sr: int, sc: int, tc: int, r: int, c: int, v: Cell)
    requires Shaped(before, n, m) && Shaped(after, n, m) && Shaped(g, n, m) && sc <= c
    requires Blocked(before, g, n, m, sr, sc, tc, r, c, v)
    requires forall i, j {:trigger after[i][j]} :: 0 <= i < n && 0 <= j < m ==>
      after[i][j] == if At(i, r, n) && At(j, c, m) then v else before[i][j]
    ensures Blocked(after, g, n, m, sr, sc, tc, r, c + 1, v)
  {
    HitNext(sc, c, m);
  }

  /** The source cell is the first of its row and already holds `v`. */
  lemma BlockSource(now: seq<seq<Cell>>, g: seq<seq<Cell>>, n: nat, m: nat,
                    sr: int, sc: int, tc: int, v: Cell)
    requires Shaped(now, n, m) && Shaped(g, n, m)
    requires Norm(sr, n).Some? && Norm(sc, m).Some? && g[Norm(sr, n).value][Norm(sc, m).value] == v
    requires Blocked(now, g, n, m, sr, sc, tc, sr, sc, v)
    ensures Blocked(now, g, n, m, sr, sc, tc, sr, sc + 1, v)
  {
    HitNext(sc, sc, m);
  }

  /** A finished row joins the rows above it. */
  lemma BlockRow(now: seq<seq<Cell>>, g: seq<seq<Cell>>, n: nat, m: nat,
                 sr: int, sc: int, tc: int, r: int, v: Cell)
    requires Shaped(now, n, m) && Shaped(g, n, m) && sr <= r
    requires Blocked(now, g, n, m, sr, sc, tc, r, tc + 1, v)
    ensures Blocked(now, g, n, m, sr, sc, tc, r + 1, sc, v)
  {
    HitNext(sr, r, n);
  }

  /** Where the block loops end: with every row done, or at the first
      write outside the sheet (only ever at the end of the source row or
      below the last row), the sheet holds the rectangle the loops filled. */
  lemma BlockDone(now: seq<seq<Cell>>, g: seq<seq<Cell>>, n: nat, m: nat,
                  sr: int, sc: int, tr: int, tc: int, r: int, c: int, v: Cell, ok: bool)
    requires Shaped(now, n, m) && Shaped(g, n, m) && sr < n && sc < m
    requires Blocked(now, g, n, m, sr, sc, tc, r, c, v)
    requires ok ==> tr < r && c == sc && (r == sr || r == tr + 1) && (sc <= tc && sr < r ==> tc < m)
    requires !ok ==> (n <= r || m <= c) && (r != sr || c != sc) && sr <= r <= tr && sc <= c <= tc && c <= m
                     && (sc < c && sr < r ==> r < n) && (sc <= tc && sr < r ==> tc < m && r <= n)
    ensures now == if sr <= tr && m <= tc then Fill(g, n, m, sr, sc, sr, m - 1, v)
                   else Fill(g, n, m, sr, sc, tr, tc, v)
  {
    var h := if sr <= tr && m <= tc then Fill(g, n, m, sr, sc, sr, m - 1, v)
             else Fill(g, n, m, sr, sc, tr, tc, v);
    forall i, j | 0 <= i < n && 0 <= j < m
      ensures now[i][j] == h[i][j]
    {
      if n - 1 <= tr {
        HitClip(i, sr, tr, n);
      }
    }
    SameCells(now, h, n, m);
  }

  /** Loops that stop at the axis' end hit what the longer loops would. */
  lemma HitClip(p: nat, s: int, e: int, n: nat)
    requires p < n && n - 1 <= e
    ensures Hit(p, s, e, n) == Hit(p, s, n - 1, n)
  {
  }

  function Column(g: seq<seq<Cell>>, n: nat, m: nat, col: nat): (r: seq<Cell>)
    requires Shaped(g, n, m) && col < m
    ensures |r| == n && forall i :: 0 <= i < n ==> r[i] == g[i][col]
  {
    seq(n, i requires 0 <= i < n => g[i][col])
  }

  function SetColumn(g: seq<seq<Cell>>, n: nat, m: nat, col: nat, line: seq<Cell>): (h: seq<seq<Cell>>)
    requires Shaped(g, n, m) && col < m && |line| == n
    ensures Shaped(h, n, m)
    ensures forall i, j {:trigger h[i][j]} :: 0 <= i < n && 0 <= j < m ==> h[i][j] == if j == col then line[i] else g[i][j]
  {
    seq(n, i requires 0 <= i < n => g[i][col := line[i]])
  }

  /** `select_and_drag` from source `(sr, sc)` (a cell `iloc` reaches) to
      target `(tr, tc)`: along the row, along the column, or over the
      block, where a block whose columns run past the end stops inside
      the source row. */
  function Drag(g: seq<seq<Cell>>, n: nat, m: nat, sr: int, sc: int, tr: int, tc: int): (h: seq<seq<Cell>>)
    requires Shaped(g, n, m) && Norm(sr, n).Some? && Norm(sc, m).Some?
    ensures Shaped(h, n, m)
  {
    var R := Norm(sr, n).value;
    var C := Norm(sc, m).value;
    var v := g[R][C];
    if sr == tr then g[R := LineFill(g[R], sc, tc, v)]
    else if sc == tc then SetColumn(g, n, m, C, LineFill(Column(g, n, m, C), sr, tr, v))
    else if sr <= tr && m <= tc then Fill(g, n, m, sr, sc, sr, m - 1, v)
    else Fill(g, n, m, sr, sc, tr, tc, v)
  }

  /** `Drag` along the source row. */
  lemma DragRowCase(g: seq<seq<Cell>>, n: nat, m: nat, sr: int, sc: int, tc: int)
    requires Shaped(g, n, m) && Norm(sr, n).Some? && Norm(sc, m).Some?
    ensures var R := Norm(sr, n).value; var v := g[R][Norm(sc, m).value];
      Drag(g, n, m, sr, sc, sr, tc) == g[R := LineFill(g[R], sc, tc, v)]
  {
  }

  /** `Drag` along the source column. */
  lemma DragColumnCase(g: seq<seq<Cell>>, n: nat, m: nat, sr: int, sc: int, tr: int)
    requires Shaped(g, n, m) && Norm(sr, n).Some? && Norm(sc, m).Some? && sr != tr
    ensures var C := Norm(sc, m).value; var v := g[Norm(sr, n).value][C];
      Drag(g, n, m, sr, sc, tr, sc) == SetColumn(g, n, m, C, LineFill(Column(g, n, m, C), sr, tr, v))
  {
  }

  /** `Drag` over a block. */
  lemma DragBlockCase(g: seq<seq<Cell>>, n: nat, m: nat, sr: int, sc: int, tr: int, tc: int)
    requires Shaped(g, n, m) && Norm(sr, n).Some? && Norm(sc, m).Some? && sr != tr && sc != tc
    ensures var v := g[Norm(sr, n).value][Norm(sc, m).value];
      Drag(g, n, m, sr, sc, tr, tc) ==
        if sr <= tr && m <= tc then Fill(g, n, m, sr, sc, sr, m - 1, v) else Fill(g, n, m, sr, sc, tr, tc, v)
  {
  }

  /** The three cases of `Drag`, one at a time. */
  lemma DragCases(g: seq<seq<Cell>>, n: nat, m: nat, sr: int, sc: int, tr: int, tc: int)
    requires Shaped(g, n, m) && Norm(sr, n).Some? && Norm(sc, m).Some?
    ensures var R := Norm(sr, n).value; var C := Norm(sc, m).value; var v := g[R][C];
      && (sr == tr ==> Drag(g, n, m, sr, sc, tr, tc) == g[R := LineFill(g[R], sc, tc, v)])
      && (sr != tr && sc == tc ==>
            Drag(g, n, m, sr, sc, tr, tc) == SetColumn(g, n, m, C, LineFill(Column(g, n, m, C), sr, tr, v)))
      && (sr != tr && sc != tc ==>
            Drag(g, n, m, sr, sc, tr, tc) ==
              if sr <= tr && m <= tc then Fill(g, n, m, sr, sc, sr, m - 1, v) else Fill(g, n, m, sr, sc, tr, tc, v))
  {
  }

  /** Along a row inside the frame, column `c` of `sc + 1 .. tc` gets the
      source stepped by `c - sc` (an arithmetic sequence from a number, a
      copy of anything else); nothing else changes. */
  lemma DragRowInside(g: seq<seq<Cell>>, n: nat, m: nat, row: nat, sc: nat, tc: int)
    requires Shaped(g, n, m) && row < n && sc < m && tc < m
    ensures var h := Drag(g, n, m, row, sc, row, tc);
      && (forall c :: sc < c <= tc ==> h[row][c] == Step(g[row][sc], c - sc))
      && (forall c :: 0 <= c < m && !(sc < c <= tc) ==> h[row][c] == g[row][c])
      && (forall i :: 0 <= i < n && i != row ==> h[i] == g[i])
      && !DragFails(row, sc, row, tc, n, m)
  {
    DragCases(g, n, m, row, sc, row, tc);
  }

  /** Down a column inside the frame, row `r` of `sr + 1 .. tr` gets the
      source stepped by `r - sr`; nothing else changes. */
  lemma DragColumnInside(g: seq<seq<Cell>>, n: nat, m: nat, sr: nat, col: nat, tr: int)
    requires Shaped(g, n, m) && sr < n && col < m && tr < n && sr != tr
    ensures var h := Drag(g, n, m, sr, col, tr, col);
      && (forall r :: sr < r <= tr ==> h[r][col] == Step(g[sr][col], r - sr))
      && (forall r, j :: 0 <= r < n && 0 <= j < m && !(j == col && sr < r <= tr) ==> h[r][j] == g[r][j])
      && !DragFails(sr, col, tr, col, n, m)
  {
    DragCases(g, n, m, sr, col, tr, col);
  }

  /** Over a block inside the frame every cell of the rectangle holds the
      source value and nothing else changes; a target above or left of
      the source changes nothing. */
  lemma DragBlockInside(g: seq<seq<Cell>>, n: nat, m: nat, sr: nat, sc: nat, tr: int, tc: int)
    requires Shaped(g, n, m) && sr < n && sc < m && tr < n && tc < m && sr != tr && sc != tc
    ensures var h := Drag(g, n, m, sr, sc, tr, tc);
      && (forall i, j :: 0 <= i < n && 0 <= j < m ==>
            h[i][j] == if sr <= i <= tr && sc <= j <= tc then g[sr][sc] else g[i][j])
      && (tr < sr || tc < sc ==> h == g)
      && !DragFails(sr, sc, tr, tc, n, m)
  {
    DragCases(g, n, m, sr, sc, tr, tc);
    var h := Drag(g, n, m, sr, sc, tr, tc);
    if tr < sr || tc < sc {
      SameCells(h, g, n, m);
    }
  }

  /** Some write of the drag loops raises `IndexError`: they run past the
      end of the row or column. */
  predicate DragFails(sr: int, sc: int, tr: int, tc: int, n: nat, m: nat) {
    if sr == tr then m <= tc
    else if sc == tc then n <= tr
    else sr <= tr && sc <= tc && (m <= tc || n <= tr)
  }

  // ---------------------------------------------------------------- styles

  datatype Font = Font(bold: bool, italic: bool, underline: bool)

  const PlainFont := Font(false, false, false)

  /** The formatting openpyxl keeps per cell: font, solid fill colour (if
      any) and number format. */
  datatype Style = Style(font: Font, fill: Option<string>, numberFormat: string)

  const DefaultStyle := Style(PlainFont, None, "General")

  /** Styles are keyed by openpyxl's 1-based (row, column); a cell never
      touched has the default style. */
  type Styles = map<(int, int), Style>

  function StyleAt(st: Styles, k: (int, int)): Style {
    if k in st then st[k] else DefaultStyle
  }

  predicate IsHexDigit(c: char) {
    '0' <= c <= '9' || 'a' <= c <= 'f' || 'A' <= c <= 'F'
  }

  /** openpyxl's colour check: six or eight hex digits, else `ValueError`. */
  predicate IsHexColor(c: string) {
    (|c| == 6 || |c| == 8) && forall i :: 0 <= i < |c| ==> IsHexDigit(c[i])
  }

  /** The aRGB value openpyxl stores for a colour: six digits get an
      alpha of `00` in front. */
  function Argb(c: string): (r: string)
    ensures IsHexColor(c) ==> |r| == 8 && r[|r| - |c|..] == c
  {
    if |c| == 6 then "00" + c else c
  }

  /** A change to a cell's style: each present part replaces that part. */
  datatype StyleEdit = StyleEdit(font: Option<Font>, fill: Option<Option<string>>, numberFormat: Option<string>)

  function Apply(s: Style, e: StyleEdit): (r: Style)
    ensures r.font == (if e.font.Some? then e.font.value else s.font)
    ensures r.fill == (if e.fill.Some? then e.fill.value else s.fill)
    ensures r.numberFormat == (if e.numberFormat.Some? then e.numberFormat.value else s.numberFormat)
  {
    Style(if e.font.Some? then e.font.value else s.font,
          if e.fill.Some? then e.fill.value else s.fill,
          if e.numberFormat.Some? then e.numberFormat.value else s.numberFormat)
  }

  predicate InBox(k: (int, int), r0: int, c0: int, r1: int, c1: int) {
    r0 <= k.0 <= r1 && c0 <= k.1 <= c1
  }

  /** `sheet.cell(row, column)` raises `ValueError` below 1; the loops'
      first cell is their smallest, so either the first call raises or
      none does. */
  predicate BoxFails(r0: int, c0: int, r1: int, c1: int) {
    r0 <= r1 && c0 <= c1 && (r0 < 1 || c0 < 1)
  }
}
