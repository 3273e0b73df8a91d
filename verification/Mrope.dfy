/**
 Multimodal rotary positions (mrope.rs): a prompt is split into runs of text, image and video-frame tokens; every
 vision run takes the next grid and numbers it row by row.
 */
module Mrope {
  import opened Arithmetic

  const I32_MAX: nat := 0x7fff_ffff
  const USIZE_MAX: nat := 0xffff_ffff_ffff_ffff

  datatype Grid = Grid(t: nat, h: nat, w: nat)

  /** Positions on the three axes. */
  datatype Pos = Pos(t: nat, h: nat, w: nat)

  datatype Result<+T> = Ok(value: T) | Err

  datatype Positions = Positions(pos: seq<Pos>, delta: int)

  // ----- one vision grid

  /** The grid in merged units: frames, rows, columns. */
  datatype Merged = Merged(t: nat, rows: nat, cols: nat)

  function MergedOf(g: Grid, merge: nat): Merged
    requires merge > 0
  {
    Merged(g.t, g.h / merge, g.w / merge)
  }

  function Tokens(x: Merged): nat {
    x.t * x.rows * x.cols
  }

  /** The grids that are accepted: not empty, and a whole number of merged rows and columns. */
  predicate GridOk(g: Grid, merge: nat) {
    merge > 0 && g.t > 0 && g.h > 0 && g.w > 0 && g.h % merge == 0 && g.w % merge == 0
  }

  method ValidateVisionGrid(g: Grid, merge: nat) returns (r: Result<Merged>)
    requires merge > 0
    ensures r.Ok? <==> GridOk(g, merge) && Tokens(MergedOf(g, merge)) <= USIZE_MAX
    ensures r.Ok? ==> r.value == MergedOf(g, merge) && r.value.rows > 0 && r.value.cols > 0
  {
    if g.t == 0 || g.h == 0 || g.w == 0 || g.h % merge != 0 || g.w % merge != 0 {
      return Err;
    }
    var x := MergedOf(g, merge);
    MergedPositive(g.h, merge);
    MergedPositive(g.w, merge);
    if x.t * x.rows > USIZE_MAX {
      ProductGrows(x.t * x.rows, x.cols);
      return Err;
    }
    if Tokens(x) > USIZE_MAX {
      return Err;
    }
    r := Ok(x);
  }

  lemma MergedPositive(side: nat, merge: nat)
    requires merge > 0 && side > 0 && side % merge == 0
    ensures side / merge > 0
  {
    assert side == (side / merge) * merge + side % merge;
  }

  lemma ProductGrows(a: nat, b: nat)
    requires b > 0
    ensures a * b >= a
  {
    MulMono(1, b, a);
  }

  function Row(start: nat, tt: nat, hh: nat, cols: nat): seq<Pos> {
    seq(cols, ww requires 0 <= ww => Pos(start + tt, start + hh, start + ww))
  }

  function Frame(start: nat, tt: nat, rows: nat, cols: nat): seq<Pos> {
    if rows == 0 then [] else Frame(start, tt, rows - 1, cols) + Row(start, tt, rows - 1, cols)
  }

  /** The positions of a grid: frames, in them rows, in them columns. */
  function Block(start: nat, t: nat, rows: nat, cols: nat): seq<Pos> {
    if t == 0 then [] else Block(start, t - 1, rows, cols) + Frame(start, t - 1, rows, cols)
  }

  /** The largest offset that the block uses, plus one. */
  function Extent(x: Merged): nat {
    if x.t >= x.rows && x.t >= x.cols then x.t else if x.rows >= x.cols then x.rows else x.cols
  }

  lemma {:induction false} FrameAt(start: nat, tt: nat, rows: nat, cols: nat, hh: nat, ww: nat)
    requires hh < rows && ww < cols
    ensures |Frame(start, tt, rows, cols)| == rows * cols && hh * cols + ww < rows * cols
    ensures Frame(start, tt, rows, cols)[hh * cols + ww] == Pos(start + tt, start + hh, start + ww)
  {
    FrameSize(start, tt, rows, cols);
    FrameSize(start, tt, rows - 1, cols);
    IndexInside(hh, ww, rows, cols);
    if hh < rows - 1 {
      FrameAt(start, tt, rows - 1, cols, hh, ww);
    }
  }

  lemma MulPred(a: nat, b: nat)
    requires a > 0
    ensures (a - 1) * b + b == a * b
  {
    Distribute(a - 1, 1, b);
  }

  lemma {:induction false} FrameSize(start: nat, tt: nat, rows: nat, cols: nat)
    ensures |Frame(start, tt, rows, cols)| == rows * cols
  {
    if rows > 0 {
      FrameSize(start, tt, rows - 1, cols);
      MulPred(rows, cols);
    }
  }

  lemma IndexInside(hh: nat, ww: nat, rows: nat, cols: nat)
    requires hh < rows && ww < cols
    ensures hh * cols + ww < rows * cols
  {
    MulMono(hh + 1, rows, cols);
    Distribute(hh, 1, cols);
  }

  lemma {:induction false} BlockSize(start: nat, t: nat, rows: nat, cols: nat)
    ensures |Block(start, t, rows, cols)| == t * (rows * cols)
  {
    if t > 0 {
      BlockSize(start, t - 1, rows, cols);
      FrameSize(start, t - 1, rows, cols);
      MulPred(t, rows * cols);
    }
  }

  /** Row-major enumeration: where each point of the grid stands, and what its position is. */
  lemma {:induction false} BlockIsRowMajor(start: nat, t: nat, rows: nat, cols: nat, tt: nat, hh: nat, ww: nat)
    requires tt < t && hh < rows && ww < cols
    ensures var k := tt * (rows * cols) + (hh * cols + ww);
            && k < t * (rows * cols) == |Block(start, t, rows, cols)|
            && Block(start, t, rows, cols)[k] == Pos(start + tt, start + hh, start + ww)
  {
    BlockSize(start, t, rows, cols);
    BlockSize(start, t - 1, rows, cols);
    FrameAt(start, t - 1, rows, cols, hh, ww);
    IndexInside(tt, hh * cols + ww, t, rows * cols);
    if tt < t - 1 {
      BlockIsRowMajor(start, t - 1, rows, cols, tt, hh, ww);
    }
  }

  /** Every entry of the block is a point of the grid. */
  lemma {:induction false} BlockEntries(start: nat, t: nat, rows: nat, cols: nat, k: nat)
    requires k < |Block(start, t, rows, cols)|
    ensures var p := Block(start, t, rows, cols)[k];
            start <= p.t < start + t && start <= p.h < start + rows && start <= p.w < start + cols
  {
    var front := Block(start, t - 1, rows, cols);
    if k < |front| {
      BlockEntries(start, t - 1, rows, cols, k);
    } else {
      FrameEntries(start, t - 1, rows, cols, k - |front|);
    }
  }

  lemma {:induction false} FrameEntries(start: nat, tt: nat, rows: nat, cols: nat, k: nat)
    requires k < |Frame(start, tt, rows, cols)|
    ensures var p := Frame(start, tt, rows, cols)[k];
            p.t == start + tt && start <= p.h < start + rows && start <= p.w < start + cols
  {
    if k < |Frame(start, tt, rows - 1, cols)| {
      FrameEntries(start, tt, rows - 1, cols, k);
    }
  }

  /** A position that the code can hold. */
  method CheckedAdd(start: nat, v: nat) returns (r: Result<nat>)
    ensures r == if start + v <= I32_MAX then Ok(start + v) else Err
  {
    if v > I32_MAX || start + v > I32_MAX {
      return Err;
    }
    r := Ok(start + v);
  }

  /** Fills a vision run; fails exactly when a position of the grid exceeds 32 bits. */
  method VisionPositions(x: Merged, start: nat) returns (r: Result<seq<Pos>>)
    requires x.t > 0 && x.rows > 0 && x.cols > 0
    ensures r == if start + Extent(x) - 1 <= I32_MAX then Ok(Block(start, x.t, x.rows, x.cols)) else Err
  {
    var out: seq<Pos> := [];
    for tt := 0 to x.t
      invariant out == Block(start, tt, x.rows, x.cols)
      invariant tt > 0 ==> start + tt - 1 <= I32_MAX && start + x.rows - 1 <= I32_MAX && start + x.cols - 1 <= I32_MAX
    {
      ghost var frames := out;
      for hh := 0 to x.rows
        invariant out == frames + Frame(start, tt, hh, x.cols)
        invariant hh > 0 ==> start + tt <= I32_MAX && start + hh - 1 <= I32_MAX && start + x.cols - 1 <= I32_MAX
      {
        ghost var rows := out;
        for ww := 0 to x.cols
          invariant out == rows + Row(start, tt, hh, x.cols)[..ww]
          invariant ww > 0 ==> start + tt <= I32_MAX && start + hh <= I32_MAX && start + ww - 1 <= I32_MAX
        {
          var pt := CheckedAdd(start, tt);
          if pt.Err? {
            return Err;
          }
          var ph := CheckedAdd(start, hh);
          if ph.Err? {
            return Err;
          }
          var pw := CheckedAdd(start, ww);
          if pw.Err? {
            return Err;
          }
          out := out + [Pos(pt.value, ph.value, pw.value)];
        }
        assert Row(start, tt, hh, x.cols)[..x.cols] == Row(start, tt, hh, x.cols);
        assert frames + (Frame(start, tt, hh, x.cols) + Row(start, tt, hh, x.cols)) == out;
      }
    }
    r := Ok(out);
  }

  /** Where the numbering goes on after a grid: past the larger of its two spatial sides. */
  function Step(x: Merged): nat {
    if x.rows >= x.cols then x.rows else x.cols
  }

  /**
   All positions of a grid lie between its start and the start of what follows exactly if it has no more frames
   than the longer side has merged units.
   */
  lemma GroupStaysInsideIff(x: Merged, start: nat)
    requires x.t > 0 && x.rows > 0 && x.cols > 0
    ensures AllInside(Block(start, x.t, x.rows, x.cols), start, start + Step(x)) <==> x.t <= Step(x)
  {
    var b := Block(start, x.t, x.rows, x.cols);
    forall k: nat | k < |b|
      ensures Inside(b[k], start, start + Extent(x))
    {
      BlockEntries(start, x.t, x.rows, x.cols, k);
    }
    var last := LastFrame(x, start);
    assert b[last].t == start + x.t - 1;
  }

  lemma LastFrame(x: Merged, start: nat) returns (k: nat)
    requires x.t > 0 && x.rows > 0 && x.cols > 0
    ensures k < |Block(start, x.t, x.rows, x.cols)|
    ensures Block(start, x.t, x.rows, x.cols)[k] == Pos(start + x.t - 1, start, start)
  {
    BlockIsRowMajor(start, x.t, x.rows, x.cols, x.t - 1, 0, 0);
    k := (x.t - 1) * (x.rows * x.cols) + (0 * x.cols + 0);
  }

  predicate Inside(p: Pos, from: nat, to: nat) {
    from <= p.t < to && from <= p.h < to && from <= p.w < to
  }

  method AdvanceVisionPos(g: Grid, merge: nat, current: nat) returns (r: Result<nat>)
    requires merge > 0
    ensures r == var step := Step(MergedOf(g, merge));
                 if current + step <= I32_MAX then Ok(current + step) else Err
  {
    var longer := if g.h >= g.w then g.h else g.w;
    DivMono(g.h, longer, merge);
    DivMono(g.w, longer, merge);
    r := CheckedAdd(current, longer / merge);
  }

  // ----- the whole prompt

  const TEXT: nat := 0
  const IMAGE: nat := 1
  const VIDEO: nat := 2

  function Text(start: nat, n: nat): seq<Pos> {
    seq(n, k requires 0 <= k => Pos(start + k, start + k, start + k))
  }

  /** Length of the run at the front. */
  function RunLength(types: seq<nat>): (n: nat)
    requires types != []
    ensures 1 <= n <= |types|
    ensures forall k :: 0 <= k < n ==> types[k] == types[0]
    ensures n < |types| ==> types[n] != types[0]
  {
    if |types| == 1 || types[1] != types[0] then 1 else 1 + RunLength(types[1..])
  }

  /** The grid takes a run of this length at this position. */
  predicate GroupFits(g: Grid, merge: nat, n: nat, current: nat) {
    && GridOk(g, merge) && Tokens(MergedOf(g, merge)) == n
    && current + Extent(MergedOf(g, merge)) - 1 <= I32_MAX
    && current + Step(MergedOf(g, merge)) <= I32_MAX
  }

  datatype Layout = Rejected | Placed(pos: seq<Pos>, end: nat)

  function Before(pos: seq<Pos>, rest: Layout): Layout {
    if rest.Rejected? then Rejected else Placed(pos + rest.pos, rest.end)
  }

  function Grouped(g: Grid, merge: nat, current: nat, rest: Layout): Layout
    requires merge > 0
  {
    var x := MergedOf(g, merge);
    Before(Block(current, x.t, x.rows, x.cols), rest)
  }

  /** The positions of a prompt: run by run, every vision run taking the next grid of its kind, none left over. */
  function LayoutFrom(types: seq<nat>, images: seq<Grid>, frames: seq<Grid>, merge: nat, current: nat): Layout
    requires merge > 0
    decreases |types|
  {
    if types == [] then
      if images == [] && frames == [] then Placed([], current) else Rejected
    else
      var n := RunLength(types);
      var rest := types[n..];
      if types[0] == TEXT then
        if current + n > I32_MAX then Rejected
        else Before(Text(current, n), LayoutFrom(rest, images, frames, merge, current + n))
      else if types[0] == IMAGE then
        if images == [] || !GroupFits(images[0], merge, n, current) then Rejected
        else Grouped(images[0], merge, current,
                     LayoutFrom(rest, images[1..], frames, merge, current + Step(MergedOf(images[0], merge))))
      else if types[0] == VIDEO then
        if frames == [] || !GroupFits(frames[0], merge, n, current) then Rejected
        else Grouped(frames[0], merge, current,
                     LayoutFrom(rest, images, frames[1..], merge, current + Step(MergedOf(frames[0], merge))))
      else Rejected
  }

  /** Every video grid stands for one grid a frame. */
  function FramesOf(grids: seq<Grid>): seq<Grid> {
    if grids == [] then [] else
      FramesOf(grids[..|grids| - 1]) + seq(grids[|grids| - 1].t, _ => grids[|grids| - 1].(t := 1))
  }

  function TokensOf(grids: seq<Grid>, merge: nat): nat
    requires merge > 0
  {
    if grids == [] then 0 else
      TokensOf(grids[..|grids| - 1], merge) + Tokens(MergedOf(grids[|grids| - 1], merge))
  }

  predicate GridsFit(grids: seq<Grid>, merge: nat, n: nat) {
    merge > 0 && (forall i :: 0 <= i < |grids| ==> GridOk(grids[i], merge)) && TokensOf(grids, merge) <= n
  }

  /** The largest coordinate of a list of positions. */
  function MaxOf(pos: seq<Pos>): nat {
    if pos == [] then 0 else
      var p, m := pos[|pos| - 1], MaxOf(pos[..|pos| - 1]);
      Max(Max(p.t, p.h), Max(p.w, m))
  }

  function Max(a: nat, b: nat): nat {
    if a >= b then a else b
  }

  /** Checks all grids of one kind against the length of the prompt. */
  method CheckGrids(grids: seq<Grid>, merge: nat, n: nat) returns (ok: bool)
    requires merge > 0 && n <= USIZE_MAX
    ensures ok <==> GridsFit(grids, merge, n)
  {
    var total := 0;
    for i := 0 to |grids|
      invariant total == TokensOf(grids[..i], merge) <= USIZE_MAX
      invariant forall k :: 0 <= k < i ==> GridOk(grids[k], merge)
    {
      TokensGrow(grids, merge, i);
      var x := ValidateVisionGrid(grids[i], merge);
      if x.Err? || total + Tokens(x.value) > USIZE_MAX {
        return false;
      }
      total := total + Tokens(x.value);
    }
    assert grids[..|grids|] == grids;
    ok := total <= n;
  }

  lemma TokensGrow(grids: seq<Grid>, merge: nat, i: nat)
    requires merge > 0 && i < |grids|
    ensures TokensOf(grids[..i + 1], merge) == TokensOf(grids[..i], merge) + Tokens(MergedOf(grids[i], merge))
    ensures TokensOf(grids[..i + 1], merge) <= TokensOf(grids, merge)
  {
    assert grids[..i + 1][..i] == grids[..i];
    TokensOfPrefix(grids, merge, i + 1);
  }

  lemma {:induction false} TokensOfPrefix(grids: seq<Grid>, merge: nat, n: nat)
    requires merge > 0 && n <= |grids|
    ensures TokensOf(grids[..n], merge) <= TokensOf(grids, merge)
  {
    if n == |grids| {
      assert grids[..n] == grids;
    } else {
      TokensOfPrefix(grids[..|grids| - 1], merge, n);
      assert grids[..|grids| - 1][..n] == grids[..n];
    }
  }

  method ExpandFrames(grids: seq<Grid>) returns (frames: seq<Grid>)
    ensures frames == FramesOf(grids)
  {
    frames := [];
    for i := 0 to |grids|
      invariant frames == FramesOf(grids[..i])
    {
      ghost var before := frames;
      var g := grids[i];
      for k := 0 to g.t
        invariant frames == before + seq(k, _ => g.(t := 1))
      {
        frames := frames + [Grid(1, g.h, g.w)];
      }
      assert grids[..i + 1][..i] == grids[..i];
    }
    assert grids[..|grids|] == grids;
  }

  /** One vision run: the next grid must be there and have as many tokens as the run. */
  method PlaceGroup(grids: seq<Grid>, idx: nat, merge: nat, n: nat, current: nat)
    returns (r: Result<seq<Pos>>, next: nat)
    requires merge > 0 && idx <= |grids| && n <= USIZE_MAX
    ensures r.Ok? <==> idx < |grids| && GroupFits(grids[idx], merge, n, current)
    ensures r.Ok? ==> var x := MergedOf(grids[idx], merge);
                      r.value == Block(current, x.t, x.rows, x.cols) && next == current + Step(x)
  {
    next := current;
    if idx == |grids| {
      return Err, next;
    }
    var x := ValidateVisionGrid(grids[idx], merge);
    if x.Err? || Tokens(x.value) != n {
      return Err, next;
    }
    r := VisionPositions(x.value, current);
    if r.Ok? {
      var moved := AdvanceVisionPos(grids[idx], merge, current);
      if moved.Err? {
        return Err, next;
      }
      next := moved.value;
    }
  }

  /** Everything before the positions themselves are laid out. */
  predicate InputOk(ids: nat, types: seq<nat>, images: seq<Grid>, videos: seq<Grid>, merge: nat) {
    && ids == |types| && types != [] && merge > 0
    && GridsFit(images, merge, ids) && GridsFit(videos, merge, ids)
  }

  /** The positions of the prompt, and how far decoding positions run behind its length. */
  method MropePositions(ids: nat, types: seq<nat>, images: seq<Grid>, videos: seq<Grid>, merge: nat)
    returns (r: Result<Positions>)
    requires ids <= USIZE_MAX
    ensures r == if !InputOk(ids, types, images, videos, merge) then Err else
                   var l := LayoutFrom(types, images, FramesOf(videos), merge, 0);
                   if l.Rejected? || MaxOf(l.pos) + 1 > I32_MAX || ids > I32_MAX then Err
                   else Ok(Positions(l.pos, MaxOf(l.pos) + 1 - ids))
  {
    hide LayoutFrom, MaxOf, GridsFit, FramesOf;
    if ids != |types| || ids == 0 || merge == 0 {
      return Err;
    }
    var imagesOk := CheckGrids(images, merge, ids);
    if !imagesOk {
      return Err;
    }
    var videosOk := CheckGrids(videos, merge, ids);
    if !videosOk {
      return Err;
    }
    var frames := ExpandFrames(videos);
    var placed := PlaceAll(types, images, frames, merge);
    if placed.Err? {
      return Err;
    }
    var maxPos := MaxPosition(placed.value);
    if maxPos + 1 > I32_MAX || ids > I32_MAX {
      return Err;
    }
    r := Ok(Positions(placed.value, maxPos + 1 - ids));
  }

  method MaxPosition(pos: seq<Pos>) returns (m: nat)
    ensures m == MaxOf(pos)
  {
    m := 0;
    for i := 0 to |pos|
      invariant m == MaxOf(pos[..i])
    {
      m := Max(Max(pos[i].t, pos[i].h), Max(pos[i].w, m));
      assert pos[..i + 1][..i] == pos[..i];
    }
    assert pos[..|pos|] == pos;
  }

  /** The loop over the runs of the prompt. */
  method PlaceAll(types: seq<nat>, images: seq<Grid>, frames: seq<Grid>, merge: nat) returns (r: Result<seq<Pos>>)
    requires merge > 0 && |types| <= USIZE_MAX
    ensures var l := LayoutFrom(types, images, frames, merge, 0);
            r == if l.Rejected? then Err else Ok(l.pos)
  {
    hide LayoutFrom, Block, Text, GroupFits;
    ghost var whole := LayoutFrom(types, images, frames, merge, 0);
    var pos: seq<Pos>, imageIdx: nat, videoIdx: nat, current: nat, i: nat := [], 0, 0, 0, 0;
    assert types[0..] == types && images[0..] == images && frames[0..] == frames;
    BeforeNothing(whole);
    while i < |types|
      invariant i <= |types| && imageIdx <= |images| && videoIdx <= |frames|
      invariant whole == Before(pos, LayoutFrom(types[i..], images[imageIdx..], frames[videoIdx..], merge, current))
    {
      var n := ScanRun(types, i);
      LayoutStep(types, images, frames, merge, current, i, imageIdx, videoIdx);
      var group;
      if types[i] == TEXT {
        group := PlaceText(n, current);
        if group.Err? {
          return Err;
        }
        current := current + n;
      } else if types[i] == IMAGE {
        var next;
        group, next := PlaceGroup(images, imageIdx, merge, n, current);
        if group.Err? {
          return Err;
        }
        imageIdx, current := imageIdx + 1, next;
      } else if types[i] == VIDEO {
        var next;
        group, next := PlaceGroup(frames, videoIdx, merge, n, current);
        if group.Err? {
          return Err;
        }
        videoIdx, current := videoIdx + 1, next;
      } else {
        return Err;
      }
      BeforeTwice(pos, group.value, LayoutFrom(types[i + n..], images[imageIdx..], frames[videoIdx..], merge, current));
      pos := pos + group.value;
      i := i + n;
    }
    LayoutEnd(types, images, frames, merge, current, imageIdx, videoIdx);
    if imageIdx != |images| || videoIdx != |frames| {
      return Err;
    }
    assert pos + [] == pos;
    r := Ok(pos);
  }

  /** One step of the layout, in terms of positions in the lists. */
  lemma LayoutStep(types: seq<nat>, images: seq<Grid>, frames: seq<Grid>, merge: nat, current: nat, i: nat, a: nat,
                   b: nat)
    requires merge > 0 && i < |types| && a <= |images| && b <= |frames|
    ensures var n := RunLength(types[i..]);
            && i + n <= |types|
            && LayoutFrom(types[i..], images[a..], frames[b..], merge, current) ==
               if types[i] == TEXT then
                 if current + n > I32_MAX then Rejected
                 else Before(Text(current, n), LayoutFrom(types[i + n..], images[a..], frames[b..], merge, current + n))
               else if types[i] == IMAGE then
                 if a == |images| || !GroupFits(images[a], merge, n, current) then Rejected
                 else Grouped(images[a], merge, current,
                              LayoutFrom(types[i + n..], images[a + 1..], frames[b..], merge,
                                         current + Step(MergedOf(images[a], merge))))
               else if types[i] == VIDEO then
                 if b == |frames| || !GroupFits(frames[b], merge, n, current) then Rejected
                 else Grouped(frames[b], merge, current,
                              LayoutFrom(types[i + n..], images[a..], frames[b + 1..], merge,
                                         current + Step(MergedOf(frames[b], merge))))
               else Rejected
  {
    hide GroupFits, Block, Text, Before, MergedOf, Step, RunLength, Grouped;
    var ts, gs, fs := types[i..], images[a..], frames[b..];
    var n := RunLength(ts);
    assert ts[n..] == types[i + n..] && ts[0] == types[i];
    assert (gs == [] <==> a == |images|) && (fs == [] <==> b == |frames|);
    if types[i] == IMAGE {
      assert a < |images| ==> gs[0] == images[a] && gs[1..] == images[a + 1..];
    } else if types[i] == VIDEO {
      assert b < |frames| ==> fs[0] == frames[b] && fs[1..] == frames[b + 1..];
    }
  }

  lemma LayoutEnd(types: seq<nat>, images: seq<Grid>, frames: seq<Grid>, merge: nat, current: nat, a: nat, b: nat)
    requires merge > 0 && a <= |images| && b <= |frames|
    ensures LayoutFrom(types[|types|..], images[a..], frames[b..], merge, current) ==
            if a == |images| && b == |frames| then Placed([], current) else Rejected
  {
  }

  lemma BeforeNothing(l: Layout)
    ensures Before([], l) == l
  {
  }

  lemma BeforeTwice(a: seq<Pos>, b: seq<Pos>, rest: Layout)
    ensures Before(a, Before(b, rest)) == Before(a + b, rest)
  {
    if rest.Placed? {
      assert a + (b + rest.pos) == (a + b) + rest.pos;
    }
  }

  method ScanRun(types: seq<nat>, i: nat) returns (n: nat)
    requires i < |types|
    ensures i + n <= |types| && n == RunLength(types[i..])
  {
    var j := i;
    while j < |types| && types[j] == types[i]
      invariant i <= j <= |types| && forall k :: i <= k < j ==> types[k] == types[i]
    {
      j := j + 1;
    }
    n := j - i;
    ghost var rest := types[i..];
    assert forall k :: 0 <= k < n ==> rest[k] == types[i + k];
    RunIs(rest, n);
  }

  lemma {:induction false} RunIs(types: seq<nat>, n: nat)
    requires 1 <= n <= |types| && (forall k :: 0 <= k < n ==> types[k] == types[0])
    requires n < |types| ==> types[n] != types[0]
    ensures RunLength(types) == n
  {
    if n > 1 {
      RunIs(types[1..], n - 1);
    }
  }

  method PlaceText(n: nat, current: nat) returns (r: Result<seq<Pos>>)
    requires n > 0
    ensures r == if current + n <= I32_MAX then Ok(Text(current, n)) else Err
  {
    var out: seq<Pos> := [];
    for k := 0 to n
      invariant out == Text(current, k) && (k > 0 ==> current + k - 1 <= I32_MAX)
    {
      var p := CheckedAdd(current, k);
      if p.Err? {
        return Err;
      }
      out := out + [Pos(p.value, p.value, p.value)];
    }
    var moved := CheckedAdd(current, n);
    r := if moved.Ok? then Ok(out) else Err;
  }

  // ----- what the layout means

  lemma TokensCover(x: Merged)
    requires x.t > 0 && x.rows > 0 && x.cols > 0
    ensures Extent(x) <= Tokens(x) && 1 <= Step(x) <= Tokens(x)
  {
    ProductCovers(x.t, x.rows);
    ProductCovers(x.t * x.rows, x.cols);
  }

  lemma ProductCovers(a: nat, b: nat)
    requires a > 0 && b > 0
    ensures a * b >= a && a * b >= b
  {
    MulMono(1, a, b);
    MulMono(1, b, a);
  }

  predicate AllInside(pos: seq<Pos>, from: nat, to: nat) {
    forall k :: 0 <= k < |pos| ==> Inside(pos[k], from, to)
  }

  lemma InsideConcat(a: seq<Pos>, b: seq<Pos>, from: nat, mid: nat, to: nat, end: nat)
    requires AllInside(a, from, to) && AllInside(b, mid, end) && from <= mid && to <= end
    ensures AllInside(a + b, from, end)
  {
  }

  /** What one run contributes: as many positions as tokens, in the range of its tokens. */
  ghost predicate RunOk(run: seq<Pos>, n: nat, current: nat, next: nat) {
    && |run| == n && current < next <= current + n
    && AllInside(run, current, current + n) && Reaches(run, next - 1)
  }

  /** A run of text counts on; a vision run takes the first grid of its kind. */
  ghost predicate TakesGrid(kind: nat, n: nat, run: seq<Pos>, images: seq<Grid>, frames: seq<Grid>, merge: nat,
                            current: nat, images': seq<Grid>, frames': seq<Grid>, next: nat)
    requires merge > 0
  {
    if kind == TEXT then images' == images && frames' == frames && run == Text(current, n) && next == current + n
    else if kind == IMAGE then
      images != [] && images' == images[1..] && frames' == frames && GridRun(images[0], n, run, merge, current, next)
    else
      && kind == VIDEO && frames != [] && frames' == frames[1..] && images' == images
      && GridRun(frames[0], n, run, merge, current, next)
  }

  ghost predicate GridRun(g: Grid, n: nat, run: seq<Pos>, merge: nat, current: nat, next: nat)
    requires merge > 0
  {
    var x := MergedOf(g, merge);
    && GridOk(g, merge) && n == Tokens(x) && run == Block(current, x.t, x.rows, x.cols) && next == current + Step(x)
  }

  /** The next run of a prompt that is laid out, its positions, and the rest. */
  lemma FirstRun(types: seq<nat>, images: seq<Grid>, frames: seq<Grid>, merge: nat, current: nat)
    returns (n: nat, run: seq<Pos>, images': seq<Grid>, frames': seq<Grid>, next: nat)
    requires merge > 0 && types != [] && LayoutFrom(types, images, frames, merge, current).Placed?
    ensures n == RunLength(types) && RunOk(run, n, current, next)
    ensures LayoutFrom(types[n..], images', frames', merge, next).Placed?
    ensures LayoutFrom(types, images, frames, merge, current) ==
            Before(run, LayoutFrom(types[n..], images', frames', merge, next))
    ensures TakesGrid(types[0], n, run, images, frames, merge, current, images', frames', next)
    ensures Flat(images, merge) && Flat(frames, merge) ==>
              Flat(images', merge) && Flat(frames', merge) && AllInside(run, current, next)
  {
    hide Block, Text, GroupFits, Step, MergedOf, RunOk, AllInside, Reaches, Inside;
    n := RunLength(types);
    images', frames', next := images, frames, current + n;
    if types[0] == TEXT {
      run := Text(current, n);
      TextRun(n, current);
    } else if types[0] == IMAGE {
      images' := images[1..];
      FitsIs(images[0], merge, n, current);
      run, next := FitRun(images[0], merge, n, current);
    } else {
      frames' := frames[1..];
      FitsIs(frames[0], merge, n, current);
      run, next := FitRun(frames[0], merge, n, current);
    }
  }

  lemma FitsIs(g: Grid, merge: nat, n: nat, current: nat)
    requires GroupFits(g, merge, n, current)
    ensures GridOk(g, merge) && n == Tokens(MergedOf(g, merge))
  {
  }

  lemma TextRun(n: nat, current: nat)
    requires n > 0
    ensures RunOk(Text(current, n), n, current, current + n)
  {
    var run := Text(current, n);
    assert run[n - 1] == Pos(current + n - 1, current + n - 1, current + n - 1);
  }

  lemma FitRun(g: Grid, merge: nat, n: nat, current: nat) returns (run: seq<Pos>, next: nat)
    requires GroupFits(g, merge, n, current)
    ensures var x := MergedOf(g, merge);
            run == Block(current, x.t, x.rows, x.cols) && next == current + Step(x)
    ensures RunOk(run, n, current, next)
    ensures g.t <= Step(MergedOf(g, merge)) ==> AllInside(run, current, next)
  {
    hide RunOk, AllInside, Block, Step, Tokens, Extent;
    var x := MergedOf(g, merge);
    run, next := Block(current, x.t, x.rows, x.cols), current + Step(x);
    MergedPositive(g.h, merge);
    MergedPositive(g.w, merge);
    GroupRun(x, current);
  }

  /** No grid has more frames than its longer side has merged units. */
  predicate Flat(grids: seq<Grid>, merge: nat)
    requires merge > 0
  {
    forall i :: 0 <= i < |grids| ==> grids[i].t <= Step(MergedOf(grids[i], merge))
  }

  /** Some coordinate is `m`. */
  predicate Reaches(pos: seq<Pos>, m: int) {
    exists k :: 0 <= k < |pos| && (pos[k].t == m || pos[k].h == m || pos[k].w == m)
  }

  lemma GroupRun(x: Merged, current: nat)
    requires x.t > 0 && x.rows > 0 && x.cols > 0
    ensures var run := Block(current, x.t, x.rows, x.cols);
            && RunOk(run, Tokens(x), current, current + Step(x))
            && (x.t <= Step(x) ==> AllInside(run, current, current + Step(x)))
  {
    hide Block, Tokens;
    var run := Block(current, x.t, x.rows, x.cols);
    GroupSize(x, current);
    TokensCover(x);
    forall k: nat | k < |run|
      ensures Inside(run[k], current, current + Extent(x))
    {
      BlockEntries(current, x.t, x.rows, x.cols, k);
    }
    var k := BlockCorner(x, current);
    assert run[k].h == current + Step(x) - 1 || run[k].w == current + Step(x) - 1;
  }

  lemma GroupSize(x: Merged, current: nat)
    ensures |Block(current, x.t, x.rows, x.cols)| == Tokens(x)
  {
    BlockSize(current, x.t, x.rows, x.cols);
    assert x.t * (x.rows * x.cols) == x.t * x.rows * x.cols;
  }

  lemma BlockCorner(x: Merged, current: nat) returns (k: nat)
    requires x.t > 0 && x.rows > 0 && x.cols > 0
    ensures k < |Block(current, x.t, x.rows, x.cols)|
    ensures Block(current, x.t, x.rows, x.cols)[k] == Pos(current, current + x.rows - 1, current + x.cols - 1)
  {
    BlockIsRowMajor(current, x.t, x.rows, x.cols, 0, x.rows - 1, x.cols - 1);
    k := 0 * (x.rows * x.cols) + ((x.rows - 1) * x.cols + (x.cols - 1));
  }

  /** Every token has a position, none below the start, none beyond the number of tokens. */
  lemma {:induction false} PositionsInRange(types: seq<nat>, images: seq<Grid>, frames: seq<Grid>, merge: nat,
                                            current: nat)
    requires merge > 0 && LayoutFrom(types, images, frames, merge, current).Placed?
    ensures var l := LayoutFrom(types, images, frames, merge, current);
            |l.pos| == |types| && current <= l.end <= current + |types| && AllInside(l.pos, current, current + |types|)
    decreases |types|
  {
    if types == [] {
      assert LayoutFrom(types, images, frames, merge, current).pos == [];
    } else {
      hide LayoutFrom, RunLength, AllInside, Flat, Reaches;
      var n, run, images', frames', next := FirstRun(types, images, frames, merge, current);
      PositionsInRange(types[n..], images', frames', merge, next);
      var rest := LayoutFrom(types[n..], images', frames', merge, next);
      WiderRange(rest.pos, next, next + |types[n..]|, current + |types|);
      InsideConcat(run, rest.pos, current, next, current + n, current + |types|);
    }
  }

  lemma WiderRange(pos: seq<Pos>, from: nat, to: nat, end: nat)
    requires AllInside(pos, from, to) && to <= end
    ensures AllInside(pos, from, end)
  {
  }

  /** The decode offset never runs ahead: it is not positive, and with the prompt length it is past every position. */
  lemma DeltaIsNotPositive(types: seq<nat>, images: seq<Grid>, frames: seq<Grid>, merge: nat)
    requires merge > 0 && types != [] && LayoutFrom(types, images, frames, merge, 0).Placed?
    ensures var pos := LayoutFrom(types, images, frames, merge, 0).pos;
            && MaxOf(pos) + 1 - |types| <= 0
            && Reaches(pos, MaxOf(pos)) && AllInside(pos, 0, MaxOf(pos) + 1)
  {
    hide LayoutFrom;
    var pos := LayoutFrom(types, images, frames, merge, 0).pos;
    PositionsInRange(types, images, frames, merge, 0);
    MaxIsLargest(pos);
  }

  lemma {:induction false} MaxIsLargest(pos: seq<Pos>)
    ensures AllInside(pos, 0, MaxOf(pos) + 1)
    ensures pos != [] ==> Reaches(pos, MaxOf(pos))
  {
    if pos != [] {
      var n := |pos| - 1;
      MaxIsLargest(pos[..n]);
      if n > 0 && MaxOf(pos) == MaxOf(pos[..n]) {
        var k :| 0 <= k < n
                 && (pos[..n][k].t == MaxOf(pos) || pos[..n][k].h == MaxOf(pos) || pos[..n][k].w == MaxOf(pos));
        assert pos[k] == pos[..n][k];
      }
    }
  }

  lemma BoundaryAfterRun(types: seq<nat>, m: nat)
    requires 0 < m < |types| && types[m] != types[m - 1]
    ensures RunLength(types) <= m
  {
  }

  predicate Below(p: Pos, q: Pos) {
    && p.t < q.t && p.h < q.h && p.w < q.w
    && p.t < q.h && p.t < q.w && p.h < q.t && p.h < q.w && p.w < q.t && p.w < q.h
  }

  lemma {:induction false} LaterInLayout(types: seq<nat>, images: seq<Grid>, frames: seq<Grid>, merge: nat,
                                         current: nat, j: nat, m: nat, k: nat)
    requires merge > 0 && LayoutFrom(types, images, frames, merge, current).Placed?
    requires Flat(images, merge) && Flat(frames, merge)
    requires j < m <= k < |types| && types[m] != types[m - 1]
    ensures var pos := LayoutFrom(types, images, frames, merge, current).pos;
            |pos| == |types| && Below(pos[j], pos[k])
    decreases |types|
  {
    hide LayoutFrom, RunLength, Flat, Reaches;
    var n, run, images', frames', next := FirstRun(types, images, frames, merge, current);
    PositionsInRange(types, images, frames, merge, current);
    PositionsInRange(types[n..], images', frames', merge, next);
    var pos, rest := LayoutFrom(types, images, frames, merge, current).pos,
      LayoutFrom(types[n..], images', frames', merge, next).pos;
    assert pos == run + rest;
    BoundaryAfterRun(types, m);
    assert pos[k] == rest[k - n];
    if j < n {
      assert Inside(run[j], current, next) && Inside(rest[k - n], next, next + |types[n..]|);
    } else {
      hide Below, AllInside;
      LaterInLayout(types[n..], images', frames', merge, next, j - n, m - n, k - n);
      assert pos[j] == rest[j - n];
    }
  }

  lemma {:induction false} EndOfLayout(types: seq<nat>, images: seq<Grid>, frames: seq<Grid>, merge: nat, current: nat)
    requires merge > 0 && types != [] && LayoutFrom(types, images, frames, merge, current).Placed?
    requires Flat(images, merge) && Flat(frames, merge)
    ensures var l := LayoutFrom(types, images, frames, merge, current);
            AllInside(l.pos, current, l.end) && Reaches(l.pos, l.end - 1)
    decreases |types|
  {
    hide LayoutFrom, RunLength, Flat, Reaches, AllInside;
    var l := LayoutFrom(types, images, frames, merge, current);
    var n, run, images', frames', next := FirstRun(types, images, frames, merge, current);
    var rest := LayoutFrom(types[n..], images', frames', merge, next);
    if types[n..] == [] {
      EmptyLayout(images', frames', merge, next);
      assert l.pos == run;
    } else {
      EndOfLayout(types[n..], images', frames', merge, next);
      ReachesMore(run, rest.pos, l.end - 1);
      PositionsInRange(types[n..], images', frames', merge, next);
      InsideConcat(run, rest.pos, current, next, next, l.end);
    }
  }

  lemma EmptyLayout(images: seq<Grid>, frames: seq<Grid>, merge: nat, current: nat)
    requires merge > 0 && LayoutFrom([], images, frames, merge, current).Placed?
    ensures LayoutFrom([], images, frames, merge, current) == Placed([], current)
  {
  }

  // ----- in terms of the input

  /** The grids of video frames have one frame each, so they are never longer in time than in space. */
  lemma {:induction false} FramesAreFlat(videos: seq<Grid>, merge: nat)
    requires merge > 0 && forall i :: 0 <= i < |videos| ==> GridOk(videos[i], merge)
    ensures Flat(FramesOf(videos), merge)
  {
    if videos != [] {
      var g := videos[|videos| - 1];
      FramesAreFlat(videos[..|videos| - 1], merge);
      MergedPositive(g.h, merge);
      assert Step(MergedOf(g.(t := 1), merge)) >= 1;
    }
  }

  /** The prompt is accepted, and no image has more frames than its longer side has merged units. */
  ghost predicate FlatInput(types: seq<nat>, images: seq<Grid>, videos: seq<Grid>, merge: nat) {
    && InputOk(|types|, types, images, videos, merge) && Flat(images, merge)
    && LayoutFrom(types, images, FramesOf(videos), merge, 0).Placed?
  }

  /** Then the positions of a run all come before those of every later run, across all axes. */
  lemma LaterRunsAreLater(types: seq<nat>, images: seq<Grid>, videos: seq<Grid>, merge: nat, j: nat, m: nat, k: nat)
    requires FlatInput(types, images, videos, merge)
    requires j < m <= k < |types| && types[m] != types[m - 1]
    ensures var pos := LayoutFrom(types, images, FramesOf(videos), merge, 0).pos;
            |pos| == |types| && Below(pos[j], pos[k])
  {
    hide LayoutFrom, Below;
    FramesAreFlat(videos, merge);
    LaterInLayout(types, images, FramesOf(videos), merge, 0, j, m, k);
  }

  /** Then the end of the numbering is one past the largest position: nothing is skipped at the end. */
  lemma EndIsPastLargest(types: seq<nat>, images: seq<Grid>, videos: seq<Grid>, merge: nat)
    requires FlatInput(types, images, videos, merge)
    ensures var l := LayoutFrom(types, images, FramesOf(videos), merge, 0);
            AllInside(l.pos, 0, l.end) && MaxOf(l.pos) + 1 == l.end
  {
    hide LayoutFrom;
    FramesAreFlat(videos, merge);
    EndOfLayout(types, images, FramesOf(videos), merge, 0);
    var l := LayoutFrom(types, images, FramesOf(videos), merge, 0);
    MaxIsLargest(l.pos);
  }

  lemma ReachesMore(a: seq<Pos>, b: seq<Pos>, m: int)
    requires Reaches(b, m)
    ensures Reaches(a + b, m)
  {
    var k :| 0 <= k < |b| && (b[k].t == m || b[k].h == m || b[k].w == m);
    assert (a + b)[|a| + k] == b[k];
  }

  // ----- every grid is used once, in order

  /** The lengths of the runs of one kind. */
  function RunsOf(types: seq<nat>, kind: nat): seq<nat>
    decreases |types|
  {
    if types == [] then [] else
      var n := RunLength(types);
      (if types[0] == kind then [n] else []) + RunsOf(types[n..], kind)
  }

  function Sizes(grids: seq<Grid>, merge: nat): seq<nat>
    requires merge > 0
  {
    if grids == [] then [] else [Tokens(MergedOf(grids[0], merge))] + Sizes(grids[1..], merge)
  }

  /** The image runs are exactly the image grids, in order, each with its number of tokens; and so the video frames. */
  lemma {:induction false} GridsUsedOnceInOrder(types: seq<nat>, images: seq<Grid>, frames: seq<Grid>, merge: nat,
                                                current: nat)
    requires merge > 0 && LayoutFrom(types, images, frames, merge, current).Placed?
    ensures RunsOf(types, IMAGE) == Sizes(images, merge) && RunsOf(types, VIDEO) == Sizes(frames, merge)
    ensures forall k :: 0 <= k < |types| ==> types[k] == TEXT || types[k] == IMAGE || types[k] == VIDEO
    decreases |types|
  {
    hide Block, Text, Step, MergedOf, Tokens;
    if types != [] {
      var n := RunLength(types);
      if types[0] == TEXT {
        GridsUsedOnceInOrder(types[n..], images, frames, merge, current + n);
      } else if types[0] == IMAGE {
        GridsUsedOnceInOrder(types[n..], images[1..], frames, merge, current + Step(MergedOf(images[0], merge)));
      } else {
        GridsUsedOnceInOrder(types[n..], images, frames[1..], merge, current + Step(MergedOf(frames[0], merge)));
      }
      forall k | 0 <= k < |types|
        ensures types[k] == TEXT || types[k] == IMAGE || types[k] == VIDEO
      {
        assert k >= n ==> types[k] == types[n..][k - n];
      }
    }
  }
}
