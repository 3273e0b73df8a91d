/**
 What the positions of an accepted prompt are (mrope.rs), token by token: these statements determine all of them. They
 speak about the positions, the token types and the grids, not about how the layout is computed.
 */
module MropeLayout {
  import opened Mrope

  /** How many runs of a kind start before token `i`. */
  function RunsBefore(types: seq<nat>, i: nat, kind: nat): nat
    requires i <= |types|
  {
    if i == 0 then 0 else
      RunsBefore(types, i - 1, kind)
      + if types[i - 1] == kind && (i == 1 || types[i - 2] != kind) then 1 else 0
  }

  predicate StartsRun(types: seq<nat>, i: nat) {
    i < |types| && (i == 0 || types[i - 1] != types[i])
  }

  lemma {:induction false} OneRun(types: seq<nat>, i: nat, kind: nat)
    requires types != [] && 0 < i <= RunLength(types)
    ensures RunsBefore(types, i, kind) == if types[0] == kind then 1 else 0
  {
    if i > 1 {
      OneRun(types, i - 1, kind);
    }
  }

  lemma {:induction false} RunsBehind(types: seq<nat>, i: nat, kind: nat)
    requires types != [] && RunLength(types) + i <= |types|
    ensures var n := RunLength(types);
            RunsBefore(types, n + i, kind) == (if types[0] == kind then 1 else 0) + RunsBefore(types[n..], i, kind)
  {
    var n := RunLength(types);
    if i == 0 {
      OneRun(types, n, kind);
    } else {
      RunsBehind(types, i - 1, kind);
      assert types[n + i - 1] == types[n..][i - 1];
      assert i > 1 ==> types[n + i - 2] == types[n..][i - 2];
    }
  }

  /** A run starts with three equal coordinates. */
  lemma FirstPosition(types: seq<nat>, images: seq<Grid>, frames: seq<Grid>, merge: nat, current: nat)
    requires merge > 0 && types != [] && LayoutFrom(types, images, frames, merge, current).Placed?
    ensures var pos := LayoutFrom(types, images, frames, merge, current).pos;
            pos != [] && pos[0] == Pos(current, current, current)
  {
    hide LayoutFrom, RunLength, Block, Tokens, Flat, AllInside, Reaches;
    var n, run, images', frames', next := FirstRun(types, images, frames, merge, current);
    if types[0] != TEXT {
      var g := if types[0] == IMAGE then images[0] else frames[0];
      var x := MergedOf(g, merge);
      MergedPositive(g.h, merge);
      MergedPositive(g.w, merge);
      BlockIsRowMajor(current, x.t, x.rows, x.cols, 0, 0, 0);
      assert 0 * (x.rows * x.cols) + (0 * x.cols + 0) == 0;
    }
  }

  /** The positions of the first run and of the others. */
  lemma SplitLayout(types: seq<nat>, images: seq<Grid>, frames: seq<Grid>, merge: nat, current: nat)
    returns (n: nat, run: seq<Pos>, images': seq<Grid>, frames': seq<Grid>, next: nat)
    requires merge > 0 && types != [] && LayoutFrom(types, images, frames, merge, current).Placed?
    ensures n == RunLength(types) && LayoutFrom(types[n..], images', frames', merge, next).Placed?
    ensures TakesGrid(types[0], n, run, images, frames, merge, current, images', frames', next)
    ensures var pos, rest := LayoutFrom(types, images, frames, merge, current).pos,
                             LayoutFrom(types[n..], images', frames', merge, next).pos;
            && |pos| == |types| && |run| == n && |rest| == |types| - n && pos == run + rest
  {
    hide LayoutFrom, RunLength, Flat, AllInside, Reaches, TakesGrid;
    n, run, images', frames', next := FirstRun(types, images, frames, merge, current);
    PositionsInRange(types, images, frames, merge, current);
    PositionsInRange(types[n..], images', frames', merge, next);
  }

  // ----- text

  /** A text token has three equal coordinates, and its neighbour in the text counts on by one. */
  lemma {:induction false} TextInLayout(types: seq<nat>, images: seq<Grid>, frames: seq<Grid>, merge: nat, current: nat,
                                        k: nat)
    requires merge > 0 && LayoutFrom(types, images, frames, merge, current).Placed?
    requires k < |types| && types[k] == TEXT
    ensures var pos := LayoutFrom(types, images, frames, merge, current).pos;
            && |pos| == |types| && pos[k].t == pos[k].h == pos[k].w
            && (k + 1 < |types| && types[k + 1] == TEXT ==>
                  pos[k + 1] == Pos(pos[k].t + 1, pos[k].t + 1, pos[k].t + 1))
    decreases |types|
  {
    hide LayoutFrom, TakesGrid, RunLength;
    var n, run, images', frames', next := SplitLayout(types, images, frames, merge, current);
    var pos, rest := LayoutFrom(types, images, frames, merge, current).pos,
      LayoutFrom(types[n..], images', frames', merge, next).pos;
    if k >= n {
      assert types[n..][k - n] == types[k] && pos[k] == rest[k - n];
      assert k + 1 < |types| ==> types[n..][k - n + 1] == types[k + 1] && pos[k + 1] == rest[k - n + 1];
      TextInLayout(types[n..], images', frames', merge, next, k - n);
    } else {
      assert types[k] == types[0] && pos[k] == run[k];
      assert k + 1 < n ==> pos[k + 1] == run[k + 1];
      RunIsText(types, images, frames, merge, current, n, run, images', frames', next);
    }
  }

  lemma RunIsText(types: seq<nat>, images: seq<Grid>, frames: seq<Grid>, merge: nat, current: nat, n: nat,
                  run: seq<Pos>, images': seq<Grid>, frames': seq<Grid>, next: nat)
    requires merge > 0 && types != [] && types[0] == TEXT
    requires TakesGrid(types[0], n, run, images, frames, merge, current, images', frames', next)
    ensures |run| == n && next == current + n && images' == images && frames' == frames
    ensures forall k :: 0 <= k < n ==> run[k] == Pos(current + k, current + k, current + k)
  {
  }

  /** Behind text the next run counts on as well. */
  lemma {:induction false} AfterText(types: seq<nat>, images: seq<Grid>, frames: seq<Grid>, merge: nat, current: nat,
                                     m: nat)
    requires merge > 0 && LayoutFrom(types, images, frames, merge, current).Placed?
    requires 0 < m < |types| && types[m - 1] == TEXT && types[m] != TEXT
    ensures var pos := LayoutFrom(types, images, frames, merge, current).pos;
            |pos| == |types| && pos[m] == Pos(pos[m - 1].t + 1, pos[m - 1].t + 1, pos[m - 1].t + 1)
    decreases |types|
  {
    var n, run, images', frames', next := SplitLayout(types, images, frames, merge, current);
    hide LayoutFrom, TakesGrid;
    if m == n {
      RunIsText(types, images, frames, merge, current, n, run, images', frames', next);
      FirstPosition(types[n..], images', frames', merge, next);
    } else {
      assert m > n;
      assert types[n..][m - n] == types[m] && types[n..][m - n - 1] == types[m - 1];
      AfterText(types[n..], images', frames', merge, next, m - n);
    }
  }

  // ----- vision

  function GridsOf(kind: nat, images: seq<Grid>, frames: seq<Grid>): seq<Grid> {
    if kind == IMAGE then images else frames
  }

  /**
   The run that starts at token `i` takes as many grids of its kind as runs of it come before. It has one token for
   every frame, row and column of merged units, numbered from the position of its first token on, frames before rows
   before columns, and the next run starts past the longer side.
   */
  ghost predicate RunIsGrid(types: seq<nat>, pos: seq<Pos>, i: nat, g: Grid, merge: nat)
    requires merge > 0
  {
    var rows, cols := g.h / merge, g.w / merge;
    var end := i + g.t * rows * cols;
    && |pos| == |types| && i < end <= |types|
    && (forall k :: i <= k < end ==> types[k] == types[i])
    && (end < |types| ==> types[end] != types[i])
    && (forall tt: nat, hh: nat, ww: nat :: tt < g.t && hh < rows && ww < cols ==>
          PointAt(pos, i, g, merge, tt, hh, ww))
    && (end < |types| ==>
          var start := pos[i].t + if rows >= cols then rows else cols;
          pos[end] == Pos(start, start, start))
  }

  /** How many points of a grid come before one of them: frames before rows before columns. */
  function PointIndex(rows: nat, cols: nat, tt: nat, hh: nat, ww: nat): nat {
    tt * (rows * cols) + (hh * cols + ww)
  }

  predicate PointAt(pos: seq<Pos>, i: nat, g: Grid, merge: nat, tt: nat, hh: nat, ww: nat)
    requires merge > 0 && i < |pos|
  {
    var k := i + PointIndex(g.h / merge, g.w / merge, tt, hh, ww);
    k < |pos| && pos[k] == Pos(pos[i].t + tt, pos[i].t + hh, pos[i].t + ww)
  }

  /** The statement for the run at `i`. */
  ghost predicate TakesItsGrid(types: seq<nat>, images: seq<Grid>, frames: seq<Grid>, merge: nat, pos: seq<Pos>, i: nat)
    requires merge > 0 && i < |types|
  {
    var grids, q := GridsOf(types[i], images, frames), RunsBefore(types, i, types[i]);
    (types[i] == IMAGE || types[i] == VIDEO) && q < |grids| && RunIsGrid(types, pos, i, grids[q], merge)
  }

  lemma {:induction false} VisionInLayout(types: seq<nat>, images: seq<Grid>, frames: seq<Grid>, merge: nat,
                                          current: nat, i: nat)
    requires merge > 0 && LayoutFrom(types, images, frames, merge, current).Placed?
    requires StartsRun(types, i) && types[i] != TEXT
    ensures TakesItsGrid(types, images, frames, merge, LayoutFrom(types, images, frames, merge, current).pos, i)
    decreases |types|
  {
    hide LayoutFrom, TakesItsGrid, TakesGrid, RunLength;
    var n, run, images', frames', next := SplitLayout(types, images, frames, merge, current);
    if i == 0 {
      FirstIsGrid(types, images, frames, merge, current, n, run, images', frames', next);
    } else {
      assert i >= n && types[n..][i - n] == types[i];
      assert i > n ==> types[n..][i - n - 1] == types[i - 1];
      VisionInLayout(types[n..], images', frames', merge, next, i - n);
      LaterIsGrid(types, images, frames, merge, current, n, run, images', frames', next, i,
                  LayoutFrom(types[n..], images', frames', merge, next).pos);
    }
  }

  lemma LaterIsGrid(types: seq<nat>, images: seq<Grid>, frames: seq<Grid>, merge: nat, current: nat, n: nat,
                    run: seq<Pos>, images': seq<Grid>, frames': seq<Grid>, next: nat, i: nat, rest: seq<Pos>)
    requires merge > 0 && types != [] && n == RunLength(types) <= i < |types| && |run| == n
    requires TakesGrid(types[0], n, run, images, frames, merge, current, images', frames', next)
    requires TakesItsGrid(types[n..], images', frames', merge, rest, i - n)
    ensures TakesItsGrid(types, images, frames, merge, run + rest, i)
  {
    hide RunLength, RunIsGrid, TakesGrid, GridsOf, RunsBefore;
    assert types[n..][i - n] == types[i];
    RunsBehind(types, i - n, types[i]);
    var q := RunsBefore(types[n..], i - n, types[i]);
    NextGrid(types[0], types[i], n, run, images, frames, merge, current, images', frames', next, q);
    RunMoves(types, run, rest, n, i, GridsOf(types[i], images', frames')[q], merge);
  }

  /** The grids left are those of the other kind, and those behind the first one of the run's own. */
  lemma NextGrid(first: nat, kind: nat, n: nat, run: seq<Pos>, images: seq<Grid>, frames: seq<Grid>, merge: nat,
                 current: nat, images': seq<Grid>, frames': seq<Grid>, next: nat, q: nat)
    requires merge > 0 && TakesGrid(first, n, run, images, frames, merge, current, images', frames', next)
    requires (kind == IMAGE || kind == VIDEO) && q < |GridsOf(kind, images', frames')|
    ensures var p := (if first == kind then 1 else 0) + q;
            && p < |GridsOf(kind, images, frames)|
            && GridsOf(kind, images, frames)[p] == GridsOf(kind, images', frames')[q]
  {
  }

  lemma RunMoves(types: seq<nat>, run: seq<Pos>, rest: seq<Pos>, n: nat, i: nat, g: Grid, merge: nat)
    requires merge > 0 && |run| == n <= i < |types| && RunIsGrid(types[n..], rest, i - n, g, merge)
    ensures RunIsGrid(types, run + rest, i, g, merge)
  {
    var rows, cols, pos := g.h / merge, g.w / merge, run + rest;
    var end := i + g.t * rows * cols;
    var behind := types[n..];
    assert pos[i] == rest[i - n];
    forall k | i <= k < end
      ensures types[k] == types[i]
    {
      assert behind[k - n] == behind[i - n];
    }
    forall tt: nat, hh: nat, ww: nat | tt < g.t && hh < rows && ww < cols
      ensures PointAt(pos, i, g, merge, tt, hh, ww)
    {
      assert PointAt(rest, i - n, g, merge, tt, hh, ww);
      PointMoves(run, rest, n, i, g, merge, tt, hh, ww);
    }
    if end < |types| {
      assert behind[end - n] == types[end];
    }
  }

  lemma PointMoves(run: seq<Pos>, rest: seq<Pos>, n: nat, i: nat, g: Grid, merge: nat, tt: nat, hh: nat, ww: nat)
    requires merge > 0 && |run| == n <= i < n + |rest| && PointAt(rest, i - n, g, merge, tt, hh, ww)
    ensures PointAt(run + rest, i, g, merge, tt, hh, ww)
  {
    hide PointIndex;
    var d := PointIndex(g.h / merge, g.w / merge, tt, hh, ww);
    assert (run + rest)[i + d] == rest[i - n + d];
  }

  lemma FirstIsGrid(types: seq<nat>, images: seq<Grid>, frames: seq<Grid>, merge: nat, current: nat, n: nat,
                    run: seq<Pos>, images': seq<Grid>, frames': seq<Grid>, next: nat)
    requires merge > 0 && types != [] && types[0] != TEXT && n == RunLength(types)
    requires LayoutFrom(types[n..], images', frames', merge, next).Placed?
    requires TakesGrid(types[0], n, run, images, frames, merge, current, images', frames', next)
    requires |LayoutFrom(types[n..], images', frames', merge, next).pos| == |types| - n && |run| == n
    ensures TakesItsGrid(types, images, frames, merge,
                         run + LayoutFrom(types[n..], images', frames', merge, next).pos, 0)
  {
    hide LayoutFrom, Block, RunLength, Tokens, PointAt;
    var g := GridsOf(types[0], images, frames)[0];
    var rest := LayoutFrom(types[n..], images', frames', merge, next).pos;
    assert GridRun(g, n, run, merge, current, next);
    TokensAre(g, merge);
    var x := MergedOf(g, merge);
    MergedPositive(g.h, merge);
    MergedPositive(g.w, merge);
    GridPoint(g, n, run, rest, merge, current, next, 0, 0, 0);
    assert PointIndex(x.rows, x.cols, 0, 0, 0) == 0;
    hide PointIndex;
    forall tt: nat, hh: nat, ww: nat | tt < g.t && hh < x.rows && ww < x.cols
      ensures PointAt(run + rest, 0, g, merge, tt, hh, ww)
    {
      GridPoint(g, n, run, rest, merge, current, next, tt, hh, ww);
      PointOf(run + rest, current, g, merge, tt, hh, ww);
    }
    if n < |types| {
      FirstPosition(types[n..], images', frames', merge, next);
    }
  }

  lemma TokensAre(g: Grid, merge: nat)
    requires merge > 0
    ensures Tokens(MergedOf(g, merge)) == g.t * (g.h / merge) * (g.w / merge)
  {
  }

  lemma PointOf(pos: seq<Pos>, current: nat, g: Grid, merge: nat, tt: nat, hh: nat, ww: nat)
    requires merge > 0 && pos != [] && pos[0] == Pos(current, current, current)
    requires var k := PointIndex(g.h / merge, g.w / merge, tt, hh, ww);
             k < |pos| && pos[k] == Pos(current + tt, current + hh, current + ww)
    ensures PointAt(pos, 0, g, merge, tt, hh, ww)
  {
    hide PointIndex;
  }

  lemma GridPoint(g: Grid, n: nat, run: seq<Pos>, rest: seq<Pos>, merge: nat, current: nat, next: nat, tt: nat, hh: nat,
                  ww: nat)
    requires merge > 0 && GridRun(g, n, run, merge, current, next)
    requires tt < g.t && hh < g.h / merge && ww < g.w / merge
    ensures var k := PointIndex(g.h / merge, g.w / merge, tt, hh, ww);
            k < |run + rest| && (run + rest)[k] == Pos(current + tt, current + hh, current + ww)
  {
    var x := MergedOf(g, merge);
    BlockIsRowMajor(current, x.t, x.rows, x.cols, tt, hh, ww);
    assert PointIndex(g.h / merge, g.w / merge, tt, hh, ww) == tt * (x.rows * x.cols) + (hh * x.cols + ww);
    hide Block, PointIndex, Tokens;
    assert PointIndex(g.h / merge, g.w / merge, tt, hh, ww) < |run|;
  }

  // ----- in terms of the input

  /** A prompt of text alone is numbered from zero. */
  lemma {:induction false} TextAlone(types: seq<nat>, merge: nat, k: nat)
    requires merge > 0 && LayoutFrom(types, [], [], merge, 0).Placed? && k < |types|
    requires forall j :: 0 <= j < |types| ==> types[j] == TEXT
    ensures var pos := LayoutFrom(types, [], [], merge, 0).pos;
            |pos| == |types| && pos[k] == Pos(k, k, k)
  {
    hide LayoutFrom;
    if k == 0 {
      FirstPosition(types, [], [], merge, 0);
      TextInLayout(types, [], [], merge, 0, 0);
    } else {
      TextAlone(types, merge, k - 1);
      TextInLayout(types, [], [], merge, 0, k - 1);
    }
  }

  /** The frames of the videos: in order, one grid a frame. */
  lemma {:induction false} FramesAre(videos: seq<Grid>, v: nat, f: nat)
    requires v < |videos| && f < videos[v].t
    ensures |FramesOf(videos[..v + 1])| == |FramesOf(videos[..v])| + videos[v].t <= |FramesOf(videos)|
    ensures FramesOf(videos)[|FramesOf(videos[..v])| + f] == Grid(1, videos[v].h, videos[v].w)
  {
    var last := |videos| - 1;
    assert videos[..v + 1][..v] == videos[..v];
    if v < last {
      FramesAre(videos[..last], v, f);
      assert videos[..last][..v] == videos[..v] && videos[..last][..v + 1] == videos[..v + 1];
    } else {
      assert videos[..v + 1] == videos;
    }
  }

  // ----- which prompts are accepted

  /** The runs are those of the grids, and there are no other kinds of tokens. */
  ghost predicate WellFormed(types: seq<nat>, images: seq<Grid>, frames: seq<Grid>, merge: nat)
    requires merge > 0
  {
    && (forall k :: 0 <= k < |types| ==> types[k] == TEXT || types[k] == IMAGE || types[k] == VIDEO)
    && RunsOf(types, IMAGE) == Sizes(images, merge) && RunsOf(types, VIDEO) == Sizes(frames, merge)
    && (forall i :: 0 <= i < |images| ==> GridOk(images[i], merge))
    && (forall i :: 0 <= i < |frames| ==> GridOk(frames[i], merge))
  }

  /** A prompt whose length is a position is laid out exactly if it is well formed. */
  lemma {:induction false} PlacedIff(types: seq<nat>, images: seq<Grid>, frames: seq<Grid>, merge: nat, current: nat)
    requires merge > 0 && current + |types| <= I32_MAX
    requires forall i :: 0 <= i < |images| ==> GridOk(images[i], merge)
    requires forall i :: 0 <= i < |frames| ==> GridOk(frames[i], merge)
    ensures LayoutFrom(types, images, frames, merge, current).Placed? <==> WellFormed(types, images, frames, merge)
    decreases |types|
  {
    if LayoutFrom(types, images, frames, merge, current).Placed? {
      GridsUsedOnceInOrder(types, images, frames, merge, current);
    }
    if WellFormed(types, images, frames, merge) {
      WellFormedIsPlaced(types, images, frames, merge, current);
    }
  }

  lemma {:induction false} FramesAreOk(videos: seq<Grid>, merge: nat)
    requires forall i :: 0 <= i < |videos| ==> GridOk(videos[i], merge)
    ensures forall i :: 0 <= i < |FramesOf(videos)| ==> GridOk(FramesOf(videos)[i], merge)
  {
    if videos != [] {
      FramesAreOk(videos[..|videos| - 1], merge);
    }
  }

  /** What `MropePositions` accepts: its layout and overflow checks pass exactly for well-formed prompts. */
  lemma AcceptedIff(types: seq<nat>, images: seq<Grid>, videos: seq<Grid>, merge: nat)
    requires InputOk(|types|, types, images, videos, merge)
    ensures var l := LayoutFrom(types, images, FramesOf(videos), merge, 0);
            l.Placed? && MaxOf(l.pos) + 1 <= I32_MAX && |types| <= I32_MAX <==>
              |types| <= I32_MAX && WellFormed(types, images, FramesOf(videos), merge)
  {
    hide LayoutFrom, WellFormed, MaxOf;
    FramesAreOk(videos, merge);
    if |types| <= I32_MAX {
      PlacedIff(types, images, FramesOf(videos), merge, 0);
      if LayoutFrom(types, images, FramesOf(videos), merge, 0).Placed? {
        DeltaIsNotPositive(types, images, FramesOf(videos), merge);
      }
    }
  }

  lemma {:induction false} WellFormedIsPlaced(types: seq<nat>, images: seq<Grid>, frames: seq<Grid>, merge: nat,
                                              current: nat)
    requires merge > 0 && current + |types| <= I32_MAX && WellFormed(types, images, frames, merge)
    ensures LayoutFrom(types, images, frames, merge, current).Placed?
    decreases |types|
  {
    hide Block, Text, GridOk, GroupFits, MergedOf, Tokens, Step, Extent, WellFormed, RunsOf, Sizes, RunLength;
    if types == [] {
      NoGridsLeft(images, frames, merge);
    } else {
      var n := RunLength(types);
      RestIsWellFormed(types, images, frames, merge);
      if types[0] == TEXT {
        WellFormedIsPlaced(types[n..], images, frames, merge, current + n);
      } else if types[0] == IMAGE {
        FirstFits(images, merge, n, current);
        WellFormedIsPlaced(types[n..], images[1..], frames, merge, current + Step(MergedOf(images[0], merge)));
      } else {
        FirstFits(frames, merge, n, current);
        WellFormedIsPlaced(types[n..], images, frames[1..], merge, current + Step(MergedOf(frames[0], merge)));
      }
    }
  }

  lemma NoGridsLeft(images: seq<Grid>, frames: seq<Grid>, merge: nat)
    requires merge > 0 && WellFormed([], images, frames, merge)
    ensures images == [] && frames == []
  {
  }

  lemma RestIsWellFormed(types: seq<nat>, images: seq<Grid>, frames: seq<Grid>, merge: nat)
    requires merge > 0 && types != [] && WellFormed(types, images, frames, merge)
    ensures var n := RunLength(types);
            if types[0] == TEXT then WellFormed(types[n..], images, frames, merge)
            else if types[0] == IMAGE then
              && images != [] && GridOk(images[0], merge) && Sizes(images, merge)[0] == n
              && WellFormed(types[n..], images[1..], frames, merge)
            else
              && types[0] == VIDEO && frames != [] && GridOk(frames[0], merge) && Sizes(frames, merge)[0] == n
              && WellFormed(types[n..], images, frames[1..], merge)
  {
    hide RunLength, GridOk, Tokens, MergedOf;
    var n := RunLength(types);
    forall k | 0 <= k < |types[n..]|
      ensures types[n..][k] == TEXT || types[n..][k] == IMAGE || types[n..][k] == VIDEO
    {
      assert types[n..][k] == types[n + k];
    }
    if types[0] == IMAGE {
      assert RunsOf(types, IMAGE) == [n] + RunsOf(types[n..], IMAGE);
      FirstSize(images, merge, n, RunsOf(types[n..], IMAGE));
    } else if types[0] == VIDEO {
      assert RunsOf(types, VIDEO) == [n] + RunsOf(types[n..], VIDEO);
      FirstSize(frames, merge, n, RunsOf(types[n..], VIDEO));
    }
  }

  lemma FirstSize(grids: seq<Grid>, merge: nat, n: nat, rest: seq<nat>)
    requires merge > 0 && Sizes(grids, merge) == [n] + rest
    ensures grids != [] && Sizes(grids, merge)[0] == n && Sizes(grids[1..], merge) == rest
  {
    hide Tokens, MergedOf;
    assert ([n] + rest)[1..] == rest;
    assert grids != [] ==> Sizes(grids, merge)[1..] == Sizes(grids[1..], merge);
  }

  lemma FirstFits(grids: seq<Grid>, merge: nat, n: nat, current: nat)
    requires merge > 0 && grids != [] && GridOk(grids[0], merge) && Sizes(grids, merge)[0] == n
    requires current + n <= I32_MAX
    ensures GroupFits(grids[0], merge, n, current) && Step(MergedOf(grids[0], merge)) <= n
  {
    var x := MergedOf(grids[0], merge);
    MergedPositive(grids[0].h, merge);
    MergedPositive(grids[0].w, merge);
    TokensCover(x);
  }
}
