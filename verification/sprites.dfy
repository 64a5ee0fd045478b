/** The frame slicer: every downloaded sprite sheet is cut into a fixed
    5x5 grid of frame descriptors, appended row by row to the frame list. */
module Sprites {

  /** A downloaded image, seen only as an opaque token. */
  datatype Blob = Blob(id: nat)

  /** One frame: the sheet it is cut from and the top-left corner of its cell. */
  datatype Frame = Frame(source: Blob, x: int, y: int)

  /** Cells per row and rows per sheet. */
  const GridSide: nat := 5
  const FramesPerSheet: nat := GridSide * GridSide
  const FrameWidth: int := 128
  const FrameHeight: int := 72

  /** The k-th cell of a sheet, counting row by row. */
  function Cell(data: Blob, k: nat): Frame {
    Frame(data, FrameWidth * (k % GridSide), FrameHeight * (k / GridSide))
  }

  /** The frames one sheet contributes, in row-major order. */
  function SheetFrames(data: Blob): seq<Frame> {
    seq(FramesPerSheet, k requires 0 <= k < FramesPerSheet => Cell(data, k))
  }

  /** Position `GridSide * row + col` of a sheet holds the cell at column
      `col` and row `row`. */
  lemma CellAt(data: Blob, row: int, col: int)
    requires 0 <= row < GridSide && 0 <= col < GridSide
    ensures GridSide * row + col < FramesPerSheet
    ensures SheetFrames(data)[GridSide * row + col] == Frame(data, FrameWidth * col, FrameHeight * row)
  {
    var k := GridSide * row + col;
    assert k / GridSide == row && k % GridSide == col;
  }

  /** A sheet yields exactly 25 frames, all cut from that sheet, at pairwise
      distinct offsets on the 128x72 grid. */
  lemma SheetShape(data: Blob)
    ensures |SheetFrames(data)| == FramesPerSheet == 25
    ensures forall f :: f in SheetFrames(data) ==>
              f.source == data
              && 0 <= f.x < FrameWidth * GridSide && f.x % FrameWidth == 0
              && 0 <= f.y < FrameHeight * GridSide && f.y % FrameHeight == 0
    ensures forall k, k' :: 0 <= k < k' < FramesPerSheet ==> SheetFrames(data)[k] != SheetFrames(data)[k']
  {
  }

  /** `parseJPG`: appends the 25 cells of `data` to `frames`, looping over
      rows `i` and then columns `j`. */
  method ParseJpg(frames: seq<Frame>, data: Blob) returns (r: seq<Frame>)
    ensures r == frames + SheetFrames(data)
    ensures |r| == |frames| + FramesPerSheet
    ensures r[..|frames|] == frames
  {
    r := frames;
    for i := 0 to GridSide
      invariant r == frames + SheetFrames(data)[..GridSide * i]
    {
      for j := 0 to GridSide
        invariant r == frames + SheetFrames(data)[..GridSide * i + j]
      {
        CellAt(data, i, j);
        var k := GridSide * i + j;
        assert SheetFrames(data)[..k + 1] == SheetFrames(data)[..k] + [SheetFrames(data)[k]];
        r := r + [Frame(data, FrameWidth * j, FrameHeight * i)];
      }
    }
    assert SheetFrames(data)[..GridSide * GridSide] == SheetFrames(data);
  }
}
