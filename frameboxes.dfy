/** The frame-spec assembler: `make_boxes_from_frame_spec` of
    mvz/methods/bandpass_and_snapping.py. The x and y window lists are merged
    into one box per frame; each axis uses the window whose key frame is the
    last one at or before the frame. The boxes are not clamped to the video. */
module FrameBoxes {
  import opened PyRound
  import opened BoundingBoxes
  import opened WindowSelection

  /** `fn.sums` over the window lengths: the running totals. */
  function RunningTotals(spec: seq<Window>): (r: seq<int>)
    ensures |r| == |spec|
  {
    seq(|spec|, i requires 0 <= i < |spec| => TotalLength(spec[..i + 1]))
  }

  /** `[0] + list(fn.sums(lengths))[:-1]`: window `i` starts at the total length
      of the windows before it. An empty list still gives `[0]`. */
  function KeyFrames(spec: seq<Window>): (kf: seq<int>)
    ensures |kf| == if |spec| == 0 then 1 else |spec|
    ensures kf[0] == 0
    ensures forall i :: 0 <= i < |spec| ==> kf[i] == TotalLength(spec[..i])
  {
    var sums := RunningTotals(spec);
    assert spec[..0] == [];
    [0] + (if |sums| == 0 then [] else sums[..|sums| - 1])
  }

  lemma {:induction false} TotalLengthGrows(spec: seq<Window>, i: nat, j: nat)
    requires i < j <= |spec|
    requires forall k :: 0 <= k < |spec| ==> spec[k].length >= 1
    ensures TotalLength(spec[..i]) < TotalLength(spec[..j])
    decreases j - i
  {
    assert spec[..j][..j - 1] == spec[..j - 1];
    if i < j - 1 {
      TotalLengthGrows(spec, i, j - 1);
    }
  }

  /** With windows of at least one frame the key frames strictly increase. */
  lemma KeyFramesIncrease(spec: seq<Window>)
    requires forall k :: 0 <= k < |spec| ==> spec[k].length >= 1
    ensures forall i, j :: 0 <= i < j < |spec| ==> KeyFrames(spec)[i] < KeyFrames(spec)[j]
  {
    forall i, j | 0 <= i < j < |spec|
      ensures KeyFrames(spec)[i] < KeyFrames(spec)[j]
    {
      TotalLengthGrows(spec, i, j);
    }
  }

  /** The position of the first key frame from `from` on that lies past `frame`,
      or the length of the list when there is none. */
  function FirstAbove(keyFrames: seq<int>, frame: int, from: nat): (r: nat)
    requires from <= |keyFrames|
    ensures from <= r <= |keyFrames|
    ensures forall i :: from <= i < r ==> keyFrames[i] <= frame
    ensures r < |keyFrames| ==> keyFrames[r] > frame
    decreases |keyFrames| - from
  {
    if from == |keyFrames| || keyFrames[from] > frame then from
    else FirstAbove(keyFrames, frame, from + 1)
  }

  /** `key_frame_index(key_frames, frame)`: one before the first key frame past
      `frame`, or the last position when no key frame is past it. It is -1 when
      even the first key frame is past `frame`. */
  function KeyFrameIndex(keyFrames: seq<int>, frame: int): (r: int)
    ensures -1 <= r < |keyFrames|
    ensures forall i :: 0 <= i <= r ==> keyFrames[i] <= frame
    ensures r + 1 < |keyFrames| ==> keyFrames[r + 1] > frame
  {
    FirstAbove(keyFrames, frame, 0) - 1
  }

  /** The `for ki, k in enumerate(key_frames)` loop of `key_frame_index`, with its
      early return. */
  method FindKeyFrameIndex(keyFrames: seq<int>, frame: int) returns (r: int)
    ensures -1 <= r < |keyFrames|
    ensures forall i :: 0 <= i <= r ==> keyFrames[i] <= frame
    ensures r + 1 < |keyFrames| ==> keyFrames[r + 1] > frame
    ensures r == KeyFrameIndex(keyFrames, frame)
  {
    for ki := 0 to |keyFrames|
      invariant forall i :: 0 <= i < ki ==> keyFrames[i] <= frame
    {
      if keyFrames[ki] > frame {
        return ki - 1;
      }
    }
    return |keyFrames| - 1;
  }

  /** Python's `s[i]` for `-len(s) <= i < len(s)`: a negative index counts from the end. */
  function PyIndex<T>(s: seq<T>, i: int): (r: T)
    requires -|s| <= i < |s|
    ensures r in s
    ensures 0 <= i ==> r == s[i]
    ensures i == -1 ==> r == s[|s| - 1]
  {
    if i >= 0 then s[i] else s[|s| + i]
  }

  /** `xspec[key_frame_index(key_frames_x, frame)][0]`: the offset of the window
      that holds `frame`. */
  function FrameOffset(spec: seq<Window>, frame: int): (r: real)
    requires |spec| > 0
    ensures exists w :: w in spec && r == w.offset
  {
    var w := PyIndex(spec, KeyFrameIndex(KeyFrames(spec), frame));
    assert w in spec;
    w.offset
  }

  /** The box for one frame: each axis's offset rounded to an integer, moved back
      by half the padding, then `box_width` and `box_height` added for the far
      edges; every coordinate goes through `int(round(...))`. */
  function FrameBox(frame: int, xspec: seq<Window>, yspec: seq<Window>,
                    padding: int, boxWidth: int, boxHeight: int): (r: Box)
    requires |xspec| > 0 && |yspec| > 0
    ensures boxWidth - 1 <= r.right - r.left <= boxWidth + 1
    ensures boxHeight - 1 <= r.bottom - r.top <= boxHeight + 1
  {
    var posX := Round(FrameOffset(xspec, frame));
    var posY := Round(FrameOffset(yspec, frame));
    var half := padding as real / 2.0;
    RoundShiftInt(posX as real - half, boxWidth);
    RoundShiftInt(posY as real - half, boxHeight);
    Box(Round(posX as real - half), Round(posY as real - half),
        Round(posX as real - half + boxWidth as real), Round(posY as real - half + boxHeight as real))
  }

  /** `make_boxes_from_frame_spec(min_frame, max_frame, xspec, yspec)`: one box per
      frame of `range(min_frame, max_frame)`. Indexing an empty window list fails in
      the source, so the lists must be non-empty unless the range is. */
  function MakeBoxes(minFrame: int, maxFrame: int, xspec: seq<Window>, yspec: seq<Window>,
                     padding: int, boxWidth: int, boxHeight: int): (boxes: seq<Box>)
    requires minFrame >= maxFrame || (|xspec| > 0 && |yspec| > 0)
    ensures |boxes| == if minFrame < maxFrame then maxFrame - minFrame else 0
  {
    if minFrame >= maxFrame then []
    else seq(maxFrame - minFrame, i requires 0 <= i < maxFrame - minFrame =>
               FrameBox(minFrame + i, xspec, yspec, padding, boxWidth, boxHeight))
  }

  /** For a frame at or after 0, `key_frame_index` finds the window that holds it:
      the last window starting at or before the frame. Frames past the end of the
      track fall in the last window. */
  lemma KeyFrameIndexFindsWindow(spec: seq<Window>, frame: int)
    requires |spec| > 0 && 0 <= frame
    requires forall k :: 0 <= k < |spec| ==> spec[k].length >= 1
    ensures var r := KeyFrameIndex(KeyFrames(spec), frame);
            0 <= r < |spec| && TotalLength(spec[..r]) <= frame &&
            (r + 1 < |spec| ==> frame < TotalLength(spec[..r + 1])) &&
            forall j :: 0 <= j < |spec| && TotalLength(spec[..j]) <= frame ==> j <= r
  {
    KeyFramesIncrease(spec);
  }

  /** The window whose frames include `frame` gives that frame its offset. */
  lemma FrameOffsetOfWindow(spec: seq<Window>, frame: int, j: nat)
    requires j < |spec| && 0 <= frame
    requires forall k :: 0 <= k < |spec| ==> spec[k].length >= 1
    requires TotalLength(spec[..j]) <= frame
    requires j + 1 < |spec| ==> frame < TotalLength(spec[..j + 1])
    ensures FrameOffset(spec, frame) == spec[j].offset
  {
    KeyFrameIndexFindsWindow(spec, frame);
  }

  /** A frame before 0 finds no key frame at or before it; `key_frame_index`
      returns -1 and Python's `xspec[-1]` is the last window. */
  lemma NegativeFrameUsesLastWindow(spec: seq<Window>, frame: int)
    requires |spec| > 0 && frame < 0
    ensures FrameOffset(spec, frame) == spec[|spec| - 1].offset
  {
  }

  /** One axis of a frame's box: the near edge is `pos - padding / 2` for even
      padding, and the far edge is `size` further when the padding or the size is
      even. */
  lemma PaddedEdges(pos: int, padding: int, size: int)
    ensures var half := padding as real / 2.0;
            var near, far := Round(pos as real - half), Round(pos as real - half + size as real);
            (padding % 2 == 0 ==> near == pos - padding / 2) &&
            (padding % 2 == 0 || size % 2 == 0 ==> far - near == size)
  {
    var half := padding as real / 2.0;
    if padding % 2 == 0 {
      assert half == (padding / 2) as real;
      RoundOfInt(pos - padding / 2);
      RoundOfInt(pos - padding / 2 + size);
    }
    if size % 2 == 0 {
      RoundShiftEven(pos as real - half, size);
    }
  }

  /** Element `i` of `make_boxes_from_frame_spec` is the box of frame `min_frame + i`. */
  lemma MakeBoxesAt(minFrame: int, maxFrame: int, xspec: seq<Window>, yspec: seq<Window>,
                    padding: int, boxWidth: int, boxHeight: int, i: nat)
    requires |xspec| > 0 && |yspec| > 0 && i < maxFrame - minFrame
    ensures MakeBoxes(minFrame, maxFrame, xspec, yspec, padding, boxWidth, boxHeight)[i] ==
            FrameBox(minFrame + i, xspec, yspec, padding, boxWidth, boxHeight)
  {
  }

  /** The box of one frame: its near corner is the rounded window offsets moved
      back by half the padding when the padding is even, and it is the viewport
      size when the padding or that dimension is even. */
  lemma FrameBoxShape(frame: int, xspec: seq<Window>, yspec: seq<Window>,
                      padding: int, boxWidth: int, boxHeight: int)
    requires |xspec| > 0 && |yspec| > 0
    ensures var b := FrameBox(frame, xspec, yspec, padding, boxWidth, boxHeight);
            var posX := Round(FrameOffset(xspec, frame));
            var posY := Round(FrameOffset(yspec, frame));
            (padding % 2 == 0 ==> b.left == posX - padding / 2 && b.top == posY - padding / 2) &&
            (padding % 2 == 0 || boxWidth % 2 == 0 ==> b.right - b.left == boxWidth) &&
            (padding % 2 == 0 || boxHeight % 2 == 0 ==> b.bottom - b.top == boxHeight)
  {
    PaddedEdges(Round(FrameOffset(xspec, frame)), padding, boxWidth);
    PaddedEdges(Round(FrameOffset(yspec, frame)), padding, boxHeight);
  }

  lemma MakeBoxesShape(minFrame: int, maxFrame: int, xspec: seq<Window>, yspec: seq<Window>,
                       padding: int, boxWidth: int, boxHeight: int, i: nat)
    requires |xspec| > 0 && |yspec| > 0 && i < maxFrame - minFrame
    ensures var b := MakeBoxes(minFrame, maxFrame, xspec, yspec, padding, boxWidth, boxHeight)[i];
            var posX := Round(FrameOffset(xspec, minFrame + i));
            var posY := Round(FrameOffset(yspec, minFrame + i));
            (padding % 2 == 0 ==> b.left == posX - padding / 2 && b.top == posY - padding / 2) &&
            (padding % 2 == 0 || boxWidth % 2 == 0 ==> b.right - b.left == boxWidth) &&
            (padding % 2 == 0 || boxHeight % 2 == 0 ==> b.bottom - b.top == boxHeight)
  {
    MakeBoxesAt(minFrame, maxFrame, xspec, yspec, padding, boxWidth, boxHeight, i);
    FrameBoxShape(minFrame + i, xspec, yspec, padding, boxWidth, boxHeight);
  }

  /** Offset 0 with the source's padding 80 and its 432 x 243 viewport gives the
      box `(-40, -40, 392, 203)`: nothing moves it back inside the video. */
  lemma BoxesAreNotClampedToVideo()
    ensures MakeBoxes(0, 1, [Window(0.0, 1)], [Window(0.0, 1)], 80, 432, 243)[0] == Box(-40, -40, 392, 203)
  {
    MakeBoxesShape(0, 1, [Window(0.0, 1)], [Window(0.0, 1)], 80, 432, 243, 0);
    assert FrameOffset([Window(0.0, 1)], 0) == 0.0;
    RoundOfInt(0);
  }

  lemma OddPaddingAndWidthChangeWidth()
    ensures var b := MakeBoxes(0, 1, [Window(0.0, 1)], [Window(0.0, 1)], 1, 1, 1)[0];
            b.right - b.left == 0
  {
    var spec := [Window(0.0, 1)];
    assert FrameOffset(spec, 0) == 0.0;
    RoundOfInt(0);
    RoundUnique(-0.5, 0);
    RoundUnique(0.5, 0);
  }
}
