/** Properties of the stages of mvz/methods/bandpass_and_snapping.py taken
    together: windows per axis, merged into per-frame boxes, then smoothed. */
module Pipeline {
  import opened BoundingBoxes
  import opened WindowSelection
  import opened FrameBoxes
  import opened Anticipation

  /** A window list with one window gives every frame that window's offset. */
  lemma SingleWindowOffset(spec: seq<Window>, frame: int)
    requires |spec| == 1
    ensures FrameOffset(spec, frame) == spec[0].offset
  {
  }

  lemma OffsetsBoundFrameOffset(spec: seq<Window>, frame: int, hi: int)
    requires |spec| > 0
    requires forall k :: 0 <= k < |spec| ==> 0.0 <= spec[k].offset <= hi as real
    ensures 0 <= PyRound.Round(FrameOffset(spec, frame)) <= hi
  {
    PyRound.RoundBetween(0, hi, FrameOffset(spec, frame));
  }

  lemma TrackWindowsInVideo(s: seq<real>, windowSize: int, hi: int)
    requires SamplesFitAlone(s, windowSize) && |s| > 0 && hi >= 0
    ensures var ws := Windows(s, windowSize, hi);
            |ws| > 0 && forall k :: 0 <= k < |ws| ==> 0.0 <= ws[k].offset <= hi as real
  {
    WindowsCoverTrack(s, windowSize, hi);
    WindowOffsetsInVideo(s, windowSize, hi);
  }

  /** A frame's box, for window offsets inside `[0, max - box]` and even
      padding, has the viewport size and lies in the video shifted by half the
      padding toward the origin. */
  lemma FrameBoxNearVideo(frame: int, xspec: seq<Window>, yspec: seq<Window>,
                          padding: int, boxWidth: int, boxHeight: int,
                          maxWidth: int, maxHeight: int)
    requires |xspec| > 0 && |yspec| > 0 && padding % 2 == 0
    requires forall k :: 0 <= k < |xspec| ==> 0.0 <= xspec[k].offset <= (maxWidth - boxWidth) as real
    requires forall k :: 0 <= k < |yspec| ==> 0.0 <= yspec[k].offset <= (maxHeight - boxHeight) as real
    ensures var b := FrameBox(frame, xspec, yspec, padding, boxWidth, boxHeight);
            b.right - b.left == boxWidth && b.bottom - b.top == boxHeight &&
            -(padding / 2) <= b.left && b.right <= maxWidth - padding / 2 &&
            -(padding / 2) <= b.top && b.bottom <= maxHeight - padding / 2
  {
    OffsetsBoundFrameOffset(xspec, frame, maxWidth - boxWidth);
    OffsetsBoundFrameOffset(yspec, frame, maxHeight - boxHeight);
    FrameBoxShape(frame, xspec, yspec, padding, boxWidth, boxHeight);
  }

  lemma MakeBoxesNearVideo(minFrame: int, maxFrame: int, xspec: seq<Window>, yspec: seq<Window>,
                           padding: int, boxWidth: int, boxHeight: int,
                           maxWidth: int, maxHeight: int, i: nat)
    requires |xspec| > 0 && |yspec| > 0 && padding % 2 == 0 && i < maxFrame - minFrame
    requires forall k :: 0 <= k < |xspec| ==> 0.0 <= xspec[k].offset <= (maxWidth - boxWidth) as real
    requires forall k :: 0 <= k < |yspec| ==> 0.0 <= yspec[k].offset <= (maxHeight - boxHeight) as real
    ensures var b := MakeBoxes(minFrame, maxFrame, xspec, yspec, padding, boxWidth, boxHeight)[i];
            b.right - b.left == boxWidth && b.bottom - b.top == boxHeight &&
            -(padding / 2) <= b.left && b.right <= maxWidth - padding / 2 &&
            -(padding / 2) <= b.top && b.bottom <= maxHeight - padding / 2
  {
    MakeBoxesAt(minFrame, maxFrame, xspec, yspec, padding, boxWidth, boxHeight, i);
    FrameBoxNearVideo(minFrame + i, xspec, yspec, padding, boxWidth, boxHeight, maxWidth, maxHeight);
  }

  /** Boxes built from the window lists of two tracks keep the viewport size
      (padding even) and lie inside the video shifted by half the padding toward
      the origin: the offsets are clamped, the boxes are not. */
  lemma SnappedBoxesNearVideo(xs: seq<real>, ys: seq<real>, minFrame: int, maxFrame: int,
                              padding: int, boxWidth: int, boxHeight: int,
                              maxWidth: int, maxHeight: int, i: nat)
    requires SamplesFitAlone(xs, boxWidth - padding) && SamplesFitAlone(ys, boxHeight - padding)
    requires |xs| > 0 && |ys| > 0
    requires maxWidth >= boxWidth && maxHeight >= boxHeight && padding % 2 == 0
    requires i < maxFrame - minFrame
    ensures var xspec := Windows(xs, boxWidth - padding, maxWidth - boxWidth);
            var yspec := Windows(ys, boxHeight - padding, maxHeight - boxHeight);
            |xspec| > 0 && |yspec| > 0 &&
            var b := MakeBoxes(minFrame, maxFrame, xspec, yspec, padding, boxWidth, boxHeight)[i];
            b.right - b.left == boxWidth && b.bottom - b.top == boxHeight &&
            -(padding / 2) <= b.left && b.right <= maxWidth - padding / 2 &&
            -(padding / 2) <= b.top && b.bottom <= maxHeight - padding / 2
  {
    var xspec := Windows(xs, boxWidth - padding, maxWidth - boxWidth);
    var yspec := Windows(ys, boxHeight - padding, maxHeight - boxHeight);
    TrackWindowsInVideo(xs, boxWidth - padding, maxWidth - boxWidth);
    TrackWindowsInVideo(ys, boxHeight - padding, maxHeight - boxHeight);
    MakeBoxesNearVideo(minFrame, maxFrame, xspec, yspec, padding, boxWidth, boxHeight,
                       maxWidth, maxHeight, i);
  }

  lemma SingleWindowFrameBox(f: int, g: int, xspec: seq<Window>, yspec: seq<Window>,
                             padding: int, boxWidth: int, boxHeight: int)
    requires |xspec| == 1 && |yspec| == 1
    ensures FrameBox(f, xspec, yspec, padding, boxWidth, boxHeight) ==
            FrameBox(g, xspec, yspec, padding, boxWidth, boxHeight)
  {
    SingleWindowOffset(xspec, f);
    SingleWindowOffset(yspec, f);
    SingleWindowOffset(xspec, g);
    SingleWindowOffset(yspec, g);
  }

  /** With one window per axis every frame gets the same box. */
  lemma SingleWindowBoxesRepeat(minFrame: int, maxFrame: int, xspec: seq<Window>, yspec: seq<Window>,
                                padding: int, boxWidth: int, boxHeight: int)
    requires |xspec| == 1 && |yspec| == 1
    ensures var boxes := MakeBoxes(minFrame, maxFrame, xspec, yspec, padding, boxWidth, boxHeight);
            forall j :: 0 <= j < |boxes| ==> boxes[j] == boxes[0]
  {
    var boxes := MakeBoxes(minFrame, maxFrame, xspec, yspec, padding, boxWidth, boxHeight);
    forall j | 0 <= j < |boxes| ensures boxes[j] == boxes[0] {
      MakeBoxesAt(minFrame, maxFrame, xspec, yspec, padding, boxWidth, boxHeight, j);
      MakeBoxesAt(minFrame, maxFrame, xspec, yspec, padding, boxWidth, boxHeight, 0);
      SingleWindowFrameBox(minFrame + j, minFrame, xspec, yspec, padding, boxWidth, boxHeight);
    }
  }

  /** A constant track on each axis gives one window per axis, one box repeated
      for every frame, and nothing for the smoother to do. */
  lemma ConstantTracksGiveOneShot(xs: seq<real>, ys: seq<real>, cx: real, cy: real,
                                  padding: int, boxWidth: int, boxHeight: int,
                                  maxWidth: int, maxHeight: int,
                                  anticipationTime: int, phi: real -> real)
    requires |xs| > 0 && |ys| == |xs|
    requires forall i :: 0 <= i < |xs| ==> xs[i] == cx
    requires forall i :: 0 <= i < |ys| ==> ys[i] == cy
    requires SampleFits(cx, boxWidth - padding) && SampleFits(cy, boxHeight - padding)
    requires anticipationTime >= 0 && IsProbability(phi)
    ensures SamplesFitAlone(xs, boxWidth - padding) && SamplesFitAlone(ys, boxHeight - padding)
    ensures var xspec := Windows(xs, boxWidth - padding, maxWidth - boxWidth);
            var yspec := Windows(ys, boxHeight - padding, maxHeight - boxHeight);
            |xspec| == 1 && |yspec| == 1 && xspec[0].length == |xs| && yspec[0].length == |ys| &&
            var boxes := MakeBoxes(0, |xs|, xspec, yspec, padding, boxWidth, boxHeight);
            |boxes| == |xs| &&
            (forall j :: 0 <= j < |boxes| ==> boxes[j] == boxes[0]) &&
            Anticipated(boxes, anticipationTime, phi) == boxes
  {
    ConstantTrackIsOneWindow(xs, cx, boxWidth - padding, maxWidth - boxWidth);
    ConstantTrackIsOneWindow(ys, cy, boxHeight - padding, maxHeight - boxHeight);
    var xspec := Windows(xs, boxWidth - padding, maxWidth - boxWidth);
    var yspec := Windows(ys, boxHeight - padding, maxHeight - boxHeight);
    var boxes := MakeBoxes(0, |xs|, xspec, yspec, padding, boxWidth, boxHeight);
    SingleWindowBoxesRepeat(0, |xs|, xspec, yspec, padding, boxWidth, boxHeight);
    NoChangeIsIdentity(boxes, anticipationTime, phi);
  }
}
