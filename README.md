# Shot selection for the mobile video zoom

This project models the "bandpass and snapping" method of the mobile video
zoom tool. It also models the box construction of its EWMA method.

The bandpass method starts from a filtered per-frame track of where motion
is concentrated, one track per axis. It turns the track into crop boxes in
three stages:

1. **Window selection** (`WindowSelection`). Each axis's track is cut,
   greedily and left to right, into windows. A window is a run of frames that
   fits the viewport less the padding, held at one camera offset: the run's
   minimum, clamped into `[0, max_size - box_size]`. The scan keeps the
   source's initial state as it is: `minval = +inf`, `maxval = 0`, index -1,
   increment then test. So the span tested is `max(0, max) - min`.
2. **Frame boxes** (`FrameBoxes`). The two window lists are merged. Key frames
   are the frames where windows start. For each frame, each axis uses the
   window of the last key frame at or before that frame. The box is the rounded
   offset moved back by half the padding, plus the viewport size.
3. **Anticipation** (`Anticipation`). A frame whose box differs from the box
   `anticipation_time` frames later is interpolated toward the next different
   box. The interpolation follows a normal-CDF ease. All other frames pass
   through unchanged.

`PyRound` models Python's `round` (ties go to the even neighbour).
`BoundingBoxes` holds the box type. `Ewma` models `box_for_position`: a
viewport-sized box centred on a point, clamped into the video. `Pipeline`
proves properties of the stages chained together.

Sizes (`box_width`, `box_height`, `max_width`, `max_height`), `padding` and
`anticipation_time` are parameters instead of module constants. The normal
CDF is a parameter `phi` whose values lie in [0, 1].

Three behaviours of the code that a reader might not expect:
- `make_boxes_from_frame_spec` does not clamp boxes to the video. A box's left
  or top edge can be `-padding/2` (`FrameBoxes.BoxesAreNotClampedToVideo`).
- Every window, the last included, satisfies the bound `max(0, max) - min <
  box_size - padding` and cannot take one more sample
  (`WindowSelection.WindowsAreGreedy`).
- A frame that anticipates always has a later box that differs, at most
  `anticipation_time` frames on, so `distance_to_next_change` never returns
  `None` where `anticipate_changes` uses it (`Anticipation.AnticipatingDistance`).

## Model

| member | source | states |
|---|---|---|
| `PyRound.Round` | mvz/methods/bandpass_and_snapping.py:99-99 | `int(round(x))` is within 1/2 of `x`, and even on a tie |
| `WindowSelection.MinIsLeast` | mvz/methods/bandpass_and_snapping.py:42-42 | the running minimum is one of the samples and below all of them |
| `WindowSelection.Max0IsGreatest` | mvz/methods/bandpass_and_snapping.py:35-43 | the running maximum, started at 0, is at least 0 and every sample, and is 0 or a sample |
| `WindowSelection.FitsPrefixClosed` | mvz/methods/bandpass_and_snapping.py:37-43 | if a prefix fits the window, so does every shorter prefix |
| `WindowSelection.FitLengthFrom` | mvz/methods/bandpass_and_snapping.py:37-41 | extending a fitting prefix sample by sample stops at a length between the start and the track length |
| `WindowSelection.FitLengthFromStops` | mvz/methods/bandpass_and_snapping.py:37-41 | the search stops at a fitting prefix that cannot take the next sample |
| `WindowSelection.FitLength` | mvz/methods/bandpass_and_snapping.py:37-44 | reference window length: at most the track length, and at least 1 when the first sample fits |
| `WindowSelection.FitLengthIsLongest` | mvz/methods/bandpass_and_snapping.py:37-44 | every prefix up to the reference length fits, and every longer prefix does not |
| `WindowSelection.LongestFittingPrefix` | mvz/methods/bandpass_and_snapping.py:37-44 | a fitting prefix that cannot take one more sample is the longest fitting prefix |
| `WindowSelection.ChooseWindow` | mvz/methods/bandpass_and_snapping.py:27-44 | the loop returns the longest fitting prefix; a next sample would break the bound; the offset is the prefix's minimum, or +inf when the prefix is empty |
| `WindowSelection.Clamp` | mvz/methods/bandpass_and_snapping.py:57-60 | the clamped offset lies in `[0, max_size - box_size]` when that range is non-empty; in-range offsets are kept; low ones become 0; high ones and +inf become the top |
| `WindowSelection.WindowsUnfold` | mvz/methods/bandpass_and_snapping.py:55-62 | the window list of a non-empty track is its greedy first window followed by the window list of the rest, and the rest still meets the precondition |
| `WindowSelection.MakeSpecStep` | mvz/methods/bandpass_and_snapping.py:55-62 | one round of the loop, appending the window and dropping its frames, keeps the windows built so far plus the windows of the rest equal to the whole list |
| `WindowSelection.MakeSpec` | mvz/methods/bandpass_and_snapping.py:53-63 | the loop appends exactly the greedy window list of the track |
| `WindowSelection.MakeFrameSpecs` | mvz/methods/bandpass_and_snapping.py:50-72 | the x and y window lists are each axis's greedy list with its own viewport and video size |
| `WindowSelection.TotalLength` | mvz/methods/bandpass_and_snapping.py:78-78 | the summed lengths are non-negative and at least the length of every window |
| `WindowSelection.TotalLengthCons` | mvz/methods/bandpass_and_snapping.py:78-78 | the total length of a window list is the first window's length plus the rest's |
| `WindowSelection.ChooseWindowStalls` | mvz/methods/bandpass_and_snapping.py:37-62 | when the first sample alone breaks the bound, the window is empty and the remaining track is unchanged, so `make_spec` would loop forever |
| `WindowSelection.NonNegativeSamplesFitAlone` | mvz/methods/bandpass_and_snapping.py:37-43 | a positive window size and non-negative samples meet the termination precondition |
| `WindowSelection.WindowLengthBounds` | mvz/methods/bandpass_and_snapping.py:37-62 | under the precondition a window has between 1 and `len(seq)` frames |
| `WindowSelection.Windows` | mvz/methods/bandpass_and_snapping.py:53-63 | reference list of `make_spec`: the greedy first window, clamped, then the windows of the rest; only the empty track gives no windows |
| `WindowSelection.WindowsCoverTrack` | mvz/methods/bandpass_and_snapping.py:53-63 | window lengths add up to the track length |
| `WindowSelection.WindowOffsetsInVideo` | mvz/methods/bandpass_and_snapping.py:57-61 | every offset lies in `[0, max_size - box_size]` when `max_size >= box_size` |
| `WindowSelection.GreedyWindowShift` | mvz/methods/bandpass_and_snapping.py:62-62 | a greedy window of the track after `seq[idx:]` is a greedy window of the whole track, `idx` frames later |
| `WindowSelection.FirstWindowIsGreedy` | mvz/methods/bandpass_and_snapping.py:55-61 | the first window starts at frame 0 and is the greedy window there |
| `WindowSelection.WindowsTail` | mvz/methods/bandpass_and_snapping.py:53-63 | window i > 0 is window i - 1 of the rest of the track, and starts the first window's length later |
| `WindowSelection.WindowsAreGreedy` | mvz/methods/bandpass_and_snapping.py:53-63 | window i starts where the earlier windows end; it has at least one frame and fits; it could not take one more sample; its offset is the clamped minimum of its samples |
| `WindowSelection.ExampleTrackWindows` | mvz/methods/bandpass_and_snapping.py:53-63 | track `[10, 10, 10, 50]`, window size 5: windows `(10, 3)` then `(50, 1)` |
| `WindowSelection.ConstantSpan` | mvz/methods/bandpass_and_snapping.py:42-43 | a constant track's minimum is the constant, and its maximum is `max(0, constant)` |
| `WindowSelection.ConstantTrackIsOneWindow` | mvz/methods/bandpass_and_snapping.py:53-63 | a constant track whose value fits is one window over the whole track |
| `FrameBoxes.RunningTotals` | mvz/methods/bandpass_and_snapping.py:78-78 | one running total per window |
| `FrameBoxes.KeyFrames` | mvz/methods/bandpass_and_snapping.py:78-79 | key frame i is the total length of the windows before window i; an empty list gives `[0]` |
| `FrameBoxes.TotalLengthGrows` | mvz/methods/bandpass_and_snapping.py:78-79 | with windows of at least one frame, a longer prefix has a larger total length |
| `FrameBoxes.KeyFramesIncrease` | mvz/methods/bandpass_and_snapping.py:78-79 | with windows of at least one frame, key frames strictly increase |
| `FrameBoxes.FirstAbove` | mvz/methods/bandpass_and_snapping.py:82-84 | the position of the first key frame past the frame, or the list's length when none is |
| `FrameBoxes.KeyFrameIndex` | mvz/methods/bandpass_and_snapping.py:81-85 | every key frame up to the result is at or before the frame, and the next one is past it; the result is -1 when the first key frame is past the frame |
| `FrameBoxes.FindKeyFrameIndex` | mvz/methods/bandpass_and_snapping.py:81-85 | the enumerate loop with its early return gives that same index |
| `FrameBoxes.MakeBoxes` | mvz/methods/bandpass_and_snapping.py:75-102 | exactly `max_frame - min_frame` boxes, or none for an empty range |
| `FrameBoxes.PyIndex` | mvz/methods/bandpass_and_snapping.py:88-88 | Python list indexing: an index from `-len` up gives an element of the list, a non-negative index the element there, and -1 the last element |
| `FrameBoxes.FrameOffset` | mvz/methods/bandpass_and_snapping.py:87-96 | `xspec[key_frame_index(key_frames, frame)][0]`: the frame's offset is the offset of one of the windows |
| `FrameBoxes.FrameBox` | mvz/methods/bandpass_and_snapping.py:98-102 | a frame's box: each coordinate rounded on its own, so width and height are within one pixel of the viewport size |
| `FrameBoxes.KeyFrameIndexFindsWindow` | mvz/methods/bandpass_and_snapping.py:78-85 | for a frame at or after 0, the index is the window holding the frame (the last window for frames past the end), and the last key frame at or before it |
| `FrameBoxes.FrameOffsetOfWindow` | mvz/methods/bandpass_and_snapping.py:87-96 | a frame takes the offset of the window whose frames include it |
| `FrameBoxes.NegativeFrameUsesLastWindow` | mvz/methods/bandpass_and_snapping.py:81-88 | a frame before 0 gets index -1, and Python's `xspec[-1]` gives it the last window's offset |
| `FrameBoxes.MakeBoxesAt` | mvz/methods/bandpass_and_snapping.py:87-102 | box i of the list is the box of frame `min_frame + i` |
| `FrameBoxes.PaddedEdges` | mvz/methods/bandpass_and_snapping.py:98-102 | on one axis, with even padding the near edge is `pos - padding/2`; the far edge is the size further when the padding or the size is even |
| `FrameBoxes.FrameBoxShape` | mvz/methods/bandpass_and_snapping.py:87-102 | one frame's box: near corner at the rounded offsets less `padding/2` for even padding, and viewport-sized when the padding or that dimension is even |
| `FrameBoxes.MakeBoxesShape` | mvz/methods/bandpass_and_snapping.py:87-102 | with even padding, `left = round(x_offset) - padding/2` and `top` likewise; width and height are exact when the padding or that dimension is even |
| `FrameBoxes.BoxesAreNotClampedToVideo` | mvz/methods/bandpass_and_snapping.py:98-102 | offset 0 with padding 80 gives the box `(-40, -40, 392, 203)`, partly outside the video |
| `FrameBoxes.OddPaddingAndWidthChangeWidth` | mvz/methods/bandpass_and_snapping.py:98-102 | with odd padding and odd width, ties-to-even rounding can change the width (1 becomes 0) |
| `Anticipation.TakeWhileEqual` | mvz/methods/bandpass_and_snapping.py:110-110 | the count of leading elements equal to the value; the next element, if any, differs |
| `Anticipation.DistanceToNextChange` | mvz/methods/bandpass_and_snapping.py:105-113 | `None` exactly when no later element differs; otherwise `j - idx` for the first later `j` whose element differs |
| `Anticipation.DistanceToNextChangeExamples` | test/bandpass_and_snapping_test.py:6-10 | `[0,0,0,1]` gives 3 at index 0, 2 at index 1, and `None` at index 3 |
| `Anticipation.EaseFraction` | mvz/methods/bandpass_and_snapping.py:117-119 | `norm.cdf(T - distance, loc=T/2, scale=T/6)` as `phi` of the standardised distance: a probability for a probability-valued `phi`, `phi(0)` at distance T/2 (the mean) and `phi(1)` at distance T/3 (one scale from it) |
| `Anticipation.StandardisedDistance` | mvz/methods/bandpass_and_snapping.py:117-119 | the standardised argument is 0 at distance T/2 and 1 at distance T/3 |
| `Anticipation.EaseFractionMonotone` | mvz/methods/bandpass_and_snapping.py:116-119 | for a monotone CDF, a larger distance to the change gives a smaller or equal fraction |
| `Anticipation.ScaledStepBetween` | mvz/methods/bandpass_and_snapping.py:120-120 | `start + (finish - start) * frac` lies between start and finish for a fraction in [0, 1] |
| `Anticipation.Interpolate1` | mvz/methods/bandpass_and_snapping.py:116-120 | the interpolated coordinate lies between start and finish; fraction 0 gives start and fraction 1 gives finish |
| `Anticipation.Interpolate` | mvz/methods/bandpass_and_snapping.py:123-127 | each coordinate lies between the two boxes' coordinates; equal boxes give the same box |
| `Anticipation.ShouldAnticipate` | mvz/methods/bandpass_and_snapping.py:132-135 | a frame anticipates only when `anticipation_time` is positive and the frame that far ahead exists; with 0 no frame anticipates |
| `Anticipation.AnticipatingDistance` | mvz/methods/bandpass_and_snapping.py:132-142 | an anticipating frame has a following change, at a distance between 1 and `anticipation_time` |
| `Anticipation.AnticipatedFrame` | mvz/methods/bandpass_and_snapping.py:137-145 | a frame that does not anticipate keeps its box; an anticipating one lies between its box and the next different box |
| `Anticipation.Anticipated` | mvz/methods/bandpass_and_snapping.py:130-146 | the output has one box per input box |
| `Anticipation.AnticipateChanges` | mvz/methods/bandpass_and_snapping.py:130-146 | the loop builds frame by frame the output defined from the original boxes only |
| `Anticipation.AnticipatedPassThrough` | mvz/methods/bandpass_and_snapping.py:132-145 | a frame that does not anticipate, including each of the last `anticipation_time` frames, is unchanged |
| `Anticipation.AnticipatedMovesTowardNextBox` | mvz/methods/bandpass_and_snapping.py:139-142 | an anticipating frame's coordinates lie between its own box and the next different box |
| `Anticipation.ZeroAnticipationTimeIsIdentity` | mvz/methods/bandpass_and_snapping.py:130-146 | with `anticipation_time` 0 the boxes are returned unchanged |
| `Anticipation.NoChangeIsIdentity` | mvz/methods/bandpass_and_snapping.py:130-146 | a sequence in which the box never changes is returned as it is |
| `Pipeline.SingleWindowOffset` | mvz/methods/bandpass_and_snapping.py:81-96 | with a single window every frame takes its offset |
| `Pipeline.OffsetsBoundFrameOffset` | mvz/methods/bandpass_and_snapping.py:87-88 | a frame's rounded offset lies in the range that holds every window's offset |
| `Pipeline.TrackWindowsInVideo` | mvz/methods/bandpass_and_snapping.py:53-63 | a non-empty track gives a non-empty window list whose offsets lie in `[0, max_size - box_size]` |
| `Pipeline.FrameBoxNearVideo` | mvz/methods/bandpass_and_snapping.py:87-102 | with in-range window offsets and even padding, a frame's box is viewport-sized and lies in the video shifted by `padding/2` toward the origin |
| `Pipeline.MakeBoxesNearVideo` | mvz/methods/bandpass_and_snapping.py:75-102 | the same for every box of the list |
| `Pipeline.SnappedBoxesNearVideo` | mvz/methods/bandpass_and_snapping.py:53-102 | boxes from the window lists keep the viewport size (even padding). They lie in the video shifted by `padding/2` toward the origin |
| `Pipeline.SingleWindowFrameBox` | mvz/methods/bandpass_and_snapping.py:87-102 | with one window per axis, any two frames get the same box |
| `Pipeline.SingleWindowBoxesRepeat` | mvz/methods/bandpass_and_snapping.py:75-102 | with one window per axis, every box of the list equals the first |
| `Pipeline.ConstantTracksGiveOneShot` | mvz/methods/bandpass_and_snapping.py:53-146 | constant tracks give one window per axis, one box repeated for every frame, and no change from the smoother |
| `Ewma.AxisOrigin` | mvz/methods/ewma.py:20-25 | the origin plus the size never passes the far edge; it lies in `[0, max - size]` when the box fits the video; it is `max(pos - size/2, 0)` when the far-edge check does not fire, so 0 when only the near clamp fires and the box fits, and centred on the position when no clamp fires; it is `max - size` when the far-edge clamp fires |
| `Ewma.BoxForPosition` | mvz/methods/ewma.py:15-31 | the box is the rounded origin and origin plus size. The far edges stay inside the video, and the near edges are at or above 0 when the box fits. Each dimension is within one pixel of the size, and exact when the size is even |
| `Ewma.RoundedAxis` | mvz/methods/ewma.py:20-31 | on one axis the rounded far edge stays in the video, the rounded near edge is at or above 0 when the box fits, and the two are the size apart within one pixel, exactly for an even size |
| `Ewma.RoundedFarEdge` | mvz/methods/ewma.py:27-31 | rounding keeps an in-bounds far edge in bounds and a non-negative origin non-negative |
| `Ewma.OddSizeIntegerPositionMissesSize` | mvz/methods/ewma.py:20-31 | with an odd box size and an integer position needing no clamp, the rounded box is never that size |
| `Ewma.BoxForPositionHeightExample` | mvz/methods/ewma.py:20-31 | height 243 at position y = 122 gives top 0 and bottom 244 |
| `Ewma.RoundHalf` | mvz/methods/ewma.py:29-29 | a value ending in .5 rounds to its even neighbour |
| `Ewma.CentredBox` | mvz/methods/ewma.py:15-31 | corrected box: the rounded origin plus exactly the viewport size, inside the video when it fits |
| `Ewma.RoundedNearEdge` | mvz/methods/ewma.py:22-25 | a rounded origin plus the size stays inside the video |

## Findings

| source | as written | input that shows it | evidently intended | confidence | as-written member | corrected member |
|---|---|---|---|---|---|---|
| mvz/methods/ewma.py:27-31 | `bottom = round(origin_y + box_height)` is rounded apart from `top = round(origin_y)`; with the odd `box_height` 243, an origin ending in .5 rounds both edges to even numbers | `pos = (640, 122)` with a 432 x 243 viewport in a 1280 x 720 video: origin y 0.5, box `(424, 0, 856, 244)`, 244 high | every box is exactly `box_height` (243) high | medium, not executed | `Ewma.BoxForPosition`, `Ewma.BoxForPositionHeightExample`, `Ewma.OddSizeIntegerPositionMissesSize` | `Ewma.CentredBox` |

## Left out

- `bandpass_filter_data`: a Butterworth filter from scipy, run in floating point. The model starts from an already filtered track.
- `scipy.stats.norm.cdf` in `_interpolate1`: replaced by the parameter `phi`. Its values are assumed to lie in [0, 1], and it is assumed monotone where a lemma needs that.
- Floating point: samples are exact reals. NaN and infinite samples are not modelled. `+inf` appears only as `choose_window`'s initial `minval`.
- `initial_offset` (0 in the source): the slice `x_filt[initial_offset:]` is the whole track, so it is not modelled.
- `main` of both methods, `smooth_with_ewma`, `crop_all_to_bounding_box`, and the unreachable `return boxes` after `anticipate_changes`' loop: these are I/O glue or dead code.
- `shared.read_path_data` and `shared.crop_to_bounding_boxes`: CSV and image I/O. `shared.tuple4` is the `Box` constructor.
- `mvz/image_processing.py`, `mvz/generate_video.py`, `mvz/downloader.py`, `bin/run_mvz.py` and `bin/run_method.py`: image processing, video encoding, download and command-line glue.
- `mvz/const.py`: its paths are not modelled, and its sizes are parameters.
- `WindowSelection.MakeSpec`: requires every sample to fit a window on its own. Without that, the source can loop forever. The model proves the stall (`ChooseWindowStalls`) but does not run the non-terminating loop.
- `FrameBoxes.MakeBoxes`: requires non-empty window lists when the frame range is non-empty. The source raises `IndexError` there.
- `Anticipation.DistanceToNextChange`: requires `0 <= idx < len(boxes)`. The source fails or uses negative indexing outside that range, and its callers never pass such an index.
- `Anticipation.Interpolate1`: requires `anticipation_time > 0`. A zero scale makes scipy return NaN. `Interpolate` and `EaseFraction` carry the same requirement; with `anticipation_time` 0 no frame anticipates, so `anticipate_changes` never reaches them.
- `Anticipation.Anticipated`: requires `anticipation_time >= 0`, and so does `AnticipateChanges`. A negative value would turn `boxes[idx + anticipation_time]` into a Python negative index. The source's constant is positive.
- `Ewma.BoxForPosition`: positions are reals, not the integer tuple the signature annotates, because the smoothed positions the source passes are floats.
