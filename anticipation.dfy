/** The anticipation smoother of mvz/methods/bandpass_and_snapping.py:
    `distance_to_next_change`, `_interpolate1`, `interpolate` and
    `anticipate_changes`. A frame whose box differs from the box
    `anticipation_time` frames later starts moving toward the next box early,
    along a normal-CDF ease curve. */
module Anticipation {
  import opened PyRound
  import opened BoundingBoxes

  datatype Option<T> = None | Some(value: T)

  /** `fn.ilen(fn.takewhile(lambda b: b == v, rem))`: how many leading elements of
      `rem` equal `v`. */
  function TakeWhileEqual<T(==)>(rem: seq<T>, v: T): (n: nat)
    ensures n <= |rem|
    ensures forall k :: 0 <= k < n ==> rem[k] == v
    ensures n < |rem| ==> rem[n] != v
  {
    if |rem| == 0 || rem[0] != v then 0 else 1 + TakeWhileEqual(rem[1..], v)
  }

  /** `distance_to_next_change(boxes, idx)`: the run of elements equal to
      `boxes[idx]` from `idx` on is counted against `boxes[idx:] + [None]`; when it
      reaches the `None` sentinel no change follows. */
  function DistanceToNextChange<T(==)>(boxes: seq<T>, idx: int): (r: Option<nat>)
    requires 0 <= idx < |boxes|
    ensures r.None? <==> forall j :: idx < j < |boxes| ==> boxes[j] == boxes[idx]
    ensures r.Some? ==> 1 <= r.value && idx + r.value < |boxes| &&
                        boxes[idx + r.value] != boxes[idx] &&
                        forall j :: idx <= j < idx + r.value ==> boxes[j] == boxes[idx]
  {
    var rem := boxes[idx..];
    var dist := TakeWhileEqual(rem, boxes[idx]);
    if dist == |rem| then None else Some(dist)
  }

  /** The cases of test/bandpass_and_snapping_test.py. */
  lemma DistanceToNextChangeExamples()
    ensures DistanceToNextChange([0, 0, 0, 1], 0) == Some(3)
    ensures DistanceToNextChange([0, 0, 0, 1], 1) == Some(2)
    ensures DistanceToNextChange([0, 0, 0, 1], 3) == None
  {
    var s := [0, 0, 0, 1];
    var d0 := DistanceToNextChange(s, 0);
    assert s[3] != s[0];
    assert d0.value == 3;
    var d1 := DistanceToNextChange(s, 1);
    assert s[3] != s[1];
    assert d1.value == 2;
  }

  /** The fraction `_interpolate1` expects of `scipy.stats.norm.cdf`: a value in [0, 1]. */
  ghost predicate IsProbability(phi: real -> real)
  {
    forall x :: 0.0 <= phi(x) <= 1.0
  }

  /** A distribution function never decreases. */
  ghost predicate IsMonotone(phi: real -> real)
  {
    forall x, y :: x <= y ==> phi(x) <= phi(y)
  }

  /** `stats.norm.cdf(T - distance, loc=T/2, scale=T/6)` with `phi` the standard
      normal CDF: the CDF at the standardised argument. */
  function EaseFraction(anticipationTime: int, distance: int, phi: real -> real): (r: real)
    requires anticipationTime > 0
    ensures IsProbability(phi) ==> 0.0 <= r <= 1.0
    ensures 2 * distance == anticipationTime ==> r == phi(0.0)
    ensures 3 * distance == anticipationTime ==> r == phi(1.0)
  {
    var mean := anticipationTime as real / 2.0;
    var scale := anticipationTime as real / 6.0;
    StandardisedDistance(anticipationTime, distance);
    phi(((anticipationTime - distance) as real - mean) / scale)
  }

  /** The standardised argument is 0 at half the anticipation time and 1 at a third. */
  lemma StandardisedDistance(anticipationTime: int, distance: int)
    requires anticipationTime > 0
    ensures var x := ((anticipationTime - distance) as real - anticipationTime as real / 2.0)
                     / (anticipationTime as real / 6.0);
            (2 * distance == anticipationTime ==> x == 0.0) &&
            (3 * distance == anticipationTime ==> x == 1.0)
  {
    var scale := anticipationTime as real / 6.0;
    var num := (anticipationTime - distance) as real - anticipationTime as real / 2.0;
    if 3 * distance == anticipationTime {
      assert num == scale;
    }
  }

  /** A longer distance to the change gives a smaller fraction: the box stays
      nearer its start the further off the cut is. */
  lemma EaseFractionMonotone(anticipationTime: int, d1: int, d2: int, phi: real -> real)
    requires anticipationTime > 0 && IsMonotone(phi) && d1 <= d2
    ensures EaseFraction(anticipationTime, d2, phi) <= EaseFraction(anticipationTime, d1, phi)
  {
    var mean := anticipationTime as real / 2.0;
    var scale := anticipationTime as real / 6.0;
    var x2 := (anticipationTime - d2) as real - mean;
    var x1 := (anticipationTime - d1) as real - mean;
    assert x2 <= x1;
    DivideMonotone(x2, x1, scale);
  }

  lemma DivideMonotone(x: real, y: real, s: real)
    requires x <= y && s > 0.0
    ensures x / s <= y / s
  {
    assert y / s - x / s == (y - x) / s;
  }

  lemma ScaleNonNegative(a: real, frac: real)
    requires 0.0 <= a && 0.0 <= frac <= 1.0
    ensures 0.0 <= a * frac <= a
  {
  }

  /** `start + (finish - start) * frac` lies between `start` and `finish`. */
  lemma ScaledStepBetween(start: int, finish: int, frac: real)
    requires 0.0 <= frac <= 1.0
    ensures IntMin(start, finish) as real <= start as real + (finish - start) as real * frac
                                          <= IntMax(start, finish) as real
  {
    var d := (finish - start) as real;
    if d >= 0.0 {
      ScaleNonNegative(d, frac);
    } else {
      ScaleNonNegative(-d, frac);
      assert (-d) * frac == -(d * frac);
    }
  }

  /** `_interpolate1(start_coord, finish_coord, distance)`: one coordinate moved
      the eased fraction of the way from start to finish, then rounded. */
  function Interpolate1(startCoord: int, finishCoord: int, distance: int,
                        anticipationTime: int, phi: real -> real): (r: int)
    requires anticipationTime > 0 && IsProbability(phi)
    ensures Between(r, startCoord, finishCoord)
    ensures EaseFraction(anticipationTime, distance, phi) == 0.0 ==> r == startCoord
    ensures EaseFraction(anticipationTime, distance, phi) == 1.0 ==> r == finishCoord
  {
    var frac := EaseFraction(anticipationTime, distance, phi);
    var x := startCoord as real + (finishCoord - startCoord) as real * frac;
    ScaledStepBetween(startCoord, finishCoord, frac);
    RoundBetween(IntMin(startCoord, finishCoord), IntMax(startCoord, finishCoord), x);
    RoundOfInt(startCoord);
    RoundOfInt(finishCoord);
    Round(x)
  }

  /** `interpolate(start_box, finish_box, distance)`: each of the four coordinates
      interpolated on its own. */
  function Interpolate(startBox: Box, finishBox: Box, distance: int,
                       anticipationTime: int, phi: real -> real): (r: Box)
    requires anticipationTime > 0 && IsProbability(phi)
    ensures BoxBetween(r, startBox, finishBox)
    ensures startBox == finishBox ==> r == startBox
  {
    Box(Interpolate1(startBox.left, finishBox.left, distance, anticipationTime, phi),
        Interpolate1(startBox.top, finishBox.top, distance, anticipationTime, phi),
        Interpolate1(startBox.right, finishBox.right, distance, anticipationTime, phi),
        Interpolate1(startBox.bottom, finishBox.bottom, distance, anticipationTime, phi))
  }

  /** `should_anticipate[idx]`: the box `anticipation_time` frames later exists and
      differs. With `anticipation_time` 0 the box is compared with itself, so no
      frame anticipates. */
  predicate ShouldAnticipate(boxes: seq<Box>, idx: int, anticipationTime: int): (r: bool)
    requires 0 <= idx < |boxes| && anticipationTime >= 0
    ensures r ==> 0 < anticipationTime && idx + anticipationTime < |boxes|
    ensures anticipationTime == 0 ==> !r
  {
    idx < |boxes| - anticipationTime && boxes[idx] != boxes[idx + anticipationTime]
  }

  /** For an anticipating frame a change does follow (so `dist` is never `None`
      and `boxes[i + dist]` is defined), no later than `anticipation_time` frames on. */
  lemma AnticipatingDistance(boxes: seq<Box>, idx: int, anticipationTime: int)
    requires 0 <= idx < |boxes| && anticipationTime >= 0
    requires ShouldAnticipate(boxes, idx, anticipationTime)
    ensures var d := DistanceToNextChange(boxes, idx);
            d.Some? && 1 <= d.value <= anticipationTime
  {
    var d := DistanceToNextChange(boxes, idx);
    assert boxes[idx + anticipationTime] != boxes[idx];
    if d.Some? && d.value > anticipationTime {
      assert idx <= idx + anticipationTime < idx + d.value;
    }
  }

  /** The output for frame `i`: interpolated toward the next box when anticipating,
      otherwise the box itself. Only the original `boxes` are read. */
  function AnticipatedFrame(boxes: seq<Box>, i: int, anticipationTime: int, phi: real -> real): (r: Box)
    requires 0 <= i < |boxes| && anticipationTime >= 0 && IsProbability(phi)
    ensures !ShouldAnticipate(boxes, i, anticipationTime) ==> r == boxes[i]
    ensures ShouldAnticipate(boxes, i, anticipationTime) ==>
              var d := DistanceToNextChange(boxes, i);
              d.Some? && i + d.value < |boxes| && BoxBetween(r, boxes[i], boxes[i + d.value])
  {
    if ShouldAnticipate(boxes, i, anticipationTime) then
      AnticipatingDistance(boxes, i, anticipationTime);
      var dist := DistanceToNextChange(boxes, i).value;
      Interpolate(boxes[i], boxes[i + dist], dist, anticipationTime, phi)
    else boxes[i]
  }

  /** The sequence `anticipate_changes` returns, frame by frame. */
  function Anticipated(boxes: seq<Box>, anticipationTime: int, phi: real -> real): (r: seq<Box>)
    requires anticipationTime >= 0 && IsProbability(phi)
    ensures |r| == |boxes|
  {
    seq(|boxes|, i requires 0 <= i < |boxes| => AnticipatedFrame(boxes, i, anticipationTime, phi))
  }

  /** `anticipate_changes(boxes)`: `should_anticipate` computed first for every frame,
      then one loop appending each frame's result to `new_boxes`. */
  method AnticipateChanges(boxes: seq<Box>, anticipationTime: int, phi: real -> real)
    returns (newBoxes: seq<Box>)
    requires anticipationTime >= 0 && IsProbability(phi)
    ensures newBoxes == Anticipated(boxes, anticipationTime, phi)
  {
    var shouldAnticipate := seq(|boxes|, idx requires 0 <= idx < |boxes| =>
                                  ShouldAnticipate(boxes, idx, anticipationTime));
    newBoxes := [];
    for i := 0 to |boxes|
      invariant newBoxes == Anticipated(boxes, anticipationTime, phi)[..i]
    {
      var box := boxes[i];
      var result;
      if shouldAnticipate[i] {
        AnticipatingDistance(boxes, i, anticipationTime);
        var dist := DistanceToNextChange(boxes, i).value;
        result := Interpolate(box, boxes[i + dist], dist, anticipationTime, phi);
      } else {
        result := box;
      }
      newBoxes := newBoxes + [result];
    }
  }

  /** Frames that do not anticipate, among them the last `anticipation_time`
      frames, come out unchanged. */
  lemma AnticipatedPassThrough(boxes: seq<Box>, anticipationTime: int, phi: real -> real, i: int)
    requires anticipationTime >= 0 && IsProbability(phi) && 0 <= i < |boxes|
    requires !ShouldAnticipate(boxes, i, anticipationTime) || i >= |boxes| - anticipationTime
    ensures Anticipated(boxes, anticipationTime, phi)[i] == boxes[i]
  {
  }

  /** An anticipating frame is moved toward the first different box after it
      (at most `anticipation_time` frames on, by `AnticipatingDistance`): each
      coordinate lies between the frame's own and that box's. */
  lemma AnticipatedMovesTowardNextBox(boxes: seq<Box>, anticipationTime: int, phi: real -> real, i: int)
    requires anticipationTime >= 0 && IsProbability(phi) && 0 <= i < |boxes|
    requires ShouldAnticipate(boxes, i, anticipationTime)
    ensures var d := DistanceToNextChange(boxes, i);
            d.Some? && i + d.value < |boxes| &&
            BoxBetween(Anticipated(boxes, anticipationTime, phi)[i], boxes[i], boxes[i + d.value])
  {
    AnticipatingDistance(boxes, i, anticipationTime);
  }

  /** With `anticipation_time` 0 no frame anticipates and the boxes come out as
      they went in. */
  lemma ZeroAnticipationTimeIsIdentity(boxes: seq<Box>, phi: real -> real)
    requires IsProbability(phi)
    ensures Anticipated(boxes, 0, phi) == boxes
  {
    var r := Anticipated(boxes, 0, phi);
    forall i | 0 <= i < |boxes| ensures r[i] == boxes[i] {
      AnticipatedPassThrough(boxes, 0, phi, i);
    }
  }

  /** A box sequence that never changes is left as it is. */
  lemma NoChangeIsIdentity(boxes: seq<Box>, anticipationTime: int, phi: real -> real)
    requires anticipationTime >= 0 && IsProbability(phi)
    requires forall j :: 0 <= j < |boxes| ==> boxes[j] == boxes[0]
    ensures Anticipated(boxes, anticipationTime, phi) == boxes
  {
    var r := Anticipated(boxes, anticipationTime, phi);
    forall i | 0 <= i < |boxes| ensures r[i] == boxes[i] {
      AnticipatedPassThrough(boxes, anticipationTime, phi, i);
    }
  }
}
