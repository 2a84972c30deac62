/** `box_for_position` of mvz/methods/ewma.py: a viewport-sized box centred on
    a position, moved back inside the video when it would cross an edge. */
module Ewma {
  import opened PyRound
  import opened BoundingBoxes

  /** One axis of `origin` before rounding: `max(pos - size/2, 0)`, then set to
      `max_size - size` when the box would cross the far edge. */
  function AxisOrigin(pos: real, size: int, maxSize: int): (r: real)
    ensures r + size as real <= maxSize as real
    ensures maxSize >= size ==> 0.0 <= r <= (maxSize - size) as real
    ensures (0.0 <= pos - size as real / 2.0 && pos - size as real / 2.0 + size as real <= maxSize as real)
            ==> r == pos - size as real / 2.0
    ensures (RealMax(pos - size as real / 2.0, 0.0) + size as real <= maxSize as real)
            ==> r == RealMax(pos - size as real / 2.0, 0.0)
    ensures (pos - size as real / 2.0 < 0.0 && size <= maxSize) ==> r == 0.0
    ensures (RealMax(pos - size as real / 2.0, 0.0) + size as real > maxSize as real)
            ==> r == (maxSize - size) as real
  {
    var o := RealMax(pos - size as real / 2.0, 0.0);
    if o + size as real > maxSize as real then (maxSize - size) as real else o
  }

  /** `box_for_position(pos)`: `origin` is built as a two-element list, each entry
      overwritten when its box would cross the far edge, and the box
      `(left, top, right, bottom)` is the rounded origin and origin plus size. */
  method BoxForPosition(pos: (real, real), boxWidth: int, boxHeight: int,
                        maxWidth: int, maxHeight: int) returns (box: Box)
    ensures var ox := AxisOrigin(pos.0, boxWidth, maxWidth);
            var oy := AxisOrigin(pos.1, boxHeight, maxHeight);
            box == Box(Round(ox), Round(oy), Round(ox + boxWidth as real), Round(oy + boxHeight as real))
    ensures box.right <= maxWidth && box.bottom <= maxHeight
    ensures maxWidth >= boxWidth ==> 0 <= box.left
    ensures maxHeight >= boxHeight ==> 0 <= box.top
    ensures boxWidth - 1 <= box.right - box.left <= boxWidth + 1
    ensures boxHeight - 1 <= box.bottom - box.top <= boxHeight + 1
    ensures boxWidth % 2 == 0 ==> box.right - box.left == boxWidth
    ensures boxHeight % 2 == 0 ==> box.bottom - box.top == boxHeight
  {
    var origin := [RealMax(pos.0 - boxWidth as real / 2.0, 0.0),
                   RealMax(pos.1 - boxHeight as real / 2.0, 0.0)];
    if origin[0] + boxWidth as real > maxWidth as real {
      origin := origin[0 := (maxWidth - boxWidth) as real];
    }
    if origin[1] + boxHeight as real > maxHeight as real {
      origin := origin[1 := (maxHeight - boxHeight) as real];
    }
    assert origin[0] == AxisOrigin(pos.0, boxWidth, maxWidth);
    assert origin[1] == AxisOrigin(pos.1, boxHeight, maxHeight);
    box := Box(Round(origin[0]), Round(origin[1]),
               Round(origin[0] + boxWidth as real), Round(origin[1] + boxHeight as real));
    RoundedAxis(pos.0, boxWidth, maxWidth);
    RoundedAxis(pos.1, boxHeight, maxHeight);
  }

  /** One axis of `box_for_position`: the rounded edges stay in the video and are
      the size apart, give or take one, exactly when the size is even. */
  lemma RoundedAxis(pos: real, size: int, maxSize: int)
    ensures var o := AxisOrigin(pos, size, maxSize);
            var near, far := Round(o), Round(o + size as real);
            far <= maxSize && (maxSize >= size ==> 0 <= near) &&
            size - 1 <= far - near <= size + 1 &&
            (size % 2 == 0 ==> far - near == size)
  {
    var o := AxisOrigin(pos, size, maxSize);
    RoundedFarEdge(o, size, maxSize);
    RoundShiftInt(o, size);
    if size % 2 == 0 {
      RoundShiftEven(o, size);
    }
  }

  /** Rounding keeps an origin at or above 0, and a far edge at or below the
      video edge, on the right side of it. */
  lemma RoundedFarEdge(o: real, size: int, maxSize: int)
    requires o + size as real <= maxSize as real
    ensures Round(o + size as real) <= maxSize
    ensures maxSize >= size && 0.0 <= o ==> 0 <= Round(o)
  {
    RoundOfInt(maxSize);
    RoundMonotone(o + size as real, maxSize as real);
    RoundOfInt(0);
    if 0.0 <= o {
      RoundMonotone(0.0, o);
    }
  }

  /** With an odd box size the rounded box is never that size for an integer
      position (the type the source annotates) whose box needs no clamping: the
      origin ends in .5 and both edges round to even numbers, which differ by an
      even amount. */
  lemma OddSizeIntegerPositionMissesSize(p: int, size: int, maxSize: int)
    requires size % 2 == 1
    requires 0.0 <= p as real - size as real / 2.0
    requires p as real - size as real / 2.0 + size as real <= maxSize as real
    ensures var o := AxisOrigin(p as real, size, maxSize);
            Round(o + size as real) - Round(o) != size
  {
    var n := p - size / 2 - 1;
    OddHalfSize(size);
    assert AxisOrigin(p as real, size, maxSize) == n as real + 0.5;
    HalfOriginMissesSize(n, size);
  }

  lemma OddHalfSize(size: int)
    requires size % 2 == 1
    ensures size as real / 2.0 == (size / 2) as real + 0.5
  {
    assert size == 2 * (size / 2) + 1;
  }

  /** Both edges of a box whose origin ends in .5 round to even numbers. */
  lemma HalfOriginMissesSize(n: int, size: int)
    requires size % 2 == 1
    ensures Round(n as real + 0.5 + size as real) - Round(n as real + 0.5) != size
  {
    RoundHalf(n);
    RoundHalf(n + size);
    assert n as real + 0.5 + size as real == (n + size) as real + 0.5;
    if n % 2 == 0 {
      assert (n + size) % 2 == 1;
    } else {
      assert (n + size) % 2 == 0;
    }
  }

  /** A value ending in .5 rounds to its even neighbour. */
  lemma RoundHalf(n: int)
    ensures Round(n as real + 0.5) == if n % 2 == 0 then n else n + 1
  {
    if n % 2 == 0 {
      RoundUnique(n as real + 0.5, n);
    } else {
      RoundUnique(n as real + 0.5, n + 1);
    }
  }

  /** The viewport of mvz/const.py (432 x 243 in a 1280 x 720 video) at position
      (640, 122): the top edge rounds to 0 and the bottom edge to 244. */
  lemma BoxForPositionHeightExample()
    ensures var oy := AxisOrigin(122.0, 243, 720);
            Round(oy) == 0 && Round(oy + 243.0) == 244
  {
    var oy := AxisOrigin(122.0, 243, 720);
    assert oy == 0.5;
    RoundUnique(0.5, 0);
    RoundUnique(243.5, 244);
  }

  /** The box `box_for_position` is evidently meant to give: the rounded origin
      and exactly the viewport size, kept inside the video. */
  function CentredBox(pos: (real, real), boxWidth: int, boxHeight: int,
                      maxWidth: int, maxHeight: int): (box: Box)
    ensures box.right - box.left == boxWidth && box.bottom - box.top == boxHeight
    ensures box.right <= maxWidth && box.bottom <= maxHeight
    ensures maxWidth >= boxWidth ==> 0 <= box.left
    ensures maxHeight >= boxHeight ==> 0 <= box.top
    ensures box.left == Round(AxisOrigin(pos.0, boxWidth, maxWidth))
    ensures box.top == Round(AxisOrigin(pos.1, boxHeight, maxHeight))
  {
    var ox := AxisOrigin(pos.0, boxWidth, maxWidth);
    var oy := AxisOrigin(pos.1, boxHeight, maxHeight);
    RoundedNearEdge(ox, boxWidth, maxWidth);
    RoundedNearEdge(oy, boxHeight, maxHeight);
    Box(Round(ox), Round(oy), Round(ox) + boxWidth, Round(oy) + boxHeight)
  }

  lemma RoundedNearEdge(o: real, size: int, maxSize: int)
    requires o + size as real <= maxSize as real
    ensures Round(o) + size <= maxSize
    ensures maxSize >= size && 0.0 <= o ==> 0 <= Round(o)
  {
    RoundOfInt(0);
    if 0.0 <= o {
      RoundMonotone(0.0, o);
    }
  }
}
