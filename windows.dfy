/** The window selector: `choose_window` and `make_spec` of
    mvz/methods/bandpass_and_snapping.py. A filtered one-axis track is cut,
    greedily and left to right, into runs ("windows") that fit in the viewport,
    each held at one fixed camera offset. */
module WindowSelection {
  import opened BoundingBoxes

  /** A float that may be +infinity: `choose_window` starts `minval` at +inf
      and returns it when the window is empty. */
  datatype ExtReal = Finite(value: real) | PosInf

  /** One axis's shot: the (clamped) camera offset and the number of frames it is held. */
  datatype Window = Window(offset: real, length: nat)

  /** The minimum of a non-empty track. */
  function Min(s: seq<real>): real
    requires |s| > 0
  {
    if |s| == 1 then s[0] else RealMin(Min(s[..|s| - 1]), s[|s| - 1])
  }

  /** The maximum of the track and 0: `choose_window` starts `maxval` at 0. */
  function Max0(s: seq<real>): real
  {
    if |s| == 0 then 0.0 else RealMax(Max0(s[..|s| - 1]), s[|s| - 1])
  }

  /** `Min` is a sample of the track and below every sample. */
  lemma {:induction false} MinIsLeast(s: seq<real>)
    requires |s| > 0
    ensures forall i :: 0 <= i < |s| ==> Min(s) <= s[i]
    ensures exists i :: 0 <= i < |s| && Min(s) == s[i]
  {
    if |s| > 1 {
      var init := s[..|s| - 1];
      MinIsLeast(init);
      assert forall i :: 0 <= i < |init| ==> init[i] == s[i];
      var k :| 0 <= k < |init| && Min(init) == init[k];
      if s[|s| - 1] < Min(init) {
        assert Min(s) == s[|s| - 1];
      } else {
        assert Min(s) == s[k];
      }
    } else {
      assert Min(s) == s[0];
    }
  }

  /** `Max0` is at least 0 and every sample, and it is 0 or a sample. */
  lemma {:induction false} Max0IsGreatest(s: seq<real>)
    ensures 0.0 <= Max0(s)
    ensures forall i :: 0 <= i < |s| ==> s[i] <= Max0(s)
    ensures Max0(s) == 0.0 || exists i :: 0 <= i < |s| && Max0(s) == s[i]
  {
    if |s| > 0 {
      var init := s[..|s| - 1];
      Max0IsGreatest(init);
      assert forall i :: 0 <= i < |init| ==> init[i] == s[i];
      if Max0(init) != 0.0 && s[|s| - 1] <= Max0(init) {
        var k :| 0 <= k < |init| && Max0(init) == init[k];
        assert Max0(s) == s[k];
      }
    }
  }

  /** The running minimum as `choose_window` holds it: +inf for no samples. */
  function MinExt(s: seq<real>): ExtReal
  {
    if |s| == 0 then PosInf else Finite(Min(s))
  }

  /** The loop test `(maxval - minval) < window_size`; with `minval` = +inf
      the difference is -inf, which is below every window size. */
  predicate Below(maxval: real, minval: ExtReal, windowSize: int)
  {
    match minval
    case PosInf => true
    case Finite(m) => maxval - m < windowSize as real
  }

  /** A run of samples fits in a window of the given size. */
  predicate Fits(s: seq<real>, windowSize: int)
  {
    Below(Max0(s), MinExt(s), windowSize)
  }

  /** A single sample fits in a window on its own. */
  predicate SampleFits(x: real, windowSize: int)
  {
    RealMax(0.0, x) - x < windowSize as real
  }

  /** Every sample fits on its own: under this, every window has at least one frame. */
  ghost predicate SamplesFitAlone(s: seq<real>, windowSize: int)
  {
    forall i :: 0 <= i < |s| ==> SampleFits(s[i], windowSize)
  }

  /** Fitting is closed under taking prefixes: the running min only falls and
      the running max only rises. */
  lemma FitsPrefixClosed(s: seq<real>, windowSize: int, i: nat, j: nat)
    requires i <= j <= |s| && Fits(s[..j], windowSize)
    ensures Fits(s[..i], windowSize)
  {
    if i > 0 {
      var a, b := s[..i], s[..j];
      assert forall k :: 0 <= k < i ==> a[k] == b[k];
      MinIsLeast(a);
      MinIsLeast(b);
      Max0IsGreatest(a);
      Max0IsGreatest(b);
      var ka :| 0 <= ka < i && Min(a) == a[ka];
      assert Min(b) <= Min(a);
      if Max0(a) != 0.0 {
        var kb :| 0 <= kb < i && Max0(a) == a[kb];
        assert Max0(a) <= Max0(b);
      }
    }
  }

  lemma FirstSampleFits(s: seq<real>, windowSize: int)
    requires |s| > 0
    ensures Fits(s[..1], windowSize) <==> SampleFits(s[0], windowSize)
  {
    var p := s[..1];
    assert p[..0] == [];
    assert Min(p) == s[0];
    assert Max0(p) == RealMax(0.0, s[0]);
  }

  /** The search behind the reference definition: extend a fitting prefix of
      length `k` one sample at a time while it still fits. */
  function FitLengthFrom(s: seq<real>, windowSize: int, k: nat): (r: nat)
    requires k <= |s| && Fits(s[..k], windowSize)
    ensures k <= r <= |s|
    decreases |s| - k
  {
    if k == |s| || !Fits(s[..k + 1], windowSize) then k
    else FitLengthFrom(s, windowSize, k + 1)
  }

  /** The search stops at a fitting prefix that cannot take one more sample. */
  lemma {:induction false} FitLengthFromStops(s: seq<real>, windowSize: int, k: nat)
    requires k <= |s| && Fits(s[..k], windowSize)
    ensures var r := FitLengthFrom(s, windowSize, k);
            Fits(s[..r], windowSize) && (r < |s| ==> !Fits(s[..r + 1], windowSize))
    decreases |s| - k
  {
    if !(k == |s| || !Fits(s[..k + 1], windowSize)) {
      FitLengthFromStops(s, windowSize, k + 1);
    }
  }

  /** Reference definition of the window length: the length of the longest
      prefix of `s` that fits. */
  function FitLength(s: seq<real>, windowSize: int): (r: nat)
    ensures r <= |s|
    ensures |s| > 0 && SampleFits(s[0], windowSize) ==> 1 <= r
  {
    assert s[..0] == [];
    if |s| > 0 then FirstSampleFits(s, windowSize); FitLengthFrom(s, windowSize, 0)
    else 0
  }

  /** A fitting prefix that cannot be extended by one sample is the longest one. */
  lemma LongestFittingPrefix(s: seq<real>, windowSize: int, r: nat)
    requires r <= |s| && Fits(s[..r], windowSize)
    requires r < |s| ==> !Fits(s[..r + 1], windowSize)
    ensures forall j :: 0 <= j <= r ==> Fits(s[..j], windowSize)
    ensures forall j :: r < j <= |s| ==> !Fits(s[..j], windowSize)
    ensures |s| > 0 && SampleFits(s[0], windowSize) ==> 1 <= r
  {
    forall j | 0 <= j <= r ensures Fits(s[..j], windowSize) {
      FitsPrefixClosed(s, windowSize, j, r);
    }
    forall j | r < j <= |s| ensures !Fits(s[..j], windowSize) {
      if Fits(s[..j], windowSize) {
        FitsPrefixClosed(s, windowSize, r + 1, j);
      }
    }
    if |s| > 0 {
      FirstSampleFits(s, windowSize);
    }
  }
  /** `FitLength` is the length of the longest prefix that fits: every prefix up
      to it fits and no longer one does. */
  lemma FitLengthIsLongest(s: seq<real>, windowSize: int)
    ensures var r := FitLength(s, windowSize);
            (forall j :: 0 <= j <= r ==> Fits(s[..j], windowSize)) &&
            (forall j :: r < j <= |s| ==> !Fits(s[..j], windowSize))
  {
    assert s[..0] == [];
    FitLengthFromStops(s, windowSize, 0);
    LongestFittingPrefix(s, windowSize, FitLengthFrom(s, windowSize, 0));
  }


  /** `choose_window(seq, window_size)`: the greedy scan with its initial state
      `minval = +inf`, `maxval = 0`, `index = -1` and an increment-then-test loop.
      Returns the minimum of the window (+inf for an empty one) and its length. */
  method ChooseWindow(s: seq<real>, windowSize: int) returns (offset: ExtReal, length: nat)
    ensures length <= |s| && Fits(s[..length], windowSize)
    ensures length < |s| ==> !Fits(s[..length + 1], windowSize)
    ensures offset == MinExt(s[..length])
    ensures length == FitLength(s, windowSize)
  {
    var prevMin: ExtReal := Finite(0.0);
    var minval: ExtReal := PosInf;
    var maxval: real := 0.0;
    var index: int := -1;
    while Below(maxval, minval, windowSize)
      invariant -1 <= index < |s|
      invariant minval == MinExt(s[..index + 1])
      invariant maxval == Max0(s[..index + 1])
      invariant index >= 0 ==> prevMin == MinExt(s[..index])
      invariant index >= 0 ==> Fits(s[..index], windowSize)
      invariant index >= 0 ==> FitLengthFrom(s, windowSize, index) == FitLength(s, windowSize)
      decreases |s| - index
    {
      index := index + 1;
      prevMin := minval;
      if index == |s| {
        break;
      }
      var next := s[..index + 1];
      assert next[..index] == s[..index];
      minval := Finite(match minval case PosInf => s[index] case Finite(m) => RealMin(m, s[index]));
      maxval := RealMax(maxval, s[index]);
    }
    assert s[..index] == s[..|s|] ==> s[..index] == s;
    offset, length := prevMin, index;
  }

  /** `make_spec`'s clamp: a negative offset becomes 0, then one above `hi`
      (`max_size - box_size`) becomes `hi`. +inf only meets the second test. */
  function Clamp(start: ExtReal, hi: int): (r: real)
    ensures hi >= 0 ==> 0.0 <= r <= hi as real
    ensures start.Finite? && 0.0 <= start.value <= hi as real ==> r == start.value
    ensures start.Finite? && start.value < 0.0 && hi >= 0 ==> r == 0.0
    ensures (start.PosInf? || start.value > hi as real) ==> r == hi as real
  {
    match start
    case PosInf => hi as real
    case Finite(v) =>
      var v1 := if v < 0.0 then 0.0 else v;
      if v1 > hi as real then hi as real else v1
  }

  /** The window list `make_spec` builds: one greedy window, clamped, then the
      windows of the rest of the track. */
  function Windows(s: seq<real>, windowSize: int, hi: int): (r: seq<Window>)
    requires SamplesFitAlone(s, windowSize)
    ensures r == [] <==> s == []
    decreases |s|
  {
    if |s| == 0 then []
    else
      var k := FitLength(s, windowSize);
      [Window(Clamp(MinExt(s[..k]), hi), k)] + Windows(s[k..], windowSize, hi)
  }

  lemma WindowsUnfold(s: seq<real>, windowSize: int, hi: int)
    requires SamplesFitAlone(s, windowSize) && |s| > 0
    ensures var k := FitLength(s, windowSize);
            1 <= k && SamplesFitAlone(s[k..], windowSize) &&
            Windows(s, windowSize, hi) == [Window(Clamp(MinExt(s[..k]), hi), k)] + Windows(s[k..], windowSize, hi)
  {
    assert SampleFits(s[0], windowSize);
  }

  /** One round of `make_spec`'s loop keeps `frames + Windows(rest)` unchanged. */
  lemma MakeSpecStep(frames: seq<Window>, rest: seq<real>, windowSize: int, hi: int,
                     start: ExtReal, idx: nat)
    requires SamplesFitAlone(rest, windowSize) && |rest| > 0
    requires idx == FitLength(rest, windowSize) && start == MinExt(rest[..idx])
    ensures 1 <= idx <= |rest| && SamplesFitAlone(rest[idx..], windowSize)
    ensures frames + Windows(rest, windowSize, hi) ==
            (frames + [Window(Clamp(start, hi), idx)]) + Windows(rest[idx..], windowSize, hi)
  {
    WindowsUnfold(rest, windowSize, hi);
  }

  /** `make_spec(seq, box_size, max_size)`: call `choose_window` on what is left of
      the track, clamp the offset into `[0, max_size - box_size]`, append the window
      and drop its frames, until the track is consumed. */
  method MakeSpec(s: seq<real>, boxSize: int, maxSize: int, padding: int) returns (frames: seq<Window>)
    requires SamplesFitAlone(s, boxSize - padding)
    ensures frames == Windows(s, boxSize - padding, maxSize - boxSize)
  {
    var windowSize, hi := boxSize - padding, maxSize - boxSize;
    frames := [];
    var rest := s;
    while |rest| > 0
      invariant SamplesFitAlone(rest, windowSize)
      invariant frames + Windows(rest, windowSize, hi) == Windows(s, windowSize, hi)
      decreases |rest|
    {
      var start, idx := ChooseWindow(rest, windowSize);
      var win := Window(Clamp(start, hi), idx);
      MakeSpecStep(frames, rest, windowSize, hi, start, idx);
      frames := frames + [win];
      rest := rest[idx..];
    }
    assert Windows(rest, windowSize, hi) == [];
    assert frames + [] == frames;
  }

  /** `make_frame_specs`: the x and y window lists, each axis with its own
      viewport and video size. */
  method MakeFrameSpecs(xFilt: seq<real>, yFilt: seq<real>, boxWidth: int, boxHeight: int,
                        maxWidth: int, maxHeight: int, padding: int)
    returns (xFrames: seq<Window>, yFrames: seq<Window>)
    requires SamplesFitAlone(xFilt, boxWidth - padding)
    requires SamplesFitAlone(yFilt, boxHeight - padding)
    ensures xFrames == Windows(xFilt, boxWidth - padding, maxWidth - boxWidth)
    ensures yFrames == Windows(yFilt, boxHeight - padding, maxHeight - boxHeight)
  {
    xFrames := MakeSpec(xFilt, boxWidth, maxWidth, padding);
    yFrames := MakeSpec(yFilt, boxHeight, maxHeight, padding);
  }

  /** The number of frames a window list covers (`sum` of the lengths). */
  function TotalLength(ws: seq<Window>): (r: int)
    ensures 0 <= r
    ensures forall i :: 0 <= i < |ws| ==> ws[i].length <= r
  {
    if |ws| == 0 then 0 else TotalLength(ws[..|ws| - 1]) + ws[|ws| - 1].length
  }

  lemma {:induction false} TotalLengthCons(w: Window, ws: seq<Window>)
    ensures TotalLength([w] + ws) == w.length + TotalLength(ws)
    decreases |ws|
  {
    if |ws| > 0 {
      var init := ws[..|ws| - 1];
      assert ([w] + ws)[..|ws|] == [w] + init;
      TotalLengthCons(w, init);
    } else {
      assert [w] + ws == [w];
      assert [w][..0] == [];
    }
  }

  /** Without the precondition `make_spec` can loop forever: when the first
      sample alone already spans the window (`seq[0] < 0` with
      `-seq[0] >= window_size`, or `window_size <= 0`), `choose_window` returns
      length 0 and `seq[0:]` is the same track again. */
  lemma ChooseWindowStalls(s: seq<real>, windowSize: int)
    requires |s| > 0 && !SampleFits(s[0], windowSize)
    ensures FitLength(s, windowSize) == 0
    ensures s[FitLength(s, windowSize)..] == s
  {
    FirstSampleFits(s, windowSize);
  }

  /** A positive window size and non-negative samples meet the precondition. */
  lemma NonNegativeSamplesFitAlone(s: seq<real>, windowSize: int)
    requires windowSize > 0
    requires forall i :: 0 <= i < |s| ==> 0.0 <= s[i]
    ensures SamplesFitAlone(s, windowSize)
  {
  }

  /** Under the precondition every window is at least one frame and at most the
      rest of the track, so `make_spec` makes progress and stops. */
  lemma WindowLengthBounds(s: seq<real>, windowSize: int)
    requires SamplesFitAlone(s, windowSize) && |s| > 0
    ensures 1 <= FitLength(s, windowSize) <= |s|
  {
    assert SampleFits(s[0], windowSize);
  }

  /** The windows cover the track exactly: their lengths add up to its length,
      and only the empty track gives no windows. */
  lemma {:induction false} WindowsCoverTrack(s: seq<real>, windowSize: int, hi: int)
    requires SamplesFitAlone(s, windowSize)
    ensures TotalLength(Windows(s, windowSize, hi)) == |s|
    decreases |s|
  {
    if |s| > 0 {
      var k := FitLength(s, windowSize);
      assert SampleFits(s[0], windowSize);
      WindowsCoverTrack(s[k..], windowSize, hi);
      TotalLengthCons(Window(Clamp(MinExt(s[..k]), hi), k), Windows(s[k..], windowSize, hi));
    }
  }

  /** Every offset lies in `[0, max_size - box_size]` when the video is at least
      as large as the viewport. */
  lemma {:induction false} WindowOffsetsInVideo(s: seq<real>, windowSize: int, hi: int)
    requires SamplesFitAlone(s, windowSize) && hi >= 0
    ensures forall i :: 0 <= i < |Windows(s, windowSize, hi)| ==>
              0.0 <= Windows(s, windowSize, hi)[i].offset <= hi as real
    decreases |s|
  {
    if |s| > 0 {
      var k := FitLength(s, windowSize);
      assert SampleFits(s[0], windowSize);
      WindowOffsetsInVideo(s[k..], windowSize, hi);
    }
  }

  /** `win` is the window the greedy scan opens at the start of `t`: at least one
      sample, all of them fit, one more would not, and the offset is their
      clamped minimum. */
  ghost predicate GreedyWindow(t: seq<real>, win: Window, windowSize: int, hi: int)
  {
    1 <= win.length <= |t| &&
    Fits(t[..win.length], windowSize) &&
    (win.length < |t| ==> !Fits(t[..win.length + 1], windowSize)) &&
    win.offset == Clamp(Finite(Min(t[..win.length])), hi)
  }

  /** `win` is the greedy window of `s` that starts at frame `start`. */
  ghost predicate GreedyWindowAt(s: seq<real>, start: int, win: Window, windowSize: int, hi: int)
  {
    0 <= start <= |s| && GreedyWindow(s[start..], win, windowSize, hi)
  }

  lemma GreedyWindowShift(s: seq<real>, k: nat, start: int, win: Window, windowSize: int, hi: int)
    requires k <= |s| && GreedyWindowAt(s[k..], start, win, windowSize, hi)
    ensures GreedyWindowAt(s, k + start, win, windowSize, hi)
  {
    assert s[k..][start..] == s[k + start..];
  }

  lemma FirstWindowIsGreedy(s: seq<real>, windowSize: int, hi: int)
    requires SamplesFitAlone(s, windowSize) && |s| > 0
    ensures GreedyWindowAt(s, 0, Windows(s, windowSize, hi)[0], windowSize, hi)
  {
    FitLengthIsLongest(s, windowSize);
    assert s[0..] == s;
    WindowsUnfold(s, windowSize, hi);
  }

  /** Window `i > 0` of a track is window `i - 1` of what follows the first
      window, shifted by the first window's length. */
  lemma WindowsTail(s: seq<real>, windowSize: int, hi: int, i: nat)
    requires SamplesFitAlone(s, windowSize)
    requires 0 < i < |Windows(s, windowSize, hi)|
    ensures var k := FitLength(s, windowSize);
            var rest := Windows(s[k..], windowSize, hi);
            k <= |s| && SamplesFitAlone(s[k..], windowSize) && i - 1 < |rest| &&
            Windows(s, windowSize, hi)[i] == rest[i - 1] &&
            TotalLength(Windows(s, windowSize, hi)[..i]) == k + TotalLength(rest[..i - 1])
  {
    var ws := Windows(s, windowSize, hi);
    var k := FitLength(s, windowSize);
    WindowsUnfold(s, windowSize, hi);
    var rest := Windows(s[k..], windowSize, hi);
    assert ws[..i] == [ws[0]] + rest[..i - 1];
    TotalLengthCons(ws[0], rest[..i - 1]);
  }

  /** Window `i` starts where the earlier ones end and is the window the greedy
      scan picks from there. */
  lemma {:induction false} WindowsAreGreedy(s: seq<real>, windowSize: int, hi: int, i: nat)
    requires SamplesFitAlone(s, windowSize)
    requires i < |Windows(s, windowSize, hi)|
    ensures GreedyWindowAt(s, TotalLength(Windows(s, windowSize, hi)[..i]),
                           Windows(s, windowSize, hi)[i], windowSize, hi)
    decreases |s|
  {
    var ws := Windows(s, windowSize, hi);
    if i == 0 {
      assert ws[..0] == [];
      FirstWindowIsGreedy(s, windowSize, hi);
    } else {
      var k := FitLength(s, windowSize);
      var rest := Windows(s[k..], windowSize, hi);
      var t := TotalLength(rest[..i - 1]);
      WindowsTail(s, windowSize, hi, i);
      WindowsAreGreedy(s[k..], windowSize, hi, i - 1);
      GreedyWindowShift(s, k, t, rest[i - 1], windowSize, hi);
    }
  }

  /** The track `[10, 10, 10, 50]` with window size 5: the first window holds the
      three frames at 10, the sample 50 opens a second one. */
  lemma ExampleTrackWindows()
    ensures Windows([10.0, 10.0, 10.0, 50.0], 5, 1000) == [Window(10.0, 3), Window(50.0, 1)]
  {
    var s := [10.0, 10.0, 10.0, 50.0];
    assert SamplesFitAlone(s, 5);
    ConstantSpan(s[..3], 10.0);
    assert Fits(s[..3], 5);
    assert s[..4] == s && s[..4][..3] == s[..3];
    assert !Fits(s[..4], 5);
    FitLengthIsLongest(s, 5);
    assert FitLength(s, 5) == 3;
    var t := s[3..];
    assert t == [50.0] && t[..1] == t && t[..0] == [] && t[1..] == [];
    assert FitLength(t, 5) == 1;
  }

  lemma ConstantSpan(s: seq<real>, c: real)
    requires |s| > 0 && forall i :: 0 <= i < |s| ==> s[i] == c
    ensures Min(s) == c && Max0(s) == RealMax(0.0, c)
  {
    MinIsLeast(s);
    Max0IsGreatest(s);
  }

  /** A constant track whose value fits is a single window over all of it. */
  lemma ConstantTrackIsOneWindow(s: seq<real>, c: real, windowSize: int, hi: int)
    requires |s| > 0 && forall i :: 0 <= i < |s| ==> s[i] == c
    requires SampleFits(c, windowSize)
    ensures SamplesFitAlone(s, windowSize)
    ensures Windows(s, windowSize, hi) == [Window(Clamp(Finite(c), hi), |s|)]
  {
    ConstantSpan(s, c);
    assert s[..|s|] == s;
    assert Fits(s[..|s|], windowSize);
    FitLengthIsLongest(s, windowSize);
    assert FitLength(s, windowSize) == |s|;
    assert s[|s|..] == [];
  }
}
