/**
 * Region calibration and loading: two left-button presses are collected from
 * the mouse, the second must lie strictly right of and below the first, and
 * the region is stored as its two corners `[x1, y1, x2, y2]`; loading turns the
 * stored list back into `(x, y, width, height)`.
 *
 * The region file is modelled by the list it stores under "region" (None when
 * the file is absent or not readable as such a list). Mouse positions are
 * reals, as a back end may report fractional positions; the check compares
 * them as delivered and the record stores their integer truncation.
 */
module Calibration {

  import opened Wrappers

  datatype MouseButton = Left | Right | Middle

  /** One event delivered to the click callback. */
  datatype MouseEvent = MouseEvent(x: real, y: real, button: MouseButton, pressed: bool)

  datatype Corner = Corner(x: real, y: real)

  /** A detection area: top-left corner and extents. */
  datatype Region = Region(x: int, y: int, w: int, h: int)

  /** Only presses of the left button are recorded. */
  predicate Recorded(e: MouseEvent)
  {
    e.pressed && e.button == Left
  }

  /** Positions of all recorded presses in `events`, in order. */
  function LeftPresses(events: seq<MouseEvent>): (r: seq<Corner>)
    ensures |r| <= |events|
  {
    if |events| == 0 then []
    else
      var e := events[|events| - 1];
      LeftPresses(events[..|events| - 1]) + (if Recorded(e) then [Corner(e.x, e.y)] else [])
  }

  /** The presses recorded in a prefix of the events begin the presses of the whole stream. */
  lemma {:induction false} LeftPressesPrefix(events: seq<MouseEvent>, k: nat)
    requires k <= |events|
    ensures var p := LeftPresses(events[..k]);
      |p| <= |LeftPresses(events)| && LeftPresses(events)[..|p|] == p
    decreases |events| - k
  {
    if k < |events| {
      var init := events[..|events| - 1];
      assert init[..k] == events[..k];
      LeftPressesPrefix(init, k);
      assert LeftPresses(events) == LeftPresses(init) + (if Recorded(events[|events| - 1]) then [Corner(events[|events| - 1].x, events[|events| - 1].y)] else []);
    } else {
      assert events[..k] == events;
    }
  }

  /** At most the first two entries of `s`. */
  function FirstTwo<T>(s: seq<T>): (r: seq<T>)
    ensures |r| == (if |s| < 2 then |s| else 2) && r == s[..|r|]
  {
    if |s| <= 2 then s else s[..2]
  }

  /** The click collector: the list the callback appends to, and whether the listener still runs. */
  class ClickListener {
    var clicks: seq<Corner>
    var running: bool

    /** The listener stops exactly when the second click has been recorded. */
    ghost predicate Valid()
      reads this
    {
      |clicks| <= 2 && (running <==> |clicks| < 2)
    }

    constructor ()
      ensures Valid() && clicks == [] && running
    {
      clicks := [];
      running := true;
    }

    /** `on_click`: record a left press; stop listening once two are recorded. */
    method OnClick(e: MouseEvent)
      requires Valid() && running
      modifies this
      ensures Valid()
      ensures clicks == old(clicks) + (if Recorded(e) then [Corner(e.x, e.y)] else [])
    {
      if e.pressed && e.button == Left {
        clicks := clicks + [Corner(e.x, e.y)];
        if |clicks| == 2 {
          running := false;
        }
      }
    }

    /**
     * `listener.join()`: deliver events until the listener stops or the stream
     * ends. Afterwards the clicks are the first two recorded presses, and the
     * listener consumed nothing after the second one.
     */
    method Join(events: seq<MouseEvent>) returns (consumed: nat)
      requires Valid() && running && clicks == []
      modifies this
      ensures Valid()
      ensures consumed <= |events|
      ensures clicks == LeftPresses(events[..consumed])
      ensures clicks == FirstTwo(LeftPresses(events))
      ensures consumed < |events| ==> |clicks| == 2
      ensures |clicks| == 2 ==> consumed > 0 && Recorded(events[consumed - 1])
    {
      consumed := 0;
      while consumed < |events| && running
        invariant consumed <= |events|
        invariant Valid()
        invariant clicks == LeftPresses(events[..consumed])
        invariant |clicks| == 2 ==> consumed > 0 && Recorded(events[consumed - 1])
      {
        assert events[..consumed + 1][..consumed] == events[..consumed];
        OnClick(events[consumed]);
        consumed := consumed + 1;
      }
      LeftPressesPrefix(events, consumed);
      if consumed == |events| {
        assert events[..consumed] == events;
      }
    }
  }

  /** Python's `int()` on a float: truncation toward zero. */
  function Trunc(x: real): (n: int)
    ensures x >= 0.0 ==> n as real <= x < n as real + 1.0
    ensures x < 0.0 ==> n as real - 1.0 < x <= n as real
  {
    if x >= 0.0 then x.Floor else -((-x).Floor)
  }

  /** Truncation keeps order, and it is the identity on whole numbers. */
  lemma TruncMonotone(x: real, y: real, n: int)
    ensures x <= y ==> Trunc(x) <= Trunc(y)
    ensures Trunc(n as real) == n
  {
  }

  /** The record `set_region` stores for two clicks, or None when it refuses them. */
  function RegionRecord(clicks: seq<Corner>): (r: Option<seq<int>>)
    ensures r.Some? <==> |clicks| == 2 && clicks[0].x < clicks[1].x && clicks[0].y < clicks[1].y
    ensures r.Some? ==> r.value == [Trunc(clicks[0].x), Trunc(clicks[0].y), Trunc(clicks[1].x), Trunc(clicks[1].y)]
  {
    if |clicks| != 2 then None
    else
      var x1, y1 := clicks[0].x, clicks[0].y;
      var x2, y2 := clicks[1].x, clicks[1].y;
      if x2 <= x1 || y2 <= y1 then None
      else Some([Trunc(x1), Trunc(y1), Trunc(x2), Trunc(y2)])
  }

  /**
   * `set_region`: collect the clicks, validate them and store the record.
   * Returns whether it succeeded and the file content afterwards.
   */
  method SetRegion(events: seq<MouseEvent>, file: Option<seq<int>>) returns (ok: bool, written: Option<seq<int>>)
    ensures var p := LeftPresses(events);
      && (ok <==> |p| >= 2 && p[0].x < p[1].x && p[0].y < p[1].y)
      && (ok ==> written == Some([Trunc(p[0].x), Trunc(p[0].y), Trunc(p[1].x), Trunc(p[1].y)]))
    ensures !ok ==> written == file
    ensures ok <==> RegionRecord(FirstTwo(LeftPresses(events))).Some?
    ensures ok ==> written == RegionRecord(FirstTwo(LeftPresses(events)))
  {
    var listener := new ClickListener();
    var _ := listener.Join(events);
    var record := RegionRecord(listener.clicks);
    if record.None? {
      return false, file;
    }
    return true, record;
  }

  /** Corners of a region, the stored shape `[x1, y1, x2, y2]`. */
  function Corners(r: Region): (l: seq<int>)
    ensures |l| == 4
  {
    [r.x, r.y, r.x + r.w, r.y + r.h]
  }

  /** `load_region`: a stored four-element list becomes `(x1, y1, x2 - x1, y2 - y1)`; anything else is None. */
  function LoadRegion(file: Option<seq<int>>): Option<Region>
  {
    if file.Some? && |file.value| == 4 then
      var l := file.value;
      Some(Region(l[0], l[1], l[2] - l[0], l[3] - l[1]))
    else None
  }

  /** Loading and storing are inverse on four-element lists. */
  lemma LoadRegionInvertsCorners(r: Region, l: seq<int>)
    ensures LoadRegion(Some(Corners(r))) == Some(r)
    ensures |l| == 4 ==> LoadRegion(Some(l)).Some? && Corners(LoadRegion(Some(l)).value) == l
    ensures |l| != 4 ==> LoadRegion(Some(l)).None?
  {
  }

  /**
   * A calibrated region loads back with the truncated first click as origin.
   * Its extents are never negative, and they are positive when the clicks were
   * at whole-number positions.
   */
  lemma CalibratedRegionLoads(clicks: seq<Corner>)
    requires RegionRecord(clicks).Some?
    ensures var r := LoadRegion(RegionRecord(clicks));
      && r == Some(Region(Trunc(clicks[0].x), Trunc(clicks[0].y),
                          Trunc(clicks[1].x) - Trunc(clicks[0].x), Trunc(clicks[1].y) - Trunc(clicks[0].y)))
      && r.value.w >= 0 && r.value.h >= 0
      && (clicks[0].x == Trunc(clicks[0].x) as real && clicks[1].x == Trunc(clicks[1].x) as real ==> r.value.w > 0)
      && (clicks[0].y == Trunc(clicks[0].y) as real && clicks[1].y == Trunc(clicks[1].y) as real ==> r.value.h > 0)
  {
    TruncMonotone(clicks[0].x, clicks[1].x, 0);
    TruncMonotone(clicks[0].y, clicks[1].y, 0);
  }

  /** Clicks a fraction of a pixel apart pass the check but store a region of width zero. */
  lemma FractionalClicksCollapse()
    ensures RegionRecord([Corner(100.2, 100.2), Corner(100.7, 200.0)]) == Some([100, 100, 100, 200])
    ensures LoadRegion(RegionRecord([Corner(100.2, 100.2), Corner(100.7, 200.0)])) == Some(Region(100, 100, 0, 100))
  {
  }

  /** The second click must be strictly right of and below the first: (100,100) then (50,50) is refused. */
  lemma BackwardsClicksRefused()
    ensures RegionRecord([Corner(100.0, 100.0), Corner(50.0, 50.0)]).None?
    ensures RegionRecord([Corner(100.0, 100.0), Corner(150.0, 100.0)]).None?
    ensures RegionRecord([Corner(100.0, 100.0), Corner(150.0, 160.0)]) == Some([100, 100, 150, 160])
  {
  }

  /** The capture offset: the loaded region's top-left corner, or the screen origin without a region. */
  function Offset(region: Option<Region>): (int, int)
  {
    if region.Some? then (region.value.x, region.value.y) else (0, 0)
  }
}
