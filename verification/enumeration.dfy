/** The task enumerator: for every zoom level from 0 up to the ceiling, the
    corner tiles of the bounding region are clamped to the grid and every tile
    of the clamped rectangle is listed, column by column (x outer, y inner).

    The projection from degrees to tile numbers is not modelled: `corners(z)`
    is the pair of corner tiles the projection yields at zoom `z`. */
module Enumeration {
  import opened Tiles

  /** Corner tiles at one zoom level: (xMin, yMin) from the north-west corner,
      (xMax, yMax) from the south-east corner. */
  datatype GridBounds = GridBounds(xMin: int, yMin: int, xMax: int, yMax: int)

  /** Tile (x, y) of zoom `z` lies inside the corner rectangle `b` and on
      the 2^z by 2^z grid. */
  predicate Covers(b: GridBounds, z: nat, x: int, y: int) {
    && InSpan(b.xMin, b.xMax, x) && InSpan(b.yMin, b.yMax, y)
    && InSpan(0, Pow2(z) - 1, x) && InSpan(0, Pow2(z) - 1, y)
  }

  /** The clamping step: minima are raised to 0 and maxima lowered to
      2^z - 1. Each clamped range is the raw range intersected with the grid. */
  function Clamp(b: GridBounds, z: nat): (c: GridBounds)
    ensures 0 <= c.xMin && 0 <= c.yMin && c.xMax < Pow2(z) && c.yMax < Pow2(z)
    ensures forall x :: InSpan(c.xMin, c.xMax, x) <==> InSpan(b.xMin, b.xMax, x) && InSpan(0, Pow2(z) - 1, x)
    ensures forall y :: InSpan(c.yMin, c.yMax, y) <==> InSpan(b.yMin, b.yMax, y) && InSpan(0, Pow2(z) - 1, y)
  {
    var maxTile := Pow2(z);
    GridBounds(
      if b.xMin < 0 then 0 else b.xMin,
      if b.yMin < 0 then 0 else b.yMin,
      if b.xMax >= maxTile then maxTile - 1 else b.xMax,
      if b.yMax >= maxTile then maxTile - 1 else b.yMax)
  }

  /** The inner loop: tiles (x, lo), (x, lo + 1), ..., (x, hi) of zoom `z`. */
  function Column(z: nat, x: int, lo: int, hi: int): (col: seq<Task>)
    ensures |col| == Width(lo, hi)
    ensures forall i :: 0 <= i < |col| ==> col[i] == Task(z, x, lo + i)
    decreases hi - lo
  {
    if lo > hi then [] else [Task(z, x, lo)] + Column(z, x, lo + 1, hi)
  }

  /** Membership in a column, read off its closed form. */
  lemma ColumnMembers(z: nat, x: int, lo: int, hi: int)
    ensures forall t :: t in Column(z, x, lo, hi) <==> t.zoom == z && t.x == x && InSpan(lo, hi, t.y)
  {
    var col := Column(z, x, lo, hi);
    forall t: Task | t.zoom == z && t.x == x && InSpan(lo, hi, t.y)
      ensures t in col
    {
      assert col[t.y - lo] == t;
    }
  }

  /** The outer loop: the columns xlo, ..., xhi, each running from ylo to yhi. */
  function Rows(z: nat, xlo: int, xhi: int, ylo: int, yhi: int): (r: seq<Task>)
    ensures |r| == Width(xlo, xhi) * Width(ylo, yhi)
    ensures forall t :: t in r <==> t.zoom == z && InSpan(xlo, xhi, t.x) && InSpan(ylo, yhi, t.y)
    ensures Increasing(r)
    decreases xhi - xlo
  {
    if xlo > xhi then []
    else
      var col := Column(z, xlo, ylo, yhi);
      var rest := Rows(z, xlo + 1, xhi, ylo, yhi);
      ColumnMembers(z, xlo, ylo, yhi);
      assert AllBefore(col, rest) by {
        forall i, j | 0 <= i < |col| && 0 <= j < |rest|
          ensures Before(col[i], rest[j])
        {
          assert rest[j] in rest;
        }
      }
      IncreasingConcat(col, rest);
      assert Width(xlo, xhi) * Width(ylo, yhi) == Width(ylo, yhi) + Width(xlo + 1, xhi) * Width(ylo, yhi);
      col + rest
  }

  /** All tasks of one zoom level, in emission order. */
  function Level(z: nat, raw: GridBounds): (r: seq<Task>)
    ensures forall t :: t in r <==> t.zoom == z && Covers(raw, z, t.x, t.y)
    ensures Increasing(r)
    ensures |r| == Width(Clamp(raw, z).xMin, Clamp(raw, z).xMax) * Width(Clamp(raw, z).yMin, Clamp(raw, z).yMax)
  {
    var c := Clamp(raw, z);
    Rows(z, c.xMin, c.xMax, c.yMin, c.yMax)
  }

  /** An inverted clamped range on either axis gives an empty level rather
      than a failure. */
  lemma InvertedLevelEmpty(z: nat, raw: GridBounds)
    requires Clamp(raw, z).xMax < Clamp(raw, z).xMin || Clamp(raw, z).yMax < Clamp(raw, z).yMin
    ensures Level(z, raw) == []
  {
  }

  /** At zoom 0 the grid is a single tile, so a level holds at most the task
      (0, 0, 0), and exactly that task when the corner rectangle covers it. */
  lemma ZoomZeroLevel(raw: GridBounds)
    ensures Level(0, raw) == [] || Level(0, raw) == [Task(0, 0, 0)]
    ensures Covers(raw, 0, 0, 0) <==> Level(0, raw) == [Task(0, 0, 0)]
  {
  }

  /** The body of the loop over `zoomLevels`: the levels of `zs`, one after
      another. */
  function TasksOver(zs: seq<nat>, corners: nat -> GridBounds): (r: seq<Task>)
    ensures forall t :: t in r <==> t.zoom in zs && Covers(corners(t.zoom), t.zoom, t.x, t.y)
  {
    if |zs| == 0 then []
    else
      var here := Level(zs[0], corners(zs[0]));
      var rest := TasksOver(zs[1..], corners);
      assert forall z :: z in zs <==> z == zs[0] || z in zs[1..];
      here + rest
  }

  /** Listing one more zoom level appends exactly that level's tasks. */
  lemma {:induction false} TasksOverSnoc(zs: seq<nat>, z: nat, corners: nat -> GridBounds)
    ensures TasksOver(zs + [z], corners) == TasksOver(zs, corners) + Level(z, corners(z))
    decreases |zs|
  {
    if |zs| == 0 {
      assert zs + [z] == [z];
      assert [z][1..] == [];
    } else {
      assert (zs + [z])[0] == zs[0];
      assert (zs + [z])[1..] == zs[1..] + [z];
      TasksOverSnoc(zs[1..], z, corners);
    }
  }

  /** Over strictly ascending zoom levels the task list is strictly increasing. */
  lemma {:induction false} TasksOverIncreasing(zs: seq<nat>, corners: nat -> GridBounds)
    requires forall i, j :: 0 <= i < j < |zs| ==> zs[i] < zs[j]
    ensures Increasing(TasksOver(zs, corners))
    decreases |zs|
  {
    if |zs| > 0 {
      var here := Level(zs[0], corners(zs[0]));
      var rest := TasksOver(zs[1..], corners);
      TasksOverIncreasing(zs[1..], corners);
      assert AllBefore(here, rest) by {
        forall i, j | 0 <= i < |here| && 0 <= j < |rest|
          ensures Before(here[i], rest[j])
        {
          assert here[i] in here;
          assert rest[j] in rest;
          var k :| 0 <= k < |zs[1..]| && zs[1..][k] == rest[j].zoom;
          assert zs[k + 1] == rest[j].zoom;
        }
      }
      IncreasingConcat(here, rest);
    }
  }

  /** The list 0, 1, ..., n - 1 that the driver fills in `zoomLevels`. */
  function Upto(n: nat): (zs: seq<nat>)
    ensures |zs| == n
    ensures forall i :: 0 <= i < n ==> zs[i] == i
  {
    if n == 0 then [] else Upto(n - 1) + [n - 1]
  }

  /** `zoomLevels := make([]int, maxZoom + 1)` filled with 0..maxZoom; Go's
      `make` panics on a negative length, modelled as `None`. */
  function ZoomLevels(maxZoom: int): (r: Option<seq<nat>>)
    ensures r.None? <==> maxZoom < -1
    ensures r.Some? ==> |r.value| == maxZoom + 1
    ensures r.Some? ==> forall i :: 0 <= i < |r.value| ==> r.value[i] == i
  {
    if maxZoom + 1 < 0 then None else Some(Upto(maxZoom + 1))
  }

  /** The whole task list for zoom levels 0..maxZoom. Its tasks are exactly
      the grid tiles inside the corner rectangle of their zoom level, each
      lies on the grid, and the list is strictly increasing in
      (zoom, x, y), hence free of duplicates. */
  function Enumerate(maxZoom: int, corners: nat -> GridBounds): (r: Option<seq<Task>>)
    ensures r.None? <==> maxZoom < -1
    ensures r.Some? ==> forall t :: t in r.value <==> t.zoom <= maxZoom && Covers(corners(t.zoom), t.zoom, t.x, t.y)
    ensures r.Some? ==> forall t :: t in r.value ==> 0 <= t.x < Pow2(t.zoom) && 0 <= t.y < Pow2(t.zoom)
    ensures r.Some? ==> Increasing(r.value)
    ensures r.Some? ==> forall i, j :: 0 <= i < j < |r.value| ==> r.value[i] != r.value[j]
  {
    match ZoomLevels(maxZoom)
    case None => None
    case Some(zs) =>
      var tasks := TasksOver(zs, corners);
      assert forall z: nat :: z in zs <==> z <= maxZoom by {
        forall z: nat | z <= maxZoom ensures z in zs {
          assert zs[z] == z;
        }
      }
      TasksOverIncreasing(zs, corners);
      IncreasingDistinct(tasks);
      Some(tasks)
  }

  /** Raising the zoom ceiling by one appends exactly the new level's tasks,
      so the tasks at zoom z form one contiguous block of `Level` size. */
  lemma {:induction false} EnumerateNextZoom(maxZoom: nat, corners: nat -> GridBounds)
    ensures Enumerate(maxZoom, corners).Some? && Enumerate(maxZoom as int - 1, corners).Some?
    ensures Enumerate(maxZoom, corners).value
         == Enumerate(maxZoom as int - 1, corners).value + Level(maxZoom, corners(maxZoom))
  {
    assert Upto(maxZoom + 1) == Upto(maxZoom) + [maxZoom];
    TasksOverSnoc(Upto(maxZoom), maxZoom, corners);
  }

  /** With ceiling 0 at most one task is emitted, and it is (0, 0, 0). */
  lemma ZoomZeroOnly(corners: nat -> GridBounds)
    ensures Enumerate(0, corners).Some?
    ensures Enumerate(0, corners).value == [] || Enumerate(0, corners).value == [Task(0, 0, 0)]
  {
  }
}
