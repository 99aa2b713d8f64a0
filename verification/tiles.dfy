/** Tile identifiers of the slippy-map grid, and the order in which the
    enumerator lists them. */
module Tiles {

  /** The conventional Some/None datatype, used for the model's error paths. */
  datatype Option<+T> = None | Some(value: T)

  /** One tile of the grid: column `x` and row `y` at zoom level `zoom`.
      Tasks are only ever created by the enumerator, whose zoom levels start
      at 0, so the zoom is a `nat`; the coordinates are plain integers. */
  datatype Task = Task(zoom: nat, x: int, y: int)

  /** Number of tiles along one side of the grid at zoom `z` (`1 << zoom`). */
  function Pow2(z: nat): (p: nat)
    ensures p >= 1
  {
    if z == 0 then 1 else 2 * Pow2(z - 1)
  }

  /** `v` lies in the closed integer interval [lo, hi]. */
  predicate InSpan(lo: int, hi: int, v: int) {
    lo <= v <= hi
  }

  /** Number of integers in the closed interval [lo, hi]; zero when inverted. */
  function Width(lo: int, hi: int): nat {
    if lo <= hi then hi - lo + 1 else 0
  }

  /** Strict lexicographic order on (zoom, x, y). */
  predicate Before(a: Task, b: Task) {
    || a.zoom < b.zoom
    || (a.zoom == b.zoom && a.x < b.x)
    || (a.zoom == b.zoom && a.x == b.x && a.y < b.y)
  }

  /** The list is strictly increasing in (zoom, x, y) order. */
  predicate Increasing(s: seq<Task>) {
    forall i, j :: 0 <= i < j < |s| ==> Before(s[i], s[j])
  }

  /** Every element of `a` comes strictly before every element of `b`. */
  predicate AllBefore(a: seq<Task>, b: seq<Task>) {
    forall i, j :: 0 <= i < |a| && 0 <= j < |b| ==> Before(a[i], b[j])
  }

  /** Two increasing runs, the first entirely before the second, concatenate
      to an increasing list. */
  lemma IncreasingConcat(a: seq<Task>, b: seq<Task>)
    requires Increasing(a) && Increasing(b) && AllBefore(a, b)
    ensures Increasing(a + b)
  {
  }

  /** A strictly increasing list holds no task twice. */
  lemma IncreasingDistinct(s: seq<Task>)
    requires Increasing(s)
    ensures forall i, j :: 0 <= i < j < |s| ==> s[i] != s[j]
  {
  }
}
