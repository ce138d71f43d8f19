/** The camera table: every camera has a place on a grid of 8 groups by 4 positions. */
module CameraGrid {

  datatype Camera = Camera(group: int, pos: int)

  type Grid = seq<Camera>

  const GROUPS: int := 8
  const POSITIONS: int := 4

  /** What reading the configuration checks: every camera has a place on the grid. */
  predicate OnGrid(grid: Grid) {
    forall c :: 0 <= c < |grid| ==> 0 <= grid[c].group < GROUPS && 0 <= grid[c].pos < POSITIONS
  }

  /** A camera table as it is meant: one camera to a place. */
  predicate ValidGrid(grid: Grid) {
    && OnGrid(grid)
    && (forall c, d :: 0 <= c < d < |grid| ==> grid[c] != grid[d])
  }

  /** The first camera at a place, or -1. */
  function VideoAt(grid: Grid, group: int, pos: int): (v: int)
    ensures -1 <= v < |grid|
    ensures v >= 0 ==> grid[v] == Camera(group, pos)
  {
    if 0 <= group < GROUPS && 0 <= pos < POSITIONS then FirstAt(grid, group, pos, 0) else -1
  }

  function FirstAt(grid: Grid, group: int, pos: int, from: nat): (v: int)
    requires from <= |grid|
    ensures v == -1 || from <= v < |grid|
    ensures v >= 0 ==> grid[v] == Camera(group, pos) && forall c :: from <= c < v ==> grid[c] != Camera(group, pos)
    ensures v == -1 ==> forall c :: from <= c < |grid| ==> grid[c] != Camera(group, pos)
    decreases |grid| - from
  {
    if from == |grid| then -1
    else if grid[from] == Camera(group, pos) then from
    else FirstAt(grid, group, pos, from + 1)
  }

  /** The place of a camera; (-1, -1) for an index that is no camera. */
  function PlaceOf(grid: Grid, v: int): (p: Camera) {
    if 0 <= v < |grid| then grid[v] else Camera(-1, -1)
  }

  /** GetVideoIdxAccordBtnPose. */
  method GetVideoIdxAccordBtnPose(grid: Grid, group: int, pos: int) returns (v: int)
    ensures v == VideoAt(grid, group, pos)
  {
    if group < 0 || group > 7 || pos < 0 || pos > 3 {
      return -1;
    }
    for i := 0 to |grid|
      invariant FirstAt(grid, group, pos, i) == FirstAt(grid, group, pos, 0)
    {
      if grid[i].group == group && grid[i].pos == pos {
        return i;
      }
    }
    return -1;
  }

  /** GetBtnPoseAccordVideoIdx. */
  method GetBtnPoseAccordVideoIdx(grid: Grid, v: int) returns (group: int, pos: int)
    ensures Camera(group, pos) == PlaceOf(grid, v)
  {
    if v < 0 || v >= |grid| {
      return -1, -1;
    }
    return grid[v].group, grid[v].pos;
  }

  /** On a valid grid the lookup inverts the table: at most one camera answers to a place. */
  lemma LookupInverts(grid: Grid, v: int)
    requires ValidGrid(grid) && 0 <= v < |grid|
    ensures VideoAt(grid, grid[v].group, grid[v].pos) == v
  {}
}
