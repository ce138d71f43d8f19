/** The carousels that step the picture on: one camera at a time, or one page of four. */
module Carousel {
  import opened CameraGrid

  const PLACES: int := 32

  function PlaceNo(c: Camera): int {
    4 * c.group + c.pos
  }

  /** The first place from k on that has a camera, 32 if there is none. */
  function NextOccupied(grid: Grid, k: int): (p: int)
    ensures p == PLACES || (0 <= p < PLACES && k <= p && VideoAt(grid, p / 4, p % 4) >= 0)
    ensures forall q :: 0 <= q < PLACES && k <= q < p ==> VideoAt(grid, q / 4, q % 4) == -1
    decreases PLACES - k
  {
    if k >= PLACES then PLACES
    else if k >= 0 && VideoAt(grid, k / 4, k % 4) >= 0 then k
    else NextOccupied(grid, k + 1)
  }

  /** The place the search starts at: after the current camera, wrapping after the last. */
  function StartAfter(p: Camera): int {
    if p.pos + 1 < 4 then PlaceNo(Camera(p.group, p.pos + 1))
    else if p.group + 1 == 8 then 0
    else PlaceNo(Camera(p.group + 1, 0))
  }

  lemma OccupiedHere(grid: Grid, i: int, j: int)
    requires -1 <= i < 8 && 0 <= j < 4
    ensures NextOccupied(grid, 4 * i + j)
         == if VideoAt(grid, i, j) >= 0 then 4 * i + j else NextOccupied(grid, 4 * i + j + 1)
  {
    assert i >= 0 ==> (4 * i + j) / 4 == i && (4 * i + j) % 4 == j;
  }

  /** The first occupied place from k on, cyclically. */
  function FirstFrom(grid: Grid, k: int): int {
    var p := NextOccupied(grid, k);
    if p < PLACES then p else NextOccupied(grid, 0)
  }

  function NextSingle(grid: Grid, cur: int): (v: int)
    ensures -1 <= v < |grid|
  {
    var q := FirstFrom(grid, StartAfter(PlaceOf(grid, cur)));
    if q < PLACES then VideoAt(grid, q / 4, q % 4) else VideoAt(grid, 0, 0)
  }

  /** GetNextSingleVideo. */
  method GetNextSingleVideo(grid: Grid, cur: int) returns (video: int)
    requires OnGrid(grid)
    ensures video == NextSingle(grid, cur)
  {
    hide NextOccupied, VideoAt;
    var group, pos := GetBtnPoseAccordVideoIdx(grid, cur);
    var found := false;
    pos := pos + 1;
    if pos >= 4 {
      pos := 0;
      group := group + 1;
      if group == 8 {
        group := 0;
      }
    }
    ghost var start := StartAfter(PlaceOf(grid, cur));
    assert 4 * group + pos == start;
    NoneAfterLast(grid);
    ghost var target := FirstFrom(grid, start);
    assert target == if NextOccupied(grid, start) < PLACES then NextOccupied(grid, start)
                     else NextOccupied(grid, 0);
    hide NextSingle, FirstFrom, StartAfter, PlaceOf;
    var count := 0;
    while count < 2 && !found
      invariant 0 <= count <= 2
      invariant -1 <= group < 8 && 0 <= pos < 4
      invariant count == 0 ==> !found && 4 * group + pos == start
      invariant count > 0 && !found ==> NextOccupied(grid, start) == PLACES && group == 0 && pos == 0
      invariant count == 2 && !found ==> NextOccupied(grid, 0) == PLACES
      invariant found ==> count > 0 && 4 * group + pos < PLACES
      invariant found ==> 4 * group + pos == target
      decreases 2 - count
    {
      ghost var from := 4 * group + pos;
      found, group, pos := ScanRows(grid, group, pos);
      if !found {
        group := 0;
        pos := 0;
      }
      count := count + 1;
    }
    video := GetVideoIdxAccordBtnPose(grid, group, pos);
    SingleIs(grid, cur, group, pos, target);
  }

  lemma SingleIs(grid: Grid, cur: int, group: int, pos: int, target: int)
    requires target == FirstFrom(grid, StartAfter(PlaceOf(grid, cur))) && 0 <= pos < 4
    requires if target < PLACES then 4 * group + pos == target else group == pos == 0
    ensures VideoAt(grid, group, pos) == NextSingle(grid, cur)
  {
    PlaceSplits(group, pos);
    hide NextOccupied, VideoAt, FirstFrom, StartAfter, PlaceOf;
  }

  /** The two inner loops: the first camera from a place to the end of the grid. */
  method ScanRows(grid: Grid, group0: int, pos0: int) returns (found: bool, group: int, pos: int)
    requires -1 <= group0 < 8 && 0 <= pos0 < 4
    ensures found <==> NextOccupied(grid, 4 * group0 + pos0) < PLACES
    ensures found ==> 0 <= group < 8 && 0 <= pos < 4 && 4 * group + pos == NextOccupied(grid, 4 * group0 + pos0)
  {
    hide NextOccupied, VideoAt;
    ghost var target := NextOccupied(grid, 4 * group0 + pos0);
    NoneAfterLast(grid);
    found, group, pos := false, group0, pos0;
    var i := group0;
    while i < 8 && !found
      invariant -1 <= i <= 8 && 0 <= pos < 4
      invariant !found && i < 8 ==> NextOccupied(grid, 4 * i + pos) == target
      invariant !found && i == 8 ==> target == PLACES
      invariant found ==> 0 <= group < 8 && 4 * group + pos == target < PLACES
      decreases 8 - i, !found
    {
      var j := pos;
      while j < 4 && !found
        invariant 0 <= j <= 4 && 0 <= pos < 4
        invariant !found ==> NextOccupied(grid, 4 * i + j) == target
        invariant found ==> 0 <= group < 8 && 4 * group + pos == target < PLACES
        decreases 4 - j, !found
      {
        OccupiedHere(grid, i, j);
        var v := GetVideoIdxAccordBtnPose(grid, i, j);
        if v >= 0 {
          found, group, pos := true, i, j;
          CameraInside(grid, i, j);
        } else {
          j := j + 1;
        }
      }
      if !found {
        pos := 0;
        i := i + 1;
      }
    }
  }

  lemma NoneAfterLast(grid: Grid)
    ensures NextOccupied(grid, PLACES) == PLACES
  {}

  lemma CameraInside(grid: Grid, i: int, j: int)
    requires VideoAt(grid, i, j) >= 0
    ensures 0 <= i < 8 && 0 <= j < 4
  {}

  lemma PlaceSplits(group: int, pos: int)
    requires 0 <= pos < 4
    ensures (4 * group + pos) / 4 == group && (4 * group + pos) % 4 == pos
  {}

  // ----- One camera at a time: the cyclic successor in the order of the places

  predicate IsCamera(grid: Grid, c: int) {
    0 <= c < |grid|
  }

  function Indices(n: nat): (s: set<int>)
    ensures forall d :: d in s <==> 0 <= d < n
    ensures |s| == n
  {
    if n == 0 then {} else Indices(n - 1) + {n - 1}
  }

  /** The cameras at earlier places. */
  function Before(grid: Grid, c: int): set<int>
    requires IsCamera(grid, c)
  {
    set d | d in Indices(|grid|) && PlaceNo(grid[d]) < PlaceNo(grid[c])
  }

  function Rank(grid: Grid, c: int): nat
    requires IsCamera(grid, c)
  {
    |Before(grid, c)|
  }

  function Iterate(grid: Grid, c: int, k: nat): int {
    if k == 0 then c else NextSingle(grid, Iterate(grid, c, k - 1))
  }

  /** k places on from rank r on a cycle of n. */
  function Turn(r: nat, k: nat, n: nat): nat
    requires r < n && k <= n
  {
    if r + k < n then r + k else r + k - n
  }

  lemma AtPlace(grid: Grid, c: int)
    requires ValidGrid(grid) && IsCamera(grid, c)
    ensures 0 <= PlaceNo(grid[c]) < PLACES
    ensures VideoAt(grid, PlaceNo(grid[c]) / 4, PlaceNo(grid[c]) % 4) == c
  {
    LookupInverts(grid, c);
    PlaceSplits(grid[c].group, grid[c].pos);
  }

  lemma Subset(a: set<int>, b: set<int>)
    requires a <= b
    ensures |a| <= |b|
  {
    assert b == a + (b - a);
  }

  lemma RankBound(grid: Grid, c: int)
    requires IsCamera(grid, c)
    ensures Rank(grid, c) < |grid|
  {
    Subset(Before(grid, c) + {c}, Indices(|grid|));
  }

  lemma PlacesDiffer(grid: Grid, c: int, d: int)
    requires ValidGrid(grid) && IsCamera(grid, c) && IsCamera(grid, d) && c != d
    ensures PlaceNo(grid[c]) != PlaceNo(grid[d])
  {}

  lemma EarlierRanksLower(grid: Grid, c: int, d: int)
    requires IsCamera(grid, c) && IsCamera(grid, d) && PlaceNo(grid[c]) < PlaceNo(grid[d])
    ensures Rank(grid, c) < Rank(grid, d)
  {
    hide PlaceNo;
    assert c !in Before(grid, c);
    Subset(Before(grid, c) + {c}, Before(grid, d));
  }

  lemma RankIsInjective(grid: Grid, c: int, d: int)
    requires ValidGrid(grid) && IsCamera(grid, c) && IsCamera(grid, d) && c != d
    ensures Rank(grid, c) != Rank(grid, d)
  {
    PlacesDiffer(grid, c, d);
    hide Rank, PlaceNo, ValidGrid;
    if PlaceNo(grid[c]) < PlaceNo(grid[d]) {
      EarlierRanksLower(grid, c, d);
    } else {
      EarlierRanksLower(grid, d, c);
    }
  }

  /** The camera found from place k on has every earlier place from k on empty. */
  lemma NoneBetween(grid: Grid, k: int, d: int)
    requires ValidGrid(grid) && IsCamera(grid, d) && k <= PlaceNo(grid[d])
    ensures NextOccupied(grid, k) <= PlaceNo(grid[d])
  {
    AtPlace(grid, d);
  }

  lemma FoundAt(grid: Grid, p: int)
    requires ValidGrid(grid) && 0 <= p < PLACES && VideoAt(grid, p / 4, p % 4) >= 0
    ensures PlaceNo(grid[VideoAt(grid, p / 4, p % 4)]) == p
  {}

  /** Where the search from place k finds nothing, it starts again from the top. */
  lemma SearchBounds(grid: Grid, k: int)
    requires ValidGrid(grid)
    ensures forall d :: IsCamera(grid, d) ==> NextOccupied(grid, 0) <= PlaceNo(grid[d]) < PLACES
    ensures forall d :: IsCamera(grid, d) && k <= PlaceNo(grid[d]) ==> NextOccupied(grid, k) <= PlaceNo(grid[d])
  {
    hide NextOccupied, VideoAt;
    forall d | IsCamera(grid, d)
      ensures NextOccupied(grid, 0) <= PlaceNo(grid[d]) < PLACES
      ensures k <= PlaceNo(grid[d]) ==> NextOccupied(grid, k) <= PlaceNo(grid[d])
    {
      AtPlace(grid, d);
      NoneBetween(grid, 0, d);
      if k <= PlaceNo(grid[d]) {
        NoneBetween(grid, k, d);
      }
    }
  }

  lemma OnlyCameraHere(grid: Grid, c: int)
    requires ValidGrid(grid) && IsCamera(grid, c)
    ensures 0 <= PlaceNo(grid[c]) < PLACES
    ensures forall d :: IsCamera(grid, d) && PlaceNo(grid[d]) == PlaceNo(grid[c]) ==> d == c
  {
    hide VideoAt;
    forall d | IsCamera(grid, d) && PlaceNo(grid[d]) == PlaceNo(grid[c])
      ensures d == c
    {
      AtPlace(grid, d);
      AtPlace(grid, c);
    }
    AtPlace(grid, c);
  }

  lemma StepForward(grid: Grid, c: int, v: int)
    requires ValidGrid(grid) && IsCamera(grid, c) && IsCamera(grid, v)
    requires PlaceNo(grid[c]) < PlaceNo(grid[v])
    requires forall d :: IsCamera(grid, d) && PlaceNo(grid[c]) < PlaceNo(grid[d]) ==>
               PlaceNo(grid[v]) <= PlaceNo(grid[d])
    ensures Rank(grid, v) == Rank(grid, c) + 1
  {
    OnlyCameraHere(grid, c);
    assert Before(grid, v) == Before(grid, c) + {c};
  }

  lemma StepRound(grid: Grid, c: int, v: int)
    requires ValidGrid(grid) && IsCamera(grid, c) && IsCamera(grid, v)
    requires forall d :: IsCamera(grid, d) ==> PlaceNo(grid[v]) <= PlaceNo(grid[d]) <= PlaceNo(grid[c])
    ensures Rank(grid, v) == 0 && Rank(grid, c) == |grid| - 1
  {
    OnlyCameraHere(grid, c);
    assert Before(grid, c) + {c} == Indices(|grid|);
    assert Before(grid, v) == {};
  }

  /** One step of the carousel raises the rank by one, cyclically. */
  lemma StepRaisesRank(grid: Grid, c: int)
    requires ValidGrid(grid) && IsCamera(grid, c)
    ensures IsCamera(grid, NextSingle(grid, c))
    ensures Rank(grid, c) < |grid| && Rank(grid, NextSingle(grid, c)) == Turn(Rank(grid, c), 1, |grid|)
  {
    hide NextOccupied, VideoAt, Rank;
    var start := StartAfter(grid[c]);
    AtPlace(grid, c);
    RankBound(grid, c);
    SearchBounds(grid, start);
    FoundAt(grid, FirstFrom(grid, start));
    var v := NextSingle(grid, c);
    if PlaceNo(grid[c]) + 1 < PLACES && NextOccupied(grid, start) < PLACES {
      StepForward(grid, c, v);
      RankBound(grid, v);
    } else {
      StepRound(grid, c, v);
    }
  }

  lemma IterateRank(grid: Grid, c: int, k: nat)
    requires ValidGrid(grid) && IsCamera(grid, c) && k <= |grid|
    ensures IsCamera(grid, Iterate(grid, c, k))
    ensures Rank(grid, c) < |grid| && Rank(grid, Iterate(grid, c, k)) == Turn(Rank(grid, c), k, |grid|)
  {
    hide Rank, NextSingle;
    RankBound(grid, c);
    if k > 0 {
      IterateRank(grid, c, k - 1);
      StepRaisesRank(grid, Iterate(grid, c, k - 1));
    }
  }

  /** Camera d comes up within one round that starts at c. */
  ghost predicate Shown(grid: Grid, c: int, d: int) {
    exists k: nat :: k < |grid| && Iterate(grid, c, k) == d
  }

  /** From any camera the carousel comes back to it after |grid| steps, and on the way
      shows every camera exactly once. */
  lemma EveryCameraOnce(grid: Grid, c: int)
    requires ValidGrid(grid) && IsCamera(grid, c)
    ensures Iterate(grid, c, |grid|) == c
    ensures forall i, j :: 0 <= i < j < |grid| ==> Iterate(grid, c, i) != Iterate(grid, c, j)
    ensures forall d :: IsCamera(grid, d) ==> Shown(grid, c, d)
  {
    hide Rank, NextSingle;
    SameRank(grid, c, |grid|, c);
    forall i, j | 0 <= i < j < |grid|
      ensures Iterate(grid, c, i) != Iterate(grid, c, j)
    {
      IterateRank(grid, c, i);
      IterateRank(grid, c, j);
    }
    forall d | IsCamera(grid, d)
      ensures Shown(grid, c, d)
    {
      RankBound(grid, c);
      RankBound(grid, d);
      var k := if Rank(grid, d) >= Rank(grid, c) then Rank(grid, d) - Rank(grid, c)
               else Rank(grid, d) - Rank(grid, c) + |grid|;
      SameRank(grid, c, k, d);
    }
  }

  lemma SameRank(grid: Grid, c: int, k: nat, d: int)
    requires ValidGrid(grid) && IsCamera(grid, c) && IsCamera(grid, d) && k <= |grid|
    requires Rank(grid, c) < |grid| ==> Turn(Rank(grid, c), k, |grid|) == Rank(grid, d)
    ensures Iterate(grid, c, k) == d
  {
    hide Rank, NextSingle;
    IterateRank(grid, c, k);
    if Iterate(grid, c, k) != d {
      RankIsInjective(grid, Iterate(grid, c, k), d);
    }
  }
}
