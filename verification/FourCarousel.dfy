/** The four-pane carousel: one page of the grid after another. */
module FourCarousel {
  import opened CameraGrid
  import opened Carousel

  /** With 28 cameras or fewer, groups 0 and 7 share one page. */
  predicate Merged(grid: Grid) {
    |grid| <= 28
  }

  function PageCount(grid: Grid): nat {
    if Merged(grid) then 7 else 8
  }

  function PageCamera(grid: Grid, group: int, i: int): (v: int) {
    if VideoAt(grid, group, i) == -1 && group == 0 && Merged(grid) then VideoAt(grid, 7, i)
    else VideoAt(grid, group, i)
  }

  function Page(grid: Grid, group: int): (p: seq<int>)
    ensures |p| == 4
  {
    [PageCamera(grid, group, 0), PageCamera(grid, group, 1), PageCamera(grid, group, 2), PageCamera(grid, group, 3)]
  }

  /** The camera of the last pane in use, -1 if none is. */
  function LastShown(cur: seq<int>): (v: int)
    ensures v == -1 <==> forall i :: 0 <= i < |cur| ==> cur[i] == -1
    ensures v != -1 ==> v in cur
  {
    if cur == [] then -1
    else if cur[|cur| - 1] != -1 then cur[|cur| - 1]
    else LastShown(cur[..|cur| - 1])
  }

  function NextGroup(grid: Grid, cur: seq<int>): int {
    var g := PlaceOf(grid, LastShown(cur)).group + 1;
    if g == 7 && Merged(grid) then 0
    else if g == 8 then (if Merged(grid) then 1 else 0)
    else g
  }

  function NextFour(grid: Grid, cur: seq<int>): (next: seq<int>)
    ensures |next| == 4
  {
    Page(grid, NextGroup(grid, cur))
  }

  /** GetNextFourVideo. */
  method GetNextFourVideo(grid: Grid, cur: array<int>, video: array<int>)
    requires cur.Length == 4 && video.Length == 4
    modifies video
    ensures video[..] == NextFour(grid, old(cur[..]))
  {
    var first := -1;
    for i := 0 to 4
      invariant first == LastShown(cur[..i])
    {
      assert cur[..i + 1][..i] == cur[..i];
      if cur[i] != -1 {
        first := cur[i];
      }
    }
    assert cur[..4] == cur[..];
    var group, _ := GetBtnPoseAccordVideoIdx(grid, first);
    group := group + 1;
    if group == 7 && |grid| <= 28 {
      group := 0;
    } else if group == 8 {
      if |grid| <= 28 {
        group := 1;
      } else {
        group := 0;
      }
    }
    FillPage(grid, group, video);
  }

  /** The loop that three of the callbacks share: the cameras of one page. */
  method FillPage(grid: Grid, group: int, video: array<int>)
    requires video.Length == 4
    modifies video
    ensures video[..] == Page(grid, group)
  {
    for i := 0 to 4
      invariant video[..i] == Page(grid, group)[..i]
    {
      video[i] := GetVideoIdxAccordBtnPose(grid, group, i);
      if video[i] == -1 && group == 0 && |grid| <= 28 {
        video[i] := GetVideoIdxAccordBtnPose(grid, 7, i);
      }
    }
  }

  predicate EmptyPage(grid: Grid, g: int) {
    Page(grid, g) == [-1, -1, -1, -1]
  }

  /** From page g the carousel goes to the next page, or back to the first one when page g
      is empty: an empty page cuts off those behind it. */
  lemma NextPage(grid: Grid, g: nat)
    requires OnGrid(grid) && g < PageCount(grid)
    ensures NextFour(grid, Page(grid, g)) == Page(grid, PageAfter(grid, g))
  {
    hide PageCamera, VideoAt;
    var cur := Page(grid, g);
    if LastShown(cur) != -1 {
      var i :| 0 <= i < 4 && cur[i] == LastShown(cur);
      ShownGroup(grid, g, i);
    }
  }

  lemma ShownGroup(grid: Grid, g: nat, i: int)
    requires 0 <= i < 4 && PageCamera(grid, g, i) != -1
    ensures var v := PageCamera(grid, g, i);
      IsCamera(grid, v) && (grid[v].group == g || (g == 0 && Merged(grid) && grid[v].group == 7))
  {}

  function PageAfter(grid: Grid, g: nat): (h: nat)
    requires g < PageCount(grid)
    ensures h < PageCount(grid)
  {
    if EmptyPage(grid, g) then 0 else Turn(g, 1, PageCount(grid))
  }

  function PageNo(grid: Grid, g: nat, k: nat): (h: nat)
    requires g < PageCount(grid)
    ensures h < PageCount(grid)
  {
    if k == 0 then g else PageAfter(grid, PageNo(grid, g, k - 1))
  }

  function IteratePages(grid: Grid, g: nat, k: nat): seq<int> {
    if k == 0 then Page(grid, g) else NextFour(grid, IteratePages(grid, g, k - 1))
  }

  lemma {:induction false} PageWalk(grid: Grid, g: nat, k: nat)
    requires OnGrid(grid) && g < PageCount(grid)
    ensures IteratePages(grid, g, k) == Page(grid, PageNo(grid, g, k))
  {
    hide Page, NextFour, PageAfter;
    if k > 0 {
      PageWalk(grid, g, k - 1);
      NextPage(grid, PageNo(grid, g, k - 1));
    }
  }

  /** Another camera is shown where v would be: an earlier one at the same place, or on the shared
      page one of group 0 at the position of one of group 7. */
  predicate Displaced(grid: Grid, v: int)
    requires IsCamera(grid, v)
  {
    || VideoAt(grid, grid[v].group, grid[v].pos) != v
    || (Merged(grid) && grid[v].group == 7 && VideoAt(grid, 0, grid[v].pos) != -1)
  }

  function PageOf(grid: Grid, v: int): (g: nat)
    requires OnGrid(grid) && IsCamera(grid, v)
    ensures g < PageCount(grid)
  {
    if Merged(grid) && grid[v].group == 7 then 0 else grid[v].group
  }

  lemma PageCameraIs(grid: Grid, g: nat, i: int, v: int)
    requires OnGrid(grid) && g < PageCount(grid) && IsCamera(grid, v) && 0 <= i < 4
    ensures PageCamera(grid, g, i) == v <==> PageOf(grid, v) == g && grid[v].pos == i && !Displaced(grid, v)
  {}

  /** A page shows exactly its own cameras that are not displaced. */
  lemma PageShows(grid: Grid, g: nat, v: int)
    requires OnGrid(grid) && g < PageCount(grid) && IsCamera(grid, v)
    ensures v in Page(grid, g) <==> PageOf(grid, v) == g && !Displaced(grid, v)
  {
    hide PageCamera, PageOf, Displaced;
    PageCameraIs(grid, g, 0, v);
    PageCameraIs(grid, g, 1, v);
    PageCameraIs(grid, g, 2, v);
    PageCameraIs(grid, g, 3, v);
  }

  /** No page between g, where the carousel starts, and page p is empty; p before g is reached
      through page 0. */
  predicate WayTo(grid: Grid, g: nat, p: nat) {
    forall h: nat :: (if p >= g then g else 0) <= h < p ==> !EmptyPage(grid, h)
  }

  predicate InRotation(grid: Grid, g: nat, v: int)
    requires OnGrid(grid) && IsCamera(grid, v)
  {
    !Displaced(grid, v) && WayTo(grid, g, PageOf(grid, v))
  }

  lemma {:induction false} OnlyByTheWay(grid: Grid, g: nat, k: nat)
    requires g < PageCount(grid)
    ensures WayTo(grid, g, PageNo(grid, g, k))
  {
    hide EmptyPage;
    if k > 0 {
      OnlyByTheWay(grid, g, k - 1);
    }
  }

  /** From page q the carousel walks on to page p, as long as no page on the way is empty. */
  lemma {:induction false} WalksOn(grid: Grid, g: nat, k: nat, p: nat)
    requires g < PageCount(grid) && PageNo(grid, g, k) <= p < PageCount(grid)
    requires forall h: nat :: PageNo(grid, g, k) <= h < p ==> !EmptyPage(grid, h)
    ensures PageNo(grid, g, k + (p - PageNo(grid, g, k))) == p
    decreases p
  {
    hide EmptyPage;
    if PageNo(grid, g, k) < p {
      WalksOn(grid, g, k, p - 1);
    }
  }

  /** Page 0 comes up again before the pages run out. */
  lemma WrapsAround(grid: Grid, g: nat, k: nat) returns (j: nat)
    requires g < PageCount(grid)
    ensures k < j <= k + PageCount(grid) - PageNo(grid, g, k) && PageNo(grid, g, j) == 0
    decreases PageCount(grid) - PageNo(grid, g, k)
  {
    hide EmptyPage;
    if PageNo(grid, g, k + 1) == 0 {
      j := k + 1;
    } else {
      j := WrapsAround(grid, g, k + 1);
    }
  }

  ghost predicate ComesUp(grid: Grid, g: nat, v: int) {
    exists k: nat :: k < PageCount(grid) && v in IteratePages(grid, g, k)
  }

  /** Whenever a camera is on the screen, nothing displaces it and no empty page lies before its
      own. */
  lemma ShownIsInRotation(grid: Grid, g: nat, k: nat, v: int)
    requires OnGrid(grid) && g < PageCount(grid) && IsCamera(grid, v) && v in IteratePages(grid, g, k)
    ensures InRotation(grid, g, v)
  {
    hide Page, NextFour, PageOf, WayTo;
    PageWalk(grid, g, k);
    PageShows(grid, PageNo(grid, g, k), v);
    OnlyByTheWay(grid, g, k);
  }

  lemma RotationShows(grid: Grid, g: nat, v: int) returns (k: nat)
    requires OnGrid(grid) && g < PageCount(grid) && IsCamera(grid, v) && InRotation(grid, g, v)
    ensures k < PageCount(grid) && v in IteratePages(grid, g, k)
  {
    hide Page, NextFour, PageOf, Displaced, EmptyPage, PageAfter;
    var p := PageOf(grid, v);
    var j := 0;
    if p < g {
      j := WrapsAround(grid, g, 0);
    }
    WalksOn(grid, g, j, p);
    k := j + (p - PageNo(grid, g, j));
    PageWalk(grid, g, k);
    PageShows(grid, p, v);
  }

  /** A camera comes up within one round of the pages, and if at all then within one, if and only
      if nothing displaces it and no empty page lies between the page the carousel starts from and
      its own. */
  lemma ComesUpExactly(grid: Grid, g: nat, v: int)
    requires OnGrid(grid) && g < PageCount(grid) && IsCamera(grid, v)
    ensures ComesUp(grid, g, v) <==> InRotation(grid, g, v)
    ensures forall k: nat :: v in IteratePages(grid, g, k) ==> ComesUp(grid, g, v)
  {
    hide InRotation, IteratePages, PageCount;
    if InRotation(grid, g, v) {
      var k := RotationShows(grid, g, v);
    }
    forall k: nat | v in IteratePages(grid, g, k)
      ensures InRotation(grid, g, v)
    {
      ShownIsInRotation(grid, g, k, v);
    }
  }

  predicate NoEmptyPage(grid: Grid) {
    forall g: nat :: g < PageCount(grid) ==> !EmptyPage(grid, g)
  }

  /** With no empty page, one round from any page is back at that page, and shows exactly
      the cameras that are not displaced. */
  lemma EveryPageOnce(grid: Grid, g: nat)
    requires OnGrid(grid) && g < PageCount(grid) && NoEmptyPage(grid)
    ensures IteratePages(grid, g, PageCount(grid)) == Page(grid, g)
    ensures forall v :: IsCamera(grid, v) ==> (ComesUp(grid, g, v) <==> !Displaced(grid, v))
  {
    hide Page, NextFour, PageOf, EmptyPage, ComesUp, Displaced;
    WalksOn(grid, g, 0, PageCount(grid) - 1);
    var last := PageCount(grid) - 1 - g;
    assert PageNo(grid, g, last + 1) == 0;
    WalksOn(grid, g, last + 1, g);
    PageWalk(grid, g, PageCount(grid));
    forall v | IsCamera(grid, v)
      ensures ComesUp(grid, g, v) <==> !Displaced(grid, v)
    {
      ComesUpExactly(grid, g, v);
    }
  }

  /** 28 cameras that leave group 1 empty. */
  function GapGrid(): (grid: Grid)
    ensures ValidGrid(grid) && |grid| == 28
  {
    seq(28, c requires 0 <= c < 28 => Camera(if c < 4 then 0 else c / 4 + 1, c % 4))
  }

  lemma GroupOneEmpty(i: int)
    ensures VideoAt(GapGrid(), 1, i) == -1
  {}

  /** Nothing displaces the first camera of group 2, and yet the pages never get to it: page 1 is
      empty. */
  lemma CutOff(k: nat)
    ensures !Displaced(GapGrid(), 4) && EmptyPage(GapGrid(), 1) && 4 !in IteratePages(GapGrid(), 0, k)
  {
    var grid := GapGrid();
    assert grid[4] == Camera(2, 0) && PageOf(grid, 4) == 2;
    LookupInverts(grid, 4);
    GroupOneEmpty(0);
    GroupOneEmpty(1);
    GroupOneEmpty(2);
    GroupOneEmpty(3);
    hide VideoAt, GapGrid;
    assert EmptyPage(grid, 1);
    hide EmptyPage, Displaced, IteratePages, PageOf;
    if 4 in IteratePages(grid, 0, k) {
      ShownIsInRotation(grid, 0, k, 4);
    }
  }

  // ----- The two configurations the terminal is delivered in

  /** Groups 0 and 7 take turns in filling the four positions. */
  predicate Complementary(grid: Grid) {
    forall i :: 0 <= i < 4 ==> (VideoAt(grid, 0, i) == -1 <==> VideoAt(grid, 7, i) != -1)
  }

  function PlacesTaken(grid: Grid, n: nat): (s: set<int>)
    requires ValidGrid(grid) && n <= |grid|
    ensures forall p :: p in s ==> exists c :: 0 <= c < n && PlaceNo(grid[c]) == p
    ensures |s| == n
  {
    if n == 0 then {}
    else
      var s := PlacesTaken(grid, n - 1);
      assert PlaceNo(grid[n - 1]) !in s;
      s + {PlaceNo(grid[n - 1])}
  }

  /** Every camera has a place of its own: there are no more cameras than places for them. */
  lemma Pigeonhole(grid: Grid, room: set<int>)
    requires ValidGrid(grid)
    requires forall c :: IsCamera(grid, c) ==> PlaceNo(grid[c]) in room
    ensures |grid| <= |room|
  {
    Subset(PlacesTaken(grid, |grid|), room);
  }

  /** 32 cameras, or 28 with complementary end groups, leave no page empty and displace no
      camera: the carousel covers them all. */
  lemma DeliveredGridsCovered(grid: Grid, g: nat)
    requires ValidGrid(grid) && g < PageCount(grid)
    requires |grid| == 32 || (|grid| == 28 && Complementary(grid))
    ensures forall v :: IsCamera(grid, v) ==> ComesUp(grid, g, v)
  {
    hide Page, NextFour, PageOf, ComesUp;
    forall h: nat | h < PageCount(grid)
      ensures !EmptyPage(grid, h)
    {
      if |grid| == 32 {
        FullPage(grid, h);
      } else {
        SharedPage(grid, h);
      }
    }
    EveryPageOnce(grid, g);
    forall v | IsCamera(grid, v)
      ensures !Displaced(grid, v)
    {
      LookupInverts(grid, v);
    }
  }

  lemma FullPage(grid: Grid, h: nat)
    requires ValidGrid(grid) && |grid| == 32 && h < 8
    ensures !EmptyPage(grid, h)
  {
    hide Indices, VideoAt;
    if EmptyPage(grid, h) {
      assert Page(grid, h)[0] == PageCamera(grid, h, 0) == -1;
      OffPlace(grid, h, 0);
      forall c | IsCamera(grid, c)
        ensures PlaceNo(grid[c]) in Indices(32) - {4 * h}
      {
        AtPlace(grid, c);
      }
      Pigeonhole(grid, Indices(32) - {4 * h});
    }
  }

  lemma OffPlace(grid: Grid, group: int, pos: int)
    requires ValidGrid(grid) && 0 <= group < 8 && 0 <= pos < 4 && VideoAt(grid, group, pos) == -1
    ensures forall c :: IsCamera(grid, c) ==> PlaceNo(grid[c]) != 4 * group + pos
  {
    PlaceSplits(group, pos);
    forall c | IsCamera(grid, c)
      ensures PlaceNo(grid[c]) != 4 * group + pos
    {
      AtPlace(grid, c);
    }
  }

  /** The one of the two places at position i of groups 0 and 7 that has no camera. */
  function EndGap(grid: Grid, i: int): int {
    if VideoAt(grid, 0, i) == -1 then i else 28 + i
  }

  lemma GapRange(grid: Grid, i: int)
    ensures EndGap(grid, i) == i || EndGap(grid, i) == 28 + i
  {}

  lemma EndGapIsEmpty(grid: Grid, i: int)
    requires ValidGrid(grid) && Complementary(grid) && 0 <= i < 4
    ensures forall c :: IsCamera(grid, c) ==> PlaceNo(grid[c]) != EndGap(grid, i)
  {
    hide VideoAt;
    OffPlace(grid, if VideoAt(grid, 0, i) == -1 then 0 else 7, i);
  }

  lemma SharedPage(grid: Grid, h: nat)
    requires ValidGrid(grid) && |grid| == 28 && Complementary(grid) && h < 7
    ensures !EmptyPage(grid, h)
  {
    hide Indices, VideoAt, EndGap;
    if EmptyPage(grid, h) {
      assert Page(grid, h)[0] == PageCamera(grid, h, 0) == -1;
      if h != 0 {
        OffPlace(grid, h, 0);
        var gap0, gap1, gap2, gap3 := EndGap(grid, 0), EndGap(grid, 1), EndGap(grid, 2), EndGap(grid, 3);
        var room := Indices(32) - {4 * h, gap0, gap1, gap2, gap3};
        GapRange(grid, 0);
        GapRange(grid, 1);
        GapRange(grid, 2);
        GapRange(grid, 3);
        FiveLess(Indices(32), 4 * h, gap0, gap1, gap2, gap3);
        forall c | IsCamera(grid, c)
          ensures PlaceNo(grid[c]) in room
        {
          AtPlace(grid, c);
          EndGapIsEmpty(grid, 0);
          EndGapIsEmpty(grid, 1);
          EndGapIsEmpty(grid, 2);
          EndGapIsEmpty(grid, 3);
        }
        Pigeonhole(grid, room);
      }
    }
  }

  lemma FiveLess(all: set<int>, p: int, a: int, b: int, c: int, d: int)
    requires p in all && a in all && b in all && c in all && d in all
    requires p !in {a, b, c, d} && a !in {b, c, d} && b !in {c, d} && c != d
    ensures |all - {p, a, b, c, d}| == |all| - 5
  {
    var all1 := all - {p};
    var all2 := all1 - {a};
    ThreeLess(all2, b, c, d);
    assert all - {p, a, b, c, d} == all2 - {b, c, d};
  }

  lemma ThreeLess(all: set<int>, b: int, c: int, d: int)
    requires b in all && c in all && d in all && b !in {c, d} && c != d
    ensures |all - {b, c, d}| == |all| - 3
  {
    var all1 := all - {b};
    var all2 := all1 - {c};
    assert all - {b, c, d} == all2 - {d};
  }
}
