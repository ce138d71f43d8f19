/** From the callback to the picture: what is on the screen at the tick after it. */
module PlaybackScreens {
  import opened CameraGrid
  import opened Playback
  import opened PlaybackOwnership
  import opened PlaybackRuns
  import CR = Carousel
  import FC = FourCarousel
  import PA = PaneAssignment

  /** The four panes are up and show exactly these cameras. */
  predicate ShowsPanes(t: Ctl, page: seq<int>)
    requires Shape(t) && |page| == 4
  {
    && t.curStyle == Four && t.curSingle == -1 && t.nextSingle == -1 && t.curFour == page
    && forall i :: 0 <= i < 4 ==> (t.slots[i] != 0 <==> page[i] != -1) && Holds(t, i, page[i])
  }

  /** The single picture is up and shows this camera. */
  predicate ShowsCamera(t: Ctl, camera: int)
    requires Shape(t)
  {
    t.curSingle == camera && t.slots[SINGLE] != 0 && Holds(t, SINGLE, camera)
  }

  /** The single picture the next tick brings up, -1 for none: a change to the four panes drops the
      one asked for. */
  function ComingUp(r: Ctl): int {
    if r.curStyle == Single && r.nextStyle == Four then -1 else r.nextSingle
  }

  /** t is what a tick makes of r. */
  predicate Follows(r: Ctl, t: Ctl)
    requires Shape(r) && Shape(t)
  {
    && t.screen == Main && !t.warnFreshed
    && t.curStyle == t.nextStyle == r.nextStyle && t.curSingle == t.nextSingle == ComingUp(r)
    && (ComingUp(r) == -1 && r.nextStyle == Four ==> ShowsPanes(t, r.nextFour))
    && (ComingUp(r) != -1 ==> ShowsCamera(t, ComingUp(r)))
  }

  lemma CompleteOf(player: Player, s: Ctl, t: Ctl)
    requires Shape(s) && Advances(player, s, t) && Complete(s) && Succeeds(player, s.attempts, t.attempts)
    ensures Complete(t)
  {
    hide Inv, Complete, Succeeds;
  }

  lemma AsAskedFollows(r: Ctl, t: Ctl)
    requires Shape(r) && Shape(t) && AsAsked(r, t)
    requires t.screen == Main && !t.warnFreshed && t.nextStyle == t.curStyle && t.curSingle == t.nextSingle
    requires t.nextSingle == ComingUp(r)
    requires t.curStyle == Four && t.curSingle == -1 ==> t.curFour == r.nextFour
    ensures Follows(r, t)
  {
    hide Holds;
  }

  lemma TickFollows(player: Player, r: Ctl)
    requires Inv(r) && r.screen == Main
    ensures var t := Tick(player, r);
      && Inv(t) && r.attempts <= t.attempts
      && (Complete(r) && Succeeds(player, r.attempts, t.attempts) ==> Complete(t) && Follows(r, t))
  {
    var t := Tick(player, r);
    TickKeeps(player, r);
    assert r.attempts <= t.attempts by {
      hide Inv, Tick;
    }
    hide Tick, Complete, Owned, Matching, AtRest, Advances, AsAsked, Follows, Succeeds;
    InvOf(player, r, t);
    if Complete(r) && Succeeds(player, r.attempts, t.attempts) {
      CompleteOf(player, r, t);
      TickConverges(player, r);
      AsAskedFollows(r, t);
    }
  }

  /** A callback on the main screen, and the tick after it. */
  lemma EventFollows(player: Player, grid: Grid, s: Ctl, e: Event)
    requires Inv(s) && Enabled(s, e) && Step(player, grid, s, e).screen == Main
    ensures var r := Step(player, grid, s, e);
      var t := Tick(player, r);
      && Inv(t) && s.attempts <= t.attempts
      && (Complete(s) && Succeeds(player, s.attempts, t.attempts) ==> Complete(t) && Follows(r, t))
  {
    StepKeeps(player, grid, s, e);
    hide Step, Tick, Complete, Follows, Ledger, PanesMatch;
    TickFollows(player, Step(player, grid, s, e));
  }

  // ----- Buttons

  /** A camera button. Over the single style or during an alarm its camera comes up alone if and
      only if no change to the four panes is pending. Otherwise its page comes up if and only if no
      change to the single style is pending, and the camera is on it if and only if no other
      displaces it. */
  lemma CameraButtonShows(player: Player, grid: Grid, s: Ctl, group: int, pos: int)
    requires OnGrid(grid) && Inv(s) && Complete(s) && s.screen == Main && !s.warnFreshed
    requires 0 <= group < GROUPS && 0 <= pos < POSITIONS && VideoAt(grid, group, pos) != -1
    ensures var t := Tick(player, CameraClick(grid, s, group, pos));
      var c := VideoAt(grid, group, pos);
      var page := FC.Page(grid, MergedGroup(grid, group));
      Succeeds(player, s.attempts, t.attempts) ==>
        if s.curStyle == Single || s.warnNum > 0 then
          ShowsCamera(t, c) <==> !(s.curStyle == Single && s.nextStyle == Four)
        else
          && (ShowsPanes(t, page) <==> s.nextStyle == Four)
          && (s.nextStyle == Single ==> t.curStyle == Single && t.curSingle == -1)
          && (c in page <==> !FC.Displaced(grid, c))
  {
    assert Shape(s);
    hide Tick, CameraClick, Inv, Complete, Succeeds, FC.Page, FC.Displaced, Holds;
    CameraClickForm(grid, s, group, pos);
    CameraFollows(player, grid, s, group, pos);
    var c := VideoAt(grid, group, pos);
    hide VideoAt;
    FC.PageShows(grid, MergedGroup(grid, group), c);
  }

  lemma CameraFollows(player: Player, grid: Grid, s: Ctl, group: int, pos: int)
    requires Inv(s) && Complete(s) && s.screen == Main && CameraClick(grid, s, group, pos).screen == Main
    ensures var r := CameraClick(grid, s, group, pos);
      var t := Tick(player, r);
      Succeeds(player, s.attempts, t.attempts) ==> Follows(r, t)
  {
    hide Tick, CameraClick, Owned, Matching, AtRest, Complete, Succeeds, Follows;
    EventFollows(player, grid, s, CameraButton(group, pos));
  }

  lemma CameraClickForm(grid: Grid, s: Ctl, group: int, pos: int)
    requires Shape(s) && !s.warnFreshed && 0 <= group < GROUPS && 0 <= pos < POSITIONS
    ensures var r := CameraClick(grid, s, group, pos);
      && r.curStyle == s.curStyle && r.nextStyle == s.nextStyle && r.screen == s.screen
      && if s.curStyle == Single || s.warnNum > 0 then r.nextSingle == VideoAt(grid, group, pos)
         else r.nextSingle == -1 && r.nextFour == FC.Page(grid, MergedGroup(grid, group))
  {
    var u := if s.curStyle == Single || s.warnNum > 0 then s.(nextSingle := VideoAt(grid, group, pos))
             else s.(nextFour := FC.Page(grid, MergedGroup(grid, group)), nextSingle := -1);
    DropBacksOnly(u);
    hide DropBacks, VideoAt, FC.Page, MergedGroup;
  }

  lemma DropBacksOnly(s: Ctl)
    requires Shape(s)
    ensures var t := DropBacks(s);
      && t.nextFour == s.nextFour && t.nextSingle == s.nextSingle && t.curStyle == s.curStyle
      && t.nextStyle == s.nextStyle && t.screen == s.screen
  {
    hide Close, DropBackPanes;
    DropPanesOnly(s, 0);
    CloseOnly(DropBackPanes(s, 0), BACK);
  }

  lemma CloseOnly(s: Ctl, i: nat)
    requires Shape(s) && i < SLOTS
    ensures var t := Close(s, i); t == s.(slots := t.slots, destroyed := t.destroyed)
  {}

  lemma {:induction false} DropPanesOnly(s: Ctl, i: nat)
    requires Shape(s) && i <= 4
    ensures var t := DropBackPanes(s, i);
      t == s.(slots := t.slots, backFour := t.backFour, destroyed := t.destroyed)
    decreases 4 - i
  {
    hide Close;
    if i < 4 {
      CloseOnly(s, i + 4);
      DropPanesOnly(DropBackPane(s, i), i + 1);
    }
  }

  /** What the single-picture button picks: the picture already up over the panes, or the first
      pane in use, or what was to come up next, or camera 0. */
  function Picked(s: Ctl): int
    requires Shape(s)
  {
    var j := PA.FirstMapped(s.curFour, 0);
    if s.curSingle != -1 then s.curSingle
    else if j >= 0 then s.curFour[j]
    else if s.nextSingle != -1 then s.nextSingle
    else 0
  }

  /** The button looked at pane k and found it empty. */
  predicate PassedOver(s: Ctl, k: nat)
    requires Shape(s) && k < 4
  {
    s.curSingle == -1 && forall l :: 0 <= l <= k ==> s.curFour[l] == -1
  }

  lemma {:induction false} FirstInUsePicks(s: Ctl, i: nat)
    requires Shape(s) && i <= 4
    ensures var j := PA.FirstMapped(s.curFour, i);
      var t := FirstInUse(s, i);
      && t.nextSingle == (if j >= 0 then s.curFour[j] else s.nextSingle)
      && t.nextStyle == s.nextStyle && t.curStyle == s.curStyle && t.screen == s.screen
      && (forall k :: 0 <= k < 4 ==> t.nextFour[k] == if i <= k && (j < 0 || k < j) then -1 else s.nextFour[k])
    decreases 4 - i
  {
    if i < 4 && s.curFour[i] == -1 {
      FirstInUsePicks(s.(nextFour := s.nextFour[i := -1]), i + 1);
    }
  }

  /** The single-picture button brings that picture up. Until the tick the panes before the first one in use
      are asked to be empty. */
  lemma SingleButtonShows(player: Player, grid: Grid, s: Ctl)
    requires Inv(s) && Complete(s) && s.screen == Main && s.warnNum == 0 && s.curStyle == Four
    ensures forall k :: 0 <= k < 4 ==>
      SingleButton(s).nextFour[k] == if PassedOver(s, k) then -1 else s.nextFour[k]
    ensures var t := Tick(player, SingleButton(s));
      Succeeds(player, s.attempts, t.attempts) ==> t.curStyle == Single && ShowsCamera(t, Picked(s))
  {
    assert Shape(s);
    hide Tick, Owned, Matching, AtRest, Complete, Succeeds, ShowsCamera, ShowsPanes, SingleButton, Picked;
    SingleButtonForm(s);
    EventFollows(player, grid, s, SinglePictureButton);
  }

  lemma SingleButtonForm(s: Ctl)
    requires Shape(s) && s.warnNum == 0 && s.curStyle == Four
    ensures var r := SingleButton(s);
      && r.nextStyle == Single && r.curStyle == Four && r.screen == s.screen && r.nextSingle == Picked(s) != -1
      && forall k :: 0 <= k < 4 ==> r.nextFour[k] == if PassedOver(s, k) then -1 else s.nextFour[k]
  {
    FirstInUsePicks(s.(nextStyle := Single), 0);
    hide FirstInUse;
  }

  /** The four-picture button brings up the page of the camera on screen, page 0 if there is none; that
      camera stays in view if and only if no other displaces it. */
  lemma FourButtonShows(player: Player, grid: Grid, s: Ctl)
    requires OnGrid(grid) && Inv(s) && Complete(s) && s.screen == Main && s.warnNum == 0 && s.curStyle == Single
    ensures var r := FourButton(grid, s);
      var t := Tick(player, r);
      r.nextSingle == -1
      && (Succeeds(player, s.attempts, t.attempts) ==>
            if CR.IsCamera(grid, s.curSingle) then
              && ShowsPanes(t, FC.Page(grid, FC.PageOf(grid, s.curSingle)))
              && (s.curSingle in t.curFour <==> !FC.Displaced(grid, s.curSingle))
            else ShowsPanes(t, FC.Page(grid, 0)))
  {
    assert Shape(s);
    hide Tick, Owned, Matching, AtRest, Complete, Succeeds, Holds, FC.Page, FC.Displaced;
    if CR.IsCamera(grid, s.curSingle) {
      FC.PageShows(grid, FC.PageOf(grid, s.curSingle), s.curSingle);
      assert FourButton(grid, s).nextFour == FC.Page(grid, FC.PageOf(grid, s.curSingle));
    }
    hide FC.PageOf;
    EventFollows(player, grid, s, FourPictureButton);
  }

  /** t shows this camera alone. back shows the panes as they were asked for in s if and only if no
      change to the single style was pending there; then it shows the picture still. */
  predicate Toggles(s: Ctl, camera: int, t: Ctl, back: Ctl)
    requires Shape(s) && Shape(t) && Shape(back)
  {
    && ShowsCamera(t, camera)
    && (ShowsPanes(back, s.nextFour) <==> s.nextStyle == Four)
    && (s.nextStyle == Single ==> ShowsCamera(back, camera))
  }

  /** A double click on a playing pane enlarges it, and a second one anywhere toggles back. */
  lemma PaneClickToggles(player: Player, grid: Grid, s: Ctl, i: int, j: int, playing: bool)
    requires Inv(s) && Complete(s) && s.screen == Main && !s.warnFreshed
    requires s.curStyle == Four && s.curSingle == -1 && 0 <= i < 4 && s.slots[i] != 0
    ensures var t := Tick(player, PaneClick(s, i, true));
      var back := Tick(player, PaneClick(t, j, playing));
      Succeeds(player, s.attempts, back.attempts) ==> Toggles(s, s.curFour[i], t, back)
  {
    assert Shape(s) && s.curFour[i] != -1;
    hide Tick, PaneClick, Inv, Complete, Succeeds, Follows, Toggles;
    var r := PaneClick(s, i, true);
    var t := Tick(player, r);
    ClickFollows(player, grid, s, i, true);
    ClickTwice(player, grid, s, i, j, playing, r, t);
  }

  lemma ClickTwice(player: Player, grid: Grid, s: Ctl, i: int, j: int, playing: bool, r: Ctl, t: Ctl)
    requires Shape(s) && Shape(r) && Shape(t) && Inv(s) && s.screen == Main && !s.warnFreshed
    requires s.curStyle == Four && s.curSingle == -1 && 0 <= i < 4 && s.slots[i] != 0 && s.curFour[i] != -1
    requires r == PaneClick(s, i, true) && t == Tick(player, r)
    requires Inv(t) && s.attempts <= t.attempts && t.screen == Main
    requires Complete(s) && Succeeds(player, s.attempts, t.attempts) ==> Complete(t) && Follows(r, t)
    ensures var back := Tick(player, PaneClick(t, j, playing));
      Complete(s) && Succeeds(player, s.attempts, back.attempts) ==> Toggles(s, s.curFour[i], t, back)
  {
    hide Tick, PaneClick, Inv, Complete, Succeeds, Follows, Toggles;
    ClickForm(s, i, true);
    ClickFollows(player, grid, t, j, playing);
    var u := PaneClick(t, j, playing);
    var back := Tick(player, u);
    if s.nextStyle == Four {
      EnlargeForm(player, s, i);
    }
    if Complete(s) && Succeeds(player, s.attempts, back.attempts) {
      SucceedsSplits(player, s.attempts, t.attempts, back.attempts);
      TogglesBy(s, i, j, playing, r, t, u, back);
    }
  }

  lemma TogglesBy(s: Ctl, i: int, j: int, playing: bool, r: Ctl, t: Ctl, u: Ctl, back: Ctl)
    requires Shape(s) && Shape(r) && Shape(t) && Shape(u) && Shape(back) && Follows(r, t) && Follows(u, back)
    requires s.curStyle == Four && 0 <= i < 4 && s.curFour[i] != -1
    requires r.curStyle == Four && r.nextStyle == s.nextStyle && r.nextSingle == s.curFour[i]
    requires u == PaneClick(t, j, playing) && (s.nextStyle == Four ==> t.nextFour == s.nextFour)
    ensures Toggles(s, s.curFour[i], t, back)
  {
    assert ShowsCamera(t, s.curFour[i]);
    ClickForm(t, j, playing);
    hide PaneClick, Holds;
  }

  lemma ClickForm(s: Ctl, i: int, playing: bool)
    requires Shape(s) && !s.warnFreshed
    ensures var r := PaneClick(s, i, playing);
      && r.curStyle == s.curStyle && r.nextStyle == s.nextStyle && r.nextFour == s.nextFour && r.screen == s.screen
      && r.nextSingle == if s.curStyle == Four && s.curSingle != -1 then -1
                         else if s.curStyle == Four && 0 <= i < 4 && s.slots[i] != 0 && playing then s.curFour[i]
                         else s.nextSingle
  {}

  lemma ClickFollows(player: Player, grid: Grid, s: Ctl, i: int, playing: bool)
    requires Inv(s) && s.screen == Main
    ensures var r := PaneClick(s, i, playing);
      var t := Tick(player, r);
      && Inv(t) && t.screen == Main && s.attempts <= t.attempts
      && (Complete(s) && Succeeds(player, s.attempts, t.attempts) ==> Complete(t) && Follows(r, t))
  {
    var r := PaneClick(s, i, playing);
    Retargeted(player, s, r);
    InvOf(player, s, r);
    assert r.screen == Main;
    EventFollows(player, grid, s, PaneClicked(i, playing));
    hide Owned, Matching, AtRest, Complete, Succeeds, Follows, Tick;
    ScreenStays(player, r);
  }

  lemma ScreenStays(player: Player, r: Ctl)
    requires Inv(r) && r.screen == Main
    ensures Tick(player, r).screen == Main
  {
    TickKeeps(player, r);
  }

  lemma EnlargeForm(player: Player, s: Ctl, i: int)
    requires Inv(s) && s.screen == Main && s.curStyle == s.nextStyle == Four
    ensures Tick(player, PaneClick(s, i, true)).nextFour == s.nextFour
  {
    var r := PaneClick(s, i, true);
    Retargeted(player, s, r);
    InvOf(player, s, r);
    hide PaneClick, Matching, Owned, FourStyle;
    FourStyleKeeps(player, r);
  }

  /** An alarm icon, of whichever kind, brings up its camera if and only if no change to the four
      panes is pending. */
  lemma IconShows(player: Player, grid: Grid, s: Ctl, cameras: seq<int>, k: int)
    requires Inv(s) && Complete(s) && s.screen == Main && !s.warnFreshed
    requires || cameras == s.icons.fires || cameras == s.icons.doors
             || cameras == s.icons.clips || cameras == s.icons.pecus
    requires 0 <= k < |cameras| && cameras[k] != -1
    ensures var t := Tick(player, IconClick(s, cameras, k));
      Succeeds(player, s.attempts, t.attempts) ==>
        (ShowsCamera(t, cameras[k]) <==> !(s.curStyle == Single && s.nextStyle == Four))
  {
    assert Shape(s);
    hide Tick, Step, Enabled, Owned, Matching, AtRest, Complete, Succeeds, ShowsPanes, Holds;
    var e := if cameras == s.icons.fires then FireIcon(k)
             else if cameras == s.icons.doors then DoorIcon(k)
             else if cameras == s.icons.clips then ClipIcon(k)
             else PecuIcon(k);
    IconStep(player, grid, s, cameras, k, e);
    EventFollows(player, grid, s, e);
  }

  lemma IconStep(player: Player, grid: Grid, s: Ctl, cameras: seq<int>, k: int, e: Event)
    requires Shape(s) && s.screen == Main
    requires || (e == FireIcon(k) && cameras == s.icons.fires) || (e == DoorIcon(k) && cameras == s.icons.doors)
             || (e == ClipIcon(k) && cameras == s.icons.clips) || (e == PecuIcon(k) && cameras == s.icons.pecus)
    ensures Enabled(s, e) && Step(player, grid, s, e) == IconClick(s, cameras, k)
  {
    hide IconClick;
  }

  // ----- Alarms

  /** A lone alarm comes up alone in the single style if and only if no change to the four panes is
      pending. */
  lemma LoneAlarmShows(player: Player, grid: Grid, s: Ctl, camera: int, icons: Icons)
    requires Inv(s) && Complete(s) && s.screen == Main && camera != -1
    ensures var t := Tick(player, AlarmsChanged(grid, s, [camera], icons));
      Succeeds(player, s.attempts, t.attempts) ==>
        (t.curStyle == Single && ShowsCamera(t, camera) <==> !(s.curStyle == Single && s.nextStyle == Four))
  {
    assert Shape(s);
    hide Tick, AlarmsChanged, Inv, Complete, Succeeds, ShowsCamera, ShowsPanes;
    LoneAlarmForm(grid, s, camera, icons);
    AlarmsFollow(player, grid, s, [camera], icons);
  }

  lemma AlarmsFollow(player: Player, grid: Grid, s: Ctl, list: seq<int>, icons: Icons)
    requires Inv(s) && Complete(s) && s.screen == Main && AlarmsChanged(grid, s, list, icons).screen == Main
    ensures var r := AlarmsChanged(grid, s, list, icons);
      var t := Tick(player, r);
      Succeeds(player, s.attempts, t.attempts) ==> Follows(r, t)
  {
    hide Tick, AlarmsChanged, Owned, Matching, AtRest, Complete, Succeeds, Follows;
    EventFollows(player, grid, s, AlarmTimer(list, icons));
  }

  lemma LoneAlarmForm(grid: Grid, s: Ctl, camera: int, icons: Icons)
    requires Shape(s)
    ensures var r := AlarmsChanged(grid, s, [camera], icons);
      && r.nextSingle == camera && r.curStyle == s.curStyle && r.screen == s.screen
      && r.nextStyle == if s.curStyle == Four then Single else s.nextStyle
  {
    DropBacksOnly(s.(warnFreshed := true, icons := icons, warnNum := 1, cycling := false));
    hide DropBacks;
  }

  /** When the last alarm goes, the four panes return to the first page if and only if no change to
      the single style is pending; that one comes up empty. In the single style the picture asked for
      stays, camera 0 if there is none, unless the panes are pending. */
  lemma NoAlarmShows(player: Player, grid: Grid, s: Ctl, icons: Icons)
    requires Inv(s) && Complete(s) && s.screen == Main
    ensures var t := Tick(player, AlarmsChanged(grid, s, [], icons));
      Succeeds(player, s.attempts, t.attempts) ==>
        if s.curStyle == Four then
          && (ShowsPanes(t, FirstPage(grid)) <==> s.nextStyle == Four)
          && (s.nextStyle == Single ==> t.curStyle == Single && t.curSingle == -1)
        else if s.nextStyle == Four then ShowsPanes(t, s.nextFour)
        else if s.curSingle == -1 then ShowsCamera(t, 0)
        else if s.nextSingle != -1 then ShowsCamera(t, s.nextSingle)
        else t.curStyle == Single && t.curSingle == -1
  {
    EventFollows(player, grid, s, AlarmTimer([], icons));
    hide Tick, Inv, Complete;
  }

  // ----- Leaving the main screen and coming back

  /** Hidden, the terminal holds no handle; shown again, the next tick brings back what was asked
      for before. */
  lemma HiddenAndShown(player: Player, grid: Grid, s: Ctl)
    requires Inv(s)
    ensures var hidden := Hide(s);
      var t := Tick(player, Show(hidden));
      && (forall i :: 0 <= i < PARKED ==> hidden.slots[i] == 0)
      && (Succeeds(player, s.attempts, t.attempts) ==>
            && (ComingUp(s) == -1 && s.nextStyle == Four ==> ShowsPanes(t, s.nextFour))
            && (ComingUp(s) != -1 ==> ShowsCamera(t, ComingUp(s))))
  {
    CloseAllKeeps(s, 0);
    var hidden := Hide(s);
    HideKeeps(player, s);
    ShowKeeps(player, hidden);
    assert Complete(Show(hidden)) by {
      hide CloseAll, Ledger, PanesMatch;
    }
    hide Tick, Inv, Complete, CloseAll, ShowsPanes, ShowsCamera;
    TickFollows(player, Show(hidden));
  }

  /** Over to the monitor screen and back, the panes keep their handles; a single picture up over
      them was closed and is opened again; in the single style it is kept. */
  lemma MonitorAndBack(player: Player, s: Ctl)
    requires Inv(s) && s.screen == Main
    ensures var t := LeaveMoni(player, EnterMoni(s));
      && t.screen == Main && t.curStyle == s.curStyle && t.curFour == s.curFour && t.nextFour == s.nextFour
      && t.nextSingle == s.nextSingle
      && (forall i :: 0 <= i < 4 ==> t.slots[i] == s.slots[i])
      && (s.curStyle == Four ==> t.curSingle == s.nextSingle)
      && (s.curStyle == Four && s.nextSingle != -1 && Succeeds(player, s.attempts, t.attempts) ==>
            ShowsCamera(t, s.nextSingle))
      && (s.curStyle == Single ==> t.slots[SINGLE] == s.slots[SINGLE] && t.curSingle == s.curSingle)
  {
    EnterForm(s);
    var u := EnterMoni(s);
    hide EnterMoni, Ledger, PanesMatch;
    if s.curStyle == Four && s.nextSingle != -1 {
      Opening(player, u, SINGLE, s.nextSingle);
      hide Open;
    }
  }

  lemma EnterForm(s: Ctl)
    requires Inv(s) && s.screen == Main
    ensures var u := EnterMoni(s);
      && Owned(u) && u.screen == Moni && u.curStyle == s.curStyle && u.nextSingle == s.nextSingle
      && u.curFour == s.curFour && u.nextFour == s.nextFour && u.attempts == s.attempts
      && (forall i :: 0 <= i < 4 ==> u.slots[i] == s.slots[i])
      && (s.curStyle == Four ==> u.slots[SINGLE] == 0)
      && (s.curStyle == Single ==> u.slots[SINGLE] == s.slots[SINGLE] && u.curSingle == s.curSingle)
  {
    DropBackPanesKeeps(s, 0);
    hide Ledger, PanesMatch, DropBackPanes, Close;
    if s.curStyle == Four {
      var v := DropBackPanes(s, 0).(curSingle := -1);
      Closing(v, SINGLE);
    } else {
      Closing(s, BACK);
    }
  }

  // ----- The cycle

  /** k times: the cycle timer, and the tick after it. */
  ghost function Rounds(player: Player, grid: Grid, s: Ctl, k: nat): (t: Ctl)
    requires Shape(s)
    ensures Shape(t)
    decreases k
  {
    if k == 0 then s else Tick(player, CycleStep(grid, Rounds(player, grid, s, k - 1)))
  }

  /** As a tick leaves it, with no single picture over the panes. */
  predicate Settled(s: Ctl, style: Style) {
    && Inv(s) && s.screen == Main && s.curStyle == s.nextStyle == style
    && (style == Four ==> s.curSingle == s.nextSingle == -1)
  }

  lemma PageRound(player: Player, grid: Grid, s: Ctl)
    requires Settled(s, Four)
    ensures var t := Tick(player, CycleStep(grid, s));
      && Settled(t, Four) && t.curFour == FC.NextFour(grid, s.curFour) && s.attempts <= t.attempts
      && (Complete(s) && Succeeds(player, s.attempts, t.attempts) ==>
            Complete(t) && ShowsPanes(t, FC.NextFour(grid, s.curFour)))
  {
    var r := CycleStep(grid, s);
    EventFollows(player, grid, s, CycleTimer);
    Retargeted(player, s, r);
    InvOf(player, s, r);
    TickKeeps(player, r);
    hide Tick, Complete, Owned, Matching, AtRest, FC.NextFour, Advances, Succeeds;
  }

  /** u is reached from s, complete if no handle was refused on the way. */
  ghost predicate Reached(player: Player, s: Ctl, u: Ctl)
    requires Shape(s) && Shape(u)
  {
    s.attempts <= u.attempts && (Complete(s) && Succeeds(player, s.attempts, u.attempts) ==> Complete(u))
  }

  lemma SucceedsSplits(player: Player, from: nat, mid: nat, to: nat)
    requires from <= mid <= to && Succeeds(player, from, to)
    ensures Succeeds(player, from, mid) && Succeeds(player, mid, to)
  {}

  lemma PageStep(player: Player, grid: Grid, s: Ctl, u: Ctl)
    requires Shape(s) && Settled(u, Four) && Reached(player, s, u)
    ensures var t := Tick(player, CycleStep(grid, u));
      && Settled(t, Four) && t.curFour == FC.NextFour(grid, u.curFour) && Reached(player, s, t)
      && (Complete(s) && Succeeds(player, s.attempts, t.attempts) ==>
            ShowsPanes(t, FC.NextFour(grid, u.curFour)))
  {
    PageRound(player, grid, u);
    var t := Tick(player, CycleStep(grid, u));
    hide Tick, CycleStep, Inv, Complete, Succeeds, ShowsPanes, FC.NextFour;
    if Succeeds(player, s.attempts, t.attempts) {
      SucceedsSplits(player, s.attempts, u.attempts, t.attempts);
    }
  }

  /** After k rounds the pages are at the k-th from page g, and on screen if there was a round and
      no handle was refused. */
  ghost predicate AtPage(player: Player, grid: Grid, s: Ctl, g: nat, k: nat)
    requires Shape(s)
  {
    var t := Rounds(player, grid, s, k);
    && Settled(t, Four) && t.curFour == FC.IteratePages(grid, g, k) && Reached(player, s, t)
    && (k > 0 && Complete(s) && Succeeds(player, s.attempts, t.attempts) ==>
          ShowsPanes(t, FC.IteratePages(grid, g, k)))
  }

  lemma NextPage(player: Player, grid: Grid, s: Ctl, g: nat, k: nat)
    requires Shape(s) && k > 0 && AtPage(player, grid, s, g, k - 1)
    ensures AtPage(player, grid, s, g, k)
  {
    hide Settled, Complete, Reached, Succeeds, ShowsPanes, FC.NextFour, FC.Page, Tick, CycleStep;
    PageStep(player, grid, s, Rounds(player, grid, s, k - 1));
  }

  lemma {:induction false} PagesGoRound(player: Player, grid: Grid, s: Ctl, g: nat, k: nat)
    requires Shape(s) && AtPage(player, grid, s, g, 0)
    ensures AtPage(player, grid, s, g, k)
    decreases k
  {
    hide *;
    if k > 0 {
      PagesGoRound(player, grid, s, g, k - 1);
      NextPage(player, grid, s, g, k);
    }
  }

  /** The panes are up and one of them shows the camera. */
  ghost predicate OnScreen(t: Ctl, camera: int)
    requires Shape(t)
  {
    t.curStyle == Four && t.curSingle == -1 && exists i :: 0 <= i < 4 && t.slots[i] != 0 && Holds(t, i, camera)
  }

  lemma OnPageOnScreen(t: Ctl, camera: int)
    requires Settled(t, Four) && camera != -1
    ensures OnScreen(t, camera) ==> camera in t.curFour
    ensures Complete(t) && camera in t.curFour ==> OnScreen(t, camera)
  {
    hide Ledger;
    if Complete(t) && camera in t.curFour {
      var i :| 0 <= i < 4 && t.curFour[i] == camera;
      assert t.slots[i] != 0 && Holds(t, i, camera);
    }
  }

  /** The cycle brings a camera onto a pane, and then within one round of the pages, if and only if
      nothing displaces it and no empty page lies before its own. */
  lemma CycleShowsExactly(player: Player, grid: Grid, s: Ctl, g: nat, camera: int) returns (k: nat)
    requires OnGrid(grid) && g < FC.PageCount(grid) && CR.IsCamera(grid, camera)
    requires Settled(s, Four) && Complete(s) && s.curFour == FC.Page(grid, g)
    ensures k < FC.PageCount(grid)
    ensures FC.InRotation(grid, g, camera) && Succeeds(player, s.attempts, Rounds(player, grid, s, k).attempts) ==>
      OnScreen(Rounds(player, grid, s, k), camera)
    ensures forall j: nat :: OnScreen(Rounds(player, grid, s, j), camera) ==> FC.InRotation(grid, g, camera)
  {
    k := 0;
    if FC.InRotation(grid, g, camera) {
      k := FC.RotationShows(grid, g, camera);
      hide OnScreen, Settled, Complete, Succeeds, FC.InRotation, FC.PageCount, FC.IteratePages, FC.Page;
      RoundOnScreen(player, grid, s, g, camera, k);
    }
    hide OnScreen, Settled, Complete, Succeeds, FC.InRotation, FC.PageCount, FC.IteratePages, FC.Page;
    forall j: nat | OnScreen(Rounds(player, grid, s, j), camera)
      ensures FC.InRotation(grid, g, camera)
    {
      RoundOnScreen(player, grid, s, g, camera, j);
      FC.ShownIsInRotation(grid, g, j, camera);
    }
  }

  lemma RoundOnScreen(player: Player, grid: Grid, s: Ctl, g: nat, camera: int, k: nat)
    requires Settled(s, Four) && Complete(s) && s.curFour == FC.Page(grid, g) && CR.IsCamera(grid, camera)
    ensures var t := Rounds(player, grid, s, k);
      && (OnScreen(t, camera) ==> camera in FC.IteratePages(grid, g, k))
      && (camera in FC.IteratePages(grid, g, k) && Succeeds(player, s.attempts, t.attempts) ==> OnScreen(t, camera))
  {
    assert Shape(s) && AtPage(player, grid, s, g, 0);
    var t := Rounds(player, grid, s, k);
    PagesGoRound(player, grid, s, g, k);
    assert camera != -1;
    hide Rounds, Settled, Complete, Succeeds, OnScreen, FC.Page, FC.IteratePages;
    OnPageOnScreen(t, camera);
  }

  lemma SingleRound(player: Player, grid: Grid, s: Ctl)
    requires Settled(s, Single) && CR.NextSingle(grid, s.curSingle) != -1
    ensures var t := Tick(player, CycleStep(grid, s));
      && Settled(t, Single) && t.curSingle == CR.NextSingle(grid, s.curSingle) && s.attempts <= t.attempts
      && (Complete(s) && Succeeds(player, s.attempts, t.attempts) ==>
            Complete(t) && ShowsCamera(t, CR.NextSingle(grid, s.curSingle)))
  {
    var r := CycleStep(grid, s);
    EventFollows(player, grid, s, CycleTimer);
    Retargeted(player, s, r);
    InvOf(player, s, r);
    TickKeeps(player, r);
    hide Tick, Complete, Owned, Matching, AtRest, CR.NextSingle, Advances, Succeeds;
  }

  lemma SingleStep(player: Player, grid: Grid, s: Ctl, u: Ctl)
    requires Shape(s) && Settled(u, Single) && Reached(player, s, u) && CR.NextSingle(grid, u.curSingle) != -1
    ensures var t := Tick(player, CycleStep(grid, u));
      && Settled(t, Single) && t.curSingle == CR.NextSingle(grid, u.curSingle) && Reached(player, s, t)
      && (Complete(s) && Succeeds(player, s.attempts, t.attempts) ==>
            ShowsCamera(t, CR.NextSingle(grid, u.curSingle)))
  {
    SingleRound(player, grid, u);
    var t := Tick(player, CycleStep(grid, u));
    hide Tick, CycleStep, Inv, Complete, Succeeds, ShowsCamera, CR.NextSingle;
    if Succeeds(player, s.attempts, t.attempts) {
      SucceedsSplits(player, s.attempts, u.attempts, t.attempts);
    }
  }

  lemma IterateSteps(grid: Grid, c: int, k: nat)
    requires ValidGrid(grid) && CR.IsCamera(grid, c) && 0 < k <= |grid|
    ensures CR.Iterate(grid, c, k) == CR.NextSingle(grid, CR.Iterate(grid, c, k - 1)) != -1
  {
    hide ValidGrid, CR.NextSingle, CR.Rank, CR.Turn;
    CR.IterateRank(grid, c, k);
  }

  /** After k rounds the single style is at the k-th camera from s.curSingle, and it is on screen
      if there was a round and no handle was refused. */
  ghost predicate AtCamera(player: Player, grid: Grid, s: Ctl, k: nat)
    requires Shape(s)
  {
    var t := Rounds(player, grid, s, k);
    && Settled(t, Single) && t.curSingle == CR.Iterate(grid, s.curSingle, k) && Reached(player, s, t)
    && (k > 0 && Complete(s) && Succeeds(player, s.attempts, t.attempts) ==>
          ShowsCamera(t, CR.Iterate(grid, s.curSingle, k)))
  }

  lemma NextCamera(player: Player, grid: Grid, s: Ctl, k: nat)
    requires Shape(s) && ValidGrid(grid) && CR.IsCamera(grid, s.curSingle) && 0 < k <= |grid|
    requires AtCamera(player, grid, s, k - 1)
    ensures AtCamera(player, grid, s, k)
  {
    hide ValidGrid, CR.IsCamera, CR.NextSingle, CR.Iterate;
    hide Settled, Complete, Reached, Succeeds, ShowsCamera, Tick, CycleStep;
    IterateSteps(grid, s.curSingle, k);
    SingleStep(player, grid, s, Rounds(player, grid, s, k - 1));
  }

  lemma {:induction false} SinglesGoRound(player: Player, grid: Grid, s: Ctl, k: nat)
    requires Shape(s) && ValidGrid(grid) && CR.IsCamera(grid, s.curSingle) && k <= |grid|
    requires AtCamera(player, grid, s, 0)
    ensures AtCamera(player, grid, s, k)
    decreases k
  {
    hide *;
    if k > 0 {
      SinglesGoRound(player, grid, s, k - 1);
      NextCamera(player, grid, s, k);
    }
  }

  /** In the single style the cycle brings up every camera, each within as many rounds as there
      are cameras. */
  lemma CycleShowsEachAlone(player: Player, grid: Grid, s: Ctl, camera: int) returns (k: nat)
    requires ValidGrid(grid) && Settled(s, Single) && Complete(s)
    requires CR.IsCamera(grid, s.curSingle) && CR.IsCamera(grid, camera)
    ensures 0 < k <= |grid|
    ensures var t := Rounds(player, grid, s, k);
      Succeeds(player, s.attempts, t.attempts) ==> ShowsCamera(t, camera)
  {
    CR.EveryCameraOnce(grid, s.curSingle);
    assert CR.Shown(grid, s.curSingle, camera);
    k :| k < |grid| && CR.Iterate(grid, s.curSingle, k) == camera;
    if k == 0 {
      k := |grid|;
    }
    hide Rounds, Complete, Succeeds, CR.Iterate, ShowsCamera;
    SinglesGoRound(player, grid, s, k);
  }
}
