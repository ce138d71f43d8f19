/** The pictures in the background: what prepares them, what takes them up, and what puts them away; and
    when a callback does nothing. */
module PlaybackBackground {
  import opened CameraGrid
  import opened Playback
  import opened PlaybackOwnership
  import opened PlaybackRuns
  import opened PlaybackRefusals
  import opened PlaybackScreens
  import CR = Carousel
  import FC = FourCarousel

  /** Slot i is one of the four back panes or the back picture. */
  predicate InBackground(i: int) {
    4 <= i < 8 || i == BACK
  }

  /** From s to t the background pictures are put away: their handles are destroyed, the other slots keep
      theirs, and nothing is created. */
  predicate BackgroundGoes(s: Ctl, t: Ctl)
    requires Shape(s) && Shape(t)
  {
    && t.backFour == [-1, -1, -1, -1] && t.backSingle == -1 && t.attempts == s.attempts
    && (forall i :: 0 <= i < SLOTS ==> t.slots[i] == if InBackground(i) then 0 else s.slots[i])
    && (forall i :: 0 <= i < SLOTS && InBackground(i) && s.slots[i] != 0 ==> s.slots[i] in t.destroyed)
  }

  lemma GoneIsDestroyed(s: Ctl, t: Ctl, i: nat)
    requires Shape(s) && Shape(t) && Owned(s) && Owned(t) && t.media == s.media && i < SLOTS && s.slots[i] != 0
    requires forall k :: 0 <= k < SLOTS ==> t.slots[k] == if InBackground(k) then 0 else s.slots[k]
    requires InBackground(i)
    ensures s.slots[i] in t.destroyed
  {
    assert s.slots[i] in t.media;
    forall k | 0 <= k < SLOTS
      ensures t.slots[k] != s.slots[i]
    {
      assert k < i && s.slots[k] != 0 ==> s.slots[k] != s.slots[i];
      assert i < k && s.slots[i] != 0 ==> s.slots[i] != s.slots[k];
    }
    assert s.slots[i] !in t.slots;
  }

  lemma DropBacksForm(s: Ctl)
    requires Shape(s) && Owned(s) && Matching(s)
    ensures var t := DropBacks(s);
      && Owned(t) && t.backFour == [-1, -1, -1, -1]
      && t == s.(slots := t.slots, backFour := t.backFour, backSingle := -1, destroyed := t.destroyed)
      && forall k :: 0 <= k < SLOTS ==> t.slots[k] == if InBackground(k) then 0 else s.slots[k]
  {
    hide Matching, Ledger, DropBackPanes, Close;
    DropBackPanesKeeps(s, 0);
    Closing(DropBackPanes(s, 0), BACK);
  }

  lemma DropBacksExactly(s: Ctl)
    requires Shape(s) && Owned(s) && Matching(s)
    ensures var t := DropBacks(s);
      BackgroundGoes(s, t)
      && t == s.(slots := t.slots, backFour := t.backFour, backSingle := -1, destroyed := t.destroyed)
  {
    hide Matching, Owned, DropBacks;
    DropBacksForm(s);
    var t := DropBacks(s);
    forall i | 0 <= i < SLOTS && InBackground(i) && s.slots[i] != 0
      ensures s.slots[i] in t.destroyed
    {
      GoneIsDestroyed(s, t, i);
    }
  }

  // ----- The cycle buttons

  /** The button that stops the cycle puts the background away. It does nothing during an alarm, or when
      nothing cycles. */
  lemma CycleStops(player: Player, grid: Grid, s: Ctl)
    requires Inv(s)
    ensures var t := Step(player, grid, s, CycleOffButton);
      if s.warnNum > 0 || !s.cycling then t == s
      else
        && !t.cycling && BackgroundGoes(s, t)
        && t.curStyle == s.curStyle && t.nextStyle == s.nextStyle && t.curFour == s.curFour && t.nextFour == s.nextFour
        && t.curSingle == s.curSingle && t.nextSingle == s.nextSingle
  {
    hide Owned, Matching, AtRest, DropBacks, Complete;
    var r := s.(cycling := false);
    Retargeted(player, s, r);
    InvOf(player, s, r);
    DropBacksExactly(r);
  }

  /** The button that starts it takes an enlarged picture off the panes at the next tick, and changes
      nothing else. */
  lemma CycleStarts(player: Player, grid: Grid, s: Ctl)
    requires Inv(s) && Complete(s) && s.screen == Main
    ensures var r := Step(player, grid, s, CycleOnButton);
      var t := Tick(player, r);
      && (s.warnNum > 0 || s.cycling ==> r == s)
      && (s.warnNum <= 0 && !s.cycling && s.curStyle == Single ==> r == s.(cycling := true))
      && (s.warnNum <= 0 && !s.cycling && s.curStyle == s.nextStyle == Four ==>
            r.cycling && (Succeeds(player, s.attempts, t.attempts) ==> ShowsPanes(t, s.nextFour)))
  {
    assert Shape(s);
    assert Step(player, grid, s, CycleOnButton).screen == Main;
    hide Tick, Owned, Matching, AtRest, Complete, Succeeds, ShowsPanes, ShowsCamera;
    EventFollows(player, grid, s, CycleOnButton);
  }

  /** The cycle goes to the page after the one on the panes, also from an enlarged picture, if and only if
      no change to the single style is pending. */
  lemma CycleTakesPanes(player: Player, grid: Grid, s: Ctl)
    requires Inv(s) && Complete(s) && s.screen == Main && s.curStyle == Four
    ensures var t := Tick(player, Step(player, grid, s, CycleTimer));
      Succeeds(player, s.attempts, t.attempts) ==>
        (ShowsPanes(t, FC.NextFour(grid, s.curFour)) <==> s.nextStyle == Four)
  {
    assert Shape(s);
    hide Tick, Owned, Matching, AtRest, Complete, Succeeds, FC.NextFour, Holds;
    EventFollows(player, grid, s, CycleTimer);
  }

  lemma FirstThenNext(player: Player, grid: Grid, s: Ctl)
    requires Inv(s) && Complete(s) && s.screen == Main && s.curStyle == s.nextStyle == Four && s.nextSingle == -1
    ensures var t := Tick(player, s);
      var u := Tick(player, Step(player, grid, t, CycleTimer));
      Succeeds(player, s.attempts, u.attempts) ==>
        ShowsPanes(t, s.nextFour) && ShowsPanes(u, FC.NextFour(grid, s.nextFour))
  {
    assert Shape(s);
    var t := Tick(player, s);
    TickKeeps(player, s);
    hide Tick, Owned, Matching, AtRest, Complete, Succeeds, FC.NextFour, Holds;
    TickFollows(player, s);
    EventFollows(player, grid, t, CycleTimer);
    var u := Tick(player, Step(player, grid, t, CycleTimer));
    if Succeeds(player, s.attempts, u.attempts) {
      SucceedsSplits(player, s.attempts, t.attempts, u.attempts);
    }
  }

  /** The terminal starts cycling: the first tick shows the first page, and from there the cycle steps on. */
  lemma StartsCycling(player: Player, grid: Grid)
    ensures var s := Run(player, grid, []);
      var t := Tick(player, s);
      var u := Tick(player, Step(player, grid, t, CycleTimer));
      && s.cycling && s.warnNum == 0 && !s.warnFreshed && s.backSingle == 0
      && (Succeeds(player, 0, u.attempts) ==>
            ShowsPanes(t, FirstPage(grid)) && ShowsPanes(u, FC.NextFour(grid, FirstPage(grid))))
  {
    InitialInv(grid);
    hide Tick, Step, Succeeds, ShowsPanes, FC.NextFour, FirstPage;
    FirstThenNext(player, grid, Run(player, grid, []));
  }

  // ----- What is prepared comes up

  lemma PageDiffers(grid: Grid, g: int)
    ensures AllDifferent(FC.Page(grid, g))
  {}

  /** The panes prepared for the next page: each that has a handle, for a camera that the page on screen
      does not have there, gives it to its pane when the cycle moves on. */
  lemma PreparedPagesUsed(player: Player, grid: Grid, s: Ctl, i: nat)
    requires Settled(s, Four) && i < 4
    ensures var p := Step(player, grid, s, PrepareTimer);
      var next := FC.NextFour(grid, s.curFour);
      && (Succeeds(player, s.attempts, p.attempts) && next[i] != -1 ==> p.slots[i + 4] != 0)
      && (forall k :: 0 <= k < 4 ==> p.slots[k] == s.slots[k])
      && (next[i] != s.curFour[i] && p.slots[i + 4] != 0 ==>
            Tick(player, Step(player, grid, p, CycleTimer)).slots[i] == p.slots[i + 4])
  {
    hide Ledger, Tick, OpenBackPanes, CloseBackPanes;
    var next := FC.NextFour(grid, s.curFour);
    PageDiffers(grid, FC.NextGroup(grid, s.curFour));
    assert AllDifferent(next);
    hide FC.NextFour;
    PrepareFourForm(player, grid, s);
    PrepareFourKeeps(player, grid, s);
    var p := Prepare(player, grid, s);
    hide Prepare;
    var r := p.(nextSingle := -1, nextFour := next);
    Retargeted(player, p, r);
    if next[i] != s.curFour[i] && p.slots[i + 4] != 0 {
      BackIsTaken(player, r, i, i);
    }
  }

  lemma PrepareFourForm(player: Player, grid: Grid, s: Ctl)
    requires Inv(s) && s.curStyle == Four
    ensures var p := Prepare(player, grid, s);
      && p == s.(slots := p.slots, backFour := FC.NextFour(grid, s.curFour), attempts := p.attempts, media := p.media,
                 destroyed := p.destroyed)
      && (forall k :: 0 <= k < 4 || k == SINGLE ==> p.slots[k] == s.slots[k])
      && (Succeeds(player, s.attempts, p.attempts) ==>
            forall k :: 0 <= k < 4 && p.backFour[k] != -1 ==> p.slots[k + 4] != 0)
      && (forall k :: 0 <= k < 4 ==> Serves(p.slots[k + 4], p.media, p.backFour[k]))
  {
    hide Ledger, CloseBackPanes, OpenBackPanes, FC.NextFour;
    CloseBackPanesKeeps(s, 0);
    var u := CloseBackPanes(s, 0).(backFour := FC.NextFour(grid, s.curFour));
    OpenBackPanesKeeps(player, u, 0);
  }

  /** Likewise in the single style: the picture prepared is the one that comes up, with no create call; one
      that is prepared already is not created again. */
  lemma PreparedPictureUsed(player: Player, grid: Grid, s: Ctl)
    requires Settled(s, Single) && CR.NextSingle(grid, s.curSingle) !in {-1, s.curSingle}
    ensures var p := Step(player, grid, s, PrepareTimer);
      var t := Tick(player, Step(player, grid, p, CycleTimer));
      && p.slots[SINGLE] == s.slots[SINGLE]
      && (if s.backSingle == CR.NextSingle(grid, s.curSingle) then p == s
          else p.slots[BACK] == Answer(player, s.attempts) && p.attempts == s.attempts + 1)
      && t.curSingle == CR.NextSingle(grid, s.curSingle)
      && t.slots[SINGLE] == p.slots[BACK] && t.attempts == p.attempts
  {
    hide Ledger, Tick, CR.NextSingle;
    PrepareSingleForm(player, grid, s);
    PrepareSingleKeeps(player, grid, s);
    var p := Prepare(player, grid, s);
    hide Prepare;
    var r := CycleStep(grid, p);
    Retargeted(player, p, r);
    TickKeeps(player, r);
    TickPictureAnswers(player, r);
  }

  lemma PrepareSingleForm(player: Player, grid: Grid, s: Ctl)
    requires Shape(s) && s.curStyle == Single
    ensures var p := Prepare(player, grid, s);
      && p == s.(slots := p.slots, backSingle := CR.NextSingle(grid, s.curSingle), attempts := p.attempts,
                 media := p.media, destroyed := p.destroyed)
      && (forall k :: 0 <= k < SLOTS && k != BACK ==> p.slots[k] == s.slots[k])
      && (s.backSingle == CR.NextSingle(grid, s.curSingle) ==> p == s)
      && (CR.NextSingle(grid, s.curSingle) !in {-1, s.backSingle} ==>
            p.slots[BACK] == Answer(player, s.attempts) && p.attempts == s.attempts + 1)
  {
    hide CR.NextSingle, Close;
    CloseOnly(s, BACK);
    CloseSlot(s, BACK);
  }

  lemma CloseSlot(s: Ctl, i: nat)
    requires Shape(s) && i < SLOTS
    ensures Close(s, i).slots == s.slots[i := 0] && Close(s, i).attempts == s.attempts
  {
    assert s.slots[i] == 0 ==> s.slots[i := 0] == s.slots;
  }

  // ----- What puts the background away

  /** An alarm stops the cycle and puts its background away; no other handle is touched, and without an
      alarm or a cycle none. */
  lemma AlarmStopsCycle(player: Player, grid: Grid, s: Ctl, list: seq<int>, icons: Icons)
    requires Inv(s)
    ensures var t := Step(player, grid, s, AlarmTimer(list, icons));
      && t.warnNum == |list| && t.icons == icons && t.warnFreshed && t.cycling == (s.cycling && list == [])
      && if s.cycling && list != [] then BackgroundGoes(s, t)
         else t.slots == s.slots && t.destroyed == s.destroyed && t.attempts == s.attempts
  {
    hide Owned, Matching, AtRest, DropBacks, Complete;
    var r := s.(warnFreshed := true, icons := icons, warnNum := |list|, cycling := false);
    Retargeted(player, s, r);
    InvOf(player, s, r);
    DropBacksExactly(r);
  }

  /** A camera button puts the background of a cycle away, and the cycle goes on. */
  lemma CameraButtonPutsAway(player: Player, grid: Grid, s: Ctl, group: int, pos: int)
    requires Inv(s) && !s.warnFreshed && 0 <= group < GROUPS && 0 <= pos < POSITIONS
    ensures var t := Step(player, grid, s, CameraButton(group, pos));
      && t.cycling == s.cycling
      && if s.cycling then BackgroundGoes(s, t)
         else t.slots == s.slots && t.destroyed == s.destroyed && t.attempts == s.attempts
  {
    hide Owned, Matching, AtRest, DropBacks, Complete, VideoAt, FC.Page, MergedGroup;
    var r := if s.curStyle == Single || s.warnNum > 0 then s.(nextSingle := VideoAt(grid, group, pos))
             else s.(nextFour := FC.Page(grid, MergedGroup(grid, group)), nextSingle := -1);
    Retargeted(player, s, r);
    InvOf(player, s, r);
    DropBacksExactly(r);
  }

  /** On the monitor screen only the panes keep their handles, or in the single style the picture. */
  lemma MonitorKeeps(player: Player, grid: Grid, s: Ctl)
    requires Inv(s) && s.screen == Main
    ensures var t := Step(player, grid, s, MoniButton);
      && t.screen == Moni
      && forall i :: 0 <= i < SLOTS ==>
           t.slots[i] == if (if s.curStyle == Four then i < 4 else i == SINGLE) then s.slots[i] else 0
  {
    hide Ledger, Matching, Close, DropBackPanes;
    if s.curStyle == Four {
      DropBackPanesKeeps(s, 0);
      var v := DropBackPanes(s, 0);
      Closing(v.(curSingle := -1), SINGLE);
    } else {
      Closing(s, BACK);
    }
  }

  // ----- When a callback does nothing

  /** Clicks on cameras, panes and alarm icons. */
  predicate IsClick(e: Event) {
    e.CameraButton? || e.PaneClicked? || e.PecuIcon? || e.FireIcon? || e.DoorIcon? || e.ClipIcon?
  }

  lemma ClickWaits(player: Player, grid: Grid, s: Ctl, e: Event)
    requires Shape(s) && s.warnFreshed && IsClick(e)
    ensures Step(player, grid, s, e) == s
  {}

  /** From new alarms until the next tick clicks do nothing. */
  lemma {:induction false} ClicksWait(player: Player, grid: Grid, events: seq<Event>, clicks: seq<Event>)
    requires Run(player, grid, events).warnFreshed && forall e :: e in clicks ==> IsClick(e)
    ensures Run(player, grid, events + clicks) == Run(player, grid, events)
    decreases |clicks|
  {
    hide Step, IsClick, Enabled;
    var n := |clicks| - 1;
    if clicks == [] {
      assert events + clicks == events;
    } else {
      ClicksWait(player, grid, events, clicks[..n]);
      assert (events + clicks)[..|events| + n] == events + clicks[..n];
      ClickWaits(player, grid, Run(player, grid, events), clicks[n]);
    }
  }

  /** During an alarm the buttons that change the style or cycle do nothing. */
  lemma AlarmLocksButtons(player: Player, grid: Grid, s: Ctl, e: Event)
    requires Shape(s) && s.warnNum > 0
    requires e in {SinglePictureButton, FourPictureButton, CycleOnButton, CycleOffButton}
    ensures Step(player, grid, s, e) == s
  {}

  /** A double click does nothing on a pane without a stream, unless it takes an enlarged picture off. */
  lemma DeadPaneIgnored(player: Player, grid: Grid, s: Ctl, pane: int, playing: bool)
    requires Shape(s) && (s.curStyle == Single || s.curSingle == -1)
    requires s.curStyle == Single || !playing || !(0 <= pane < 4) || s.slots[pane] == 0
    ensures Step(player, grid, s, PaneClicked(pane, playing)) == s
  {}

  /** The page shown first, and after the last alarm, has exactly the cameras of group 1, each place the first
      one configured for it. */
  lemma FirstPageHas(grid: Grid, v: int)
    requires OnGrid(grid) && CR.IsCamera(grid, v)
    ensures v in FirstPage(grid) <==> grid[v].group == 1 && forall c :: 0 <= c < v ==> grid[c] != grid[v]
  {
    if grid[v].group == 1 {
      assert VideoAt(grid, 1, grid[v].pos) in FirstPage(grid);
    }
  }
}
