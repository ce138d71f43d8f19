/** Safety of the playback controller over every run, and convergence of its tick. */
module PlaybackRuns {
  import opened CameraGrid
  import opened Playback
  import opened PlaybackOwnership
  import CR = Carousel
  import FC = FourCarousel
  import PA = PaneAssignment
  import AL = Alarms

  /** Wherever an index names a camera, the slot beside it has a handle. */
  predicate Complete(s: Ctl)
    requires Shape(s)
  {
    && PanesComplete(s) && BacksComplete(s)
    && (s.curSingle != -1 ==> s.slots[SINGLE] != 0)
    && (s.curStyle == Single && s.backSingle != -1 ==> s.slots[BACK] != 0)
  }

  /** What every callback keeps: the invariant, and completeness as long as the media player
      does not refuse a handle. */
  ghost predicate Advances(player: Player, s: Ctl, t: Ctl)
    requires Shape(s)
  {
    && Inv(t) && s.attempts <= t.attempts
    && (Complete(s) && Succeeds(player, s.attempts, t.attempts) ==> Complete(t))
  }

  // ----- The tick

  /** Both single pictures closed. */
  lemma ClosePictures(s: Ctl)
    requires Inv(s)
    ensures var u := Close(s, SINGLE).(curSingle := -1, nextSingle := -1);
      var v := Close(u, BACK).(backSingle := -1);
      && Owned(v) && Matching(v)
      && v == s.(slots := s.slots[SINGLE := 0][BACK := 0], destroyed := v.destroyed,
                 curSingle := -1, nextSingle := -1, backSingle := -1)
  {
    hide Ledger, Close, PanesMatch;
    Closing(s, SINGLE);
    var u := Close(s, SINGLE).(curSingle := -1, nextSingle := -1);
    Closing(u, BACK);
    PanesUntouched(s, Close(u, BACK).(backSingle := -1));
  }

  lemma ToFourStyleKeeps(player: Player, s: Ctl)
    requires Inv(s) && s.screen == Main && s.nextStyle == Four
    ensures var t := ToFourStyle(player, s);
      && Advances(player, s, t)
      && t.curStyle == Four && t.nextStyle == Four && t.screen == Main
      && t.curSingle == t.nextSingle == -1 && t.curFour == t.nextFour == s.nextFour
  {
    hide Ledger, Close, Matching, PanesComplete, BacksComplete;
    ClosePictures(s);
    var v := Close(Close(s, SINGLE).(curSingle := -1, nextSingle := -1), BACK).(backSingle := -1);
    ResetPanesKeeps(v, 0);
    AllReset(v);
    var w := ResetPanes(v, 0);
    hide ResetPanes;
    OpenPanesKeeps(player, w, 0);
    OpenPanesComplete(player, w);
    var x := OpenPanes(player, w, 0);
    hide OpenPanes;
    MatchingIgnoresStyle(x, s.nextStyle);
  }

  lemma MatchingIgnoresStyle(s: Ctl, style: Style)
    requires Shape(s)
    ensures Matching(s.(curStyle := style)) == Matching(s) && SamePanes(s, s.(curStyle := style))
  {}

  predicate SamePanes(s: Ctl, t: Ctl)
    requires Shape(s) && Shape(t)
  {
    (PanesComplete(t) <==> PanesComplete(s)) && (BacksComplete(t) <==> BacksComplete(s))
  }

  lemma CloseBackPicture(s: Ctl)
    requires Inv(s)
    ensures var t := Close(s, BACK).(backSingle := -1);
      && SamePanes(s, t) && Owned(t) && Matching(t)
      && t == s.(slots := s.slots[BACK := 0], destroyed := t.destroyed, backSingle := -1)
  {
    hide Ledger, Close, PanesMatch;
    Closing(s, BACK);
    PanesUntouched(s, Close(s, BACK).(backSingle := -1));
  }

  /** A new single picture in place of the old one. */
  lemma ReplaceSingle(player: Player, s: Ctl)
    requires Shape(s) && Owned(s) && Matching(s)
    ensures var t := Open(player, Close(s, SINGLE), SINGLE, s.nextSingle).(curSingle := s.nextSingle);
      && Owned(t) && Matching(t) && s.attempts <= t.attempts
      && t == s.(slots := s.slots[SINGLE := t.slots[SINGLE]], curSingle := s.nextSingle, attempts := t.attempts,
                 media := t.media, destroyed := t.destroyed)
      && SamePanes(s, t) && (Succeeds(player, s.attempts, t.attempts) ==> t.slots[SINGLE] != 0)
  {
    hide Ledger, Close, Open, PanesMatch;
    Closing(s, SINGLE);
    Opening(player, Close(s, SINGLE), SINGLE, s.nextSingle);
    PanesUntouched(s, Open(player, Close(s, SINGLE), SINGLE, s.nextSingle).(curSingle := s.nextSingle));
  }

  lemma ToSingleStyleKeeps(player: Player, s: Ctl)
    requires Inv(s) && s.screen == Main && s.nextStyle == Single
    ensures var t := ToSingleStyle(player, s);
      && Advances(player, s, t)
      && t.curStyle == Single && t.nextStyle == Single && t.screen == Main
      && t.curSingle == t.nextSingle == s.nextSingle
  {
    hide Ledger, Close, Open, Matching, PanesComplete, BacksComplete;
    CloseBackPicture(s);
    var b := Close(s, BACK).(backSingle := -1);
    LeavePanesKeeps(b, 0);
    var u := LeavePanes(b, 0);
    hide LeavePanes;
    ReplaceSingle(player, u);
    var v := (if u.curSingle != u.nextSingle then Open(player, Close(u, SINGLE), SINGLE, u.nextSingle) else u)
      .(curSingle := u.nextSingle);
    MatchingIgnoresStyle(v, s.nextStyle);
  }

  lemma FourStyleKeeps(player: Player, s: Ctl)
    requires Inv(s) && s.screen == Main && s.curStyle == Four
    ensures var t := FourStyle(player, s);
      && Advances(player, s, t)
      && t == s.(slots := t.slots, curFour := t.curFour, backFour := t.backFour, curSingle := s.nextSingle,
                 attempts := t.attempts, media := t.media, destroyed := t.destroyed)
      && (s.nextSingle == -1 ==> t.curFour == s.nextFour)
  {
    hide Ledger, Close, Open, Matching, SyncPanes, PanesComplete, BacksComplete;
    if s.nextSingle != s.curSingle {
      CloseSinglePicture(s);
      if s.nextSingle != -1 {
        ReplaceSingle(player, s);
      } else {
        SyncPanesKeeps(player, Close(s, SINGLE));
        SingleIndexIrrelevant(SyncPanes(player, Close(s, SINGLE)), -1);
      }
    } else if s.curSingle == -1 {
      SyncPanesKeeps(player, s);
    }
  }

  lemma CloseSinglePicture(s: Ctl)
    requires Inv(s)
    ensures var t := Close(s, SINGLE);
      && Owned(t) && Matching(t) && SamePanes(s, t)
      && t == s.(slots := s.slots[SINGLE := 0], destroyed := t.destroyed)
  {
    hide Ledger, Close, PanesMatch;
    Closing(s, SINGLE);
    PanesUntouched(s, Close(s, SINGLE));
  }

  lemma SingleIndexIrrelevant(s: Ctl, camera: int)
    requires Shape(s) && Matching(s) && s.slots[SINGLE] == 0
    ensures Matching(s.(curSingle := camera)) && SamePanes(s, s.(curSingle := camera))
  {}

  lemma PutAwayKeeps(s: Ctl)
    requires Shape(s) && Owned(s) && s.slots[PARKED] == 0
    ensures var t := PutAway(s);
      && Owned(t) && t.slots[SINGLE] == 0
      && t == s.(slots := t.slots, destroyed := t.destroyed)
      && (forall k :: 0 <= k < SINGLE ==> t.slots[k] == s.slots[k]) && t.slots[BACK] == s.slots[BACK]
      && (t.slots[PARKED] != 0 ==> LoneAlarm(s) == s.curSingle && t.slots[PARKED] == s.slots[SINGLE] != 0)
  {
    hide Ledger, Close, Move;
    Closing(s, SINGLE);
    Moving(s, SINGLE, PARKED);
  }

  lemma BringUpKeeps(player: Player, s: Ctl)
    requires Shape(s) && Owned(s) && s.slots[SINGLE] == 0 && Holds(s, BACK, s.backSingle)
    ensures var t := BringUp(player, s);
      && Owned(t) && s.attempts <= t.attempts && MediaGrows(s, t)
      && t == s.(slots := t.slots, backSingle := t.backSingle, attempts := t.attempts, media := t.media)
      && (forall k :: 0 <= k < SLOTS && k != SINGLE && k != BACK ==> t.slots[k] == s.slots[k])
      && Holds(t, SINGLE, s.nextSingle) && Holds(t, BACK, t.backSingle)
      && (Succeeds(player, s.attempts, t.attempts) && (s.backSingle != -1 ==> s.slots[BACK] != 0) ==>
           (s.nextSingle != -1 ==> t.slots[SINGLE] != 0) && (t.backSingle != -1 ==> t.slots[BACK] != 0))
  {
    hide Ledger, Open, Move;
    Moving(s, BACK, SINGLE);
    Opening(player, s, SINGLE, s.nextSingle);
  }

  lemma KeepParkedKeeps(s: Ctl, camera: int)
    requires Shape(s) && Owned(s) && Holds(s, BACK, s.backSingle) && Holds(s, PARKED, camera)
    ensures var t := KeepParked(s, camera);
      && Owned(t) && t.slots[PARKED] == 0 && Holds(t, BACK, t.backSingle)
      && t == s.(slots := t.slots, backSingle := t.backSingle, destroyed := t.destroyed)
      && (forall k :: 0 <= k < BACK ==> t.slots[k] == s.slots[k])
      && ((s.backSingle != -1 ==> s.slots[BACK] != 0) ==> t.backSingle != -1 ==> t.slots[BACK] != 0)
  {
    assert s.slots[PARKED] != 0 ==> s.slots[PARKED] != s.slots[BACK];
    hide Ledger, Close, Move;
    Closing(s, BACK);
    Moving(Close(s, BACK), PARKED, BACK);
  }

  /** The three stages of SinglePlayStyle together. */
  lemma SwitchKeeps(player: Player, s: Ctl, parkedCamera: int)
    requires Shape(s) && Owned(s) && s.slots[PARKED] == 0
    requires Holds(s, SINGLE, s.curSingle) && Holds(s, BACK, s.backSingle)
    requires s.slots[SINGLE] != 0 && LoneAlarm(s) == s.curSingle ==> parkedCamera == s.curSingle
    ensures var t := KeepParked(BringUp(player, PutAway(s)), parkedCamera);
      && Owned(t) && t.slots[PARKED] == 0 && s.attempts <= t.attempts && MediaGrows(s, t)
      && t == s.(slots := t.slots, backSingle := t.backSingle,
                 attempts := t.attempts, media := t.media, destroyed := t.destroyed)
      && (forall k :: 0 <= k < SINGLE ==> t.slots[k] == s.slots[k])
      && Holds(t, SINGLE, s.nextSingle) && Holds(t, BACK, t.backSingle)
      && (Succeeds(player, s.attempts, t.attempts) && (s.backSingle != -1 ==> s.slots[BACK] != 0) ==>
           (s.nextSingle != -1 ==> t.slots[SINGLE] != 0) && (t.backSingle != -1 ==> t.slots[BACK] != 0))
  {
    hide Ledger, PutAway, BringUp, KeepParked;
    PutAwayKeeps(s);
    BringUpKeeps(player, PutAway(s));
    KeepParkedKeeps(BringUp(player, PutAway(s)), parkedCamera);
  }

  lemma SwitchAdvances(player: Player, s: Ctl, w: Ctl)
    requires Inv(s) && s.curStyle == Single && Shape(w)
    requires Owned(w) && w.slots[PARKED] == 0 && s.attempts <= w.attempts && MediaGrows(s, w)
    requires w == s.(slots := w.slots, backSingle := w.backSingle,
                     attempts := w.attempts, media := w.media, destroyed := w.destroyed)
    requires forall k :: 0 <= k < SINGLE ==> w.slots[k] == s.slots[k]
    requires Holds(w, SINGLE, s.nextSingle) && Holds(w, BACK, w.backSingle)
    requires Succeeds(player, s.attempts, w.attempts) && (s.backSingle != -1 ==> s.slots[BACK] != 0) ==>
      (s.nextSingle != -1 ==> w.slots[SINGLE] != 0) && (w.backSingle != -1 ==> w.slots[BACK] != 0)
    ensures Advances(player, s, w.(curSingle := s.nextSingle))
  {
    hide Ledger, PanesMatch, PanesComplete, BacksComplete, Decodes;
    PanesUntouched(s, w.(curSingle := s.nextSingle));
  }

  lemma SingleStyleKeeps(player: Player, s: Ctl)
    requires Inv(s) && s.screen == Main && s.curStyle == Single
    ensures var t := SingleStyle(player, s);
      && Advances(player, s, t)
      && t == s.(slots := t.slots, backSingle := t.backSingle, curSingle := s.nextSingle,
                 attempts := t.attempts, media := t.media, destroyed := t.destroyed)
  {
    if s.nextSingle != s.curSingle {
      hide Advances, PutAway, BringUp, KeepParked, LoneAlarm;
      var parkedCamera := if s.slots[SINGLE] != 0 && LoneAlarm(s) == s.curSingle then s.curSingle else -1;
      SwitchKeeps(player, s, parkedCamera);
      SwitchAdvances(player, s, KeepParked(BringUp(player, PutAway(s)), parkedCamera));
    }
  }

  lemma TickKeeps(player: Player, s: Ctl)
    requires Inv(s) && s.screen == Main
    ensures var t := Tick(player, s);
      && Advances(player, s, t) && t.screen == Main && !t.warnFreshed
      && t.curStyle == t.nextStyle == s.nextStyle && t.curSingle == t.nextSingle
      && t.nextSingle == (if s.curStyle == Single && s.nextStyle == Four then -1 else s.nextSingle)
      && (t.curStyle == Four && t.curSingle == -1 ==> t.curFour == t.nextFour == s.nextFour)
  {
    hide Matching, Ledger, ToFourStyle, ToSingleStyle, FourStyle, SingleStyle;
    var u := s;
    if s.curStyle != s.nextStyle {
      u := StyleChanged(player, s);
      if s.nextStyle == Four {
        ToFourStyleKeeps(player, s);
      } else {
        ToSingleStyleKeeps(player, s);
      }
    }
    if u.curStyle == Four {
      FourStyleKeeps(player, u);
    } else {
      SingleStyleKeeps(player, u);
    }
    WarnFlagIrrelevant(if u.curStyle == Four then FourStyle(player, u) else SingleStyle(player, u));
  }

  lemma WarnFlagIrrelevant(s: Ctl)
    requires Inv(s)
    ensures Inv(s.(warnFreshed := false)) && (Complete(s) ==> Complete(s.(warnFreshed := false)))
  {}

  /** t shows what the indices of s ask for: in the four-picture view pane i has a handle exactly
      when a camera is to be shown there, and that handle decodes it; the single picture shows the
      camera asked for. */
  predicate AsAsked(s: Ctl, t: Ctl)
    requires Shape(s) && Shape(t)
  {
    && t.curStyle == s.nextStyle
    && (t.curStyle == Four && t.nextSingle == -1 ==>
          forall i :: 0 <= i < 4 ==> (t.slots[i] != 0 <==> s.nextFour[i] != -1) && Holds(t, i, s.nextFour[i]))
    && (t.nextSingle != -1 ==>
          t.nextSingle == s.nextSingle && t.slots[SINGLE] != 0 && Holds(t, SINGLE, s.nextSingle))
  }

  /** One tick brings the screen to what the indices ask for, as long as the player refused no
      handle. */
  lemma TickConverges(player: Player, s: Ctl)
    requires Inv(s) && s.screen == Main && Complete(s)
    requires Succeeds(player, s.attempts, Tick(player, s).attempts)
    ensures AsAsked(s, Tick(player, s))
  {
    TickKeeps(player, s);
  }

  /** Whatever the player refuses, a second tick with nothing in between does nothing: in
      particular a refused handle is not asked for again. */
  lemma TickSettles(player: Player, again: Player, s: Ctl)
    requires Inv(s) && s.screen == Main
    ensures Tick(again, Tick(player, s)) == Tick(player, s)
  {
    TickKeeps(player, s);
    var t := Tick(player, s);
    hide Tick;
    if t.curStyle == Four && t.curSingle == -1 {
      SettledLoops(again, t, 0);
    }
    SettledTick(again, t);
  }

  lemma {:induction false} SettledLoops(player: Player, t: Ctl, i: nat)
    requires Shape(t) && i <= 4 && t.curFour == t.nextFour
    ensures CloseChanged(t, i) == t && OpenChanged(player, t, i) == t
    decreases 4 - i
  {
    if i < 4 {
      SettledLoops(player, t, i + 1);
    }
  }

  lemma SettledTick(player: Player, t: Ctl)
    requires Shape(t) && t.curStyle == t.nextStyle && t.curSingle == t.nextSingle && !t.warnFreshed
    requires t.curStyle == Four && t.curSingle == -1 ==> CloseChanged(t, 0) == t && OpenChanged(player, t, 0) == t
    ensures Tick(player, t) == t
  {}

  // ----- The other callbacks

  /** A callback that only changes what is to be shown next touches no handle. */
  lemma Retargeted(player: Player, s: Ctl, t: Ctl)
    requires Inv(s) && Shape(t)
    requires t == s.(nextFour := t.nextFour, nextSingle := t.nextSingle, nextStyle := t.nextStyle, cycling := t.cycling,
                     warnNum := t.warnNum, warnFreshed := t.warnFreshed, icons := t.icons)
    ensures Advances(player, s, t)
  {
    hide Ledger, Decodes, Serves;
  }

  lemma AdvancesTwice(player: Player, s: Ctl, t: Ctl, u: Ctl)
    requires Shape(s) && Advances(player, s, t) && Advances(player, t, u)
    ensures Advances(player, s, u)
  {
    hide Inv, Complete;
  }

  lemma DropBacksKeeps(player: Player, s: Ctl)
    requires Inv(s)
    ensures Advances(player, s, DropBacks(s)) && DropBacks(s).screen == s.screen
  {
    hide Ledger, Close, DropBackPanes, PanesMatch, PanesComplete, BacksComplete;
    DropBackPanesKeeps(s, 0);
    DropBackPanesComplete(s);
    var u := DropBackPanes(s, 0);
    Closing(u, BACK);
    PanesUntouched(u, DropBacks(s));
  }

  lemma CloseCycleKeeps(player: Player, s: Ctl)
    requires Inv(s)
    ensures Advances(player, s, CloseCycle(s)) && CloseCycle(s).screen == s.screen
  {
    hide Advances, DropBacks;
    Retargeted(player, s, s.(cycling := false));
    InvOf(player, s, s.(cycling := false));
    DropBacksKeeps(player, s.(cycling := false));
    AdvancesTwice(player, s, s.(cycling := false), CloseCycle(s));
  }

  lemma InvOf(player: Player, s: Ctl, t: Ctl)
    requires Shape(s) && Advances(player, s, t)
    ensures Inv(t)
  {}

  lemma PrepareFourKeeps(player: Player, grid: Grid, s: Ctl)
    requires Inv(s) && s.curStyle == Four
    ensures Advances(player, s, Prepare(player, grid, s))
  {
    hide Ledger, CloseBackPanes, OpenBackPanes, FC.NextFour;
    CloseBackPanesKeeps(s, 0);
    var u := CloseBackPanes(s, 0).(backFour := FC.NextFour(grid, s.curFour));
    OpenBackPanesKeeps(player, u, 0);
  }

  lemma ReplaceBack(player: Player, s: Ctl, camera: int)
    requires Inv(s) && s.curStyle == Single
    ensures var u := Close(s, BACK);
      Advances(player, s, (if camera != -1 then Open(player, u, BACK, camera) else u).(backSingle := camera))
  {
    hide Ledger, Close, Open, PanesMatch, PanesComplete, BacksComplete;
    Closing(s, BACK);
    var u := Close(s, BACK);
    if camera != -1 {
      Opening(player, u, BACK, camera);
      PanesUntouched(s, Open(player, u, BACK, camera).(backSingle := camera));
    } else {
      PanesUntouched(s, u.(backSingle := camera));
    }
  }

  lemma PrepareSingleKeeps(player: Player, grid: Grid, s: Ctl)
    requires Inv(s) && s.curStyle == Single
    ensures Advances(player, s, Prepare(player, grid, s))
  {
    hide Advances, CR.NextSingle;
    Retargeted(player, s, s);
    ReplaceBack(player, s, CR.NextSingle(grid, s.curSingle));
  }

  lemma CameraClickKeeps(player: Player, grid: Grid, s: Ctl, group: int, pos: int)
    requires Inv(s)
    ensures Advances(player, s, CameraClick(grid, s, group, pos))
  {
    hide Advances, DropBacks;
    if !s.warnFreshed && 0 <= group < GROUPS && 0 <= pos < POSITIONS {
      var u := if s.curStyle == Single || s.warnNum > 0 then s.(nextSingle := VideoAt(grid, group, pos))
               else s.(nextFour := FC.Page(grid, MergedGroup(grid, group)), nextSingle := -1);
      Retargeted(player, s, u);
      InvOf(player, s, u);
      if u.cycling {
        DropBacksKeeps(player, u);
        AdvancesTwice(player, s, u, DropBacks(u));
      }
    } else {
      Retargeted(player, s, s);
    }
  }

  lemma {:induction false} FirstInUseKeeps(s: Ctl, i: nat)
    requires Shape(s) && i <= 4
    ensures var t := FirstInUse(s, i);
      t == s.(nextFour := t.nextFour, nextSingle := t.nextSingle)
    decreases 4 - i
  {
    if i < 4 && s.curFour[i] == -1 {
      FirstInUseKeeps(s.(nextFour := s.nextFour[i := -1]), i + 1);
    }
  }

  lemma AlarmsChangedKeeps(player: Player, grid: Grid, s: Ctl, list: seq<int>, icons: Icons)
    requires Inv(s)
    ensures Advances(player, s, AlarmsChanged(grid, s, list, icons))
  {
    hide Advances, CloseCycle, PA.Assigned, PA.Freshed, FirstPage;
    var r := s.(warnFreshed := true, icons := icons, warnNum := |list|);
    Retargeted(player, s, r);
    InvOf(player, s, r);
    var t := AlarmsChanged(grid, s, list, icons);
    var u := if |list| > 0 && r.cycling then CloseCycle(r) else r;
    CloseCycleKeeps(player, r);
    Retargeted(player, r, r);
    InvOf(player, r, u);
    Retargeted(player, u, t);
    AdvancesTwice(player, r, u, t);
    AdvancesTwice(player, s, r, t);
  }

  lemma EnterMoniKeeps(player: Player, s: Ctl)
    requires Inv(s) && s.screen == Main
    ensures Advances(player, s, EnterMoni(s))
  {
    hide Ledger, Close, DropBackPanes, PanesMatch, PanesComplete, BacksComplete;
    if s.curStyle == Four {
      DropBackPanesKeeps(s, 0);
      DropBackPanesComplete(s);
      var v := DropBackPanes(s, 0);
      Closing(v.(curSingle := -1), SINGLE);
      PanesUntouched(v, EnterMoni(s));
    } else {
      Closing(s, BACK);
      PanesUntouched(s, EnterMoni(s));
    }
  }

  lemma DropBackPanesComplete(s: Ctl)
    requires Shape(s) && Owned(s) && Matching(s)
    ensures (PanesComplete(s) <==> PanesComplete(DropBackPanes(s, 0))) && BacksComplete(DropBackPanes(s, 0))
  {
    hide Ledger, Matching, DropBackPanes;
    DropBackPanesKeeps(s, 0);
  }

  lemma LeaveMoniKeeps(player: Player, s: Ctl)
    requires Inv(s) && s.screen == Moni
    ensures Advances(player, s, LeaveMoni(player, s))
  {
    hide Ledger, Open, PanesMatch, PanesComplete, BacksComplete;
    if s.curStyle == Four && s.nextSingle != -1 {
      Opening(player, s, SINGLE, s.nextSingle);
    }
    PanesUntouched(s, LeaveMoni(player, s));
  }

  /** What the screen guard is for: the back button of the monitor screen would lose a handle
      exactly if it came while a single picture is up over the four panes. */
  lemma LeaveMoniExactly(player: Player, s: Ctl)
    requires Shape(s) && Owned(s)
    ensures Owned(LeaveMoni(player, s)) <==>
      !(s.curStyle == Four && s.nextSingle != -1 && s.slots[SINGLE] != 0)
  {
    OverwritingLeaks(player, s, SINGLE, s.nextSingle);
  }

  lemma HideKeeps(player: Player, s: Ctl)
    requires Inv(s)
    ensures Advances(player, s, Hide(s))
  {
    hide Ledger, CloseAll;
    CloseAllKeeps(s, 0);
  }

  lemma StepKeeps(player: Player, grid: Grid, s: Ctl, e: Event)
    requires Inv(s) && Enabled(s, e)
    ensures Advances(player, s, Step(player, grid, s, e))
  {
    hide Advances, Tick, Prepare, AlarmsChanged, EnterMoni, LeaveMoni, Hide, CameraClick, CloseCycle;
    hide CR.NextSingle, FC.Page;
    match e
    case PlayTick => TickAdvances(player, s);
    case CycleTimer => Retargeted(player, s, CycleStep(grid, s));
    case PrepareTimer =>
      if s.curStyle == Four { PrepareFourKeeps(player, grid, s); } else { PrepareSingleKeeps(player, grid, s); }
    case CycleOnButton => Retargeted(player, s, CycleOn(s));
    case CycleOffButton => Retargeted(player, s, s); CloseCycleKeeps(player, s);
    case CameraButton(group, pos) => CameraClickKeeps(player, grid, s, group, pos);
    case SinglePictureButton => FirstInUseKeeps(s.(nextStyle := Single), 0); Retargeted(player, s, SingleButton(s));
    case FourPictureButton => Retargeted(player, s, FourButton(grid, s));
    case PaneClicked(pane, playing) => Retargeted(player, s, PaneClick(s, pane, playing));
    case PecuIcon(k) => Retargeted(player, s, IconClick(s, s.icons.pecus, k));
    case FireIcon(k) => Retargeted(player, s, IconClick(s, s.icons.fires, k));
    case DoorIcon(k) => Retargeted(player, s, IconClick(s, s.icons.doors, k));
    case ClipIcon(k) => Retargeted(player, s, IconClick(s, s.icons.clips, k));
    case AlarmTimer(list, icons) => AlarmsChangedKeeps(player, grid, s, list, icons);
    case MoniButton => EnterMoniKeeps(player, s);
    case MoniBackButton => LeaveMoniKeeps(player, s);
    case HideScreen => HideKeeps(player, s);
    case ShowScreen => ShowKeeps(player, s);
  }

  lemma TickAdvances(player: Player, s: Ctl)
    requires Inv(s) && s.screen == Main
    ensures Advances(player, s, Tick(player, s))
  {
    hide Advances, Tick;
    TickKeeps(player, s);
  }

  lemma ShowKeeps(player: Player, s: Ctl)
    requires Inv(s)
    ensures Advances(player, s, Show(s))
  {
    hide Ledger, Decodes, Serves;
  }

  // ----- Every run

  lemma InitialInv(grid: Grid)
    ensures Inv(Initial(grid)) && Complete(Initial(grid))
  {}

  lemma {:induction false} RunKeeps(player: Player, grid: Grid, events: seq<Event>)
    ensures var s := Run(player, grid, events);
      Inv(s) && (Succeeds(player, 0, s.attempts) ==> Complete(s))
  {
    InitialInv(grid);
    if events != [] {
      hide Inv, Complete, Step;
      var before := events[..|events| - 1];
      var e := events[|events| - 1];
      RunKeeps(player, grid, before);
      var s := Run(player, grid, before);
      if Enabled(s, e) {
        StepKeeps(player, grid, s, e);
      }
    }
  }

  /** Over every run of ticks and events, each handle ever created is either in exactly one of
      the ten slots or has been destroyed, exactly once. */
  lemma EveryHandleAccounted(player: Player, grid: Grid, events: seq<Event>)
    ensures var s := Run(player, grid, events);
      && (forall h :: h in s.media ==> (h in s.slots[..PARKED] <==> h !in s.destroyed))
      && (forall i, j :: 0 <= i < j < PARKED && s.slots[i] != 0 ==> s.slots[i] != s.slots[j])
      && (forall i, j :: 0 <= i < j < |s.destroyed| ==> s.destroyed[i] != s.destroyed[j])
      && (forall h :: h in s.slots[..PARKED] && h != 0 ==> h in s.media)
      && (forall h :: h in s.destroyed ==> h in s.media)
  {
    RunKeeps(player, grid, events);
    hide Run;
    var s := Run(player, grid, events);
    forall h | h in s.media
      ensures h in s.slots[..PARKED] <==> h !in s.destroyed
    {
      if h in s.slots {
        var k :| 0 <= k < SLOTS && s.slots[k] == h;
        assert s.slots[..PARKED][k] == h;
      }
    }
  }

  /** Over every run, at the next tick of the main screen the pictures come up as asked for, if
      the player has never refused a handle. */
  lemma EveryTickConverges(player: Player, grid: Grid, events: seq<Event>)
    ensures var s, t := Run(player, grid, events), Run(player, grid, events + [PlayTick]);
      s.screen == Main && Succeeds(player, 0, t.attempts) ==> AsAsked(s, t)
  {
    var s := Run(player, grid, events);
    assert (events + [PlayTick])[..|events + [PlayTick]| - 1] == events;
    if s.screen == Main {
      assert Run(player, grid, events + [PlayTick]) == Tick(player, s);
      RunKeeps(player, grid, events);
      hide Run, Tick, Complete, AsAsked;
      TickAdvances(player, s);
      if Succeeds(player, 0, Tick(player, s).attempts) {
        TickConverges(player, s);
      }
    }
  }

  lemma CloseCycleForm(s: Ctl)
    requires Inv(s)
    ensures var t := CloseCycle(s);
      t == s.(cycling := false, slots := t.slots, backFour := t.backFour, backSingle := -1, destroyed := t.destroyed)
  {
    hide Ledger, Close, DropBackPanes;
    var u := s.(cycling := false);
    assert Owned(u) && Matching(u);
    DropBackPanesKeeps(u, 0);
    Closing(DropBackPanes(u, 0), BACK);
  }

  lemma ManyAlarmsForm(grid: Grid, s: Ctl, list: seq<int>, icons: Icons)
    requires Inv(s) && |list| > 1
    ensures var r := AlarmsChanged(grid, s, list, icons);
      && r.attempts == s.attempts && r.curFour == s.curFour && r.curStyle == s.curStyle && r.screen == s.screen
      && r.nextFour == PA.Assigned(list, s.curFour)
      && r.nextStyle == (if s.curStyle == Single then Four else s.nextStyle)
      && r.nextSingle == (if s.curStyle == Single || PA.Freshed(list, s.curFour) then -1 else s.nextSingle)
  {
    hide PA.Assigned, PA.Freshed, CloseCycle, Ledger, Serves, Decodes;
    CloseCycleForm(s.(warnFreshed := true, icons := icons, warnNum := |list|));
  }

  /** Two things keep two or more alarms off the screen: a switch to the single style that no tick
      has carried out yet, and a single picture up over panes that these alarms do not change. */
  predicate PanesGiveWay(s: Ctl, list: seq<int>)
    requires Shape(s) && |list| > 1
  {
    && !(s.curStyle == Four && s.nextStyle == Single)
    && (s.curStyle == Single || s.nextSingle == -1 || PA.Freshed(list, s.curFour))
  }

  /** The next tick has the four panes on screen, no single picture over them, if and only if
      neither stands in the way. */
  lemma AlarmsBringPanes(player: Player, grid: Grid, s: Ctl, list: seq<int>, icons: Icons)
    requires Inv(s) && s.screen == Main && |list| > 1
    ensures var t := Tick(player, AlarmsChanged(grid, s, list, icons));
      t.curStyle == Four && t.curSingle == -1 <==> PanesGiveWay(s, list)
  {
    hide PA.Assigned, PA.Freshed, AlarmsChanged, Tick;
    ManyAlarmsForm(grid, s, list, icons);
    AlarmsChangedKeeps(player, grid, s, list, icons);
    TickKeeps(player, AlarmsChanged(grid, s, list, icons));
  }

  /** An enlarged pane stays up when the panes behind it show the alarms already. */
  lemma EnlargedStays(player: Player, grid: Grid, s: Ctl, list: seq<int>, icons: Icons)
    requires Inv(s) && s.screen == Main && AL.Distinct(list) && |list| > 1
    requires s.curStyle == s.nextStyle == Four && s.nextSingle != -1
    ensures Tick(player, AlarmsChanged(grid, s, list, icons)).curSingle
         == if PA.ShownAlready(list, s.curFour) then s.nextSingle else -1
  {
    hide PA.Assigned, PA.Freshed, PA.ShownAlready, AlarmsChanged, Tick;
    PA.FreshedExactly(list, s.curFour);
    ManyAlarmsForm(grid, s, list, icons);
    AlarmsChangedKeeps(player, grid, s, list, icons);
    TickKeeps(player, AlarmsChanged(grid, s, list, icons));
  }

  /** Only the four panes are up, none shows a camera that does not alarm, and the first alarm is on
      one of them. */
  ghost predicate AlarmsUp(t: Ctl, list: seq<int>)
    requires Shape(t) && |list| > 0
  {
    && t.curStyle == Four && t.curSingle == -1
    && (forall i :: 0 <= i < 4 && t.slots[i] != 0 ==> t.slots[i] in t.media && t.media[t.slots[i]] in list)
    && (list[0] != -1 ==> exists i :: 0 <= i < 4 && t.slots[i] != 0 && Holds(t, i, list[0]))
  }

  /** From the alarm to the picture: when two or more cameras alarm, the next tick shows them if and
      only if the panes give way. */
  lemma AlarmComesUp(player: Player, grid: Grid, s: Ctl, list: seq<int>, icons: Icons)
    requires Inv(s) && s.screen == Main && Complete(s) && AL.Distinct(list) && |list| > 1
    requires Succeeds(player, s.attempts, Tick(player, AlarmsChanged(grid, s, list, icons)).attempts)
    ensures AlarmsUp(Tick(player, AlarmsChanged(grid, s, list, icons)), list) <==> PanesGiveWay(s, list)
  {
    hide PA.Assigned, PA.Freshed, AlarmsChanged, Tick;
    var r := AlarmsChanged(grid, s, list, icons);
    AlarmsBringPanes(player, grid, s, list, icons);
    ManyAlarmsForm(grid, s, list, icons);
    AlarmsChangedKeeps(player, grid, s, list, icons);
    assert Succeeds(player, s.attempts, r.attempts);
    TickKeeps(player, r);
    TickConverges(player, r);
    if PanesGiveWay(s, list) {
      PA.AssignmentIsStable(list, s.curFour);
      var next := PA.Assigned(list, s.curFour);
      if list[0] != -1 {
        var i :| 0 <= i < 4 && next[i] == list[0];
        assert Holds(Tick(player, r), i, list[0]);
      }
    }
  }
}
