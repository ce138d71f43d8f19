/** The callbacks of the terminal's main window that act on playback, on the globals they
    share. Every method is proved to take the state where its function in Playback.dfy says. */
module PlaybackController {
  import opened CameraGrid
  import AL = Alarms
  import CR = Carousel
  import FC = FourCarousel
  import PA = PaneAssignment
  import opened Playback

  class Controller {
    const player: Player
    const grid: Grid

    /** g_pHplay: the four panes and their back panes. */
    const hPlay: array<Handle>
    const curFour: array<int>
    const nextFour: array<int>
    const backFour: array<int>

    var hSinglePlay: Handle
    var hBackSinglePlay: Handle
    /** The local hTmp of SinglePlayStyle. */
    var hTmp: Handle
    var curSingle: int
    var nextSingle: int
    var backSingle: int
    var curStyle: Style
    var nextStyle: Style
    var cycling: bool
    var warnNum: int
    var warnFreshed: bool
    var icons: Icons
    var screen: Screen

    /** What the media player has been asked for. */
    var attempts: nat
    var media: map<Handle, int>
    var destroyed: seq<Handle>

    ghost predicate Valid()
      reads this
    {
      && hPlay.Length == 8 && curFour.Length == 4 && nextFour.Length == 4 && backFour.Length == 4
      && curFour != nextFour && curFour != backFour && nextFour != backFour
    }

    ghost function State(): (s: Ctl)
      requires Valid()
      reads this, hPlay, curFour, nextFour, backFour
      ensures Shape(s)
    {
      Ctl(hPlay[..] + [hSinglePlay, hBackSinglePlay, hTmp], curFour[..], nextFour[..], backFour[..],
          curSingle, nextSingle, backSingle, curStyle, nextStyle, cycling, warnNum, warnFreshed, icons, screen,
          attempts, media, destroyed)
    }

    /** The globals as they are initialised, with the first page asked for by SetUi. */
    constructor (player: Player, grid: Grid)
      ensures Valid() && State() == Initial(grid)
      ensures this.player == player && this.grid == grid
      ensures fresh(hPlay) && fresh(curFour) && fresh(nextFour) && fresh(backFour)
    {
      this.player := player;
      this.grid := grid;
      hPlay := new Handle[8](_ => 0);
      curFour := new int[4](_ => -1);
      nextFour := new int[4](_ => -1);
      backFour := new int[4](_ => -1);
      hSinglePlay, hBackSinglePlay, hTmp := 0, 0, 0;
      curSingle, nextSingle, backSingle := -1, -1, 0;
      curStyle, nextStyle := Four, Four;
      cycling, warnNum, warnFreshed := true, 0, false;
      icons := Icons([], [], [], []);
      screen := Main;
      attempts, media, destroyed := 0, map[], [];
      new;
      ShowFirstPage();
      assert curFour[..] == NONE && backFour[..] == NONE;
      assert State().slots == Initial(grid).slots;
    }

    // ----- The media player

    method DestroyMedia(h: Handle)
      requires Valid()
      modifies this`destroyed
      ensures destroyed == old(destroyed) + [h]
    {
      destroyed := destroyed + [h];
    }

    method CreateMedia(camera: int) returns (h: Handle)
      requires Valid()
      modifies this`attempts, this`media
      ensures attempts == old(attempts) + 1
      ensures h == if player(old(attempts)) then old(attempts) + 1 else 0
      ensures media == if player(old(attempts)) then old(media)[h := camera] else old(media)
    {
      h := 0;
      attempts := attempts + 1;
      if player(attempts - 1) {
        h := attempts;
        media := media[h := camera];
      }
    }

    // ----- One slot at a time

    method ClosePane(i: nat)
      requires Valid() && i < 8
      modifies hPlay, this`destroyed
      ensures Valid() && State() == Close(old(State()), i)
    {
      if hPlay[i] != 0 {
        DestroyMedia(hPlay[i]);
        hPlay[i] := 0;
      }
      assert State().slots == Close(old(State()), i).slots;
    }

    method OpenPane(i: nat, camera: int)
      requires Valid() && i < 8
      modifies hPlay, this`attempts, this`media
      ensures Valid() && State() == Open(player, old(State()), i, camera)
    {
      hPlay[i] := CreateMedia(camera);
      assert State().slots == Open(player, old(State()), i, camera).slots;
    }

    method CloseSingle()
      requires Valid()
      modifies this`hSinglePlay, this`destroyed
      ensures Valid() && State() == Close(old(State()), SINGLE)
    {
      if hSinglePlay != 0 {
        DestroyMedia(hSinglePlay);
        hSinglePlay := 0;
      }
      assert State().slots == Close(old(State()), SINGLE).slots;
    }

    method OpenSingle(camera: int)
      requires Valid()
      modifies this`hSinglePlay, this`attempts, this`media
      ensures Valid() && State() == Open(player, old(State()), SINGLE, camera)
    {
      hSinglePlay := CreateMedia(camera);
      assert State().slots == Open(player, old(State()), SINGLE, camera).slots;
    }

    method CloseBack()
      requires Valid()
      modifies this`hBackSinglePlay, this`destroyed
      ensures Valid() && State() == Close(old(State()), BACK)
    {
      if hBackSinglePlay != 0 {
        DestroyMedia(hBackSinglePlay);
        hBackSinglePlay := 0;
      }
      assert State().slots == Close(old(State()), BACK).slots;
    }

    method OpenBack(camera: int)
      requires Valid()
      modifies this`hBackSinglePlay, this`attempts, this`media
      ensures Valid() && State() == Open(player, old(State()), BACK, camera)
    {
      hBackSinglePlay := CreateMedia(camera);
      assert State().slots == Open(player, old(State()), BACK, camera).slots;
    }

    // ----- PlayStyleChanged

    method ResetPaneAt(i: nat)
      requires Valid() && i < 4
      modifies hPlay, curFour, backFour, this`destroyed
      ensures Valid() && State() == ResetPane(old(State()), i)
    {
      hide Close;
      ClosePane(i);
      ClosePane(i + 4);
      ghost var s := State();
      curFour[i] := -1;
      backFour[i] := -1;
      assert State().curFour == s.curFour[i := -1] && State().backFour == s.backFour[i := -1];
    }

    method OpenPaneAt(i: nat)
      requires Valid() && i < 4
      modifies hPlay, curFour, this`attempts, this`media
      ensures Valid() && State() == Playback.OpenPane(player, old(State()), i)
    {
      hide Open;
      if nextFour[i] != -1 {
        OpenPane(i, nextFour[i]);
      }
      ghost var s := State();
      curFour[i] := nextFour[i];
      assert State().curFour == s.curFour[i := s.nextFour[i]];
    }

    method LeavePaneAt(i: nat)
      requires Valid() && i < 4
      modifies hPlay, curFour, nextFour, backFour, this`destroyed
      ensures Valid() && State() == LeavePane(old(State()), i)
    {
      if hPlay[i] != 0 {
        ClosePane(i);
        curFour[i] := -1;
        assert State().curFour == old(State()).curFour[i := -1];
      }
      ghost var s := State();
      nextFour[i] := -1;
      assert State().nextFour == s.nextFour[i := -1];
      if hPlay[i + 4] != 0 {
        ClosePane(i + 4);
        backFour[i] := -1;
        assert State().backFour == s.backFour[i := -1];
      }
    }

    method ResetAllPanes()
      requires Valid()
      modifies hPlay, curFour, backFour, this`destroyed
      ensures Valid() && State() == ResetPanes(old(State()), 0)
    {
      hide ResetPane;
      for i := 0 to 4
        invariant Valid() && ResetPanes(State(), i) == ResetPanes(old(State()), 0)
      {
        ResetPaneAt(i);
      }
    }

    method OpenAllPanes()
      requires Valid()
      modifies hPlay, curFour, this`attempts, this`media
      ensures Valid() && State() == OpenPanes(player, old(State()), 0)
    {
      hide Playback.OpenPane;
      for i := 0 to 4
        invariant Valid() && OpenPanes(player, State(), i) == OpenPanes(player, old(State()), 0)
      {
        OpenPaneAt(i);
      }
    }

    method LeaveAllPanes()
      requires Valid()
      modifies hPlay, curFour, nextFour, backFour, this`destroyed
      ensures Valid() && State() == LeavePanes(old(State()), 0)
    {
      hide LeavePane;
      for i := 0 to 4
        invariant Valid() && LeavePanes(State(), i) == LeavePanes(old(State()), 0)
      {
        LeavePaneAt(i);
      }
    }

    method ChangeToFour()
      requires Valid()
      modifies this, hPlay, curFour, backFour
      ensures Valid() && State() == ToFourStyle(player, old(State()))
    {
      hide Close, ResetPanes, OpenPanes;
      CloseSingle();
      curSingle := -1;
      nextSingle := curSingle;
      CloseBack();
      backSingle := -1;
      ResetAllPanes();
      OpenAllPanes();
      curStyle := nextStyle;
    }

    method ChangeToSingle()
      requires Valid()
      modifies this, hPlay, curFour, nextFour, backFour
      ensures Valid() && State() == ToSingleStyle(player, old(State()))
    {
      hide Close, Open, LeavePanes;
      CloseBack();
      backSingle := -1;
      LeaveAllPanes();
      if curSingle != nextSingle {
        CloseSingle();
        OpenSingle(nextSingle);
      }
      curSingle := nextSingle;
      curStyle := nextStyle;
    }

    /** PlayStyleChanged. */
    method PlayStyleChanged()
      requires Valid()
      modifies this, hPlay, curFour, nextFour, backFour
      ensures Valid() && State() == StyleChanged(player, old(State()))
    {
      hide ToFourStyle, ToSingleStyle;
      if nextStyle == Four {
        ChangeToFour();
      } else {
        ChangeToSingle();
      }
    }

    // ----- FourPlayStyle

    method CloseChangedPaneAt(i: nat)
      requires Valid() && i < 4
      modifies hPlay, curFour, this`destroyed
      ensures Valid() && State() == CloseChangedPane(old(State()), i)
    {
      if curFour[i] != nextFour[i] {
        ClosePane(i);
        curFour[i] := -1;
        assert State().curFour == old(State()).curFour[i := -1];
      }
    }

    method CloseAllChanged()
      requires Valid()
      modifies hPlay, curFour, this`destroyed
      ensures Valid() && State() == CloseChanged(old(State()), 0)
    {
      hide CloseChangedPane;
      for i := 0 to 4
        invariant Valid() && CloseChanged(State(), i) == CloseChanged(old(State()), 0)
      {
        CloseChangedPaneAt(i);
      }
    }

    /** The search of FourPlayStyle for a back pane with the camera. */
    method FindBack(camera: int) returns (j: int)
      requires Valid()
      ensures j == PA.IndexOf(State().backFour, camera, 0)
    {
      for k := 0 to 4
        invariant PA.IndexOf(State().backFour, camera, k) == PA.IndexOf(State().backFour, camera, 0)
      {
        if backFour[k] == camera {
          return k;
        }
      }
      return -1;
    }

    /** The body of the second loop for a pane whose camera has changed. */
    method TakeBackOrOpen(i: nat)
      requires Valid() && i < 4
      modifies hPlay, backFour, this`attempts, this`media
      ensures Valid() && State() == OpenOrTakeBack(player, old(State()), i)
    {
      hide PA.IndexOf;
      var j := FindBack(nextFour[i]);
      if j != -1 && hPlay[j + 4] != 0 {
        hPlay[i] := hPlay[j + 4];
        hPlay[j + 4] := 0;
        backFour[j] := -1;
        assert State().backFour == old(State()).backFour[j := -1];
        assert State().slots == Move(old(State()), j + 4, i).slots;
      } else {
        OpenPane(i, nextFour[i]);
      }
    }

    method OpenChangedPaneAt(i: nat)
      requires Valid() && i < 4
      modifies hPlay, curFour, backFour, this`attempts, this`media
      ensures Valid() && State() == OpenChangedPane(player, old(State()), i)
    {
      hide OpenOrTakeBack;
      if curFour[i] != nextFour[i] {
        if nextFour[i] != -1 {
          TakeBackOrOpen(i);
        }
        ghost var s := State();
        curFour[i] := nextFour[i];
        assert State().curFour == s.curFour[i := s.nextFour[i]];
      }
    }

    /** The two loops over the panes, which FourPlayStyle has twice. */
    method SyncAllPanes()
      requires Valid()
      modifies hPlay, curFour, backFour, this`attempts, this`media, this`destroyed
      ensures Valid() && State() == SyncPanes(player, old(State()))
    {
      hide OpenChangedPane, CloseChanged;
      CloseAllChanged();
      ghost var s := State();
      for i := 0 to 4
        invariant Valid() && OpenChanged(player, State(), i) == OpenChanged(player, s, 0)
      {
        OpenChangedPaneAt(i);
      }
    }

    /** FourPlayStyle. */
    method FourPlayStyle()
      requires Valid()
      modifies this, hPlay, curFour, backFour
      ensures Valid() && State() == FourStyle(player, old(State()))
    {
      hide Close, Open, SyncPanes;
      if nextSingle != curSingle {
        CloseSingle();
        if nextSingle != -1 {
          OpenSingle(nextSingle);
        } else {
          SyncAllPanes();
        }
        curSingle := nextSingle;
      } else if -1 == curSingle {
        SyncAllPanes();
      }
    }

    // ----- SinglePlayStyle

    /** The camera of a lone alarm, by the icons on screen. */
    method FindLoneAlarm() returns (camera: int)
      requires Valid()
      ensures camera == LoneAlarm(State())
    {
      camera := -1;
      if warnNum == 1 {
        if |icons.doors| == 1 {
          camera := icons.doors[0];
        } else if |icons.clips| == 1 {
          camera := icons.clips[0];
        } else if |icons.pecus| == 1 {
          camera := icons.pecus[0];
        } else if |icons.fires| == 1 {
          camera := icons.fires[0];
        }
      }
    }

    method ParkOrClose(warnCamera: int)
      requires Valid() && warnCamera == LoneAlarm(State())
      modifies this`hSinglePlay, this`hTmp, this`destroyed
      ensures Valid() && State() == PutAway(old(State()))
    {
      if hSinglePlay != 0 {
        if warnCamera != curSingle {
          CloseSingle();
        } else {
          hTmp := hSinglePlay;
          hSinglePlay := 0;
          assert State().slots == Move(old(State()), SINGLE, PARKED).slots;
        }
      }
    }

    method TakeBackOrOpenSingle()
      requires Valid()
      modifies this`hSinglePlay, this`hBackSinglePlay, this`backSingle, this`attempts, this`media
      ensures Valid() && State() == BringUp(player, old(State()))
    {
      if -1 != nextSingle {
        if nextSingle == backSingle {
          hSinglePlay := hBackSinglePlay;
          hBackSinglePlay := 0;
          backSingle := -1;
          assert State().slots == Move(old(State()), BACK, SINGLE).slots;
        } else {
          OpenSingle(nextSingle);
        }
      }
    }

    method ParkedToBack(camera: int)
      requires Valid()
      modifies this`hTmp, this`hBackSinglePlay, this`backSingle, this`destroyed
      ensures Valid() && State() == KeepParked(old(State()), camera)
    {
      if hTmp != hBackSinglePlay && hTmp != 0 {
        CloseBack();
        ghost var s := State();
        hBackSinglePlay := hTmp;
        hTmp := 0;
        backSingle := camera;
        assert State().slots == Move(s, PARKED, BACK).slots;
      }
    }

    method SwitchSingle(warnCamera: int, parkedCamera: int)
      requires Valid() && warnCamera == LoneAlarm(State())
      modifies this
      ensures Valid() && State() == KeepParked(BringUp(player, PutAway(old(State()))), parkedCamera)
    {
      hide PutAway, BringUp, KeepParked, LoneAlarm;
      ParkOrClose(warnCamera);
      TakeBackOrOpenSingle();
      ParkedToBack(parkedCamera);
    }

    /** SinglePlayStyle. */
    method SinglePlayStyle()
      requires Valid()
      modifies this
      ensures Valid() && State() == SingleStyle(player, old(State()))
    {
      hide PutAway, BringUp, KeepParked, LoneAlarm;
      if nextSingle != curSingle {
        var warnCamera := FindLoneAlarm();
        var parkedCamera := if hSinglePlay != 0 && warnCamera == curSingle then curSingle else -1;
        SwitchSingle(warnCamera, parkedCamera);
        curSingle := nextSingle;
      }
    }

    /** PlayCtrlFun. */
    method PlayCtrlFun()
      requires Valid()
      modifies this, hPlay, curFour, nextFour, backFour
      ensures Valid() && State() == Tick(player, old(State()))
    {
      hide StyleChanged, FourStyle, SingleStyle;
      if curStyle != nextStyle {
        PlayStyleChanged();
      }
      if curStyle == Four {
        FourPlayStyle();
      } else {
        SinglePlayStyle();
      }
      warnFreshed := false;
    }

    // ----- The other callbacks

    method DropBackPanesOf()
      requires Valid()
      modifies hPlay, backFour, this`destroyed
      ensures Valid() && State() == DropBackPanes(old(State()), 0)
    {
      for i := 0 to 4
        invariant Valid() && DropBackPanes(State(), i) == DropBackPanes(old(State()), 0)
      {
        ghost var s := State();
        ClosePane(i + 4);
        backFour[i] := -1;
        assert State() == DropBackPane(s, i) by {
          hide Close;
          assert State().backFour == s.backFour[i := -1];
        }
      }
    }

    method DropBoth()
      requires Valid()
      modifies hPlay, backFour, this`hBackSinglePlay, this`backSingle, this`destroyed
      ensures Valid() && State() == DropBacks(old(State()))
    {
      hide Close, DropBackPanes;
      DropBackPanesOf();
      CloseBack();
      backSingle := -1;
    }

    /** CloseVideoCyc. */
    method CloseVideoCyc()
      requires Valid()
      modifies this, hPlay, backFour
      ensures Valid() && State() == CloseCycle(old(State()))
    {
      hide DropBacks;
      cycling := false;
      DropBoth();
    }

    /** CycleBtnClicked: start tells which of the two buttons it was. */
    method CycleBtnClicked(start: bool)
      requires Valid()
      modifies this, hPlay, backFour
      ensures Valid() && State() == if start then CycleOn(old(State())) else CycleOff(old(State()))
    {
      hide CloseCycle;
      if warnNum > 0 {
        return;
      }
      if start && !cycling {
        cycling := true;
        if curStyle == Four {
          nextSingle := -1;
        }
      } else if !start && cycling {
        CloseVideoCyc();
      }
    }

    /** GetBackVideoTimer. */
    method GetBackVideoTimer()
      requires Valid() && OnGrid(grid)
      modifies this, nextFour
      ensures Valid() && State() == CycleStep(grid, old(State()))
    {
      hide FC.NextFour, CR.NextSingle;
      if curStyle == Four {
        nextSingle := -1;
        FC.GetNextFourVideo(grid, curFour, nextFour);
      } else {
        nextSingle := CR.GetNextSingleVideo(grid, curSingle);
      }
    }

    method PrepareFour()
      requires Valid() && curStyle == Four
      modifies this, hPlay, backFour
      ensures Valid() && State() == Prepare(player, grid, old(State()))
    {
      hide Close, FC.NextFour;
      for i := 0 to 4
        invariant Valid() && CloseBackPanes(State(), i) == CloseBackPanes(old(State()), 0)
        invariant curFour[..] == old(curFour[..])
      {
        ClosePane(i + 4);
      }
      FC.GetNextFourVideo(grid, curFour, backFour);
      ghost var s := State();
      hide Open;
      for i := 0 to 4
        invariant Valid() && OpenBackPanes(player, State(), i) == OpenBackPanes(player, s, 0)
      {
        if -1 != backFour[i] {
          OpenPane(i + 4, backFour[i]);
        }
      }
    }

    /** CycControlTimer. */
    method CycControlTimer()
      requires Valid() && OnGrid(grid)
      modifies this, hPlay, backFour
      ensures Valid() && State() == Prepare(player, grid, old(State()))
    {
      hide Close, Open, FC.NextFour, CR.NextSingle, CloseBackPanes, OpenBackPanes;
      if curStyle == Four {
        PrepareFour();
      } else {
        var next := CR.GetNextSingleVideo(grid, curSingle);
        if next != backSingle {
          CloseBack();
          if -1 != next {
            OpenBack(next);
          }
          backSingle := next;
        }
      }
    }

    /** CameBtnClicked. */
    method CameBtnClicked(group: int, pos: int)
      requires Valid()
      modifies this, hPlay, nextFour, backFour
      ensures Valid() && State() == CameraClick(grid, old(State()), group, pos)
    {
      hide DropBacks, FC.Page;
      if warnFreshed || !(0 <= group < GROUPS && 0 <= pos < POSITIONS) {
        return;
      }
      var camera := GetVideoIdxAccordBtnPose(grid, group, pos);
      if curStyle == Single || warnNum > 0 {
        nextSingle := camera;
      } else {
        FC.FillPage(grid, if group == 7 && |grid| <= 28 then 0 else group, nextFour);
        nextSingle := -1;
      }
      if cycling {
        DropBoth();
      }
    }

    method FindFirstInUse()
      requires Valid()
      modifies this`nextSingle, nextFour
      ensures Valid() && State() == FirstInUse(old(State()), 0)
    {
      for i := 0 to 4
        invariant Valid() && FirstInUse(State(), i) == FirstInUse(old(State()), 0)
      {
        if curFour[i] != -1 {
          nextSingle := curFour[i];
          return;
        }
        ghost var s := State();
        nextFour[i] := -1;
        assert State().nextFour == s.nextFour[i := -1];
      }
    }

    /** SVPlayBtnClicked. */
    method SVPlayBtnClicked()
      requires Valid()
      modifies this, nextFour
      ensures Valid() && State() == SingleButton(old(State()))
    {
      hide FirstInUse;
      if warnNum > 0 || curStyle == Single {
        return;
      }
      nextStyle := Single;
      if curSingle != -1 {
        nextSingle := curSingle;
      } else {
        FindFirstInUse();
      }
      if -1 == nextSingle {
        nextSingle := 0;
      }
    }

    /** MVPlayBtnClicked. */
    method MVPlayBtnClicked()
      requires Valid()
      modifies this, nextFour
      ensures Valid() && State() == FourButton(grid, old(State()))
    {
      hide FC.Page;
      if warnNum > 0 || curStyle == Four {
        return;
      }
      nextStyle := Four;
      var group := -1;
      if -1 != curSingle {
        var g, p := GetBtnPoseAccordVideoIdx(grid, curSingle);
        group := g;
      }
      if group < 0 || (7 == group && |grid| <= 28) {
        group := 0;
      }
      FC.FillPage(grid, group, nextFour);
      nextSingle := -1;
    }

    /** PlayWidClicked, the second of two clicks within 0.6 s. */
    method PlayWidClicked(pane: int, playing: bool)
      requires Valid()
      modifies this
      ensures Valid() && State() == PaneClick(old(State()), pane, playing)
    {
      if !warnFreshed && curStyle == Four {
        if -1 != curSingle {
          nextSingle := -1;
        } else if 0 <= pane < 4 {
          if hPlay[pane] != 0 && playing {
            nextSingle := curFour[pane];
          }
        }
      }
    }

    /** UpdateWarnInfoTimer once the alarms have changed and been collected. */
    method UpdateWarnInfo(list: array<int>, num: nat, collected: Icons)
      requires Valid() && num <= list.Length
      requires list != curFour && list != nextFour && list != backFour
      modifies this, hPlay, nextFour, backFour, list
      ensures Valid() && State() == AlarmsChanged(grid, old(State()), old(list[..num]), collected)
    {
      hide CloseCycle, Playback.NoAlarm, Playback.OneAlarm, Playback.ShowAlarms;
      warnFreshed := true;
      icons := collected;
      warnNum := num;
      if num > 0 && cycling {
        CloseVideoCyc();
      }
      if num > 1 {
        ShowAlarms(list, num);
      } else if num == 1 {
        OneAlarm(list[0]);
      } else {
        NoAlarm();
      }
    }

    /** UpdateWarnInfoTimer for alarms that have changed: collected, then assigned. */
    method UpdateWarnInfoTimer(alarms: AL.AlarmState, m: AL.AlarmMap)
      requires Valid() && AL.ValidAlarms(alarms) && AL.ValidMap(m)
      modifies this, hPlay, nextFour, backFour
      ensures Valid() && State() == AlarmsChanged(grid, old(State()), AL.Collected(alarms, m), IconsOf(alarms, m))
    {
      hide AL.Collected, AlarmsChanged;
      var list, num, pecus, fires, doors, clips := AL.Collect(alarms, m);
      UpdateWarnInfo(list, num, Icons(pecus, fires, doors, clips));
    }

    method OneAlarm(camera: int)
      requires Valid()
      modifies this`nextStyle, this`nextSingle
      ensures Valid() && State() == Playback.OneAlarm(old(State()), camera)
    {
      if curStyle == Four {
        nextStyle := Single;
      }
      nextSingle := camera;
    }

    method NoAlarm()
      requires Valid()
      modifies this`nextSingle, nextFour
      ensures Valid() && State() == Playback.NoAlarm(grid, old(State()))
    {
      hide FirstPage;
      if curStyle == Single {
        if -1 == curSingle {
          nextSingle := 0;
        }
      } else {
        ShowFirstPage();
        nextSingle := -1;
      }
    }

    method ShowAlarms(list: array<int>, num: nat)
      requires Valid() && 1 < num <= list.Length
      requires list != curFour && list != nextFour && list != backFour
      modifies this`nextStyle, this`nextSingle, nextFour, list
      ensures Valid() && State() == Playback.ShowAlarms(old(State()), old(list[..num]))
    {
      hide PA.Assigned, PA.Freshed;
      if curStyle == Single {
        nextStyle := Four;
        nextSingle := -1;
      }
      var freshed := PA.Assign(list, num, curFour, nextFour);
      if freshed {
        nextSingle := -1;
      }
    }

    method ShowFirstPage()
      requires Valid()
      modifies nextFour
      ensures nextFour[..] == FirstPage(grid)
    {
      hide VideoAt;
      for i := 0 to 4
        invariant forall k :: 0 <= k < i ==> nextFour[k] == VideoAt(grid, 1, k)
      {
        nextFour[i] := GetVideoIdxAccordBtnPose(grid, 1, i);
      }
    }

    /** MoniBtnClicked. */
    method MoniBtnClicked()
      requires Valid()
      modifies this, hPlay, backFour
      ensures Valid() && State() == EnterMoni(old(State()))
    {
      hide Close, DropBackPanes;
      if curStyle == Four {
        DropBackPanesOf();
        if hSinglePlay != 0 {
          curSingle := -1;
          CloseSingle();
        }
      } else {
        CloseBack();
        backSingle := -1;
      }
      screen := Moni;
    }

    /** MoniSysBackBtnClicked. */
    method MoniSysBackBtnClicked()
      requires Valid()
      modifies this
      ensures Valid() && State() == LeaveMoni(player, old(State()))
    {
      hide Open;
      if curStyle == Four {
        if -1 != nextSingle {
          OpenSingle(nextSingle);
        }
        curSingle := nextSingle;
      }
      screen := Main;
    }

    method CloseEverything()
      requires Valid()
      modifies hPlay, this`hSinglePlay, this`hBackSinglePlay, this`destroyed
      ensures Valid() && State() == CloseAll(old(State()), 0)
    {
      hide Close;
      for i := 0 to 8
        invariant Valid() && CloseAll(State(), i) == CloseAll(old(State()), 0)
      {
        ClosePane(i);
      }
      CloseSingle();
      CloseBack();
    }

    static method Clear(indices: array<int>)
      requires indices.Length == 4
      modifies indices
      ensures indices[..] == NONE
    {
      indices[0] := -1;
      indices[1] := -1;
      indices[2] := -1;
      indices[3] := -1;
      assert indices[..] == NONE;
    }

    /** HideCCTVResp. */
    method HideCCTVResp()
      requires Valid()
      modifies this, hPlay, curFour, backFour
      ensures Valid() && State() == Hide(old(State()))
    {
      hide CloseAll, Close;
      CloseEverything();
      Clear(backFour);
      backSingle := -1;
      curSingle := -1;
      Clear(curFour);
      screen := Hidden;
    }
  }
}
