/** The playback controller as a state and a function for every callback that changes it.
    PlaybackController.dfy has the callbacks themselves; PlaybackOwnership.dfy and
    PlaybackRuns.dfy have what is proved about every run. */
module Playback {
  import opened CameraGrid
  import opened Carousel
  import opened FourCarousel
  import opened PaneAssignment
  import AL = Alarms

  /** A media handle; 0 is NULL. */
  type Handle = nat

  datatype Style = Four | Single
  datatype Screen = Main | Moni | Hidden

  /** The slots that hold handles: panes 0 to 3, their back panes 4 to 7, the single picture
      and its back, and the local variable of SinglePlayStyle. */
  const SLOTS: int := 11
  const SINGLE: int := 8
  const BACK: int := 9
  const PARKED: int := 10

  /** The globals of the controller. attempts counts the calls of CMP_CreateMedia, media is
      the camera every handle ever created decodes, and destroyed logs CMP_DestroyMedia. */
  datatype Ctl = Ctl(
    slots: seq<Handle>,
    curFour: seq<int>, nextFour: seq<int>, backFour: seq<int>,
    curSingle: int, nextSingle: int, backSingle: int,
    curStyle: Style, nextStyle: Style,
    cycling: bool, warnNum: int, warnFreshed: bool,
    icons: Icons,
    screen: Screen,
    attempts: nat, media: map<Handle, int>, destroyed: seq<Handle>)

  /** The cameras behind the alarm icons. */
  datatype Icons = Icons(pecus: seq<int>, fires: seq<int>, doors: seq<int>, clips: seq<int>)

  /** What the alarm scan collects for them. */
  function IconsOf(alarms: AL.AlarmState, m: AL.AlarmMap): Icons
    requires AL.ValidAlarms(alarms) && AL.ValidMap(m)
  {
    Icons(AL.PecuIcons(alarms, m, |alarms.pecu|).0, AL.FireIcons(alarms, m, |alarms.fire|),
          AL.DoorIcons(alarms, m), AL.ClipIcons(alarms, m))
  }

  /** Whether the n-th call of CMP_CreateMedia succeeds. */
  type Player = nat -> bool

  predicate Shape(s: Ctl) {
    |s.slots| == SLOTS && |s.curFour| == 4 && |s.nextFour| == 4 && |s.backFour| == 4
  }

  // ----- The three things that happen to handles

  /** CMP_CloseMedia and CMP_DestroyMedia, if there is a handle. */
  function Close(s: Ctl, i: nat): (t: Ctl)
    requires Shape(s) && i < SLOTS
    ensures Shape(t)
  {
    if s.slots[i] == 0 then s
    else s.(slots := s.slots[i := 0], destroyed := s.destroyed + [s.slots[i]])
  }

  /** CMP_CreateMedia and CMP_OpenMediaPreview: a handle not used before, or NULL. */
  function Open(player: Player, s: Ctl, i: nat, camera: int): (t: Ctl)
    requires Shape(s) && i < SLOTS
    ensures Shape(t)
  {
    var h := s.attempts + 1;
    if player(s.attempts) then s.(slots := s.slots[i := h], attempts := h, media := s.media[h := camera])
    else s.(slots := s.slots[i := 0], attempts := h)
  }

  function Move(s: Ctl, i: nat, j: nat): (t: Ctl)
    requires Shape(s) && i < SLOTS && j < SLOTS && i != j
    ensures Shape(t)
  {
    s.(slots := s.slots[j := s.slots[i]][i := 0])
  }

  // ----- PlayStyleChanged

  function ResetPane(s: Ctl, i: nat): (t: Ctl)
    requires Shape(s) && i < 4
    ensures Shape(t)
  {
    var u := Close(Close(s, i), i + 4);
    u.(curFour := u.curFour[i := -1], backFour := u.backFour[i := -1])
  }

  function ResetPanes(s: Ctl, i: nat): (t: Ctl)
    requires Shape(s) && i <= 4
    ensures Shape(t)
    decreases 4 - i
  {
    if i == 4 then s else ResetPanes(ResetPane(s, i), i + 1)
  }

  function OpenPane(player: Player, s: Ctl, i: nat): (t: Ctl)
    requires Shape(s) && i < 4
    ensures Shape(t)
  {
    var u := if s.nextFour[i] != -1 then Open(player, s, i, s.nextFour[i]) else s;
    u.(curFour := u.curFour[i := u.nextFour[i]])
  }

  function OpenPanes(player: Player, s: Ctl, i: nat): (t: Ctl)
    requires Shape(s) && i <= 4
    ensures Shape(t)
    decreases 4 - i
  {
    if i == 4 then s else OpenPanes(player, OpenPane(player, s, i), i + 1)
  }

  function LeavePane(s: Ctl, i: nat): (t: Ctl)
    requires Shape(s) && i < 4
    ensures Shape(t)
  {
    var u := if s.slots[i] != 0 then Close(s, i).(curFour := s.curFour[i := -1]) else s;
    var v := u.(nextFour := u.nextFour[i := -1]);
    if v.slots[i + 4] != 0 then Close(v, i + 4).(backFour := v.backFour[i := -1]) else v
  }

  function LeavePanes(s: Ctl, i: nat): (t: Ctl)
    requires Shape(s) && i <= 4
    ensures Shape(t)
    decreases 4 - i
  {
    if i == 4 then s else LeavePanes(LeavePane(s, i), i + 1)
  }

  function ToFourStyle(player: Player, s: Ctl): (t: Ctl)
    requires Shape(s)
    ensures Shape(t)
  {
    var u := Close(s, SINGLE).(curSingle := -1, nextSingle := -1);
    var v := Close(u, BACK).(backSingle := -1);
    var w := OpenPanes(player, ResetPanes(v, 0), 0);
    w.(curStyle := w.nextStyle)
  }

  function ToSingleStyle(player: Player, s: Ctl): (t: Ctl)
    requires Shape(s)
    ensures Shape(t)
  {
    var u := LeavePanes(Close(s, BACK).(backSingle := -1), 0);
    var v := if u.curSingle != u.nextSingle then Open(player, Close(u, SINGLE), SINGLE, u.nextSingle) else u;
    v.(curSingle := v.nextSingle, curStyle := v.nextStyle)
  }

  function StyleChanged(player: Player, s: Ctl): (t: Ctl)
    requires Shape(s)
    ensures Shape(t)
  {
    if s.nextStyle == Four then ToFourStyle(player, s) else ToSingleStyle(player, s)
  }

  // ----- FourPlayStyle

  function CloseChangedPane(s: Ctl, i: nat): (t: Ctl)
    requires Shape(s) && i < 4
    ensures Shape(t)
  {
    if s.curFour[i] != s.nextFour[i] then Close(s, i).(curFour := s.curFour[i := -1]) else s
  }

  function CloseChanged(s: Ctl, i: nat): (t: Ctl)
    requires Shape(s) && i <= 4
    ensures Shape(t)
    decreases 4 - i
  {
    if i == 4 then s else CloseChanged(CloseChangedPane(s, i), i + 1)
  }

  /** A pane takes over the handle of the back pane that already decodes its camera, and
      otherwise has one created. */
  function OpenOrTakeBack(player: Player, s: Ctl, i: nat): (t: Ctl)
    requires Shape(s) && i < 4
    ensures Shape(t)
  {
    var j := IndexOf(s.backFour, s.nextFour[i], 0);
    if j != -1 && s.slots[j + 4] != 0 then Move(s, j + 4, i).(backFour := s.backFour[j := -1])
    else Open(player, s, i, s.nextFour[i])
  }

  function OpenChangedPane(player: Player, s: Ctl, i: nat): (t: Ctl)
    requires Shape(s) && i < 4
    ensures Shape(t)
  {
    if s.curFour[i] == s.nextFour[i] then s
    else
      var u := if s.nextFour[i] != -1 then OpenOrTakeBack(player, s, i) else s;
      u.(curFour := u.curFour[i := u.nextFour[i]])
  }

  function OpenChanged(player: Player, s: Ctl, i: nat): (t: Ctl)
    requires Shape(s) && i <= 4
    ensures Shape(t)
    decreases 4 - i
  {
    if i == 4 then s else OpenChanged(player, OpenChangedPane(player, s, i), i + 1)
  }

  function SyncPanes(player: Player, s: Ctl): (t: Ctl)
    requires Shape(s)
    ensures Shape(t)
  {
    OpenChanged(player, CloseChanged(s, 0), 0)
  }

  function FourStyle(player: Player, s: Ctl): (t: Ctl)
    requires Shape(s)
    ensures Shape(t)
  {
    if s.nextSingle != s.curSingle then
      var u := Close(s, SINGLE);
      var v := if u.nextSingle != -1 then Open(player, u, SINGLE, u.nextSingle) else SyncPanes(player, u);
      v.(curSingle := v.nextSingle)
    else if s.curSingle == -1 then SyncPanes(player, s)
    else s
  }

  // ----- SinglePlayStyle

  /** The camera of a lone alarm: its handle is parked, not closed, when it leaves the screen. */
  function LoneAlarm(s: Ctl): int {
    if s.warnNum != 1 then -1
    else if |s.icons.doors| == 1 then s.icons.doors[0]
    else if |s.icons.clips| == 1 then s.icons.clips[0]
    else if |s.icons.pecus| == 1 then s.icons.pecus[0]
    else if |s.icons.fires| == 1 then s.icons.fires[0]
    else -1
  }

  /** The handle on screen is closed, or parked if it is the lone alarm's. */
  function PutAway(s: Ctl): (t: Ctl)
    requires Shape(s)
    ensures Shape(t)
  {
    if s.slots[SINGLE] == 0 then s
    else if LoneAlarm(s) != s.curSingle then Close(s, SINGLE)
    else Move(s, SINGLE, PARKED)
  }

  /** The handle prepared in the background is taken if it has the right camera. */
  function BringUp(player: Player, s: Ctl): (t: Ctl)
    requires Shape(s)
    ensures Shape(t)
  {
    if s.nextSingle == -1 then s
    else if s.nextSingle == s.backSingle then Move(s, BACK, SINGLE).(backSingle := -1)
    else Open(player, s, SINGLE, s.nextSingle)
  }

  /** A parked handle becomes the one in the background. */
  function KeepParked(s: Ctl, camera: int): (t: Ctl)
    requires Shape(s)
    ensures Shape(t)
  {
    if s.slots[PARKED] != s.slots[BACK] && s.slots[PARKED] != 0
    then Move(Close(s, BACK), PARKED, BACK).(backSingle := camera)
    else s
  }

  function SingleStyle(player: Player, s: Ctl): (t: Ctl)
    requires Shape(s)
    ensures Shape(t)
  {
    if s.nextSingle == s.curSingle then s
    else
      var parkedCamera := if s.slots[SINGLE] != 0 && LoneAlarm(s) == s.curSingle then s.curSingle else -1;
      var t := KeepParked(BringUp(player, PutAway(s)), parkedCamera);
      t.(curSingle := t.nextSingle)
  }

  /** PlayCtrlFun, the tick. */
  function Tick(player: Player, s: Ctl): (t: Ctl)
    requires Shape(s)
    ensures Shape(t)
  {
    var u := if s.curStyle != s.nextStyle then StyleChanged(player, s) else s;
    var v := if u.curStyle == Four then FourStyle(player, u) else SingleStyle(player, u);
    v.(warnFreshed := false)
  }

  // ----- The other callbacks

  function DropBackPane(s: Ctl, i: nat): (t: Ctl)
    requires Shape(s) && i < 4
    ensures Shape(t)
  {
    var u := Close(s, i + 4);
    u.(backFour := u.backFour[i := -1])
  }

  function DropBackPanes(s: Ctl, i: nat): (t: Ctl)
    requires Shape(s) && i <= 4
    ensures Shape(t)
    decreases 4 - i
  {
    if i == 4 then s else DropBackPanes(DropBackPane(s, i), i + 1)
  }

  function DropBacks(s: Ctl): (t: Ctl)
    requires Shape(s)
    ensures Shape(t)
  {
    Close(DropBackPanes(s, 0), BACK).(backSingle := -1)
  }

  /** CloseVideoCyc. */
  function CloseCycle(s: Ctl): (t: Ctl)
    requires Shape(s)
    ensures Shape(t)
  {
    DropBacks(s.(cycling := false))
  }

  /** CycleBtnClicked, the button that starts the cycle. */
  function CycleOn(s: Ctl): (t: Ctl)
    requires Shape(s)
    ensures Shape(t)
  {
    if s.warnNum > 0 || s.cycling then s
    else if s.curStyle == Four then s.(cycling := true, nextSingle := -1)
    else s.(cycling := true)
  }

  /** CycleBtnClicked, the button that stops it. */
  function CycleOff(s: Ctl): (t: Ctl)
    requires Shape(s)
    ensures Shape(t)
  {
    if s.warnNum > 0 || !s.cycling then s else CloseCycle(s)
  }

  /** GetBackVideoTimer. */
  function CycleStep(grid: Grid, s: Ctl): (t: Ctl)
    requires Shape(s)
    ensures Shape(t)
  {
    if s.curStyle == Four then s.(nextSingle := -1, nextFour := NextFour(grid, s.curFour))
    else s.(nextSingle := NextSingle(grid, s.curSingle))
  }

  function CloseBackPanes(s: Ctl, i: nat): (t: Ctl)
    requires Shape(s) && i <= 4
    ensures Shape(t)
    decreases 4 - i
  {
    if i == 4 then s else CloseBackPanes(Close(s, i + 4), i + 1)
  }

  function OpenBackPane(player: Player, s: Ctl, i: nat): (t: Ctl)
    requires Shape(s) && i < 4
    ensures Shape(t)
  {
    if s.backFour[i] != -1 then Open(player, s, i + 4, s.backFour[i]) else s
  }

  function OpenBackPanes(player: Player, s: Ctl, i: nat): (t: Ctl)
    requires Shape(s) && i <= 4
    ensures Shape(t)
    decreases 4 - i
  {
    if i == 4 then s else OpenBackPanes(player, OpenBackPane(player, s, i), i + 1)
  }

  /** CycControlTimer, which prepares the next pictures in the background. */
  function Prepare(player: Player, grid: Grid, s: Ctl): (t: Ctl)
    requires Shape(s)
    ensures Shape(t)
  {
    if s.curStyle == Four then
      OpenBackPanes(player, CloseBackPanes(s, 0).(backFour := NextFour(grid, s.curFour)), 0)
    else
      var next := NextSingle(grid, s.curSingle);
      if next == s.backSingle then s
      else
        var u := Close(s, BACK);
        (if next != -1 then Open(player, u, BACK, next) else u).(backSingle := next)
  }

  function MergedGroup(grid: Grid, group: int): int {
    if group == 7 && Merged(grid) then 0 else group
  }

  /** CameBtnClicked for the button at a place of the grid. */
  function CameraClick(grid: Grid, s: Ctl, group: int, pos: int): (t: Ctl)
    requires Shape(s)
    ensures Shape(t)
  {
    if s.warnFreshed || !(0 <= group < GROUPS && 0 <= pos < POSITIONS) then s
    else
      var u := if s.curStyle == Single || s.warnNum > 0 then s.(nextSingle := VideoAt(grid, group, pos))
               else s.(nextFour := Page(grid, MergedGroup(grid, group)), nextSingle := -1);
      if u.cycling then DropBacks(u) else u
  }

  /** The first pane in use, and the panes before it, are what SVPlayBtnClicked looks at. */
  function FirstInUse(s: Ctl, i: nat): (t: Ctl)
    requires Shape(s) && i <= 4
    ensures Shape(t)
    decreases 4 - i
  {
    if i == 4 then s
    else if s.curFour[i] != -1 then s.(nextSingle := s.curFour[i])
    else FirstInUse(s.(nextFour := s.nextFour[i := -1]), i + 1)
  }

  /** SVPlayBtnClicked. */
  function SingleButton(s: Ctl): (t: Ctl)
    requires Shape(s)
    ensures Shape(t)
  {
    if s.warnNum > 0 || s.curStyle == Single then s
    else
      var u := s.(nextStyle := Single);
      var v := if u.curSingle != -1 then u.(nextSingle := u.curSingle) else FirstInUse(u, 0);
      if v.nextSingle == -1 then v.(nextSingle := 0) else v
  }

  /** MVPlayBtnClicked. */
  function FourButton(grid: Grid, s: Ctl): (t: Ctl)
    requires Shape(s)
    ensures Shape(t)
  {
    if s.warnNum > 0 || s.curStyle == Four then s
    else
      var group := if s.curSingle != -1 then PlaceOf(grid, s.curSingle).group else -1;
      s.(nextStyle := Four, nextSingle := -1,
         nextFour := Page(grid, if group < 0 then 0 else MergedGroup(grid, group)))
  }

  /** PlayWidClicked twice on pane i; playing tells whether its stream has come up. */
  function PaneClick(s: Ctl, i: int, playing: bool): (t: Ctl)
    requires Shape(s)
    ensures Shape(t)
  {
    if s.warnFreshed || s.curStyle != Four then s
    else if s.curSingle != -1 then s.(nextSingle := -1)
    else if 0 <= i < 4 && s.slots[i] != 0 && playing then s.(nextSingle := s.curFour[i])
    else s
  }

  /** FireBtnClicked, DoorBtnClicked, DoorClipBtnClicked and PecuBtnClicked. */
  function IconClick(s: Ctl, cameras: seq<int>, k: int): (t: Ctl)
    requires Shape(s)
    ensures Shape(t)
  {
    if s.warnFreshed || !(0 <= k < |cameras|) then s else s.(nextSingle := cameras[k])
  }

  /** Group 1 of the grid, which is shown first. */
  function FirstPage(grid: Grid): (p: seq<int>)
    ensures |p| == 4
  {
    [VideoAt(grid, 1, 0), VideoAt(grid, 1, 1), VideoAt(grid, 1, 2), VideoAt(grid, 1, 3)]
  }

  /** The last alarm has gone. */
  function NoAlarm(grid: Grid, s: Ctl): (t: Ctl)
    requires Shape(s)
    ensures Shape(t)
  {
    if s.curStyle == Four then s.(nextSingle := -1, nextFour := FirstPage(grid))
    else if s.curSingle == -1 then s.(nextSingle := 0)
    else s
  }

  /** A lone alarm takes the single picture. */
  function OneAlarm(s: Ctl, camera: int): (t: Ctl)
    requires Shape(s)
    ensures Shape(t)
  {
    (if s.curStyle == Four then s.(nextStyle := Single) else s).(nextSingle := camera)
  }

  /** Two or more alarms go to the four panes. */
  function ShowAlarms(s: Ctl, list: seq<int>): (t: Ctl)
    requires Shape(s) && |list| > 1
    ensures Shape(t)
  {
    var v := if s.curStyle == Single then s.(nextStyle := Four, nextSingle := -1) else s;
    v.(nextFour := Assigned(list, v.curFour),
       nextSingle := if Freshed(list, v.curFour) then -1 else v.nextSingle)
  }

  /** UpdateWarnInfoTimer once the alarms have changed: list and icons are what was collected. */
  function AlarmsChanged(grid: Grid, s: Ctl, list: seq<int>, icons: Icons): (t: Ctl)
    requires Shape(s)
    ensures Shape(t)
  {
    var r := s.(warnFreshed := true, icons := icons, warnNum := |list|);
    var u := if |list| > 0 && r.cycling then CloseCycle(r) else r;
    if |list| == 0 then NoAlarm(grid, u)
    else if |list| == 1 then OneAlarm(u, list[0])
    else ShowAlarms(u, list)
  }

  /** The loop of MoniBtnClicked. */
  function EnterMoni(s: Ctl): (t: Ctl)
    requires Shape(s)
    ensures Shape(t)
  {
    var u := if s.curStyle == Four then
               var v := DropBackPanes(s, 0);
               if v.slots[SINGLE] != 0 then Close(v.(curSingle := -1), SINGLE) else v
             else Close(s, BACK).(backSingle := -1);
    u.(screen := Moni)
  }

  /** MoniSysBackBtnClicked. */
  function LeaveMoni(player: Player, s: Ctl): (t: Ctl)
    requires Shape(s)
    ensures Shape(t)
  {
    var u := if s.curStyle != Four then s
             else if s.nextSingle != -1 then Open(player, s, SINGLE, s.nextSingle).(curSingle := s.nextSingle)
             else s.(curSingle := s.nextSingle);
    u.(screen := Main)
  }

  function CloseAll(s: Ctl, i: nat): (t: Ctl)
    requires Shape(s) && i <= PARKED
    ensures Shape(t)
    decreases PARKED - i
  {
    if i == PARKED then s else CloseAll(Close(s, i), i + 1)
  }

  const NONE: seq<int> := [-1, -1, -1, -1]

  /** HideCCTVResp. */
  function Hide(s: Ctl): (t: Ctl)
    requires Shape(s)
    ensures Shape(t)
  {
    CloseAll(s, 0).(backFour := NONE, backSingle := -1, curSingle := -1, curFour := NONE, screen := Hidden)
  }

  /** ShowCCTVResp. */
  function Show(s: Ctl): (t: Ctl)
    requires Shape(s)
    ensures Shape(t)
  {
    s.(screen := Main)
  }

  /** The globals before the first callback, with page 1 of the grid to be shown. */
  function Initial(grid: Grid): (s: Ctl)
    ensures Shape(s)
  {
    Ctl([0, 0, 0, 0, 0, 0, 0, 0, 0, 0, 0], NONE,
        FirstPage(grid), NONE,
        -1, -1, 0, Four, Four, true, 0, false, Icons([], [], [], []), Main, 0, map[], [])
  }

  // ----- Runs

  datatype Event =
    | PlayTick
    | CycleTimer
    | PrepareTimer
    | CycleOnButton
    | CycleOffButton
    | CameraButton(group: int, pos: int)
    | SinglePictureButton
    | FourPictureButton
    | PaneClicked(pane: int, playing: bool)
    | PecuIcon(k: int)
    | FireIcon(k: int)
    | DoorIcon(k: int)
    | ClipIcon(k: int)
    | AlarmTimer(list: seq<int>, icons: Icons)
    | MoniButton
    | MoniBackButton
    | HideScreen
    | ShowScreen

  /** Which callbacks can come on which screen: the timers and buttons of the main screen
      only while it is up, the back button only on the monitor screen. */
  predicate Enabled(s: Ctl, e: Event) {
    match e
    case MoniBackButton => s.screen == Moni
    case HideScreen => true
    case ShowScreen => s.screen != Moni
    case _ => s.screen == Main
  }

  function Step(player: Player, grid: Grid, s: Ctl, e: Event): (t: Ctl)
    requires Shape(s)
    ensures Shape(t)
  {
    match e
    case PlayTick => Tick(player, s)
    case CycleTimer => CycleStep(grid, s)
    case PrepareTimer => Prepare(player, grid, s)
    case CycleOnButton => CycleOn(s)
    case CycleOffButton => CycleOff(s)
    case CameraButton(group, pos) => CameraClick(grid, s, group, pos)
    case SinglePictureButton => SingleButton(s)
    case FourPictureButton => FourButton(grid, s)
    case PaneClicked(pane, playing) => PaneClick(s, pane, playing)
    case PecuIcon(k) => IconClick(s, s.icons.pecus, k)
    case FireIcon(k) => IconClick(s, s.icons.fires, k)
    case DoorIcon(k) => IconClick(s, s.icons.doors, k)
    case ClipIcon(k) => IconClick(s, s.icons.clips, k)
    case AlarmTimer(list, icons) => AlarmsChanged(grid, s, list, icons)
    case MoniButton => EnterMoni(s)
    case MoniBackButton => LeaveMoni(player, s)
    case HideScreen => Hide(s)
    case ShowScreen => Show(s)
  }

  /** The state after the events; one that cannot come on the current screen is no event. */
  function Run(player: Player, grid: Grid, events: seq<Event>): (s: Ctl)
    ensures Shape(s)
  {
    if events == [] then Initial(grid)
    else
      var s := Run(player, grid, events[..|events| - 1]);
      var e := events[|events| - 1];
      if Enabled(s, e) then Step(player, grid, s, e) else s
  }
}
