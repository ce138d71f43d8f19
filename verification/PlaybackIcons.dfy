/** The alarm icons: which camera each asks for, and the picture of a lone alarm, which is parked when it
    leaves the screen so that its icon brings it back without another create call. */
module PlaybackIcons {
  import opened CameraGrid
  import opened Playback
  import opened PlaybackOwnership
  import opened PlaybackRuns
  import opened PlaybackRefusals
  import opened PlaybackScreens
  import AL = Alarms

  // ----- Which camera an icon asks for: the icons stand in the order of their sources

  lemma FireIconAsksFor(player: Player, grid: Grid, s: Ctl, a: AL.AlarmState, m: AL.AlarmMap, k: nat)
    requires Shape(s) && !s.warnFreshed && AL.ValidAlarms(a) && AL.ValidMap(m) && s.icons == IconsOf(a, m)
    requires k < 6 && a.fire[k]
    ensures Step(player, grid, s, FireIcon(AL.SetBits(a.fire, k))) == s.(nextSingle := m.fire[k])
  {
    AL.FireIconsInOrder(a, m, 6);
    hide AL.SetBits, AL.AddIcons, AL.PecuIcons, AL.FireIcons;
  }

  lemma PecuIconAsksFor(player: Player, grid: Grid, s: Ctl, a: AL.AlarmState, m: AL.AlarmMap, k: nat)
    requires Shape(s) && !s.warnFreshed && AL.ValidAlarms(a) && AL.ValidMap(m) && s.icons == IconsOf(a, m)
    requires k < 24 && AL.OwnPecuIcon(a, m, k)
    ensures Step(player, grid, s, PecuIcon(AL.SetBits(AL.OwnPecuIcons(a, m), k))) == s.(nextSingle := m.pecu[k])
  {
    hide AL.SetBits, AL.OwnPecuIcon, AL.OwnPecuIcons, AL.AddIcons, AL.PecuIcons, AL.FireIcons;
    AL.PecuIconOf(a, m, k);
  }

  lemma DoorIconAsksFor(player: Player, grid: Grid, s: Ctl, a: AL.AlarmState, m: AL.AlarmMap, k: nat)
    requires Shape(s) && !s.warnFreshed && AL.ValidAlarms(a) && AL.ValidMap(m) && s.icons == IconsOf(a, m)
    requires k < 48 && AL.OwnIcon(a.door, m.door, k)
    ensures Step(player, grid, s, DoorIcon(AL.SetBits(AL.OwnIcons(a.door, m.door), k))) == s.(nextSingle := m.door[k])
  {
    hide AL.SetBits, AL.OwnIcon, AL.OwnIcons, AL.AddIcons, AL.PecuIcons, AL.FireIcons;
    AL.DoorIconOf(a.door, m.door, k);
  }

  lemma ClipIconAsksFor(player: Player, grid: Grid, s: Ctl, a: AL.AlarmState, m: AL.AlarmMap, k: nat)
    requires Shape(s) && !s.warnFreshed && AL.ValidAlarms(a) && AL.ValidMap(m) && s.icons == IconsOf(a, m)
    requires k < 48 && AL.OwnIcon(a.clip, m.door, k)
    ensures Step(player, grid, s, ClipIcon(AL.SetBits(AL.OwnIcons(a.clip, m.door), k))) == s.(nextSingle := m.door[k])
  {
    hide AL.SetBits, AL.OwnIcon, AL.OwnIcons, AL.AddIcons, AL.PecuIcons, AL.FireIcons;
    AL.DoorIconOf(a.clip, m.door, k);
  }

  // ----- When a camera is a lone alarm's

  lemma {:induction false} OneDoorIcon(bits: seq<bool>, cameras: seq<int>, v: int, n: nat)
    requires n <= |bits| <= |cameras| && 0 <= v <= AL.MAX_CAMERAS
    requires forall k :: 0 <= k < n && bits[k] ==> cameras[k] == v
    ensures AL.AddIcons(bits, cameras, n) == if AL.SetBits(bits, n) > 0 then [v] else []
  {
    if n > 0 {
      OneDoorIcon(bits, cameras, v, n - 1);
      AL.RememberedIs(AL.AddIcons(bits, cameras, n - 1), v);
    }
  }

  lemma {:induction false} OnePecuIcon(a: AL.AlarmState, m: AL.AlarmMap, v: int, n: nat)
    requires AL.ValidAlarms(a) && AL.ValidMap(m) && n <= 24 && v != -1
    requires forall k :: 0 <= k < n && a.pecu[k] ==> m.pecu[k] == v
    requires a.firstPecu == -1 || a.firstPecu == v
    ensures AL.PecuIcons(a, m, n).0 == if AL.SetBits(a.pecu, n) > 0 then [v] else []
    ensures AL.SetBits(a.pecu, n) > 0 <==> AL.PecusOf(a, m, v, n) > 0
  {
    if n > 0 {
      OnePecuIcon(a, m, v, n - 1);
      AL.FirstIconFlag(a, m, n - 1);
      AL.AddActiveKeeps(AL.Start(a), a.pecu, m.pecu, n - 1);
    }
  }

  lemma LoneAlarmOf(s: Ctl, v: int)
    requires s.warnNum == 1
    requires forall w :: w in s.icons.pecus || w in s.icons.fires || w in s.icons.doors || w in s.icons.clips ==> w == v
    ensures LoneAlarm(s) ==
      if |s.icons.doors| == 1 || |s.icons.clips| == 1 || |s.icons.pecus| == 1 || |s.icons.fires| == 1 then v else -1
  {
    var i := s.icons;
    assert |i.doors| == 1 ==> i.doors[0] in i.doors;
    assert |i.clips| == 1 ==> i.clips[0] in i.clips;
    assert |i.pecus| == 1 ==> i.pecus[0] in i.pecus;
    assert |i.fires| == 1 ==> i.fires[0] in i.fires;
  }

  lemma PecuIconsOfOne(a: AL.AlarmState, m: AL.AlarmMap, v: int)
    requires AL.ValidAlarms(a) && AL.ValidMap(m) && (a.firstPecu >= 0 ==> a.firstPecu == v)
    requires forall k :: 0 <= k < 24 && a.pecu[k] ==> m.pecu[k] == v
    ensures var icons := AL.PecuIcons(a, m, 24).0;
      (forall w :: w in icons ==> w == v) && (v != -1 ==> (|icons| == 1 <==> AL.SetBits(a.pecu, 24) > 0))
  {
    hide AL.PecuIcons, AL.SetBits;
    AL.PecuIconsCover(a, m, 24);
    if v != -1 {
      OnePecuIcon(a, m, v, 24);
    }
  }

  lemma DoorIconsOfOne(bits: seq<bool>, cameras: seq<int>, v: int)
    requires |bits| == |cameras| == 48 && AL.InRange(cameras) && -1 <= v <= AL.MAX_CAMERAS
    requires forall k :: 0 <= k < 48 && bits[k] ==> cameras[k] == v
    ensures var icons := AL.AddIcons(bits, cameras, 48);
      (forall w :: w in icons ==> w == v) && (v != -1 ==> (|icons| == 1 <==> AL.SetBits(bits, 48) > 0))
  {
    hide AL.AddIcons, AL.SetBits, AL.OwnIcons;
    AL.DoorIconsCover(bits, cameras, 48);
    if v != -1 {
      OneDoorIcon(bits, cameras, v, 48);
    }
  }

  lemma {:induction false} FireIconsOfOne(a: AL.AlarmState, m: AL.AlarmMap, v: int, n: nat)
    requires AL.ValidAlarms(a) && AL.ValidMap(m) && n <= 6
    requires forall k :: 0 <= k < n && a.fire[k] ==> m.fire[k] == v
    ensures var icons := AL.FireIcons(a, m, n);
      (forall w :: w in icons ==> w == v) && |icons| == AL.SetBits(a.fire, n)
  {
    if n > 0 {
      FireIconsOfOne(a, m, v, n - 1);
    }
  }

  /** Every alarm is camera v's. */
  predicate OnlyCamera(a: AL.AlarmState, m: AL.AlarmMap, v: int)
    requires AL.ValidAlarms(a) && AL.ValidMap(m)
  {
    && -1 <= v <= AL.MAX_CAMERAS && (a.firstPecu >= 0 ==> a.firstPecu == v)
    && (forall k :: 0 <= k < 24 && a.pecu[k] ==> m.pecu[k] == v)
    && (forall k :: 0 <= k < 6 && a.fire[k] ==> m.fire[k] == v)
    && (forall k :: 0 <= k < 48 && (a.door[k] || a.clip[k]) ==> m.door[k] == v)
  }

  lemma OneCollected(a: AL.AlarmState, m: AL.AlarmMap)
    requires AL.ValidAlarms(a) && AL.ValidMap(m) && |AL.Collected(a, m)| == 1
    ensures OnlyCamera(a, m, AL.Collected(a, m)[0])
  {
    AL.CollectedIsExact(a, m);
    var list := AL.Collected(a, m);
    hide AL.Collected;
    forall w | AL.Alarming(a, m, w)
      ensures w == list[0]
    {
      assert w in list;
    }
    assert AL.Alarming(a, m, list[0]);
    forall k | 0 <= k < 24 && a.pecu[k] ensures m.pecu[k] == list[0] { assert AL.Alarming(a, m, m.pecu[k]); }
    forall k | 0 <= k < 6 && a.fire[k] ensures m.fire[k] == list[0] { assert AL.Alarming(a, m, m.fire[k]); }
    forall k | 0 <= k < 48 && (a.door[k] || a.clip[k]) ensures m.door[k] == list[0] {
      assert AL.Alarming(a, m, m.door[k]);
    }
  }

  lemma AlarmsForm(grid: Grid, s: Ctl, list: seq<int>, icons: Icons)
    requires Shape(s)
    ensures var t := AlarmsChanged(grid, s, list, icons); t.warnNum == |list| && t.icons == icons
  {
    var r := s.(warnFreshed := true, icons := icons, warnNum := |list|, cycling := false);
    hide Close;
    DropPanesOnly(r, 0);
    CloseOnly(DropBackPanes(r, 0), BACK);
    hide DropBackPanes;
  }

  /** The alarms of one camera. It is taken for a lone alarm's, once they are known, if and only if a PECU
      unit, a door or a jam is among them or exactly one smoke detector is. */
  lemma LoneAlarmExactly(grid: Grid, s: Ctl, a: AL.AlarmState, m: AL.AlarmMap)
    requires Shape(s) && AL.ValidAlarms(a) && AL.ValidMap(m) && |AL.Collected(a, m)| == 1
    ensures var camera := AL.Collected(a, m)[0];
      LoneAlarm(AlarmsChanged(grid, s, AL.Collected(a, m), IconsOf(a, m))) ==
        if AL.SetBits(a.pecu, 24) > 0 || AL.SetBits(a.door, 48) > 0 || AL.SetBits(a.clip, 48) > 0
           || AL.SetBits(a.fire, 6) == 1 then camera else -1
  {
    var v := AL.Collected(a, m)[0];
    OneCollected(a, m);
    AlarmsForm(grid, s, AL.Collected(a, m), IconsOf(a, m));
    hide AL.Collected, AL.AddIcons, AL.PecuIcons, AL.FireIcons, AL.SetBits, AlarmsChanged, LoneAlarm;
    PecuIconsOfOne(a, m, v);
    FireIconsOfOne(a, m, v, 6);
    DoorIconsOfOne(a.door, m.door, v);
    DoorIconsOfOne(a.clip, m.door, v);
    LoneAlarmOf(AlarmsChanged(grid, s, AL.Collected(a, m), IconsOf(a, m)), v);
  }

  /** A single picture is on screen and another, or none, is asked for. */
  predicate Leaving(s: Ctl) {
    && Inv(s) && s.screen == Main && s.curStyle == s.nextStyle == Single
    && s.slots[SINGLE] != 0 && s.nextSingle != s.curSingle
  }

  lemma SwitchParks(player: Player, s: Ctl)
    requires Shape(s) && s.slots[SINGLE] != 0 && s.slots[SINGLE] != s.slots[BACK] && s.slots[PARKED] == 0
    requires s.slots[SINGLE] !in s.destroyed && s.nextSingle != s.curSingle
    ensures var t := SingleStyle(player, s);
      var h := s.slots[SINGLE];
      && (LoneAlarm(s) == s.curSingle ==> t.slots[BACK] == h && t.backSingle == s.curSingle && h !in t.destroyed)
      && (LoneAlarm(s) != s.curSingle ==> h in t.destroyed)
  {
    hide LoneAlarm;
    var u := PutAway(s);
    assert LoneAlarm(s) != s.curSingle ==> s.slots[SINGLE] in s.destroyed + [s.slots[SINGLE]];
    var v := BringUp(player, u);
    assert v.destroyed == u.destroyed && v.slots[PARKED] == u.slots[PARKED];
  }

  /** At the tick that takes it off the screen the picture's handle goes to the back slot if its
      camera is the lone alarm's, and is destroyed otherwise. */
  lemma LoneAlarmIsParked(player: Player, s: Ctl)
    requires Leaving(s)
    ensures var t := Tick(player, s);
      var h := s.slots[SINGLE];
      if LoneAlarm(s) == s.curSingle then t.slots[BACK] == h && t.backSingle == s.curSingle && h !in t.destroyed
      else h in t.destroyed
  {
    SwitchParks(player, s);
    hide SingleStyle, LoneAlarm;
  }

  lemma ParkedForm(player: Player, s: Ctl)
    requires Leaving(s)
    ensures var t := Tick(player, s);
      && Inv(t) && t.screen == Main && !t.warnFreshed && t.curStyle == t.nextStyle == Single
      && t.curSingle == t.nextSingle == s.nextSingle && t.warnNum == s.warnNum && t.icons == s.icons
  {
    TickKeeps(player, s);
    SingleStyleKeeps(player, s);
    hide SingleStyle, Owned, Matching, AtRest, LoneAlarm;
  }

  /** The alarm's icon then brings back that very handle, with no create call, and the picture that was up in
      between is closed. */
  lemma IconSwitchesBack(player: Player, s: Ctl, cameras: seq<int>, k: int)
    requires Leaving(s) && LoneAlarm(s) == s.curSingle != -1
    requires 0 <= k < |cameras| && cameras[k] == s.curSingle
    ensures var t := Tick(player, s);
      var u := Tick(player, IconClick(t, cameras, k));
      && u.slots[SINGLE] == s.slots[SINGLE] && u.curSingle == s.curSingle && Holds(u, SINGLE, s.curSingle)
      && u.attempts == t.attempts
      && (t.slots[SINGLE] != 0 ==> t.slots[SINGLE] in u.destroyed)
  {
    LoneAlarmIsParked(player, s);
    ParkedForm(player, s);
    hide Tick, Inv;
    BackComesUp(player, Tick(player, s));
  }

  /** The picture in the background is asked for, and the one on screen is not a lone alarm's. */
  lemma BackComesUp(player: Player, t: Ctl)
    requires Inv(t) && t.screen == Main && t.curStyle == t.nextStyle == Single
    requires t.backSingle != -1 && t.curSingle != t.backSingle && LoneAlarm(t) != t.curSingle
    ensures var u := Tick(player, t.(nextSingle := t.backSingle));
      && u.slots[SINGLE] == t.slots[BACK] && u.curSingle == t.backSingle && Holds(u, SINGLE, t.backSingle)
      && u.attempts == t.attempts
      && (t.slots[SINGLE] != 0 ==> t.slots[SINGLE] in u.destroyed)
  {
    hide Tick, Owned, PanesMatch, AtRest, Complete, Succeeds, Decodes;
    var r := t.(nextSingle := t.backSingle);
    assert LoneAlarm(r) == LoneAlarm(t);
    Retargeted(player, t, r);
    InvOf(player, t, r);
    TickKeeps(player, r);
    InvOf(player, r, Tick(player, r));
    TickPictureAnswers(player, r);
    if t.slots[SINGLE] != 0 {
      LoneAlarmIsParked(player, r);
    }
  }
}
