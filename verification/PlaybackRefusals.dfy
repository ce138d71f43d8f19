/** What is on the screen when the media player refuses handles: every picture answers for its own
    create call only. */
module PlaybackRefusals {
  import opened CameraGrid
  import opened Playback
  import opened PlaybackOwnership
  import opened PlaybackRuns
  import PA = PaneAssignment

  /** The handle a create call gives: NULL if it is refused. */
  function Answer(player: Player, call: nat): (h: Handle)
    ensures h != 0 <==> player(call)
  {
    if player(call) then call + 1 else 0
  }

  /** Pane i showed the camera it is to show before the tick, and is left alone. */
  predicate Kept(s: Ctl, i: nat)
    requires Shape(s) && i < 4
  {
    s.curStyle == Four && s.curFour[i] == s.nextFour[i]
  }

  /** A back pane had a handle for the camera that pane i is to show, and pane i has it now. */
  predicate FromBack(s: Ctl, t: Ctl, i: nat)
    requires Shape(s) && Shape(t) && i < 4
  {
    s.curStyle == Four && exists j :: 0 <= j < 4 && s.backFour[j] == s.nextFour[i] && t.slots[i] == s.slots[j + 4] != 0
  }

  /** Where pane i has its handle from, on the way from s to t; own tells whether there is a create
      call of its own, and call which one. */
  predicate PaneAnswers(player: Player, s: Ctl, t: Ctl, i: nat, own: bool, call: nat)
    requires Shape(s) && Shape(t) && i < 4
  {
    if s.nextFour[i] == -1 then !own && t.slots[i] == 0
    else if Kept(s, i) then !own && t.slots[i] == s.slots[i]
    else if own then t.slots[i] == Answer(player, call)
    else FromBack(s, t, i)
  }

  /** The calls of panes i to k - 1. */
  function Calls(own: seq<bool>, i: nat, k: nat): nat
    requires i <= k <= |own|
    decreases k - i
  {
    if i == k then 0 else (if own[i] then 1 else 0) + Calls(own, i + 1, k)
  }

  /** The create calls from s to t are those of panes i to 3, one after the other, and each pane has
      what its own gave. */
  predicate PanesAnswer(player: Player, s: Ctl, t: Ctl, i: nat, own: seq<bool>)
    requires Shape(s) && Shape(t) && i <= 4
  {
    && |own| == 4 && t.attempts == s.attempts + Calls(own, i, 4)
    && forall k :: i <= k < 4 ==> PaneAnswers(player, s, t, k, own[k], s.attempts + Calls(own, i, k))
  }

  lemma SameCalls(a: seq<bool>, b: seq<bool>, i: nat, k: nat)
    requires |a| == |b| && i <= k <= |a| && forall l :: i <= l < k ==> a[l] == b[l]
    ensures Calls(a, i, k) == Calls(b, i, k)
    decreases k - i
  {}

  /** One pane, and then the others. */
  lemma PanesChain(player: Player, s: Ctl, u: Ctl, t: Ctl, i: nat, first: bool, rest: seq<bool>)
    requires Shape(s) && Shape(u) && Shape(t) && i < 4 && PanesAnswer(player, u, t, i + 1, rest)
    requires PaneAnswers(player, s, t, i, first, s.attempts)
    requires u.attempts == s.attempts + if first then 1 else 0
    requires forall k: nat, own, call :: i < k < 4 && PaneAnswers(player, u, t, k, own, call) ==>
      PaneAnswers(player, s, t, k, own, call)
    ensures PanesAnswer(player, s, t, i, rest[i := first])
  {
    hide PaneAnswers;
    var own, next := rest[i := first], i + 1;
    forall k | next <= k <= 4
      ensures Calls(own, next, k) == Calls(rest, next, k)
    {
      SameCalls(own, rest, next, k);
    }
  }

  // ----- The change to the four panes

  lemma OpenPaneAnswers(player: Player, s: Ctl, i: nat)
    requires Shape(s) && i < 4 && s.curStyle == Single && s.slots[i] == 0
    ensures var t := OpenPane(player, s, i);
      && PaneAnswers(player, s, t, i, s.nextFour[i] != -1, s.attempts)
      && t.attempts == s.attempts + (if s.nextFour[i] != -1 then 1 else 0)
      && t == s.(slots := s.slots[i := t.slots[i]], curFour := t.curFour, attempts := t.attempts, media := t.media)
  {}

  lemma {:induction false} OpenPanesAnswer(player: Player, s: Ctl, i: nat) returns (own: seq<bool>)
    requires Shape(s) && i <= 4 && s.curStyle == Single
    requires forall k :: i <= k < 4 ==> s.slots[k] == 0
    ensures var t := OpenPanes(player, s, i);
      && PanesAnswer(player, s, t, i, own)
      && (forall k :: 0 <= k < i ==> t.slots[k] == s.slots[k])
    decreases 4 - i
  {
    if i == 4 {
      own := [false, false, false, false];
    } else {
      hide OpenPane;
      OpenPaneAnswers(player, s, i);
      var u := OpenPane(player, s, i);
      var rest := OpenPanesAnswer(player, u, i + 1);
      PanesChain(player, s, u, OpenPanes(player, s, i), i, s.nextFour[i] != -1, rest);
      own := rest[i := s.nextFour[i] != -1];
    }
  }

  // ----- The tick in the four-pane view

  /** From s to t pane i comes to its camera, and the other panes are left alone. */
  predicate PaneChanges(player: Player, s: Ctl, t: Ctl, i: nat, own: bool)
    requires Shape(s) && Shape(t) && i < 4
  {
    && PaneAnswers(player, s, t, i, own, s.attempts)
    && t.attempts == s.attempts + (if own then 1 else 0)
    && t == s.(slots := t.slots, curFour := s.curFour[i := s.nextFour[i]], backFour := t.backFour,
               attempts := t.attempts, media := t.media)
    && (forall k :: 0 <= k < 4 && k != i ==> t.slots[k] == s.slots[k])
    && (forall k :: 0 <= k < 4 ==>
          (t.backFour[k] == -1 || (t.backFour[k] == s.backFour[k] && t.slots[k + 4] == s.slots[k + 4])))
  }

  lemma PaneOpens(player: Player, s: Ctl, i: nat)
    requires Shape(s) && i < 4 && s.curStyle == Four && s.nextFour[i] !in {-1, s.curFour[i]}
    ensures var t := Open(player, s, i, s.nextFour[i]).(curFour := s.curFour[i := s.nextFour[i]]);
      PaneChanges(player, s, t, i, true)
  {}

  lemma PaneTakes(player: Player, s: Ctl, i: nat, j: nat)
    requires Shape(s) && i < 4 && j < 4 && s.curStyle == Four && s.nextFour[i] !in {-1, s.curFour[i]}
    requires s.backFour[j] == s.nextFour[i] && s.slots[j + 4] != 0
    ensures PaneChanges(player, s, Move(s, j + 4, i).(backFour := s.backFour[j := -1],
                                                      curFour := s.curFour[i := s.nextFour[i]]), i, false)
  {}

  lemma PaneStays(player: Player, s: Ctl, i: nat)
    requires Shape(s) && i < 4 && s.curStyle == Four
    requires s.nextFour[i] == -1 ==> s.slots[i] == 0
    requires s.nextFour[i] in {-1, s.curFour[i]}
    ensures PaneChanges(player, s, s.(curFour := s.curFour[i := s.nextFour[i]]), i, false)
  {}

  lemma OpenChangedPaneAnswers(player: Player, s: Ctl, i: nat) returns (own: bool)
    requires Shape(s) && i < 4 && s.curStyle == Four
    requires s.curFour[i] != s.nextFour[i] || s.nextFour[i] == -1 ==> s.slots[i] == 0
    ensures PaneChanges(player, s, OpenChangedPane(player, s, i), i, own)
  {
    var j := PA.IndexOf(s.backFour, s.nextFour[i], 0);
    own := s.curFour[i] != s.nextFour[i] && s.nextFour[i] != -1 && !(j != -1 && s.slots[j + 4] != 0);
    assert s.curFour[i] == s.nextFour[i] ==> s.curFour[i := s.nextFour[i]] == s.curFour;
    hide PaneChanges, Open, Move;
    if s.nextFour[i] in {-1, s.curFour[i]} {
      PaneStays(player, s, i);
    } else if own {
      PaneOpens(player, s, i);
    } else {
      PaneTakes(player, s, i, j);
    }
  }

  lemma {:induction false} OpenChangedAnswer(player: Player, s: Ctl, i: nat) returns (own: seq<bool>)
    requires Shape(s) && i <= 4 && s.curStyle == Four
    requires forall k :: i <= k < 4 && (s.curFour[k] != s.nextFour[k] || s.nextFour[k] == -1) ==> s.slots[k] == 0
    ensures var t := OpenChanged(player, s, i);
      && PanesAnswer(player, s, t, i, own)
      && (forall k :: 0 <= k < i ==> t.slots[k] == s.slots[k])
    decreases 4 - i
  {
    if i == 4 {
      own := [false, false, false, false];
    } else {
      hide OpenChangedPane;
      var first := OpenChangedPaneAnswers(player, s, i);
      var u := OpenChangedPane(player, s, i);
      var rest := OpenChangedAnswer(player, u, i + 1);
      PanesChain(player, s, u, OpenChanged(player, s, i), i, first, rest);
      own := rest[i := first];
    }
  }

  // ----- The whole tick

  lemma PanesOf(player: Player, s: Ctl, u: Ctl, v: Ctl, t: Ctl, own: seq<bool>)
    requires Shape(s) && Shape(u) && Shape(v) && Shape(t) && PanesAnswer(player, u, v, 0, own)
    requires v.attempts == t.attempts && forall i :: 0 <= i < 4 ==> t.slots[i] == v.slots[i]
    requires s.attempts == u.attempts && s.nextFour == u.nextFour && s.curStyle == u.curStyle
    requires s.curStyle == Four ==> s.backFour == u.backFour && forall k :: 4 <= k < 8 ==> u.slots[k] == s.slots[k]
    requires forall i :: 0 <= i < 4 && Kept(s, i) && s.nextFour[i] != -1 ==> Kept(u, i) && u.slots[i] == s.slots[i]
    requires forall i :: 0 <= i < 4 && Kept(u, i) && s.nextFour[i] != -1 ==> Kept(s, i)
    ensures PanesAnswer(player, s, t, 0, own)
  {
    hide Calls, Answer;
  }

  lemma ToFourAnswers(player: Player, s: Ctl) returns (own: seq<bool>)
    requires Inv(s) && s.screen == Main && s.curStyle == Single && s.nextStyle == Four
    ensures PanesAnswer(player, s, Tick(player, s), 0, own)
  {
    hide Ledger, Matching, PanesAnswer, Close, Answer;
    ClosePictures(s);
    var v := Close(Close(s, SINGLE).(curSingle := -1, nextSingle := -1), BACK).(backSingle := -1);
    ResetPanesKeeps(v, 0);
    var w := ResetPanes(v, 0);
    own := OpenPanesAnswer(player, w, 0);
    ToFourStyleKeeps(player, s);
    var x := ToFourStyle(player, s);
    SettledLoops(player, x, 0);
    hide ResetPanes, OpenPanes;
    assert Tick(player, s) == x.(warnFreshed := false);
    PanesOf(player, s, w, OpenPanes(player, w, 0), Tick(player, s), own);
  }

  lemma StayFourAnswers(player: Player, s: Ctl) returns (own: seq<bool>)
    requires Inv(s) && s.screen == Main && s.curStyle == s.nextStyle == Four && s.nextSingle == -1
    ensures PanesAnswer(player, s, Tick(player, s), 0, own)
  {
    hide Ledger, PanesAnswer, Close, Answer;
    var u := if s.curSingle != -1 then Close(s, SINGLE) else s;
    CloseSinglePicture(s);
    CloseChangedKeeps(u, 0);
    var v := CloseChanged(u, 0);
    own := OpenChangedAnswer(player, v, 0);
    hide CloseChanged, OpenChanged;
    PanesOf(player, s, v, OpenChanged(player, v, 0), Tick(player, s), own);
  }

  /** No camera twice. */
  predicate AllDifferent(page: seq<int>) {
    forall i, j :: 0 <= i < j < |page| && page[i] != -1 ==> page[i] != page[j]
  }

  /** Back pane j has a handle ready for the camera that pane i is to change to. */
  predicate Ready(s: Ctl, i: nat, j: nat)
    requires Shape(s) && i < 4 && j < 4
  {
    s.curFour[i] != s.nextFour[i] && s.nextFour[i] != -1 && s.backFour[j] == s.nextFour[i] && s.slots[j + 4] != 0
  }

  lemma TakesReady(player: Player, s: Ctl, i: nat, j: nat)
    requires Shape(s) && i < 4 && j < 4 && Ready(s, i, j) && AllDifferent(s.backFour)
    ensures OpenChangedPane(player, s, i).slots[i] == s.slots[j + 4]
  {
    assert PA.IndexOf(s.backFour, s.nextFour[i], 0) == j;
  }

  lemma LeavesOthers(player: Player, s: Ctl, i: nat, k: nat, j: nat)
    requires Shape(s) && i < 4 && k < 4 && j < 4 && i != k && Ready(s, k, j)
    requires AllDifferent(s.backFour) && AllDifferent(s.nextFour)
    ensures var u := OpenChangedPane(player, s, i);
      Ready(u, k, j) && AllDifferent(u.backFour) && u.nextFour == s.nextFour && u.slots[j + 4] == s.slots[j + 4]
  {
    var q := PA.IndexOf(s.backFour, s.nextFour[i], 0);
    assert s.nextFour[i] != s.nextFour[k];
    assert q != j;
  }

  lemma {:induction false} ReadyIsTaken(player: Player, s: Ctl, i: nat, k: nat, j: nat)
    requires Shape(s) && i <= k < 4 && j < 4 && s.curStyle == Four && Ready(s, k, j)
    requires AllDifferent(s.backFour) && AllDifferent(s.nextFour)
    requires forall l :: i <= l < 4 && (s.curFour[l] != s.nextFour[l] || s.nextFour[l] == -1) ==> s.slots[l] == 0
    ensures OpenChanged(player, s, i).slots[k] == s.slots[j + 4]
    decreases 4 - i
  {
    hide OpenChangedPane, AllDifferent, Ready, Answer, PanesAnswer;
    var u := OpenChangedPane(player, s, i);
    var own := OpenChangedPaneAnswers(player, s, i);
    if i == k {
      TakesReady(player, s, i, j);
      var rest := OpenChangedAnswer(player, u, i + 1);
    } else {
      LeavesOthers(player, s, i, k, j);
      ReadyIsTaken(player, u, i + 1, k, j);
    }
  }

  /** What was prepared in the background is used: a pane that changes to a camera some back pane has
      ready gets that very handle, and no create call is made for it. */
  lemma BackIsTaken(player: Player, s: Ctl, i: nat, j: nat)
    requires Inv(s) && s.screen == Main && s.curStyle == s.nextStyle == Four && s.nextSingle == -1
    requires i < 4 && j < 4 && Ready(s, i, j) && AllDifferent(s.backFour) && AllDifferent(s.nextFour)
    ensures Tick(player, s).slots[i] == s.slots[j + 4]
  {
    hide Ledger, Close, AllDifferent;
    var u := if s.curSingle != -1 then Close(s, SINGLE) else s;
    CloseSinglePicture(s);
    CloseChangedKeeps(u, 0);
    var v := CloseChanged(u, 0);
    hide CloseChanged, OpenChanged;
    ReadyIsTaken(player, v, 0, i, j);
  }

  /** Where the single picture has its handle from: it was up already, or was prepared in the
      background, or has what the one create call of the tick gave. */
  predicate PictureAnswers(player: Player, s: Ctl, t: Ctl)
    requires Shape(s) && Shape(t)
  {
    if s.nextSingle == s.curSingle then t.slots[SINGLE] == s.slots[SINGLE] && t.attempts == s.attempts
    else if s.curStyle == s.nextStyle == Single && s.nextSingle == s.backSingle then
      t.slots[SINGLE] == s.slots[BACK] && t.attempts == s.attempts
    else t.slots[SINGLE] == Answer(player, s.attempts) && t.attempts == s.attempts + 1
  }

  lemma SwitchAnswers(player: Player, s: Ctl)
    requires Inv(s) && s.curStyle == s.nextStyle == Single && s.nextSingle != s.curSingle && s.nextSingle != -1
    ensures PictureAnswers(player, s, SingleStyle(player, s))
  {
    hide Ledger, PanesMatch;
    PutAwayKeeps(s);
    var u := PutAway(s);
    var v := BringUp(player, u);
    BringUpKeeps(player, u);
    var parkedCamera := if s.slots[SINGLE] != 0 && LoneAlarm(s) == s.curSingle then s.curSingle else -1;
    assert PictureAnswers(player, s, v);
    hide PutAway, BringUp, LoneAlarm;
    KeepParkedKeeps(v, parkedCamera);
  }

  lemma ToSingleAnswers(player: Player, s: Ctl)
    requires Inv(s) && s.screen == Main && s.curStyle == Four && s.nextStyle == Single
    ensures PictureAnswers(player, s, ToSingleStyle(player, s))
  {
    hide Ledger, Close, PanesMatch;
    CloseBackPicture(s);
    var b := Close(s, BACK).(backSingle := -1);
    LeavePanesKeeps(b, 0);
    hide LeavePanes;
    Closing(LeavePanes(b, 0), SINGLE);
  }

  lemma EnlargeAnswers(player: Player, s: Ctl)
    requires Inv(s) && s.curStyle == s.nextStyle == Four && s.nextSingle != s.curSingle && s.nextSingle != -1
    ensures PictureAnswers(player, s, FourStyle(player, s))
  {
    CloseSinglePicture(s);
    hide Ledger, Close, PanesMatch;
  }

  lemma TickPictureAnswers(player: Player, s: Ctl)
    requires Inv(s) && s.screen == Main
    ensures Tick(player, s).curSingle != -1 ==> PictureAnswers(player, s, Tick(player, s))
  {
    hide Ledger, Matching, Close, Answer;
    TickKeeps(player, s);
    if s.nextSingle != -1 && !(s.curStyle == Single && s.nextStyle == Four) {
      if s.curStyle == Four && s.nextStyle == Single {
        hide ToSingleStyle;
        ToSingleAnswers(player, s);
        ToSingleStyleKeeps(player, s);
      } else if s.curStyle == Single && s.nextSingle != s.curSingle {
        SwitchAnswers(player, s);
        hide SingleStyle;
      } else if s.curStyle == Four && s.nextSingle != s.curSingle {
        EnlargeAnswers(player, s);
        hide FourStyle;
      }
    }
  }

  /** What the screen shows after a tick from s, whatever was refused, now or before. */
  predicate Answers(player: Player, s: Ctl, t: Ctl, own: seq<bool>)
    requires Shape(s) && Shape(t)
  {
    && (t.curStyle == Four && t.curSingle == -1 ==>
          PanesAnswer(player, s, t, 0, own) && forall i :: 0 <= i < 4 ==> Holds(t, i, s.nextFour[i]))
    && (t.curSingle != -1 ==>
          PictureAnswers(player, s, t) && Holds(t, SINGLE, s.nextSingle))
  }

  lemma TickAnswers(player: Player, s: Ctl) returns (own: seq<bool>)
    requires Inv(s) && s.screen == Main
    ensures Answers(player, s, Tick(player, s), own)
  {
    TickKeeps(player, s);
    TickPictureAnswers(player, s);
    own := [];
    if s.nextStyle == Four && s.curStyle == Single {
      own := ToFourAnswers(player, s);
    } else if s.nextStyle == Four && s.nextSingle == -1 {
      own := StayFourAnswers(player, s);
    }
    hide Tick, Ledger, PanesAnswer, PictureAnswers;
  }

  /** Over every run, at every tick of the main screen, whatever the player refuses: a pane or single
      picture that changes has what its own create call gives, or the handle that was prepared for it; one
      that stays has what it had. What is there decodes the camera asked for. A refusal elsewhere, or at
      another time, does not matter. */
  lemma EveryTickAnswers(player: Player, grid: Grid, events: seq<Event>) returns (own: seq<bool>)
    ensures var s, t := Run(player, grid, events), Run(player, grid, events + [PlayTick]);
      s.screen == Main ==> Answers(player, s, t, own)
  {
    var s := Run(player, grid, events);
    assert (events + [PlayTick])[..|events + [PlayTick]| - 1] == events;
    own := [];
    if s.screen == Main {
      assert Run(player, grid, events + [PlayTick]) == Tick(player, s);
      RunKeeps(player, grid, events);
      hide Run, Tick, Answers;
      own := TickAnswers(player, s);
    }
  }

  predicate AllAnew(player: Player, s: Ctl, t: Ctl, own: seq<bool>)
    requires Shape(s) && Shape(t)
  {
    && |own| == 4 && t.attempts == s.attempts + Calls(own, 0, 4)
    && forall i :: 0 <= i < 4 ==>
         && own[i] == (s.nextFour[i] != -1)
         && t.slots[i] == if own[i] then Answer(player, s.attempts + Calls(own, 0, i)) else 0
  }

  lemma NothingKept(player: Player, s: Ctl, t: Ctl, own: seq<bool>)
    requires Shape(s) && Shape(t) && PanesAnswer(player, s, t, 0, own)
    requires s.curStyle == Single || s.curFour == s.backFour == NONE
    ensures AllAnew(player, s, t, own)
  {
    hide Calls, Answer;
  }

  /** A change to the four panes, and showing the hidden terminal again, ask anew for every picture:
      what was refused before does not stay refused. */
  lemma AskedAnew(player: Player, s: Ctl) returns (own: seq<bool>)
    requires Inv(s) && s.screen == Main && s.nextStyle == Four
    requires s.curStyle == Single || (s.nextSingle == -1 && s.curFour == s.backFour == NONE)
    ensures AllAnew(player, s, Tick(player, s), own)
  {
    assert Shape(s);
    hide Tick, AllAnew, PanesAnswer;
    if s.curStyle == Single {
      own := ToFourAnswers(player, s);
    } else {
      own := StayFourAnswers(player, s);
    }
    NothingKept(player, s, Tick(player, s), own);
  }
}
