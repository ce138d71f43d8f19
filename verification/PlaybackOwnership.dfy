/** Who owns which media handle: what every primitive, loop and callback keeps. */
module PlaybackOwnership {
  import opened CameraGrid
  import opened Playback
  import PA = PaneAssignment

  predicate NoRepeat(log: seq<Handle>) {
    forall i, j :: 0 <= i < j < |log| ==> log[i] != log[j]
  }

  /** Every handle ever created is in exactly one slot or has been destroyed, exactly once. */
  predicate Ledger(slots: seq<Handle>, attempts: nat, media: map<Handle, int>, destroyed: seq<Handle>) {
    && (forall i :: 0 <= i < |slots| && slots[i] != 0 ==> slots[i] in media && slots[i] !in destroyed)
    && (forall i, j :: 0 <= i < j < |slots| && slots[i] != 0 ==> slots[i] != slots[j])
    && NoRepeat(destroyed)
    && (forall h :: h in destroyed ==> h in media)
    && (forall h :: h in media ==> h in slots || h in destroyed)
    && (forall h :: h in media ==> 0 < h <= attempts)
  }

  predicate Owned(s: Ctl) {
    Ledger(s.slots, s.attempts, s.media, s.destroyed)
  }

  predicate Decodes(h: Handle, media: map<Handle, int>, camera: int) {
    h != 0 ==> h in media && media[h] == camera
  }

  /** A pane has no handle while its index says -1. */
  predicate Serves(h: Handle, media: map<Handle, int>, camera: int) {
    Decodes(h, media, camera) && (camera == -1 ==> h == 0)
  }

  predicate Holds(s: Ctl, i: nat, camera: int)
    requires Shape(s) && i < SLOTS
  {
    Decodes(s.slots[i], s.media, camera)
  }

  predicate PanesMatch(s: Ctl)
    requires Shape(s)
  {
    && (forall i :: 0 <= i < 4 ==> Serves(s.slots[i], s.media, s.curFour[i]))
    && (forall i :: 0 <= i < 4 ==> Serves(s.slots[i + 4], s.media, s.backFour[i]))
  }

  /** Every handle decodes the camera that the index beside its slot says. */
  predicate Matching(s: Ctl)
    requires Shape(s)
  {
    PanesMatch(s) && Holds(s, SINGLE, s.curSingle) && Holds(s, BACK, s.backSingle)
  }

  /** Between callbacks nothing is parked, each style uses its own slots only, and the
      monitor screen has put the single picture away. */
  predicate AtRest(s: Ctl)
    requires Shape(s)
  {
    && s.slots[PARKED] == 0
    && (s.curStyle == Four ==> s.slots[BACK] == 0)
    && (s.curStyle == Single ==> forall i :: 0 <= i < 8 ==> s.slots[i] == 0)
    && (s.curStyle == Four && s.screen == Moni ==> s.slots[SINGLE] == 0)
  }

  predicate Inv(s: Ctl) {
    Shape(s) && Owned(s) && Matching(s) && AtRest(s)
  }

  // ----- The primitives

  lemma CloseOwned(s: Ctl, i: nat)
    requires Shape(s) && i < SLOTS && Owned(s)
    ensures Owned(Close(s, i))
  {
    var t := Close(s, i);
    if s.slots[i] != 0 {
      forall h | h in t.media
        ensures h in t.slots || h in t.destroyed
      {
        if h in s.slots {
          var k :| 0 <= k < SLOTS && s.slots[k] == h;
          assert k != i ==> t.slots[k] == h;
          assert k == i ==> t.destroyed[|s.destroyed|] == h;
        }
      }
    }
  }

  lemma OpenOwned(player: Player, s: Ctl, i: nat, camera: int)
    requires Shape(s) && i < SLOTS && Owned(s) && s.slots[i] == 0
    ensures Owned(Open(player, s, i, camera))
  {
    var t := Open(player, s, i, camera);
    forall h | h in t.media
      ensures h in t.slots || h in t.destroyed
    {
      if h in s.media && h in s.slots {
        var k :| 0 <= k < SLOTS && s.slots[k] == h;
        assert t.slots[k] == h;
      } else if h !in s.media {
        assert t.slots[i] == h;
      }
    }
  }

  lemma MoveOwned(s: Ctl, i: nat, j: nat)
    requires Shape(s) && i < SLOTS && j < SLOTS && i != j && Owned(s) && s.slots[j] == 0
    ensures Owned(Move(s, i, j))
  {
    var t := Move(s, i, j);
    forall h | h in t.media
      ensures h in t.slots || h in t.destroyed
    {
      if h in s.slots {
        var k :| 0 <= k < SLOTS && s.slots[k] == h;
        assert k != i ==> t.slots[k] == h;
        assert k == i ==> t.slots[j] == h;
      }
    }
  }

  /** A slot that is overwritten while it holds a handle loses the handle: the rule the
      primitives above rely on is needed. */
  lemma OverwritingLeaks(player: Player, s: Ctl, i: nat, camera: int)
    requires Shape(s) && i < SLOTS && Owned(s)
    ensures Owned(Open(player, s, i, camera)) <==> s.slots[i] == 0
  {
    if s.slots[i] == 0 {
      OpenOwned(player, s, i, camera);
    } else {
      var t := Open(player, s, i, camera);
      assert s.slots[i] in t.media && s.slots[i] !in t.destroyed;
      forall k | 0 <= k < SLOTS
        ensures t.slots[k] != s.slots[i]
      {
        assert k < i ==> s.slots[k] == 0 || s.slots[k] != s.slots[i];
      }
    }
  }

  // ----- What a caller of the primitives can rely on

  lemma Closing(s: Ctl, i: nat)
    requires Shape(s) && i < SLOTS && Owned(s)
    ensures var t := Close(s, i);
      Owned(t) && t == s.(slots := s.slots[i := 0], destroyed := t.destroyed)
  {
    CloseOwned(s, i);
    assert s.slots[i] == 0 ==> s.slots[i := 0] == s.slots;
  }

  lemma Opening(player: Player, s: Ctl, i: nat, camera: int)
    requires Shape(s) && i < SLOTS && Owned(s) && s.slots[i] == 0
    ensures var t := Open(player, s, i, camera);
      && Owned(t) && Holds(t, i, camera)
      && t == s.(slots := s.slots[i := t.slots[i]], attempts := s.attempts + 1, media := t.media)
      && MediaGrows(s, t)
      && (player(s.attempts) ==> t.slots[i] != 0)
  {
    OpenOwned(player, s, i, camera);
  }

  predicate MediaGrows(s: Ctl, t: Ctl) {
    forall h :: h in s.media ==> h in t.media && t.media[h] == s.media[h]
  }

  lemma Moving(s: Ctl, i: nat, j: nat)
    requires Shape(s) && i < SLOTS && j < SLOTS && i != j && Owned(s) && s.slots[j] == 0
    ensures var t := Move(s, i, j);
      Owned(t) && t == s.(slots := s.slots[j := s.slots[i]][i := 0])
  {
    MoveOwned(s, i, j);
  }

  /** All the calls of CMP_CreateMedia numbered from .. to - 1 succeed. */
  ghost predicate Succeeds(player: Player, from: nat, to: nat) {
    forall k :: from <= k < to ==> player(k)
  }

  /** The back panes hold a handle wherever they name a camera. */
  predicate BacksComplete(s: Ctl)
    requires Shape(s)
  {
    forall k :: 0 <= k < 4 && s.backFour[k] != -1 ==> s.slots[k + 4] != 0
  }

  predicate PanesComplete(s: Ctl)
    requires Shape(s)
  {
    forall k :: 0 <= k < 4 && s.curFour[k] != -1 ==> s.slots[k] != 0
  }

  lemma PanesUntouched(s: Ctl, t: Ctl)
    requires Shape(s) && Shape(t) && PanesMatch(s) && MediaGrows(s, t)
    requires t.curFour == s.curFour && t.backFour == s.backFour
    requires forall k :: 0 <= k < SINGLE ==> t.slots[k] == s.slots[k]
    ensures PanesMatch(t)
    ensures (PanesComplete(t) <==> PanesComplete(s)) && (BacksComplete(t) <==> BacksComplete(s))
  {}

  // ----- The loops over the four panes

  lemma ResetPaneKeeps(s: Ctl, i: nat)
    requires Shape(s) && i < 4 && Owned(s) && Matching(s)
    ensures var t := ResetPane(s, i);
      && Owned(t) && Matching(t)
      && t == s.(slots := s.slots[i := 0][i + 4 := 0], curFour := s.curFour[i := -1],
                 backFour := s.backFour[i := -1], destroyed := t.destroyed)
  {
    hide Ledger, Close;
    Closing(s, i);
    Closing(Close(s, i), i + 4);
  }

  lemma {:induction false} ResetPanesKeeps(s: Ctl, i: nat)
    requires Shape(s) && i <= 4 && Owned(s) && Matching(s)
    ensures var t := ResetPanes(s, i);
      && Owned(t) && Matching(t)
      && t == s.(slots := t.slots, curFour := t.curFour, backFour := t.backFour, destroyed := t.destroyed)
      && (forall k :: 0 <= k < SLOTS ==> t.slots[k] == if i <= k < 4 || 4 + i <= k < 8 then 0 else s.slots[k])
      && (forall k :: 0 <= k < 4 ==> t.curFour[k] == if k < i then s.curFour[k] else -1)
      && (forall k :: 0 <= k < 4 ==> t.backFour[k] == if k < i then s.backFour[k] else -1)
    decreases 4 - i
  {
    hide Ledger, Matching, ResetPane;
    if i < 4 {
      ResetPaneKeeps(s, i);
      ResetPanesKeeps(ResetPane(s, i), i + 1);
    }
  }

  lemma AllReset(s: Ctl)
    requires Shape(s) && Owned(s) && Matching(s)
    ensures PanesComplete(ResetPanes(s, 0)) && BacksComplete(ResetPanes(s, 0))
  {
    hide Ledger, Matching, ResetPanes;
    ResetPanesKeeps(s, 0);
  }

  lemma OpenPaneKeeps(player: Player, s: Ctl, i: nat)
    requires Shape(s) && i < 4 && Owned(s) && Matching(s) && s.slots[i] == 0
    ensures var t := OpenPane(player, s, i);
      && Owned(t) && Matching(t) && s.attempts <= t.attempts
      && t == s.(slots := s.slots[i := t.slots[i]], curFour := s.curFour[i := s.nextFour[i]],
                 attempts := t.attempts, media := t.media)
      && (Succeeds(player, s.attempts, t.attempts) && s.nextFour[i] != -1 ==> t.slots[i] != 0)
  {
    hide Ledger, Open;
    if s.nextFour[i] != -1 {
      Opening(player, s, i, s.nextFour[i]);
    }
  }

  lemma {:induction false} OpenPanesKeeps(player: Player, s: Ctl, i: nat)
    requires Shape(s) && i <= 4 && Owned(s) && Matching(s)
    requires forall k :: i <= k < 4 ==> s.slots[k] == 0
    ensures var t := OpenPanes(player, s, i);
      && Owned(t) && Matching(t) && s.attempts <= t.attempts
      && t == s.(slots := t.slots, curFour := t.curFour, attempts := t.attempts, media := t.media)
      && (forall k :: 0 <= k < SLOTS && (k < i || k >= 4) ==> t.slots[k] == s.slots[k])
      && (forall k :: 0 <= k < 4 ==> t.curFour[k] == if k < i then s.curFour[k] else s.nextFour[k])
      && (Succeeds(player, s.attempts, t.attempts) ==>
           forall k :: i <= k < 4 && s.nextFour[k] != -1 ==> t.slots[k] != 0)
    decreases 4 - i
  {
    hide Ledger, Matching, OpenPane;
    if i < 4 {
      OpenPaneKeeps(player, s, i);
      OpenPanesKeeps(player, OpenPane(player, s, i), i + 1);
    }
  }

  lemma OpenPanesComplete(player: Player, s: Ctl)
    requires Shape(s) && Owned(s) && Matching(s) && forall k :: 0 <= k < 4 ==> s.slots[k] == 0
    ensures var t := OpenPanes(player, s, 0);
      && t.curFour == s.nextFour && (BacksComplete(s) ==> BacksComplete(t))
      && (Succeeds(player, s.attempts, t.attempts) ==> PanesComplete(t))
  {
    hide Ledger, Matching, OpenPanes;
    OpenPanesKeeps(player, s, 0);
    assert OpenPanes(player, s, 0).curFour == s.nextFour;
  }

  lemma LeaveFront(s: Ctl, i: nat)
    requires Shape(s) && i < 4 && Owned(s) && Matching(s) && s.slots[i] != 0
    ensures var t := Close(s, i).(curFour := s.curFour[i := -1]);
      && Owned(t) && Matching(t)
      && t == s.(slots := s.slots[i := 0], curFour := s.curFour[i := -1], destroyed := t.destroyed)
      && (PanesComplete(s) ==> PanesComplete(t)) && (BacksComplete(s) ==> BacksComplete(t))
  {
    hide Ledger, Close;
    Closing(s, i);
  }

  lemma LeaveBack(s: Ctl, i: nat)
    requires Shape(s) && i < 4 && Owned(s) && Matching(s) && s.slots[i + 4] != 0
    ensures var t := Close(s, i + 4).(backFour := s.backFour[i := -1]);
      && Owned(t) && Matching(t)
      && t == s.(slots := s.slots[i + 4 := 0], backFour := s.backFour[i := -1], destroyed := t.destroyed)
      && (PanesComplete(s) ==> PanesComplete(t)) && (BacksComplete(s) ==> BacksComplete(t))
  {
    hide Ledger, Close;
    Closing(s, i + 4);
  }

  lemma NextIrrelevant(s: Ctl, next: seq<int>)
    requires Shape(s) && |next| == 4
    ensures var t := s.(nextFour := next);
      Matching(t) == Matching(s) && PanesComplete(t) == PanesComplete(s) && BacksComplete(t) == BacksComplete(s)
  {}

  lemma LeavePaneKeeps(s: Ctl, i: nat)
    requires Shape(s) && i < 4 && Owned(s) && Matching(s)
    ensures var t := LeavePane(s, i);
      && Owned(t) && Matching(t)
      && t == s.(slots := t.slots, nextFour := t.nextFour, destroyed := t.destroyed,
                 curFour := t.curFour, backFour := t.backFour)
      && (forall k :: 0 <= k < SLOTS ==> t.slots[k] == if k == i || k == i + 4 then 0 else s.slots[k])
      && (PanesComplete(s) ==> PanesComplete(t)) && (BacksComplete(s) ==> BacksComplete(t))
  {
    hide Ledger, Close, Matching, PanesComplete, BacksComplete;
    if s.slots[i] != 0 {
      LeaveFront(s, i);
    }
    var u := if s.slots[i] != 0 then Close(s, i).(curFour := s.curFour[i := -1]) else s;
    var v := u.(nextFour := u.nextFour[i := -1]);
    NextIrrelevant(u, u.nextFour[i := -1]);
    if v.slots[i + 4] != 0 {
      LeaveBack(v, i);
    }
  }

  lemma {:induction false} LeavePanesKeeps(s: Ctl, i: nat)
    requires Shape(s) && i <= 4 && Owned(s) && Matching(s)
    ensures var t := LeavePanes(s, i);
      && Owned(t) && Matching(t)
      && t == s.(slots := t.slots, curFour := t.curFour, nextFour := t.nextFour, backFour := t.backFour,
                 destroyed := t.destroyed)
      && (forall k :: 0 <= k < SLOTS ==> t.slots[k] == if i <= k < 4 || 4 + i <= k < 8 then 0 else s.slots[k])
      && (PanesComplete(s) ==> PanesComplete(t)) && (BacksComplete(s) ==> BacksComplete(t))
    decreases 4 - i
  {
    hide Ledger, Matching, LeavePane, PanesComplete, BacksComplete;
    if i < 4 {
      LeavePaneKeeps(s, i);
      LeavePanesKeeps(LeavePane(s, i), i + 1);
    }
  }

  lemma CloseChangedPaneKeeps(s: Ctl, i: nat)
    requires Shape(s) && i < 4 && Owned(s) && Matching(s)
    ensures var t := CloseChangedPane(s, i);
      && Owned(t) && Matching(t)
      && (if s.curFour[i] == s.nextFour[i] then t == s
          else t == s.(slots := s.slots[i := 0], curFour := s.curFour[i := -1], destroyed := t.destroyed))
  {
    hide Ledger, Close;
    Closing(s, i);
  }

  lemma {:induction false} CloseChangedKeeps(s: Ctl, i: nat)
    requires Shape(s) && i <= 4 && Owned(s) && Matching(s)
    ensures var t := CloseChanged(s, i);
      && Owned(t) && Matching(t)
      && t == s.(slots := t.slots, curFour := t.curFour, destroyed := t.destroyed)
      && (forall k :: 4 <= k < SLOTS ==> t.slots[k] == s.slots[k])
      && (forall k :: 0 <= k < 4 ==>
           if k >= i && s.curFour[k] != s.nextFour[k] then t.curFour[k] == -1 && t.slots[k] == 0
           else t.curFour[k] == s.curFour[k] && t.slots[k] == s.slots[k])
    decreases 4 - i
  {
    hide Ledger, Matching, CloseChangedPane;
    if i < 4 {
      CloseChangedPaneKeeps(s, i);
      CloseChangedKeeps(CloseChangedPane(s, i), i + 1);
    }
  }

  lemma TakeBackKeeps(s: Ctl, i: nat, j: nat)
    requires Shape(s) && i < 4 && j < 4 && Owned(s) && Matching(s) && s.slots[i] == 0
    requires s.slots[j + 4] != 0 && s.backFour[j] == s.nextFour[i]
    ensures var t := Move(s, j + 4, i).(backFour := s.backFour[j := -1], curFour := s.curFour[i := s.nextFour[i]]);
      && Owned(t) && Matching(t) && t.slots[i] != 0
      && t == s.(slots := s.slots[i := s.slots[j + 4]][j + 4 := 0], backFour := s.backFour[j := -1],
                 curFour := s.curFour[i := s.nextFour[i]])
  {
    hide Ledger, Move;
    Moving(s, j + 4, i);
  }

  /** What the body of the second loop of FourPlayStyle does to the pane and its back. */
  lemma OpenChangedPaneKeeps(player: Player, s: Ctl, i: nat)
    requires Shape(s) && i < 4 && Owned(s) && Matching(s)
    requires s.curFour[i] != s.nextFour[i] ==> s.slots[i] == 0
    ensures var t := OpenChangedPane(player, s, i);
      && Owned(t) && Matching(t) && s.attempts <= t.attempts
      && t == s.(slots := t.slots, backFour := t.backFour, attempts := t.attempts, media := t.media,
                 curFour := s.curFour[i := s.nextFour[i]])
      && (forall k :: 0 <= k < SLOTS && k != i && !(4 <= k < 8) ==> t.slots[k] == s.slots[k])
      && (s.curFour[i] == s.nextFour[i] ==> t.slots[i] == s.slots[i])
      && (BacksComplete(s) ==> BacksComplete(t))
      && (Succeeds(player, s.attempts, t.attempts) && s.curFour[i] != s.nextFour[i] && s.nextFour[i] != -1 ==>
           t.slots[i] != 0)
  {
    hide Ledger, Matching;
    if s.curFour[i] == s.nextFour[i] {
      assert s.curFour[i := s.nextFour[i]] == s.curFour;
    } else if s.nextFour[i] == -1 {
      EmptyPane(s, i);
    } else {
      var j := PA.IndexOf(s.backFour, s.nextFour[i], 0);
      if j != -1 && s.slots[j + 4] != 0 {
        TakeBackKeeps(s, i, j);
      } else {
        assert OpenChangedPane(player, s, i) == OpenPane(player, s, i);
        hide Open;
        OpenPaneKeeps(player, s, i);
      }
    }
  }

  lemma EmptyPane(s: Ctl, i: nat)
    requires Shape(s) && i < 4 && Matching(s) && s.slots[i] == 0
    ensures Matching(s.(curFour := s.curFour[i := -1]))
  {}

  lemma {:induction false} OpenChangedKeeps(player: Player, s: Ctl, i: nat)
    requires Shape(s) && i <= 4 && Owned(s) && Matching(s)
    requires forall k :: i <= k < 4 && s.curFour[k] != s.nextFour[k] ==> s.slots[k] == 0
    ensures var t := OpenChanged(player, s, i);
      && Owned(t) && Matching(t) && s.attempts <= t.attempts
      && t == s.(slots := t.slots, curFour := t.curFour, backFour := t.backFour,
                 attempts := t.attempts, media := t.media)
      && (forall k :: 0 <= k < SLOTS && (k < i || k >= 8) ==> t.slots[k] == s.slots[k])
      && (forall k :: 0 <= k < 4 ==> t.curFour[k] == if k < i then s.curFour[k] else s.nextFour[k])
      && (forall k :: i <= k < 4 && s.curFour[k] == s.nextFour[k] ==> t.slots[k] == s.slots[k])
      && (BacksComplete(s) ==> BacksComplete(t))
      && (Succeeds(player, s.attempts, t.attempts) ==>
           forall k :: i <= k < 4 && s.curFour[k] != s.nextFour[k] && s.nextFour[k] != -1 ==> t.slots[k] != 0)
    decreases 4 - i
  {
    hide Ledger, Matching, OpenChangedPane, BacksComplete;
    if i < 4 {
      OpenChangedPaneKeeps(player, s, i);
      OpenChangedKeeps(player, OpenChangedPane(player, s, i), i + 1);
    }
  }

  /** Both loops of FourPlayStyle together: afterwards every pane is what it should be. */
  lemma SyncPanesKeeps(player: Player, s: Ctl)
    requires Shape(s) && Owned(s) && Matching(s)
    ensures var t := SyncPanes(player, s);
      && Owned(t) && Matching(t) && s.attempts <= t.attempts
      && t == s.(slots := t.slots, curFour := s.nextFour, backFour := t.backFour, attempts := t.attempts,
                 media := t.media, destroyed := t.destroyed)
      && (forall k :: 8 <= k < SLOTS ==> t.slots[k] == s.slots[k])
      && (BacksComplete(s) ==> BacksComplete(t))
      && (PanesComplete(s) && Succeeds(player, s.attempts, t.attempts) ==> PanesComplete(t))
  {
    hide Ledger, Matching;
    CloseChangedKeeps(s, 0);
    OpenChangedKeeps(player, CloseChanged(s, 0), 0);
    assert SyncPanes(player, s).curFour == s.nextFour;
  }

  lemma DropBackPaneKeeps(s: Ctl, i: nat)
    requires Shape(s) && i < 4 && Owned(s) && Matching(s)
    ensures var t := DropBackPane(s, i);
      && Owned(t) && Matching(t)
      && t == s.(slots := s.slots[i + 4 := 0], backFour := s.backFour[i := -1], destroyed := t.destroyed)
  {
    hide Ledger, Close;
    Closing(s, i + 4);
  }

  lemma {:induction false} DropBackPanesKeeps(s: Ctl, i: nat)
    requires Shape(s) && i <= 4 && Owned(s) && Matching(s)
    ensures var t := DropBackPanes(s, i);
      && Owned(t) && Matching(t)
      && t == s.(slots := t.slots, backFour := t.backFour, destroyed := t.destroyed)
      && (forall k :: 0 <= k < SLOTS && !(4 + i <= k < 8) ==> t.slots[k] == s.slots[k])
      && (forall k :: i <= k < 4 ==> t.backFour[k] == -1) && (forall k :: 4 + i <= k < 8 ==> t.slots[k] == 0)
      && (forall k :: 0 <= k < i ==> t.backFour[k] == s.backFour[k])
    decreases 4 - i
  {
    hide Ledger, Matching, DropBackPane;
    if i < 4 {
      DropBackPaneKeeps(s, i);
      DropBackPanesKeeps(DropBackPane(s, i), i + 1);
    }
  }

  lemma {:induction false} CloseBackPanesKeeps(s: Ctl, i: nat)
    requires Shape(s) && i <= 4 && Owned(s) && Matching(s)
    ensures var t := CloseBackPanes(s, i);
      && Owned(t) && Matching(t)
      && t == s.(slots := t.slots, destroyed := t.destroyed)
      && (forall k :: 0 <= k < SLOTS && !(4 + i <= k < 8) ==> t.slots[k] == s.slots[k])
      && (forall k :: 4 + i <= k < 8 ==> t.slots[k] == 0)
    decreases 4 - i
  {
    hide Ledger, Close;
    if i < 4 {
      Closing(s, i + 4);
      CloseBackPanesKeeps(Close(s, i + 4), i + 1);
    }
  }

  lemma OpenBackPaneKeeps(player: Player, s: Ctl, i: nat)
    requires Shape(s) && i < 4 && Owned(s) && Matching(s) && s.slots[i + 4] == 0
    ensures var t := OpenBackPane(player, s, i);
      && Owned(t) && Matching(t) && s.attempts <= t.attempts
      && t == s.(slots := s.slots[i + 4 := t.slots[i + 4]], attempts := t.attempts, media := t.media)
      && (Succeeds(player, s.attempts, t.attempts) && s.backFour[i] != -1 ==> t.slots[i + 4] != 0)
  {
    hide Ledger, Open;
    if s.backFour[i] != -1 {
      Opening(player, s, i + 4, s.backFour[i]);
    }
  }

  lemma {:induction false} OpenBackPanesKeeps(player: Player, s: Ctl, i: nat)
    requires Shape(s) && i <= 4 && Owned(s) && Matching(s)
    requires forall k :: 4 + i <= k < 8 ==> s.slots[k] == 0
    ensures var t := OpenBackPanes(player, s, i);
      && Owned(t) && Matching(t) && s.attempts <= t.attempts
      && t == s.(slots := t.slots, attempts := t.attempts, media := t.media)
      && (forall k :: 0 <= k < SLOTS && !(4 + i <= k < 8) ==> t.slots[k] == s.slots[k])
      && (Succeeds(player, s.attempts, t.attempts) ==>
           forall k :: i <= k < 4 && s.backFour[k] != -1 ==> t.slots[k + 4] != 0)
    decreases 4 - i
  {
    hide Ledger, Matching, OpenBackPane;
    if i < 4 {
      OpenBackPaneKeeps(player, s, i);
      OpenBackPanesKeeps(player, OpenBackPane(player, s, i), i + 1);
    }
  }

  lemma {:induction false} CloseAllKeeps(s: Ctl, i: nat)
    requires Shape(s) && i <= PARKED && Owned(s)
    ensures var t := CloseAll(s, i);
      && Owned(t) && t == s.(slots := t.slots, destroyed := t.destroyed)
      && (forall k :: 0 <= k < SLOTS ==> t.slots[k] == if i <= k < PARKED then 0 else s.slots[k])
    decreases PARKED - i
  {
    hide Ledger, Close;
    if i < PARKED {
      Closing(s, i);
      CloseAllKeeps(Close(s, i), i + 1);
    }
  }
}
