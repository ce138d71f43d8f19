/** The hand-off of decoded frames from the decoder to the display thread (ipuapi.c): two slots
    under a lock, of which the second is overwritten when the display falls behind, and a display
    flag that both sides read without the lock. */
module Mailbox {

  /** A slot's three fields. A physical address of 0 is what the code takes for an empty slot. */
  datatype Frame = Frame(phy: int, vir: int, index: int)

  const CLEARED := Frame(0, 0, -1)

  /** The two slots, the frame in the display thread's hands, and the indices passed to the
      release callback so far. */
  datatype Slots = Slots(first: Frame, second: Frame, now: Frame, calls: seq<int>)

  function Fresh(): Slots {
    Slots(Frame(0, 0, 0), Frame(0, 0, 0), CLEARED, [])
  }

  // ----- The locked sections -----

  function Insert(s: Slots, f: Frame): Slots {
    if s.first.phy == 0 then s.(first := f)
    else s.(second := f, calls := if s.second.phy != 0 then s.calls + [s.second.index] else s.calls)
  }

  function Take(s: Slots): Slots {
    s.(now := s.first, first := s.second, second := CLEARED)
  }

  function Release(s: Slots): Slots {
    s.(calls := s.calls + [s.now.index])
  }

  // ----- Two threads -----

  /** Where the display loop stands: at its top, past the unlocked test, with a frame taken, and
      past the second test of the flag. */
  datatype Loop = Top | Ready | Took | Showing

  /** Where an accepted frame went: one of the slots, the display thread, a release callback, a
      failed queue call, or, for a frame with address 0, nowhere. */
  datatype Place = First | Second | InHand | Released | Lost | Forgotten

  /** slots, flag and loop are the program's; a send that has passed its test of the flag is in
      sending. Frames are numbered in the order they are accepted: accepted and place say what
      frame that was and where it went, firstId, secondId and nowId which one each holder has,
      released the ones called back, in order, and shown the ones displayed, in order. */
  datatype World = World(slots: Slots, flag: bool, loop: Loop, sending: multiset<Frame>,
                         accepted: seq<Frame>, place: seq<Place>,
                         firstId: int, secondId: int, nowId: int,
                         released: seq<int>, shown: seq<int>)

  function Start(): World {
    World(Fresh(), false, Top, multiset{}, [], [], -1, -1, -1, [], [])
  }

  datatype Event =
    | SendTest(frame: Frame)
    | SendInsert(frame: Frame)
    | LoopTest
    | LoopTake
    | LoopRetest
    | LoopShow(queued: bool)
    | Enable
    | Disable

  predicate Enabled(w: World, e: Event) {
    match e
    case SendInsert(f) => f in w.sending
    case LoopTest => w.loop == Top
    case LoopTake => w.loop == Ready
    case LoopRetest => w.loop == Took
    case LoopShow(_) => w.loop == Showing
    case _ => true
  }

  function Mark(place: seq<Place>, id: int, p: Place): (q: seq<Place>)
    ensures |q| == |place|
  {
    if 0 <= id < |place| then place[id := p] else place
  }

  function Accept(w: World, f: Frame): World {
    var n := |w.accepted|;
    var v := w.(slots := Insert(w.slots, f), accepted := w.accepted + [f]);
    if w.slots.first.phy == 0 then
      v.(firstId := n, place := w.place + [if f.phy == 0 then Forgotten else First])
    else
      var v := v.(secondId := n);
      var here := [if f.phy == 0 then Forgotten else Second];
      if w.slots.second.phy == 0 then v.(place := w.place + here)
      else v.(place := Mark(w.place, w.secondId, Released) + here,
              released := w.released + [w.secondId])
  }

  function TakeFirst(w: World): World {
    w.(slots := Take(w.slots), loop := Took,
       nowId := w.firstId, firstId := w.secondId, secondId := -1,
       place := Mark(if w.slots.second.phy == 0 then w.place else Mark(w.place, w.secondId, First),
                     w.firstId, InHand))
  }

  function ReleaseNow(w: World): World {
    w.(slots := Release(w.slots), loop := Top,
       place := Mark(w.place, w.nowId, Released), released := w.released + [w.nowId])
  }

  function Step(w: World, e: Event): World
    requires Enabled(w, e)
  {
    match e
    case SendTest(f) => if w.flag then w.(sending := w.sending + multiset{f}) else w
    case SendInsert(f) => Accept(w.(sending := w.sending - multiset{f}), f)
    case LoopTest => if w.slots.first.phy == 0 || !w.flag then w else w.(loop := Ready)
    case LoopTake => TakeFirst(w)
    case LoopRetest => if w.flag then w.(loop := Showing) else ReleaseNow(w)
    case LoopShow(queued) =>
      if queued then ReleaseNow(w.(shown := w.shown + [w.nowId]))
      else w.(loop := Top, place := Mark(w.place, w.nowId, Lost))
    case Enable => w.(flag := true)
    case Disable => w.(flag := false)
  }

  ghost predicate CanRun(w: World, es: seq<Event>)
    decreases |es|
  {
    es != [] ==> Enabled(w, es[0]) && CanRun(Step(w, es[0]), es[1..])
  }

  ghost function Run(w: World, es: seq<Event>): World
    requires CanRun(w, es)
    decreases |es|
  {
    if es == [] then w else Run(Step(w, es[0]), es[1..])
  }

  // ----- What every interleaving keeps -----

  /** The frame a holder has is the one its number says, and is the only one in that place. */
  ghost predicate Holds(w: World, p: Place, id: int, f: Frame, present: bool) {
    && (present ==> 0 <= id < |w.accepted| == |w.place| && w.place[id] == p && w.accepted[id] == f)
    && (forall t :: 0 <= t < |w.place| && w.place[t] == p ==> present && t == id)
  }

  ghost predicate Held(w: World) {
    && |w.accepted| == |w.place|
    && Holds(w, First, w.firstId, w.slots.first, w.slots.first.phy != 0)
    && Holds(w, Second, w.secondId, w.slots.second, w.slots.second.phy != 0)
    && Holds(w, InHand, w.nowId, w.slots.now, w.loop in {Took, Showing})
    && (forall t :: 0 <= t < |w.place| ==> (w.place[t] == Forgotten <==> w.accepted[t].phy == 0))
  }

  /** The second slot is never filled alone, and the display thread only takes what is there. */
  ghost predicate InTurn(w: World) {
    && (w.slots.first.phy == 0 ==> w.slots.second.phy == 0)
    && (w.loop == Ready ==> w.slots.first.phy != 0)
  }

  /** Each call-back was for one frame, whose index it passed, and for no frame twice. */
  ghost predicate CalledBack(w: World) {
    && |w.slots.calls| == |w.released| && |w.accepted| == |w.place|
    && (forall i :: 0 <= i < |w.released| ==>
          && 0 <= w.released[i] < |w.place| && w.place[w.released[i]] == Released
          && w.slots.calls[i] == w.accepted[w.released[i]].index)
    && (forall i, j :: 0 <= i < j < |w.released| ==> w.released[i] != w.released[j])
    && (forall t :: 0 <= t < |w.place| && w.place[t] == Released ==> t in w.released)
  }

  /** What has been shown is older than what is in hand, that older than what waits in the first
      slot, that older than the second, and a frame in the second slot is the newest of all. */
  ghost predicate Ordered(w: World) {
    var n := |w.accepted|;
    && |w.place| == n
    && (w.slots.second.phy != 0 ==> w.firstId < w.secondId == n - 1)
    && (w.loop in {Took, Showing} ==>
          && w.nowId < n
          && (w.slots.first.phy != 0 ==> w.nowId < w.firstId))
    && (forall i :: 0 <= i < |w.shown| ==>
          && 0 <= w.shown[i] < n
          && (w.slots.first.phy != 0 ==> w.shown[i] < w.firstId)
          && (w.loop in {Took, Showing} ==> w.shown[i] < w.nowId))
    && (forall i, j :: 0 <= i < j < |w.shown| ==> w.shown[i] < w.shown[j])
  }

  ghost predicate Inv(w: World) {
    Held(w) && InTurn(w) && CalledBack(w) && Ordered(w)
  }

  /** One more frame joins, and the place it takes over, if any, was held by the one frame there. */
  lemma HoldsAfter(w: World, v: World, p: Place, id: int, f: Frame, present: bool)
    requires |w.accepted| == |w.place| && |v.accepted| == |v.place| == |w.place| + 1
    requires w.accepted <= v.accepted
    requires Holds(w, p, id, f, present)
    requires forall t :: 0 <= t < |v.place| ==>
               (v.place[t] == p <==> t < |w.place| && w.place[t] == p)
    ensures Holds(v, p, id, f, present)
  {}

  lemma AcceptHolds(w: World, f: Frame)
    requires Held(w) && InTurn(w)
    ensures Held(Accept(w, f)) && InTurn(Accept(w, f))
  {
    var v := Accept(w, f);
    HoldsAfter(w, v, InHand, w.nowId, w.slots.now, w.loop in {Took, Showing});
    if w.slots.first.phy != 0 {
      HoldsAfter(w, v, First, w.firstId, w.slots.first, true);
      assert Holds(v, First, v.firstId, v.slots.first, v.slots.first.phy != 0);
    }
  }

  /** The one frame more that is called back, if any. */
  lemma CalledBackAfter(w: World, v: World, more: bool, id: int)
    requires CalledBack(w) && |v.accepted| == |v.place| && w.accepted <= v.accepted
    requires more ==> 0 <= id < |w.place| && w.place[id] != Released
    requires v.released == if more then w.released + [id] else w.released
    requires v.slots.calls
          == if more then w.slots.calls + [w.accepted[id].index] else w.slots.calls
    requires forall t :: 0 <= t < |v.place| ==>
               (v.place[t] == Released <==> (t < |w.place| && w.place[t] == Released) || (more && t == id))
    ensures CalledBack(v)
  {
    if more {
      assert v.released[|w.released|] == id;
    }
    forall t | 0 <= t < |v.place| && v.place[t] == Released
      ensures t in v.released
    {
      if !(more && t == id) {
        assert t in w.released;
      }
    }
  }

  lemma AcceptCallsBack(w: World, f: Frame)
    requires Held(w) && CalledBack(w)
    ensures CalledBack(Accept(w, f))
  {
    hide CalledBack;
    CalledBackAfter(w, Accept(w, f), w.slots.first.phy != 0 && w.slots.second.phy != 0, w.secondId);
  }

  lemma AcceptOrders(w: World, f: Frame)
    requires Held(w) && InTurn(w) && Ordered(w)
    ensures Ordered(Accept(w, f))
  {}

  lemma TakeHolds(w: World)
    requires Held(w) && InTurn(w) && Ordered(w) && w.loop == Ready
    ensures Held(TakeFirst(w)) && InTurn(TakeFirst(w))
  {}

  lemma TakeCallsBack(w: World)
    requires Held(w) && InTurn(w) && CalledBack(w) && w.loop == Ready
    ensures CalledBack(TakeFirst(w))
  {
    hide CalledBack;
    CalledBackAfter(w, TakeFirst(w), false, 0);
  }

  lemma TakeOrders(w: World)
    requires Held(w) && InTurn(w) && Ordered(w) && w.loop == Ready
    ensures Ordered(TakeFirst(w))
  {}

  lemma ReleaseHolds(w: World)
    requires Held(w) && InTurn(w) && w.loop in {Took, Showing}
    ensures Held(ReleaseNow(w)) && InTurn(ReleaseNow(w))
  {}

  lemma ReleaseCallsBack(w: World)
    requires Held(w) && CalledBack(w) && w.loop in {Took, Showing}
    ensures CalledBack(ReleaseNow(w))
  {
    hide CalledBack;
    CalledBackAfter(w, ReleaseNow(w), true, w.nowId);
  }

  lemma ReleaseOrders(w: World, shown: seq<int>)
    requires Held(w) && Ordered(w) && w.loop in {Took, Showing}
    requires shown == w.shown || shown == w.shown + [w.nowId]
    ensures Ordered(ReleaseNow(w.(shown := shown)))
  {}

  lemma LostKeeps(w: World)
    requires Inv(w) && w.loop == Showing
    ensures Inv(Step(w, LoopShow(false)))
  {
    CalledBackAfter(w, Step(w, LoopShow(false)), false, 0);
    hide CalledBack;
  }

  lemma AcceptKeeps(w: World, f: Frame)
    requires Inv(w)
    ensures Inv(Accept(w, f))
  {
    hide Held, InTurn, CalledBack, Ordered, Accept;
    AcceptHolds(w, f);
    AcceptCallsBack(w, f);
    AcceptOrders(w, f);
  }

  lemma TakeKeeps(w: World)
    requires Inv(w) && w.loop == Ready
    ensures Inv(TakeFirst(w))
  {
    hide Held, InTurn, CalledBack, Ordered, TakeFirst;
    TakeHolds(w);
    TakeCallsBack(w);
    TakeOrders(w);
  }

  lemma ReleaseKeeps(w: World, shown: seq<int>)
    requires Inv(w) && w.loop in {Took, Showing}
    requires shown == w.shown || shown == w.shown + [w.nowId]
    ensures Inv(ReleaseNow(w.(shown := shown)))
  {
    var u := w.(shown := shown);
    assert Held(u) && InTurn(u) && CalledBack(u) by {
      hide Ordered;
    }
    hide Held, InTurn, CalledBack, Ordered, ReleaseNow;
    ReleaseHolds(u);
    ReleaseCallsBack(u);
    ReleaseOrders(w, shown);
  }

  lemma Unmoved(w: World, flag: bool, sending: multiset<Frame>)
    requires Inv(w)
    ensures Inv(w.(flag := flag, sending := sending))
  {}

  lemma LoopKeeps(w: World, loop: Loop)
    requires Inv(w)
    requires (w.loop == Top && loop == Ready && w.slots.first.phy != 0) || (w.loop == Took && loop == Showing)
    ensures Inv(w.(loop := loop))
  {}

  lemma StepKeeps(w: World, e: Event)
    requires Inv(w) && Enabled(w, e)
    ensures Inv(Step(w, e))
  {
    hide Inv, Accept, TakeFirst, ReleaseNow;
    match e
    case SendTest(f) => Unmoved(w, w.flag, w.sending + multiset{f});
    case SendInsert(f) =>
      var u := w.(sending := w.sending - multiset{f});
      Unmoved(w, w.flag, u.sending);
      AcceptKeeps(u, f);
    case LoopTest =>
      if w.slots.first.phy != 0 {
        LoopKeeps(w, Ready);
      }
    case LoopTake => TakeKeeps(w);
    case LoopRetest =>
      LoopKeeps(w, Showing);
      ReleaseKeeps(w, w.shown);
    case LoopShow(queued) =>
      if queued {
        ReleaseKeeps(w, w.shown + [w.nowId]);
      } else {
        LostKeeps(w);
      }
    case Enable => Unmoved(w, true, w.sending);
    case Disable => Unmoved(w, false, w.sending);
  }

  // ----- Every run -----

  lemma {:induction false} RunKeeps(w: World, es: seq<Event>)
    requires Inv(w) && CanRun(w, es)
    ensures Inv(Run(w, es))
    decreases |es|
  {
    hide Inv, Step;
    if es != [] {
      assert Enabled(w, es[0]);
      StepKeeps(w, es[0]);
      RunKeeps(Step(w, es[0]), es[1..]);
    }
  }

  /** Under every interleaving, each accepted frame is in exactly one place: in the slot or in the
      hand that holds it; called back, by exactly one call that passed its index; lost to a failed
      queue call; or forgotten, which is what happens to exactly the frames sent with address 0. */
  lemma EveryFrameAccounted(es: seq<Event>)
    requires CanRun(Start(), es)
    ensures var w := Run(Start(), es);
      && |w.place| == |w.accepted| && |w.slots.calls| == |w.released|
      && (w.slots.first.phy == 0 ==> w.slots.second.phy == 0)
      && forall t :: 0 <= t < |w.accepted| ==>
           && (w.place[t] == First <==> w.slots.first.phy != 0 && t == w.firstId)
           && (w.place[t] == First ==> w.slots.first == w.accepted[t])
           && (w.place[t] == Second <==> w.slots.second.phy != 0 && t == w.secondId)
           && (w.place[t] == Second ==> w.slots.second == w.accepted[t])
           && (w.place[t] == InHand <==> w.loop in {Took, Showing} && t == w.nowId)
           && (w.place[t] == InHand ==> w.slots.now == w.accepted[t])
           && (w.place[t] == Forgotten <==> w.accepted[t].phy == 0)
           && (w.place[t] == Released <==> t in w.released)
           && (forall i, j :: 0 <= i < j < |w.released| ==> !(w.released[i] == t == w.released[j]))
           && (forall i :: 0 <= i < |w.released| && w.released[i] == t ==>
                 w.slots.calls[i] == w.accepted[t].index)
  {
    assert Inv(Start());
    RunKeeps(Start(), es);
    hide Run, CanRun, Ordered;
  }

  /** What is displayed is a subsequence, in order, of what was accepted. */
  lemma ShownInOrder(es: seq<Event>)
    requires CanRun(Start(), es)
    ensures var w := Run(Start(), es);
      && (forall i :: 0 <= i < |w.shown| ==> 0 <= w.shown[i] < |w.accepted|)
      && (forall i, j :: 0 <= i < j < |w.shown| ==> w.shown[i] < w.shown[j])
  {
    assert Inv(Start());
    RunKeeps(Start(), es);
    hide Run, CanRun, Held, CalledBack;
  }

  /** One turn of the display thread for the frame that waits in the first slot: it is displayed and called
      back; or only called back, if the display was switched off after the thread took it; or lost, if the
      queue call fails. */
  lemma TurnDisplays(w: World)
    requires w.loop == Top && w.slots.first.phy != 0 && w.flag
    ensures var u := Step(Step(w, LoopTest), LoopTake);
      var shown := Step(Step(u, LoopRetest), LoopShow(true));
      var late := Step(Step(u, Disable), LoopRetest);
      var lost := Step(Step(u, LoopRetest), LoopShow(false));
      && u.nowId == w.firstId && u.slots.now == w.slots.first && u.slots.first == w.slots.second
      && u.slots.second.phy == 0
      && shown.loop == Top && shown.shown == w.shown + [w.firstId] && shown.released == w.released + [w.firstId]
      && late.loop == Top && late.shown == w.shown && late.released == w.released + [w.firstId]
      && lost.loop == Top && lost.shown == w.shown && lost.released == w.released
  {}

  /** How often the queue call succeeds. */
  function Displays(es: seq<Event>): nat {
    if es == [] then 0 else Displays(es[1..]) + if es[0] == LoopShow(true) then 1 else 0
  }

  /** Every successful call displays a frame, and nothing else does. */
  lemma {:induction false} DisplaysCounted(w: World, es: seq<Event>)
    requires CanRun(w, es)
    ensures |Run(w, es).shown| == |w.shown| + Displays(es)
    decreases |es|
  {
    if es != [] {
      DisplaysCounted(Step(w, es[0]), es[1..]);
      hide Run, CanRun;
    }
  }

  /** What a switched-off display can still do: the frame the thread was about to queue may be displayed,
      one it was about to take is taken, and the sends that had passed their test may come in. */
  predicate WindsDown(w: World, v: World) {
    && !v.flag
    && (v.shown == w.shown || (w.loop == Showing && v.loop != Showing && v.shown == w.shown + [w.nowId]))
    && (v.loop == Showing ==> w.loop == Showing && v.nowId == w.nowId)
    && (v.loop == Ready ==> w.loop == Ready) && (v.loop == Took ==> w.loop in {Ready, Took})
    && |w.accepted| <= |v.accepted| && |v.accepted| + |v.sending| == |w.accepted| + |w.sending|
  }

  lemma StepWindsDown(w: World, v: World, e: Event)
    requires WindsDown(w, v) && Enabled(v, e) && e != Enable
    ensures WindsDown(w, Step(v, e))
  {}

  /** Until it is switched on again nothing else is accepted, taken or displayed. */
  lemma {:induction false} SwitchedOff(w: World, v: World, es: seq<Event>)
    requires WindsDown(w, v) && CanRun(v, es) && Enable !in es
    ensures WindsDown(w, Run(v, es))
    decreases |es|
  {
    hide WindsDown, Step, Enabled;
    if es != [] {
      StepWindsDown(w, v, es[0]);
      SwitchedOff(w, Step(v, es[0]), es[1..]);
    }
  }

  /** It starts switched off. */
  lemma NothingUntilEnabled(es: seq<Event>)
    requires CanRun(Start(), es) && Enable !in es
    ensures var w := Run(Start(), es);
      w.accepted == [] && w.shown == [] && w.loop == Top
  {
    SwitchedOff(Start(), Start(), es);
    hide Run;
  }

  /** Right after a send the frame just sent waits in a slot, unless its address is 0; and if one
      was dropped to make room, that was the one sent just before, while the oldest one waiting
      stays. */
  lemma NewestKept(w: World, f: Frame)
    requires Inv(w) && f.phy != 0
    ensures var v := Accept(w, f);
      var n := |w.accepted|;
      && v.accepted == w.accepted + [f]
      && v.place[n] in {First, Second}
      && (v.place[n] == First <==> w.slots.first.phy == 0)
      && (forall t :: 0 <= t < n && v.place[t] != w.place[t] ==> t == n - 1 && w.place[t] == Second)
      && (w.slots.first.phy != 0 ==> v.slots.first == w.slots.first)
  {
    hide CalledBack;
  }

  // ----- The code, one call at a time -----

  class IpuInfo {
    var firstPhy: int
    var firstVir: int
    var firstIndex: int
    var secPhy: int
    var secVir: int
    var secIndex: int
    var inputPhy: int
    var inputVir: int
    var nowIndex: int
    var dispFlag: bool
    /** The indices passed to the release callback. */
    var calls: seq<int>

    function State(): Slots
      reads this
    {
      Slots(Frame(firstPhy, firstVir, firstIndex), Frame(secPhy, secVir, secIndex),
            Frame(inputPhy, inputVir, nowIndex), calls)
    }

    constructor ()
      ensures State() == Fresh() && !dispFlag
    {
      firstPhy, firstVir, firstIndex := 0, 0, 0;
      secPhy, secVir, secIndex := 0, 0, 0;
      inputPhy, inputVir, nowIndex := 0, 0, -1;
      dispFlag, calls := false, [];
    }

    method VpuClrDisp(index: int)
      modifies this`calls
      ensures calls == old(calls) + [index]
    {
      calls := calls + [index];
    }

    /** ipu_senddisaddr. */
    method SendDisAddr(phy: int, vir: int, index: int)
      modifies this
      ensures dispFlag == old(dispFlag)
      ensures State() == if dispFlag then Insert(old(State()), Frame(phy, vir, index)) else old(State())
    {
      if !dispFlag {
        return;
      }
      if firstPhy == 0 {
        firstPhy, firstVir, firstIndex := phy, vir, index;
      } else {
        if secPhy != 0 {
          VpuClrDisp(secIndex);
        }
        secPhy, secVir, secIndex := phy, vir, index;
      }
    }

    /** The part of ipu_Task_loop under the index lock. */
    method TakeFrame()
      modifies this
      ensures State() == Take(old(State())) && dispFlag == old(dispFlag)
    {
      inputPhy := firstPhy;
      firstPhy := secPhy;
      inputVir := firstVir;
      firstVir := secVir;
      nowIndex := firstIndex;
      firstIndex := secIndex;
      secPhy := 0;
      secVir := 0;
      secIndex := -1;
    }

    /** One turn of ipu_Task_loop; queued says how the queue call ends. */
    method TaskTurn(queued: bool)
      modifies this
      ensures dispFlag == old(dispFlag)
      ensures State() == if old(firstPhy) == 0 || !dispFlag then old(State())
                         else if queued then Release(Take(old(State())))
                         else Take(old(State()))
    {
      if firstPhy == 0 || !dispFlag {
        return;
      }
      TakeFrame();
      if queued {
        VpuClrDisp(nowIndex);
      }
    }

    /** ipu_enableDisp and ipu_disableDisp. */
    method SetDisp(on: bool)
      modifies this`dispFlag
      ensures dispFlag == on
    {
      dispFlag := on;
    }
  }
}
