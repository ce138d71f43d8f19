/** The queue of stream packets between the receiver and the decoder (commondef.c): bounded by a
    check that is not under the same lock as the append, and cut back to its last I-frame when the
    decoder falls behind. */
module PacketQueue {
  import opened Common
  import opened LinkedQueue

  /** data is the address of the payload, 0 for none. */
  datatype Packet = Packet(data: int, iFrame: bool)

  const LIMIT := 100

  /** The packets queued, the payloads given to free so far, and the queue nodes not yet freed. */
  datatype Store = Store(items: seq<Packet>, freed: seq<int>, nodes: int)

  // ----- The locked sections -----

  /** The payloads that free is given. */
  function Payloads(ps: seq<Packet>): (d: seq<int>)
    ensures |d| <= |ps|
  {
    if ps == [] then [] else (if ps[0].data != 0 then [ps[0].data] else []) + Payloads(ps[1..])
  }

  function Put(s: Store, p: Packet): Store {
    Store(s.items + [p], s.freed, s.nodes + 1)
  }

  function Get(s: Store): (Store, Option<Packet>) {
    if s.items == [] then (s, None)
    else (Store(s.items[1..], s.freed, s.nodes - 1), Some(s.items[0]))
  }

  /** packet_queue_flush frees a node only together with a payload. */
  function Flush(s: Store): Store {
    Store([], s.freed + Payloads(s.items), s.nodes - |Payloads(s.items)|)
  }

  /** The position of the last I-frame, or the length of the queue. */
  function LastIFrame(ps: seq<Packet>): (k: nat)
    ensures k <= |ps|
    ensures k < |ps| ==> ps[k].iFrame
    ensures forall i :: 0 <= i < |ps| && ps[i].iFrame ==> i <= k < |ps|
  {
    if ps == [] then 0
    else if ps[|ps| - 1].iFrame then |ps| - 1
    else
      var k := LastIFrame(ps[..|ps| - 1]);
      if k == |ps| - 1 then |ps| else k
  }

  /** The packets before position k are freed, the one there is taken out. */
  function Collect(s: Store, k: nat): (Store, Option<Packet>)
    requires k < |s.items|
  {
    (Store(s.items[k + 1..], s.freed + Payloads(s.items[..k]), s.nodes - (k + 1)), Some(s.items[k]))
  }

  /** A whole packet_queue_get_first_IFrame, nobody else at the queue. */
  function CutBack(s: Store): (Store, Option<Packet>) {
    var k := LastIFrame(s.items);
    if k < |s.items| then Collect(s, k) else (Flush(s), None)
  }

  // ----- Producers and one consumer -----

  /** What became of a packet that has left the queue: handed to the decoder, freed on the way to
      an I-frame, or freed by a flush. */
  datatype Fate = Delivered | Skipped | Flushed

  /** Where the consumer stands in packet_queue_get_first_IFrame: outside, between the scan and the
      removal, having seen that many packets and found that one, or about to flush. */
  datatype Phase = Outside | Found(frame: nat, seen: nat) | Missed

  /** inside holds, per producer, the packet that has passed the check and is not appended yet.
      Packets are numbered in the order they are appended: history has them all, fate what became
      of the first of them. */
  datatype World = World(store: Store, inside: map<nat, Packet>, phase: Phase,
                         history: seq<Packet>, fate: seq<Fate>)

  function Start(): World {
    World(Store([], [], 0), map[], Outside, [], [])
  }

  datatype Event =
    | Check(producer: nat, packet: Packet)
    | Append(producer: nat)
    | TryGet
    | Scan
    | Finish
    | FlushAll

  predicate Enabled(w: World, producers: nat, e: Event) {
    match e
    case Check(i, _) => i < producers && i !in w.inside
    case Append(i) => i in w.inside
    case Finish => w.phase != Outside
    case _ => w.phase == Outside
  }

  function Repeat(f: Fate, n: nat): (s: seq<Fate>)
    ensures |s| == n
  {
    seq(n, _ => f)
  }

  ghost predicate Shaped(w: World) {
    && |w.fate| + |w.store.items| == |w.history|
    && (w.phase.Found? ==> |w.fate| <= w.phase.frame < w.phase.seen <= |w.history|)
  }

  ghost function Step(w: World, producers: nat, e: Event): (v: World)
    requires Shaped(w) && Enabled(w, producers, e)
    ensures Shaped(v)
  {
    match e
    case Check(i, p) => if |w.store.items| > LIMIT then w else w.(inside := w.inside[i := p])
    case Append(i) =>
      w.(store := Put(w.store, w.inside[i]), inside := w.inside - {i},
         history := w.history + [w.inside[i]])
    case TryGet =>
      w.(store := Get(w.store).0,
         fate := w.fate + if w.store.items == [] then [] else [Delivered])
    case Scan =>
      var k := LastIFrame(w.store.items);
      w.(phase := if k < |w.store.items| then Found(|w.fate| + k, |w.history|) else Missed)
    case Finish =>
      if w.phase.Found? then
        var k := w.phase.frame - |w.fate|;
        w.(store := Collect(w.store, k).0, phase := Outside,
           fate := w.fate + Repeat(Skipped, k) + [Delivered])
      else FlushWorld(w)
    case FlushAll => FlushWorld(w)
  }

  ghost function FlushWorld(w: World): World {
    w.(store := Flush(w.store), phase := Outside,
       fate := w.fate + Repeat(Flushed, |w.store.items|))
  }

  /** The payloads of the packets that were not delivered. */
  ghost function FreedPayloads(history: seq<Packet>, fate: seq<Fate>): seq<int>
    requires |fate| <= |history|
  {
    if fate == [] then []
    else
      var n := |fate| - 1;
      FreedPayloads(history, fate[..n])
      + if fate[n] != Delivered && history[n].data != 0 then [history[n].data] else []
  }

  /** The nodes a flush left behind. */
  ghost function Leaked(history: seq<Packet>, fate: seq<Fate>): nat
    requires |fate| <= |history|
  {
    if fate == [] then 0
    else
      var n := |fate| - 1;
      Leaked(history, fate[..n]) + if fate[n] == Flushed && history[n].data == 0 then 1 else 0
  }

  /** The queue holds exactly the packets after those that have left, in order; free was called
      once for the payload of each packet that left undelivered, in order, and for no other; nodes
      are leaked only by a flush of packets without payload; and an I-frame found is still there
      and was the last one seen. */
  ghost predicate Inv(w: World, producers: nat) {
    && Shaped(w)
    && w.store.items == w.history[|w.fate|..]
    && w.store.freed == FreedPayloads(w.history, w.fate)
    && w.store.nodes == |w.store.items| + Leaked(w.history, w.fate)
    && (forall i :: i in w.inside ==> i < producers)
    && |w.store.items| + |w.inside| <= LIMIT + producers
    && (w.phase.Found? ==>
          && w.history[w.phase.frame].iFrame
          && forall t :: w.phase.frame < t < w.phase.seen ==> !w.history[t].iFrame)
  }

  // ----- What a step keeps -----

  lemma {:induction false} FreedGrows(history: seq<Packet>, fate: seq<Fate>, p: Packet)
    requires |fate| <= |history|
    ensures FreedPayloads(history + [p], fate) == FreedPayloads(history, fate)
    ensures Leaked(history + [p], fate) == Leaked(history, fate)
    decreases |fate|
  {
    if fate != [] {
      FreedGrows(history, fate[..|fate| - 1], p);
    }
  }

  lemma {:induction false} PayloadsLast(ps: seq<Packet>)
    requires ps != []
    ensures var n := |ps| - 1;
      Payloads(ps) == Payloads(ps[..n]) + if ps[n].data != 0 then [ps[n].data] else []
  {
    if |ps| > 1 {
      PayloadsLast(ps[1..]);
      assert ps[1..][..|ps| - 2] == ps[..|ps| - 1][1..];
    }
  }

  lemma FateLast(history: seq<Packet>, fate: seq<Fate>, f: Fate)
    requires |fate| < |history|
    ensures var p := history[|fate|];
      && FreedPayloads(history, fate + [f])
         == FreedPayloads(history, fate) + (if f != Delivered && p.data != 0 then [p.data] else [])
      && Leaked(history, fate + [f]) == Leaked(history, fate) + if f == Flushed && p.data == 0 then 1 else 0
  {
    assert (fate + [f])[..|fate|] == fate;
  }

  lemma Associative(a: seq<int>, b: seq<int>, c: seq<int>)
    ensures a + b + c == a + (b + c)
  {}

  lemma FateMore(history: seq<Packet>, fate: seq<Fate>, more: seq<Fate>, f: Fate, ps: seq<Packet>, p: Packet)
    requires |fate + more| < |history| && f != Delivered && p == history[|fate + more|]
    requires FreedPayloads(history, fate + more) == FreedPayloads(history, fate) + Payloads(ps)
    ensures FreedPayloads(history, fate + more + [f]) == FreedPayloads(history, fate) + Payloads(ps + [p])
    ensures Leaked(history, fate + more + [f])
         == Leaked(history, fate + more)
            + if f == Flushed then 1 + |Payloads(ps)| - |Payloads(ps + [p])| else 0
  {
    var last := if p.data != 0 then [p.data] else [];
    FateLast(history, fate + more, f);
    PayloadsLast(ps + [p]);
    assert (ps + [p])[..|ps|] == ps;
    Associative(FreedPayloads(history, fate), Payloads(ps), last);
    hide *;
  }

  lemma RepeatMore(fate: seq<Fate>, f: Fate, k: nat)
    requires k > 0
    ensures fate + Repeat(f, k) == fate + Repeat(f, k - 1) + [f]
  {}

  lemma SliceMore(ps: seq<Packet>, i: nat, n: nat)
    requires i <= n < |ps|
    ensures ps[i..n + 1] == ps[i..n] + [ps[n]]
  {}

  lemma {:induction false} FateRun(history: seq<Packet>, fate: seq<Fate>, f: Fate, k: nat)
    requires |fate| + k <= |history| && f != Delivered
    ensures var ps := history[|fate|..|fate| + k];
      && FreedPayloads(history, fate + Repeat(f, k)) == FreedPayloads(history, fate) + Payloads(ps)
      && Leaked(history, fate + Repeat(f, k))
         == Leaked(history, fate) + if f == Flushed then k - |Payloads(ps)| else 0
  {
    if k == 0 {
      assert fate + Repeat(f, k) == fate;
    } else {
      var n := |fate| + k - 1;
      hide FreedPayloads, Leaked, Payloads, Repeat;
      RepeatMore(fate, f, k);
      SliceMore(history, |fate|, n);
      FateRun(history, fate, f, k - 1);
      FateMore(history, fate, Repeat(f, k - 1), f, history[|fate|..n], history[n]);
    }
  }

  lemma AppendKeeps(w: World, producers: nat, i: nat)
    requires Inv(w, producers) && i in w.inside
    ensures Inv(Step(w, producers, Append(i)), producers)
  {
    FreedGrows(w.history, w.fate, w.inside[i]);
    hide FreedPayloads, Leaked;
    assert w.inside.Keys == (w.inside - {i}).Keys + {i};
  }

  lemma TryGetKeeps(w: World, producers: nat)
    requires Inv(w, producers) && w.phase == Outside
    ensures Inv(Step(w, producers, TryGet), producers)
  {
    if w.store.items == [] {
      assert w.fate + [] == w.fate;
    } else {
      FateLast(w.history, w.fate, Delivered);
    }
    hide FreedPayloads, Leaked;
  }

  lemma CollectLedger(w: World, k: nat)
    requires |w.fate| + |w.store.items| == |w.history| && w.store.items == w.history[|w.fate|..]
    requires k < |w.store.items| && w.store.freed == FreedPayloads(w.history, w.fate)
    ensures var fate := w.fate + Repeat(Skipped, k) + [Delivered];
      var s := Collect(w.store, k).0;
      && |fate| == |w.fate| + k + 1 && |s.items| + |fate| == |w.history|
      && s.items == w.history[|fate|..]
      && s.freed == FreedPayloads(w.history, fate)
      && Leaked(w.history, fate) == Leaked(w.history, w.fate)
  {
    hide FreedPayloads, Leaked, Payloads;
    assert w.history[|w.fate|..|w.fate| + k] == w.store.items[..k];
    FateRun(w.history, w.fate, Skipped, k);
    FateLast(w.history, w.fate + Repeat(Skipped, k), Delivered);
  }

  lemma CollectKeeps(w: World, producers: nat)
    requires Inv(w, producers) && w.phase.Found?
    ensures Inv(Step(w, producers, Finish), producers)
  {
    var k := w.phase.frame - |w.fate|;
    CollectLedger(w, k);
    assert Collect(w.store, k).0.nodes == w.store.nodes - (k + 1);
    hide FreedPayloads, Leaked, Payloads, Collect, Repeat;
  }

  lemma FlushKeeps(w: World, producers: nat)
    requires Inv(w, producers)
    ensures Inv(FlushWorld(w), producers)
  {
    hide FreedPayloads, Leaked, Payloads;
    FateRun(w.history, w.fate, Flushed, |w.store.items|);
    assert w.history[|w.fate|..|w.fate| + |w.store.items|] == w.store.items;
  }

  lemma CheckKeeps(w: World, producers: nat, i: nat, p: Packet)
    requires Inv(w, producers) && i < producers && i !in w.inside
    ensures Inv(Step(w, producers, Check(i, p)), producers)
  {
    hide FreedPayloads, Leaked;
    var inside := w.inside[i := p];
    Producers(inside.Keys, producers);
    assert inside.Keys == w.inside.Keys + {i};
  }

  /** There are at most so many producers. */
  lemma {:induction false} Producers(ids: set<nat>, producers: nat)
    requires forall i :: i in ids ==> i < producers
    ensures |ids| <= producers
  {
    if producers == 0 {
      assert ids == {};
    } else {
      Producers(ids - {producers - 1}, producers - 1);
    }
  }

  lemma ScanKeeps(w: World, producers: nat)
    requires Inv(w, producers) && w.phase == Outside
    ensures Inv(Step(w, producers, Scan), producers)
  {
    hide FreedPayloads, Leaked, LastIFrame;
    var k := LastIFrame(w.store.items);
    forall t | |w.fate| + k < t < |w.history|
      ensures !w.history[t].iFrame
    {
      assert w.history[t] == w.store.items[t - |w.fate|];
    }
  }

  lemma StepKeeps(w: World, producers: nat, e: Event)
    requires Inv(w, producers) && Enabled(w, producers, e)
    ensures Inv(Step(w, producers, e), producers)
  {
    match e
    case Check(i, p) => CheckKeeps(w, producers, i, p);
    case Append(i) => AppendKeeps(w, producers, i);
    case TryGet => TryGetKeeps(w, producers);
    case Scan => ScanKeeps(w, producers);
    case Finish =>
      if w.phase.Found? {
        CollectKeeps(w, producers);
      } else {
        FlushKeeps(w, producers);
      }
    case FlushAll => FlushKeeps(w, producers);
  }

  // ----- Every run -----

  ghost predicate CanRun(w: World, producers: nat, es: seq<Event>)
    requires Shaped(w)
    decreases |es|
  {
    es != [] ==> Enabled(w, producers, es[0]) && CanRun(Step(w, producers, es[0]), producers, es[1..])
  }

  ghost function Run(w: World, producers: nat, es: seq<Event>): (v: World)
    requires Shaped(w) && CanRun(w, producers, es)
    ensures Shaped(v)
    decreases |es|
  {
    if es == [] then w else Run(Step(w, producers, es[0]), producers, es[1..])
  }

  lemma {:induction false} RunKeeps(w: World, producers: nat, es: seq<Event>)
    requires Inv(w, producers) && CanRun(w, producers, es)
    ensures Inv(Run(w, producers, es), producers)
    decreases |es|
  {
    hide FreedPayloads, Leaked, Step;
    if es != [] {
      assert Enabled(w, producers, es[0]);
      StepKeeps(w, producers, es[0]);
      RunKeeps(Step(w, producers, es[0]), producers, es[1..]);
    }
  }

  lemma StartInv(producers: nat)
    ensures Inv(Start(), producers)
  {}

  /** Over every run with any number of producers and one consumer: the queue holds exactly the
      packets after those that have left, in order; free was called exactly once for the payload
      of each packet that left undelivered; and the queue never has more than 100 packets and one
      for each producer. */
  lemma EveryRunAccounts(producers: nat, es: seq<Event>)
    requires CanRun(Start(), producers, es)
    ensures var w := Run(Start(), producers, es);
      && |w.fate| <= |w.history| && w.store.items == w.history[|w.fate|..]
      && w.store.freed == FreedPayloads(w.history, w.fate)
      && w.store.nodes == |w.store.items| + Leaked(w.history, w.fate)
      && |w.store.items| <= LIMIT + producers
  {
    StartInv(producers);
    RunKeeps(Start(), producers, es);
    hide FreedPayloads, Leaked, Run, CanRun;
  }

  lemma {:induction false} RunOneMore(w: World, producers: nat, es: seq<Event>, e: Event)
    requires Shaped(w) && CanRun(w, producers, es) && Enabled(Run(w, producers, es), producers, e)
    ensures CanRun(w, producers, es + [e])
    ensures Run(w, producers, es + [e]) == Step(Run(w, producers, es), producers, e)
    decreases |es|
  {
    hide FreedPayloads, Leaked, Step;
    if es == [] {
      assert [e][1..] == [];
    } else {
      assert (es + [e])[1..] == es[1..] + [e];
      RunOneMore(Step(w, producers, es[0]), producers, es[1..], e);
    }
  }

  const P0 := Packet(0, false)

  /** n packets queued, and the producers from lo up to hi past the check. */
  ghost predicate Crowd(w: World, n: nat, lo: nat, hi: nat) {
    |w.store.items| == n && forall i: nat :: i in w.inside <==> lo <= i < hi
  }

  lemma CheckCrowds(w: World, producers: nat, n: nat, k: nat)
    requires Shaped(w) && Crowd(w, n, 0, k) && k < producers && n <= LIMIT
    ensures Enabled(w, producers, Check(k, P0))
    ensures Crowd(Step(w, producers, Check(k, P0)), n, 0, k + 1)
  {
    hide FreedPayloads, Leaked;
  }

  lemma AppendCrowds(w: World, producers: nat, n: nat, lo: nat, hi: nat)
    requires Shaped(w) && Crowd(w, n, lo, hi) && lo < hi
    ensures Enabled(w, producers, Append(lo))
    ensures Crowd(Step(w, producers, Append(lo)), n + 1, lo + 1, hi)
  {
    hide FreedPayloads, Leaked;
  }

  /** One producer alone can bring the queue to 100 packets; all of them can then pass the check. */
  lemma {:induction false} Crowded(producers: nat, n: nat, k: nat) returns (es: seq<Event>)
    requires n <= LIMIT && k <= producers && producers > 0 && (k > 0 ==> n == LIMIT)
    ensures CanRun(Start(), producers, es)
    ensures Crowd(Run(Start(), producers, es), n, 0, k)
    decreases n, k
  {
    if n == 0 {
      es := [];
    } else {
      hide Step, Run, CanRun, Crowd;
      es := Crowded(producers, if k == 0 then n - 1 else n, if k == 0 then 0 else k - 1);
      var w := Run(Start(), producers, es);
      var i := if k == 0 then 0 else k - 1;
      CheckCrowds(w, producers, if k == 0 then n - 1 else n, i);
      RunOneMore(Start(), producers, es, Check(i, P0));
      es := es + [Check(i, P0)];
      if k == 0 {
        AppendCrowds(Run(Start(), producers, es), producers, n - 1, 0, 1);
        RunOneMore(Start(), producers, es, Append(0));
        es := es + [Append(0)];
        NobodyIn(Run(Start(), producers, es), n, 1);
      }
    }
  }

  lemma NobodyIn(w: World, n: nat, i: nat)
    requires Crowd(w, n, i, i)
    ensures Crowd(w, n, 0, 0)
  {}

  lemma {:induction false} Overfull(producers: nat, k: nat) returns (es: seq<Event>)
    requires k <= producers && producers > 0
    ensures CanRun(Start(), producers, es)
    ensures Crowd(Run(Start(), producers, es), LIMIT + k, k, producers)
  {
    hide Step, Run, CanRun, Crowd;
    if k == 0 {
      es := Crowded(producers, LIMIT, producers);
    } else {
      es := Overfull(producers, k - 1);
      AppendCrowds(Run(Start(), producers, es), producers, LIMIT + k - 1, k - 1, producers);
      RunOneMore(Start(), producers, es, Append(k - 1));
      es := es + [Append(k - 1)];
    }
  }

  /** The bound is reached: with one or more producers some run brings the queue to exactly 100
      packets and one for each of them. */
  lemma BoundReached(producers: nat) returns (es: seq<Event>)
    requires producers > 0
    ensures CanRun(Start(), producers, es)
    ensures |Run(Start(), producers, es).store.items| == LIMIT + producers
  {
    es := Overfull(producers, producers);
  }

  ghost predicate OnlyProducers(es: seq<Event>) {
    forall i :: 0 <= i < |es| ==> es[i].Check? || es[i].Append?
  }

  lemma {:induction false} ProducersOnlyAdd(w: World, producers: nat, es: seq<Event>)
    requires Shaped(w) && CanRun(w, producers, es) && OnlyProducers(es)
    ensures var v := Run(w, producers, es);
      v.phase == w.phase && v.fate == w.fate && w.history <= v.history
    decreases |es|
  {
    if es != [] {
      ProducersOnlyAdd(Step(w, producers, es[0]), producers, es[1..]);
    }
  }

  /** packet_queue_get_first_IFrame looks and removes in two locked sections. Whatever producers do
      in between, it hands out the I-frame that was last when it looked, frees what was before it
      and leaves exactly what was after it followed by what has been appended since; and if it
      saw none, it frees everything, an I-frame appended meanwhile included. */
  lemma FirstIFrame(w: World, producers: nat, es: seq<Event>)
    requires Inv(w, producers) && w.phase == Outside
    requires CanRun(Step(w, producers, Scan), producers, es) && OnlyProducers(es)
    ensures var u := Run(Step(w, producers, Scan), producers, es);
      var items := w.store.items;
      var k := LastIFrame(items);
      && items <= u.store.items && u.phase != Outside
      && var v, later := Step(u, producers, Finish), u.store.items[|items|..];
         if k < |items| then
           && u.phase.Found? && u.phase.frame == |u.fate| + k
           && Collect(u.store, k).1 == Some(items[k])
           && v.store.items == items[k + 1..] + later
           && v.store.freed == u.store.freed + Payloads(items[..k])
         else v.store.items == [] && v.store.freed == u.store.freed + Payloads(items + later)
  {
    hide FreedPayloads, Leaked, LastIFrame, Payloads, Run, CanRun;
    var v := Step(w, producers, Scan);
    StepKeeps(w, producers, Scan);
    RunKeeps(v, producers, es);
    ProducersOnlyAdd(v, producers, es);
    var u := Run(v, producers, es);
    assert w.store.items <= u.store.items;
    assert u.phase == v.phase && u.fate == w.fate;
    hide Step, Inv;
    var later := u.store.items[|w.store.items|..];
    assert u.store.items == w.store.items + later;
    FinishTakes(u, producers, w.store.items, later, LastIFrame(w.store.items));
  }

  lemma FinishTakes(u: World, producers: nat, items: seq<Packet>, later: seq<Packet>, k: nat)
    requires Shaped(u) && u.store.items == items + later && k <= |items|
    requires u.phase == if k < |items| then Found(|u.fate| + k, |u.fate| + |items|) else Missed
    ensures var v := Step(u, producers, Finish);
      if k < |items| then
        && Collect(u.store, k).1 == Some(items[k])
        && v.store.items == items[k + 1..] + later
        && v.store.freed == u.store.freed + Payloads(items[..k])
      else v.store.items == [] && v.store.freed == u.store.freed + Payloads(items + later)
  {
    hide Payloads, Repeat;
    if k < |items| {
      assert (items + later)[..k] == items[..k];
      assert (items + later)[k + 1..] == items[k + 1..] + later;
    }
  }

  // ----- The code, one call at a time -----

  class DataQueue {
    const q: Queue<Packet>
    var freed: seq<int>
    var nodes: int

    ghost predicate Valid()
      reads this, q, q.nodes
    {
      q.Valid()
    }

    ghost function State(): Store
      reads this, q
    {
      Store(q.Items(), freed, nodes)
    }

    constructor ()
      ensures Valid() && State() == Store([], [], 0) && fresh(q)
    {
      q := new Queue<Packet>();
      freed, nodes := [], 0;
    }

    method FreePayload(data: int)
      modifies this`freed
      ensures freed == old(freed) + if data != 0 then [data] else []
    {
      if data != 0 {
        freed := freed + [data];
      }
    }

    /** The test packet_queue_put repeats until it passes. */
    method HasRoom() returns (ok: bool)
      requires Valid()
      ensures ok <==> |State().items| <= LIMIT
    {
      return !(q.count > LIMIT);
    }

    /** The rest of packet_queue_put; the node was allocated before. */
    method Append(p: Packet, mallocOk: bool) returns (result: int)
      requires Valid()
      modifies this`nodes, q, q.nodes
      ensures Valid() && result == if mallocOk then 0 else -1
      ensures State() == if mallocOk then Put(old(State()), p) else old(State())
    {
      if !mallocOk {
        return -1;
      }
      var node := new Node(p);
      nodes := nodes + 1;
      q.Append(node);
      return 0;
    }

    /** packet_queue_get that does not wait. */
    method TryGet() returns (p: Option<Packet>)
      requires Valid()
      modifies this`nodes, q
      ensures Valid() && (State(), p) == Get(old(State()))
    {
      if q.first == null {
        return None;
      }
      p := Some(q.first.item);
      q.UnlinkFirst();
      nodes := nodes - 1;
      assert q.Items() == old(q.Items())[1..];
    }

    /** packet_queue_flush. */
    method FlushQueue()
      requires Valid()
      modifies this, q
      ensures Valid() && State() == Flush(old(State()))
    {
      hide Payloads, NoRepeat;
      ghost var i := 0;
      ghost var items := q.Items();
      var node := q.first;
      while node != null
        invariant Valid() && q.nodes == old(q.nodes)
        invariant 0 <= i <= |items| && node == q.At(i)
        invariant freed + Payloads(items[i..]) == old(freed) + Payloads(items)
        invariant nodes - |Payloads(items[i..])| == old(nodes) - |Payloads(items)|
        decreases |items| - i
      {
        assert q.Linked(i);
        PayloadsFirst(items, i);
        var next := node.next;
        if node.item.data != 0 {
          FreePayload(node.item.data);
          nodes := nodes - 1;
        }
        node := next;
        i := i + 1;
      }
      PayloadsNone(items[i..]);
      q.Clear();
    }

    /** FindIFrameFromeQueue. */
    method FindIFrame() returns (found: Node?<Packet>)
      requires Valid()
      ensures found == q.At(LastIFrame(State().items))
    {
      ghost var i, items := 0, q.Items();
      found := null;
      var node := q.first;
      while node != null
        invariant 0 <= i <= |items| && node == q.At(i)
        invariant found == q.At(LastIFrame(items[..i])) || (found == null && LastIFrame(items[..i]) == i)
        invariant LastIFrame(items[..i]) == i ==> found == null
        decreases |items| - i
      {
        assert q.Linked(i);
        assert items[..i + 1][..i] == items[..i];
        if node.item.iFrame {
          found := node;
        }
        node := node.next;
        i := i + 1;
      }
      assert items[..i] == items;
    }

    /** Frees the first packet, payload and node. */
    method SkipFirst()
      requires Valid() && q.first != null
      modifies this, q
      ensures Valid() && |old(State()).items| > 0 && State() == Skip(old(State()))
      ensures q.nodes == old(q.nodes)[1..]
    {
      FreePayload(q.first.item.data);
      q.UnlinkFirst();
      nodes := nodes - 1;
      assert q.Items() == old(q.Items())[1..];
    }

    /** The loop of packet_queue_get_first_IFrame, up to the node it looks for. */
    method TakeNode(found: Node<Packet>, ghost at: nat) returns (p: Option<Packet>)
      requires Valid() && at < |q.nodes| && found == q.nodes[at]
      modifies this, q
      ensures Valid() && (State(), p) == Collect(old(State()), at)
    {
      hide Collect, Get, Skip, NoRepeat, Payloads, ItemsOf, Queue.Linked, Queue.Items;
      ghost var k := at;
      while q.first != null
        invariant Valid() && 0 <= k < |q.nodes| && found == q.nodes[k]
        invariant Collect(State(), k) == Collect(old(State()), at)
        decreases k
      {
        if q.first != found {
          SkipCollects(State(), k);
          SkipFirst();
          k := k - 1;
        } else {
          FirstOnce(q.nodes, k);
          CollectFirst(State());
          p := TryGet();
          return;
        }
      }
      p := None;
    }

    /** packet_queue_get_first_IFrame. */
    method GetFirstIFrame() returns (p: Option<Packet>)
      requires Valid()
      modifies this, q
      ensures Valid() && (State(), p) == CutBack(old(State()))
    {
      hide Payloads, NoRepeat, Collect;
      var found := FindIFrame();
      if found == null {
        FlushQueue();
        p := None;
      } else {
        p := TakeNode(found, LastIFrame(State().items));
      }
    }
  }

  function Skip(s: Store): Store
    requires |s.items| > 0
  {
    Store(s.items[1..], s.freed + (if s.items[0].data != 0 then [s.items[0].data] else []), s.nodes - 1)
  }

  /** Freeing the packets before an I-frame one by one. */
  lemma SkipCollects(s: Store, k: nat)
    requires 0 < k < |s.items|
    ensures Collect(Skip(s), k - 1) == Collect(s, k)
  {
    assert s.items[1..][..k - 1] == s.items[..k][1..];
    assert s.items[1..][k..] == s.items[k + 1..];
    var d := if s.items[0].data != 0 then [s.items[0].data] else [];
    Associative(s.freed, d, Payloads(s.items[1..k]));
    assert s.items[..k][1..] == s.items[1..k];
  }

  lemma CollectFirst(s: Store)
    requires |s.items| > 0
    ensures Get(s) == Collect(s, 0)
  {
    assert s.items[..0] == [];
    assert s.freed + [] == s.freed;
  }

  lemma PayloadsFirst(ps: seq<Packet>, i: nat)
    requires i < |ps|
    ensures Payloads(ps[i..]) == (if ps[i].data != 0 then [ps[i].data] else []) + Payloads(ps[i + 1..])
  {
    assert ps[i..][1..] == ps[i + 1..];
  }

  lemma PayloadsNone(ps: seq<Packet>)
    requires ps == []
    ensures Payloads(ps) == []
  {}
}
