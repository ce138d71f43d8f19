/** The pool of 64 frame buffers (fb.c): a stack of free descriptors, a queue of freed buffers
    kept with their memory under their size, and the run of locked sections that any number of
    decoder threads make of them. A buffer is named by its position in the pool. */
module FrameBuffers {
  import opened LinkedQueue

  const NUM_FRAME_BUFS := 64
  const NONE := -1

  datatype Entry = Entry(width: int, height: int, buffer: int)

  /** What is kept in memory: the free stack with its index, and the queue of freed buffers. */
  datatype Pool = Pool(index: int, slots: seq<int>, cache: seq<Entry>)

  predicate Shaped(p: Pool) {
    |p.slots| == NUM_FRAME_BUFS && 0 <= p.index <= NUM_FRAME_BUFS
  }

  function Init(): Pool {
    Pool(0, seq(NUM_FRAME_BUFS, i => i), [])
  }

  // ----- The locked sections -----

  function Get(p: Pool): (r: (Pool, int))
    requires Shaped(p)
    ensures Shaped(r.0)
  {
    if p.index >= NUM_FRAME_BUFS then (p, NONE)
    else (p.(index := p.index + 1, slots := p.slots[p.index := NONE]), p.slots[p.index])
  }

  function Put(p: Pool, b: int): (q: Pool)
    requires Shaped(p)
    ensures Shaped(q) && q.cache == p.cache
  {
    if p.index <= 0 then p
    else p.(index := p.index - 1, slots := p.slots[p.index - 1 := b])
  }

  /** The first freed buffer of this size, or the length of the queue. */
  function Match(cache: seq<Entry>, width: int, height: int): (k: nat)
    ensures k <= |cache|
    ensures k < |cache| ==> cache[k].width == width && cache[k].height == height
    ensures forall i :: 0 <= i < k ==> !(cache[i].width == width && cache[i].height == height)
  {
    if cache == [] || (cache[0].height == height && cache[0].width == width) then 0
    else 1 + Match(cache[1..], width, height)
  }

  function Take(p: Pool, width: int, height: int): (r: (Pool, int))
    requires Shaped(p)
    ensures Shaped(r.0)
  {
    var k := Match(p.cache, width, height);
    if k == |p.cache| then (p, NONE)
    else (p.(cache := Without(p.cache, k)), p.cache[k].buffer)
  }

  function Release(p: Pool, b: int): (q: Pool)
    requires Shaped(p)
    ensures Shaped(q) && q.cache == p.cache
  {
    if b == NONE then p else Put(p, b)
  }

  function ReleaseAll(p: Pool, entries: seq<Entry>): (q: Pool)
    requires Shaped(p)
    ensures Shaped(q)
    decreases |entries|
  {
    if entries == [] then p
    else ReleaseAll(Release(p, entries[0].buffer), entries[1..])
  }

  function Flush(p: Pool): (q: Pool)
    requires Shaped(p)
    ensures Shaped(q)
  {
    ReleaseAll(p, p.cache).(cache := [])
  }

  /** One whole framebuf_alloc, no other thread in between. */
  function Alloc(p: Pool, width: int, height: int, phyOk: bool, virtOk: bool): (r: (Pool, int))
    requires Shaped(p)
    ensures Shaped(r.0)
  {
    var (q, hit) := Take(p, width, height);
    if hit != NONE then (q, hit)
    else
      var (f, b) := Get(if |q.cache| > 0 then Flush(q) else q);
      (f, if phyOk && virtOk then b else NONE)
  }

  function Free(p: Pool, b: int, width: int, height: int, mallocOk: bool): (q: Pool)
    requires Shaped(p)
    ensures Shaped(q)
  {
    if b == NONE || !mallocOk then p
    else p.(cache := p.cache + [Entry(width, height, b)])
  }

  // ----- Where every buffer is -----

  /** On the free stack; taken off it and being given memory; with a client; freed and queued;
      dropped because memory could not be had; dropped, memory and all, because no queue node
      could be had. */
  datatype Place = Stacked | InSetUp | Held | Queued | Lost | Dropped

  datatype Size = Size(width: int, height: int)

  /** The pool and, for each buffer, its place, how many blocks of physical memory it holds, the
      size it was last freed under and the size its memory was made for. */
  datatype World = World(pool: Pool, place: seq<Place>, blocks: seq<int>,
                         freedAs: seq<Size>, madeFor: seq<Size>)

  predicate Sized(w: World) {
    && Shaped(w.pool)
    && |w.place| == |w.blocks| == |w.freedAs| == |w.madeFor| == NUM_FRAME_BUFS
  }

  predicate IsBuffer(b: int) {
    0 <= b < NUM_FRAME_BUFS
  }

  function Start(): World {
    World(Init(), seq(NUM_FRAME_BUFS, i => Stacked), seq(NUM_FRAME_BUFS, i => 0),
          seq(NUM_FRAME_BUFS, i => Size(0, 0)), seq(NUM_FRAME_BUFS, i => Size(0, 0)))
  }

  /** One locked section of one thread: a queue lookup, one freed buffer put back on the stack by
      a flush, a buffer taken off the stack, the memory calls on it, and a client's free. */
  datatype Section =
    | TakeQueued(width: int, height: int)
    | PutBack
    | TakeFree
    | SetUp(buffer: int, width: int, height: int, phyOk: bool, virtOk: bool)
    | Store(buffer: int, width: int, height: int, mallocOk: bool)

  /** A thread sets up what it took; a client frees what it holds. */
  predicate Enabled(w: World, s: Section)
    requires Sized(w)
  {
    match s
    case SetUp(b, _, _, _, _) => IsBuffer(b) && w.place[b] == InSetUp
    case Store(b, _, _, _) => IsBuffer(b) && w.place[b] == Held
    case _ => true
  }

  function MoveTo(w: World, b: int, place: Place): (v: World)
    requires Sized(w)
    ensures Sized(v) && v.pool == w.pool
  {
    if IsBuffer(b) then w.(place := w.place[b := place]) else w
  }

  function Step(w: World, s: Section): (v: World)
    requires Sized(w) && Enabled(w, s)
    ensures Sized(v)
  {
    match s
    case TakeQueued(width, height) =>
      var (q, b) := Take(w.pool, width, height);
      MoveTo(w.(pool := q), b, Held)
    case PutBack =>
      if w.pool.cache == [] then w
      else
        var b := w.pool.cache[0].buffer;
        var v := MoveTo(w.(pool := Release(w.pool.(cache := w.pool.cache[1..]), b)), b, Stacked);
        if IsBuffer(b) then v.(blocks := v.blocks[b := v.blocks[b] - 1]) else v
    case TakeFree =>
      var (q, b) := Get(w.pool);
      MoveTo(w.(pool := q), b, InSetUp)
    case SetUp(b, width, height, phyOk, virtOk) =>
      if phyOk && virtOk then
        MoveTo(w, b, Held).(blocks := w.blocks[b := w.blocks[b] + 1],
                            madeFor := w.madeFor[b := Size(width, height)])
      else MoveTo(w, b, Lost)
    case Store(b, width, height, mallocOk) =>
      var v := w.(pool := Free(w.pool, b, width, height, mallocOk));
      if mallocOk then MoveTo(v, b, Queued).(freedAs := v.freedAs[b := Size(width, height)])
      else MoveTo(v, b, Dropped)
  }

  ghost predicate CanRun(w: World, ss: seq<Section>)
    requires Sized(w)
    decreases |ss|
  {
    ss != [] ==> Enabled(w, ss[0]) && CanRun(Step(w, ss[0]), ss[1..])
  }

  ghost function Run(w: World, ss: seq<Section>): (v: World)
    requires Sized(w) && CanRun(w, ss)
    ensures Sized(v)
    decreases |ss|
  {
    if ss == [] then w else Run(Step(w, ss[0]), ss[1..])
  }

  function Count(places: seq<Place>, p: Place): (n: nat)
    ensures n <= |places|
  {
    if places == [] then 0 else (if places[0] == p then 1 else 0) + Count(places[1..], p)
  }

  ghost predicate OnStack(p: Pool, b: int)
    requires Shaped(p)
  {
    exists i :: p.index <= i < NUM_FRAME_BUFS && p.slots[i] == b
  }

  ghost predicate InQueue(cache: seq<Entry>, b: int) {
    exists i :: 0 <= i < |cache| && cache[i].buffer == b
  }

  /** The stack is null below its index and holds, once each, exactly the buffers whose place it is. */
  ghost predicate StackRight(w: World)
    requires Sized(w)
  {
    && (forall i :: 0 <= i < w.pool.index ==> w.pool.slots[i] == NONE)
    && (forall i :: w.pool.index <= i < NUM_FRAME_BUFS ==>
          IsBuffer(w.pool.slots[i]) && w.place[w.pool.slots[i]] == Stacked)
    && (forall i, j :: w.pool.index <= i < j < NUM_FRAME_BUFS ==> w.pool.slots[i] != w.pool.slots[j])
    && (forall b :: 0 <= b < NUM_FRAME_BUFS && w.place[b] == Stacked ==> OnStack(w.pool, b))
    && Count(w.place, Stacked) == NUM_FRAME_BUFS - w.pool.index
  }

  ghost predicate Distinct(c: seq<Entry>) {
    forall i, j :: 0 <= i < j < |c| ==> c[i].buffer != c[j].buffer
  }

  /** So does the queue, each buffer under the size it was freed with. */
  ghost predicate QueueRight(w: World)
    requires Sized(w)
  {
    var c := w.pool.cache;
    && (forall i :: 0 <= i < |c| ==>
          && IsBuffer(c[i].buffer) && w.place[c[i].buffer] == Queued
          && w.freedAs[c[i].buffer] == Size(c[i].width, c[i].height))
    && Distinct(c)
    && (forall b :: 0 <= b < NUM_FRAME_BUFS && w.place[b] == Queued ==> InQueue(c, b))
    && Count(w.place, Queued) == |c|
  }

  /** Memory is held, once, by exactly the buffers that are with a client, freed, or dropped with it. */
  ghost predicate MemoryRight(w: World)
    requires Sized(w)
  {
    forall b :: 0 <= b < NUM_FRAME_BUFS ==>
      w.blocks[b] == if w.place[b] in {Held, Queued, Dropped} then 1 else 0
  }

  ghost predicate Inv(w: World) {
    Sized(w) && StackRight(w) && QueueRight(w) && MemoryRight(w)
  }

  // ----- What a step keeps -----

  lemma {:induction false} CountUpdate(places: seq<Place>, b: nat, to: Place, p: Place)
    requires b < |places|
    ensures Count(places[b := to], p)
         == Count(places, p) - (if places[b] == p then 1 else 0) + (if to == p then 1 else 0)
  {
    if b > 0 {
      CountUpdate(places[1..], b - 1, to, p);
      assert places[b := to][1..] == places[1..][b - 1 := to];
    } else {
      assert places[b := to][1..] == places[1..];
    }
  }

  lemma {:induction false} CountTotal(places: seq<Place>)
    ensures Count(places, Stacked) + Count(places, InSetUp) + Count(places, Held)
          + Count(places, Queued) + Count(places, Lost) + Count(places, Dropped) == |places|
  {
    if places != [] {
      CountTotal(places[1..]);
    }
  }

  lemma {:induction false} CountAll(places: seq<Place>, p: Place)
    requires forall i :: 0 <= i < |places| ==> places[i] == p
    ensures Count(places, p) == |places|
    ensures forall q :: q != p ==> Count(places, q) == 0
  {
    if places != [] {
      CountAll(places[1..], p);
    }
  }

  lemma FreshInv(w: World)
    requires Sized(w) && w.pool.index == 0 && w.pool.cache == []
    requires forall i :: 0 <= i < NUM_FRAME_BUFS ==>
               w.pool.slots[i] == i && w.place[i] == Stacked && w.blocks[i] == 0
    ensures Inv(w)
  {
    CountAll(w.place, Stacked);
    hide Count;
    forall b | 0 <= b < NUM_FRAME_BUFS
      ensures OnStack(w.pool, b)
    {
      assert w.pool.slots[b] == b;
    }
  }

  lemma StartInv()
    ensures Inv(Start())
  {
    hide Inv;
    FreshInv(Start());
  }

  /** The stack index counts the buffers that are off the stack. */
  lemma IndexCounts(w: World)
    requires Inv(w)
    ensures w.pool.index == |w.pool.cache| + Count(w.place, InSetUp) + Count(w.place, Held)
                          + Count(w.place, Lost) + Count(w.place, Dropped)
  {
    CountTotal(w.place);
    hide Count;
  }

  lemma Moved(w: World, b: int, to: Place)
    requires Sized(w) && IsBuffer(b)
    ensures forall p ::
              Count(MoveTo(w, b, to).place, p)
              == Count(w.place, p) - (if w.place[b] == p then 1 else 0) + (if to == p then 1 else 0)
  {
    forall p {
      CountUpdate(w.place, b, to, p);
    }
  }

  lemma StackUntouched(w: World, v: World)
    requires Sized(w) && StackRight(w) && Sized(v)
    requires v.pool.index == w.pool.index && v.pool.slots == w.pool.slots
    requires forall b :: 0 <= b < NUM_FRAME_BUFS ==> (v.place[b] == Stacked <==> w.place[b] == Stacked)
    requires Count(v.place, Stacked) == Count(w.place, Stacked)
    ensures StackRight(v)
  {
    hide Count;
    forall b | 0 <= b < NUM_FRAME_BUFS && v.place[b] == Stacked
      ensures OnStack(v.pool, b)
    {
      assert OnStack(w.pool, b);
    }
  }

  lemma QueueUntouched(w: World, v: World)
    requires Sized(w) && QueueRight(w) && Sized(v) && v.pool.cache == w.pool.cache
    requires v.freedAs == w.freedAs
    requires forall b :: 0 <= b < NUM_FRAME_BUFS ==> (v.place[b] == Queued <==> w.place[b] == Queued)
    requires Count(v.place, Queued) == Count(w.place, Queued)
    ensures QueueRight(v)
  {
    hide Count, InQueue;
  }

  /** Without entry k the queue has every buffer it had but that one. */
  lemma WithoutEntry(c: seq<Entry>, k: nat)
    requires k < |c| && Distinct(c)
    ensures var d := Without(c, k);
      && |d| == |c| - 1 && Distinct(d)
      && (forall i :: 0 <= i < |d| ==> d[i] in c && d[i].buffer != c[k].buffer)
      && (forall b :: InQueue(c, b) && b != c[k].buffer ==> InQueue(d, b))
  {
    var d := Without(c, k);
    forall b | InQueue(c, b) && b != c[k].buffer
      ensures InQueue(d, b)
    {
      var i :| 0 <= i < |c| && c[i].buffer == b;
      assert d[if i < k then i else i - 1].buffer == b;
    }
  }

  /** Taking one entry out of the queue keeps the queue right, wherever its buffer goes. */
  lemma QueueWithout(w: World, v: World, k: nat, to: Place)
    requires Sized(w) && QueueRight(w) && Sized(v) && k < |w.pool.cache| && to != Queued
    requires v.pool.cache == Without(w.pool.cache, k) && v.freedAs == w.freedAs
    requires IsBuffer(w.pool.cache[k].buffer)
    requires v.place == w.place[w.pool.cache[k].buffer := to]
    ensures QueueRight(v)
  {
    var c := w.pool.cache;
    CountUpdate(w.place, c[k].buffer, to, Queued);
    assert Distinct(c);
    WithoutEntry(c, k);
    hide Count, Without, InQueue;
  }

  lemma TakeQueuedKeeps(w: World, width: int, height: int)
    requires Inv(w)
    ensures Inv(Step(w, TakeQueued(width, height)))
  {
    hide Count, Match, Without, StackRight;
    var c := w.pool.cache;
    var k := Match(c, width, height);
    if k < |c| {
      var v := Step(w, TakeQueued(width, height));
      var b := c[k].buffer;
      assert IsBuffer(b) && w.place[b] == Queued;
      assert v.place == w.place[b := Held];
      Moved(w, b, Held);
      hide QueueRight;
      StackUntouched(w, v);
      QueueWithout(w, v, k, Held);
    }
  }

  /** Putting a buffer back on the stack keeps the stack right. */
  lemma StackWith(w: World, v: World, b: int)
    requires Sized(w) && StackRight(w) && Sized(v) && w.pool.index > 0
    requires IsBuffer(b) && w.place[b] != Stacked && v.place == w.place[b := Stacked]
    requires v.pool.slots == Put(w.pool, b).slots && v.pool.index == w.pool.index - 1
    ensures StackRight(v)
  {
    CountUpdate(w.place, b, Stacked, Stacked);
    hide Count;
    assert v.pool.slots[v.pool.index] == b;
    forall d | 0 <= d < NUM_FRAME_BUFS && v.place[d] == Stacked && d != b
      ensures OnStack(v.pool, d)
    {
      var i :| w.pool.index <= i < NUM_FRAME_BUFS && w.pool.slots[i] == d;
      assert v.pool.slots[i] == d;
    }
  }

  lemma PutBackKeeps(w: World)
    requires Inv(w)
    ensures Inv(Step(w, PutBack))
  {
    var c := w.pool.cache;
    if c != [] {
      IndexCounts(w);
      var v := Step(w, PutBack);
      var b := c[0].buffer;
      assert IsBuffer(b) && w.place[b] == Queued;
      assert v.place == w.place[b := Stacked];
      assert v.pool.cache == Without(c, 0);
      hide QueueRight, StackRight, Count, Without;
      QueueWithout(w, v, 0, Stacked);
      StackWith(w, v, b);
    }
  }

  lemma TakeFreeKeeps(w: World)
    requires Inv(w)
    ensures Inv(Step(w, TakeFree))
  {
    hide Count;
    if w.pool.index < NUM_FRAME_BUFS {
      var v := Step(w, TakeFree);
      Moved(w, w.pool.slots[w.pool.index], InSetUp);
      QueueUntouched(w, v);
      hide QueueRight;
      forall b | 0 <= b < NUM_FRAME_BUFS && v.place[b] == Stacked
        ensures OnStack(v.pool, b)
      {
        var i :| w.pool.index <= i < NUM_FRAME_BUFS && w.pool.slots[i] == b;
        assert v.pool.slots[i] == b;
      }
    }
  }

  lemma SetUpKeeps(w: World, s: Section)
    requires Inv(w) && s.SetUp? && Enabled(w, s)
    ensures Inv(Step(w, s))
  {
    hide Count, StackRight, QueueRight;
    Moved(w, s.buffer, if s.phyOk && s.virtOk then Held else Lost);
    StackUntouched(w, Step(w, s));
    QueueUntouched(w, Step(w, s));
  }

  lemma StoreKeeps(w: World, s: Section)
    requires Inv(w) && s.Store? && Enabled(w, s)
    ensures Inv(Step(w, s))
  {
    hide Count;
    Moved(w, s.buffer, if s.mallocOk then Queued else Dropped);
    StackUntouched(w, Step(w, s));
    hide StackRight;
    if s.mallocOk {
      var c, v := w.pool.cache, Step(w, s);
      forall b | 0 <= b < NUM_FRAME_BUFS && v.place[b] == Queued
        ensures InQueue(v.pool.cache, b)
      {
        if b == s.buffer {
          assert v.pool.cache[|c|].buffer == b;
        } else {
          var i :| 0 <= i < |c| && c[i].buffer == b;
          assert v.pool.cache[i].buffer == b;
        }
      }
    }
  }

  lemma StepKeeps(w: World, s: Section)
    requires Inv(w) && Enabled(w, s)
    ensures Inv(Step(w, s))
  {
    hide Inv, Step;
    match s
    case TakeQueued(width, height) => TakeQueuedKeeps(w, width, height);
    case PutBack => PutBackKeeps(w);
    case TakeFree => TakeFreeKeeps(w);
    case SetUp(_, _, _, _, _) => SetUpKeeps(w, s);
    case Store(_, _, _, _) => StoreKeeps(w, s);
  }

  // ----- Every run -----

  lemma {:induction false} RunKeeps(w: World, ss: seq<Section>)
    requires Inv(w) && CanRun(w, ss)
    ensures Inv(Run(w, ss))
    decreases |ss|
  {
    hide StackRight, QueueRight, MemoryRight, Step;
    if ss != [] {
      assert Enabled(w, ss[0]);
      StepKeeps(w, ss[0]);
      RunKeeps(Step(w, ss[0]), ss[1..]);
    }
  }

  lemma OnePlace(w: World)
    requires Inv(w)
    ensures forall b :: 0 <= b < NUM_FRAME_BUFS ==>
              && (OnStack(w.pool, b) <==> w.place[b] == Stacked)
              && (InQueue(w.pool.cache, b) <==> w.place[b] == Queued)
  {
    hide Count;
  }

  /** However the locked sections of any number of threads interleave, every buffer is in exactly
      one place, and the stack, the queue and the memory agree with it. */
  lemma EveryRunAccounts(ss: seq<Section>)
    requires CanRun(Start(), ss)
    ensures var w := Run(Start(), ss);
      && Inv(w)
      && (forall b :: 0 <= b < NUM_FRAME_BUFS ==>
            && (OnStack(w.pool, b) <==> w.place[b] == Stacked)
            && (InQueue(w.pool.cache, b) <==> w.place[b] == Queued))
      && w.pool.index == |w.pool.cache| + Count(w.place, InSetUp) + Count(w.place, Held)
                       + Count(w.place, Lost) + Count(w.place, Dropped)
  {
    hide Inv;
    StartInv();
    RunKeeps(Start(), ss);
    IndexCounts(Run(Start(), ss));
    OnePlace(Run(Start(), ss));
    hide *;
  }

  /** A flush never finds the stack full, so put_framebuf never refuses a buffer; and what it puts
      back is the one block of memory that buffer holds. */
  lemma FlushHasRoom(w: World)
    requires Inv(w) && w.pool.cache != []
    ensures var b := w.pool.cache[0].buffer;
      w.pool.index > 0 && IsBuffer(b) && w.blocks[b] == 1 && Step(w, PutBack).blocks[b] == 0
  {
    IndexCounts(w);
    hide Count;
    assert w.place[w.pool.cache[0].buffer] == Queued;
  }

  /** A lookup that finds something gives out a freed buffer, never one in use, with its memory,
      last freed under the very size asked for. */
  lemma HitMatches(w: World, width: int, height: int)
    requires Inv(w) && Take(w.pool, width, height).1 != NONE
    ensures var b := Take(w.pool, width, height).1;
      IsBuffer(b) && w.place[b] == Queued && w.freedAs[b] == Size(width, height) && w.blocks[b] == 1
  {
    hide Count;
    var k := Match(w.pool.cache, width, height);
    assert w.place[w.pool.cache[k].buffer] == Queued;
  }

  /** A buffer taken off the stack holds no memory, so clearing its descriptor loses none. */
  lemma FreshHoldsNothing(w: World)
    requires Inv(w) && Get(w.pool).1 != NONE
    ensures var b := Get(w.pool).1; IsBuffer(b) && w.place[b] == Stacked && w.blocks[b] == 0
  {
    hide Count;
  }

  lemma GoneStays(w: World, s: Section, b: int)
    requires Inv(w) && Enabled(w, s) && IsBuffer(b) && w.place[b] in {Lost, Dropped}
    ensures Step(w, s).place[b] == w.place[b]
  {
    hide Count, Match, Without;
    if s.TakeQueued? {
      var k := Match(w.pool.cache, s.width, s.height);
      assert k < |w.pool.cache| ==> w.place[w.pool.cache[k].buffer] == Queued;
    }
  }

  /** A buffer lost to a failed memory call, or dropped with its memory because the queue node
      could not be had, never comes back. */
  lemma {:induction false} GoneForGood(w: World, ss: seq<Section>, b: int)
    requires Inv(w) && CanRun(w, ss) && IsBuffer(b) && w.place[b] in {Lost, Dropped}
    ensures Run(w, ss).place[b] == w.place[b]
    decreases |ss|
  {
    hide StackRight, QueueRight, MemoryRight, Step;
    if ss != [] {
      assert Enabled(w, ss[0]);
      StepKeeps(w, ss[0]);
      GoneStays(w, ss[0], b);
      GoneForGood(Step(w, ss[0]), ss[1..], b);
    }
  }

  // ----- One whole allocation -----

  /** How many buffers no flush can bring back. */
  ghost function Away(w: World): nat
    requires Sized(w)
  {
    Count(w.place, InSetUp) + Count(w.place, Held) + Count(w.place, Lost) + Count(w.place, Dropped)
  }

  lemma {:induction false} FlushEmpties(w: World)
    requires Inv(w)
    ensures Flush(w.pool).index == Away(w)
    ensures forall i :: Away(w) <= i < NUM_FRAME_BUFS ==> IsBuffer(Flush(w.pool).slots[i])
    decreases |w.pool.cache|
  {
    IndexCounts(w);
    if w.pool.cache != [] {
      var b, v := w.pool.cache[0].buffer, Step(w, PutBack);
      assert IsBuffer(b) && w.place[b] == Queued;
      Moved(w, b, Stacked);
      assert Away(v) == Away(w) by {
        hide Count, StackRight, QueueRight, MemoryRight;
      }
      PutBackKeeps(w);
      hide Count, StackRight, QueueRight, MemoryRight, Away;
      FlushEmpties(v);
      ReleaseIgnoresCache(Release(w.pool, b), v.pool, v.pool.cache);
    } else {
      hide Count;
    }
  }

  lemma {:induction false} ReleaseIgnoresCache(p: Pool, q: Pool, entries: seq<Entry>)
    requires Shaped(p) && Shaped(q) && p.index == q.index && p.slots == q.slots
    ensures ReleaseAll(p, entries).index == ReleaseAll(q, entries).index
    ensures ReleaseAll(p, entries).slots == ReleaseAll(q, entries).slots
    decreases |entries|
  {
    if entries != [] {
      ReleaseIgnoresCache(Release(p, entries[0].buffer), Release(q, entries[0].buffer), entries[1..]);
    }
  }

  /** framebuf_alloc fails exactly when no freed buffer fits and either a memory call fails or all
      64 buffers are in use or gone; so freed buffers of other sizes never stand in its way. */
  lemma AllocFails(w: World, width: int, height: int, phyOk: bool, virtOk: bool)
    requires Inv(w)
    ensures Alloc(w.pool, width, height, phyOk, virtOk).1 == NONE
       <==> && (forall i :: 0 <= i < |w.pool.cache| ==>
                  !(w.pool.cache[i].width == width && w.pool.cache[i].height == height))
            && (Away(w) == NUM_FRAME_BUFS || !phyOk || !virtOk)
  {
    var k := Match(w.pool.cache, width, height);
    if k < |w.pool.cache| {
      assert IsBuffer(w.pool.cache[k].buffer);
    } else {
      IndexCounts(w);
      FlushEmpties(w);
    }
    hide Count, Match, ReleaseAll;
  }

  /** What an allocation leaves behind: on a hit the queue is one entry shorter and the stack as it was; on a
      miss the queue is empty, whether the allocation succeeds or not. */
  lemma AllocLeaves(w: World, width: int, height: int, phyOk: bool, virtOk: bool)
    requires Inv(w)
    ensures var (q, b) := Alloc(w.pool, width, height, phyOk, virtOk);
      var c := w.pool.cache;
      if exists i :: 0 <= i < |c| && c[i].width == width && c[i].height == height then
        && q.slots == w.pool.slots && q.index == w.pool.index
        && exists k :: 0 <= k < |c| && b == c[k].buffer && q.cache == c[..k] + c[k + 1..]
             && forall i :: 0 <= i < k ==> !(c[i].width == width && c[i].height == height)
      else q.cache == []
  {
    var c, k := w.pool.cache, Match(w.pool.cache, width, height);
    if k < |c| {
      assert IsBuffer(c[k].buffer) && Without(c, k) == c[..k] + c[k + 1..];
    }
    hide Count, Match, ReleaseAll, Get;
  }

  lemma {:induction false} MatchBehind(cache: seq<Entry>, e: Entry, width: int, height: int)
    ensures Match(cache + [e], width, height) ==
      if Match(cache, width, height) < |cache| || (e.width == width && e.height == height)
      then Match(cache, width, height) else |cache| + 1
    decreases |cache|
  {
    if cache == [] {
      assert (cache + [e])[1..] == [];
    } else {
      assert (cache + [e])[1..] == cache[1..] + [e];
      MatchBehind(cache[1..], e, width, height);
    }
  }

  /** Of the freed buffers of a size the one freed first is handed out first. */
  lemma FreedFirstOutFirst(p: Pool, b: int, width: int, height: int, wanted: Size)
    requires Shaped(p) && IsBuffer(b) && forall i :: 0 <= i < |p.cache| ==> IsBuffer(p.cache[i].buffer)
    ensures Take(Free(p, b, width, height, true), wanted.width, wanted.height).1 ==
      if Take(p, wanted.width, wanted.height).1 == NONE && wanted == Size(width, height) then b
      else Take(p, wanted.width, wanted.height).1
  {
    MatchBehind(p.cache, Entry(width, height, b), wanted.width, wanted.height);
    hide Match;
  }

  /** The stack of free buffers gives back first what was put on it last. */
  lemma PutThenGet(p: Pool, b: int)
    requires Shaped(p) && p.index > 0 && p.slots[p.index - 1] == NONE
    ensures Get(Put(p, b)) == (p, b)
  {
    assert p.slots[p.index - 1 := b][p.index - 1 := NONE] == p.slots;
  }

  /** A flush turns the queue over onto the stack: the buffer freed last is on top. */
  lemma {:induction false} FlushStacks(p: Pool, entries: seq<Entry>)
    requires Shaped(p) && |entries| <= p.index
    requires forall i :: 0 <= i < |entries| ==> IsBuffer(entries[i].buffer)
    ensures var q := ReleaseAll(p, entries);
      && q.index == p.index - |entries|
      && (forall i :: 0 <= i < |entries| ==> q.slots[p.index - 1 - i] == entries[i].buffer)
      && (forall i :: 0 <= i < NUM_FRAME_BUFS && !(q.index <= i < p.index) ==> q.slots[i] == p.slots[i])
    decreases |entries|
  {
    if entries != [] {
      var u := Release(p, entries[0].buffer);
      FlushStacks(u, entries[1..]);
      var q := ReleaseAll(p, entries);
      forall i | 0 <= i < |entries|
        ensures q.slots[p.index - 1 - i] == entries[i].buffer
      {
        if i > 0 {
          assert q.slots[u.index - 1 - (i - 1)] == entries[1..][i - 1].buffer;
        }
      }
    }
  }

  lemma {:induction false} RunJoin(w: World, a: seq<Section>, b: seq<Section>)
    requires Sized(w) && CanRun(w, a) && CanRun(Run(w, a), b)
    ensures CanRun(w, a + b) && Run(w, a + b) == Run(Run(w, a), b)
    decreases |a|
  {
    hide Step;
    if a == [] {
      assert a + b == b;
    } else {
      RunJoin(Step(w, a[0]), a[1..], b);
      assert (a + b)[1..] == a[1..] + b;
    }
  }

  lemma RunOne(w: World, s: Section)
    requires Sized(w) && Enabled(w, s)
    ensures CanRun(w, [s]) && Run(w, [s]) == Step(w, s)
  {
    hide Step;
    assert [s][1..] == [];
  }

  lemma {:induction false} FlushIsARun(w: World) returns (ss: seq<Section>)
    requires Inv(w)
    ensures CanRun(w, ss) && Run(w, ss).pool == Flush(w.pool)
    ensures forall b :: 0 <= b < NUM_FRAME_BUFS ==>
              Run(w, ss).place[b] == if w.place[b] == Queued then Stacked else w.place[b]
    decreases |w.pool.cache|
  {
    ss := [];
    if w.pool.cache != [] {
      var v := Step(w, PutBack);
      assert forall b :: 0 <= b < NUM_FRAME_BUFS ==>
               v.place[b] == w.place[b] || (w.place[b] == Queued && v.place[b] == Stacked) by {
        assert w.place[w.pool.cache[0].buffer] == Queued;
      }
      PutBackKeeps(w);
      ReleaseIgnoresCache(Release(w.pool, w.pool.cache[0].buffer), v.pool, v.pool.cache);
      assert Flush(v.pool) == Flush(w.pool);
      hide Inv, Step, Flush;
      var rest := FlushIsARun(v);
      RunOne(w, PutBack);
      RunJoin(w, [PutBack], rest);
      ss := [PutBack] + rest;
    }
  }

  lemma TakeIsARun(w: World, width: int, height: int, phyOk: bool, virtOk: bool)
      returns (ss: seq<Section>)
    requires Inv(w)
    ensures CanRun(w, ss)
    ensures var (q, b) := Get(w.pool);
      && Run(w, ss).pool == q
      && (b != NONE ==>
            IsBuffer(b) && w.place[b] == Stacked && (phyOk && virtOk ==> Run(w, ss).place[b] == Held))
  {
    hide Count, Run, CanRun;
    RunOne(w, TakeFree);
    ss := [TakeFree];
    var b := Get(w.pool).1;
    if b != NONE {
      FreshHoldsNothing(w);
      TakeFreeKeeps(w);
      hide StackRight, QueueRight, MemoryRight;
      var setUp := SetUp(b, width, height, phyOk, virtOk);
      RunOne(Step(w, TakeFree), setUp);
      RunJoin(w, ss, [setUp]);
      ss := ss + [setUp];
    }
  }

  /** A whole framebuf_alloc is one of these runs, and leaves the buffer it returns with the client. */
  lemma AllocIsARun(w: World, width: int, height: int, phyOk: bool, virtOk: bool)
      returns (ss: seq<Section>)
    requires Inv(w)
    ensures CanRun(w, ss)
    ensures var (q, b) := Alloc(w.pool, width, height, phyOk, virtOk);
      && Run(w, ss).pool == q
      && (b != NONE ==> IsBuffer(b) && Run(w, ss).place[b] == Held && w.place[b] in {Stacked, Queued})
  {
    var look := TakeQueued(width, height);
    RunOne(w, look);
    if Take(w.pool, width, height).1 != NONE {
      HitMatches(w, width, height);
      hide Run, CanRun, Match, Count;
      ss := [look];
    } else {
      assert Step(w, look) == w by {
        assert forall i :: 0 <= i < |w.pool.cache| ==> IsBuffer(w.pool.cache[i].buffer);
        hide Match, Count, Run, CanRun;
      }
      assert w.pool.cache == [] ==> Flush(w.pool) == w.pool;
      var flush := FlushIsARun(w);
      RunJoin(w, [look], flush);
      ss := [look] + flush;
      RunKeeps(w, ss);
      var take := TakeIsARun(Run(w, ss), width, height, phyOk, virtOk);
      RunJoin(w, ss, take);
      ss := ss + take;
      hide Inv, Match, Flush, Get, Run, CanRun, Step;
    }
  }

  // ----- Clients that free what they were given -----

  /** Every client frees a buffer under the size its memory was made for. */
  ghost predicate Honest(w: World, ss: seq<Section>)
    requires Sized(w) && CanRun(w, ss)
    decreases |ss|
  {
    ss != [] ==>
      && (ss[0].Store? ==> w.madeFor[ss[0].buffer] == Size(ss[0].width, ss[0].height))
      && Honest(Step(w, ss[0]), ss[1..])
  }

  ghost predicate Suits(w: World)
    requires Sized(w)
  {
    forall i :: 0 <= i < |w.pool.cache| ==>
      && IsBuffer(w.pool.cache[i].buffer)
      && w.madeFor[w.pool.cache[i].buffer] == Size(w.pool.cache[i].width, w.pool.cache[i].height)
  }

  lemma StepSuits(w: World, s: Section)
    requires Inv(w) && Suits(w) && Enabled(w, s)
    requires s.Store? ==> w.madeFor[s.buffer] == Size(s.width, s.height)
    ensures Suits(Step(w, s))
  {
    hide Count, Match, OnStack, InQueue;
  }

  lemma {:induction false} RunSuits(w: World, ss: seq<Section>)
    requires Inv(w) && Suits(w) && CanRun(w, ss) && Honest(w, ss)
    ensures Inv(Run(w, ss)) && Suits(Run(w, ss))
    decreases |ss|
  {
    hide StackRight, QueueRight, MemoryRight, Step, Suits;
    if ss != [] {
      assert Enabled(w, ss[0]);
      StepKeeps(w, ss[0]);
      StepSuits(w, ss[0]);
      RunSuits(Step(w, ss[0]), ss[1..]);
    }
  }

  /** Then a buffer found in the queue has memory made for the size asked for. */
  lemma HitFits(ss: seq<Section>, width: int, height: int)
    requires CanRun(Start(), ss) && Honest(Start(), ss)
    requires Take(Run(Start(), ss).pool, width, height).1 != NONE
    ensures var w := Run(Start(), ss);
      var b := Take(w.pool, width, height).1;
      IsBuffer(b) && w.madeFor[b] == Size(width, height)
  {
    StartInv();
    RunSuits(Start(), ss);
    hide Run, CanRun, Honest, Inv;
  }

  // ----- The code -----

  class Allocator {
    var index: int
    const slots: array<int>
    const queue: Queue<Entry>

    ghost predicate Valid()
      reads this, slots, queue, queue.nodes
    {
      slots.Length == NUM_FRAME_BUFS && 0 <= index <= NUM_FRAME_BUFS && queue.Valid()
    }

    ghost function State(): (p: Pool)
      reads this, slots, queue
    {
      Pool(index, slots[..], queue.Items())
    }

    /** framebuf_init. */
    constructor ()
      ensures Valid() && State() == Init() && fresh(slots) && fresh(queue)
    {
      index := 0;
      slots := new int[NUM_FRAME_BUFS];
      queue := new Queue<Entry>();
      new;
      for i := 0 to NUM_FRAME_BUFS
        invariant slots.Length == NUM_FRAME_BUFS && index == 0 && queue.Valid() && queue.nodes == []
        invariant forall k :: 0 <= k < i ==> slots[k] == k
      {
        slots[i] := i;
      }
      assert slots[..] == Init().slots;
    }

    /** get_framebuf. */
    method GetFramebuf() returns (b: int)
      requires Valid()
      modifies this`index, slots
      ensures Valid() && (State(), b) == Get(old(State()))
    {
      if index >= NUM_FRAME_BUFS {
        return NONE;
      }
      b := slots[index];
      slots[index] := NONE;
      index := index + 1;
    }

    /** put_framebuf. */
    method PutFramebuf(b: int)
      requires Valid()
      modifies this`index, slots
      ensures Valid() && State() == Put(old(State()), b)
    {
      if index <= 0 {
        return;
      }
      index := index - 1;
      slots[index] := b;
    }

    /** freeFreameBuf, the memory calls aside. */
    method FreeFrameBuf(b: int)
      requires Valid()
      modifies this`index, slots
      ensures Valid() && State() == Release(old(State()), b)
    {
      if b == NONE {
        return;
      }
      PutFramebuf(b);
    }

    /** Fb_packet_queue_flush. */
    method FlushQueue()
      requires Valid()
      modifies this`index, slots, queue
      ensures Valid() && State() == Flush(old(State())) && queue.nodes == []
    {
      ghost var i := 0;
      ghost var entries := queue.Items();
      var node := queue.first;
      while node != null
        invariant Valid() && queue.Items() == entries && queue.nodes == old(queue.nodes)
        invariant 0 <= i <= |entries| && node == queue.At(i)
        invariant ReleaseAll(State(), entries[i..]) == ReleaseAll(old(State()), entries)
        decreases |entries| - i
      {
        assert queue.Linked(i);
        var next := node.next;
        assert entries[i] == node.item && entries[i..][1..] == entries[i + 1..];
        FreeFrameBuf(node.item.buffer);
        node := next;
        i := i + 1;
      }
      queue.Clear();
    }

    /** Fb_Put_Packet. */
    method PutPacket(e: Entry, mallocOk: bool) returns (ok: bool)
      requires Valid()
      modifies queue, queue.nodes
      ensures Valid() && ok == mallocOk
      ensures State() == if ok then old(State()).(cache := old(State()).cache + [e]) else old(State())
    {
      if !mallocOk {
        return false;
      }
      var node := new Node(e);
      queue.Append(node);
      return true;
    }

    /** Fb_Get_packet. */
    method GetPacket(width: int, height: int) returns (b: int)
      requires Valid()
      modifies queue, queue.nodes
      ensures Valid() && (State(), b) == Take(old(State()), width, height)
      ensures forall n :: n in queue.nodes ==> n in old(queue.nodes)
    {
      var node, prev := queue.first, null;
      ghost var k := 0;
      ghost var entries := queue.Items();
      while node != null
        invariant 0 <= k <= |entries| && node == queue.At(k) && prev == queue.At(k - 1)
        invariant forall i :: 0 <= i < k ==> !(entries[i].width == width && entries[i].height == height)
        decreases |entries| - k
      {
        assert queue.Linked(k);
        if node.item.height == height && node.item.width == width {
          b := node.item.buffer;
          MatchIs(entries, width, height, k);
          hide Match;
          queue.Unlink(k, prev);
          return;
        }
        prev := node;
        node := node.next;
        k := k + 1;
      }
      MatchIs(entries, width, height, k);
      return NONE;
    }

    /** framebuf_alloc; phyOk and virtOk say how the two memory calls end. */
    method FramebufAlloc(width: int, height: int, phyOk: bool, virtOk: bool) returns (b: int)
      requires Valid()
      modifies this`index, slots, queue, queue.nodes
      ensures Valid() && (State(), b) == Alloc(old(State()), width, height, phyOk, virtOk)
    {
      b := GetPacket(width, height);
      if b != NONE {
        return;
      }
      if queue.count > 0 {
        FlushQueue();
      }
      b := GetFramebuf();
      if b == NONE || !phyOk || !virtOk {
        return NONE;
      }
    }

    /** framebuf_free. */
    method FramebufFree(b: int, width: int, height: int, mallocOk: bool)
      requires Valid()
      modifies queue, queue.nodes
      ensures Valid() && State() == Free(old(State()), b, width, height, mallocOk)
    {
      if b == NONE {
        return;
      }
      var _ := PutPacket(Entry(width, height, b), mallocOk);
    }
  }

  lemma {:induction false} MatchIs(cache: seq<Entry>, width: int, height: int, k: nat)
    requires k <= |cache|
    requires forall i :: 0 <= i < k ==> !(cache[i].width == width && cache[i].height == height)
    requires k < |cache| ==> cache[k].width == width && cache[k].height == height
    ensures Match(cache, width, height) == k
  {
    if k > 0 {
      MatchIs(cache[1..], width, height, k - 1);
    }
  }
}
