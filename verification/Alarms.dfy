/** Collecting the cameras of all active alarms, and assigning them to the four panes. */
module Alarms {

  /** The alarm state: one bit for each of 24 PECU units and 6 smoke detectors, and for each
      of 48 doors a door bit and a jam bit; firstPecu is the camera of the first PECU alarm. */
  datatype AlarmState = AlarmState(pecu: seq<bool>, fire: seq<bool>, door: seq<bool>, clip: seq<bool>, firstPecu: int)

  /** The camera of every alarm source, -1 where none is configured. */
  datatype AlarmMap = AlarmMap(pecu: seq<int>, fire: seq<int>, door: seq<int>)

  const MAX_CAMERAS: int := 32
  const LIST_SIZE: int := 36

  predicate ValidAlarms(s: AlarmState) {
    |s.pecu| == 24 && |s.fire| == 6 && |s.door| == 48 && |s.clip| == 48 && -1 <= s.firstPecu <= MAX_CAMERAS
  }

  /** What the lookups can answer: their range check lets the camera count itself through. */
  predicate ValidMap(m: AlarmMap) {
    && |m.pecu| == 24 && |m.fire| == 6 && |m.door| == 48
    && (forall k :: 0 <= k < 24 ==> -1 <= m.pecu[k] <= MAX_CAMERAS)
    && (forall k :: 0 <= k < 6 ==> -1 <= m.fire[k] <= MAX_CAMERAS)
    && (forall k :: 0 <= k < 48 ==> -1 <= m.door[k] <= MAX_CAMERAS)
  }

  /** GetPecuVideoIndex, GetFireWarnVideoIdx and GetDoorWarnVideoIdx after their bounds
      check on the unit: raw is the configured byte. */
  function CheckedCamera(raw: int, videoNum: int): (v: int)
    requires 0 <= videoNum <= MAX_CAMERAS
    ensures -1 <= v <= MAX_CAMERAS
    ensures v == -1 <==> !(0 <= raw <= videoNum)
    ensures v != -1 ==> v == raw
  {
    if raw < 0 || raw > videoNum then -1 else raw
  }

  // ----- The list of alarming cameras

  function AddOnce(list: seq<int>, v: int): seq<int> {
    if v in list then list else list + [v]
  }

  /** Adds the first n of the given cameras whose bit is set. */
  function AddActive(list: seq<int>, bits: seq<bool>, cameras: seq<int>, n: nat): seq<int>
    requires n <= |bits| && n <= |cameras|
  {
    if n == 0 then list
    else
      var before := AddActive(list, bits, cameras, n - 1);
      if bits[n - 1] then AddOnce(before, cameras[n - 1]) else before
  }

  /** Doors and jams in the order the scan meets them: door k, jam k, door k + 1, ... */
  function AddDoors(list: seq<int>, s: AlarmState, m: AlarmMap, n: nat): seq<int>
    requires ValidAlarms(s) && ValidMap(m) && n <= 48
  {
    if n == 0 then list
    else
      var before := AddDoors(list, s, m, n - 1);
      var door := if s.door[n - 1] then AddOnce(before, m.door[n - 1]) else before;
      if s.clip[n - 1] then AddOnce(door, m.door[n - 1]) else door
  }

  function Start(s: AlarmState): seq<int> {
    if s.firstPecu >= 0 then [s.firstPecu] else []
  }

  function Collected(s: AlarmState, m: AlarmMap): seq<int>
    requires ValidAlarms(s) && ValidMap(m)
  {
    AddDoors(AddActive(AddActive(Start(s), s.pecu, m.pecu, |s.pecu|), s.fire, m.fire, |s.fire|), s, m, |s.door|)
  }

  predicate Distinct(list: seq<int>) {
    forall i, j :: 0 <= i < j < |list| ==> list[i] != list[j]
  }

  predicate InRange(list: seq<int>) {
    forall i :: 0 <= i < |list| ==> -1 <= list[i] <= MAX_CAMERAS
  }

  /** Camera v has an active alarm. */
  ghost predicate Alarming(s: AlarmState, m: AlarmMap, v: int)
    requires ValidAlarms(s) && ValidMap(m)
  {
    || (s.firstPecu >= 0 && v == s.firstPecu)
    || (exists k :: 0 <= k < 24 && s.pecu[k] && m.pecu[k] == v)
    || (exists k :: 0 <= k < 6 && s.fire[k] && m.fire[k] == v)
    || (exists k :: 0 <= k < 48 && (s.door[k] || s.clip[k]) && m.door[k] == v)
  }

  lemma {:induction false} AddActiveKeeps(list: seq<int>, bits: seq<bool>, cameras: seq<int>, n: nat)
    requires n <= |bits| && n <= |cameras| && Distinct(list)
    ensures var r := AddActive(list, bits, cameras, n);
      && Distinct(r) && list <= r
      && (forall v :: v in r <==> v in list || exists k :: 0 <= k < n && bits[k] && cameras[k] == v)
  {
    if n > 0 {
      AddActiveKeeps(list, bits, cameras, n - 1);
    }
  }

  lemma {:induction false} AddDoorsKeeps(list: seq<int>, s: AlarmState, m: AlarmMap, n: nat)
    requires ValidAlarms(s) && ValidMap(m) && n <= 48 && Distinct(list)
    ensures var r := AddDoors(list, s, m, n);
      && Distinct(r) && list <= r
      && (forall v :: v in r <==> v in list || exists k :: 0 <= k < n && (s.door[k] || s.clip[k]) && m.door[k] == v)
  {
    if n > 0 {
      AddDoorsKeeps(list, s, m, n - 1);
    }
  }

  /** The collected list has no camera twice, holds exactly the alarming cameras, and starts
      with the camera of the first PECU alarm when there is one. */
  lemma CollectedIsExact(s: AlarmState, m: AlarmMap)
    requires ValidAlarms(s) && ValidMap(m)
    ensures Distinct(Collected(s, m))
    ensures forall v :: v in Collected(s, m) <==> Alarming(s, m, v)
    ensures s.firstPecu >= 0 ==> |Collected(s, m)| > 0 && Collected(s, m)[0] == s.firstPecu
  {
    hide AddActive, AddDoors;
    var pecu := AddActive(Start(s), s.pecu, m.pecu, |s.pecu|);
    var fire := AddActive(pecu, s.fire, m.fire, |s.fire|);
    AddActiveKeeps(Start(s), s.pecu, m.pecu, |s.pecu|);
    AddActiveKeeps(pecu, s.fire, m.fire, |s.fire|);
    AddDoorsKeeps(fire, s, m, |s.door|);
  }

  /** Sources are numbered in the order of the scan: the first PECU alarm 0, the PECU units 1 to 24, the
      smoke detectors 25 to 30, the doors 31 to 78. */
  predicate Source(s: AlarmState, m: AlarmMap, q: int, v: int)
    requires ValidAlarms(s) && ValidMap(m)
  {
    || (q == 0 && s.firstPecu >= 0 && v == s.firstPecu)
    || (1 <= q < 25 && s.pecu[q - 1] && m.pecu[q - 1] == v)
    || (25 <= q < 31 && s.fire[q - 25] && m.fire[q - 25] == v)
    || (31 <= q < 79 && (s.door[q - 31] || s.clip[q - 31]) && m.door[q - 31] == v)
  }

  /** Camera v has a source before number n. */
  ghost predicate Earlier(s: AlarmState, m: AlarmMap, n: int, v: int)
    requires ValidAlarms(s) && ValidMap(m)
  {
    exists q :: q < n && Source(s, m, q, v)
  }

  /** The list after the sources before number n: it has their cameras, each once; and whatever source a
      camera has, one that stands before it has an earlier source. */
  ghost predicate InScanOrder(s: AlarmState, m: AlarmMap, n: int, list: seq<int>)
    requires ValidAlarms(s) && ValidMap(m)
  {
    && Distinct(list)
    && (forall v :: v in list <==> Earlier(s, m, n, v))
    && (forall i, j, q :: 0 <= i < j < |list| && Source(s, m, q, list[j]) ==> Earlier(s, m, q, list[i]))
  }

  lemma OneMoreSource(s: AlarmState, m: AlarmMap, n: int, list: seq<int>, v: int, active: bool)
    requires ValidAlarms(s) && ValidMap(m) && InScanOrder(s, m, n, list)
    requires forall w :: Source(s, m, n, w) <==> active && w == v
    ensures InScanOrder(s, m, n + 1, if active then AddOnce(list, v) else list)
  {
    hide Source;
    var r := if active then AddOnce(list, v) else list;
    forall w
      ensures w in r <==> Earlier(s, m, n + 1, w)
    {
      assert Earlier(s, m, n + 1, w) <==> Earlier(s, m, n, w) || Source(s, m, n, w);
    }
    forall i, j, q | 0 <= i < j < |r| && Source(s, m, q, r[j])
      ensures Earlier(s, m, q, r[i])
    {
      if j == |list| {
        assert !Earlier(s, m, n, v) && list[i] == r[i] && Earlier(s, m, n, list[i]);
        var p :| p < n && Source(s, m, p, list[i]);
        assert p < q;
      }
    }
  }

  lemma {:induction false} PecusInOrder(s: AlarmState, m: AlarmMap, n: nat)
    requires ValidAlarms(s) && ValidMap(m) && n <= 24
    ensures InScanOrder(s, m, n + 1, AddActive(Start(s), s.pecu, m.pecu, n))
    decreases n
  {
    if n > 0 {
      PecusInOrder(s, m, n - 1);
      OneMoreSource(s, m, n, AddActive(Start(s), s.pecu, m.pecu, n - 1), m.pecu[n - 1], s.pecu[n - 1]);
    } else {
      StartInOrder(s, m);
    }
    hide InScanOrder;
  }

  lemma StartInOrder(s: AlarmState, m: AlarmMap)
    requires ValidAlarms(s) && ValidMap(m)
    ensures InScanOrder(s, m, 1, Start(s))
  {
    assert forall v :: Earlier(s, m, 1, v) <==> Source(s, m, 0, v);
  }

  lemma {:induction false} FiresInOrder(s: AlarmState, m: AlarmMap, list: seq<int>, n: nat)
    requires ValidAlarms(s) && ValidMap(m) && n <= 6 && InScanOrder(s, m, 25, list)
    ensures InScanOrder(s, m, n + 25, AddActive(list, s.fire, m.fire, n))
    decreases n
  {
    if n > 0 {
      FiresInOrder(s, m, list, n - 1);
      OneMoreSource(s, m, n + 24, AddActive(list, s.fire, m.fire, n - 1), m.fire[n - 1], s.fire[n - 1]);
    }
    hide InScanOrder;
  }

  lemma {:induction false} DoorsInOrder(s: AlarmState, m: AlarmMap, list: seq<int>, n: nat)
    requires ValidAlarms(s) && ValidMap(m) && n <= 48 && InScanOrder(s, m, 31, list)
    ensures InScanOrder(s, m, n + 31, AddDoors(list, s, m, n))
    decreases n
  {
    if n > 0 {
      DoorsInOrder(s, m, list, n - 1);
      OneMoreSource(s, m, n + 30, AddDoors(list, s, m, n - 1), m.door[n - 1], s.door[n - 1] || s.clip[n - 1]);
    }
    hide InScanOrder;
  }

  /** The cameras stand in the order of the scan, each at its first source. */
  lemma CollectedInOrder(s: AlarmState, m: AlarmMap)
    requires ValidAlarms(s) && ValidMap(m)
    ensures InScanOrder(s, m, 79, Collected(s, m))
  {
    hide InScanOrder, AddActive, AddDoors;
    PecusInOrder(s, m, 24);
    var pecu := AddActive(Start(s), s.pecu, m.pecu, 24);
    FiresInOrder(s, m, pecu, 6);
    DoorsInOrder(s, m, AddActive(pecu, s.fire, m.fire, 6), 48);
  }

  /** The list that grows during the scan never needs more than its 36 entries, although up
      to 126 alarm bits may be set: 34 different answers are possible. */
  lemma ListFits(list: seq<int>)
    requires Distinct(list) && InRange(list)
    ensures |list| <= MAX_CAMERAS + 2 < LIST_SIZE
  {
    var values := Values(list, |list|);
    CardinalityBound(values, -1, MAX_CAMERAS);
  }

  function Values(list: seq<int>, n: nat): (s: set<int>)
    requires Distinct(list) && n <= |list|
    ensures forall v :: v in s <==> v in list[..n]
    ensures |s| == n
  {
    if n == 0 then {} else
      assert list[..n] == list[..n - 1] + [list[n - 1]];
      Values(list, n - 1) + {list[n - 1]}
  }

  lemma {:induction false} CardinalityBound(s: set<int>, low: int, high: int)
    requires low <= high + 1 && forall v :: v in s ==> low <= v <= high
    ensures |s| <= high - low + 1
    decreases high - low
  {
    if low > high {
      assert forall v :: v !in s;
      assert s == {};
    } else {
      CardinalityBound(s - {high}, low, high - 1);
      assert |s| <= |s - {high}| + 1;
    }
  }

  // ----- The icon lists beside it

  /** The PECU icons: cameras new to the list, and the first alarm's own camera once. */
  function PecuIcons(s: AlarmState, m: AlarmMap, n: nat): (r: (seq<int>, bool))
    requires ValidAlarms(s) && ValidMap(m) && n <= 24
    ensures |r.0| <= n
  {
    if n == 0 then ([], true)
    else
      var (icons, first) := PecuIcons(s, m, n - 1);
      var v := m.pecu[n - 1];
      if !s.pecu[n - 1] then (icons, first)
      else if v !in AddActive(Start(s), s.pecu, m.pecu, n - 1) then (icons + [v], first)
      else if v == s.firstPecu && first then (icons + [v], false)
      else (icons, first)
  }

  function FireIcons(s: AlarmState, m: AlarmMap, n: nat): (icons: seq<int>)
    requires ValidAlarms(s) && ValidMap(m) && n <= 6
    ensures |icons| <= n
  {
    if n == 0 then []
    else if s.fire[n - 1] then FireIcons(s, m, n - 1) + [m.fire[n - 1]]
    else FireIcons(s, m, n - 1)
  }

  /** How many of the first n bits are set. */
  function SetBits(bits: seq<bool>, n: nat): (count: nat)
    requires n <= |bits|
    ensures count <= n
  {
    if n == 0 then 0 else SetBits(bits, n - 1) + if bits[n - 1] then 1 else 0
  }

  /** Every alarming smoke detector has one icon, in their order, with its own camera. */
  lemma {:induction false} FireIconsInOrder(s: AlarmState, m: AlarmMap, n: nat)
    requires ValidAlarms(s) && ValidMap(m) && n <= 6
    ensures |FireIcons(s, m, n)| == SetBits(s.fire, n)
    ensures forall k :: 0 <= k < n && s.fire[k] ==>
      SetBits(s.fire, k) < SetBits(s.fire, n) && FireIcons(s, m, n)[SetBits(s.fire, k)] == m.fire[k]
  {
    if n > 0 {
      FireIconsInOrder(s, m, n - 1);
    }
  }

  /** The cameras that have an icon are kept in an array of plain char, which is unsigned on the ARM
      the terminal runs on: no camera, -1, is read back as 255. */
  function AsChar(v: int): int {
    v % 256
  }

  predicate Remembered(icons: seq<int>, v: int) {
    exists i :: 0 <= i < |icons| && AsChar(icons[i]) == v
  }

  function AddIcon(icons: seq<int>, v: int): seq<int> {
    if Remembered(icons, v) then icons else icons + [v]
  }

  function AddIcons(bits: seq<bool>, cameras: seq<int>, n: nat): seq<int>
    requires n <= |bits| && n <= |cameras|
  {
    if n == 0 then []
    else
      var before := AddIcons(bits, cameras, n - 1);
      if bits[n - 1] then AddIcon(before, cameras[n - 1]) else before
  }

  function DoorIcons(s: AlarmState, m: AlarmMap): seq<int>
    requires ValidAlarms(s) && ValidMap(m)
  {
    AddIcons(s.door, m.door, |s.door|)
  }

  function ClipIcons(s: AlarmState, m: AlarmMap): seq<int>
    requires ValidAlarms(s) && ValidMap(m)
  {
    AddIcons(s.clip, m.door, |s.clip|)
  }

  /** Every alarming PECU camera has an icon, and no other camera has one. */
  lemma {:induction false} PecuIconsCover(s: AlarmState, m: AlarmMap, n: nat)
    requires ValidAlarms(s) && ValidMap(m) && n <= 24
    ensures forall v :: v in PecuIcons(s, m, n).0 <==> exists k :: 0 <= k < n && s.pecu[k] && m.pecu[k] == v
    ensures !PecuIcons(s, m, n).1 ==> s.firstPecu in PecuIcons(s, m, n).0
  {
    if n > 0 {
      PecuIconsCover(s, m, n - 1);
      AddActiveKeeps(Start(s), s.pecu, m.pecu, n - 1);
    }
  }

  /** How many of the first n PECU units alarm with camera v. */
  function PecusOf(s: AlarmState, m: AlarmMap, v: int, n: nat): (count: nat)
    requires ValidAlarms(s) && ValidMap(m) && n <= 24
    ensures count > 0 <==> exists k :: 0 <= k < n && s.pecu[k] && m.pecu[k] == v
  {
    if n == 0 then 0 else PecusOf(s, m, v, n - 1) + if s.pecu[n - 1] && m.pecu[n - 1] == v then 1 else 0
  }

  /** A PECU unit has an icon of its own if it is the first to alarm with its camera; and while no first
      alarm is known, so has the second of those without a camera. */
  predicate OwnPecuIcon(s: AlarmState, m: AlarmMap, k: nat)
    requires ValidAlarms(s) && ValidMap(m) && k < 24
  {
    var before := PecusOf(s, m, m.pecu[k], k);
    s.pecu[k] && (before == 0 || (before == 1 && m.pecu[k] == -1 == s.firstPecu))
  }

  function OwnPecuIcons(s: AlarmState, m: AlarmMap): (r: seq<bool>)
    requires ValidAlarms(s) && ValidMap(m)
    ensures |r| == 24
  {
    seq(24, k requires 0 <= k < 24 => OwnPecuIcon(s, m, k))
  }

  lemma {:induction false} FirstIconFlag(s: AlarmState, m: AlarmMap, n: nat)
    requires ValidAlarms(s) && ValidMap(m) && n <= 24
    ensures PecuIcons(s, m, n).1 <==> PecusOf(s, m, s.firstPecu, n) <= if s.firstPecu == -1 then 1 else 0
  {
    if n > 0 {
      FirstIconFlag(s, m, n - 1);
      AddActiveKeeps(Start(s), s.pecu, m.pecu, n - 1);
    }
  }

  lemma PecuIconStep(s: AlarmState, m: AlarmMap, n: nat)
    requires ValidAlarms(s) && ValidMap(m) && 0 < n <= 24
    ensures PecuIcons(s, m, n).0
         == PecuIcons(s, m, n - 1).0 + if OwnPecuIcon(s, m, n - 1) then [m.pecu[n - 1]] else []
  {
    FirstIconFlag(s, m, n - 1);
    AddActiveKeeps(Start(s), s.pecu, m.pecu, n - 1);
    hide AddActive;
  }

  /** Exactly these units have icons, in their order, each with its own camera. */
  lemma {:induction false} PecuIconsInOrder(s: AlarmState, m: AlarmMap, n: nat)
    requires ValidAlarms(s) && ValidMap(m) && n <= 24
    ensures var icons, own := PecuIcons(s, m, n).0, OwnPecuIcons(s, m);
      && |icons| == SetBits(own, n)
      && forall k :: 0 <= k < n && own[k] ==>
           SetBits(own, k) < SetBits(own, n) && icons[SetBits(own, k)] == m.pecu[k]
    decreases n
  {
    hide OwnPecuIcon;
    if n > 0 {
      PecuIconsInOrder(s, m, n - 1);
      PecuIconStep(s, m, n);
      hide PecuIcons;
    }
  }

  lemma PecuIconOf(s: AlarmState, m: AlarmMap, k: nat)
    requires ValidAlarms(s) && ValidMap(m) && k < 24 && OwnPecuIcon(s, m, k)
    ensures var icons, i := PecuIcons(s, m, 24).0, SetBits(OwnPecuIcons(s, m), k);
      i < |icons| && icons[i] == m.pecu[k]
  {
    PecuIconsInOrder(s, m, 24);
    assert OwnPecuIcons(s, m)[k];
    hide SetBits, OwnPecuIcon, OwnPecuIcons, PecuIcons;
  }

  const DOOR_ICONS: int := 24

  /** A camera is found again among the icons, and a door without one never. */
  lemma RememberedIs(icons: seq<int>, v: int)
    requires InRange(icons) && -1 <= v <= MAX_CAMERAS
    ensures Remembered(icons, v) <==> v in icons && v != -1
  {
    if v in icons && v != -1 {
      var i :| 0 <= i < |icons| && icons[i] == v;
      assert AsChar(icons[i]) == v;
    }
  }

  /** Door k has an icon of its own: it is open, and has no camera or one that watches no open door before
      it. */
  predicate OwnIcon(bits: seq<bool>, cameras: seq<int>, k: nat)
    requires k < |bits| && k < |cameras|
  {
    bits[k] && (cameras[k] == -1 || forall p :: 0 <= p < k && bits[p] ==> cameras[p] != cameras[k])
  }

  function OwnIcons(bits: seq<bool>, cameras: seq<int>): (r: seq<bool>)
    requires |bits| <= |cameras|
    ensures |r| == |bits|
  {
    seq(|bits|, k requires 0 <= k < |bits| => OwnIcon(bits, cameras, k))
  }

  lemma {:induction false} DoorIconsCover(bits: seq<bool>, cameras: seq<int>, n: nat)
    requires n <= |bits| <= |cameras| && InRange(cameras)
    ensures var icons := AddIcons(bits, cameras, n);
      InRange(icons) && forall v :: v in icons <==> exists k :: 0 <= k < n && bits[k] && cameras[k] == v
    decreases n
  {
    if n > 0 {
      DoorIconsCover(bits, cameras, n - 1);
      RememberedIs(AddIcons(bits, cameras, n - 1), cameras[n - 1]);
      hide Remembered;
    }
  }

  lemma DoorIconStep(bits: seq<bool>, cameras: seq<int>, n: nat)
    requires 0 < n <= |bits| <= |cameras| && InRange(cameras)
    ensures AddIcons(bits, cameras, n)
         == AddIcons(bits, cameras, n - 1) + if OwnIcon(bits, cameras, n - 1) then [cameras[n - 1]] else []
  {
    DoorIconsCover(bits, cameras, n - 1);
    RememberedIs(AddIcons(bits, cameras, n - 1), cameras[n - 1]);
    hide Remembered;
  }

  /** Exactly these doors have icons, in their order, each with its own camera. */
  lemma {:induction false} DoorIconsInOrder(bits: seq<bool>, cameras: seq<int>, n: nat)
    requires n <= |bits| <= |cameras| && InRange(cameras)
    ensures var icons, own := AddIcons(bits, cameras, n), OwnIcons(bits, cameras);
      && |icons| == SetBits(own, n)
      && (forall k :: 0 <= k < n && own[k] ==>
            SetBits(own, k) < SetBits(own, n) && icons[SetBits(own, k)] == cameras[k])
    decreases n
  {
    hide OwnIcon, InRange;
    if n > 0 {
      DoorIconsInOrder(bits, cameras, n - 1);
      DoorIconStep(bits, cameras, n);
      hide AddIcons;
    }
  }

  lemma DoorIconOf(bits: seq<bool>, cameras: seq<int>, k: nat)
    requires k < |bits| <= |cameras| && InRange(cameras) && OwnIcon(bits, cameras, k)
    ensures var icons, i := AddIcons(bits, cameras, |bits|), SetBits(OwnIcons(bits, cameras), k);
      i < |icons| && icons[i] == cameras[k]
  {
    DoorIconsInOrder(bits, cameras, |bits|);
    assert OwnIcons(bits, cameras)[k];
    hide SetBits, OwnIcon, OwnIcons, AddIcons;
  }

  /** How many of the doors have no camera. */
  function Unmapped(bits: seq<bool>, cameras: seq<int>, n: nat): (count: nat)
    requires n <= |bits| && n <= |cameras|
    ensures count <= n
  {
    if n == 0 then 0
    else Unmapped(bits, cameras, n - 1) + if bits[n - 1] && cameras[n - 1] == -1 then 1 else 0
  }

  /** The doors that have one. */
  function WithCamera(bits: seq<bool>, cameras: seq<int>): (r: seq<bool>)
    requires |bits| == |cameras|
    ensures |r| == |bits|
  {
    seq(|bits|, k requires 0 <= k < |bits| => bits[k] && cameras[k] != -1)
  }

  lemma {:induction false} IconsSplit(bits: seq<bool>, cameras: seq<int>, n: nat)
    requires n <= |bits| == |cameras| && InRange(cameras)
    ensures var icons, mapped := AddIcons(bits, cameras, n), AddActive([], WithCamera(bits, cameras), cameras, n);
      && InRange(icons) && -1 !in mapped
      && |icons| == |mapped| + Unmapped(bits, cameras, n)
      && (-1 in icons <==> Unmapped(bits, cameras, n) > 0)
      && (forall v :: v != -1 ==> (v in icons <==> v in mapped))
      && (forall i, j :: 0 <= i < j < |icons| && icons[i] != -1 ==> icons[i] != icons[j])
    decreases n
  {
    if n > 0 {
      IconsSplit(bits, cameras, n - 1);
      RememberedIs(AddIcons(bits, cameras, n - 1), cameras[n - 1]);
      hide Remembered;
    }
  }

  /** The icons of open doors, and those of jammed ones: one for each camera that watches such a door,
      and one for each such door without a camera. The array of 24 that holds either is large enough if
      and only if these together are at most 24. */
  lemma DoorIconsCounted(s: AlarmState, m: AlarmMap, clip: bool, cameras: set<int>)
    requires ValidAlarms(s) && ValidMap(m)
    requires forall v :: v in cameras <==>
      v != -1 && exists k :: 0 <= k < 48 && (if clip then s.clip[k] else s.door[k]) && m.door[k] == v
    ensures var icons := if clip then ClipIcons(s, m) else DoorIcons(s, m);
      var unmapped := Unmapped(if clip then s.clip else s.door, m.door, 48);
      && (forall v :: v != -1 ==> (v in icons <==> v in cameras)) && (-1 in icons <==> unmapped > 0)
      && (forall i, j :: 0 <= i < j < |icons| && icons[i] != -1 ==> icons[i] != icons[j])
      && |icons| == |cameras| + unmapped
      && (|icons| <= DOOR_ICONS <==> |cameras| + unmapped <= DOOR_ICONS)
  {
    var bits := if clip then s.clip else s.door;
    var mapped := AddActive([], WithCamera(bits, m.door), m.door, 48);
    IconsSplit(bits, m.door, 48);
    AddActiveKeeps([], WithCamera(bits, m.door), m.door, 48);
    hide AddActive, AddIcons, Unmapped;
    assert forall v :: v in mapped <==> v in cameras;
    DistinctCount(mapped, cameras);
  }

  function Cameras(n: nat): (s: set<int>)
    ensures |s| == n && forall v :: v in s <==> 0 <= v < n
  {
    if n == 0 then {} else Cameras(n - 1) + {n - 1}
  }

  /** Every door open and jammed, and n cameras to watch them: door k has camera k or, past the last
      camera, that one or none. */
  predicate EveryDoor(s: AlarmState, m: AlarmMap, n: nat, rest: int) {
    && ValidAlarms(s) && ValidMap(m) && (rest == -1 || rest == n - 1)
    && forall k :: 0 <= k < 48 ==> s.door[k] && s.clip[k] && m.door[k] == if k < n then k else rest
  }

  function ManyDoors(n: nat, rest: int): (r: (AlarmState, AlarmMap))
    requires n <= MAX_CAMERAS && (rest == -1 || rest == n - 1)
    ensures EveryDoor(r.0, r.1, n, rest)
  {
    (AlarmState(seq(24, _ => false), seq(6, _ => false), seq(48, _ => true), seq(48, _ => true), -1),
     AlarmMap(seq(24, _ => -1), seq(6, _ => -1), seq(48, k => if k < n then k else rest)))
  }

  lemma {:induction false} UnmappedRest(s: AlarmState, m: AlarmMap, n: nat, rest: int, clip: bool, k: nat)
    requires EveryDoor(s, m, n, rest) && n <= 48 && k <= 48
    ensures Unmapped(if clip then s.clip else s.door, m.door, k) == if rest == -1 && k > n then k - n else 0
    decreases k
  {
    if k > 0 {
      UnmappedRest(s, m, n, rest, clip, k - 1);
    }
  }

  /** Then n icons go into the array of 24, and n can be 32; or 48 if the other doors have no camera,
      even when none has one. */
  lemma DoorIconsOverflow(s: AlarmState, m: AlarmMap, n: nat, rest: int, clip: bool)
    requires EveryDoor(s, m, n, rest) && n <= 48
    ensures |if clip then ClipIcons(s, m) else DoorIcons(s, m)| == if rest == -1 then 48 else n
  {
    hide Cameras, AddIcons, Unmapped;
    forall v | v in Cameras(n)
      ensures exists k :: 0 <= k < 48 && (if clip then s.clip[k] else s.door[k]) && m.door[k] == v
    {
      assert m.door[v] == v && s.door[v] && s.clip[v];
    }
    UnmappedRest(s, m, n, rest, clip, 48);
    DoorIconsCounted(s, m, clip, Cameras(n));
  }

  /** 48 open or jammed doors without a camera are enough; so are 32 with one each. */
  lemma TooManyDoors(clip: bool)
    ensures var (s, m) := ManyDoors(0, -1);
      |if clip then ClipIcons(s, m) else DoorIcons(s, m)| == 48 > DOOR_ICONS
    ensures var (s, m) := ManyDoors(32, 31);
      |if clip then ClipIcons(s, m) else DoorIcons(s, m)| == 32 > DOOR_ICONS
  {
    hide ManyDoors, ClipIcons, DoorIcons;
    DoorIconsOverflow(ManyDoors(0, -1).0, ManyDoors(0, -1).1, 0, -1, clip);
    DoorIconsOverflow(ManyDoors(32, 31).0, ManyDoors(32, 31).1, 32, 31, clip);
  }

  lemma DistinctCount(list: seq<int>, s: set<int>)
    requires Distinct(list) && forall v :: v in list <==> v in s
    ensures |list| == |s|
  {
    assert list[..|list|] == list;
    assert Values(list, |list|) == s;
  }

  // ----- The scan, in place on the array of 36

  method Contains(list: array<int>, n: nat, v: int) returns (found: bool)
    requires n <= list.Length
    ensures found <==> v in list[..n]
  {
    for j := 0 to n
      invariant v !in list[..j]
    {
      if list[j] == v {
        return true;
      }
    }
    return false;
  }

  /** Appends v to the list unless it is already there. */
  method Append(list: array<int>, n: nat, v: int) returns (n': nat)
    requires n < list.Length
    modifies list
    ensures n' <= list.Length && list[..n'] == AddOnce(old(list[..n]), v)
  {
    n' := n;
    var found := Contains(list, n, v);
    if !found {
      list[n] := v;
      n' := n + 1;
    }
  }

  /** The PECU part of the scan. */
  method CollectPecu(s: AlarmState, m: AlarmMap, list: array<int>) returns (num: nat, icons: seq<int>)
    requires ValidAlarms(s) && ValidMap(m) && list.Length == LIST_SIZE
    modifies list
    ensures num <= LIST_SIZE && list[..num] == AddActive(Start(s), s.pecu, m.pecu, |s.pecu|)
    ensures Distinct(list[..num]) && InRange(list[..num])
    ensures icons == PecuIcons(s, m, |s.pecu|).0
  {
    num, icons := 0, [];
    var first := true;
    if s.firstPecu >= 0 {
      list[0] := s.firstPecu;
      num := 1;
    }
    for i := 0 to |s.pecu|
      invariant num <= LIST_SIZE && list[..num] == AddActive(Start(s), s.pecu, m.pecu, i)
      invariant Distinct(list[..num]) && InRange(list[..num])
      invariant (icons, first) == PecuIcons(s, m, i)
    {
      if s.pecu[i] {
        var v := m.pecu[i];
        ListFits(list[..num]);
        var known := Contains(list, num, v);
        if !known {
          icons := icons + [v];
        } else if v == s.firstPecu && first {
          icons := icons + [v];
          first := false;
        }
        num := Append(list, num, v);
      }
    }
  }

  /** The smoke detectors. */
  method CollectFire(s: AlarmState, m: AlarmMap, list: array<int>, num0: nat) returns (num: nat, icons: seq<int>)
    requires ValidAlarms(s) && ValidMap(m) && list.Length == LIST_SIZE
    requires num0 <= LIST_SIZE && Distinct(list[..num0]) && InRange(list[..num0])
    modifies list
    ensures num <= LIST_SIZE && list[..num] == AddActive(old(list[..num0]), s.fire, m.fire, |s.fire|)
    ensures Distinct(list[..num]) && InRange(list[..num])
    ensures icons == FireIcons(s, m, |s.fire|)
  {
    num, icons := num0, [];
    for i := 0 to |s.fire|
      invariant num <= LIST_SIZE && list[..num] == AddActive(old(list[..num0]), s.fire, m.fire, i)
      invariant Distinct(list[..num]) && InRange(list[..num])
      invariant icons == FireIcons(s, m, i)
    {
      if s.fire[i] {
        icons := icons + [m.fire[i]];
        ListFits(list[..num]);
        num := Append(list, num, m.fire[i]);
      }
    }
  }

  /** One door's icon, unless its camera has one; then it is in the list already. */
  method CollectOne(list: array<int>, num0: nat, icons0: seq<int>, v: int) returns (num: nat, icons: seq<int>)
    requires list.Length == LIST_SIZE && num0 <= LIST_SIZE
    requires Distinct(list[..num0]) && InRange(list[..num0]) && -1 <= v <= MAX_CAMERAS
    requires InRange(icons0) && forall w :: w in icons0 ==> w in list[..num0]
    modifies list
    ensures num <= LIST_SIZE && list[..num] == AddOnce(old(list[..num0]), v)
    ensures Distinct(list[..num]) && InRange(list[..num]) && icons == AddIcon(icons0, v) && InRange(icons)
    ensures forall w :: w in icons ==> w in list[..num]
    ensures forall w :: w in old(list[..num0]) ==> w in list[..num]
  {
    ListFits(list[..num0]);
    RememberedIs(icons0, v);
    num, icons := num0, icons0;
    var known := IconKnown(icons, v);
    if !known {
      icons := icons + [v];
      num := Append(list, num, v);
    }
  }

  /** The search through the array of char. */
  method IconKnown(icons: seq<int>, v: int) returns (known: bool)
    ensures known <==> Remembered(icons, v)
  {
    for i := 0 to |icons|
      invariant forall j :: 0 <= j < i ==> AsChar(icons[j]) != v
    {
      if AsChar(icons[i]) == v {
        return true;
      }
    }
    return false;
  }

  /** Doors and door jams. */
  method CollectDoors(s: AlarmState, m: AlarmMap, list: array<int>, num0: nat)
    returns (num: nat, doors: seq<int>, clips: seq<int>)
    requires ValidAlarms(s) && ValidMap(m) && list.Length == LIST_SIZE
    requires num0 <= LIST_SIZE && Distinct(list[..num0]) && InRange(list[..num0])
    modifies list
    ensures num <= LIST_SIZE && list[..num] == AddDoors(old(list[..num0]), s, m, |s.door|)
    ensures Distinct(list[..num]) && InRange(list[..num])
    ensures doors == DoorIcons(s, m) && clips == ClipIcons(s, m)
  {
    assert InRange([]);
    hide Distinct, InRange, AddOnce, AddIcon;
    num, doors, clips := num0, [], [];
    for k := 0 to |s.door|
      invariant num <= LIST_SIZE && list[..num] == AddDoors(old(list[..num0]), s, m, k)
      invariant Distinct(list[..num]) && InRange(list[..num])
      invariant doors == AddIcons(s.door, m.door, k) && clips == AddIcons(s.clip, m.door, k)
      invariant InRange(doors) && InRange(clips)
      invariant forall v :: v in doors || v in clips ==> v in list[..num]
    {
      var v := m.door[k];
      if s.door[k] {
        num, doors := CollectOne(list, num, doors, v);
      }
      if s.clip[k] {
        num, clips := CollectOne(list, num, clips, v);
      }
    }
  }

  /** The alarm scan of UpdateWarnInfoTimer: the list and the four icon lists. */
  method Collect(s: AlarmState, m: AlarmMap)
    returns (list: array<int>, num: nat, pecus: seq<int>, fires: seq<int>, doors: seq<int>, clips: seq<int>)
    requires ValidAlarms(s) && ValidMap(m)
    ensures fresh(list) && num <= list.Length == LIST_SIZE && list[..num] == Collected(s, m)
    ensures pecus == PecuIcons(s, m, |s.pecu|).0 && fires == FireIcons(s, m, |s.fire|)
    ensures doors == DoorIcons(s, m) && clips == ClipIcons(s, m)
  {
    list := new int[LIST_SIZE](_ => 0);
    num, pecus := CollectPecu(s, m, list);
    num, fires := CollectFire(s, m, list, num);
    num, doors, clips := CollectDoors(s, m, list, num);
  }
}
