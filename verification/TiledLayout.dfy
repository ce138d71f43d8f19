/** Where fb.c puts the planes of a frame inside the memory it was given, and how four page
    numbers of 20 bits are packed into three words of 32. */
module TiledLayout {

  const PAGE := 0x1000
  const WORD := 0x1_0000_0000

  datatype Format = Mode420 | Mode422 | Mode224 | Mode444 | Mode400

  datatype Map = FrameMap | FieldMap

  /** Unsigned 32-bit arithmetic. */
  function W(x: int): nat {
    x % WORD
  }

  function DivX(f: Format): nat {
    if f == Mode420 || f == Mode422 then 2 else 1
  }

  function DivY(f: Format): nat {
    if f == Mode420 || f == Mode224 then 2 else 1
  }

  /** Bytes in one chroma plane, with the two divisions where the code has them. */
  function Chroma(stride: nat, height: nat, f: Format): nat {
    stride / DivX(f) * height / DivY(f)
  }

  lemma Quarters(a: nat, b: nat)
    ensures (2 * a) * (2 * b) == 4 * (a * b) && a * (2 * b) == 2 * (a * b)
  {}

  /** The samples of a chroma plane: one for every two by two pixels, for every two beside or below each
      other, or for every pixel. */
  lemma ChromaSamples(stride: nat, height: nat, f: Format)
    requires stride % 2 == 0 && height % 2 == 0
    ensures stride * height == Chroma(stride, height, f) * match f
      case Mode420 => 4
      case Mode422 => 2
      case Mode224 => 2
      case Mode444 => 1
      case Mode400 => 1
  {
    var a, b := stride / 2, height / 2;
    assert stride == 2 * a && height == 2 * b;
    Quarters(a, b);
  }

  function RoundUp(x: nat): nat {
    (x + PAGE - 1) / PAGE * PAGE
  }

  function LumaSize(stride: nat, height: nat, kind: Map): nat {
    if kind == FrameMap then RoundUp(stride * height) else RoundUp(stride * height / 2)
  }

  function ChromaSize(stride: nat, height: nat, f: Format, kind: Map): nat {
    if kind == FrameMap then RoundUp(Chroma(stride, height, f) * 2)
    else RoundUp(Chroma(stride, height, f))
  }

  datatype Bases = Bases(lumTop: nat, lumBot: nat, chrTop: nat, chrBot: nat)

  function Place(base: nat, stride: nat, height: nat, f: Format, kind: Map): Bases {
    PlaceSizes(base, LumaSize(stride, height, kind), ChromaSize(stride, height, f, kind), kind)
  }

  function PlaceSizes(base: nat, luma: nat, chroma: nat, kind: Map): Bases {
    var lumTop := W(base + PAGE - 1) / PAGE * PAGE;
    var chrTop := W(lumTop + luma);
    if kind == FrameMap then Bases(lumTop, 0, chrTop, 0)
    else
      var lumBot := W(chrTop + chroma);
      Bases(lumTop, lumBot, chrTop, W(lumBot + luma))
  }

  datatype Words = Words(y: nat, cb: nat, cr: nat)

  function Pack(b: Bases): Words {
    var lumTop, lumBot := b.lumTop / PAGE, b.lumBot / PAGE;
    var chrTop, chrBot := b.chrTop / PAGE, b.chrBot / PAGE;
    Words(W(W(lumTop * 0x1000) + chrTop / 0x100),
          W(W(chrTop * 0x100_0000) + W(lumBot * 0x10) + chrBot / 0x1_0000),
          W(chrBot * 0x1_0000))
  }

  /** What the decoder hardware reads out of the three words: the page numbers at
      y[31:12], y[11:0] with cb[31:24], cb[23:4], and cb[3:0] with cr[31:16]. */
  function Unpack(w: Words): Bases {
    Bases(w.y / 0x1000 * PAGE,
          w.cb / 0x10 % 0x10_0000 * PAGE,
          (w.y % 0x1000 * 0x100 + w.cb / 0x100_0000) * PAGE,
          (w.cb % 0x10 * 0x1_0000 + w.cr / 0x1_0000) * PAGE)
  }

  /** tiled_framebuf_alloc and tiled_framebuf_base. */
  function TiledAlloc(base: nat, stride: nat, height: nat, f: Format, kind: Map): Words {
    Pack(Place(base, stride, height, f, kind))
  }

  function TiledBase(base: nat, stride: nat, height: nat, kind: Map): Words {
    Pack(Place(base, stride, height, Mode420, kind))
  }

  function TiledSize(stride: nat, height: nat, f: Format, kind: Map, mvCol: bool): nat {
    (if kind == FrameMap then 1 else 2)
      * (LumaSize(stride, height, kind) + ChromaSize(stride, height, f, kind))
    + PAGE - 1 + if mvCol then Chroma(stride, height, f) else 0
  }

  /** A stretch of memory. */
  datatype Region = Region(start: int, size: int)

  ghost predicate Apart(a: Region, b: Region) {
    forall x :: !(In(x, a) && In(x, b))
  }

  predicate In(x: int, a: Region) {
    a.start <= x < a.start + a.size
  }

  /** The motion vectors follow the last chroma plane. */
  function MvCol(base: nat, stride: nat, height: nat, f: Format, kind: Map): nat {
    var b := Place(base, stride, height, f, kind);
    W((if kind == FrameMap then b.chrTop else b.chrBot) + ChromaSize(stride, height, f, kind))
  }

  function Regions(base: nat, stride: nat, height: nat, f: Format, kind: Map, mvCol: bool): seq<Region> {
    var b := Place(base, stride, height, f, kind);
    var luma, chroma := LumaSize(stride, height, kind), ChromaSize(stride, height, f, kind);
    [Region(b.lumTop, luma), Region(b.chrTop, chroma)]
    + (if kind == FieldMap then [Region(b.lumBot, luma), Region(b.chrBot, chroma)] else [])
    + if mvCol then [Region(MvCol(base, stride, height, f, kind), Chroma(stride, height, f))] else []
  }

  lemma RoundUpIsUp(x: nat)
    ensures x <= RoundUp(x) <= x + PAGE - 1 && RoundUp(x) % PAGE == 0
  {}

  lemma Aligned(a: nat, b: nat)
    requires a % PAGE == 0 && b % PAGE == 0
    ensures (a + b) % PAGE == 0
  {}

  lemma Fits(x: int)
    requires 0 <= x < WORD
    ensures W(x) == x
  {}

  lemma PlaceSizesExactly(base: nat, luma: nat, chroma: nat, kind: Map)
    requires luma % PAGE == 0 && chroma % PAGE == 0
    requires base + PAGE - 1 + (if kind == FrameMap then 1 else 2) * (luma + chroma) < WORD
    ensures var b := PlaceSizes(base, luma, chroma, kind);
      && b.lumTop == RoundUp(base)
      && b.chrTop == b.lumTop + luma && b.chrTop % PAGE == 0
      && (kind == FieldMap ==>
            && b.lumBot == b.chrTop + chroma && b.lumBot % PAGE == 0
            && b.chrBot == b.lumBot + luma && b.chrBot % PAGE == 0)
      && (kind == FrameMap ==> b.lumBot == b.chrBot == 0)
  {
    var top := RoundUp(base);
    RoundUpIsUp(base);
    Fits(base + PAGE - 1);
    Fits(top + luma);
    Aligned(top, luma);
    if kind == FieldMap {
      Fits(top + luma + chroma);
      Fits(top + luma + chroma + luma);
      Aligned(top + luma, chroma);
      Aligned(top + luma + chroma, luma);
    }
    hide W;
  }

  /** With room in 32 bits nothing wraps. */
  lemma PlaceExactly(base: nat, stride: nat, height: nat, f: Format, kind: Map, mvCol: bool)
    requires base + TiledSize(stride, height, f, kind, mvCol) < WORD
    ensures var luma, chroma := LumaSize(stride, height, kind), ChromaSize(stride, height, f, kind);
      var b := Place(base, stride, height, f, kind);
      && base <= b.lumTop <= base + PAGE - 1 && b.lumTop % PAGE == 0
      && b.chrTop == b.lumTop + luma && b.chrTop % PAGE == 0
      && (kind == FieldMap ==>
            && b.lumBot == b.chrTop + chroma && b.lumBot % PAGE == 0
            && b.chrBot == b.lumBot + luma && b.chrBot % PAGE == 0)
      && (kind == FrameMap ==> b.lumBot == b.chrBot == 0)
      && MvCol(base, stride, height, f, kind)
         == (if kind == FrameMap then b.chrTop else b.chrBot) + chroma
      && b.lumTop < WORD && b.chrTop < WORD && b.lumBot < WORD && b.chrBot < WORD
  {
    var luma, chroma := LumaSize(stride, height, kind), ChromaSize(stride, height, f, kind);
    Sizes(stride, height, f, kind);
    RoundUpIsUp(base);
    PlaceSizesExactly(base, luma, chroma, kind);
    var b := PlaceSizes(base, luma, chroma, kind);
    assert b == Place(base, stride, height, f, kind);
    assert TiledSize(stride, height, f, kind, mvCol)
        >= PAGE - 1 + (if kind == FrameMap then 1 else 2) * (luma + chroma);
    hide TiledSize, LumaSize, ChromaSize, RoundUp, Chroma, PlaceSizes, Place;
    Fits((if kind == FrameMap then b.chrTop else b.chrBot) + chroma);
    hide W;
  }

  /** Two rounded halves hold n bytes, unless n is one more than a whole number of double pages. */
  lemma TwoFields(n: nat)
    ensures 2 * RoundUp(n / 2) >= n <==> n % (2 * PAGE) != 1
    ensures 2 * RoundUp(n / 2) >= n - 1
  {
    var m, q := n / 2, n / 2 / PAGE;
    assert m == PAGE * q + m % PAGE;
    if m % PAGE == 0 {
      assert RoundUp(m) == m;
      assert n % (2 * PAGE) == n % 2;
    } else {
      assert RoundUp(m) == (q + 1) * PAGE;
    }
  }

  /** Every size is page-rounded. The chroma planes, and the luma plane of the frame map, hold their
      samples; the two luma fields lack one byte when the samples are one more than a whole number of
      double pages, and hold them otherwise. */
  lemma Sizes(stride: nat, height: nat, f: Format, kind: Map)
    ensures LumaSize(stride, height, kind) % PAGE == 0 && ChromaSize(stride, height, f, kind) % PAGE == 0
    ensures kind == FrameMap ==>
      LumaSize(stride, height, kind) >= stride * height
      && ChromaSize(stride, height, f, kind) >= 2 * Chroma(stride, height, f)
    ensures kind == FieldMap ==>
      && (2 * LumaSize(stride, height, kind) >= stride * height <==> stride * height % (2 * PAGE) != 1)
      && 2 * LumaSize(stride, height, kind) >= stride * height - 1
      && ChromaSize(stride, height, f, kind) >= Chroma(stride, height, f)
  {
    hide RoundUp, Chroma;
    var n, c := stride * height, Chroma(stride, height, f);
    RoundUpIsUp(n);
    RoundUpIsUp(n / 2);
    TwoFields(n);
    RoundUpIsUp(c * 2);
    RoundUpIsUp(c);
  }

  /** And no size is larger than it needs to be. */
  lemma SizesTight(stride: nat, height: nat, f: Format, kind: Map)
    ensures kind == FrameMap ==>
      LumaSize(stride, height, kind) < stride * height + PAGE
      && ChromaSize(stride, height, f, kind) < 2 * Chroma(stride, height, f) + PAGE
    ensures kind == FieldMap ==>
      2 * LumaSize(stride, height, kind) < stride * height + 2 * PAGE
      && ChromaSize(stride, height, f, kind) < Chroma(stride, height, f) + PAGE
  {
    hide RoundUp, Chroma;
    var n, c := stride * height, Chroma(stride, height, f);
    RoundUpIsUp(n);
    RoundUpIsUp(n / 2);
    RoundUpIsUp(c * 2);
    RoundUpIsUp(c);
  }

  /** The memory allocated is used up but for what the start needs to get to a page. */
  lemma TiledSizeTight(base: nat, stride: nat, height: nat, f: Format, kind: Map, mvCol: bool)
    requires base + TiledSize(stride, height, f, kind, mvCol) < WORD
    ensures var rs := Regions(base, stride, height, f, kind, mvCol);
      var last := rs[|rs| - 1];
      last.start + last.size - rs[0].start == TiledSize(stride, height, f, kind, mvCol) - (PAGE - 1)
  {
    PlaceExactly(base, stride, height, f, kind, mvCol);
    hide Place, LumaSize, ChromaSize, Chroma, MvCol;
  }

  /** No two regions meet, all lie in the memory allocated, and the planes start on page
      boundaries. */
  lemma TiledRegions(base: nat, stride: nat, height: nat, f: Format, kind: Map, mvCol: bool)
    requires base + TiledSize(stride, height, f, kind, mvCol) < WORD
    ensures var rs := Regions(base, stride, height, f, kind, mvCol);
      && (forall i, j :: 0 <= i < j < |rs| ==> Apart(rs[i], rs[j]))
      && (forall i :: 0 <= i < |rs| ==>
            && base <= rs[i].start
            && rs[i].start + rs[i].size <= base + TiledSize(stride, height, f, kind, mvCol))
      && (forall i :: 0 <= i < |rs| - (if mvCol then 1 else 0) ==> rs[i].start % PAGE == 0)
  {
    PlaceExactly(base, stride, height, f, kind, mvCol);
    hide Place, LumaSize, ChromaSize, Chroma, MvCol;
    var rs := Regions(base, stride, height, f, kind, mvCol);
    forall i, j | 0 <= i < j < |rs|
      ensures rs[i].start + rs[i].size <= rs[j].start
    {}
  }

  lemma PackPages(lumTop: nat, lumBot: nat, chrTop: nat, chrBot: nat)
    requires lumTop < 0x10_0000 && lumBot < 0x10_0000 && chrTop < 0x10_0000 && chrBot < 0x10_0000
    ensures Pack(Bases(lumTop * PAGE, lumBot * PAGE, chrTop * PAGE, chrBot * PAGE))
         == Words(lumTop * 0x1000 + chrTop / 0x100,
                  chrTop % 0x100 * 0x100_0000 + lumBot * 0x10 + chrBot / 0x1_0000,
                  chrBot % 0x1_0000 * 0x1_0000)
  {
    var q, r := chrTop / 0x100, chrTop % 0x100;
    var c, d := chrBot / 0x1_0000, chrBot % 0x1_0000;
    Fits(lumTop * 0x1000);
    Fits(lumTop * 0x1000 + q);
    Fits(lumBot * 0x10);
    TopBits(chrTop);
    LowBits(chrBot);
    Fits(r * 0x100_0000 + lumBot * 0x10 + c);
    hide W;
  }

  lemma TopBits(page: nat)
    ensures W(page * 0x100_0000) == page % 0x100 * 0x100_0000
  {
    assert page * 0x100_0000 == page / 0x100 * WORD + page % 0x100 * 0x100_0000;
    Wraps(page / 0x100, page % 0x100 * 0x100_0000);
    hide W;
  }

  lemma LowBits(page: nat)
    ensures W(page * 0x1_0000) == page % 0x1_0000 * 0x1_0000
  {
    assert page * 0x1_0000 == page / 0x1_0000 * WORD + page % 0x1_0000 * 0x1_0000;
    Wraps(page / 0x1_0000, page % 0x1_0000 * 0x1_0000);
    hide W;
  }

  lemma Wraps(q: nat, r: nat)
    requires r < WORD
    ensures W(q * WORD + r) == r
  {}

  lemma UnpackPages(lumTop: nat, lumBot: nat, chrTop: nat, chrBot: nat)
    requires lumTop < 0x10_0000 && lumBot < 0x10_0000 && chrTop < 0x10_0000 && chrBot < 0x10_0000
    ensures Unpack(Pack(Bases(lumTop * PAGE, lumBot * PAGE, chrTop * PAGE, chrBot * PAGE)))
         == Bases(lumTop * PAGE, lumBot * PAGE, chrTop * PAGE, chrBot * PAGE)
  {
    PackPages(lumTop, lumBot, chrTop, chrBot);
    hide Pack;
    var q, r := chrTop / 0x100, chrTop % 0x100;
    var c, d := chrBot / 0x1_0000, chrBot % 0x1_0000;
    var y, cb := lumTop * 0x1000 + q, r * 0x100_0000 + lumBot * 0x10 + c;
    Digits(lumTop, 0x1000, q);
    Digits(r, 0x100_0000, lumBot * 0x10 + c);
    Digits(r * 0x10_0000 + lumBot, 0x10, c);
    Digits(r, 0x10_0000, lumBot);
    Digits(d, 0x1_0000, 0);
    assert y / 0x1000 == lumTop && y % 0x1000 * 0x100 + cb / 0x100_0000 == chrTop;
    assert cb / 0x10 % 0x10_0000 == lumBot && cb % 0x10 * 0x1_0000 + d == chrBot;
  }

  lemma Digits(a: nat, n: nat, r: nat)
    requires r < n && n in {0x10, 0x1000, 0x1_0000, 0x10_0000, 0x100_0000}
    ensures (a * n + r) / n == a && (a * n + r) % n == r
  {
    if n == 0x10 {
    } else if n == 0x1000 {
    } else if n == 0x1_0000 {
    } else if n == 0x10_0000 {
    }
  }

  /** The hardware reads back the four plane bases. */
  lemma UnpackPack(b: Bases)
    requires b.lumTop < WORD && b.lumBot < WORD && b.chrTop < WORD && b.chrBot < WORD
    requires b.lumTop % PAGE == 0 && b.lumBot % PAGE == 0 && b.chrTop % PAGE == 0 && b.chrBot % PAGE == 0
    ensures Unpack(Pack(b)) == b
  {
    hide Pack, Unpack;
    UnpackPages(b.lumTop / PAGE, b.lumBot / PAGE, b.chrTop / PAGE, b.chrBot / PAGE);
    assert b == Bases(b.lumTop / PAGE * PAGE, b.lumBot / PAGE * PAGE,
                      b.chrTop / PAGE * PAGE, b.chrBot / PAGE * PAGE);
  }

  /** So what the hardware reads is where the planes were put. */
  lemma HardwareSees(base: nat, stride: nat, height: nat, f: Format, kind: Map, mvCol: bool)
    requires base + TiledSize(stride, height, f, kind, mvCol) < WORD
    ensures Unpack(TiledAlloc(base, stride, height, f, kind)) == Place(base, stride, height, f, kind)
  {
    PlaceExactly(base, stride, height, f, kind, mvCol);
    hide Place, LumaSize, ChromaSize, Chroma, MvCol, Pack, Unpack;
    UnpackPack(Place(base, stride, height, f, kind));
  }

  /** tiled_framebuf_base always lays the planes out as for 4:2:0. On memory of another format it
      still gives the words that tiled_framebuf_alloc gave, exactly when the two fields are not
      kept apart or the chroma planes round up to as many pages. */
  lemma BaseAgrees(base: nat, stride: nat, height: nat, f: Format, kind: Map)
    requires base + TiledSize(stride, height, f, kind, false) < WORD
    requires base + TiledSize(stride, height, Mode420, kind, false) < WORD
    ensures TiledBase(base, stride, height, kind) == TiledAlloc(base, stride, height, f, kind)
       <==> kind == FrameMap
            || ChromaSize(stride, height, Mode420, kind) == ChromaSize(stride, height, f, kind)
  {
    PlaceExactly(base, stride, height, f, kind, false);
    PlaceExactly(base, stride, height, Mode420, kind, false);
    HardwareSees(base, stride, height, f, kind, false);
    HardwareSees(base, stride, height, Mode420, kind, false);
    hide LumaSize, ChromaSize, Chroma, Pack, Unpack;
  }

  // ----- Raster layout (framebuf_alloc) -----

  function LinearSize(stride: nat, height: nat, f: Format, mvCol: bool): nat {
    stride * height + stride / DivX(f) * height / DivY(f) * 2 + 512
    + if mvCol then Chroma(stride, height, f) else 0
  }

  function LinearRegions(base: nat, luma: nat, chroma: nat, mvCol: bool): seq<Region> {
    var cb := W(base + luma);
    var cr := W(cb + chroma);
    [Region(base, luma), Region(cb, chroma), Region(cr, chroma)]
    + if mvCol then [Region(W(cr + chroma + 512), chroma)] else []
  }

  lemma LinearRegionsExactly(base: nat, luma: nat, chroma: nat, mvCol: bool)
    requires base + luma + 2 * chroma + 512 + (if mvCol then chroma else 0) < WORD
    ensures LinearRegions(base, luma, chroma, mvCol)
         == [Region(base, luma), Region(base + luma, chroma), Region(base + luma + chroma, chroma)]
            + if mvCol then [Region(base + luma + 2 * chroma + 512, chroma)] else []
  {
    Fits(base + luma);
    Fits(base + luma + chroma);
    if mvCol {
      Fits(base + luma + chroma + chroma + 512);
    }
    hide W;
  }

  /** The planes follow one another, the motion vectors start 512 bytes after them and end where
      the memory ends. */
  lemma LinearLayout(base: nat, stride: nat, height: nat, f: Format, mvCol: bool)
    requires base + LinearSize(stride, height, f, mvCol) < WORD
    ensures var rs := LinearRegions(base, stride * height, Chroma(stride, height, f), mvCol);
      var end := base + LinearSize(stride, height, f, mvCol);
      && (forall i, j :: 0 <= i < j < |rs| ==> Apart(rs[i], rs[j]))
      && (forall i :: 0 <= i < |rs| ==> base <= rs[i].start && rs[i].start + rs[i].size <= end)
      && rs[|rs| - 1].start + rs[|rs| - 1].size == end - (if mvCol then 0 else 512)
  {
    var luma, chroma := stride * height, Chroma(stride, height, f);
    assert LinearSize(stride, height, f, mvCol)
        == luma + chroma * 2 + 512 + if mvCol then chroma else 0;
    hide LinearSize, Chroma, LinearRegions;
    LinearRegionsExactly(base, luma, chroma, mvCol);
  }
}
