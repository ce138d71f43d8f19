/** Painting a black rectangle into the planar 4:2:0 frame buffer (ipuapi.c). */
module ScreenFill {

  type Byte = x: int | 0 <= x < 256

  datatype Rect = Rect(x: nat, y: nat, w: nat, h: nat)

  /** The frame buffer is mapped with 12 bits a pixel. */
  datatype Screen = Screen(xres: nat, yres: nat) {
    function Luma(): nat { xres * yres }
    function Cr(): nat { xres * yres * 5 / 4 }
    function Bytes(): nat { xres * yres * 12 / 8 }
  }

  /** The rectangle does not stick out to the right of a screen of even width. */
  predicate OnScreen(s: Screen, q: Rect) {
    s.xres % 2 == 0 && q.x + q.w <= s.xres
  }

  /** The chroma rows keep to their planes. If the height is odd the last one has room for half a row
      only: then the rectangle has to have no chroma, stay off the last row, or keep to the left. */
  predicate Fits(s: Screen, q: Rect) {
    OnScreen(s, q)
    && (s.yres % 2 == 0 || q.w / 2 == 0 || NoRow(s, q) || q.y + q.h < s.yres
        || q.x / 2 + q.w / 2 <= s.xres / 4)
  }

  /** The rectangle has no row on the screen. */
  predicate NoRow(s: Screen, q: Rect) {
    q.h == 0 || q.y >= s.yres
  }

  predicate RowHit(k: int, start: int, length: int) {
    start <= k < start + length
  }

  /** Where the three memset calls of row r start. */
  function LumaStart(s: Screen, q: Rect, r: nat): nat {
    q.x + r * s.xres
  }

  function ChromaStart(s: Screen, q: Rect, base: int, r: nat): int {
    q.x / 2 + r / 2 * (s.xres / 2) + base
  }

  /** Byte k is written by the luma memset of a row before row i. */
  ghost predicate LumaHit(s: Screen, q: Rect, i: int, k: int) {
    exists r: nat :: q.y <= r < i && RowHit(k, LumaStart(s, q, r), q.w)
  }

  /** Byte k is written by the memset into the chroma plane at base. */
  ghost predicate ChromaHit(s: Screen, q: Rect, base: int, i: int, k: int) {
    exists r: nat :: q.y <= r < i && RowHit(k, ChromaStart(s, q, base, r), q.w / 2)
  }

  /** The row the loop stops at. */
  function Bottom(s: Screen, q: Rect): nat {
    if q.y + q.h <= s.yres then q.y + q.h else if q.y <= s.yres then s.yres else q.y
  }

  /** The value byte k has once the rows before row i are painted. */
  ghost function Painted(s: Screen, q: Rect, i: int, k: int, was: Byte): Byte {
    if LumaHit(s, q, i, k) then 0
    else if ChromaHit(s, q, s.Luma(), i, k) || ChromaHit(s, q, s.Cr(), i, k) then 128
    else was
  }

  // ----- Where a row lands -----

  lemma {:induction false} Monotone(r: int, n: int, width: nat)
    requires r <= n
    ensures r * width <= n * width
    decreases n - r
  {
    if r < n {
      Monotone(r, n - 1, width);
      assert n * width == (n - 1) * width + width;
    }
  }

  lemma Below(r: int, n: int, c: int, width: nat)
    requires r < n && c <= width
    ensures r * width + c <= n * width
  {
    assert (r + 1) * width == r * width + width;
    Monotone(r + 1, n, width);
  }

  /** How much the planes hold; room is what is left of the last row of an odd height. */
  lemma Planes(s: Screen)
    requires s.xres % 2 == 0
    ensures var plane := s.xres / 2 * (s.yres / 2);
      var odd := s.yres % 2;
      && s.Luma() == 4 * plane + odd * s.xres
      && s.Cr() == s.Luma() + plane + odd * (s.xres / 4)
      && s.Bytes() == s.Cr() + plane + odd * (s.xres / 2 - s.xres / 4)
  {
    var a, n := s.xres / 2, s.yres / 2;
    assert s.xres == 2 * a;
    if s.yres % 2 == 0 {
      assert s.yres == 2 * n && (2 * a) * (2 * n) == 4 * (a * n);
    } else {
      assert s.yres == 2 * n + 1 && (2 * a) * (2 * n + 1) == 4 * (a * n) + 2 * a;
    }
  }

  /** The three writes for row r stay in the luma plane and in the two chroma planes. */
  predicate InPlanes(s: Screen, q: Rect, r: nat) {
    && LumaStart(s, q, r) + q.w <= s.Luma()
    && (q.w / 2 > 0 ==>
          && s.Luma() <= ChromaStart(s, q, s.Luma(), r)
          && ChromaStart(s, q, s.Luma(), r) + q.w / 2 <= s.Cr() <= ChromaStart(s, q, s.Cr(), r)
          && ChromaStart(s, q, s.Cr(), r) + q.w / 2 <= s.Bytes())
  }

  /** Row r of the screen is one of the rectangle. */
  predicate Rows(s: Screen, q: Rect, r: int) {
    q.y <= r < q.y + q.h && r < s.yres
  }

  lemma LumaRow(s: Screen, q: Rect, r: nat)
    requires OnScreen(s, q) && r < s.yres
    ensures LumaStart(s, q, r) + q.w <= s.Luma()
  {
    Below(r, s.yres, q.x + q.w, s.xres);
    assert s.yres * s.xres == s.Luma();
  }

  lemma ChromaRow(s: Screen, q: Rect, r: nat)
    requires Fits(s, q) && Rows(s, q, r) && q.w / 2 > 0
    ensures 0 <= r / 2 * (s.xres / 2)
    ensures q.x / 2 + r / 2 * (s.xres / 2) + q.w / 2 <= s.xres / 2 * (s.yres / 2) + s.yres % 2 * (s.xres / 4)
  {
    var half, n, c := s.xres / 2, s.yres / 2, q.x / 2 + q.w / 2;
    assert n * half == half * n;
    Monotone(0, r / 2, half);
    if r / 2 < n {
      assert c <= half;
      Below(r / 2, n, c, half);
    } else {
      assert r == s.yres - 1 && s.yres % 2 == 1 && r / 2 == n;
    }
  }

  lemma RowInPlane(s: Screen, q: Rect, r: nat)
    requires Fits(s, q) && Rows(s, q, r)
    ensures InPlanes(s, q, r) && LumaStart(s, q, r) + q.w <= s.Luma() <= s.Cr() <= s.Bytes()
  {
    Planes(s);
    LumaRow(s, q, r);
    var half, n := s.xres / 2, s.yres / 2;
    Monotone(0, n, half);
    assert n * half == half * n;
    if q.w / 2 > 0 {
      ChromaRow(s, q, r);
    }
    hide Screen.Luma, Screen.Cr, Screen.Bytes, LumaStart, Fits, Rows;
  }

  lemma LastRowOverruns(s: Screen, q: Rect)
    requires OnScreen(s, q) && !Fits(s, q)
    ensures s.yres > 0 && Rows(s, q, s.yres - 1) && !InPlanes(s, q, s.yres - 1)
  {
    hide Screen.Luma, Screen.Cr, Screen.Bytes, InPlanes, LumaStart;
    Planes(s);
    var r, half := s.yres - 1, s.xres / 2;
    var plane := half * (s.yres / 2);
    assert r / 2 == s.yres / 2;
    assert ChromaStart(s, q, s.Luma(), r) == q.x / 2 + plane + s.Luma();
    hide ChromaStart;
    PastPlane(s, q, r);
  }

  lemma PastPlane(s: Screen, q: Rect, r: nat)
    requires q.w / 2 > 0 && ChromaStart(s, q, s.Luma(), r) + q.w / 2 > s.Cr()
    ensures !InPlanes(s, q, r)
  {
    hide ChromaStart, Screen.Luma, Screen.Cr, LumaStart;
  }

  /** They do for every row painted exactly when the rectangle fits. */
  lemma FitsExactly(s: Screen, q: Rect)
    requires OnScreen(s, q)
    ensures (forall r: nat :: Rows(s, q, r) ==> InPlanes(s, q, r)) <==> Fits(s, q)
  {
    if Fits(s, q) {
      forall r: nat | Rows(s, q, r)
        ensures InPlanes(s, q, r)
      {
        RowInPlane(s, q, r);
      }
    } else {
      LastRowOverruns(s, q);
    }
    hide Rows, InPlanes, Fits;
  }

  // ----- The code -----

  method Memset(a: array<Byte>, start: nat, value: Byte, length: nat)
    requires length == 0 || start + length <= a.Length
    modifies a
    ensures forall k :: 0 <= k < a.Length ==>
              a[k] == if RowHit(k, start, length) then value else old(a[k])
  {
    for j := 0 to length
      invariant forall k :: 0 <= k < a.Length ==>
                  a[k] == if RowHit(k, start, j) then value else old(a[k])
    {
      a[start + j] := value;
    }
  }

  /** The three memset calls of one row. */
  ghost function RowPainted(s: Screen, q: Rect, i: nat, k: int, was: Byte): Byte {
    if RowHit(k, LumaStart(s, q, i), q.w) then 0
    else if RowHit(k, ChromaStart(s, q, s.Luma(), i), q.w / 2)
         || RowHit(k, ChromaStart(s, q, s.Cr(), i), q.w / 2) then 128
    else was
  }

  method FillRow(a: array<Byte>, s: Screen, q: Rect, i: nat)
    requires Fits(s, q) && a.Length == s.Bytes() && Rows(s, q, i)
    modifies a
    ensures forall k :: 0 <= k < a.Length ==> a[k] == RowPainted(s, q, i, k, old(a[k]))
  {
    hide Screen.Luma, Screen.Cr, Screen.Bytes, Fits;
    RowInPlane(s, q, i);
    var luma := LumaStart(s, q, i);
    var cb, cr := ChromaStart(s, q, s.Luma(), i), ChromaStart(s, q, s.Cr(), i);
    assert luma + q.w <= a.Length;
    assert q.w / 2 > 0 ==> luma + q.w <= cb && cb + q.w / 2 <= cr && cr + q.w / 2 <= a.Length;
    hide LumaStart, ChromaStart, Fits, InPlanes, Rows, Screen.Luma, Screen.Cr, Screen.Bytes;
    Memset(a, luma, 0, q.w);
    Memset(a, cb, 128, q.w / 2);
    Memset(a, cr, 128, q.w / 2);
  }

  lemma LumaHitIsLuma(s: Screen, q: Rect, i: nat, k: int)
    requires Fits(s, q) && i <= Bottom(s, q) && LumaHit(s, q, i, k)
    ensures k < s.Luma()
  {
    var r: nat :| q.y <= r < i && RowHit(k, LumaStart(s, q, r), q.w);
    RowInPlane(s, q, r);
    hide LumaStart, ChromaStart;
  }

  lemma LumaHitStep(s: Screen, q: Rect, i: nat, k: int)
    requires q.y <= i
    ensures LumaHit(s, q, i + 1, k) <==> LumaHit(s, q, i, k) || RowHit(k, LumaStart(s, q, i), q.w)
  {
    hide LumaStart, RowHit;
  }

  lemma ChromaHitStep(s: Screen, q: Rect, base: int, i: nat, k: int)
    requires q.y <= i
    ensures ChromaHit(s, q, base, i + 1, k)
       <==> ChromaHit(s, q, base, i, k) || RowHit(k, ChromaStart(s, q, base, i), q.w / 2)
  {
    hide ChromaStart, RowHit;
  }

  lemma OneMoreRow(s: Screen, q: Rect, i: nat, k: int, was: Byte)
    requires Fits(s, q) && Rows(s, q, i)
    ensures RowPainted(s, q, i, k, Painted(s, q, i, k, was)) == Painted(s, q, i + 1, k, was)
  {
    RowInPlane(s, q, i);
    LumaHitStep(s, q, i, k);
    ChromaHitStep(s, q, s.Luma(), i, k);
    ChromaHitStep(s, q, s.Cr(), i, k);
    if LumaHit(s, q, i, k) {
      LumaHitIsLuma(s, q, i, k);
    }
    hide LumaHit, ChromaHit, LumaStart, ChromaStart, Fits;
  }

  /** ipu_setfb1Bkcolor: every byte of the buffer afterwards. */
  method SetBackground(a: array?<Byte>, s: Screen, q: Rect) returns (result: int)
    requires Fits(s, q) && (a != null ==> a.Length == s.Bytes())
    modifies a
    ensures result == if a == null then -1 else 0
    ensures a != null ==> forall k :: 0 <= k < a.Length ==>
                            a[k] == Painted(s, q, Bottom(s, q), k, old(a[k]))
  {
    if a == null {
      return -1;
    }
    var i := q.y;
    while i < q.y + q.h && i < s.yres
      invariant q.y <= i <= Bottom(s, q)
      invariant forall k :: 0 <= k < a.Length ==> a[k] == Painted(s, q, i, k, old(a[k]))
    {
      ghost var before := a[..];
      FillRow(a, s, q, i);
      forall k | 0 <= k < a.Length
        ensures a[k] == Painted(s, q, i + 1, k, old(a[k]))
      {
        OneMoreRow(s, q, i, k, old(a[k]));
      }
      i := i + 1;
    }
    return 0;
  }

  // ----- What the bytes are on the screen -----

  predicate Inside(q: Rect, s: Screen, row: int, col: int) {
    q.x <= col < q.x + q.w && Rows(s, q, row)
  }

  lemma SameRow(r: int, n: int, width: nat, c: int, d: int)
    requires 0 <= c < width && 0 <= d < width && r * width + c == n * width + d
    ensures r == n
  {
    if r < n {
      Below(r, n, width, width);
    } else if n < r {
      Below(n, r, width, width);
    }
  }

  /** In the luma plane exactly the pixels of the rectangle, cut off at the bottom of the screen,
      turn 0. */
  lemma LumaIsRectangle(s: Screen, q: Rect, row: nat, col: nat, was: Byte)
    requires Fits(s, q) && row < s.yres && col < s.xres
    ensures Painted(s, q, Bottom(s, q), row * s.xres + col, was)
         == if Inside(q, s, row, col) then 0 else was
  {
    var k := row * s.xres + col;
    Below(row, s.yres, col + 1, s.xres);
    assert s.yres * s.xres == s.Luma();
    NoChromaHit(s, q, k);
    hide ChromaHit, Screen.Luma, Screen.Cr;
    if LumaHit(s, q, Bottom(s, q), k) {
      var r: nat :| q.y <= r < Bottom(s, q) && RowHit(k, LumaStart(s, q, r), q.w);
      SameRow(row, r, s.xres, col, k - r * s.xres);
    }
    if Inside(q, s, row, col) {
      assert RowHit(k, LumaStart(s, q, row), q.w);
    }
  }

  lemma NoChromaHit(s: Screen, q: Rect, k: int)
    requires Fits(s, q) && k < s.Luma()
    ensures !ChromaHit(s, q, s.Luma(), Bottom(s, q), k) && !ChromaHit(s, q, s.Cr(), Bottom(s, q), k)
  {
    hide Screen.Luma, Screen.Cr, Screen.Bytes, LumaStart, ChromaStart, Fits;
    forall r: nat | q.y <= r < Bottom(s, q)
      ensures !RowHit(k, ChromaStart(s, q, s.Luma(), r), q.w / 2)
      ensures !RowHit(k, ChromaStart(s, q, s.Cr(), r), q.w / 2)
    {
      RowInPlane(s, q, r);
    }
  }

  /** The column of blocks the code paints, and the rows of blocks. */
  predicate Touched(s: Screen, q: Rect, blockRow: nat, blockCol: nat) {
    && q.x / 2 <= blockCol < q.x / 2 + q.w / 2
    && (Rows(s, q, 2 * blockRow) || Rows(s, q, 2 * blockRow + 1))
  }

  /** Some pixel of the block is in the rectangle. */
  predicate Covered(s: Screen, q: Rect, blockRow: nat, blockCol: nat) {
    || Inside(q, s, 2 * blockRow, 2 * blockCol) || Inside(q, s, 2 * blockRow, 2 * blockCol + 1)
    || Inside(q, s, 2 * blockRow + 1, 2 * blockCol) || Inside(q, s, 2 * blockRow + 1, 2 * blockCol + 1)
  }

  /** In either chroma plane exactly the samples of the touched blocks turn 128. */
  lemma ChromaIsTouched(s: Screen, q: Rect, base: nat, blockRow: nat, blockCol: nat, was: Byte)
    requires Fits(s, q) && (base == s.Luma() || base == s.Cr())
    requires blockCol < s.xres / 2 && InPlane(s, base, base + blockRow * (s.xres / 2) + blockCol)
    ensures Painted(s, q, Bottom(s, q), base + blockRow * (s.xres / 2) + blockCol, was)
         == if Touched(s, q, blockRow, blockCol) then 128 else was
  {
    var k := base + blockRow * (s.xres / 2) + blockCol;
    BlockHit(s, q, base, blockRow, blockCol);
    PlanesApart(s, q, base, if base == s.Luma() then s.Cr() else s.Luma(), k);
    hide LumaHit, ChromaHit, Touched, Fits;
  }

  predicate InPlane(s: Screen, base: nat, k: int) {
    if base == s.Luma() then s.Luma() <= k < s.Cr() else s.Cr() <= k < s.Bytes()
  }

  /** On a screen of even height the planes hold a sample for every block. */
  lemma BlockInPlane(s: Screen, base: nat, blockRow: nat, blockCol: nat)
    requires s.xres % 2 == 0 && s.yres % 2 == 0 && (base == s.Luma() || base == s.Cr())
    requires blockRow < s.yres / 2 && blockCol < s.xres / 2
    ensures InPlane(s, base, base + blockRow * (s.xres / 2) + blockCol)
  {
    Planes(s);
    Below(blockRow, s.yres / 2, blockCol + 1, s.xres / 2);
    Monotone(0, blockRow, s.xres / 2);
  }

  lemma PlanesApart(s: Screen, q: Rect, base: nat, other: nat, k: int)
    requires Fits(s, q) && InPlane(s, base, k)
    requires (base == s.Luma() && other == s.Cr()) || (base == s.Cr() && other == s.Luma())
    ensures !LumaHit(s, q, Bottom(s, q), k) && !ChromaHit(s, q, other, Bottom(s, q), k)
  {
    hide LumaStart, ChromaStart, Screen.Luma, Screen.Cr, Screen.Bytes;
    forall r: nat | q.y <= r < Bottom(s, q)
      ensures !RowHit(k, LumaStart(s, q, r), q.w)
      ensures !RowHit(k, ChromaStart(s, q, other, r), q.w / 2)
    {
      RowInPlane(s, q, r);
    }
  }

  lemma BlockHit(s: Screen, q: Rect, base: nat, blockRow: nat, blockCol: nat)
    requires Fits(s, q) && blockCol < s.xres / 2
    ensures ChromaHit(s, q, base, Bottom(s, q), base + blockRow * (s.xres / 2) + blockCol)
       <==> Touched(s, q, blockRow, blockCol)
  {
    var half := s.xres / 2;
    var k := base + blockRow * half + blockCol;
    if ChromaHit(s, q, base, Bottom(s, q), k) {
      var r: nat :| q.y <= r < Bottom(s, q) && RowHit(k, ChromaStart(s, q, base, r), q.w / 2);
      SameRow(blockRow, r / 2, half, blockCol, k - base - r / 2 * half);
      assert r == 2 * blockRow || r == 2 * blockRow + 1;
    }
    if Touched(s, q, blockRow, blockCol) {
      var r := if Rows(s, q, 2 * blockRow) then 2 * blockRow else 2 * blockRow + 1;
      assert r / 2 == blockRow;
      assert RowHit(k, ChromaStart(s, q, base, r), q.w / 2);
    }
  }

  /** These are the blocks the rectangle covers, for every block, exactly when nothing is painted
      or the rectangle starts and ends between blocks. */
  lemma TouchedIsCovered(s: Screen, q: Rect)
    ensures (forall blockRow: nat, blockCol: nat ::
               Touched(s, q, blockRow, blockCol) <==> Covered(s, q, blockRow, blockCol))
       <==> q.w == 0 || NoRow(s, q) || (q.x % 2 == 0 && q.w % 2 == 0)
  {
    var row, col := q.y / 2, (q.x + q.w - 1) / 2;
    if !(q.w == 0 || NoRow(s, q) || (q.x % 2 == 0 && q.w % 2 == 0)) {
      assert Inside(q, s, q.y, q.x + q.w - 1);
      assert q.y == 2 * row || q.y == 2 * row + 1;
      assert q.x + q.w - 1 == 2 * col || q.x + q.w - 1 == 2 * col + 1;
      assert Covered(s, q, row, col) && !Touched(s, q, row, col);
    }
  }

  /** On a screen of even height, for a rectangle with even left edge and width: in either chroma plane
      exactly the samples of the blocks it covers turn 128, for every block of the screen. */
  lemma ChromaIsCovered(s: Screen, q: Rect, base: nat, blockRow: nat, blockCol: nat, was: Byte)
    requires OnScreen(s, q) && s.yres % 2 == 0 && q.x % 2 == 0 && q.w % 2 == 0
    requires (base == s.Luma() || base == s.Cr()) && blockRow < s.yres / 2 && blockCol < s.xres / 2
    ensures Painted(s, q, Bottom(s, q), base + blockRow * (s.xres / 2) + blockCol, was)
         == if Covered(s, q, blockRow, blockCol) then 128 else was
  {
    BlockInPlane(s, base, blockRow, blockCol);
    ChromaIsTouched(s, q, base, blockRow, blockCol, was);
    TouchedIsCovered(s, q);
    hide Painted, Touched, Covered, InPlane, Screen.Luma, Screen.Cr;
  }
}
