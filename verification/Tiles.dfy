/** Which thread block computes which tile, and which blocks of K a Q tile visits. */
module Tiles {

  function CeilDiv(x: nat, align: nat): nat
    requires 0 < align
  {
    (x + align - 1) / align
  }

  function Min(a: nat, b: nat): nat { if a < b then a else b }

  lemma MulLe(a: nat, b: nat, c: nat)
    requires a <= b
    ensures a * c <= b * c
  {
  }

  lemma MulAssoc(a: nat, b: nat, c: nat)
    ensures a * (b * c) == a * b * c
  {
  }

  lemma MulDist(a: int, b: int, c: int)
    ensures (a + b) * c == a * c + b * c
  {
  }

  lemma DivUnique(q: int, d: nat, r: nat)
    requires r < d
    ensures (q * d + r) / d == q && (q * d + r) % d == r
  {
    var a, b := (q * d + r) / d, (q * d + r) % d;
    assert a * d + b == q * d + r;
    assert a + 1 <= q ==> (a + 1) * d <= q * d;
    assert q + 1 <= a ==> (q + 1) * d <= a * d;
  }

  lemma ModShift(a: int, q: int, m: nat)
    requires 0 < m
    ensures (a + q * m) % m == a % m
  {
    assert a + q * m == (a / m + q) * m + a % m;
    DivUnique(a / m + q, m, a % m);
  }

  /** A value below m is recovered after a rotation by x. */
  lemma RotateBack(a: nat, x: int, m: nat)
    requires a < m
    ensures (x + (a - x) % m) % m == a
  {
    var q := (a - x) / m;
    assert x + (a - x) % m == a + (-q) * m;
    ModShift(a, -q, m);
    DivUnique(0, m, a);
  }

  // ---- block swizzle ----

  /** Width of the column group that starts at column `base`. */
  function GroupWidth(width: nat, base: nat, BN: nat): nat
    requires base <= BN
  {
    if base + width < BN then width else BN - base
  }

  /** Tile (bm, bn) of the BM x BN tile grid that linear id `id` stands for. */
  function BlockSwizzle(BS_W: nat, id: nat, BM: nat, BN: nat): (nat, nat)
    requires 0 < BS_W && 0 < BM && 0 < BN && id < BM * BN
  {
    var width := Min(BS_W, BN);
    BaseInRange(width, id, BM, BN);
    var base := id / (width * BM) * width;
    var w := GroupWidth(width, base, BN);
    var inSquare := id % (w * BM);
    (inSquare / w, base + inSquare % w)
  }

  lemma DivMod(i: nat, d: nat)
    requires 0 < d
    ensures i == i / d * d + i % d && i % d < d
  {
  }

  /** The group an id falls into, and its offset there. */
  lemma BaseInRange(width: nat, id: nat, BM: nat, BN: nat)
    requires 0 < width && 0 < BM && id < BM * BN
    ensures 0 < width * BM
    ensures var base := id / (width * BM) * width;
            var w := GroupWidth(width, Min(base, BN), BN);
            base < BN && 0 < w <= width && 0 < w * BM && base * BM <= id < base * BM + w * BM
  {
    MulLe(1, width, BM);
    var num := id / (width * BM);
    DivMod(id, width * BM);
    MulAssoc(num, width, BM);
    GroupOf(width, id, num * width, BM, BN, id % (width * BM));
  }

  lemma GroupOf(width: nat, id: nat, base: nat, BM: nat, BN: nat, o: nat)
    requires 0 < width && id == base * BM + o && o < width * BM && id < BM * BN
    ensures base < BN
    ensures var w := GroupWidth(width, base, BN);
            0 < w <= width && 0 < w * BM && base * BM <= id < base * BM + w * BM
  {
    if BN <= base { MulLe(BN, base, BM); }
    var w := GroupWidth(width, base, BN);
    MulLe(1, w, BM);
    MulDist(base, w, BM);
  }

  lemma ColumnInGroup(width: nat, bn: nat, BN: nat)
    requires 0 < width && bn < BN
    ensures var base := bn / width * width; base <= bn && 0 < GroupWidth(width, base, BN)
  {
    assert bn == bn / width * width + bn % width;
  }

  /** The linear id of tile (bm, bn). */
  function Unswizzle(BS_W: nat, bm: nat, bn: nat, BM: nat, BN: nat): nat
    requires 0 < BS_W && bm < BM && bn < BN
  {
    var width := Min(BS_W, BN);
    ColumnInGroup(width, bn, BN);
    var base := bn / width * width;
    var w := GroupWidth(width, base, BN);
    var inSquare := bm * w + (bn - base);
    MulLe(1, BM, w);
    // offset of the id in its group: in a ragged last group the ids are rotated
    base * BM + (inSquare - base * BM) % (w * BM)
  }

  /** Reducing an id modulo the size of its own group rotates the offset in the group. */
  lemma Rotation(id: nat, start: nat, m: nat)
    requires start <= id < start + m
    ensures (id % m - start) % m == id - start
  {
    var q := id / m;
    assert id % m - start == (id - start) + (-q) * m;
    ModShift(id - start, -q, m);
    DivUnique(0, m, id - start);
  }

  /** Row and column inside a group of width w and height BM. */
  lemma RowColumn(a: nat, w: nat, BM: nat)
    requires 0 < w && a < w * BM
    ensures a / w < BM && a % w < w && a / w * w + a % w == a
  {
    if BM <= a / w { MulLe(BM, a / w, w); }
  }

  /** Every id names a tile inside the grid, and the tile names the id back. */
  lemma SwizzleInGrid(BS_W: nat, id: nat, BM: nat, BN: nat)
    requires 0 < BS_W && 0 < BM && 0 < BN && id < BM * BN
    ensures var (bm, bn) := BlockSwizzle(BS_W, id, BM, BN);
            bm < BM && bn < BN && Unswizzle(BS_W, bm, bn, BM, BN) == id
  {
    var width := Min(BS_W, BN);
    BaseInRange(width, id, BM, BN);
    var num := id / (width * BM);
    var base := num * width;
    var w := GroupWidth(width, base, BN);
    var m := w * BM;
    RowColumn(id % m, w, BM);
    DivUnique(num, width, id % m % w);
    Rotation(id, base * BM, m);
    var (bm, bn) := BlockSwizzle(BS_W, id, BM, BN);
    assert bm == id % m / w && bn == base + id % m % w && bn / width * width == base;
    assert bm * w + (bn - base) == id % m;
  }

  /** Every tile of the grid is named by an id, which leads back to the tile. */
  lemma UnswizzleInRange(BS_W: nat, bm: nat, bn: nat, BM: nat, BN: nat)
    requires 0 < BS_W && bm < BM && bn < BN
    ensures Unswizzle(BS_W, bm, bn, BM, BN) < BM * BN
    ensures BlockSwizzle(BS_W, Unswizzle(BS_W, bm, bn, BM, BN), BM, BN) == (bm, bn)
  {
    var width := Min(BS_W, BN);
    var num, c := bn / width, bn % width;
    assert bn == num * width + c;
    var w := GroupWidth(width, num * width, BN);
    InSquare(bm, w, c, BM);
    MulLe(1, width, BM);
    GroupId(width, num, w, bm * w + c, BM, BN);
    SwizzleFrom(BS_W, Unswizzle(BS_W, bm, bn, BM, BN), num, bm * w + c, BM, BN);
    DivUnique(bm, w, c);
  }

  lemma SwizzleFrom(BS_W: nat, id: nat, num: nat, a: nat, BM: nat, BN: nat)
    requires 0 < BS_W && 0 < BM && 0 < BN && id < BM * BN && 0 < Min(BS_W, BN) * BM
    requires num == id / (Min(BS_W, BN) * BM) && num * Min(BS_W, BN) < BN
    requires var w := GroupWidth(Min(BS_W, BN), num * Min(BS_W, BN), BN); 0 < w * BM && id % (w * BM) == a
    ensures var w := GroupWidth(Min(BS_W, BN), num * Min(BS_W, BN), BN);
            BlockSwizzle(BS_W, id, BM, BN) == (a / w, num * Min(BS_W, BN) + a % w)
  {
  }

  /** The id that lies at place `a` of group `num`. */
  lemma GroupId(width: nat, num: nat, w: nat, a: nat, BM: nat, BN: nat)
    requires num * width < BN && w == GroupWidth(width, num * width, BN) && a < w * BM
    requires 0 < width * BM
    ensures var id := num * width * BM + (a - num * width * BM) % (w * BM);
            id < BM * BN && id / (width * BM) == num && id % (w * BM) == a
  {
    var base := num * width;
    var o := (a - base * BM) % (w * BM);
    MulDist(base, w, BM);
    MulLe(base + w, BN, BM);
    MulLe(w, width, BM);
    MulAssoc(num, width, BM);
    DivUnique(num, width * BM, o);
    RotateBack(a, base * BM, w * BM);
  }

  lemma InSquare(bm: nat, w: nat, c: nat, BM: nat)
    requires bm < BM && c < w
    ensures bm * w + c < w * BM
  {
    MulLe(bm + 1, BM, w);
  }

  // ---- grid-stride loop ----

  /** The ids thread block `id` of a grid of `grid` blocks visits, in order. */
  function GridIds(id: nat, grid: nat, total: nat): seq<nat>
    requires 0 < grid
    decreases total - id
  {
    if total <= id then [] else [id] + GridIds(id + grid, grid, total)
  }

  lemma {:induction false} GridIdAt(id: nat, grid: nat, total: nat, n: nat)
    requires 0 < grid
    ensures n < |GridIds(id, grid, total)| <==> id + n * grid < total
    ensures n < |GridIds(id, grid, total)| ==> GridIds(id, grid, total)[n] == id + n * grid
    decreases total - id
  {
    assert n > 0 ==> n * grid == (n - 1) * grid + grid;
    assert n * grid >= 0;
    if id < total && n > 0 {
      GridIdAt(id + grid, grid, total, n - 1);
    }
  }

  /** Over all thread blocks, every id is visited exactly once: by one block, in one
      iteration of its loop. */
  lemma VisitedOnce(grid: nat, total: nat, id: nat, cta: nat, n: nat)
    requires 0 < grid && cta < grid && id < total
    ensures n < |GridIds(cta, grid, total)| && GridIds(cta, grid, total)[n] == id
            <==> cta == id % grid && n == id / grid
  {
    GridIdAt(cta, grid, total, n);
    DivUnique(n, grid, cta);
    assert id == id / grid * grid + id % grid;
  }

  /** Every output tile of a GEMM is computed exactly once. */
  lemma TileComputedOnce(BS_W: nat, BM: nat, BN: nat, grid: nat, bm: nat, bn: nat, cta: nat, n: nat)
    requires 0 < BS_W && bm < BM && bn < BN && cta < grid
    ensures n < |GridIds(cta, grid, BM * BN)| ==> GridIds(cta, grid, BM * BN)[n] < BM * BN
    ensures n < |GridIds(cta, grid, BM * BN)|
              && BlockSwizzle(BS_W, GridIds(cta, grid, BM * BN)[n], BM, BN) == (bm, bn)
            <==> cta == Unswizzle(BS_W, bm, bn, BM, BN) % grid && n == Unswizzle(BS_W, bm, bn, BM, BN) / grid
  {
    var id := Unswizzle(BS_W, bm, bn, BM, BN);
    UnswizzleInRange(BS_W, bm, bn, BM, BN);
    GridIdAt(cta, grid, BM * BN, n);
    VisitedOnce(grid, BM * BN, id, cta, n);
    if n < |GridIds(cta, grid, BM * BN)| {
      SwizzleInGrid(BS_W, GridIds(cta, grid, BM * BN)[n], BM, BN);
    }
  }

  // ---- FlashAttention tiles ----

  datatype TileCoord = TileCoord(qBlock: nat, head: nat, batch: nat)

  function GetTileCoord(heads: nat, mNum: nat, id: nat): TileCoord
    requires 0 < heads && 0 < mNum
  {
    var headTotal := id / mNum;
    TileCoord(mNum - 1 - id % mNum, headTotal % heads, headTotal / heads)
  }

  function TileId(heads: nat, mNum: nat, c: TileCoord): nat
    requires c.qBlock < mNum
  {
    (c.batch * heads + c.head) * mNum + (mNum - 1 - c.qBlock)
  }

  /** Ids below mNum * batches * heads and tile coordinates correspond one to one. */
  lemma TileCoordBijection(heads: nat, mNum: nat, batches: nat, id: nat, c: TileCoord)
    requires 0 < heads && 0 < mNum
    requires id < mNum * batches * heads
    requires c.qBlock < mNum && c.head < heads && c.batch < batches
    ensures var d := GetTileCoord(heads, mNum, id);
            d.qBlock < mNum && d.head < heads && d.batch < batches && TileId(heads, mNum, d) == id
    ensures TileId(heads, mNum, c) < mNum * batches * heads
    ensures GetTileCoord(heads, mNum, TileId(heads, mNum, c)) == c
  {
    IdToCoord(heads, mNum, batches, id);
    var t := c.batch * heads + c.head;
    DivUnique(t, mNum, mNum - 1 - c.qBlock);
    DivUnique(c.batch, heads, c.head);
    MulLe(c.batch + 1, batches, heads);
    MulLe(t + 1, batches * heads, mNum);
    MulAssoc(mNum, batches, heads);
  }

  lemma IdToCoord(heads: nat, mNum: nat, batches: nat, id: nat)
    requires 0 < heads && 0 < mNum && id < mNum * batches * heads
    ensures var d := GetTileCoord(heads, mNum, id);
            d.qBlock < mNum && d.head < heads && d.batch < batches && TileId(heads, mNum, d) == id
  {
    var ht := id / mNum;
    assert id == ht * mNum + id % mNum;
    MulAssoc(mNum, batches, heads);
    if batches * heads <= ht { MulLe(batches * heads, ht, mNum); }
    assert ht == ht / heads * heads + ht % heads;
    if batches <= ht / heads { MulLe(batches, ht / heads, heads); }
  }
}
