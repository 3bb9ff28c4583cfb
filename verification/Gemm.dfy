/** The GEMM kernel on its data: the loops of the producer and the consumers of every thread
    block, and the product they compute. Arithmetic is over the reals. */
module Gemm {
  import opened Tiles

  /** A launch whose sizes are multiples of the tile sizes. */
  datatype Dims = Dims(mNum: nat, nNum: nat, kNum: nat, blockM: nat, blockN: nat, blockK: nat, bsw: nat) {
    predicate Ok() { 0 < blockM && 0 < blockN && 0 < blockK && 0 < bsw }
    function Tiles(): nat { mNum * nNum }
  }

  /** Tile of the output with linear id `id`. */
  function TileOf(d: Dims, id: nat): (t: (nat, nat))
    requires d.Ok() && id < d.Tiles()
    ensures t.0 < d.mNum && t.1 < d.nNum
  {
    SwizzleInGrid(d.bsw, id, d.mNum, d.nNum);
    BlockSwizzle(d.bsw, id, d.mNum, d.nNum)
  }

  /** One item of the ring: the k-th blocks of A and B of a tile. */
  datatype Load = Load(bm: nat, bn: nat, k: nat)

  /** The loads of a tile from block k on. */
  function TileLoads(t: (nat, nat), k: nat, kNum: nat): seq<Load>
    requires k <= kNum
    decreases kNum - k
  {
    if k == kNum then [] else [Load(t.0, t.1, k)] + TileLoads(t, k + 1, kNum)
  }

  /** The loads of a thread block from linear id `id` on. */
  function AllLoads(d: Dims, grid: nat, id: nat): seq<Load>
    requires d.Ok() && 0 < grid
    decreases d.Tiles() - id
  {
    if d.Tiles() <= id then [] else TileLoads(TileOf(d, id), 0, d.kNum) + AllLoads(d, grid, id + grid)
  }

  /** The producer thread: for every tile of the thread block, every k-block. */
  method Producer(d: Dims, grid: nat, cta: nat) returns (loads: seq<Load>)
    requires d.Ok() && 0 < grid
    ensures loads == AllLoads(d, grid, cta)
  {
    loads := [];
    var tiledId := cta;
    while tiledId < d.Tiles()
      invariant loads + AllLoads(d, grid, tiledId) == AllLoads(d, grid, cta)
      decreases d.Tiles() - tiledId
    {
      var t := TileOf(d, tiledId);
      ghost var before := loads;
      ghost var rest := AllLoads(d, grid, tiledId + grid);
      assert loads + (TileLoads(t, 0, d.kNum) + rest) == AllLoads(d, grid, cta);
      for k := 0 to d.kNum
        invariant loads + TileLoads(t, k, d.kNum) == before + TileLoads(t, 0, d.kNum)
      {
        ghost var l := [Load(t.0, t.1, k)];
        assert loads + (l + TileLoads(t, k + 1, d.kNum)) == loads + l + TileLoads(t, k + 1, d.kNum);
        loads := loads + [Load(t.0, t.1, k)];
      }
      assert loads == before + TileLoads(t, 0, d.kNum);
      tiledId := tiledId + grid;
    }
  }

  // ---- products ----

  /** Sum of A[m, k] * B[n, k] over the first `len` values of k. */
  ghost function Dot(A: array2<real>, B: array2<real>, m: nat, n: nat, len: nat): real
    requires m < A.Length0 && n < B.Length0 && len <= A.Length1 && len <= B.Length1
    reads A, B
  {
    if len == 0 then 0.0 else Dot(A, B, m, n, len - 1) + A[m, len - 1] * B[n, len - 1]
  }

  ghost predicate Fits(d: Dims, A: array2<real>, B: array2<real>, C: array2<real>) {
    && d.Ok()
    && A.Length0 == C.Length0 == d.mNum * d.blockM && B.Length0 == C.Length1 == d.nNum * d.blockN
    && A.Length1 == B.Length1 == d.kNum * d.blockK
    && C != A && C != B
  }

  /** A slot holds a block: s[i, kk] is X[row + i, from + kk]. */
  ghost predicate HoldsBlock(s: array2<real>, X: array2<real>, row: nat, from: nat)
    requires row + s.Length0 <= X.Length0 && from + s.Length1 <= X.Length1
    reads s, X
  {
    forall i, kk | 0 <= i < s.Length0 && 0 <= kk < s.Length1 :: s[i, kk] == X[row + i, from + kk]
  }

  /** The bulk copy of one block into a slot. */
  method CopyBlock(X: array2<real>, row: nat, from: nat, rows: nat, len: nat) returns (s: array2<real>)
    requires row + rows <= X.Length0 && from + len <= X.Length1
    ensures fresh(s) && s.Length0 == rows && s.Length1 == len && HoldsBlock(s, X, row, from)
  {
    s := new real[rows, len]((i, kk) requires 0 <= i < rows && 0 <= kk < len reads X => X[row + i, from + kk]);
  }

  /** The fragments of one item, for one element of the tile. */
  method MmaElement(sA: array2<real>, sB: array2<real>, i: nat, j: nat, acc: real,
                    ghost A: array2<real>, ghost B: array2<real>, ghost row: nat, ghost col: nat, ghost from: nat)
    returns (x: real)
    requires i < sA.Length0 && j < sB.Length0 && sA.Length1 == sB.Length1
    requires row + sA.Length0 <= A.Length0 && from + sA.Length1 <= A.Length1 && HoldsBlock(sA, A, row, from)
    requires col + sB.Length0 <= B.Length0 && from + sB.Length1 <= B.Length1 && HoldsBlock(sB, B, col, from)
    requires acc == Dot(A, B, row + i, col + j, from)
    ensures x == Dot(A, B, row + i, col + j, from + sA.Length1)
  {
    x := acc;
    for kk := 0 to sA.Length1
      invariant x == Dot(A, B, row + i, col + j, from + kk)
    {
      x := x + sA[i, kk] * sB[j, kk];
    }
  }

  /** The tile at (row, col) of the output with its first `len` products summed up. */
  ghost predicate PartialTile(rC: array2<real>, A: array2<real>, B: array2<real>, row: nat, col: nat, len: nat)
    requires row + rC.Length0 <= A.Length0 && col + rC.Length1 <= B.Length0
    requires len <= A.Length1 && len <= B.Length1
    reads rC, A, B
  {
    forall i, j | 0 <= i < rC.Length0 && 0 <= j < rC.Length1 :: rC[i, j] == Dot(A, B, row + i, col + j, len)
  }

  /** consume_pipe: multiply the blocks in the slot and add the product to the accumulators. */
  method ConsumePipe(rC: array2<real>, sA: array2<real>, sB: array2<real>,
                     ghost A: array2<real>, ghost B: array2<real>, ghost row: nat, ghost col: nat, ghost from: nat)
    requires rC != A && rC != B && rC != sA && rC != sB
    requires sA.Length0 == rC.Length0 && sB.Length0 == rC.Length1 && sA.Length1 == sB.Length1
    requires row + sA.Length0 <= A.Length0 && from + sA.Length1 <= A.Length1 && HoldsBlock(sA, A, row, from)
    requires col + sB.Length0 <= B.Length0 && from + sB.Length1 <= B.Length1 && HoldsBlock(sB, B, col, from)
    requires PartialTile(rC, A, B, row, col, from)
    modifies rC
    ensures PartialTile(rC, A, B, row, col, from + sA.Length1)
  {
    ghost var end := from + sA.Length1;
    for i := 0 to rC.Length0
      invariant forall r, c | 0 <= r < rC.Length0 && 0 <= c < rC.Length1 ::
                  rC[r, c] == Dot(A, B, row + r, col + c, if r < i then end else from)
    {
      for j := 0 to rC.Length1
        invariant forall r, c | 0 <= r < rC.Length0 && 0 <= c < rC.Length1 ::
                    rC[r, c] == Dot(A, B, row + r, col + c, if r < i || (r == i && c < j) then end else from)
      {
        rC[i, j] := MmaElement(sA, sB, i, j, rC[i, j], A, B, row, col, from);
      }
    }
  }

  lemma BlockFits(b: nat, num: nat, size: nat)
    requires b < num
    ensures b * size + size <= num * size
  {
    MulLe(b + 1, num, size);
    MulDist(b, 1, size);
  }

  /** The k-loop of a consumer for one tile: it takes the next kNum items from the ring. */
  method ComputeTile(d: Dims, A: array2<real>, B: array2<real>, C: array2<real>, t: (nat, nat),
                     ring: seq<Load>, ghost rest: seq<Load>)
    returns (rC: array2<real>, left: seq<Load>)
    requires Fits(d, A, B, C) && t.0 < d.mNum && t.1 < d.nNum
    requires ring == TileLoads(t, 0, d.kNum) + rest
    ensures fresh(rC) && rC.Length0 == d.blockM && rC.Length1 == d.blockN && left == rest
    ensures t.0 * d.blockM + d.blockM <= A.Length0 && t.1 * d.blockN + d.blockN <= B.Length0
    ensures PartialTile(rC, A, B, t.0 * d.blockM, t.1 * d.blockN, d.kNum * d.blockK)
  {
    BlockFits(t.0, d.mNum, d.blockM);
    BlockFits(t.1, d.nNum, d.blockN);
    rC := new real[d.blockM, d.blockN]((i, j) => 0.0);
    left := ring;
    var sum := 0;
    for k := 0 to d.kNum
      invariant left == TileLoads(t, k, d.kNum) + rest && sum == k * d.blockK <= A.Length1
      invariant PartialTile(rC, A, B, t.0 * d.blockM, t.1 * d.blockN, sum)
    {
      var item := left[0];
      left := left[1..];
      BlockFits(k, d.kNum, d.blockK);
      MulDist(k, 1, d.blockK);
      var sA := CopyBlock(A, item.bm * d.blockM, item.k * d.blockK, d.blockM, d.blockK);
      var sB := CopyBlock(B, item.bn * d.blockN, item.k * d.blockK, d.blockN, d.blockK);
      ConsumePipe(rC, sA, sB, A, B, t.0 * d.blockM, t.1 * d.blockN, sum);
      sum := sum + d.blockK;
    }
  }

  /** The tile that holds element (m, n). */
  function HomeTile(d: Dims, m: nat, n: nat): (nat, nat)
    requires d.Ok()
  {
    (m / d.blockM, n / d.blockN)
  }

  /** The elements of all tiles in `written` are final. */
  ghost predicate Final(d: Dims, A: array2<real>, B: array2<real>, C: array2<real>, written: seq<(nat, nat)>)
    requires Fits(d, A, B, C)
    reads A, B, C
  {
    forall m, n | 0 <= m < C.Length0 && 0 <= n < C.Length1 && HomeTile(d, m, n) in written ::
      C[m, n] == Dot(A, B, m, n, A.Length1)
  }

  lemma Home(x: nat, b: nat, size: nat)
    requires 0 < size
    ensures x / size == b <==> b * size <= x < b * size + size
  {
    if b * size <= x < b * size + size { DivUnique(b, size, x - b * size); }
    if x / size == b { assert x == b * size + x % size; }
  }

  predicate Inside(m: nat, n: nat, row: nat, col: nat, rows: nat, cols: nat) {
    row <= m < row + rows && col <= n < col + cols
  }

  /** The epilogue: the tile goes out through shared memory. */
  method StoreTile(C: array2<real>, rC: array2<real>, row: nat, col: nat)
    requires rC != C && row + rC.Length0 <= C.Length0 && col + rC.Length1 <= C.Length1
    modifies C
    ensures forall m, n | 0 <= m < C.Length0 && 0 <= n < C.Length1 ::
              C[m, n] == if Inside(m, n, row, col, rC.Length0, rC.Length1) then rC[m - row, n - col] else old(C[m, n])
  {
    for i := 0 to rC.Length0
      invariant forall m, n | 0 <= m < C.Length0 && 0 <= n < C.Length1 ::
                  C[m, n] == if Inside(m, n, row, col, i, rC.Length1) then rC[m - row, n - col] else old(C[m, n])
    {
      for j := 0 to rC.Length1
        invariant forall m, n | 0 <= m < C.Length0 && 0 <= n < C.Length1 ::
                    C[m, n] == if Inside(m, n, row, col, i, rC.Length1) || Inside(m, n, row + i, col, 1, j)
                               then rC[m - row, n - col] else old(C[m, n])
      {
        C[row + i, col + j] := rC[i, j];
      }
    }
  }

  /** The tiles, as ids, that thread blocks before `cta` and the first n iterations of thread
      block `cta` write. */
  ghost predicate Earlier(grid: nat, id: nat, cta: nat, n: nat)
    requires 0 < grid
  {
    id % grid < cta || (id % grid == cta && id / grid < n)
  }

  function IdOf(d: Dims, t: (nat, nat)): nat
    requires d.Ok() && t.0 < d.mNum && t.1 < d.nNum
  {
    Unswizzle(d.bsw, t.0, t.1, d.mNum, d.nNum)
  }

  /** `written` lists each tile that was due, once. */
  ghost predicate WrittenOnce(d: Dims, grid: nat, written: seq<(nat, nat)>, cta: nat, n: nat)
    requires d.Ok() && 0 < grid
  {
    && (forall i | 0 <= i < |written| :: written[i].0 < d.mNum && written[i].1 < d.nNum)
    && (forall i | 0 <= i < |written| :: Earlier(grid, IdOf(d, written[i]), cta, n))
    && (forall i, j | 0 <= i < j < |written| :: written[i] != written[j])
    && (forall bm: nat, bn: nat | bm < d.mNum && bn < d.nNum ::
          Earlier(grid, IdOf(d, (bm, bn)), cta, n) ==> (bm, bn) in written)
  }

  /** Iteration n of thread block cta adds exactly its own id. */
  lemma NextIteration(grid: nat, other: nat, cta: nat, n: nat, id: nat)
    requires 0 < grid && cta < grid && id == cta + n * grid
    ensures Earlier(grid, other, cta, n + 1) <==> Earlier(grid, other, cta, n) || other == id
    ensures !Earlier(grid, id, cta, n)
  {
    DivUnique(n, grid, cta);
    assert other == other / grid * grid + other % grid;
  }

  /** A tile that is due after one more iteration is the new one or was due before. */
  lemma DueNext(d: Dims, grid: nat, t: (nat, nat), cta: nat, n: nat, id: nat)
    requires d.Ok() && 0 < grid && cta < grid && id == cta + n * grid && id < d.Tiles()
    requires t.0 < d.mNum && t.1 < d.nNum
    ensures Earlier(grid, IdOf(d, t), cta, n) ==> Earlier(grid, IdOf(d, t), cta, n + 1) && t != TileOf(d, id)
    ensures Earlier(grid, IdOf(d, t), cta, n + 1) ==> Earlier(grid, IdOf(d, t), cta, n) || t == TileOf(d, id)
  {
    SwizzleInGrid(d.bsw, id, d.mNum, d.nNum);
    UnswizzleInRange(d.bsw, t.0, t.1, d.mNum, d.nNum);
    NextIteration(grid, IdOf(d, t), cta, n, id);
  }

  lemma WriteNext(d: Dims, grid: nat, written: seq<(nat, nat)>, cta: nat, n: nat, id: nat)
    requires d.Ok() && 0 < grid && cta < grid && id == cta + n * grid && id < d.Tiles()
    requires WrittenOnce(d, grid, written, cta, n)
    ensures WrittenOnce(d, grid, written + [TileOf(d, id)], cta, n + 1)
  {
    var t := TileOf(d, id);
    var after := written + [t];
    SwizzleInGrid(d.bsw, id, d.mNum, d.nNum);
    DivUnique(n, grid, cta);
    forall i | 0 <= i < |written|
      ensures written[i] != t && Earlier(grid, IdOf(d, written[i]), cta, n + 1)
    {
      DueNext(d, grid, written[i], cta, n, id);
    }
    forall bm: nat, bn: nat | bm < d.mNum && bn < d.nNum && Earlier(grid, IdOf(d, (bm, bn)), cta, n + 1)
      ensures (bm, bn) in after
    {
      DueNext(d, grid, (bm, bn), cta, n, id);
    }
  }

  lemma Visited(grid: nat, id: nat, cta: nat, n: nat, total: nat)
    requires 0 < grid && id < total <= cta + n * grid && id % grid == cta
    ensures id / grid < n
  {
    assert id == id / grid * grid + id % grid;
    if n <= id / grid { MulLe(n, id / grid, grid); }
  }

  lemma LoopDone(grid: nat, id: nat, cta: nat, n: nat, total: nat)
    requires 0 < grid && id < total <= cta + n * grid
    ensures Earlier(grid, id, cta + 1, 0) ==> Earlier(grid, id, cta, n)
  {
    if id % grid == cta { Visited(grid, id, cta, n, total); }
  }

  lemma DueBefore(d: Dims, grid: nat, t: (nat, nat), cta: nat, n: nat)
    requires d.Ok() && 0 < grid && t.0 < d.mNum && t.1 < d.nNum && d.Tiles() <= cta + n * grid
    ensures Earlier(grid, IdOf(d, t), cta + 1, 0) ==> Earlier(grid, IdOf(d, t), cta, n)
  {
    UnswizzleInRange(d.bsw, t.0, t.1, d.mNum, d.nNum);
    LoopDone(grid, IdOf(d, t), cta, n, d.Tiles());
  }

  /** When a thread block leaves its loop, the next one takes over. */
  lemma BlockDone(d: Dims, grid: nat, written: seq<(nat, nat)>, cta: nat, n: nat)
    requires d.Ok() && 0 < grid && cta < grid && d.Tiles() <= cta + n * grid
    requires WrittenOnce(d, grid, written, cta, n)
    ensures WrittenOnce(d, grid, written, cta + 1, 0)
  {
    forall bm: nat, bn: nat | bm < d.mNum && bn < d.nNum && Earlier(grid, IdOf(d, (bm, bn)), cta + 1, 0)
      ensures (bm, bn) in written
    {
      DueBefore(d, grid, (bm, bn), cta, n);
    }
  }

  lemma TilePlace(d: Dims, t: (nat, nat), m: nat, n: nat)
    requires d.Ok()
    ensures HomeTile(d, m, n) == t <==> Inside(m, n, t.0 * d.blockM, t.1 * d.blockN, d.blockM, d.blockN)
  {
    Home(m, t.0, d.blockM);
    Home(n, t.1, d.blockN);
  }

  lemma InTile(rC: array2<real>, A: array2<real>, B: array2<real>, row: nat, col: nat, len: nat, m: nat, n: nat)
    requires row + rC.Length0 <= A.Length0 && col + rC.Length1 <= B.Length0 && len <= A.Length1 && len <= B.Length1
    requires PartialTile(rC, A, B, row, col, len) && Inside(m, n, row, col, rC.Length0, rC.Length1)
    ensures rC[m - row, n - col] == Dot(A, B, m, n, len)
  {
    assert rC[m - row, n - col] == Dot(A, B, row + (m - row), col + (n - col), len);
  }

  method WriteTile(d: Dims, A: array2<real>, B: array2<real>, C: array2<real>, rC: array2<real>, t: (nat, nat),
                   ghost written: seq<(nat, nat)>)
    requires Fits(d, A, B, C) && rC != C && rC != A && rC != B && rC.Length0 == d.blockM && rC.Length1 == d.blockN
    requires t.0 * d.blockM + d.blockM <= A.Length0 && t.1 * d.blockN + d.blockN <= B.Length0
    requires PartialTile(rC, A, B, t.0 * d.blockM, t.1 * d.blockN, A.Length1)
    requires Final(d, A, B, C, written)
    modifies C
    ensures Final(d, A, B, C, written + [t])
  {
    var row, col := t.0 * d.blockM, t.1 * d.blockN;
    StoreTile(C, rC, row, col);
    forall m, n | 0 <= m < C.Length0 && 0 <= n < C.Length1 && HomeTile(d, m, n) in written + [t]
      ensures C[m, n] == Dot(A, B, m, n, A.Length1)
    {
      TilePlace(d, t, m, n);
      if HomeTile(d, m, n) == t {
        InTile(rC, A, B, row, col, A.Length1, m, n);
      } else {
        assert old(C[m, n]) == Dot(A, B, m, n, A.Length1);
      }
    }
  }

  /** The consumers of thread block `cta`, reading the items its producer loads. */
  method Consumers(d: Dims, grid: nat, cta: nat, A: array2<real>, B: array2<real>, C: array2<real>,
                   loads: seq<Load>, ghost before: seq<(nat, nat)>) returns (ghost written: seq<(nat, nat)>)
    requires Fits(d, A, B, C) && cta < grid && loads == AllLoads(d, grid, cta)
    requires WrittenOnce(d, grid, before, cta, 0) && Final(d, A, B, C, before)
    modifies C
    ensures WrittenOnce(d, grid, written, cta + 1, 0) && Final(d, A, B, C, written)
  {
    written := before;
    var ring := loads;
    var tiledId := cta;
    ghost var n := 0;
    while tiledId < d.Tiles()
      invariant tiledId == cta + n * grid && ring == AllLoads(d, grid, tiledId)
      invariant WrittenOnce(d, grid, written, cta, n) && Final(d, A, B, C, written)
      decreases d.Tiles() - tiledId
    {
      var t := TileOf(d, tiledId);
      var rC;
      rC, ring := ComputeTile(d, A, B, C, t, ring, AllLoads(d, grid, tiledId + grid));
      WriteTile(d, A, B, C, rC, t, written);
      WriteNext(d, grid, written, cta, n, tiledId);
      written := written + [t];
      MulDist(n, 1, grid);
      n := n + 1;
      tiledId := tiledId + grid;
    }
    BlockDone(d, grid, written, cta, n);
  }

  /** Every thread block of the grid runs its producer and its consumers. */
  method RunGrid(d: Dims, grid: nat, A: array2<real>, B: array2<real>, C: array2<real>)
    returns (ghost written: seq<(nat, nat)>)
    requires Fits(d, A, B, C) && (d.Tiles() == 0 || 0 < grid)
    modifies C
    ensures forall m, n | 0 <= m < C.Length0 && 0 <= n < C.Length1 :: C[m, n] == Dot(A, B, m, n, A.Length1)
    ensures forall i, j | 0 <= i < j < |written| :: written[i] != written[j]
    ensures forall m, n | 0 <= m < C.Length0 && 0 <= n < C.Length1 :: HomeTile(d, m, n) in written
  {
    written := [];
    for cta := 0 to grid
      invariant if grid == 0 then written == [] else WrittenOnce(d, grid, written, cta, 0)
      invariant Final(d, A, B, C, written)
    {
      var loads := Producer(d, grid, cta);
      written := Consumers(d, grid, cta, A, B, C, loads, written);
    }
    forall m: nat, n: nat | m < C.Length0 && n < C.Length1 ensures HomeTile(d, m, n) in written {
      AllWritten(d, A, B, C, grid, written, m, n);
    }
  }

  /** gemm_tn: refuses sizes that are not multiples of the tile sizes; otherwise every thread
      block of the grid runs its producer and its consumers, and C is the product of A and the
      transposed B. */
  method GemmTn(A: array2<real>, B: array2<real>, C: array2<real>,
                blockM: nat, blockN: nat, blockK: nat, bsw: nat, smNum: nat)
    returns (ok: bool, ghost written: seq<(nat, nat)>)
    requires 0 < blockM && 0 < blockN && 0 < blockK && 0 < bsw && 0 < smNum
    requires A.Length0 == C.Length0 && B.Length0 == C.Length1 && A.Length1 == B.Length1 && C != A && C != B
    modifies C
    ensures ok <==> A.Length0 % blockM == 0 && B.Length0 % blockN == 0 && A.Length1 % blockK == 0
    ensures !ok ==> forall m, n | 0 <= m < C.Length0 && 0 <= n < C.Length1 :: C[m, n] == old(C[m, n])
    ensures ok ==> forall m, n | 0 <= m < C.Length0 && 0 <= n < C.Length1 :: C[m, n] == Dot(A, B, m, n, A.Length1)
    ensures ok ==> forall i, j | 0 <= i < j < |written| :: written[i] != written[j]
    ensures ok ==> forall m, n | 0 <= m < C.Length0 && 0 <= n < C.Length1 :: (m / blockM, n / blockN) in written
  {
    written := [];
    ok := A.Length0 % blockM == 0 && B.Length0 % blockN == 0 && A.Length1 % blockK == 0;
    if !ok { return; }
    var d := Dims(A.Length0 / blockM, B.Length0 / blockN, A.Length1 / blockK, blockM, blockN, blockK, bsw);
    written := RunGrid(d, Min(smNum, d.Tiles()), A, B, C);
    forall m: nat, n: nat | m < C.Length0 && n < C.Length1 ensures (m / blockM, n / blockN) in written {
      assert HomeTile(d, m, n) in written;
    }
  }

  lemma AllWritten(d: Dims, A: array2<real>, B: array2<real>, C: array2<real>, grid: nat, written: seq<(nat, nat)>,
                   m: nat, n: nat)
    requires Fits(d, A, B, C) && m < C.Length0 && n < C.Length1
    requires d.Tiles() == 0 || 0 < grid
    requires 0 < grid ==> WrittenOnce(d, grid, written, grid, 0)
    ensures HomeTile(d, m, n) in written
  {
    var (bm, bn) := HomeTile(d, m, n);
    Home(m, bm, d.blockM);
    Home(n, bn, d.blockN);
    if d.mNum <= bm { MulLe(d.mNum, bm, d.blockM); }
    if d.nNum <= bn { MulLe(d.nNum, bn, d.blockN); }
    MulLe(1, d.nNum, d.mNum);
    assert Earlier(grid, IdOf(d, (bm, bn)), grid, 0);
  }
}
