/** The loops of the FlashAttention kernel, as programs of its threads. */
module FlashProgram {
  import opened Tiles
  import opened Causal
  import opened Machine
  import opened Overlay
  import opened FlashProtocol
  import opened Roles

  /** The launch: problem sizes, tile sizes and grid. */
  datatype Problem = Problem(causal: bool, seqLen: nat, batches: nat, heads: nat, blockM: nat, blockN: nat, grid: nat) {
    predicate Ok() { 0 < seqLen && 0 < heads && 0 < blockM && 0 < blockN && 0 < grid }
    function MNum(): nat requires Ok() { CeilDiv(seqLen, blockM) }
    function TilesNum(): nat requires Ok() { MNum() * batches * heads }
  }

  lemma SomeTiles(p: Problem)
    requires p.Ok()
    ensures 0 < p.MNum()
  {
    BelowCeilDiv(0, p.seqLen, p.blockM);
  }

  /** K/V blocks of the tile with linear id `id`. */
  function BlocksOf(p: Problem, id: nat): (b: nat)
    requires p.Ok()
    ensures 1 <= b
  {
    SomeTiles(p);
    var qBlock := GetTileCoord(p.heads, p.MNum(), id).qBlock;
    BelowCeilDiv(0, p.seqLen, p.blockN);
    BelowCeilDiv(0, (qBlock + 1) * p.blockM, p.blockN);
    MulLe(1, qBlock + 1, p.blockM);
    KBlocks(p.causal, qBlock, p.blockM, p.blockN, p.seqLen)
  }

  function BlocksOfAll(p: Problem, ids: seq<nat>): (tiles: seq<nat>)
    requires p.Ok()
    ensures |tiles| == |ids| && forall i | 0 <= i < |tiles| :: tiles[i] == BlocksOf(p, ids[i])
  {
    if ids == [] then [] else [BlocksOf(p, ids[0])] + BlocksOfAll(p, ids[1..])
  }

  /** Block counts of the tiles of thread block `cta`. */
  function TilesOf(p: Problem, cta: nat): seq<nat>
    requires p.Ok()
  {
    BlocksOfAll(p, TileIds(p, cta))
  }

  // ---- every tile, exactly once ----

  /** The tile ids of thread block `cta`, in the order of its loop. */
  function TileIds(p: Problem, cta: nat): seq<nat>
    requires p.Ok()
  {
    GridIds(cta, p.grid, p.TilesNum())
  }

  /** Coordinates of the n-th tile of thread block `cta`, as its loop computes them. */
  function TileAt(p: Problem, cta: nat, n: nat): TileCoord
    requires p.Ok() && n < |TileIds(p, cta)|
  {
    SomeTiles(p);
    GetTileCoord(p.heads, p.MNum(), TileIds(p, cta)[n])
  }

  /** A query block of the sequence, a head and a batch. */
  predicate IsTile(p: Problem, c: TileCoord) {
    c.qBlock * p.blockM < p.seqLen && c.head < p.heads && c.batch < p.batches
  }

  /** Every tile of the problem is computed by exactly one thread block, in exactly one iteration
      of its loop. */
  lemma TileRunOnce(p: Problem, c: TileCoord, cta: nat, n: nat)
    requires p.Ok() && IsTile(p, c) && cta < p.grid
    ensures c.qBlock < p.MNum()
    ensures n < |TileIds(p, cta)| && TileAt(p, cta, n) == c
            <==> cta == TileId(p.heads, p.MNum(), c) % p.grid && n == TileId(p.heads, p.MNum(), c) / p.grid
  {
    SomeTiles(p);
    BelowCeilDiv(c.qBlock, p.seqLen, p.blockM);
    var id := TileId(p.heads, p.MNum(), c);
    TileCoordBijection(p.heads, p.MNum(), p.batches, 0, c);
    VisitedOnce(p.grid, p.TilesNum(), id, cta, n);
    if n < |TileIds(p, cta)| {
      GridIdAt(cta, p.grid, p.TilesNum(), n);
      TileCoordBijection(p.heads, p.MNum(), p.batches, TileIds(p, cta)[n], c);
    }
  }

  /** And thread blocks compute nothing else. */
  lemma OnlyTiles(p: Problem, cta: nat, n: nat)
    requires p.Ok() && n < |TileIds(p, cta)|
    ensures IsTile(p, TileAt(p, cta, n))
    ensures TilesOf(p, cta)[n] == KBlocks(p.causal, TileAt(p, cta, n).qBlock, p.blockM, p.blockN, p.seqLen)
  {
    SomeTiles(p);
    GridIdAt(cta, p.grid, p.TilesNum(), n);
    var id := TileIds(p, cta)[n];
    IdToCoord(p.heads, p.MNum(), p.batches, id);
    BelowCeilDiv(TileAt(p, cta, n).qBlock, p.seqLen, p.blockM);
  }

  /** Every row of the sequence lies in exactly one query block. */
  lemma RowInTile(p: Problem, row: nat, qBlock: nat)
    requires p.Ok() && row < p.seqLen
    ensures qBlock * p.blockM <= row < (qBlock + 1) * p.blockM <==> qBlock == row / p.blockM
    ensures row / p.blockM * p.blockM < p.seqLen
  {
    DivMod(row, p.blockM);
    MulDist(qBlock, 1, p.blockM);
    if qBlock * p.blockM <= row < (qBlock + 1) * p.blockM { DivUnique(qBlock, p.blockM, row - qBlock * p.blockM); }
  }

  lemma NextScript(done: seq<nat>, b: nat, multi: bool, bytes: Bytes, role: Role)
    ensures Performed(Script(done + [b], multi, bytes), role)
            == Performed(Script(done, multi, bytes), role) + Performed(TileEvents(b, multi, bytes), role)
  {
    assert (done + [b])[..|done|] == done;
    PerformedConcat(Script(done, multi, bytes), TileEvents(b, multi, bytes), role);
  }

  lemma TileProgram(b: nat, multi: bool, bytes: Bytes, role: Role)
    ensures Performed(TileEvents(b, multi, bytes), role)
            == (if role.Helper? then [] else [Xfer(OperandQ, QK_RING, bytes.q)] + Blocks(b, bytes))
               + EpilogueOf(multi, role)
  {
    LoadsProgram(b, bytes, role);
    PerformedConcat([Xfer(OperandQ, QK_RING, bytes.q)] + Blocks(b, bytes), Epilogue(multi), role);
    EpilogueProgram(multi, role);
  }

  lemma LoadsProgram(b: nat, bytes: Bytes, role: Role)
    ensures var loads := [Xfer(OperandQ, QK_RING, bytes.q)] + Blocks(b, bytes);
            Performed(loads, role) == if role.Helper? then [] else loads
  {
    BlocksShape(b, bytes);
    PerformedAll([Xfer(OperandQ, QK_RING, bytes.q)] + Blocks(b, bytes), role);
  }

  /** What a thread does at the end of a tile. */
  function EpilogueOf(multi: bool, role: Role): seq<Event> {
    if role.Leader? || role.Helper? then [Sync(BLOCK)]
    else (if multi then EXCHANGE else []) + [Work(WriteOutput), Sync(EPILOGUE)]
         + (if role.Writer? then [StoreIssue, StoreWait] else []) + [Sync(BLOCK)]
  }

  const EXCHANGE: seq<Event> := [Work(SaveStats), Sync(EPILOGUE), Work(SavePartial), Sync(EPILOGUE)]

  lemma ConsumerPiece(piece: seq<Event>, role: Role)
    requires forall e | e in piece :: e.Work? || e == Sync(EPILOGUE)
    ensures Performed(piece, role) == if role.Leader? || role.Helper? then [] else piece
  {
    PerformedAll(piece, role);
  }

  lemma StorePiece(role: Role)
    ensures Performed([StoreIssue, StoreWait], role) == if role.Writer? then [StoreIssue, StoreWait] else []
  {
    PerformedAll([StoreIssue, StoreWait], role);
  }

  lemma LastPiece(role: Role)
    ensures Performed([Sync(BLOCK)], role) == [Sync(BLOCK)]
  {
    PerformedAll([Sync(BLOCK)], role);
  }

  lemma FourPieces(a: seq<Event>, b: seq<Event>, c: seq<Event>, d: seq<Event>, role: Role)
    ensures Performed(a + b + c + d, role)
            == Performed(a, role) + Performed(b, role) + Performed(c, role) + Performed(d, role)
  {
    PerformedConcat(a + b + c, d, role);
    PerformedConcat(a + b, c, role);
    PerformedConcat(a, b, role);
  }

  lemma EpilogueProgram(multi: bool, role: Role)
    ensures Performed(Epilogue(multi), role) == EpilogueOf(multi, role)
  {
    var head: seq<Event> := if multi then EXCHANGE else [];
    assert Epilogue(multi) == head + [Work(WriteOutput), Sync(EPILOGUE)] + [StoreIssue, StoreWait] + [Sync(BLOCK)];
    FourPieces(head, [Work(WriteOutput), Sync(EPILOGUE)], [StoreIssue, StoreWait], [Sync(BLOCK)], role);
    ConsumerPiece(head, role);
    ConsumerPiece([Work(WriteOutput), Sync(EPILOGUE)], role);
    StorePiece(role);
    LastPiece(role);
  }

  /** A producer thread in one tile: thread 0 loads Q, then K and V block by block; all of
      them meet the consumers at the end. */
  method ProducerTile(kBlocks: nat, leader: bool, ghost multi: bool, bytes: Bytes) returns (trace: seq<Event>)
    ensures trace == Performed(TileEvents(kBlocks, multi, bytes), if leader then Leader else Helper)
  {
    trace := [];
    if leader {
      trace := trace + [Xfer(OperandQ, QK_RING, bytes.q)];
      for i := 0 to kBlocks
        invariant trace == [Xfer(OperandQ, QK_RING, bytes.q)] + Blocks(i, bytes)
      {
        trace := trace + [Xfer(OperandK, QK_RING, bytes.k)];
        trace := trace + [Xfer(OperandV, V_RING, bytes.k)];
      }
    }
    trace := trace + [Sync(BLOCK)];
    TileProgram(kBlocks, multi, bytes, if leader then Leader else Helper);
  }

  /** A consumer thread in one tile; `writer` is the one that issues the bulk store. */
  method ConsumerTile(kBlocks: nat, writer: bool, multi: bool, bytes: Bytes) returns (trace: seq<Event>)
    ensures trace == Performed(TileEvents(kBlocks, multi, bytes), if writer then Writer else Worker)
  {
    trace := [Xfer(OperandQ, QK_RING, bytes.q)];
    for i := 0 to kBlocks
      invariant trace == [Xfer(OperandQ, QK_RING, bytes.q)] + Blocks(i, bytes)
    {
      trace := trace + [Xfer(OperandK, QK_RING, bytes.k)];
      trace := trace + [Xfer(OperandV, V_RING, bytes.k)];
    }
    ghost var loads := trace;
    var epilogue: seq<Event> := [];
    if multi {
      epilogue := epilogue + [Work(SaveStats), Sync(EPILOGUE)];
      epilogue := epilogue + [Work(SavePartial), Sync(EPILOGUE)];
    }
    epilogue := epilogue + [Work(WriteOutput), Sync(EPILOGUE)];
    if writer {
      epilogue := epilogue + [StoreIssue, StoreWait];
    }
    trace := trace + (epilogue + [Sync(BLOCK)]);
    TileProgram(kBlocks, multi, bytes, if writer then Writer else Worker);
  }

  /** The grid-stride loop of every thread of thread block `cta`. */
  method RunThread(p: Problem, cta: nat, role: Role, multi: bool, bytes: Bytes) returns (trace: seq<Event>)
    requires p.Ok()
    ensures trace == Performed(Script(TilesOf(p, cta), multi, bytes), role)
  {
    SomeTiles(p);
    trace := [];
    var tiledId := cta;
    ghost var done: seq<nat> := [];
    while tiledId < p.TilesNum()
      invariant done + TilesOf(p, tiledId) == TilesOf(p, cta)
      invariant trace == Performed(Script(done, multi, bytes), role)
      decreases p.TilesNum() - tiledId
    {
      var coord := GetTileCoord(p.heads, p.MNum(), tiledId);
      var kBlocks := KBlocks(p.causal, coord.qBlock, p.blockM, p.blockN, p.seqLen);
      var tile: seq<Event>;
      if role.Leader? || role.Helper? {
        tile := ProducerTile(kBlocks, role.Leader?, multi, bytes);
      } else {
        tile := ConsumerTile(kBlocks, role.Writer?, multi, bytes);
      }
      trace := trace + tile;
      NextScript(done, kBlocks, multi, bytes, role);
      NextTile(p, tiledId, done);
      done := done + [kBlocks];
      tiledId := tiledId + p.grid;
    }
    assert done == TilesOf(p, cta);
  }

  lemma NextTile(p: Problem, id: nat, done: seq<nat>)
    requires p.Ok() && id < p.TilesNum()
    ensures done + TilesOf(p, id) == done + [BlocksOf(p, id)] + TilesOf(p, id + p.grid)
  {
    assert GridIds(id, p.grid, p.TilesNum())[1..] == GridIds(id + p.grid, p.grid, p.TilesNum());
  }

  /** The thread block that runs these programs, with one set of 128 producer threads. */
  function BlockKernel(p: Problem, cta: nat, l: Layout, bytes: Bytes, warps: nat): Kernel
    requires p.Ok()
  {
    Kernel(Script(TilesOf(p, cta), l.warpsN > 1, bytes), [2, 1], warps * 32, 128)
  }

  /** Whatever is proved about the protocol holds of every thread block of a launch. */
  lemma EveryBlockIsFlash(p: Problem, cta: nat, l: Layout, bytes: Bytes, warps: nat)
    requires p.Ok() && l.Ok() && 0 < bytes.q && 0 < bytes.k && 0 < warps
    ensures BlockKernel(p, cta, l, bytes, warps).Ok()
    ensures IsFlash(BlockKernel(p, cta, l, bytes, warps), TilesOf(p, cta), l, bytes)
    ensures BlockKernel(p, cta, l, bytes, warps).Members(EPILOGUE) == warps * 32
    ensures BlockKernel(p, cta, l, bytes, warps).Members(BLOCK) == (warps + 4) * 32
  {
    ScriptOk(TilesOf(p, cta), l.warpsN > 1, bytes);
  }

  lemma {:induction false} ScriptOk(tiles: seq<nat>, multi: bool, bytes: Bytes)
    requires 0 < bytes.q && 0 < bytes.k
    ensures forall e | e in Script(tiles, multi, bytes) :: e.Xfer? ==> e.ring < 2 && 0 < e.bytes
    ensures forall e | e in Script(tiles, multi, bytes) :: e.Sync? ==> e.bar < 2
  {
    if tiles != [] {
      ScriptOk(tiles[..|tiles| - 1], multi, bytes);
      BlocksShape(tiles[|tiles| - 1], bytes);
    }
  }
}
