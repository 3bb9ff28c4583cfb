/** The loops of the GEMM kernel as programs of its threads, and what its consumers receive. */
module GemmProgram {
  import opened Tiles
  import opened Machine
  import opened Invariant
  import opened Safety
  import opened GemmProtocol
  import opened Roles
  import opened Gemm
  import Liveness

  lemma LoadsMore(n: nat, bytes: nat)
    ensures Loads(n + 1, bytes) == Loads(n, bytes) + [Xfer(OperandAB, 0, bytes)]
  {
  }

  lemma NextTile(tiles: nat, kNum: nat, bytes: nat, role: Role)
    ensures Performed(TileEvents(tiles + 1, kNum, bytes), role)
            == Performed(TileEvents(tiles, kNum, bytes), role) + Performed(Loads(kNum, bytes), role)
               + Performed(EPILOGUE_EVENTS, role)
  {
    PerformedConcat(TileEvents(tiles, kNum, bytes) + Loads(kNum, bytes), EPILOGUE_EVENTS, role);
    PerformedConcat(TileEvents(tiles, kNum, bytes), Loads(kNum, bytes), role);
  }

  lemma ProducerPieces(kNum: nat, bytes: nat)
    ensures Performed(Loads(kNum, bytes), Leader) == Loads(kNum, bytes)
    ensures Performed(Loads(kNum, bytes), Helper) == []
    ensures Performed(EPILOGUE_EVENTS, Leader) == Performed(EPILOGUE_EVENTS, Helper) == []
    ensures Performed([StoreWait, Sync(BLOCK)], Leader) == Performed([StoreWait, Sync(BLOCK)], Helper) == [Sync(BLOCK)]
  {
    PerformedAll(Loads(kNum, bytes), Leader);
    PerformedAll(Loads(kNum, bytes), Helper);
    NotProducers(Leader);
    NotProducers(Helper);
    LastTwo(Leader);
    LastTwo(Helper);
  }

  lemma NotProducers(role: Role)
    requires role.Leader? || role.Helper?
    ensures Performed(EPILOGUE_EVENTS, role) == []
  {
    PerformedAll(EPILOGUE_EVENTS, role);
  }

  lemma LastTwo(role: Role)
    ensures Performed([StoreWait, Sync(BLOCK)], role)
            == (if Does(role, StoreWait) then [StoreWait] else []) + [Sync(BLOCK)]
  {
    assert [StoreWait, Sync(BLOCK)] == [StoreWait] + [Sync(BLOCK)];
    PerformedConcat([StoreWait], [Sync(BLOCK)], role);
    PerformedAll([StoreWait], role);
    PerformedAll([Sync(BLOCK)], role);
  }

  /** The tiles of thread block `cta`. */
  function TileCount(d: Dims, grid: nat, cta: nat): nat
    requires d.Ok() && 0 < grid
  {
    |GridIds(cta, grid, d.Tiles())|
  }

  /** Thread block `cta` of a launch with cwg warpgroups of consumers and one of producers. */
  function BlockKernel(d: Dims, grid: nat, cta: nat, stage: nat, cwg: nat, bytes: nat): Kernel
    requires d.Ok() && 0 < grid
  {
    Kernel(Script(TileCount(d, grid, cta), d.kNum, bytes), [stage], cwg * 128, 128)
  }

  /** Whatever is proved about the protocol holds of every thread block of a launch. */
  lemma EveryBlockIsGemm(d: Dims, grid: nat, cta: nat, stage: nat, cwg: nat, bytes: nat)
    requires d.Ok() && 0 < grid && 0 < stage && 0 < cwg && 0 < bytes
    ensures BlockKernel(d, grid, cta, stage, cwg, bytes).Ok()
    ensures IsGemm(BlockKernel(d, grid, cta, stage, cwg, bytes), TileCount(d, grid, cta), d.kNum, bytes)
    ensures BlockKernel(d, grid, cta, stage, cwg, bytes).Members(EPILOGUE) == 4 * cwg * 32
    ensures BlockKernel(d, grid, cta, stage, cwg, bytes).Members(BLOCK) == (4 * cwg + 4) * 32
  {
    TileEventsOk(TileCount(d, grid, cta), d.kNum, bytes);
  }

  lemma {:induction false} TileEventsOk(tiles: nat, kNum: nat, bytes: nat)
    requires 0 < bytes
    ensures forall e | e in TileEvents(tiles, kNum, bytes) :: e.Xfer? ==> e.ring == 0 && 0 < e.bytes
    ensures forall e | e in TileEvents(tiles, kNum, bytes) :: e.Sync? ==> e.bar < 2
  {
    if tiles > 0 { TileEventsOk(tiles - 1, kNum, bytes); }
  }

  /** A producer thread; `leader` is the one that issues the copies. */
  method ProducerThread(d: Dims, grid: nat, cta: nat, leader: bool, bytes: nat) returns (trace: seq<Event>)
    requires d.Ok() && 0 < grid
    ensures trace == Performed(Script(TileCount(d, grid, cta), d.kNum, bytes), if leader then Leader else Helper)
  {
    ghost var role := if leader then Leader else Helper;
    ProducerPieces(d.kNum, bytes);
    trace := [];
    ghost var n := 0;
    if leader {
      var tiledId := cta;
      while tiledId < d.Tiles()
        invariant n + TileCount(d, grid, tiledId) == TileCount(d, grid, cta)
        invariant trace == Performed(TileEvents(n, d.kNum, bytes), role)
        decreases d.Tiles() - tiledId
      {
        ghost var before := trace;
        for k := 0 to d.kNum
          invariant trace == before + Loads(k, bytes)
        {
          LoadsMore(k, bytes);
          trace := trace + [Xfer(OperandAB, 0, bytes)];
        }
        NextTile(n, d.kNum, bytes, role);
        n := n + 1;
        tiledId := tiledId + grid;
      }
    } else {
      n := TileCount(d, grid, cta);
      HelperIdle(n, d.kNum, bytes);
    }
    trace := trace + [Sync(BLOCK)];
    PerformedConcat(TileEvents(n, d.kNum, bytes), [StoreWait, Sync(BLOCK)], role);
  }

  lemma {:induction false} HelperIdle(tiles: nat, kNum: nat, bytes: nat)
    ensures Performed(TileEvents(tiles, kNum, bytes), Helper) == []
  {
    if tiles > 0 {
      HelperIdle(tiles - 1, kNum, bytes);
      PerformedAll(Loads(kNum, bytes), Helper);
      NotProducers(Helper);
      NextTile(tiles - 1, kNum, bytes, Helper);
    }
  }

  // ---- consumers ----

  /** A tile as a consumer sees it; `wait` says whether it waits for the store before. */
  function ConsumerTile(kNum: nat, bytes: nat, writer: bool, wait: bool): seq<Event> {
    Loads(kNum, bytes) + (if writer && wait then [StoreWait] else [])
    + [Sync(EPILOGUE), Work(WriteOutput), Sync(EPILOGUE)] + (if writer then [StoreIssue] else [])
  }

  /** The tiles of a consumer thread: store_in_flight spares the wait in the first one. */
  function ConsumerTiles(tiles: nat, kNum: nat, bytes: nat, writer: bool): seq<Event> {
    if tiles == 0 then [] else
    ConsumerTiles(tiles - 1, kNum, bytes, writer) + ConsumerTile(kNum, bytes, writer, tiles > 1)
  }

  function ConsumerProgram(tiles: nat, kNum: nat, bytes: nat, writer: bool): seq<Event> {
    ConsumerTiles(tiles, kNum, bytes, writer) + (if writer && tiles > 0 then [StoreWait] else []) + [Sync(BLOCK)]
  }

  /** Every tile of the script as the storing consumer performs it. */
  lemma WriterTile(kNum: nat, bytes: nat)
    ensures ConsumerTile(kNum, bytes, true, true) == Loads(kNum, bytes) + EPILOGUE_EVENTS
    ensures ConsumerTile(kNum, bytes, true, false) == Loads(kNum, bytes) + EPILOGUE_EVENTS[1..]
  {
  }

  lemma Without(p: seq<Event>, a: seq<Event>, b: seq<Event>, i: nat)
    requires i < |p|
    ensures var s := p + a + b; s[i] == p[i] && s[..i] + s[i + 1..] == p[..i] + p[i + 1..] + (a + b)
  {
  }

  lemma {:induction false} WriterTiles(tiles: nat, kNum: nat, bytes: nat)
    requires tiles > 0
    ensures var s := TileEvents(tiles, kNum, bytes);
            && kNum < |s| && s[kNum] == StoreWait
            && ConsumerTiles(tiles, kNum, bytes, true) == s[..kNum] + s[kNum + 1..]
  {
    WriterTile(kNum, bytes);
    var s := TileEvents(tiles, kNum, bytes);
    if tiles == 1 {
      assert TileEvents(0, kNum, bytes) == [];
      assert ConsumerTiles(0, kNum, bytes, true) == [];
      assert s == Loads(kNum, bytes) + EPILOGUE_EVENTS;
    } else {
      WriterTiles(tiles - 1, kNum, bytes);
      Without(TileEvents(tiles - 1, kNum, bytes), Loads(kNum, bytes), EPILOGUE_EVENTS, kNum);
    }
  }

  /** The storing consumer's program is the whole script without its first wait for a store;
      the other consumers' is the script without stores and waits. */
  lemma ConsumerPrograms(tiles: nat, kNum: nat, bytes: nat)
    ensures ConsumerProgram(tiles, kNum, bytes, false) == Performed(Script(tiles, kNum, bytes), Worker)
    ensures var s := Script(tiles, kNum, bytes);
            if tiles == 0 then ConsumerProgram(tiles, kNum, bytes, true) == s[1..] && s[0] == StoreWait
            else kNum < |s| && s[kNum] == StoreWait
                 && ConsumerProgram(tiles, kNum, bytes, true) == s[..kNum] + s[kNum + 1..]
  {
    WorkerTiles(tiles, kNum, bytes);
    PerformedConcat(TileEvents(tiles, kNum, bytes), [StoreWait, Sync(BLOCK)], Worker);
    LastTwo(Worker);
    if tiles > 0 {
      WriterTiles(tiles, kNum, bytes);
      var t, s := TileEvents(tiles, kNum, bytes), Script(tiles, kNum, bytes);
      assert s[kNum + 1..] == t[kNum + 1..] + [StoreWait, Sync(BLOCK)];
    }
  }

  lemma WorkerEpilogue()
    ensures Performed(EPILOGUE_EVENTS, Worker) == [Sync(EPILOGUE), Work(WriteOutput), Sync(EPILOGUE)]
  {
    var body: seq<Event> := [Sync(EPILOGUE), Work(WriteOutput), Sync(EPILOGUE)];
    assert EPILOGUE_EVENTS == [StoreWait] + body + [StoreIssue];
    PerformedConcat([StoreWait] + body, [StoreIssue], Worker);
    PerformedConcat([StoreWait], body, Worker);
    PerformedAll([StoreWait], Worker);
    PerformedAll(body, Worker);
    PerformedAll([StoreIssue], Worker);
  }

  lemma WorkerTile(kNum: nat, bytes: nat, wait: bool)
    ensures ConsumerTile(kNum, bytes, false, wait)
            == Performed(Loads(kNum, bytes), Worker) + Performed(EPILOGUE_EVENTS, Worker)
  {
    PerformedAll(Loads(kNum, bytes), Worker);
    WorkerEpilogue();
  }

  lemma {:induction false} WorkerTiles(tiles: nat, kNum: nat, bytes: nat)
    ensures ConsumerTiles(tiles, kNum, bytes, false) == Performed(TileEvents(tiles, kNum, bytes), Worker)
  {
    if tiles > 0 {
      WorkerTiles(tiles - 1, kNum, bytes);
      NextTile(tiles - 1, kNum, bytes, Worker);
      WorkerTile(kNum, bytes, tiles > 1);
    }
  }

  /** A consumer thread, with its store_in_flight flag. */
  method ConsumerThread(d: Dims, grid: nat, cta: nat, writer: bool, bytes: nat) returns (trace: seq<Event>)
    requires d.Ok() && 0 < grid
    ensures trace == ConsumerProgram(TileCount(d, grid, cta), d.kNum, bytes, writer)
  {
    trace := [];
    var storeInFlight := false;
    var tiledId := cta;
    ghost var n := 0;
    while tiledId < d.Tiles()
      invariant n + TileCount(d, grid, tiledId) == TileCount(d, grid, cta) && storeInFlight == (n > 0)
      invariant trace == ConsumerTiles(n, d.kNum, bytes, writer)
      decreases d.Tiles() - tiledId
    {
      var tile: seq<Event> := [];
      for k := 0 to d.kNum
        invariant tile == Loads(k, bytes)
      {
        LoadsMore(k, bytes);
        tile := tile + [Xfer(OperandAB, 0, bytes)];
      }
      if storeInFlight && writer { tile := tile + [StoreWait]; }
      tile := tile + [Sync(EPILOGUE), Work(WriteOutput), Sync(EPILOGUE)];
      if writer { tile := tile + [StoreIssue]; }
      storeInFlight := true;
      trace := trace + tile;
      n := n + 1;
      tiledId := tiledId + grid;
    }
    if storeInFlight && writer { trace := trace + [StoreWait]; }
    trace := trace + [Sync(BLOCK)];
  }

  /** The wait that store_in_flight spares would not have waited: no store is under way. */
  lemma SparedWait(k: Launch, s: State, tiles: nat, kNum: nat, bytes: nat)
    requires IsGemm(k, tiles, kNum, bytes) && Reachable(k, s) && 0 < |s.threads|
    requires s.threads[0].pos == if tiles == 0 then 0 else kNum
    ensures s.stores == 0
  {
    ReachableInv(k, s);
    if tiles > 0 {
      FirstLoads(tiles, kNum, bytes);
      NothingIssued(k, kNum);
    }
  }

  lemma {:induction false} FirstLoads(tiles: nat, kNum: nat, bytes: nat)
    requires tiles > 0
    ensures var s := TileEvents(tiles, kNum, bytes); kNum < |s| && forall i | 0 <= i < kNum :: s[i].Xfer?
  {
    if tiles > 1 { FirstLoads(tiles - 1, kNum, bytes); }
  }

  lemma {:induction false} NothingIssued(k: Launch, p: nat)
    requires p <= |k.script| && forall i | 0 <= i < p :: k.script[i].Xfer?
    ensures k.Unwaited(p) == 0
  {
    if p > 0 { NothingIssued(k, p - 1); }
  }

  // ---- what the consumers receive ----

  /** How many ring items a script holds. */
  function Items(s: seq<Event>): nat {
    if s == [] then 0 else Items(s[..|s| - 1]) + if s[|s| - 1].Xfer? then 1 else 0
  }

  lemma {:induction false} ItemsConcat(a: seq<Event>, b: seq<Event>)
    ensures Items(a + b) == Items(a) + Items(b)
  {
    if b == [] {
      assert a + b == a;
    } else {
      ItemsConcat(a, b[..|b| - 1]);
      assert (a + b)[..|a + b| - 1] == a + b[..|b| - 1];
    }
  }

  lemma {:induction false} LoadItems(n: nat, bytes: nat)
    ensures Items(Loads(n, bytes)) == n
  {
    if n > 0 {
      LoadItems(n - 1, bytes);
      LoadsMore(n - 1, bytes);
    }
  }

  lemma {:induction false} TileItems(tiles: nat, kNum: nat, bytes: nat)
    ensures Items(TileEvents(tiles, kNum, bytes)) == tiles * kNum
  {
    if tiles > 0 {
      var p := TileEvents(tiles - 1, kNum, bytes);
      TileItems(tiles - 1, kNum, bytes);
      LoadItems(kNum, bytes);
      ItemsConcat(p + Loads(kNum, bytes), EPILOGUE_EVENTS);
      ItemsConcat(p, Loads(kNum, bytes));
      NoItems(EPILOGUE_EVENTS);
      MulDist(tiles - 1, 1, kNum);
    }
  }

  lemma {:induction false} NoItems(s: seq<Event>)
    requires forall e | e in s :: !e.Xfer?
    ensures Items(s) == 0
  {
    if s != [] { NoItems(s[..|s| - 1]); }
  }

  lemma {:induction false} TileLoadCount(t: (nat, nat), k: nat, kNum: nat)
    requires k <= kNum
    ensures |TileLoads(t, k, kNum)| == kNum - k
    decreases kNum - k
  {
    if k < kNum { TileLoadCount(t, k + 1, kNum); }
  }

  lemma {:induction false} LoadCount(d: Dims, grid: nat, id: nat)
    requires d.Ok() && 0 < grid
    ensures |AllLoads(d, grid, id)| == TileCount(d, grid, id) * d.kNum
    decreases d.Tiles() - id
  {
    if id < d.Tiles() {
      LoadCount(d, grid, id + grid);
      TileLoadCount(TileOf(d, id), 0, d.kNum);
      MulDist(TileCount(d, grid, id + grid), 1, d.kNum);
    }
  }

  lemma {:induction false} StreamItems(k: Launch, p: nat)
    requires p <= |k.script|
    ensures |Stream(k, p)| == Items(k.script[..p])
  {
    if p > 0 {
      StreamItems(k, p - 1);
      assert k.script[..p][..p - 1] == k.script[..p - 1];
    }
  }

  /** Entry i of the stream is the event before which i items were issued. */
  lemma {:induction false} StreamOrder(k: Launch, p: nat, i: nat)
    requires p <= |k.script| && i < |Stream(k, p)|
    ensures Stream(k, p)[i].Item? && Stream(k, p)[i].event < p && |Stream(k, Stream(k, p)[i].event)| == i
  {
    if i < |Stream(k, p - 1)| { StreamOrder(k, p - 1, i); }
  }

  /** In every run of a thread block, the i-th item a consumer reads is the i-th load of the
      producer's loop; and there are as many items as loads. */
  lemma ConsumersGetTheLoads(k: Launch, run: seq<State>, t: nat, i: nat, d: Dims, grid: nat, cta: nat, bytes: nat)
    requires d.Ok() && 0 < grid && IsGemm(k, TileCount(d, grid, cta), d.kNum, bytes)
    requires IsRun(k, run) && t < k.consumers
    ensures forall j | 0 <= j < |run| :: Shaped(k, run[j])
    ensures |Stream(k, |k.script|)| == |AllLoads(d, grid, cta)|
    ensures i < |ReadLog(k, run, t)| ==>
              && ReadLog(k, run, t)[i].Item? && ReadLog(k, run, t)[i].event < |k.script|
              && |Stream(k, ReadLog(k, run, t)[i].event)| == i
  {
    ReadsTheStream(k, run, t);
    var p := run[|run| - 1].threads[t].pos;
    if i < |Stream(k, p)| { StreamOrder(k, p, i); }
    StreamItems(k, |k.script|);
    assert k.script[..|k.script|] == k.script;
    ItemsConcat(TileEvents(TileCount(d, grid, cta), d.kNum, bytes), [StoreWait, Sync(BLOCK)]);
    NoItems([StoreWait, Sync(BLOCK)]);
    TileItems(TileCount(d, grid, cta), d.kNum, bytes);
    LoadCount(d, grid, cta);
  }

  // ---- what the consumers compute ----

  /** The load that filled what a consumer read. */
  ghost function LoadOf(k: Launch, loads: seq<Load>, c: Content): Load {
    if c.Item? && c.event <= |k.script| && |Stream(k, c.event)| < |loads| then loads[|Stream(k, c.event)|]
    else Load(0, 0, 0)
  }

  /** The loads behind everything a consumer has read. */
  ghost function Delivered(k: Launch, loads: seq<Load>, log: seq<Content>): (r: seq<Load>)
    ensures |r| == |log|
  {
    seq(|log|, i requires 0 <= i < |log| => LoadOf(k, loads, log[i]))
  }

  /** In every run that cannot be continued, each consumer has received all loads of its thread
      block, in the order of the producer's loop. */
  lemma ConsumersGetAllLoads(k: Launch, run: seq<State>, t: nat, d: Dims, grid: nat, cta: nat, bytes: nat)
    requires d.Ok() && 0 < grid && IsGemm(k, TileCount(d, grid, cta), d.kNum, bytes)
    requires IsRun(k, run) && Liveness.Final(k, run[|run| - 1]) && t < k.consumers
    ensures forall j | 0 <= j < |run| :: Shaped(k, run[j])
    ensures Delivered(k, AllLoads(d, grid, cta), ReadLog(k, run, t)) == AllLoads(d, grid, cta)
  {
    Liveness.MaximalRunsFinish(k, run, t);
    ConsumersGetTheLoads(k, run, t, 0, d, grid, cta, bytes);
    var loads, log := AllLoads(d, grid, cta), ReadLog(k, run, t);
    forall i: nat | i < |log| ensures LoadOf(k, loads, log[i]) == loads[i] {
      ConsumersGetTheLoads(k, run, t, i, d, grid, cta, bytes);
    }
  }

  /** The product of one loaded block of A and one of B, for one element. */
  ghost function BlockDot(A: array2<real>, B: array2<real>, m: nat, n: nat, from: nat, len: nat): real
    requires m < A.Length0 && n < B.Length0 && from + len <= A.Length1 && from + len <= B.Length1
    reads A, B
  {
    if len == 0 then 0.0 else BlockDot(A, B, m, n, from, len - 1) + A[m, from + len - 1] * B[n, from + len - 1]
  }

  lemma {:induction false} DotSplit(A: array2<real>, B: array2<real>, m: nat, n: nat, from: nat, len: nat)
    requires m < A.Length0 && n < B.Length0 && from + len <= A.Length1 && from + len <= B.Length1
    ensures Dot(A, B, m, n, from + len) == Dot(A, B, m, n, from) + BlockDot(A, B, m, n, from, len)
  {
    if len > 0 { DotSplit(A, B, m, n, from, len - 1); }
  }

  ghost predicate InDims(d: Dims, loads: seq<Load>) {
    forall n | 0 <= n < |loads| :: loads[n].bm < d.mNum && loads[n].bn < d.nNum && loads[n].k < d.kNum
  }

  /** Element (i, j) of the accumulators after the given loads. */
  ghost function Accumulated(d: Dims, A: array2<real>, B: array2<real>, C: array2<real>,
                             loads: seq<Load>, i: nat, j: nat): real
    requires Fits(d, A, B, C) && i < d.blockM && j < d.blockN && InDims(d, loads)
    reads A, B
  {
    if loads == [] then 0.0 else
    var last := loads[|loads| - 1];
    BlockFits(last.bm, d.mNum, d.blockM);
    BlockFits(last.bn, d.nNum, d.blockN);
    BlockFits(last.k, d.kNum, d.blockK);
    Accumulated(d, A, B, C, loads[..|loads| - 1], i, j)
    + BlockDot(A, B, last.bm * d.blockM + i, last.bn * d.blockN + j, last.k * d.blockK, d.blockK)
  }

  lemma {:induction false} TileLoadAt(t: (nat, nat), k: nat, kNum: nat, i: nat)
    requires k <= kNum && i < kNum - k
    ensures |TileLoads(t, k, kNum)| == kNum - k && TileLoads(t, k, kNum)[i] == Load(t.0, t.1, k + i)
    decreases kNum - k
  {
    TileLoadCount(t, k, kNum);
    if i > 0 { TileLoadAt(t, k + 1, kNum, i - 1); }
  }

  /** The accumulators after the first n loads of a tile. */
  lemma {:induction false} TileAccumulates(d: Dims, A: array2<real>, B: array2<real>, C: array2<real>, t: (nat, nat),
                                           loads: seq<Load>, i: nat, j: nat, sum: nat)
    requires Fits(d, A, B, C) && i < d.blockM && j < d.blockN && t.0 < d.mNum && t.1 < d.nNum
    requires |loads| <= d.kNum && forall n | 0 <= n < |loads| :: loads[n] == Load(t.0, t.1, n)
    requires sum == |loads| * d.blockK
    ensures t.0 * d.blockM + i < A.Length0 && t.1 * d.blockN + j < B.Length0 && sum <= A.Length1
    ensures Accumulated(d, A, B, C, loads, i, j) == Dot(A, B, t.0 * d.blockM + i, t.1 * d.blockN + j, sum)
  {
    BlockFits(t.0, d.mNum, d.blockM);
    BlockFits(t.1, d.nNum, d.blockN);
    MulLe(|loads|, d.kNum, d.blockK);
    if loads != [] {
      var n := |loads| - 1;
      MulDist(n, 1, d.blockK);
      TileAccumulates(d, A, B, C, t, loads[..n], i, j, sum - d.blockK);
      DotSplit(A, B, t.0 * d.blockM + i, t.1 * d.blockN + j, sum - d.blockK, d.blockK);
    }
  }

  /** The n-th tile's loads among all loads of a thread block. */
  lemma {:induction false} TileInLoads(d: Dims, grid: nat, id: nat, n: nat, start: nat, tile: nat)
    requires d.Ok() && 0 < grid && start == n * d.kNum && tile == id + n * grid < d.Tiles()
    ensures start + d.kNum <= |AllLoads(d, grid, id)|
    ensures AllLoads(d, grid, id)[start..start + d.kNum] == TileLoads(TileOf(d, tile), 0, d.kNum)
    decreases n
  {
    MulLe(0, n, grid);
    TileLoadCount(TileOf(d, id), 0, d.kNum);
    if n > 0 {
      MulDist(n - 1, 1, d.kNum);
      MulDist(n - 1, 1, grid);
      TileInLoads(d, grid, id + grid, n - 1, start - d.kNum, tile);
      Later(TileLoads(TileOf(d, id), 0, d.kNum), AllLoads(d, grid, id + grid), start - d.kNum, d.kNum);
    }
  }

  lemma Later<T>(a: seq<T>, b: seq<T>, from: nat, len: nat)
    requires from + len <= |b|
    ensures (a + b)[|a| + from..|a| + from + len] == b[from..from + len]
  {
  }

  /** A tile's loads accumulate to its elements of the product. */
  lemma TileComputes(d: Dims, A: array2<real>, B: array2<real>, C: array2<real>, tile: (nat, nat), i: nat, j: nat)
    requires Fits(d, A, B, C) && i < d.blockM && j < d.blockN && tile.0 < d.mNum && tile.1 < d.nNum
    ensures InDims(d, TileLoads(tile, 0, d.kNum))
    ensures Accumulated(d, A, B, C, TileLoads(tile, 0, d.kNum), i, j) == TileDot(d, A, B, C, tile, i, j)
  {
    var loads := TileLoads(tile, 0, d.kNum);
    TileLoadCount(tile, 0, d.kNum);
    forall m: nat | m < d.kNum ensures loads[m] == Load(tile.0, tile.1, m) {
      TileLoadAt(tile, 0, d.kNum, m);
    }
    TileAccumulates(d, A, B, C, tile, loads, i, j, A.Length1);
  }

  /** Element (i, j) of a tile of the product. */
  ghost function TileDot(d: Dims, A: array2<real>, B: array2<real>, C: array2<real>, tile: (nat, nat),
                         i: nat, j: nat): real
    requires Fits(d, A, B, C) && tile.0 < d.mNum && tile.1 < d.nNum && i < d.blockM && j < d.blockN
    reads A, B
  {
    BlockFits(tile.0, d.mNum, d.blockM);
    BlockFits(tile.1, d.nNum, d.blockN);
    Dot(A, B, tile.0 * d.blockM + i, tile.1 * d.blockN + j, A.Length1)
  }

  /** The loads from place `start` on accumulate to element (i, j) of the tile with id `tile`. */
  ghost predicate ComputesTile(d: Dims, A: array2<real>, B: array2<real>, C: array2<real>, loads: seq<Load>,
                               start: nat, tile: nat, i: nat, j: nat)
    requires Fits(d, A, B, C) && tile < d.Tiles() && i < d.blockM && j < d.blockN
    reads A, B
  {
    && start + d.kNum <= |loads| && InDims(d, loads[start..start + d.kNum])
    && Accumulated(d, A, B, C, loads[start..start + d.kNum], i, j) == TileDot(d, A, B, C, TileOf(d, tile), i, j)
  }

  lemma LoadsComputeTile(d: Dims, grid: nat, cta: nat, A: array2<real>, B: array2<real>, C: array2<real>,
                         n: nat, start: nat, tile: nat, i: nat, j: nat)
    requires Fits(d, A, B, C) && 0 < grid
    requires tile == cta + n * grid < d.Tiles() && start == n * d.kNum && i < d.blockM && j < d.blockN
    ensures ComputesTile(d, A, B, C, AllLoads(d, grid, cta), start, tile, i, j)
  {
    TileInLoads(d, grid, cta, n, start, tile);
    TileComputes(d, A, B, C, TileOf(d, tile), i, j);
  }

  /** In every run that cannot be continued, the loads that each consumer has read for its n-th
      tile accumulate to that tile's elements of the product. */
  lemma RunsComputeTiles(k: Launch, run: seq<State>, t: nat, d: Dims, grid: nat, cta: nat, bytes: nat,
                         A: array2<real>, B: array2<real>, C: array2<real>, n: nat, start: nat, tile: nat,
                         i: nat, j: nat)
    requires Fits(d, A, B, C) && 0 < grid && IsGemm(k, TileCount(d, grid, cta), d.kNum, bytes)
    requires IsRun(k, run) && Liveness.Final(k, run[|run| - 1]) && t < k.consumers
    requires tile == cta + n * grid < d.Tiles() && start == n * d.kNum && i < d.blockM && j < d.blockN
    ensures forall s | 0 <= s < |run| :: Shaped(k, run[s])
    ensures var got := Delivered(k, AllLoads(d, grid, cta), ReadLog(k, run, t));
            got == AllLoads(d, grid, cta) && ComputesTile(d, A, B, C, got, start, tile, i, j)
  {
    ConsumersGetAllLoads(k, run, t, d, grid, cta, bytes);
    LoadsComputeTile(d, grid, cta, A, B, C, n, start, tile, i, j);
  }
}
