/** The bulk stores of a kernel over whole runs: each one issued happens, once per tile. */
module Stores {
  import opened Tiles
  import opened Machine
  import opened Invariant
  import opened Safety
  import opened Liveness
  import GemmProtocol
  import FlashProtocol

  /** How many bulk stores have finished in a run. */
  ghost function Finishes(run: seq<State>): nat {
    if |run| < 2 then 0 else
    var n := |run| - 1;
    Finishes(run[..n]) + if run[n].stores + 1 == run[n - 1].stores then 1 else 0
  }

  /** How many store events a script holds. */
  function Issues(script: seq<Event>): nat {
    if script == [] then 0 else
    var n := |script| - 1;
    Issues(script[..n]) + if script[n].StoreIssue? then 1 else 0
  }

  /** The stores a thread starts on its way from one place to the next. */
  function Started(k: Kernel, before: nat, after: nat): nat
    requires after > before ==> before < |k.script|
  {
    if after > before && k.script[before].StoreIssue? then 1 else 0
  }

  /** One step finishes a store, or thread 0 passes an event, which starts a store if it issues
      one, or neither. */
  lemma StoreStep(k: Launch, s: State, s': State)
    requires Inv(k, s) && Shaped(k, s) && Next(k, s, s')
    ensures |s'.threads| == |s.threads| && s.threads[0].pos <= s'.threads[0].pos <= s.threads[0].pos + 1
    ensures s'.threads[0].pos <= |k.script|
    ensures || (s'.stores + 1 == s.stores && s'.threads[0].pos == s.threads[0].pos)
            || s'.stores == s.stores + Started(k, s.threads[0].pos, s'.threads[0].pos)
  {
    var m :| Enabled(k, s, m) && s' == Apply(k, s, m);
    assert ThreadOk(k, 0, s.threads[0]);
    if m.Go? && m.t == 0 { OwnStoreStep(k, s, m.n); } else { OtherStoreStep(k, s, m); }
  }

  lemma OwnStoreStep(k: Launch, s: State, n: nat)
    requires Inv(k, s) && Shaped(k, s) && Enabled(k, s, Go(0, n)) && ThreadOk(k, 0, s.threads[0])
    ensures var s' := Apply(k, s, Go(0, n));
            && |s'.threads| == |s.threads|
            && s.threads[0].pos <= s'.threads[0].pos <= s.threads[0].pos + 1 <= |k.script|
            && s'.stores == s.stores + Started(k, s.threads[0].pos, s'.threads[0].pos)
  {
  }

  lemma OtherStoreStep(k: Launch, s: State, m: Move)
    requires Shaped(k, s) && Enabled(k, s, m) && !(m.Go? && m.t == 0)
    ensures var s' := Apply(k, s, m);
            && |s'.threads| == |s.threads| && s'.threads[0] == s.threads[0]
            && if m.StoreDone? then s'.stores + 1 == s.stores else s'.stores == s.stores
  {
    OthersStay(k, s, m, 0);
  }

  lemma IssuesStep(script: seq<Event>, p: nat)
    requires p < |script|
    ensures Issues(script[..p + 1]) == Issues(script[..p]) + if script[p].StoreIssue? then 1 else 0
  {
    assert script[..p + 1][..p] == script[..p];
  }

  /** In every run, the stores that have finished and those under way are exactly the store
      events that thread 0 has passed. */
  lemma {:induction false} StoreAccount(k: Launch, run: seq<State>)
    requires IsRun(k, run)
    ensures Shaped(k, run[|run| - 1])
    ensures Finishes(run) + run[|run| - 1].stores == Issues(k.script[..run[|run| - 1].threads[0].pos])
  {
    RunReachable(k, run, |run| - 1);
    if 1 < |run| {
      var before, s, s' := run[..|run| - 1], run[|run| - 2], run[|run| - 1];
      RunPrefix(k, run);
      StoreAccount(k, before);
      RunReachable(k, run, |run| - 2);
      StoreStep(k, s, s');
      IssuesBetween(k, s.threads[0].pos, s'.threads[0].pos);
      FinishesStep(run);
    }
  }

  lemma IssuesBetween(k: Kernel, p: nat, q: nat)
    requires p <= q <= p + 1 && q <= |k.script|
    ensures Issues(k.script[..q]) == Issues(k.script[..p]) + Started(k, p, q)
  {
    if p < q { IssuesStep(k.script, p); }
  }

  lemma FinishesStep(run: seq<State>)
    requires 1 < |run|
    ensures Finishes(run) == Finishes(run[..|run| - 1])
                             + if run[|run| - 1].stores + 1 == run[|run| - 2].stores then 1 else 0
  {
  }

  /** In every run that cannot be continued, every store event's store has finished. */
  lemma {:induction false} AllStoresFinish(k: Launch, run: seq<State>)
    requires IsRun(k, run) && Final(k, run[|run| - 1])
    ensures run[|run| - 1].stores == 0 && Finishes(run) == Issues(k.script)
  {
    var last := run[|run| - 1];
    StoreAccount(k, run);
    MaximalRunsFinish(k, run, 0);
    if last.stores > 0 {
      assert Enabled(k, last, StoreDone);
      assert Next(k, last, Apply(k, last, StoreDone));
    }
    assert k.script[..|k.script|] == k.script;
  }

  // ---- one store per tile ----

  lemma {:induction false} IssuesConcat(a: seq<Event>, b: seq<Event>)
    ensures Issues(a + b) == Issues(a) + Issues(b)
  {
    if b == [] {
      assert a + b == a;
    } else {
      IssuesConcat(a, b[..|b| - 1]);
      assert (a + b)[..|a + b| - 1] == a + b[..|b| - 1];
    }
  }

  lemma {:induction false} NoIssues(s: seq<Event>)
    requires forall e | e in s :: !e.StoreIssue?
    ensures Issues(s) == 0
  {
    if s != [] { NoIssues(s[..|s| - 1]); }
  }

  lemma OneIssue(a: seq<Event>, b: seq<Event>)
    requires forall e | e in a :: !e.StoreIssue?
    requires forall e | e in b :: !e.StoreIssue?
    ensures Issues(a + [StoreIssue] + b) == 1
  {
    IssuesConcat(a + [StoreIssue], b);
    IssuesConcat(a, [StoreIssue]);
    NoIssues(a);
    NoIssues(b);
    assert [StoreIssue][..0] == [];
  }

  lemma {:induction false} GemmIssues(tiles: nat, kNum: nat, bytes: nat)
    ensures Issues(GemmProtocol.TileEvents(tiles, kNum, bytes)) == tiles
  {
    if tiles > 0 {
      var before, loads := GemmProtocol.TileEvents(tiles - 1, kNum, bytes), GemmProtocol.Loads(kNum, bytes);
      var write := [StoreWait, Sync(EPILOGUE), Work(WriteOutput), Sync(EPILOGUE)];
      GemmIssues(tiles - 1, kNum, bytes);
      OneIssue(loads + write, []);
      IssuesConcat(before, loads + write + [StoreIssue] + []);
      assert before + loads + GemmProtocol.EPILOGUE_EVENTS == before + (loads + write + [StoreIssue] + []);
    }
  }

  /** In every run of a GEMM thread block that cannot be continued, as many stores have finished
      as it has tiles. */
  lemma {:induction false} GemmStoresTiles(k: Launch, run: seq<State>, tiles: nat, kNum: nat, bytes: nat)
    requires GemmProtocol.IsGemm(k, tiles, kNum, bytes) && IsRun(k, run) && Final(k, run[|run| - 1])
    ensures Finishes(run) == tiles
  {
    AllStoresFinish(k, run);
    GemmIssues(tiles, kNum, bytes);
    IssuesConcat(GemmProtocol.TileEvents(tiles, kNum, bytes), [StoreWait, Sync(BLOCK)]);
    NoIssues([StoreWait, Sync(BLOCK)]);
  }

  lemma TileIssues(blocks: nat, multi: bool, bytes: FlashProtocol.Bytes)
    ensures Issues(FlashProtocol.TileEvents(blocks, multi, bytes)) == 1
  {
    var loads := [Xfer(OperandQ, FlashProtocol.QK_RING, bytes.q)] + FlashProtocol.Blocks(blocks, bytes);
    var exchange: seq<Event> :=
      if multi then [Work(SaveStats), Sync(EPILOGUE), Work(SavePartial), Sync(EPILOGUE)] else [];
    var a, b := loads + exchange + [Work(WriteOutput), Sync(EPILOGUE)], [StoreWait, Sync(BLOCK)];
    FlashProtocol.BlocksShape(blocks, bytes);
    OneIssue(a, b);
    assert FlashProtocol.TileEvents(blocks, multi, bytes) == a + [StoreIssue] + b;
  }

  lemma {:induction false} FlashIssues(tiles: seq<nat>, multi: bool, bytes: FlashProtocol.Bytes)
    ensures Issues(FlashProtocol.Script(tiles, multi, bytes)) == |tiles|
  {
    if tiles != [] {
      var n := |tiles| - 1;
      FlashIssues(tiles[..n], multi, bytes);
      TileIssues(tiles[n], multi, bytes);
      IssuesConcat(FlashProtocol.Script(tiles[..n], multi, bytes), FlashProtocol.TileEvents(tiles[n], multi, bytes));
    }
  }

  /** The same for a FlashAttention thread block. */
  lemma {:induction false} FlashStoresTiles(k: Launch, run: seq<State>, tiles: seq<nat>, multi: bool,
                                            bytes: FlashProtocol.Bytes)
    requires k.script == FlashProtocol.Script(tiles, multi, bytes) && IsRun(k, run) && Final(k, run[|run| - 1])
    ensures Finishes(run) == |tiles|
  {
    AllStoresFinish(k, run);
    FlashIssues(tiles, multi, bytes);
  }
}
