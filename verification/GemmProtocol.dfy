/** The script of one GEMM thread block and the safety of its output buffer. */
module GemmProtocol {
  import opened Machine
  import opened Invariant
  import opened Safety
  import opened Liveness

  function Loads(n: nat, bytes: nat): seq<Event> {
    seq(n, _ => Xfer(OperandAB, 0, bytes))
  }

  const EPILOGUE_EVENTS: seq<Event> :=
    [StoreWait, Sync(EPILOGUE), Work(WriteOutput), Sync(EPILOGUE), StoreIssue]

  /** `tiles` output tiles of kNum k-blocks each, one after the other. */
  function TileEvents(tiles: nat, kNum: nat, bytes: nat): seq<Event> {
    if tiles == 0 then [] else TileEvents(tiles - 1, kNum, bytes) + Loads(kNum, bytes) + EPILOGUE_EVENTS
  }

  function Script(tiles: nat, kNum: nat, bytes: nat): seq<Event> {
    TileEvents(tiles, kNum, bytes) + [StoreWait, Sync(BLOCK)]
  }

  /** What surrounds the output write at event p. */
  ghost predicate AroundWrite(s: seq<Event>, p: nat) {
    && 2 <= p && p + 2 < |s|
    && s[p - 2].StoreWait? && s[p - 1] == Sync(EPILOGUE)
    && s[p + 1] == Sync(EPILOGUE) && s[p + 2].StoreIssue?
  }

  /** What comes before the bulk store issued at event p. */
  ghost predicate BeforeStore(s: seq<Event>, p: nat) {
    && 4 <= p < |s|
    && s[p - 4].StoreWait? && s[p - 3] == Sync(EPILOGUE)
    && s[p - 2] == Work(WriteOutput) && s[p - 1] == Sync(EPILOGUE)
  }

  ghost predicate Epilogues(s: seq<Event>) {
    && (forall p | 0 <= p < |s| && s[p].Work? :: AroundWrite(s, p))
    && (forall p | 0 <= p < |s| && s[p].StoreIssue? :: BeforeStore(s, p))
  }

  lemma EpiloguesConcat(a: seq<Event>, b: seq<Event>)
    requires Epilogues(a) && Epilogues(b)
    ensures Epilogues(a + b)
  {
    var s := a + b;
    forall p | 0 <= p < |s| && s[p].Work? ensures AroundWrite(s, p) {
      if p < |a| { assert AroundWrite(a, p); } else { assert AroundWrite(b, p - |a|); }
    }
    forall p | 0 <= p < |s| && s[p].StoreIssue? ensures BeforeStore(s, p) {
      if p < |a| { assert BeforeStore(a, p); } else { assert BeforeStore(b, p - |a|); }
    }
  }

  lemma {:induction false} TileEpilogues(tiles: nat, kNum: nat, bytes: nat)
    ensures Epilogues(TileEvents(tiles, kNum, bytes))
  {
    if tiles > 0 {
      TileEpilogues(tiles - 1, kNum, bytes);
      EpiloguesConcat(TileEvents(tiles - 1, kNum, bytes), Loads(kNum, bytes));
      EpiloguesConcat(TileEvents(tiles - 1, kNum, bytes) + Loads(kNum, bytes), EPILOGUE_EVENTS);
    }
  }

  /** A launch of the kernel for one thread block. */
  ghost predicate IsGemm(k: Launch, tiles: nat, kNum: nat, bytes: nat) {
    k.script == Script(tiles, kNum, bytes) && |k.stages| == 1
  }

  lemma GemmEpilogues(k: Launch, tiles: nat, kNum: nat, bytes: nat)
    requires IsGemm(k, tiles, kNum, bytes)
    ensures Epilogues(k.script) && 2 <= |k.script|
    ensures k.script[|k.script| - 2].StoreWait? && k.script[|k.script| - 1] == Sync(BLOCK)
  {
    TileEpilogues(tiles, kNum, bytes);
    EpiloguesConcat(TileEvents(tiles, kNum, bytes), [StoreWait, Sync(BLOCK)]);
  }

  /** At most one bulk store is ever unwaited for, and it is the last one issued. */
  lemma {:induction false} LastStore(k: Launch, p: nat) returns (q: nat)
    requires Epilogues(k.script) && p <= |k.script|
    ensures k.Unwaited(p) <= 1
    ensures k.Unwaited(p) == 1 ==> q < p && k.script[q].StoreIssue?
    ensures k.Unwaited(p) == 1 ==> forall i | q < i < p :: !k.script[i].StoreIssue? && !k.script[i].StoreWait?
  {
    q := 0;
    if p > 0 {
      q := LastStore(k, p - 1);
      if k.script[p - 1].StoreIssue? {
        assert BeforeStore(k.script, p - 1);
        q := p - 1;
      }
    }
  }

  /** The output buffer is never written while a bulk store still reads it. */
  lemma WriterSeesNoStore(k: Launch, tiles: nat, kNum: nat, bytes: nat, s: State, t: nat)
    requires IsGemm(k, tiles, kNum, bytes) && Reachable(k, s) && t < k.consumers && t < |s.threads|
    requires s.threads[t].stage.Busy? && s.threads[t].pos < |k.script| && k.script[s.threads[t].pos].Work?
    ensures s.stores == 0
  {
    ReachableInv(k, s);
    GemmEpilogues(k, tiles, kNum, bytes);
    WriterBetweenBarriers(k, s, t, s.threads[t].pos);
  }

  lemma WriterBetweenBarriers(k: Launch, s: State, t: nat, w: nat)
    requires Inv(k, s) && t < k.consumers && s.threads[t].pos == w
    requires AroundWrite(k.script, w) && k.script[w].Work?
    ensures s.stores == 0
  {
    Between(k, s, EPILOGUE, w - 1, w + 1, t, 0);
    NothingUnwaited(k, w);
  }

  lemma NothingUnwaited(k: Launch, w: nat)
    requires AroundWrite(k.script, w) && k.script[w].Work?
    ensures k.Unwaited(w - 1) == k.Unwaited(w) == k.Unwaited(w + 1) == 0
  {
  }

  /** While a bulk store reads the output buffer, it is the only one; every consumer has
      finished the write it transfers, and no consumer has begun a later one. */
  lemma StoreSeesFinishedTile(k: Launch, tiles: nat, kNum: nat, bytes: nat, s: State) returns (q: nat)
    requires IsGemm(k, tiles, kNum, bytes) && Reachable(k, s) && s.stores > 0
    ensures s.stores == 1 && |s.threads| == k.Threads()
    ensures 2 <= q < |k.script| && k.script[q].StoreIssue? && k.script[q - 2] == Work(WriteOutput)
    ensures forall t | 0 <= t < k.consumers :: q - 2 < s.threads[t].pos
    ensures forall t | 0 <= t < k.consumers && s.threads[t].stage.Busy? ::
              s.threads[t].pos < |k.script| && k.script[s.threads[t].pos].Xfer?
    ensures q < s.threads[0].pos
    ensures forall i | q < i < s.threads[0].pos :: i < |k.script| && !k.script[i].StoreIssue? && !k.script[i].StoreWait?
  {
    ReachableInv(k, s);
    GemmEpilogues(k, tiles, kNum, bytes);
    q := TransferredTile(k, s);
    forall t | 0 <= t < k.consumers && s.threads[t].stage.Busy?
      ensures s.threads[t].pos < |k.script| && k.script[s.threads[t].pos].Xfer?
    {
      BusyReads(k, s, t);
    }
  }

  lemma TransferredTile(k: Launch, s: State) returns (q: nat)
    requires Inv(k, s) && Epilogues(k.script) && s.stores > 0
    ensures s.stores == 1 && 2 <= q < |k.script| && k.script[q].StoreIssue? && k.script[q - 2] == Work(WriteOutput)
    ensures forall t | 0 <= t < k.consumers :: q - 2 < s.threads[t].pos
    ensures q < s.threads[0].pos <= |k.script|
    ensures forall i | q < i < s.threads[0].pos :: !k.script[i].StoreIssue? && !k.script[i].StoreWait?
  {
    assert ThreadOk(k, 0, s.threads[0]);
    q := LastStore(k, s.threads[0].pos);
    assert BeforeStore(k.script, q);
    forall t | 0 <= t < k.consumers ensures q - 2 < s.threads[t].pos {
      Separation(k, s, EPILOGUE, q - 1, 0, t);
    }
  }

  /** While a store is under way, a busy consumer reads from the ring. */
  lemma BusyReads(k: Launch, s: State, t: nat)
    requires Inv(k, s) && Epilogues(k.script) && s.stores > 0 && t < k.consumers && s.threads[t].stage.Busy?
    ensures s.threads[t].pos < |k.script| && k.script[s.threads[t].pos].Xfer?
  {
    assert ThreadOk(k, t, s.threads[t]);
    if k.script[s.threads[t].pos].Work? { WriterBetweenBarriers(k, s, t, s.threads[t].pos); }
  }

  /** When the block is done, no bulk store is left behind. */
  lemma NoStoreAtTheEnd(k: Launch, tiles: nat, kNum: nat, bytes: nat, s: State)
    requires IsGemm(k, tiles, kNum, bytes) && Reachable(k, s) && Finished(k, s)
    ensures s.stores == 0
  {
    ReachableInv(k, s);
    GemmEpilogues(k, tiles, kNum, bytes);
    var n := |k.script|;
    assert k.Unwaited(n - 1) == 0;
    assert k.Unwaited(n) == 0;
  }
}
