/** Q, K, V and O share one array: who can touch which part of it at the same time. */
module FlashSafety {
  import opened Lanes
  import opened Machine
  import opened Invariant
  import opened Safety
  import opened Overlay
  import opened Tiles
  import opened FlashProtocol

  // ---- the operands in the rings ----

  /** The event up to which the producer has begun to load. */
  ghost function BegunTo(k: Launch, s: State): nat
    requires k.consumers < |s.threads|
  {
    s.threads[k.consumers].pos + if s.threads[k.consumers].stage.Issuing? then 1 else 0
  }

  /** Event p has begun to load its item into slot j of ring r, and some consumer has not
      released it: the item is on its way, waits for its readers, or is being read. */
  ghost predicate Unreleased(k: Launch, s: State, r: nat, j: nat, p: nat)
    requires Shaped(k, s) && r < |k.stages| && j < k.stages[r]
  {
    && k.Faces(r, j, p) && p < BegunTo(k, s)
    && exists t :: 0 <= t < k.consumers && s.threads[t].pos <= p
  }

  /** p is the last event begun on its slot. */
  ghost predicate LastBegun(k: Launch, s: State, r: nat, j: nat, p: nat)
    requires Shaped(k, s) && r < |k.stages| && j < k.stages[r]
  {
    && k.Faces(r, j, p) && p < BegunTo(k, s) <= |k.script|
    && k.Laps(r, j, BegunTo(k, s)) == k.CursorAt(r, p).lap + 1
  }

  lemma BegunLaps(k: Launch, s: State, r: nat, j: nat)
    requires Inv(k, s) && r < |k.stages| && j < k.stages[r]
    ensures BegunTo(k, s) <= |k.script|
    ensures ViewOf(k, s, r, j).Begun() == k.Laps(r, j, BegunTo(k, s))
  {
    assert ThreadOk(k, k.consumers, s.threads[k.consumers]);
    if s.threads[k.consumers].stage.Issuing? {
      LapsStep(k, r, j, s.threads[k.consumers].pos);
    }
  }

  lemma UnreleasedLast(k: Launch, s: State, r: nat, j: nat, p: nat)
    requires Inv(k, s) && Shaped(k, s) && r < |k.stages| && j < k.stages[r] && Unreleased(k, s, r, j, p)
    ensures LastBegun(k, s, r, j, p)
  {
    assert LaneOk(k, s, r, j);
    var t :| 0 <= t < k.consumers && s.threads[t].pos <= p;
    var v := ViewOf(k, s, r, j);
    assert s.rings[r][j].empty.done <= v.takes[t] == k.Laps(r, j, s.threads[t].pos);
    BegunLaps(k, s, r, j);
    LapsMonotone(k, r, j, s.threads[t].pos, p);
    LapsMonotone(k, r, j, p, BegunTo(k, s));
  }

  /** Whatever a consumer reads, and whatever has bytes on the way, is unreleased. */
  lemma TouchedUnreleased(k: Launch, s: State, r: nat, j: nat, p: nat)
    requires Inv(k, s) && Shaped(k, s) && r < |k.stages| && j < k.stages[r] && k.Faces(r, j, p)
    requires || (exists t :: 0 <= t < k.consumers && s.threads[t].pos == p && s.threads[t].stage.Busy?)
             || (s.rings[r][j].slot.inflight > 0 && s.rings[r][j].slot.item == p)
    ensures Unreleased(k, s, r, j, p)
  {
    assert LaneOk(k, s, r, j);
    var l, v := s.rings[r][j], ViewOf(k, s, r, j);
    BegunLaps(k, s, r, j);
    if l.slot.inflight > 0 && l.slot.item == p {
      assert Filling(l, v) && v.Held(0) <= l.full.done;
      assert v.takes[0] == k.Laps(r, j, s.threads[0].pos);
      if p < s.threads[0].pos { LapsMonotone(k, r, j, p, s.threads[0].pos); }
    } else {
      var t :| 0 <= t < k.consumers && s.threads[t].pos == p && s.threads[t].stage.Busy?;
      ReaderAlone(l, v, t);
    }
    if BegunTo(k, s) <= p { LapsMonotone(k, r, j, BegunTo(k, s), p); }
  }

  /** With two slots, the last two items begun are neighbours in the ring. */
  lemma Neighbours(k: Launch, s: State, r: nat, p: nat, q: nat, z: nat)
    requires Shaped(k, s) && r < |k.stages| && k.stages[r] == 2
    requires LastBegun(k, s, r, 0, p) && LastBegun(k, s, r, 1, q)
    requires p < z < q || q < z < p
    ensures !k.Uses(r, z)
  {
    var b := BegunTo(k, s);
    LapsStep(k, r, 0, p);
    LapsStep(k, r, 1, q);
    if k.Faces(r, 0, z) {
      if p < q {
        LapsMonotone(k, r, 0, p + 1, z);
        LapsMonotone(k, r, 0, z, b);
      } else {
        LapsMonotone(k, r, 0, q + 1, z);
        LapsMonotone(k, r, 0, z, p);
        LapsMonotone(k, r, 1, q + 1, p);
        LapsMonotone(k, r, 1, p, b);
      }
    } else if k.Faces(r, 1, z) {
      if p < q {
        LapsMonotone(k, r, 1, p + 1, z);
        LapsMonotone(k, r, 1, z, q);
        LapsMonotone(k, r, 0, p + 1, q);
        LapsMonotone(k, r, 0, q, b);
      } else {
        LapsMonotone(k, r, 1, q + 1, z);
        LapsMonotone(k, r, 1, z, b);
      }
    }
  }

  lemma NotBothQ(k: Launch, s: State, p: nat, q: nat)
    requires Shaped(k, s) && k.stages == [2, 1]
    requires LastBegun(k, s, QK_RING, 0, p) && LastBegun(k, s, QK_RING, 1, q)
    requires EventShape(k.script, p, true) || EventShape(k.script, p, false)
    requires EventShape(k.script, q, true) || EventShape(k.script, q, false)
    ensures !(k.script[p].operand == OperandQ && k.script[q].operand == OperandQ)
  {
    if k.script[p].operand == OperandQ && k.script[q].operand == OperandQ {
      var first, last := if p < q then p else q, if p < q then q else p;
      assert k.script[first + 1].operand == OperandK && k.Uses(QK_RING, first + 1);
      Neighbours(k, s, QK_RING, p, q, first + 1);
    }
  }

  ghost predicate Apart(l: Layout, k: Launch, p: nat, i: nat, q: nat, j: nat)
    requires p < |k.script| && q < |k.script| && k.script[p].Xfer? && k.script[q].Xfer?
  {
    !RegionOf(l, k.script[p].operand, i).Overlaps(RegionOf(l, k.script[q].operand, j))
  }

  /** Q, K and V never collide: any two different items that have begun to load and that some
      consumer has yet to release occupy disjoint parts of the array, for all tile sizes and
      block counts, although the places of Q and K in the two slots overlap each other. */
  lemma OperandsApart(k: Launch, tiles: seq<nat>, l: Layout, bytes: Bytes, s: State,
                      r: nat, i: nat, p: nat, q': nat, j: nat, q: nat)
    requires IsFlash(k, tiles, l, bytes) && Reachable(k, s) && Shaped(k, s)
    requires r < 2 && i < k.stages[r] && q' < 2 && j < k.stages[q']
    requires Unreleased(k, s, r, i, p) && Unreleased(k, s, q', j, q) && p != q
    ensures Apart(l, k, p, i, q, j)
    ensures RegionOf(l, k.script[p].operand, i).Inside(l.QKVOSize())
  {
    ReachableInv(k, s);
    FlashShape(k, tiles, l, bytes);
    assert EventShape(k.script, p, l.warpsN > 1) && EventShape(k.script, q, l.warpsN > 1);
    UnreleasedLast(k, s, r, i, p);
    UnreleasedLast(k, s, q', j, q);
    LastApart(k, l, s, r, i, p, q', j, q);
  }

  lemma LastApart(k: Launch, l: Layout, s: State, r: nat, i: nat, p: nat, r': nat, j: nat, q: nat)
    requires Shaped(k, s) && k.stages == [2, 1] && l.Ok()
    requires r < 2 && i < k.stages[r] && r' < 2 && j < k.stages[r']
    requires LastBegun(k, s, r, i, p) && LastBegun(k, s, r', j, q) && p != q
    requires EventShape(k.script, p, l.warpsN > 1) && EventShape(k.script, q, l.warpsN > 1)
    ensures Apart(l, k, p, i, q, j)
    ensures RegionOf(l, k.script[p].operand, i).Inside(l.QKVOSize())
  {
    var a, b := k.script[p].operand, k.script[q].operand;
    if r == r' && i == j {
      FillUnique(k, r, i, p, q);
    }
    SlotsApart(l, if a == OperandV then OperandK else a, if b == OperandV then OperandK else b);
    SlotsApart(l, if b == OperandV then OperandK else b, if a == OperandV then OperandK else a);
    if r == r' == QK_RING {
      if i == 0 { NotBothQ(k, s, p, q); } else { NotBothQ(k, s, q, p); }
    }
  }

  // ---- the output region ----

  /** The output is being written: partial results or the final tile. */
  ghost predicate Writing(k: Launch, s: State, t: nat)
    requires t < |s.threads|
  {
    && s.threads[t].pos < |k.script| && s.threads[t].stage.Busy?
    && k.script[s.threads[t].pos] in {Work(SavePartial), Work(WriteOutput)}
  }

  /** No bulk copy into shared memory is under way, nor can one start. */
  ghost predicate NoLoads(k: Launch, s: State)
    requires Shaped(k, s)
  {
    && (forall r, j | 0 <= r < |k.stages| && 0 <= j < k.stages[r] ::
          s.rings[r][j].slot.inflight == 0 && s.rings[r][j].slot.missing == 0)
    && (var th := s.threads[k.consumers];
        th.pos < |k.script| && k.script[th.pos].Xfer? ==> th.stage == Issuing(0))
  }

  lemma {:induction false} UnwaitedShort(k: Launch, multi: bool, p: nat)
    requires Shape(k.script, multi) && p <= |k.script|
    ensures k.Unwaited(p) <= 1
    ensures k.Unwaited(p) == 1 ==> 0 < p && k.script[p - 1].StoreIssue?
  {
    if p > 0 {
      UnwaitedShort(k, multi, p - 1);
      if k.Unwaited(p - 1) == 1 {
        assert EventShape(k.script, p - 2, multi);
      }
    }
  }

  /** From the moment some consumer has taken its last item of a tile until the rendezvous,
      no load is in progress. */
  lemma TileLoaded(k: Launch, s: State, t: nat, e: nat, end: nat)
    requires Inv(k, s) && Shaped(k, s) && t < k.consumers && |k.stages| > 0
    requires e <= s.threads[t].pos < end < |k.script| && k.script[end] == Sync(BLOCK)
    requires forall i | e <= i <= end :: !k.script[i].Xfer?
    ensures s.threads[k.consumers].pos <= end && NoLoads(k, s)
  {
    if s.threads[k.consumers].pos > end {
      Separation(k, s, BLOCK, end, k.consumers, t);
    }
    forall r, j | 0 <= r < |k.stages| && 0 <= j < k.stages[r]
      ensures s.rings[r][j].slot.inflight == 0 && s.rings[r][j].slot.missing == 0
    {
      LoadsLanded(k, s, t, e, end, r, j);
    }
    var th := s.threads[k.consumers];
    assert ThreadOk(k, k.consumers, th);
    if th.pos < |k.script| && k.script[th.pos].Xfer? {
      var r := k.script[th.pos].ring;
      var j := th.pipes[r].index;
      AtItemFaces(k, s, k.consumers, r, j);
      LoadsLanded(k, s, t, e, end, r, j);
      LapsMonotone(k, r, j, th.pos, e);
      LapsMonotone(k, r, j, e, s.threads[t].pos);
      assert ViewOf(k, s, r, j).Held(t) <= s.rings[r][j].full.done;
    }
  }

  lemma WriterAt(k: Launch, s: State, t: nat, multi: bool) returns (w: nat)
    requires Inv(k, s) && Shape(k.script, multi) && t < k.consumers && Writing(k, s, t)
    ensures OutputAt(k.script, w, multi)
    ensures s.threads[t].pos == w || (multi && s.threads[t].pos + 2 == w)
  {
    var p := s.threads[t].pos;
    assert EventShape(k.script, p, multi);
    w := if k.script[p] == Work(SavePartial) then p + 2 else p;
  }

  /** While any consumer writes output into the shared array, in every variant: no load is
      under way, and no earlier bulk store still reads the array. */
  lemma WriterSeesNoCopies(k: Launch, tiles: seq<nat>, l: Layout, bytes: Bytes, s: State, t: nat)
    requires IsFlash(k, tiles, l, bytes) && Reachable(k, s) && t < k.consumers && t < |s.threads| && Writing(k, s, t)
    ensures Shaped(k, s) && NoLoads(k, s) && s.stores == 0
  {
    ReachableInv(k, s);
    InvShaped(k, s);
    FlashShape(k, tiles, l, bytes);
    var w := WriterAt(k, s, t, l.warpsN > 1);
    WriterLoaded(k, s, t, l.warpsN > 1, w);
    WriterNoStore(k, s, t, l.warpsN > 1, w);
  }

  lemma WriterLoaded(k: Launch, s: State, t: nat, multi: bool, w: nat)
    requires Inv(k, s) && Shaped(k, s) && t < k.consumers && |k.stages| > 0
    requires OutputAt(k.script, w, multi)
    requires s.threads[t].pos == w || (multi && s.threads[t].pos + 2 == w)
    ensures NoLoads(k, s)
  {
    TileLoaded(k, s, t, s.threads[t].pos, w + 4);
  }

  lemma WriterNoStore(k: Launch, s: State, t: nat, multi: bool, w: nat)
    requires Inv(k, s) && Shape(k.script, multi) && t < k.consumers && Writing(k, s, t)
    requires OutputAt(k.script, w, multi)
    requires s.threads[t].pos == w || (multi && s.threads[t].pos + 2 == w)
    ensures s.stores == 0
  {
    var p := s.threads[0].pos;
    if p > w + 1 {
      Separation(k, s, EPILOGUE, w + 1, 0, t);
    }
    UnwaitedShort(k, multi, p);
    if k.Unwaited(p) == 1 {
      // thread 0 waits for the store of an earlier tile, so nobody is in this one
      assert EventShape(k.script, p - 1, multi);
      assert OutputAt(k.script, p - 3, multi);
      if s.threads[t].pos > p + 1 {
        Separation(k, s, BLOCK, p + 1, t, 0);
      }
      assert false;
    }
  }

  /** Several column warps: while any consumer writes partial results or the output tile,
      no consumer reads Q, K or V, and whoever else is at work is at the same event, so the
      statistics and partial results are complete before anybody reads them. */
  lemma WriterAlone(k: Launch, tiles: seq<nat>, l: Layout, bytes: Bytes, s: State, t: nat, u: nat)
    requires IsFlash(k, tiles, l, bytes) && l.warpsN > 1 && Reachable(k, s)
    requires t < k.consumers && t < |s.threads| && Writing(k, s, t)
    requires u < k.consumers && u < |s.threads|
    ensures s.threads[t].pos - 1 <= s.threads[u].pos <= s.threads[t].pos + 1
    ensures s.threads[u].stage.Busy? ==> s.threads[u].pos == s.threads[t].pos
  {
    ReachableInv(k, s);
    FlashShape(k, tiles, l, bytes);
    WriterApart(k, s, t, u);
  }

  lemma WriterApart(k: Launch, s: State, t: nat, u: nat)
    requires Inv(k, s) && Shape(k.script, true) && t < k.consumers && u < k.consumers && Writing(k, s, t)
    ensures s.threads[t].pos - 1 <= s.threads[u].pos <= s.threads[t].pos + 1
    ensures s.threads[u].stage.Busy? ==> s.threads[u].pos == s.threads[t].pos
  {
    WriterBetween(k, s.threads[t].pos);
    BetweenBusy(k, s, s.threads[t].pos, t, u);
  }

  lemma WriterBetween(k: Launch, p: nat)
    requires Shape(k.script, true) && p < |k.script| && k.script[p] in {Work(SavePartial), Work(WriteOutput)}
    ensures 1 <= p && p + 1 < |k.script| && k.script[p - 1] == Sync(EPILOGUE) && k.script[p + 1] == Sync(EPILOGUE)
  {
    assert EventShape(k.script, p, true);
  }

  lemma BetweenBusy(k: Launch, s: State, p: nat, t: nat, u: nat)
    requires Inv(k, s) && t < k.consumers && u < k.consumers && s.threads[t].pos == p
    requires 1 <= p && p + 1 < |k.script| && k.script[p - 1] == Sync(EPILOGUE) && k.script[p + 1] == Sync(EPILOGUE)
    ensures p - 1 <= s.threads[u].pos <= p + 1
    ensures s.threads[u].stage.Busy? ==> s.threads[u].pos == p
  {
    Between(k, s, EPILOGUE, p - 1, p + 1, t, u);
    assert ThreadOk(k, u, s.threads[u]);
  }

  /** Warp wid, one of warpsM rows of warps, reads or writes element x of the output slots:
      its own rows of its own partial slot, or as a column-0 warp its own rows of every slot.
      owner gives the row of warps that works on an element of an output tile. */
  predicate Touches(l: Layout, owner: nat -> nat, warpsM: nat, job: Job, wid: nat, x: nat)
    requires 0 < warpsM && 0 < l.q
  {
    && owner(x % l.q) == wid % warpsM
    && match job
       case SavePartial => wid / warpsM == x / l.q + 1
       case WriteOutput => wid / warpsM == 0 && x / l.q < l.OSlots()
       case SaveStats => false
  }

  lemma SlotOf(l: Layout, slot: nat, x: nat)
    requires 0 < l.q
    ensures x / l.q == slot <==> ORegion(l, slot).start <= x < ORegion(l, slot).start + ORegion(l, slot).len
  {
    if ORegion(l, slot).start <= x < ORegion(l, slot).start + l.q { DivUnique(slot, l.q, x - slot * l.q); }
    DivMod(x, l.q);
  }

  /** Everything touched lies in the output slots. */
  lemma TouchesInside(l: Layout, owner: nat -> nat, warpsM: nat, job: Job, wid: nat, x: nat)
    requires 0 < warpsM && l.Ok() && wid / warpsM < l.warpsN && Touches(l, owner, warpsM, job, wid, x)
    ensures x / l.q < l.OSlots() && x < l.OSize() && x < l.QKVOSize()
    ensures ORegion(l, x / l.q).start <= x < ORegion(l, x / l.q).start + ORegion(l, x / l.q).len
  {
    SlotOf(l, x / l.q, x);
    MulLe(x / l.q + 1, l.OSlots(), l.q);
    MulDist(x / l.q, 1, l.q);
  }

  /** A warp of column 0 reads exactly the partial results of the warps of its row: each element
      it works on has been saved by one warp of another column, and it works on all they saved. */
  lemma PartialsRead(l: Layout, owner: nat -> nat, warpsM: nat, wid: nat, x: nat)
    requires 0 < warpsM && l.Ok() && 1 < l.warpsN && wid < warpsM
    ensures Touches(l, owner, warpsM, WriteOutput, wid, x) <==>
            exists w: nat :: w / warpsM < l.warpsN && w % warpsM == wid && Touches(l, owner, warpsM, SavePartial, w, x)
  {
    DivUnique(0, warpsM, wid);
    if Touches(l, owner, warpsM, WriteOutput, wid, x) {
      var w := (x / l.q + 1) * warpsM + wid;
      DivUnique(x / l.q + 1, warpsM, wid);
      assert Touches(l, owner, warpsM, SavePartial, w, x);
    }
  }

  /** Two warps at work on partial results or the output tile at the same time keep to
      different elements. */
  lemma WritersApart(k: Launch, tiles: seq<nat>, l: Layout, bytes: Bytes, s: State, t: nat, u: nat,
                     owner: nat -> nat, warpsM: nat, x: nat)
    requires IsFlash(k, tiles, l, bytes) && l.warpsN > 1 && Reachable(k, s) && 0 < warpsM
    requires t < k.consumers && t < |s.threads| && u < k.consumers && u < |s.threads| && t / WARP != u / WARP
    requires Writing(k, s, t) && Writing(k, s, u)
    ensures !(Touches(l, owner, warpsM, k.script[s.threads[t].pos].job, t / WARP, x)
              && Touches(l, owner, warpsM, k.script[s.threads[u].pos].job, u / WARP, x))
  {
    WriterAlone(k, tiles, l, bytes, s, t, u);
    DivMod(t / WARP, warpsM);
    DivMod(u / WARP, warpsM);
  }

  /** While any consumer saves its statistics, nobody reads statistics: whoever else is outside
      the rings is saving its own. */
  lemma StatsApart(k: Launch, tiles: seq<nat>, l: Layout, bytes: Bytes, s: State, t: nat, u: nat)
    requires IsFlash(k, tiles, l, bytes) && l.warpsN > 1 && Reachable(k, s)
    requires t < k.consumers && t < |s.threads| && u < k.consumers && u < |s.threads|
    requires s.threads[t].pos < |k.script| && k.script[s.threads[t].pos] == Work(SaveStats) && s.threads[t].stage.Busy?
    requires s.threads[u].pos < |k.script| && k.script[s.threads[u].pos].Work? && s.threads[u].stage.Busy?
    ensures s.threads[u].pos == s.threads[t].pos
  {
    ReachableInv(k, s);
    FlashShape(k, tiles, l, bytes);
    SameWork(k, s, t, u);
  }

  lemma SameWork(k: Launch, s: State, t: nat, u: nat)
    requires Inv(k, s) && Shape(k.script, true) && t < k.consumers && u < k.consumers
    requires s.threads[t].pos < |k.script| && k.script[s.threads[t].pos] == Work(SaveStats) && s.threads[t].stage.Busy?
    requires s.threads[u].pos < |k.script| && k.script[s.threads[u].pos].Work? && s.threads[u].stage.Busy?
    ensures s.threads[u].pos == s.threads[t].pos
  {
    var p, q := s.threads[t].pos, s.threads[u].pos;
    assert EventShape(k.script, p, true) && EventShape(k.script, q, true);
    if p < q { Separation(k, s, EPILOGUE, p + 1, u, t); }
    if q < p { Separation(k, s, EPILOGUE, q + 1, t, u); }
  }

  /** While the bulk store reads the output tile, every consumer has finished writing it,
      nobody touches the array, and no load of the next tile has started. */
  lemma StoreAlone(k: Launch, tiles: seq<nat>, l: Layout, bytes: Bytes, s: State) returns (w: nat)
    requires IsFlash(k, tiles, l, bytes) && Reachable(k, s) && s.stores > 0
    ensures Shaped(k, s) && s.stores == 1 && NoLoads(k, s)
    ensures w + 4 < |k.script| && k.script[w] == Work(WriteOutput) && k.script[w + 4] == Sync(BLOCK)
    ensures forall u | 0 <= u < k.consumers :: w < s.threads[u].pos <= w + 4 && !s.threads[u].stage.Busy?
    ensures s.threads[k.consumers].pos <= w + 4
  {
    ReachableInv(k, s);
    InvShaped(k, s);
    FlashShape(k, tiles, l, bytes);
    w := StoreOf(k, s, l.warpsN > 1);
    WriterLoadedAfter(k, s, l.warpsN > 1, w);
    forall u | 0 <= u < k.consumers ensures w < s.threads[u].pos <= w + 4 && !s.threads[u].stage.Busy? {
      AfterWrite(k, s, l.warpsN > 1, w, u);
    }
  }

  lemma StoreOf(k: Launch, s: State, multi: bool) returns (w: nat)
    requires Shape(k.script, multi) && 0 < s.stores && |s.threads| > 0 && s.threads[0].pos <= |k.script|
    requires s.stores <= k.Unwaited(s.threads[0].pos)
    ensures s.stores == 1 && OutputAt(k.script, w, multi) && s.threads[0].pos == w + 3
  {
    UnwaitedShort(k, multi, s.threads[0].pos);
    assert EventShape(k.script, s.threads[0].pos - 1, multi);
    w := s.threads[0].pos - 3;
  }

  lemma WriterLoadedAfter(k: Launch, s: State, multi: bool, w: nat)
    requires Inv(k, s) && Shaped(k, s) && |k.stages| > 0
    requires OutputAt(k.script, w, multi) && s.threads[0].pos == w + 3
    ensures NoLoads(k, s) && s.threads[k.consumers].pos <= w + 4
  {
    TileLoaded(k, s, 0, w, w + 4);
  }

  lemma AfterWrite(k: Launch, s: State, multi: bool, w: nat, u: nat)
    requires Inv(k, s) && OutputAt(k.script, w, multi) && s.threads[0].pos == w + 3 && u < k.consumers
    ensures w < s.threads[u].pos <= w + 4 && !s.threads[u].stage.Busy?
  {
    Separation(k, s, EPILOGUE, w + 1, 0, u);
    if s.threads[u].pos > w + 4 { Separation(k, s, BLOCK, w + 4, u, 0); }
    assert ThreadOk(k, u, s.threads[u]);
  }
}
