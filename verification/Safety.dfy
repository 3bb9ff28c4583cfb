/** Ring and barrier guarantees over all runs of a kernel. */
module Safety {
  import opened Barriers
  import opened Lanes
  import opened Machine
  import opened Invariant
  import opened Tiles

  datatype Content = Torn | Item(event: nat)

  /** What a thread sees in slot j of ring r. */
  ghost function Sees(s: State, r: nat, j: nat): Content
    requires r < |s.rings| && j < |s.rings[r]|
  {
    var slot := s.rings[r][j].slot;
    if slot.missing == 0 then Item(slot.item) else Torn
  }

  /** Throughout a consumer's read of its item, the slot holds exactly the item of that
      script event, completely landed; no byte is on the way to the slot and the producer
      has nothing left to issue to it. */
  lemma ReaderSeesItsItem(k: Launch, s: State, t: nat, r: nat)
    requires Reachable(k, s) && t < k.consumers && t < |s.threads| && r < |k.stages|
    requires s.threads[t].pos < |k.script| && k.Uses(r, s.threads[t].pos) && s.threads[t].stage.Busy?
    ensures Shaped(k, s)
    ensures var j := s.threads[t].pipes[r].index;
            && Sees(s, r, j) == Item(s.threads[t].pos)
            && s.rings[r][j].slot.inflight == 0
            && (k.Faces(r, j, s.threads[k.consumers].pos) && s.threads[k.consumers].stage.Issuing?
                ==> s.threads[k.consumers].stage.left == 0)
  {
    ReachableInv(k, s);
    InvShaped(k, s);
    var p, j := s.threads[t].pos, s.threads[t].pipes[r].index;
    AtItemFaces(k, s, t, r, j);
    var l, v := s.rings[r][j], ViewOf(k, s, r, j);
    ReaderAlone(l, v, t);
    assert IsFill(k, r, j, l.slot.item, l.full.done - 1);
    FillUnique(k, r, j, l.slot.item, p);
  }

  /** One phase bit stands for the round counter, consumer side: at every wait the full
      barrier has completed the awaited round number or one phase more, and the parity
      test passes exactly in the second case. */
  lemma ConsumerWaitExact(k: Launch, s: State, t: nat, r: nat)
    requires Reachable(k, s) && t < k.consumers && t < |s.threads| && r < |k.stages|
    requires s.threads[t].pos < |k.script| && k.Uses(r, s.threads[t].pos) && s.threads[t].stage.Ready?
    ensures Shaped(k, s)
    ensures var round := k.CursorAt(r, s.threads[t].pos).lap;
            var pipe := s.threads[t].pipes[r];
            var full := s.rings[r][pipe.index].full;
            && round <= full.done <= round + 1
            && (full.Passed(pipe.phase) <==> full.done == round + 1)
  {
    ReachableInv(k, s);
    InvShaped(k, s);
    var j := s.threads[t].pipes[r].index;
    AtItemFaces(k, s, t, r, j);
    ConsumerParityExact(s.rings[r][j], ViewOf(k, s, r, j), t, s.threads[t].pipes[r].phase);
  }

  /** Every consumer has released slot j of ring r at least `round` times. */
  ghost predicate ReleasedByAll(k: Launch, s: State, r: nat, j: nat, round: nat)
    requires Shaped(k, s) && r < |k.stages|
  {
    forall t | 0 <= t < k.consumers :: round <= k.Laps(r, j, s.threads[t].pos)
  }

  /** Producer side: the empty barrier has completed as many phases as the slot was filled
      before, or one less, and the parity test passes exactly in the first case, which
      means that every consumer has released the slot that often. */
  lemma ProducerWaitExact(k: Launch, s: State, r: nat)
    requires Reachable(k, s) && k.consumers < |s.threads| && r < |k.stages|
    requires s.threads[k.consumers].pos < |k.script| && k.Uses(r, s.threads[k.consumers].pos)
    requires s.threads[k.consumers].stage.Ready?
    ensures Shaped(k, s)
    ensures var round := k.CursorAt(r, s.threads[k.consumers].pos).lap;
            var pipe := s.threads[k.consumers].pipes[r];
            var empty := s.rings[r][pipe.index].empty;
            && round - 1 <= empty.done <= round
            && (empty.Passed(pipe.phase) <==> ReleasedByAll(k, s, r, pipe.index, round))
  {
    ReachableInv(k, s);
    InvShaped(k, s);
    ProducerWait(k, s, r, s.threads[k.consumers].pipes[r].index);
  }

  lemma ProducerWait(k: Launch, s: State, r: nat, j: nat)
    requires AtItem(k, s, k.consumers, r, j) && Shaped(k, s) && s.threads[k.consumers].stage.Ready?
    ensures var round := k.CursorAt(r, s.threads[k.consumers].pos).lap;
            var empty := s.rings[r][j].empty;
            && round - 1 <= empty.done <= round
            && (empty.Passed(s.threads[k.consumers].pipes[r].phase) <==> ReleasedByAll(k, s, r, j, round))
  {
    AtItemFaces(k, s, k.consumers, r, j);
    var v := ViewOf(k, s, r, j);
    ProducerParityExact(s.rings[r][j], v, s.threads[k.consumers].pipes[r].phase);
    AllTakes(k, s, r, j, v.puts);
  }

  lemma AllTakes(k: Launch, s: State, r: nat, j: nat, round: nat)
    requires Inv(k, s) && Shaped(k, s) && r < |k.stages|
    ensures ReleasedByAll(k, s, r, j, round) <==>
            forall t | 0 <= t < |ViewOf(k, s, r, j).takes| :: round <= ViewOf(k, s, r, j).takes[t]
  {
    var takes := ViewOf(k, s, r, j).takes;
    assert forall t | 0 <= t < k.consumers :: takes[t] == k.Laps(r, j, s.threads[t].pos);
  }

  /** No barrier ever receives more arrivals in a phase than it expects, and no thread
      arrives twice in one phase: a consumer about to release a slot and the producer about
      to announce its bytes find the open phase still waiting for them. */
  lemma NoOverArrival(k: Launch, s: State, t: nat, r: nat)
    requires Reachable(k, s) && t <= k.consumers && t < |s.threads| && r < |k.stages|
    requires s.threads[t].pos < |k.script| && k.Uses(r, s.threads[t].pos) && s.threads[t].stage.Busy?
    ensures Shaped(k, s)
    ensures var lane := s.rings[r][s.threads[t].pipes[r].index];
            if t < k.consumers then
              lane.empty.pending > 0 && lane.empty.done == k.CursorAt(r, s.threads[t].pos).lap
            else
              lane.full.pending == 1 && lane.full.tx == 0 && lane.full.done == k.CursorAt(r, s.threads[t].pos).lap
  {
    ReachableInv(k, s);
    InvShaped(k, s);
    var j := s.threads[t].pipes[r].index;
    AtItemFaces(k, s, t, r, j);
    var l, v := s.rings[r][j], ViewOf(k, s, r, j);
    if t < k.consumers {
      ReaderAlone(l, v, t);
    } else {
      var u := SomeoneBehind(l.empty, v.takes);
      assert v.Held(u) <= l.full.done;
    }
  }

  /** The same at the named barriers, for the consumers' and for the block-wide one. */
  lemma NoOverSync(k: Launch, s: State, t: nat, b: nat)
    requires Reachable(k, s) && b < 2 && t < k.Members(b) && t < |s.threads|
    requires s.threads[t].pos < |k.script| && k.script[s.threads[t].pos] == Sync(b) && s.threads[t].stage.Ready?
    ensures |s.bars| == 2 && s.bars[b].pending > 0 && s.bars[b].done == k.Syncs(b, s.threads[t].pos)
  {
    ReachableInv(k, s);
    assert MemberOk(k, s, b, t);
  }

  // ---- the stream of items each consumer reads, over a whole run ----

  /** The ring items of the script before event p, in order. */
  ghost function Stream(k: Launch, p: nat): seq<Content>
    requires p <= |k.script|
  {
    if p == 0 then [] else Stream(k, p - 1) + if k.script[p - 1].Xfer? then [Item(p - 1)] else []
  }

  /** What thread t sees while it reads the item it faces, if it is reading one. */
  ghost function ReadNow(k: Launch, s: State, t: nat): seq<Content>
    requires Shaped(k, s) && t < k.consumers
  {
    var th := s.threads[t];
    if th.pos < |k.script| && k.script[th.pos].Xfer? then
      [Sees(s, k.script[th.pos].ring, th.pipes[k.script[th.pos].ring].index)]
    else []
  }

  /** Everything thread t has read and released in the run. */
  ghost function ReadLog(k: Launch, run: seq<State>, t: nat): seq<Content>
    requires t < k.consumers && forall i | 0 <= i < |run| :: Shaped(k, run[i])
  {
    if |run| < 2 then [] else
    assert Shaped(k, run[|run| - 1]) && Shaped(k, run[|run| - 2]);
    var log := ReadLog(k, run[..|run| - 1], t);
    if run[|run| - 1].threads[t].pos == run[|run| - 2].threads[t].pos then log
    else log + ReadNow(k, run[|run| - 2], t)
  }

  lemma RunPrefix(k: Launch, run: seq<State>)
    requires IsRun(k, run) && 1 < |run|
    ensures IsRun(k, run[..|run| - 1]) && Next(k, run[|run| - 2], run[|run| - 1])
  {
    var before := run[..|run| - 1];
    assert forall i | 0 <= i < |before| :: before[i] == run[i];
    assert Next(k, run[|run| - 2], run[|run| - 2 + 1]);
  }

  lemma {:induction false} RunReachable(k: Launch, run: seq<State>, i: nat)
    requires IsRun(k, run) && i < |run|
    ensures Reachable(k, run[i]) && Inv(k, run[i]) && Shaped(k, run[i])
  {
    if i < |run| - 1 {
      RunPrefix(k, run);
      RunReachable(k, run[..|run| - 1], i);
    } else {
      ReachableInv(k, run[i]);
      InvShaped(k, run[i]);
    }
  }

  /** A consumer leaves a ring item only by releasing it. */
  ghost predicate Leaves(k: Launch, before: Thread, after: Thread) {
    after.pos != before.pos ==>
      && after.pos == before.pos + 1 <= |k.script|
      && (k.script[before.pos].Xfer? ==> before.stage.Busy?)
  }

  lemma MovesOn(k: Launch, s: State, s': State, t: nat)
    requires Inv(k, s) && Shaped(k, s) && Next(k, s, s') && t < k.consumers
    ensures |s'.threads| == |s.threads| && Leaves(k, s.threads[t], s'.threads[t])
  {
    var m :| Enabled(k, s, m) && s' == Apply(k, s, m);
    assert ThreadOk(k, t, s.threads[t]);
    if !(m.Go? && m.t == t) {
      OthersStay(k, s, m, t);
    } else {
      OwnMove(k, s, t, m.n);
    }
  }

  lemma OthersStay(k: Launch, s: State, m: Move, t: nat)
    requires Shaped(k, s) && Enabled(k, s, m) && t < k.Threads() && !(m.Go? && m.t == t)
    ensures |Apply(k, s, m).threads| == |s.threads| && Apply(k, s, m).threads[t] == s.threads[t]
  {
  }

  lemma OwnMove(k: Launch, s: State, t: nat, n: nat)
    requires Shaped(k, s) && Enabled(k, s, Go(t, n)) && t < k.consumers && ThreadOk(k, t, s.threads[t])
    ensures |Apply(k, s, Go(t, n)).threads| == |s.threads|
    ensures Leaves(k, s.threads[t], Apply(k, s, Go(t, n)).threads[t])
  {
  }

  /** What a consumer reads as it leaves an event is the next entry of the stream. */
  lemma ReadsNext(k: Launch, s: State, t: nat)
    requires Reachable(k, s) && Shaped(k, s) && t < k.consumers && s.threads[t].pos < |k.script|
    requires k.script[s.threads[t].pos].Xfer? ==> s.threads[t].stage.Busy?
    ensures Stream(k, s.threads[t].pos + 1) == Stream(k, s.threads[t].pos) + ReadNow(k, s, t)
  {
    if k.script[s.threads[t].pos].Xfer? {
      assert k.Ok();
      ReaderSeesItsItem(k, s, t, k.script[s.threads[t].pos].ring);
    }
  }

  lemma ReadStep(k: Launch, s: State, s': State, t: nat)
    requires Reachable(k, s) && Shaped(k, s) && t < k.consumers
    requires |s'.threads| == |s.threads| && Leaves(k, s.threads[t], s'.threads[t])
    ensures s'.threads[t].pos <= |k.script|
    ensures Stream(k, s'.threads[t].pos) ==
            Stream(k, s.threads[t].pos) + if s'.threads[t].pos == s.threads[t].pos then [] else ReadNow(k, s, t)
  {
    if s'.threads[t].pos != s.threads[t].pos { ReadsNext(k, s, t); }
  }

  /** In every run, what each consumer has read is exactly the producer's stream of items
      up to where the consumer stands: every item, once, in order, none of them torn. */
  lemma {:induction false} ReadsTheStream(k: Launch, run: seq<State>, t: nat)
    requires IsRun(k, run) && t < k.consumers
    ensures forall i | 0 <= i < |run| :: Shaped(k, run[i])
    ensures ReadLog(k, run, t) == Stream(k, run[|run| - 1].threads[t].pos)
  {
    forall i | 0 <= i < |run| ensures Shaped(k, run[i]) {
      RunReachable(k, run, i);
    }
    if 1 < |run| {
      RunPrefix(k, run);
      ReadsTheStream(k, run[..|run| - 1], t);
      RunReachable(k, run, |run| - 2);
      MovesOn(k, run[|run| - 2], run[|run| - 1], t);
      ReadStep(k, run[|run| - 2], run[|run| - 1], t);
    }
  }

  // ---- two ways to start the producer ----

  /** GEMM's producer counts the items it has loaded, starts its phase at 0, waits with the
      flipped phase, and does not wait at all before the first `stages` items. */
  ghost predicate GuardedStart(k: Launch, s: State, r: nat)
    requires Shaped(k, s) && r < |k.stages| && s.threads[k.consumers].pos <= |k.script|
  {
    var pipe := s.threads[k.consumers].pipes[r];
    var write := k.PipeAt(r, s.threads[k.consumers].pos, false);
    write.count >= k.stages[r] ==> s.rings[r][pipe.index].empty.Passed(1 - write.phase)
  }

  lemma LapsPassed(lap: nat, index: nat, stages: nat)
    requires index < stages
    ensures lap * stages + index >= stages <==> lap >= 1
  {
    if lap >= 1 { MulLe(1, lap, stages); }
  }

  lemma GuardExact(k: Launch, r: nat, p: nat)
    requires r < |k.stages| && p <= |k.script|
    ensures k.PipeAt(r, p, false).count >= k.stages[r] <==> k.CursorAt(r, p).lap >= 1
    ensures 1 - k.PipeAt(r, p, false).phase == k.PipeAt(r, p, true).phase
  {
    var c := k.CursorAt(r, p);
    LapsPassed(c.lap, c.index, k.stages[r]);
    assert (c.lap + 1) % 2 == 1 - c.lap % 2;
  }

  /** The guarded start lets the producer go exactly when the start with phase 1 does. */
  lemma StartsAgree(k: Launch, s: State, r: nat, n: nat)
    requires Inv(k, s) && Shaped(k, s) && r < |k.stages|
    requires s.threads[k.consumers].pos < |k.script| && k.Uses(r, s.threads[k.consumers].pos)
    requires s.threads[k.consumers].stage.Ready?
    ensures CanPut(k, s, k.consumers, r, n) <==> GuardedStart(k, s, r)
  {
    var th := s.threads[k.consumers];
    assert ThreadOk(k, k.consumers, th);
    AtItemFaces(k, s, k.consumers, r, th.pipes[r].index);
    ProducerParityExact(s.rings[r][th.pipes[r].index], ViewOf(k, s, r, th.pipes[r].index), th.pipes[r].phase);
    GuardExact(k, r, th.pos);
  }

  ghost predicate AtStart(k: Launch, s: State, m: Move)
    requires Shaped(k, s)
  {
    && m.Go? && m.t == k.consumers && s.threads[m.t].pos < |k.script|
    && k.script[s.threads[m.t].pos].Xfer? && s.threads[m.t].stage.Ready?
  }

  ghost predicate GuardedNext(k: Launch, s: State, s': State) {
    Shaped(k, s) && exists m ::
      if AtStart(k, s, m) then
        && GuardedStart(k, s, k.script[s.threads[m.t].pos].ring)
        && s' == s.WithThread(m.t, s.threads[m.t].(stage := Busy))
      else Enabled(k, s, m) && s' == Apply(k, s, m)
  }

  ghost predicate IsGuardedRun(k: Launch, run: seq<State>) {
    && 0 < |run| && run[0] == Init(k)
    && forall i | 0 <= i < |run| - 1 :: GuardedNext(k, run[i], run[i + 1])
  }

  lemma StepsAgree(k: Launch, s: State, s': State)
    requires Inv(k, s)
    ensures Next(k, s, s') <==> GuardedNext(k, s, s')
  {
    InvShaped(k, s);
    forall m: Move | AtStart(k, s, m)
      ensures Enabled(k, s, m) <==> GuardedStart(k, s, k.script[s.threads[m.t].pos].ring)
      ensures Enabled(k, s, m) ==> Apply(k, s, m) == s.WithThread(m.t, s.threads[m.t].(stage := Busy))
    {
      StartsAgree(k, s, k.script[s.threads[m.t].pos].ring, m.n);
    }
  }

  lemma GuardedPrefix(k: Launch, run: seq<State>)
    requires IsGuardedRun(k, run) && 1 < |run|
    ensures IsGuardedRun(k, run[..|run| - 1])
  {
    var before := run[..|run| - 1];
    forall i | 0 <= i < |before| - 1 ensures GuardedNext(k, before[i], before[i + 1]) {
      assert GuardedNext(k, run[i], run[i + 1]);
    }
  }

  lemma ExtendRun(k: Launch, run: seq<State>)
    requires 1 < |run| && IsRun(k, run[..|run| - 1])
    ensures IsRun(k, run) <==> Next(k, run[|run| - 2], run[|run| - 1])
  {
    var n, before := |run| - 2, run[..|run| - 1];
    if Next(k, run[n], run[n + 1]) {
      forall i | 0 <= i < |run| - 1 ensures Next(k, run[i], run[i + 1]) {
        if i < n { assert Next(k, before[i], before[i + 1]); }
      }
    }
  }

  lemma ExtendGuardedRun(k: Launch, run: seq<State>)
    requires 1 < |run| && IsGuardedRun(k, run[..|run| - 1])
    ensures IsGuardedRun(k, run) <==> GuardedNext(k, run[|run| - 2], run[|run| - 1])
  {
    var n, before := |run| - 2, run[..|run| - 1];
    assert run[n + 1] == run[|run| - 1];
    if GuardedNext(k, run[n], run[n + 1]) {
      forall i | 0 <= i < |run| - 1 ensures GuardedNext(k, run[i], run[i + 1]) {
        if i < n { assert GuardedNext(k, before[i], before[i + 1]); }
      }
    }
  }

  /** Both ways to start admit exactly the same runs. */
  lemma {:induction false} GuardedRunsAgree(k: Launch, run: seq<State>)
    ensures IsRun(k, run) <==> IsGuardedRun(k, run)
  {
    if 1 < |run| {
      var before := run[..|run| - 1];
      GuardedRunsAgree(k, before);
      if IsRun(k, before) {
        RunInv(k, before);
        StepsAgree(k, run[|run| - 2], run[|run| - 1]);
        ExtendRun(k, run);
        ExtendGuardedRun(k, run);
      } else {
        if IsRun(k, run) { RunPrefix(k, run); }
        if IsGuardedRun(k, run) { GuardedPrefix(k, run); }
      }
    }
  }

  // ---- barriers separate what lies before them from what lies after ----

  /** Once a member of barrier b has left its occurrence at event q, every other member has
      at least arrived there. */
  lemma Separation(k: Launch, s: State, b: nat, q: nat, t: nat, u: nat)
    requires Inv(k, s) && b < 2 && q < |k.script| && k.script[q] == Sync(b)
    requires t < k.Members(b) && u < k.Members(b) && s.threads[t].pos > q
    ensures s.threads[u].pos > q || (s.threads[u].pos == q && s.threads[u].stage.Arrived?)
  {
    assert MemberOk(k, s, b, t) && MemberOk(k, s, b, u);
    assert BarOk(k, s, b);
    var arr := Arrivals(k, s, b);
    assert s.bars[b].done <= arr[t] <= s.bars[b].done + 1 && s.bars[b].done <= arr[u];
    SyncsMonotone(k, b, q, s.threads[t].pos);
    var p := s.threads[u].pos;
    if p <= q {
      SyncsMonotone(k, b, p, q);
    }
  }

  /** While a member of barrier b is strictly between two of its occurrences, every other
      member is between them too, waiting at either end at most. */
  lemma Between(k: Launch, s: State, b: nat, before: nat, after: nat, t: nat, u: nat)
    requires Inv(k, s) && b < 2 && before < |k.script| && k.script[before] == Sync(b)
    requires after < |k.script| && k.script[after] == Sync(b)
    requires t < k.Members(b) && u < k.Members(b) && before < s.threads[t].pos < after
    ensures before <= s.threads[u].pos <= after
    ensures s.threads[u].pos == before ==> s.threads[u].stage.Arrived?
  {
    Separation(k, s, b, before, t, u);
    if s.threads[u].pos > after {
      Separation(k, s, b, after, u, t);
    }
  }

  // ---- how far the threads of a ring can be apart ----

  lemma {:induction false} LapsFlat(k: Launch, r: nat, j: nat, p: nat, q: nat)
    requires r < |k.stages| && j < k.stages[r] && p <= q <= |k.script|
    requires forall i | p <= i < q :: !k.Faces(r, j, i)
    ensures k.Laps(r, j, p) == k.Laps(r, j, q)
    decreases q - p
  {
    if p < q {
      LapsStep(k, r, j, p);
      LapsFlat(k, r, j, p + 1, q);
    }
  }

  /** Once a consumer is past a ring item, that item has landed, and every consumer is past
      all earlier items of the same slot. */
  lemma Lag(k: Launch, s: State, t: nat, u: nat, r: nat, j: nat, z: nat, y: nat)
    requires Inv(k, s) && t < k.consumers && u < k.consumers && r < |k.stages| && j < k.stages[r]
    requires k.Faces(r, j, z) && z < s.threads[t].pos
    ensures s.rings[r][j].full.done > k.CursorAt(r, z).lap
    ensures y < z && k.Faces(r, j, y) ==> y < s.threads[u].pos
  {
    assert LaneOk(k, s, r, j);
    var l, v := s.rings[r][j], ViewOf(k, s, r, j);
    LapsMonotone(k, r, j, z, s.threads[t].pos);
    assert v.Held(t) <= l.full.done && v.takes[t] == k.Laps(r, j, s.threads[t].pos);
    assert l.empty.done <= v.takes[u] == k.Laps(r, j, s.threads[u].pos);
    if y < z && k.Faces(r, j, y) {
      LapsMonotone(k, r, j, y, z);
      if s.threads[u].pos <= y { LapsMonotone(k, r, j, s.threads[u].pos, y); }
    }
  }

  /** If the producer has not left a stretch of the script without ring items, and one
      consumer has reached it, then every load is complete: nothing is on the way and the
      producer neither has nor can use a grant. */
  lemma LoadsLanded(k: Launch, s: State, t: nat, e: nat, end: nat, r: nat, j: nat)
    requires Inv(k, s) && t < k.consumers && r < |k.stages| && j < k.stages[r]
    requires e <= s.threads[t].pos && s.threads[k.consumers].pos <= end && e <= end < |k.script|
    requires forall i | e <= i <= end :: !k.script[i].Xfer?
    ensures Filled(s.rings[r][j], ViewOf(k, s, r, j)) && !ViewOf(k, s, r, j).grant.Granted?
    ensures s.rings[r][j].slot.inflight == 0 && s.rings[r][j].slot.missing == 0
  {
    assert LaneOk(k, s, r, j);
    var l, v, p := s.rings[r][j], ViewOf(k, s, r, j), s.threads[k.consumers].pos;
    LapsMonotone(k, r, j, e, s.threads[t].pos);
    assert v.Held(t) <= l.full.done && v.takes[t] == k.Laps(r, j, s.threads[t].pos);
    if e <= p {
      LapsFlat(k, r, j, e, p);
    } else {
      LapsMonotone(k, r, j, p, e);
    }
  }
}
