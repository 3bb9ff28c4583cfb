/** What every reachable state of a kernel satisfies. */
module Invariant {
  import opened Barriers
  import opened Lanes
  import opened Machine

  // ---- how the script's counters move ----

  lemma LapsStep(k: Launch, r: nat, j: nat, p: nat)
    requires r < |k.stages| && j < k.stages[r] && p < |k.script|
    ensures k.Laps(r, j, p + 1) == k.Laps(r, j, p) + if k.Faces(r, j, p) then 1 else 0
  {
  }

  lemma {:induction false} LapsMonotone(k: Launch, r: nat, j: nat, p: nat, q: nat)
    requires r < |k.stages| && j < k.stages[r] && p <= q <= |k.script|
    ensures k.Laps(r, j, p) <= k.Laps(r, j, q)
    ensures p < q && k.Faces(r, j, p) ==> k.Laps(r, j, p) < k.Laps(r, j, q)
    decreases q - p
  {
    if p < q {
      LapsStep(k, r, j, p);
      LapsMonotone(k, r, j, p + 1, q);
    }
  }

  lemma {:induction false} SyncsMonotone(k: Launch, b: nat, p: nat, q: nat)
    requires p <= q <= |k.script|
    ensures k.Syncs(b, p) <= k.Syncs(b, q)
    ensures p < q && k.script[p] == Sync(b) ==> k.Syncs(b, p) < k.Syncs(b, q)
    decreases q - p
  {
    if p < q {
      assert k.Syncs(b, p + 1) == k.Syncs(b, p) + if k.script[p] == Sync(b) then 1 else 0;
      SyncsMonotone(k, b, p + 1, q);
    }
  }

  /** A slot and a lap name one event of the script. */
  lemma FillUnique(k: Launch, r: nat, j: nat, p: nat, q: nat)
    requires r < |k.stages| && j < k.stages[r]
    requires k.Faces(r, j, p) && k.Faces(r, j, q) && k.CursorAt(r, p).lap == k.CursorAt(r, q).lap
    ensures p == q
  {
    if p < q {
      LapsMonotone(k, r, j, p, q);
    } else if q < p {
      LapsMonotone(k, r, j, q, p);
    }
  }

  lemma PipeStep(k: Launch, r: nat, p: nat, producer: bool)
    requires r < |k.stages| && p < |k.script|
    ensures k.Uses(r, p) ==> k.PipeAt(r, p + 1, producer) == k.PipeAt(r, p, producer).Next(k.stages[r])
    ensures !k.Uses(r, p) ==> k.PipeAt(r, p + 1, producer) == k.PipeAt(r, p, producer)
  {
    var c := k.CursorAt(r, p);
    assert (c.lap + 1) * k.stages[r] == c.lap * k.stages[r] + k.stages[r];
  }

  // ---- the invariant ----

  ghost predicate ThreadOk(k: Launch, t: nat, th: Thread) {
    && th.pos <= |k.script|
    && (th.pos == |k.script| ==> th.stage.Ready?)
    && (t <= k.consumers ==> |th.pipes| == |k.stages|)
    && (t <= k.consumers ==> forall r | 0 <= r < |k.stages| :: th.pipes[r] == k.PipeAt(r, th.pos, t == k.consumers))
    && match th.stage
       case Ready => true
       case Busy => (k.script[th.pos].Xfer? && t <= k.consumers) || (k.script[th.pos].Work? && t < k.consumers)
       case Issuing(left) => k.script[th.pos].Xfer? && t == k.consumers
       case Arrived(_) => k.script[th.pos].Sync? && t < k.Members(k.script[th.pos].bar)
  }

  ghost predicate ThreadsOk(k: Launch, s: State) {
    |s.threads| == k.Threads() && forall t | 0 <= t < |s.threads| :: ThreadOk(k, t, s.threads[t])
  }

  ghost predicate Reading(k: Launch, th: Thread, r: nat, j: nat)
    requires r < |k.stages|
  {
    k.Faces(r, j, th.pos) && th.stage.Busy?
  }

  ghost function GrantOf(k: Launch, th: Thread, r: nat, j: nat): Grant
    requires r < |k.stages|
  {
    if !k.Faces(r, j, th.pos) then Closed
    else match th.stage
      case Busy => Granted
      case Issuing(left) => Grant.Open(left)
      case _ => Closed
  }

  ghost function ViewOf(k: Launch, s: State, r: nat, j: nat): View
    requires ThreadsOk(k, s) && r < |k.stages|
  {
    View(k.Laps(r, j, s.threads[k.consumers].pos),
         GrantOf(k, s.threads[k.consumers], r, j),
         seq(k.consumers, t requires 0 <= t < k.consumers => k.Laps(r, j, s.threads[t].pos)),
         seq(k.consumers, t requires 0 <= t < k.consumers => Reading(k, s.threads[t], r, j)))
  }

  /** p is the event that makes fill number `lap` of slot j of ring r. */
  ghost predicate IsFill(k: Launch, r: nat, j: nat, p: nat, lap: nat)
    requires r < |k.stages|
  {
    k.Faces(r, j, p) && k.CursorAt(r, p).lap == lap
  }

  /** The slot holds the item its full barrier says it holds. */
  ghost predicate ItemOk(k: Launch, r: nat, j: nat, l: Lane)
    requires r < |k.stages|
  {
    if l.slot.missing > 0 then IsFill(k, r, j, l.slot.item, l.full.done)
    else l.full.done > 0 ==> IsFill(k, r, j, l.slot.item, l.full.done - 1)
  }

  ghost predicate LaneOk(k: Launch, s: State, r: nat, j: nat)
    requires ThreadsOk(k, s) && r < |k.stages| && r < |s.rings| && j < |s.rings[r]|
  {
    LaneInv(s.rings[r][j], ViewOf(k, s, r, j)) && ItemOk(k, r, j, s.rings[r][j])
  }

  ghost predicate LanesOk(k: Launch, s: State)
    requires ThreadsOk(k, s)
  {
    && |s.rings| == |k.stages|
    && (forall r | 0 <= r < |k.stages| :: |s.rings[r]| == k.stages[r])
    && forall r, j | 0 <= r < |k.stages| && 0 <= j < k.stages[r] :: LaneOk(k, s, r, j)
  }

  ghost predicate AtBar(k: Launch, th: Thread, b: nat)
    requires th.pos <= |k.script|
  {
    th.stage.Arrived? && th.pos < |k.script| && k.script[th.pos] == Sync(b)
  }

  ghost function Arrivals(k: Launch, s: State, b: nat): seq<nat>
    requires ThreadsOk(k, s)
  {
    seq(k.Members(b), t requires 0 <= t < k.Members(b) =>
      k.Syncs(b, s.threads[t].pos) + if AtBar(k, s.threads[t], b) then 1 else 0)
  }

  ghost predicate MemberOk(k: Launch, s: State, b: nat, t: nat)
    requires ThreadsOk(k, s) && |s.bars| == 2 && b < 2 && t < k.Members(b)
  {
    var n := k.Syncs(b, s.threads[t].pos);
    if AtBar(k, s.threads[t], b) then s.threads[t].stage.token == n % 2 && s.bars[b].done <= n + 1
    else s.bars[b].done == n
  }

  ghost predicate BarOk(k: Launch, s: State, b: nat)
    requires ThreadsOk(k, s) && |s.bars| == 2 && b < 2
  {
    && Rounds(s.bars[b], Arrivals(k, s, b))
    && forall t | 0 <= t < k.Members(b) :: MemberOk(k, s, b, t)
  }

  ghost predicate BarsOk(k: Launch, s: State)
    requires ThreadsOk(k, s)
  {
    |s.bars| == 2 && BarOk(k, s, 0) && BarOk(k, s, 1)
  }

  ghost predicate Inv(k: Launch, s: State) {
    && ThreadsOk(k, s) && LanesOk(k, s) && BarsOk(k, s)
    && s.stores <= k.Unwaited(s.threads[0].pos)
  }

  lemma InvShaped(k: Launch, s: State)
    requires Inv(k, s)
    ensures Shaped(k, s)
  {
    forall t, r | 0 <= t <= k.consumers && 0 <= r < |k.stages|
      ensures s.threads[t].pipes[r].index < k.stages[r]
    {
      assert ThreadOk(k, t, s.threads[t]);
    }
  }

  // ---- preservation ----

  /** Thread t's change is invisible from slot j of ring r. */
  ghost predicate SameFace(k: Launch, t: nat, th: Thread, th': Thread, r: nat, j: nat)
    requires r < |k.stages| && th.pos <= |k.script| && th'.pos <= |k.script|
  {
    t <= k.consumers ==>
      && k.Laps(r, j, th.pos) == k.Laps(r, j, th'.pos)
      && Reading(k, th, r, j) == Reading(k, th', r, j)
      && GrantOf(k, th, r, j) == GrantOf(k, th', r, j)
  }

  ghost predicate OnlyThread(s: State, s': State, t: nat) {
    t < |s.threads| == |s'.threads| && s'.threads == s.threads[t := s'.threads[t]]
  }

  lemma SameView(k: Launch, s: State, s': State, t: nat, r: nat, j: nat)
    requires ThreadsOk(k, s) && ThreadsOk(k, s') && r < |k.stages| && j < k.stages[r]
    requires OnlyThread(s, s', t) && SameFace(k, t, s.threads[t], s'.threads[t], r, j)
    ensures ViewOf(k, s', r, j) == ViewOf(k, s, r, j)
  {
    var v, w := ViewOf(k, s, r, j), ViewOf(k, s', r, j);
    assert forall u | 0 <= u < k.consumers :: v.takes[u] == w.takes[u] && v.reading[u] == w.reading[u];
    assert v.takes == w.takes && v.reading == w.reading;
  }

  /** A thread step that touches at most slot j0 of ring r0 keeps all lanes if it keeps that one. */
  lemma LanesFrame(k: Launch, s: State, s': State, t: nat, r0: nat, j0: nat)
    requires ThreadsOk(k, s) && ThreadsOk(k, s') && LanesOk(k, s)
    requires OnlyThread(s, s', t)
    requires |s'.rings| == |s.rings| && forall r | 0 <= r < |s.rings| :: |s'.rings[r]| == |s.rings[r]|
    requires forall r, j | 0 <= r < |k.stages| && 0 <= j < k.stages[r] && (r, j) != (r0, j0) ::
               s'.rings[r][j] == s.rings[r][j] && SameFace(k, t, s.threads[t], s'.threads[t], r, j)
    requires r0 < |k.stages| && j0 < k.stages[r0] ==> LaneOk(k, s', r0, j0)
    ensures LanesOk(k, s')
  {
    forall r, j | 0 <= r < |k.stages| && 0 <= j < k.stages[r] && (r, j) != (r0, j0)
      ensures LaneOk(k, s', r, j)
    {
      SameView(k, s, s', t, r, j);
      assert LaneOk(k, s, r, j);
    }
  }

  /** Thread t's change leaves its account at the barriers as it was. */
  lemma BarFrame(k: Launch, s: State, s': State, t: nat, b: nat)
    requires ThreadsOk(k, s) && ThreadsOk(k, s') && |s.bars| == 2 == |s'.bars| && b < 2 && BarOk(k, s, b)
    requires OnlyThread(s, s', t) && s'.bars[b] == s.bars[b]
    requires t < k.Members(b) ==>
               && k.Syncs(b, s.threads[t].pos) == k.Syncs(b, s'.threads[t].pos)
               && AtBar(k, s.threads[t], b) == AtBar(k, s'.threads[t], b) == false
    ensures BarOk(k, s', b)
  {
    assert forall u | 0 <= u < k.Members(b) :: MemberOk(k, s, b, u) ==> MemberOk(k, s', b, u);
    assert Arrivals(k, s', b) == Arrivals(k, s, b);
  }

  /** Steps that only move thread t on: no lane, barrier or ring state is involved. */
  lemma PassKeeps(k: Launch, s: State, s': State, t: nat)
    requires Inv(k, s) && t < |s.threads| && s.threads[t].pos < |k.script|
    requires s' == s.WithThread(t, s.threads[t].Pass()).(stores := s'.stores)
    requires var e := k.script[s.threads[t].pos];
             || e.Work? || e.StoreIssue? || e.StoreWait?
             || (e.Xfer? && t > k.consumers)
             || (e.Sync? && t >= k.Members(e.bar))
    requires s'.stores <= k.Unwaited(s'.threads[0].pos)
    ensures Inv(k, s')
  {
    var th, th' := s.threads[t], s'.threads[t];
    assert ThreadOk(k, t, th);
    forall r | 0 <= r < |k.stages| && t <= k.consumers ensures th'.pipes[r] == k.PipeAt(r, th'.pos, t == k.consumers) {
      PipeStep(k, r, th.pos, t == k.consumers);
    }
    assert ThreadsOk(k, s');
    forall r, j | 0 <= r < |k.stages| && 0 <= j < k.stages[r] ensures SameFace(k, t, th, th', r, j) {
      if t <= k.consumers { LapsStep(k, r, j, th.pos); }
    }
    LanesFrame(k, s, s', t, |k.stages|, 0);
    forall b: nat | b < 2 ensures BarOk(k, s', b) {
      assert k.Syncs(b, th'.pos) == k.Syncs(b, th.pos) + if k.script[th.pos] == Sync(b) then 1 else 0;
      BarFrame(k, s, s', t, b);
    }
  }

  /** A step that changes only thread t's stage, at an event that is not a barrier, and
      nothing but slot j0 of ring r0. */
  lemma StageKeeps(k: Launch, s: State, s': State, t: nat, r0: nat, j0: nat)
    requires Inv(k, s) && OnlyThread(s, s', t) && s'.bars == s.bars && s'.stores == s.stores
    requires ThreadOk(k, t, s'.threads[t]) && s'.threads[t].pos == s.threads[t].pos < |k.script|
    requires !k.script[s.threads[t].pos].Sync?
    requires |s'.rings| == |s.rings| && forall r | 0 <= r < |s.rings| :: |s'.rings[r]| == |s.rings[r]|
    requires forall r, j | 0 <= r < |k.stages| && 0 <= j < k.stages[r] && (r, j) != (r0, j0) ::
               s'.rings[r][j] == s.rings[r][j] && SameFace(k, t, s.threads[t], s'.threads[t], r, j)
    requires ThreadsOk(k, s') && r0 < |k.stages| && j0 < k.stages[r0] ==> LaneOk(k, s', r0, j0)
    ensures Inv(k, s')
  {
    assert ThreadOk(k, t, s.threads[t]);
    assert ThreadsOk(k, s');
    LanesFrame(k, s, s', t, r0, j0);
    BarFrame(k, s, s', t, 0);
    BarFrame(k, s, s', t, 1);
  }

  lemma RingPassOk(k: Launch, t: nat, th: Thread, r0: nat)
    requires ThreadOk(k, t, th) && t <= k.consumers && r0 < |k.stages| && th.pos < |k.script| && k.Uses(r0, th.pos)
    ensures ThreadOk(k, t, th.PassRing(r0, k.stages[r0]))
  {
    var th' := th.PassRing(r0, k.stages[r0]);
    forall r | 0 <= r < |k.stages| ensures th'.pipes[r] == k.PipeAt(r, th'.pos, t == k.consumers) {
      PipeStep(k, r, th.pos, t == k.consumers);
    }
  }

  /** A step with which thread t finishes a ring item, changing only slot j0 of ring r0. */
  lemma PassRingKeeps(k: Launch, s: State, s': State, t: nat, r0: nat, j0: nat)
    requires Inv(k, s) && OnlyThread(s, s', t) && s'.bars == s.bars && s'.stores == s.stores
    requires t <= k.consumers && r0 < |k.stages| && k.Faces(r0, j0, s.threads[t].pos)
    requires s'.threads[t] == s.threads[t].PassRing(r0, k.stages[r0])
    requires |s'.rings| == |s.rings| && forall r | 0 <= r < |s.rings| :: |s'.rings[r]| == |s.rings[r]|
    requires forall r, j | 0 <= r < |k.stages| && 0 <= j < k.stages[r] && (r, j) != (r0, j0) ::
               s'.rings[r][j] == s.rings[r][j]
    requires ThreadsOk(k, s') ==> LaneOk(k, s', r0, j0)
    ensures Inv(k, s')
  {
    var th, th' := s.threads[t], s'.threads[t];
    RingPassOk(k, t, th, r0);
    assert ThreadsOk(k, s');
    forall r, j | 0 <= r < |k.stages| && 0 <= j < k.stages[r] && (r, j) != (r0, j0)
      ensures SameFace(k, t, th, th', r, j)
    {
      LapsStep(k, r, j, th.pos);
    }
    LanesFrame(k, s, s', t, r0, j0);
    assert forall b: nat | b < 2 :: k.Syncs(b, th'.pos) == k.Syncs(b, th.pos);
    BarFrame(k, s, s', t, 0);
    BarFrame(k, s, s', t, 1);
  }

  /** The view of the slot a consumer faces, after the consumer changed. */
  lemma ConsumerView(k: Launch, s: State, s': State, t: nat, r: nat, j: nat)
    requires ThreadsOk(k, s) && ThreadsOk(k, s') && r < |k.stages| && j < k.stages[r]
    requires t < k.consumers && OnlyThread(s, s', t)
    ensures ViewOf(k, s', r, j) == ViewOf(k, s, r, j).(
              takes := ViewOf(k, s, r, j).takes[t := k.Laps(r, j, s'.threads[t].pos)],
              reading := ViewOf(k, s, r, j).reading[t := Reading(k, s'.threads[t], r, j)])
  {
    var v, w := ViewOf(k, s, r, j), ViewOf(k, s', r, j);
    assert w.takes == v.takes[t := k.Laps(r, j, s'.threads[t].pos)];
    assert w.reading == v.reading[t := Reading(k, s'.threads[t], r, j)];
  }

  lemma ProducerView(k: Launch, s: State, s': State, r: nat, j: nat)
    requires ThreadsOk(k, s) && ThreadsOk(k, s') && r < |k.stages| && j < k.stages[r]
    requires OnlyThread(s, s', k.consumers)
    ensures ViewOf(k, s', r, j) == ViewOf(k, s, r, j).(
              puts := k.Laps(r, j, s'.threads[k.consumers].pos),
              grant := GrantOf(k, s'.threads[k.consumers], r, j))
  {
    var v, w := ViewOf(k, s, r, j), ViewOf(k, s', r, j);
    assert w.takes == v.takes;
    assert w.reading == v.reading;
  }

  /** Thread t <= consumers is at a ring item and its pipeline state names the slot. */
  ghost predicate AtItem(k: Launch, s: State, t: nat, r: nat, j: nat) {
    && Inv(k, s) && t <= k.consumers && r < |k.stages|
    && s.threads[t].pos < |k.script| && k.Uses(r, s.threads[t].pos)
    && j == s.threads[t].pipes[r].index
  }

  lemma AtItemFaces(k: Launch, s: State, t: nat, r: nat, j: nat)
    requires AtItem(k, s, t, r, j)
    ensures j < k.stages[r] && k.Faces(r, j, s.threads[t].pos) && LaneOk(k, s, r, j)
    ensures k.Laps(r, j, s.threads[t].pos) == k.CursorAt(r, s.threads[t].pos).lap
    ensures k.Laps(r, j, s.threads[t].pos + 1) == k.Laps(r, j, s.threads[t].pos) + 1
    ensures s.threads[t].pipes[r].phase == (k.Laps(r, j, s.threads[t].pos) + if t == k.consumers then 1 else 0) % 2
    ensures forall q, i | (q, i) != (r, j) ::
              0 <= q < |k.stages| && 0 <= i < k.stages[q] ==> !k.Faces(q, i, s.threads[t].pos)
  {
    assert ThreadOk(k, t, s.threads[t]);
    LapsStep(k, r, j, s.threads[t].pos);
  }

  /** Changing the stage of the thread at (r, j) is invisible from every other slot. */
  lemma ElsewhereSame(k: Launch, s: State, t: nat, r: nat, j: nat, stage: Stage)
    requires AtItem(k, s, t, r, j)
    ensures forall q, i | 0 <= q < |k.stages| && 0 <= i < k.stages[q] && (q, i) != (r, j) ::
              SameFace(k, t, s.threads[t], s.threads[t].(stage := stage), q, i)
  {
    AtItemFaces(k, s, t, r, j);
  }

  lemma WaitStepKeeps(k: Launch, s: State, t: nat, r: nat, j: nat)
    requires AtItem(k, s, t, r, j) && t < k.consumers && s.threads[t].stage.Ready?
    requires j < k.stages[r] && s.rings[r][j].full.Passed(s.threads[t].pipes[r].phase)
    ensures Inv(k, s.WithThread(t, s.threads[t].(stage := Busy)))
  {
    var s' := s.WithThread(t, s.threads[t].(stage := Busy));
    AtItemFaces(k, s, t, r, j);
    assert ThreadOk(k, t, s.threads[t]);
    assert ThreadOk(k, t, s'.threads[t]);
    assert ThreadsOk(k, s');
    var v := ViewOf(k, s, r, j);
    WaitKeeps(s.rings[r][j], v, t, s.threads[t].pipes[r].phase);
    ConsumerView(k, s, s', t, r, j);
    assert ViewOf(k, s', r, j).takes == v.takes;
    ElsewhereSame(k, s, t, r, j, Busy);
    StageKeeps(k, s, s', t, r, j);
  }

  lemma ReleasedLane(k: Launch, s: State, s': State, t: nat, r: nat, j: nat)
    requires AtItem(k, s, t, r, j) && t < k.consumers && s.threads[t].stage.Busy? && j < k.stages[r]
    requires s' == s.WithLane(r, j, s.rings[r][j].Release()).WithThread(t, s.threads[t].PassRing(r, k.stages[r]))
    requires ThreadsOk(k, s')
    ensures LaneOk(k, s', r, j)
  {
    AtItemFaces(k, s, t, r, j);
    var v := ViewOf(k, s, r, j);
    ReleaseKeeps(s.rings[r][j], v, t);
    ReleasedView(k, s, s', t, r, j);
    assert ItemOk(k, r, j, s.rings[r][j]);
  }

  lemma ReleasedView(k: Launch, s: State, s': State, t: nat, r: nat, j: nat)
    requires ThreadsOk(k, s) && ThreadsOk(k, s') && r < |k.stages| && j < k.stages[r]
    requires t < k.consumers && OnlyThread(s, s', t) && k.Faces(r, j, s.threads[t].pos)
    requires s'.threads[t].pos == s.threads[t].pos + 1 && s'.threads[t].stage.Ready?
    ensures var v := ViewOf(k, s, r, j);
            ViewOf(k, s', r, j) == v.(takes := v.takes[t := v.takes[t] + 1], reading := v.reading[t := false])
  {
    ConsumerView(k, s, s', t, r, j);
    LapsStep(k, r, j, s.threads[t].pos);
  }

  lemma ReleaseStepKeeps(k: Launch, s: State, t: nat, r: nat, j: nat)
    requires AtItem(k, s, t, r, j) && t < k.consumers && s.threads[t].stage.Busy? && j < k.stages[r]
    ensures Inv(k, s.WithLane(r, j, s.rings[r][j].Release()).WithThread(t, s.threads[t].PassRing(r, k.stages[r])))
  {
    var s' := s.WithLane(r, j, s.rings[r][j].Release()).WithThread(t, s.threads[t].PassRing(r, k.stages[r]));
    AtItemFaces(k, s, t, r, j);
    if ThreadsOk(k, s') { ReleasedLane(k, s, s', t, r, j); }
    PassRingKeeps(k, s, s', t, r, j);
  }

  lemma TakeKeeps(k: Launch, s: State, t: nat, r: nat)
    requires Inv(k, s) && Shaped(k, s) && t < k.consumers && r < |k.stages|
    requires s.threads[t].pos < |k.script| && k.Uses(r, s.threads[t].pos)
    requires CanTake(k, s, t, r)
    ensures Inv(k, Take(k, s, t, r))
  {
    var j := s.threads[t].pipes[r].index;
    assert ThreadOk(k, t, s.threads[t]);
    if s.threads[t].stage.Ready? {
      WaitStepKeeps(k, s, t, r, j);
    } else {
      ReleaseStepKeeps(k, s, t, r, j);
    }
  }

  /** The producer at (r, j) changes its stage, and the slot along with it. */
  lemma ProducerStageKeeps(k: Launch, s: State, r: nat, j: nat, stage: Stage, l: Lane)
    requires AtItem(k, s, k.consumers, r, j) && j < k.stages[r]
    requires stage.Busy? || stage.Issuing?
    requires LaneInv(l, ViewOf(k, s, r, j).(
               grant := if stage.Issuing? then Grant.Open(stage.left) else Granted))
    requires ItemOk(k, r, j, l)
    ensures Inv(k, s.WithLane(r, j, l).WithThread(k.consumers, s.threads[k.consumers].(stage := stage)))
  {
    var t := k.consumers;
    var s' := s.WithLane(r, j, l).WithThread(t, s.threads[t].(stage := stage));
    AtItemFaces(k, s, t, r, j);
    assert ThreadOk(k, t, s.threads[t]);
    assert ThreadOk(k, t, s'.threads[t]);
    assert ThreadsOk(k, s');
    ProducerView(k, s, s', r, j);
    ElsewhereSame(k, s, t, r, j, stage);
    StageKeeps(k, s, s', t, r, j);
  }

  lemma PutPassKeeps(k: Launch, s: State, r: nat, j: nat)
    requires AtItem(k, s, k.consumers, r, j) && s.threads[k.consumers].stage == Issuing(0)
    ensures Inv(k, s.WithThread(k.consumers, s.threads[k.consumers].PassRing(r, k.stages[r])))
  {
    var t := k.consumers;
    var s' := s.WithThread(t, s.threads[t].PassRing(r, k.stages[r]));
    AtItemFaces(k, s, t, r, j);
    PutKeeps(s.rings[r][j], ViewOf(k, s, r, j));
    if ThreadsOk(k, s') {
      ProducerView(k, s, s', r, j);
    }
    PassRingKeeps(k, s, s', t, r, j);
  }

  lemma GrantStepKeeps(k: Launch, s: State, r: nat, j: nat)
    requires AtItem(k, s, k.consumers, r, j) && j < k.stages[r] && s.threads[k.consumers].stage.Ready?
    requires s.rings[r][j].empty.Passed(s.threads[k.consumers].pipes[r].phase)
    ensures Inv(k, s.WithThread(k.consumers, s.threads[k.consumers].(stage := Busy)))
  {
    AtItemFaces(k, s, k.consumers, r, j);
    var l := s.rings[r][j];
    GrantKeeps(l, ViewOf(k, s, r, j), s.threads[k.consumers].pipes[r].phase);
    ProducerStageKeeps(k, s, r, j, Busy, l);
    assert s.rings[r][j := l] == s.rings[r];
    assert s.WithLane(r, j, l) == s;
  }

  lemma ExpectStepKeeps(k: Launch, s: State, r: nat, j: nat, bytes: nat)
    requires AtItem(k, s, k.consumers, r, j) && j < k.stages[r] && s.threads[k.consumers].stage.Busy? && 0 < bytes
    ensures Inv(k, s.WithLane(r, j, s.rings[r][j].Expect(bytes))
                    .WithThread(k.consumers, s.threads[k.consumers].(stage := Issuing(bytes))))
  {
    AtItemFaces(k, s, k.consumers, r, j);
    var l := s.rings[r][j];
    ExpectKeeps(l, ViewOf(k, s, r, j), bytes);
    assert ItemOk(k, r, j, l.Expect(bytes));
    ProducerStageKeeps(k, s, r, j, Issuing(bytes), l.Expect(bytes));
  }

  lemma IssueStepKeeps(k: Launch, s: State, r: nat, j: nat, n: nat)
    requires AtItem(k, s, k.consumers, r, j) && j < k.stages[r]
    requires s.threads[k.consumers].stage.Issuing? && 0 < n <= s.threads[k.consumers].stage.left
    ensures var th := s.threads[k.consumers];
            Inv(k, s.WithLane(r, j, s.rings[r][j].Issue(th.pos, th.stage.left, n))
                    .WithThread(k.consumers, th.(stage := Issuing(th.stage.left - n))))
  {
    AtItemFaces(k, s, k.consumers, r, j);
    var l, th, v := s.rings[r][j], s.threads[k.consumers], ViewOf(k, s, r, j);
    IssueKeeps(l, v, th.pos, n);
    assert IsFill(k, r, j, th.pos, l.full.done);
    ProducerStageKeeps(k, s, r, j, Issuing(th.stage.left - n), l.Issue(th.pos, th.stage.left, n));
  }

  lemma PutStepKeeps(k: Launch, s: State, r: nat, n: nat)
    requires Inv(k, s) && Shaped(k, s) && r < |k.stages|
    requires s.threads[k.consumers].pos < |k.script| && k.Uses(r, s.threads[k.consumers].pos)
    requires CanPut(k, s, k.consumers, r, n)
    ensures Inv(k, Put(k, s, k.consumers, r, k.script[s.threads[k.consumers].pos].bytes, n))
  {
    var th := s.threads[k.consumers];
    var j := th.pipes[r].index;
    assert ThreadOk(k, k.consumers, th);
    match th.stage
    case Ready => GrantStepKeeps(k, s, r, j);
    case Busy => ExpectStepKeeps(k, s, r, j, k.script[th.pos].bytes);
    case Issuing(left) =>
      if left > 0 {
        IssueStepKeeps(k, s, r, j, n);
      } else {
        PutPassKeeps(k, s, r, j);
      }
  }

  lemma LandStepKeeps(k: Launch, s: State, r: nat, j: nat, n: nat)
    requires Inv(k, s) && r < |k.stages| && j < k.stages[r] && 0 < n <= s.rings[r][j].slot.inflight
    ensures Inv(k, s.WithLane(r, j, s.rings[r][j].Land(n)))
  {
    var s' := s.WithLane(r, j, s.rings[r][j].Land(n));
    assert LaneOk(k, s, r, j);
    LandKeeps(s.rings[r][j], ViewOf(k, s, r, j), n);
    forall q, i | 0 <= q < |k.stages| && 0 <= i < k.stages[q] ensures LaneOk(k, s', q, i) {
      assert ViewOf(k, s', q, i) == ViewOf(k, s, q, i);
      assert LaneOk(k, s, q, i);
    }
    forall b: nat | b < 2 ensures BarOk(k, s', b) {
      assert Arrivals(k, s', b) == Arrivals(k, s, b);
      assert forall u | 0 <= u < k.Members(b) :: MemberOk(k, s, b, u) ==> MemberOk(k, s', b, u);
    }
  }

  // ---- barriers ----

  lemma ArriveBar(k: Launch, s: State, s': State, t: nat, b: nat)
    requires ThreadsOk(k, s) && ThreadsOk(k, s') && OnlyThread(s, s', t)
    requires |s.bars| == 2 == |s'.bars| && b < 2 && BarOk(k, s, b)
    requires t < k.Members(b) && s.threads[t].pos < |k.script| && k.script[s.threads[t].pos] == Sync(b)
    requires s.threads[t].stage.Ready?
    requires s'.threads[t] == s.threads[t].(stage := Arrived(s.bars[b].bit))
    requires s'.bars[b] == s.bars[b].Arrive()
    ensures BarOk(k, s', b)
  {
    assert MemberOk(k, s, b, t);
    var arr := Arrivals(k, s, b);
    ArriveKeepsRounds(s.bars[b], arr, t);
    var arr' := arr[t := arr[t] + 1];
    assert Arrivals(k, s', b) == arr';
    forall u | 0 <= u < k.Members(b) ensures MemberOk(k, s', b, u) {
      assert MemberOk(k, s, b, u);
      assert s'.bars[b].done <= arr'[u] <= s'.bars[b].done + 1;
    }
  }

  lemma LeaveBar(k: Launch, s: State, s': State, t: nat, b: nat)
    requires ThreadsOk(k, s) && ThreadsOk(k, s') && OnlyThread(s, s', t)
    requires |s.bars| == 2 && s'.bars == s.bars && b < 2 && BarOk(k, s, b)
    requires t < k.Members(b) && s.threads[t].pos < |k.script| && k.script[s.threads[t].pos] == Sync(b)
    requires s.threads[t].stage.Arrived? && s.bars[b].Passed(s.threads[t].stage.token)
    requires s'.threads[t] == s.threads[t].Pass()
    ensures BarOk(k, s', b)
  {
    assert MemberOk(k, s, b, t);
    var arr := Arrivals(k, s, b);
    assert s.bars[b].done <= arr[t] <= s.bars[b].done + 1;
    assert k.Syncs(b, s.threads[t].pos + 1) == k.Syncs(b, s.threads[t].pos) + 1 == arr[t];
    assert Arrivals(k, s', b) == arr;
    forall u | 0 <= u < k.Members(b) ensures MemberOk(k, s', b, u) {
      assert MemberOk(k, s, b, u);
    }
  }

  /** Nothing a thread does at a barrier is visible from a ring slot. */
  lemma SyncInvisible(k: Launch, s: State, s': State, t: nat)
    requires ThreadsOk(k, s) && ThreadsOk(k, s') && LanesOk(k, s) && OnlyThread(s, s', t) && s'.rings == s.rings
    requires s.threads[t].pos < |k.script| && k.script[s.threads[t].pos].Sync?
    requires s'.threads[t].pos == s.threads[t].pos || s'.threads[t] == s.threads[t].Pass()
    ensures LanesOk(k, s')
  {
    forall r, j | 0 <= r < |k.stages| && 0 <= j < k.stages[r]
      ensures SameFace(k, t, s.threads[t], s'.threads[t], r, j)
    {
      LapsStep(k, r, j, s.threads[t].pos);
    }
    LanesFrame(k, s, s', t, |k.stages|, 0);
  }

  lemma ArriveStepKeeps(k: Launch, s: State, t: nat, b: nat)
    requires Inv(k, s) && Shaped(k, s) && t < k.Threads() && s.threads[t].pos < |k.script|
    requires k.script[s.threads[t].pos] == Sync(b) && t < k.Members(b) && s.threads[t].stage.Ready?
    ensures Inv(k, Meet(k, s, t, b))
  {
    var s' := Meet(k, s, t, b);
    assert ThreadOk(k, t, s.threads[t]);
    assert ThreadsOk(k, s');
    ArriveBar(k, s, s', t, b);
    BarFrame(k, s, s', t, 1 - b);
    SyncInvisible(k, s, s', t);
  }

  lemma SyncPassOk(k: Launch, t: nat, th: Thread)
    requires ThreadOk(k, t, th) && th.pos < |k.script| && k.script[th.pos].Sync?
    ensures ThreadOk(k, t, th.Pass())
  {
    forall r | 0 <= r < |k.stages| && t <= k.consumers
      ensures th.pipes[r] == k.PipeAt(r, th.pos + 1, t == k.consumers)
    {
      PipeStep(k, r, th.pos, t == k.consumers);
    }
  }

  lemma LeaveStepKeeps(k: Launch, s: State, t: nat, b: nat)
    requires Inv(k, s) && Shaped(k, s) && t < k.Threads() && s.threads[t].pos < |k.script|
    requires k.script[s.threads[t].pos] == Sync(b) && t < k.Members(b) && s.threads[t].stage.Arrived?
    requires s.bars[b].Passed(s.threads[t].stage.token)
    ensures Inv(k, Meet(k, s, t, b))
  {
    var th, s' := s.threads[t], Meet(k, s, t, b);
    SyncPassOk(k, t, th);
    assert ThreadsOk(k, s');
    LeaveBar(k, s, s', t, b);
    assert k.Syncs(1 - b, th.pos + 1) == k.Syncs(1 - b, th.pos);
    BarFrame(k, s, s', t, 1 - b);
    SyncInvisible(k, s, s', t);
  }

  // ---- all steps, all runs ----

  lemma InitInv(k: Launch)
    ensures Inv(k, Init(k))
  {
    var s := Init(k);
    assert ThreadsOk(k, s);
    forall r, j | 0 <= r < |k.stages| && 0 <= j < k.stages[r] ensures LaneOk(k, s, r, j) {
      var v := ViewOf(k, s, r, j);
      NewBarrierRounds(k.consumers, v.takes);
    }
    forall b: nat | b < 2 ensures BarOk(k, s, b) {
      NewBarrierRounds(k.Members(b), Arrivals(k, s, b));
    }
  }

  lemma GoKeeps(k: Launch, s: State, t: nat, n: nat)
    requires Inv(k, s) && Shaped(k, s) && Enabled(k, s, Go(t, n))
    ensures Inv(k, Apply(k, s, Go(t, n)))
  {
    var th, s' := s.threads[t], Apply(k, s, Go(t, n));
    assert ThreadOk(k, t, th);
    match k.script[th.pos]
    case Xfer(_, r, _) =>
      if t < k.consumers {
        TakeKeeps(k, s, t, r);
      } else if t == k.consumers {
        PutStepKeeps(k, s, r, n);
      } else {
        PassKeeps(k, s, s', t);
      }
    case Sync(b) =>
      if t >= k.Members(b) {
        PassKeeps(k, s, s', t);
      } else if th.stage.Arrived? {
        LeaveStepKeeps(k, s, t, b);
      } else {
        ArriveStepKeeps(k, s, t, b);
      }
    case Work(_) =>
      if t < k.consumers && th.stage.Ready? {
        StageKeeps(k, s, s', t, |k.stages|, 0);
      } else {
        PassKeeps(k, s, s', t);
      }
    case StoreIssue => PassKeeps(k, s, s', t);
    case StoreWait => PassKeeps(k, s, s', t);
  }

  /** Every step of every thread and of both copy engines keeps the invariant. */
  lemma StepKeeps(k: Launch, s: State, m: Move)
    requires Inv(k, s) && Shaped(k, s) && Enabled(k, s, m)
    ensures Inv(k, Apply(k, s, m))
  {
    match m
    case Go(t, n) => GoKeeps(k, s, t, n);
    case Land(r, j, n) => LandStepKeeps(k, s, r, j, n);
    case StoreDone =>
      var s' := Apply(k, s, m);
      forall q, i | 0 <= q < |k.stages| && 0 <= i < k.stages[q] ensures LaneOk(k, s', q, i) {
        assert ViewOf(k, s', q, i) == ViewOf(k, s, q, i);
        assert LaneOk(k, s, q, i);
      }
      forall b: nat | b < 2 ensures BarOk(k, s', b) {
        assert Arrivals(k, s', b) == Arrivals(k, s, b);
        assert forall u | 0 <= u < k.Members(b) :: MemberOk(k, s, b, u) ==> MemberOk(k, s', b, u);
      }
  }

  lemma {:induction false} RunInv(k: Launch, run: seq<State>)
    requires IsRun(k, run)
    ensures Inv(k, run[|run| - 1])
  {
    if |run| == 1 {
      InitInv(k);
    } else {
      var before := run[..|run| - 1];
      assert forall i | 0 <= i < |before| :: before[i] == run[i];
      RunInv(k, before);
      assert Next(k, run[|run| - 2], run[|run| - 2 + 1]);
      var m :| Enabled(k, run[|run| - 2], m) && run[|run| - 1] == Apply(k, run[|run| - 2], m);
      StepKeeps(k, run[|run| - 2], m);
    }
  }

  lemma ReachableInv(k: Launch, s: State)
    requires Reachable(k, s)
    ensures Inv(k, s)
  {
    var run :| IsRun(k, run) && run[|run| - 1] == s;
    RunInv(k, run);
  }
}
