/** No kernel deadlocks and every run ends, whatever its script. */
module Liveness {
  import opened Barriers
  import opened Lanes
  import opened Machine
  import opened Invariant
  import opened Safety

  // ---- the slowest thread can always be served ----

  /** A thread standing at event p up to event m does not hold up a thread at m. */
  ghost predicate NotHolding(k: Launch, p: nat, m: nat)
    requires p <= |k.script| && m < |k.script|
  {
    && !k.script[m].Sync?
    && (k.script[m].Xfer? ==>
        var r := k.script[m].ring;
        k.Laps(r, k.CursorAt(r, m).index, m) <= k.Laps(r, k.CursorAt(r, m).index, p))
  }

  /** All threads not in `still` are at event m or beyond, and those in it do not hold up m. */
  ghost predicate Leads(k: Launch, s: State, m: nat, still: set<nat>)
    requires ThreadsOk(k, s) && m < |k.script|
  {
    && k.consumers !in still
    && (forall v | 0 <= v < k.Threads() && v !in still :: m <= s.threads[v].pos)
    && (forall v | v in still && v < k.Threads() :: m < s.threads[v].pos || NotHolding(k, s.threads[v].pos, m))
  }

  /** A step that leaves the threads in `still` alone, made by thread x, by the producer, by
      another thread that has yet to arrive at the event of x, or by a copy engine. */
  ghost predicate Serves(k: Launch, s: State, x: nat, still: set<nat>, m: Move)
    requires Shaped(k, s) && x < k.Threads()
  {
    && Enabled(k, s, m)
    && (m.Go? ==> m.t !in still && m.t < k.Threads())
    && (m.Go? ==>
          || m.t == x || m.t == k.consumers
          || (s.threads[m.t].stage.Ready? && s.threads[m.t].pos == s.threads[x].pos))
  }

  lemma LedTakes(k: Launch, s: State, m: nat, still: set<nat>, v: nat, r: nat)
    requires Inv(k, s) && m < |k.script| && Leads(k, s, m, still) && v < k.consumers
    requires r < |k.stages| && k.Uses(r, m)
    ensures k.Laps(r, k.CursorAt(r, m).index, m) <= k.Laps(r, k.CursorAt(r, m).index, s.threads[v].pos)
  {
    if m <= s.threads[v].pos {
      LapsMonotone(k, r, k.CursorAt(r, m).index, m, s.threads[v].pos);
    }
  }

  lemma ServeProducer(k: Launch, s: State, still: set<nat>, r: nat) returns (n: nat)
    requires Inv(k, s) && Shaped(k, s) && s.threads[k.consumers].pos < |k.script|
    requires Leads(k, s, s.threads[k.consumers].pos, still)
    requires r < |k.stages| && k.Uses(r, s.threads[k.consumers].pos)
    ensures Enabled(k, s, Go(k.consumers, n))
  {
    var th := s.threads[k.consumers];
    n := if th.stage.Issuing? then th.stage.left else 0;
    if th.stage.Ready? {
      var j := th.pipes[r].index;
      AtItemFaces(k, s, k.consumers, r, j);
      var l, v := s.rings[r][j], ViewOf(k, s, r, j);
      var u := SomeoneBehind(l.empty, v.takes);
      LedTakes(k, s, th.pos, still, u, r);
      ProducerParityExact(l, v, th.pipes[r].phase);
    }
  }

  /** If the producer is past an item that is not complete, all its bytes are on the way. */
  lemma ProducerAhead(k: Launch, s: State, x: nat, still: set<nat>, r: nat, j: nat)
    requires AtItem(k, s, x, r, j) && Shaped(k, s) && x < k.consumers && s.threads[x].stage.Ready? && x !in still
    requires Leads(k, s, s.threads[x].pos, still) && s.threads[k.consumers].pos != s.threads[x].pos
    requires !s.rings[r][j].full.Passed(s.threads[x].pipes[r].phase)
    ensures 0 < s.rings[r][j].slot.inflight
  {
    var p := s.threads[k.consumers].pos;
    AtItemFaces(k, s, x, r, j);
    var l, v := s.rings[r][j], ViewOf(k, s, r, j);
    ConsumerParityExact(l, v, x, s.threads[x].pipes[r].phase);
    LapsMonotone(k, r, j, s.threads[x].pos, p);
    assert Filling(l, v);
  }

  /** A consumer whose item is not there yet: its bytes are on the way, or the producer
      is still at the same event. */
  lemma ServeConsumer(k: Launch, s: State, x: nat, still: set<nat>, r: nat) returns (m: Move)
    requires Inv(k, s) && Shaped(k, s) && x < k.consumers && s.threads[x].pos < |k.script|
    requires x !in still && Leads(k, s, s.threads[x].pos, still)
    requires r < |k.stages| && k.Uses(r, s.threads[x].pos)
    ensures Serves(k, s, x, still, m)
  {
    var th, prod := s.threads[x], s.threads[k.consumers];
    var j := th.pipes[r].index;
    AtItemFaces(k, s, x, r, j);
    var l, v := s.rings[r][j], ViewOf(k, s, r, j);
    m := Go(x, 0);
    if th.stage.Ready? && !l.full.Passed(th.pipes[r].phase) {
      ConsumerParityExact(l, v, x, th.pipes[r].phase);
      if prod.pos == th.pos {
        var n := ServeProducer(k, s, still, r);
        m := Go(k.consumers, n);
      } else {
        ProducerAhead(k, s, x, still, r, j);
        m := Land(r, j, l.slot.inflight);
      }
    }
  }

  lemma ServeSync(k: Launch, s: State, x: nat, still: set<nat>, b: nat) returns (m: Move)
    requires Inv(k, s) && Shaped(k, s) && x < k.Threads() && s.threads[x].pos < |k.script|
    requires x !in still && Leads(k, s, s.threads[x].pos, still) && k.script[s.threads[x].pos] == Sync(b)
    ensures Serves(k, s, x, still, m)
  {
    var th := s.threads[x];
    m := Go(x, 0);
    if x < k.Members(b) && th.stage.Arrived? && !s.bars[b].Passed(th.stage.token) {
      assert MemberOk(k, s, b, x);
      var arr := Arrivals(k, s, b);
      assert s.bars[b].done <= arr[x] <= s.bars[b].done + 1;
      var u := SomeoneBehind(s.bars[b], arr);
      SyncsMonotone(k, b, th.pos, s.threads[u].pos);
      assert ThreadOk(k, u, s.threads[u]);
      m := Go(u, 0);
    }
  }

  /** If nobody relevant is behind thread x, then x can move, or somebody else can move
      who brings it closer to moving. */
  lemma Serve(k: Launch, s: State, x: nat, still: set<nat>) returns (m: Move)
    requires Inv(k, s) && Shaped(k, s) && x < k.Threads() && s.threads[x].pos < |k.script|
    requires x !in still && Leads(k, s, s.threads[x].pos, still)
    ensures Serves(k, s, x, still, m)
  {
    assert ThreadOk(k, x, s.threads[x]);
    match k.script[s.threads[x].pos]
    case Xfer(_, r, _) =>
      if x < k.consumers {
        m := ServeConsumer(k, s, x, still, r);
      } else if x == k.consumers {
        var n := ServeProducer(k, s, still, r);
        m := Go(x, n);
      } else {
        m := Go(x, 0);
      }
    case Sync(b) => m := ServeSync(k, s, x, still, b);
    case StoreWait => m := if x == 0 && s.stores > 0 then StoreDone else Go(x, 0);
    case _ => m := Go(x, 0);
  }

  /** Thread a has done less than thread b. */
  predicate Slower(a: Thread, b: Thread) {
    a.pos < b.pos || (a.pos == b.pos && Rank(a.stage) < Rank(b.stage))
  }

  /** Among the threads not in `still`, one that has nobody behind it. */
  lemma Slowest(threads: seq<Thread>, still: set<nat>, some: nat) returns (x: nat)
    requires some < |threads| && some !in still
    ensures x < |threads| && x !in still
    ensures forall v | 0 <= v < |threads| && v !in still :: !Slower(threads[v], threads[x])
  {
    x := some;
    for i := 0 to |threads|
      invariant x < |threads| && x !in still
      invariant forall v | 0 <= v < i && v !in still :: !Slower(threads[v], threads[x])
    {
      if i !in still && Slower(threads[i], threads[x]) { x := i; }
    }
  }

  ghost predicate Finished(k: Launch, s: State) {
    forall t | 0 <= t < |s.threads| :: s.threads[t].pos == |k.script|
  }

  /** In every state the invariant allows, some step is enabled until all threads are done. */
  lemma Progress(k: Launch, s: State) returns (m: Move)
    requires Inv(k, s) && Shaped(k, s) && !Finished(k, s)
    ensures Enabled(k, s, m)
  {
    var y: nat :| y < |s.threads| && s.threads[y].pos != |k.script|;
    var x := Slowest(s.threads, {}, y);
    assert ThreadOk(k, y, s.threads[y]);
    m := Serve(k, s, x, {});
  }

  /** Deadlock freedom: in every reachable state in which some thread has not finished,
      some step is enabled. */
  lemma NeverStuck(k: Launch, s: State)
    requires Reachable(k, s) && !Finished(k, s)
    ensures exists s' :: Next(k, s, s')
  {
    ReachableInv(k, s);
    InvShaped(k, s);
    var m := Progress(k, s);
    assert Next(k, s, Apply(k, s, m));
  }

  // ---- termination ----

  function Sum(ns: seq<nat>): nat {
    if ns == [] then 0 else ns[0] + Sum(ns[1..])
  }

  lemma {:induction false} SumUpdate(ns: seq<nat>, i: nat, n: nat)
    requires i < |ns|
    ensures Sum(ns[i := n]) == Sum(ns) - ns[i] + n
  {
    if i > 0 {
      assert ns[i := n][1..] == ns[1..][i - 1 := n];
      SumUpdate(ns[1..], i - 1, n);
    } else {
      assert ns[i := n][1..] == ns[1..];
    }
  }

  function Rank(stage: Stage): nat {
    match stage
    case Ready => 0
    case Busy => 1
    case Issuing(_) => 2
    case Arrived(_) => 1
  }

  ghost function ThreadWork(k: Launch, th: Thread): nat
    requires th.pos <= |k.script| && (th.pos == |k.script| ==> th.stage.Ready?)
  {
    3 * (|k.script| - th.pos) - Rank(th.stage)
  }

  ghost function ThreadsWork(k: Launch, s: State): nat
    requires ThreadsOk(k, s)
  {
    Sum(seq(|s.threads|, t requires 0 <= t < |s.threads| =>
      assert ThreadOk(k, t, s.threads[t]); ThreadWork(k, s.threads[t])))
  }

  ghost function Unissued(k: Launch, s: State): nat
    requires ThreadsOk(k, s)
  {
    var stage := s.threads[k.consumers].stage;
    if stage.Issuing? then stage.left else 0
  }

  ghost function InFlight(s: State): nat {
    s.stores + Sum(seq(|s.rings|, r requires 0 <= r < |s.rings| => RingInFlight(s.rings[r])))
  }

  ghost function RingInFlight(ring: seq<Lane>): nat {
    Sum(seq(|ring|, j requires 0 <= j < |ring| => ring[j].slot.inflight))
  }

  /** State s' is closer to the end than s. */
  ghost predicate Closer(k: Launch, s': State, s: State)
    requires ThreadsOk(k, s) && ThreadsOk(k, s')
  {
    || ThreadsWork(k, s') < ThreadsWork(k, s)
    || (ThreadsWork(k, s') == ThreadsWork(k, s)
        && (|| Unissued(k, s') < Unissued(k, s)
            || (Unissued(k, s') == Unissued(k, s) && InFlight(s') < InFlight(s))))
  }

  lemma WorkUpdate(k: Launch, s: State, s': State, t: nat)
    requires ThreadsOk(k, s) && ThreadsOk(k, s') && OnlyThread(s, s', t)
    requires ThreadOk(k, t, s.threads[t]) && ThreadOk(k, t, s'.threads[t])
    ensures ThreadsWork(k, s') == ThreadsWork(k, s) - ThreadWork(k, s.threads[t]) + ThreadWork(k, s'.threads[t])
  {
    var ns := seq(|s.threads|, u requires 0 <= u < |s.threads| =>
      assert ThreadOk(k, u, s.threads[u]); ThreadWork(k, s.threads[u]));
    var ns' := seq(|s'.threads|, u requires 0 <= u < |s'.threads| =>
      assert ThreadOk(k, u, s'.threads[u]); ThreadWork(k, s'.threads[u]));
    assert ns' == ns[t := ThreadWork(k, s'.threads[t])];
    SumUpdate(ns, t, ThreadWork(k, s'.threads[t]));
  }

  lemma LandDecreases(k: Launch, s: State, r: nat, j: nat, n: nat)
    requires Inv(k, s) && r < |s.rings| && j < |s.rings[r]| && 0 < n <= s.rings[r][j].slot.inflight
    ensures InFlight(s.WithLane(r, j, s.rings[r][j].Land(n))) < InFlight(s)
  {
    var s' := s.WithLane(r, j, s.rings[r][j].Land(n));
    var ring, ring' := s.rings[r], s'.rings[r];
    var js := seq(|ring|, i requires 0 <= i < |ring| => ring[i].slot.inflight);
    var js' := seq(|ring'|, i requires 0 <= i < |ring'| => ring'[i].slot.inflight);
    assert js' == js[j := js[j] - n];
    SumUpdate(js, j, js[j] - n);
    var rs := seq(|s.rings|, q requires 0 <= q < |s.rings| => RingInFlight(s.rings[q]));
    var rs' := seq(|s'.rings|, q requires 0 <= q < |s'.rings| => RingInFlight(s'.rings[q]));
    assert rs' == rs[r := RingInFlight(ring')];
    SumUpdate(rs, r, RingInFlight(ring'));
  }

  lemma GoDecreases(k: Launch, s: State, t: nat, n: nat)
    requires Inv(k, s) && Shaped(k, s) && Enabled(k, s, Go(t, n))
    ensures Inv(k, Apply(k, s, Go(t, n)))
    ensures Closer(k, Apply(k, s, Go(t, n)), s)
  {
    var s' := Apply(k, s, Go(t, n));
    GoKeeps(k, s, t, n);
    assert ThreadOk(k, t, s.threads[t]) && ThreadOk(k, t, s'.threads[t]);
    assert OnlyThread(s, s', t);
    WorkUpdate(k, s, s', t);
  }

  lemma StepDecreases(k: Launch, s: State, m: Move)
    requires Inv(k, s) && Shaped(k, s) && Enabled(k, s, m)
    ensures Inv(k, Apply(k, s, m))
    ensures Closer(k, Apply(k, s, m), s)
  {
    StepKeeps(k, s, m);
    match m
    case Go(t, n) => GoDecreases(k, s, t, n);
    case Land(r, j, n) => LandDecreases(k, s, r, j, n);
    case StoreDone =>
  }

  datatype Remaining = Remaining(work: nat, unissued: nat, inflight: nat)

  ghost predicate Measured(k: Launch, s: State, left: Remaining) {
    Inv(k, s) && left == Remaining(ThreadsWork(k, s), Unissued(k, s), InFlight(s))
  }

  lemma NextDecreases(k: Launch, s: State, s': State, left: Remaining) returns (left': Remaining)
    requires Measured(k, s, left) && Next(k, s, s')
    ensures Measured(k, s', left')
    ensures || left'.work < left.work
            || (left'.work == left.work
                && (left'.unissued < left.unissued
                    || (left'.unissued == left.unissued && left'.inflight < left.inflight)))
  {
    var m :| Enabled(k, s, m) && s' == Apply(k, s, m);
    StepDecreases(k, s, m);
    left' := Remaining(ThreadsWork(k, s'), Unissued(k, s'), InFlight(s'));
  }

  ghost predicate Continues(k: Launch, run: nat -> State) {
    forall i: nat :: Next(k, run(i), run(i + 1))
  }

  /** From no state can a run take infinitely many steps. */
  lemma {:induction false} Descent(k: Launch, run: nat -> State, i: nat, left: Remaining)
    requires Continues(k, run)
    requires Measured(k, run(i), left)
    ensures false
    decreases left.work, left.unissued, left.inflight
  {
    var left' := NextDecreases(k, run(i), run(i + 1), left);
    Descent(k, run, i + 1, left');
  }

  /** There is no infinite run. */
  lemma EveryRunEnds(k: Launch, run: nat -> State)
    requires run(0) == Init(k)
    ensures exists n: nat :: !Next(k, run(n), run(n + 1))
  {
    InitInv(k);
    if Continues(k, run) {
      Descent(k, run, 0, Remaining(ThreadsWork(k, run(0)), Unissued(k, run(0)), InFlight(run(0))));
    }
  }

  ghost predicate Final(k: Launch, s: State) {
    forall s': State :: !Next(k, s, s')
  }

  /** A run that cannot be continued has brought every thread to the end of the script,
      and every consumer has read the whole stream. */
  lemma MaximalRunsFinish(k: Launch, run: seq<State>, t: nat)
    requires IsRun(k, run) && Final(k, run[|run| - 1]) && t < k.consumers
    ensures Finished(k, run[|run| - 1])
    ensures forall i | 0 <= i < |run| :: Shaped(k, run[i])
    ensures ReadLog(k, run, t) == Stream(k, |k.script|)
  {
    var s := run[|run| - 1];
    ReadsTheStream(k, run, t);
    if !Finished(k, s) {
      NeverStuck(k, s);
    }
    assert s.threads[t].pos == |k.script|;
  }
}
