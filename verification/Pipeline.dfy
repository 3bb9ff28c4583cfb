/** The pipeline objects of a thread: barrier storage shared by all threads, and each thread's
    own position in the ring. A wait is one poll of the barrier; a blocked thread polls again. */
module Pipelines {
  import opened Barriers
  import opened Lanes
  import opened Machine
  import opened Invariant

  class PipelineStorage {
    const full: array<Mbar>
    const empty: array<Mbar>
    const slots: array<Slot>

    ghost predicate Valid() {
      && full != empty && full.Length == empty.Length == slots.Length
    }

    /** All slots with their barriers. */
    ghost function Lanes(): (ls: seq<Lane>)
      requires Valid()
      reads full, empty, slots
      ensures |ls| == full.Length
    {
      seq(full.Length, j requires 0 <= j < full.Length reads full, empty, slots =>
        Lane(full[j], empty[j], slots[j]))
    }

    constructor (stages: nat)
      ensures Valid() && full.Length == stages && fresh(full) && fresh(empty) && fresh(slots)
    {
      full := new Mbar[stages](_ => NewBarrier(0));
      empty := new Mbar[stages](_ => NewBarrier(0));
      slots := new Slot[stages](_ => Slot(0, 0, 0));
    }

    /** init_barrier: one producer arrival fills a slot, one arrival of each consumer thread
        empties it. */
    method InitBarrier(consumers: nat)
      requires Valid() && forall j | 0 <= j < slots.Length :: slots[j] == Slot(0, 0, 0)
      modifies full, empty
      ensures Lanes() == seq(full.Length, _ => NewLane(consumers))
    {
      for i := 0 to full.Length
        invariant forall j | 0 <= j < i :: full[j] == NewBarrier(1) && empty[j] == NewBarrier(consumers)
      {
        full[i] := NewBarrier(1);
        empty[i] := NewBarrier(consumers);
      }
    }
  }

  /** Pipeline, and SimplePipeline of v3_mMnNkN. */
  class Pipeline {
    const storage: PipelineStorage
    var state: PipelineState

    ghost predicate Valid()
      reads this
    {
      storage.Valid() && state.index < storage.full.Length
    }

    constructor (storage: PipelineStorage, producer: bool)
      requires storage.Valid() && 0 < storage.full.Length
      ensures Valid() && this.storage == storage
      ensures state == PipelineState(0, if producer then 1 else 0, 0)
    {
      this.storage := storage;
      state := PipelineState(0, if producer then 1 else 0, 0);
    }

    method Advance()
      requires Valid()
      modifies this
      ensures Valid() && state == old(state).Next(storage.full.Length)
    {
      state := state.Next(storage.full.Length);
    }

    /** Announces the bytes on the full barrier once the empty barrier lets the producer in. */
    method Acquire(bytes: nat) returns (ok: bool)
      requires Valid()
      modifies storage.full
      ensures ok == old(storage.empty[state.index].Passed(state.phase))
      ensures storage.Lanes() ==
              if ok then old(storage.Lanes())[state.index := old(storage.Lanes()[state.index]).Expect(bytes)]
              else old(storage.Lanes())
    {
      var full, j := storage.full, state.index;
      ok := storage.empty[j].Passed(state.phase);
      if ok { full[j] := full[j].ArriveExpectTx(bytes); }
    }

    /** Acquires the slot, issues the copy of all its bytes, moves on. */
    method CopyG2S(item: nat, bytes: nat) returns (ok: bool)
      requires Valid()
      modifies this, storage.full, storage.slots
      ensures Valid() && ok == old(storage.empty[state.index].Passed(state.phase))
      ensures ok ==> state == old(state).Next(storage.full.Length)
      ensures !ok ==> state == old(state)
      ensures storage.Lanes() ==
              if ok then
                old(storage.Lanes())[old(state.index) := Copied(old(storage.Lanes()[state.index]), item, bytes)]
              else old(storage.Lanes())
    {
      var slots, j := storage.slots, state.index;
      ghost var before := storage.Lanes();
      ok := Acquire(bytes);
      if ok {
        ghost var l := storage.Lanes()[j];
        slots[j] := Slot(item, bytes + slots[j].inflight, slots[j].inflight + bytes);
        Advance();
        assert storage.Lanes()[j] == l.Issue(item, bytes, bytes);
        assert storage.Lanes() == before[j := l][j := l.Issue(item, bytes, bytes)];
      }
    }

    method Wait() returns (ready: bool)
      requires Valid()
      ensures ready == storage.full[state.index].Passed(state.phase)
    {
      ready := storage.full[state.index].Passed(state.phase);
    }

    /** Arrives on the empty barrier of the slot and moves on. */
    method Release()
      requires Valid()
      modifies this, storage.empty
      ensures Valid() && state == old(state).Next(storage.full.Length)
      ensures storage.Lanes() == old(storage.Lanes())[old(state.index) := old(storage.Lanes()[state.index]).Release()]
    {
      var empty, j := storage.empty, state.index;
      empty[j] := empty[j].Arrive();
      Advance();
    }
  }

  /** SimplePipeline of v3_mMn1k1: one slot, and a bare phase bit instead of a state. */
  class PhasePipeline {
    const storage: PipelineStorage
    var phase: Bit

    ghost predicate Valid()
      reads this
    {
      storage.Valid() && storage.full.Length == 1
    }

    /** The bit stands for this position of an ordinary pipeline. */
    ghost predicate StandsFor(state: PipelineState)
      reads this
    {
      state.index == 0 && phase == state.phase
    }

    constructor (storage: PipelineStorage, producer: bool)
      requires storage.Valid() && storage.full.Length == 1
      ensures Valid() && this.storage == storage && StandsFor(PipelineState(0, if producer then 1 else 0, 0))
    {
      this.storage := storage;
      phase := if producer then 1 else 0;
    }

    method Advance(ghost state: PipelineState)
      requires StandsFor(state)
      modifies this
      ensures StandsFor(state.Next(1))
    {
      phase := 1 - phase;
    }

    method Acquire(bytes: nat, ghost state: PipelineState) returns (ok: bool)
      requires Valid() && StandsFor(state)
      modifies storage.full
      ensures ok == old(storage.empty[state.index].Passed(state.phase))
      ensures storage.Lanes() == if ok then [old(storage.Lanes()[0]).Expect(bytes)] else old(storage.Lanes())
    {
      var full := storage.full;
      ok := storage.empty[0].Passed(phase);
      if ok { full[0] := full[0].ArriveExpectTx(bytes); }
    }

    method CopyG2S(item: nat, bytes: nat, ghost state: PipelineState) returns (ok: bool)
      requires Valid() && StandsFor(state)
      modifies this, storage.full, storage.slots
      ensures Valid() && ok == old(storage.empty[state.index].Passed(state.phase))
      ensures StandsFor(if ok then state.Next(1) else state)
      ensures storage.Lanes() == if ok then [Copied(old(storage.Lanes()[0]), item, bytes)] else old(storage.Lanes())
    {
      var slots := storage.slots;
      ok := Acquire(bytes, state);
      if ok {
        ghost var l := storage.Lanes()[0];
        slots[0] := Slot(item, bytes + slots[0].inflight, slots[0].inflight + bytes);
        Advance(state);
        assert storage.Lanes()[0] == l.Issue(item, bytes, bytes);
      }
    }

    method Wait(ghost state: PipelineState) returns (ready: bool)
      requires Valid() && StandsFor(state)
      ensures ready == storage.full[state.index].Passed(state.phase)
    {
      ready := storage.full[0].Passed(phase);
    }

    method Release(ghost state: PipelineState)
      requires Valid() && StandsFor(state)
      modifies this, storage.empty
      ensures Valid() && StandsFor(state.Next(1))
      ensures storage.Lanes() == [old(storage.Lanes()[0]).Release()]
    {
      var empty := storage.empty;
      empty[0] := empty[0].Arrive();
      Advance(state);
    }
  }

  /** A slot after an uninterrupted copy into it. */
  function Copied(l: Lane, item: nat, bytes: nat): Lane {
    l.Expect(bytes).Issue(item, bytes, bytes)
  }

  // ---- the objects and the machine ----

  /** The producer at a ring item it has been let into: its slot after the announcement, with
      `lane`, and what is left to issue. */
  function Midway(k: Launch, s: State, r: nat, lane: Lane, left: nat): State
    requires k.consumers < |s.threads| && r < |s.threads[k.consumers].pipes| && r < |s.rings|
    requires s.threads[k.consumers].pipes[r].index < |s.rings[r]|
  {
    s.WithLane(r, s.threads[k.consumers].pipes[r].index, lane)
     .WithThread(k.consumers, s.threads[k.consumers].(stage := Issuing(left)))
  }

  lemma CopyBegins(k: Launch, s: State, r: nat, bytes: nat, l: Lane) returns (s1: State)
    requires Shaped(k, s) && r < |k.stages|
    requires s.threads[k.consumers].stage.Ready? && CanPut(k, s, k.consumers, r, 0)
    requires l == s.rings[r][s.threads[k.consumers].pipes[r].index]
    ensures s1 == Put(k, s, k.consumers, r, bytes, 0) && Shaped(k, s1) && CanPut(k, s1, k.consumers, r, 0)
    ensures Put(k, s1, k.consumers, r, bytes, 0) == Midway(k, s, r, l.Expect(bytes), bytes)
  {
    var th, t := s.threads[k.consumers], k.consumers;
    s1 := s.WithThread(t, th.(stage := Busy));
    Collapse(s, t, th.(stage := Busy), th.(stage := Issuing(bytes)), r, th.pipes[r].index, l, l.Expect(bytes));
  }

  lemma CopyEnds(k: Launch, s: State, r: nat, bytes: nat, l: Lane, s2: State) returns (s3: State)
    requires Shaped(k, s) && r < |k.stages| && 0 < bytes
    requires s2 == Midway(k, s, r, l.Expect(bytes), bytes)
    ensures Shaped(k, s2) && CanPut(k, s2, k.consumers, r, bytes) && s3 == Put(k, s2, k.consumers, r, bytes, bytes)
    ensures Shaped(k, s3) && CanPut(k, s3, k.consumers, r, 0)
    ensures var th := s.threads[k.consumers];
            Put(k, s3, k.consumers, r, bytes, 0)
            == s.WithLane(r, th.pipes[r].index, Copied(l, th.pos, bytes))
                .WithThread(k.consumers, th.PassRing(r, k.stages[r]))
  {
    var th, t := s.threads[k.consumers], k.consumers;
    var j, full := th.pipes[r].index, Copied(l, th.pos, bytes);
    Collapse(s, t, th.(stage := Issuing(bytes)), th.(stage := Issuing(0)), r, j, l.Expect(bytes), full);
    s3 := Midway(k, s, r, full, 0);
    Collapse(s, t, th.(stage := Issuing(0)), th.PassRing(r, k.stages[r]), r, j, full, full);
  }

  /** An uninterrupted copy is four steps of the producer thread. */
  lemma CopyIsFourSteps(k: Launch, s: State, r: nat, bytes: nat, l: Lane) returns (s1: State, s2: State, s3: State)
    requires Shaped(k, s) && r < |k.stages| && 0 < bytes
    requires s.threads[k.consumers].stage.Ready? && CanPut(k, s, k.consumers, r, 0)
    requires l == s.rings[r][s.threads[k.consumers].pipes[r].index]
    ensures s1 == Put(k, s, k.consumers, r, bytes, 0)
    ensures Shaped(k, s1) && CanPut(k, s1, k.consumers, r, 0) && s2 == Put(k, s1, k.consumers, r, bytes, 0)
    ensures Shaped(k, s2) && CanPut(k, s2, k.consumers, r, bytes) && s3 == Put(k, s2, k.consumers, r, bytes, bytes)
    ensures Shaped(k, s3) && CanPut(k, s3, k.consumers, r, 0)
    ensures var th := s.threads[k.consumers];
            Put(k, s3, k.consumers, r, bytes, 0)
            == s.WithLane(r, th.pipes[r].index, Copied(l, th.pos, bytes))
                .WithThread(k.consumers, th.PassRing(r, k.stages[r]))
  {
    s1 := CopyBegins(k, s, r, bytes, l);
    s2 := Midway(k, s, r, l.Expect(bytes), bytes);
    s3 := CopyEnds(k, s, r, bytes, l, s2);
  }

  /** Of two changes to the same thread and slot the second remains. */
  lemma Collapse(s: State, t: nat, a: Thread, b: Thread, r: nat, j: nat, l: Lane, m: Lane)
    requires t < |s.threads| && r < |s.rings| && j < |s.rings[r]|
    ensures s.WithLane(r, j, l).WithThread(t, a).WithThread(t, b) == s.WithLane(r, j, l).WithThread(t, b)
    ensures s.WithLane(r, j, l).WithThread(t, a).WithLane(r, j, m).WithThread(t, b)
            == s.WithLane(r, j, m).WithThread(t, b)
    ensures s.WithThread(t, a).WithLane(r, j, m).WithThread(t, b) == s.WithLane(r, j, m).WithThread(t, b)
  {
    assert s.rings[r][j := l][j := m] == s.rings[r][j := m];
    assert s.rings[r := s.rings[r][j := l]][r := s.rings[r][j := m]] == s.rings[r := s.rings[r][j := m]];
    assert s.threads[t := a][t := b] == s.threads[t := b];
  }

  /** A wait and a release are the two steps of a consumer thread. */
  lemma TakeIsTwoSteps(k: Launch, s: State, t: nat, r: nat)
    requires Inv(k, s) && Shaped(k, s) && t < k.consumers && r < |k.stages|
    requires s.threads[t].pos < |k.script| && k.Uses(r, s.threads[t].pos)
    requires s.threads[t].stage.Ready? && CanTake(k, s, t, r)
    ensures var th := s.threads[t];
            var j := th.pipes[r].index;
            var s1 := Take(k, s, t, r);
            && Shaped(k, s1)
            && Take(k, s1, t, r)
               == s.WithLane(r, j, s.rings[r][j].Release()).WithThread(t, th.PassRing(r, k.stages[r]))
  {
    var th := s.threads[t];
    var j := th.pipes[r].index;
    var s1 := Take(k, s, t, r);
    assert Take(k, s1, t, r).threads
        == s.WithLane(r, j, s.rings[r][j].Release()).WithThread(t, th.PassRing(r, k.stages[r])).threads;
  }

  /** What copy_g2s does to a slot the empty barrier lets it into keeps the slot's account. */
  lemma CopyKeeps(l: Lane, v: View, phase: Bit, item: nat, bytes: nat)
    requires LaneInv(l, v) && v.grant.Closed? && phase == (v.puts + 1) % 2 && l.empty.Passed(phase) && 0 < bytes
    ensures LaneInv(Copied(l, item, bytes), v.(puts := v.puts + 1))
    ensures Copied(l, item, bytes).slot == Slot(item, bytes, bytes)
  {
    GrantKeeps(l, v, phase);
    var granted := v.(grant := Granted);
    var open := granted.(grant := Open(bytes));
    ExpectKeeps(l, granted, bytes);
    IssueKeeps(l.Expect(bytes), open, item, bytes);
    PutKeeps(Copied(l, item, bytes), open.(grant := Open(0)));
    assert open.(grant := Open(0)).(grant := Closed, puts := v.puts + 1) == v.(puts := v.puts + 1);
  }

  /** The bit of a one-slot pipeline, toggled at every item. */
  ghost function Toggled(k: Launch, r: nat, p: nat, producer: bool): Bit
    requires r < |k.stages| && p <= |k.script|
  {
    if p == 0 then if producer then 1 else 0
    else if k.Uses(r, p - 1) then 1 - Toggled(k, r, p - 1, producer) else Toggled(k, r, p - 1, producer)
  }

  /** In a ring of one slot the toggled bit is the phase of the full pipeline position. */
  lemma {:induction false} ToggledIsPhase(k: Launch, r: nat, p: nat, producer: bool)
    requires r < |k.stages| && k.stages[r] == 1 && p <= |k.script|
    ensures k.PipeAt(r, p, producer).index == 0
    ensures k.PipeAt(r, p, producer).phase == Toggled(k, r, p, producer)
  {
    if p > 0 {
      ToggledIsPhase(k, r, p - 1, producer);
      PipeStep(k, r, p - 1, producer);
    }
  }
}
