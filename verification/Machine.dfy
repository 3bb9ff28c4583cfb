/** A thread block as a state machine. All threads walk one script of events; what a
    thread does at an event depends on its role. Consumer threads are 0..consumers-1,
    thread `consumers` is the producer thread that issues the bulk copies, the rest of the
    producer warps only take part in the block-wide barrier. */
module Machine {
  import opened Barriers
  import opened Lanes

  datatype Operand = OperandAB | OperandQ | OperandK | OperandV

  datatype Job = SaveStats | SavePartial | WriteOutput

  datatype Event =
    | Xfer(operand: Operand, ring: nat, bytes: nat) // one item through a ring
    | Sync(bar: nat)     // named barrier: 0 for the consumers, 1 for the whole block
    | Work(job: Job)     // consumers access shared memory outside the rings
    | StoreIssue         // consumer thread 0 starts a bulk store of the output buffer
    | StoreWait          // consumer thread 0 waits until no bulk store still reads it

  const EPILOGUE: nat := 0
  const BLOCK: nat := 1

  const WARP: nat := 32 // threads of a warp

  datatype Cursor = Cursor(lap: nat, index: nat)

  datatype Kernel = Kernel(script: seq<Event>, stages: seq<nat>, consumers: nat, producers: nat) {

    predicate Ok() {
      && 0 < consumers && 0 < producers
      && (forall r | 0 <= r < |stages| :: 0 < stages[r])
      && (forall p | 0 <= p < |script| :: script[p].Xfer? ==> script[p].ring < |stages| && 0 < script[p].bytes)
      && (forall p | 0 <= p < |script| :: script[p].Sync? ==> script[p].bar < 2)
    }

    predicate Uses(r: nat, p: nat)
      requires p < |script|
    {
      script[p].Xfer? && script[p].ring == r
    }

    /** The ring position of every thread that is about to perform event p. */
    ghost function CursorAt(r: nat, p: nat): (c: Cursor)
      requires Ok() && r < |stages| && p <= |script|
      ensures c.index < stages[r]
    {
      if p == 0 then Cursor(0, 0) else
      var c := CursorAt(r, p - 1);
      if !Uses(r, p - 1) then c
      else if c.index + 1 == stages[r] then Cursor(c.lap + 1, 0)
      else Cursor(c.lap, c.index + 1)
    }

    /** How many items went through slot j of ring r before event p. */
    ghost function Laps(r: nat, j: nat, p: nat): nat
      requires Ok() && r < |stages| && p <= |script|
    {
      var c := CursorAt(r, p);
      c.lap + if j < c.index then 1 else 0
    }

    /** Event p sends its item through slot j of ring r. */
    ghost predicate Faces(r: nat, j: nat, p: nat)
      requires Ok() && r < |stages|
    {
      p < |script| && Uses(r, p) && CursorAt(r, p).index == j
    }

    /** PipelineState of a thread at event p; the producer's phase starts at 1. */
    ghost function PipeAt(r: nat, p: nat, producer: bool): PipelineState
      requires Ok() && r < |stages| && p <= |script|
    {
      var c := CursorAt(r, p);
      PipelineState(c.index, (c.lap + if producer then 1 else 0) % 2, c.lap * stages[r] + c.index)
    }

    /** How many times barrier b occurs before event p. */
    ghost function Syncs(b: nat, p: nat): nat
      requires p <= |script|
    {
      if p == 0 then 0 else Syncs(b, p - 1) + if script[p - 1] == Sync(b) then 1 else 0
    }

    /** Bulk stores issued before event p that thread 0 has not waited for yet. */
    ghost function Unwaited(p: nat): nat
      requires p <= |script|
    {
      if p == 0 then 0
      else if script[p - 1].StoreWait? then 0
      else Unwaited(p - 1) + if script[p - 1].StoreIssue? then 1 else 0
    }

    function Threads(): nat { consumers + producers }

    function Members(b: nat): nat {
      if b == EPILOGUE then consumers else Threads()
    }
  }

  type Launch = k: Kernel | k.Ok() witness Kernel([], [], 1, 1)

  datatype Stage = Ready | Busy | Issuing(left: nat) | Arrived(token: Bit)

  datatype Thread = Thread(pos: nat, stage: Stage, pipes: seq<PipelineState>) {
    function Pass(): Thread { this.(pos := pos + 1, stage := Ready) }
    function PassRing(r: nat, stages: nat): Thread
      requires r < |pipes|
    { Thread(pos + 1, Ready, pipes[r := pipes[r].Next(stages)]) }
  }

  datatype State = State(threads: seq<Thread>, rings: seq<seq<Lane>>, bars: seq<Mbar>, stores: nat) {
    function WithThread(t: nat, th: Thread): State
      requires t < |threads|
    { this.(threads := threads[t := th]) }

    function WithLane(r: nat, j: nat, l: Lane): State
      requires r < |rings| && j < |rings[r]|
    { this.(rings := rings[r := rings[r][j := l]]) }
  }

  /** Go(t, n): thread t makes its next step (n bytes when that step issues a copy).
      Land(r, j, n): n bytes on the way to slot j of ring r arrive.
      StoreDone: a bulk store has finished reading shared memory. */
  datatype Move = Go(t: nat, n: nat) | Land(r: nat, j: nat, n: nat) | StoreDone

  function Init(k: Launch): State {
    State(
      seq(k.Threads(), t => Thread(0, Ready,
        seq(|k.stages|, r => PipelineState(0, if t == k.consumers then 1 else 0, 0)))),
      seq(|k.stages|, r requires 0 <= r < |k.stages| => seq(k.stages[r], j => NewLane(k.consumers))),
      [NewBarrier(k.consumers), NewBarrier(k.Threads())],
      0)
  }

  ghost predicate Shaped(k: Launch, s: State) {
    && |s.threads| == k.Threads() && |s.rings| == |k.stages| && |s.bars| == 2
    && (forall r | 0 <= r < |k.stages| :: |s.rings[r]| == k.stages[r])
    && (forall t | 0 <= t <= k.consumers :: |s.threads[t].pipes| == |k.stages|)
    && (forall t, r | 0 <= t <= k.consumers && 0 <= r < |k.stages| :: s.threads[t].pipes[r].index < k.stages[r])
    && (forall t | 0 <= t < |s.threads| :: s.threads[t].pos <= |k.script|)
  }

  ghost predicate Enabled(k: Launch, s: State, m: Move)
    requires Shaped(k, s)
  {
    match m
    case StoreDone => 0 < s.stores
    case Land(r, j, n) =>
      r < |k.stages| && j < k.stages[r] && 0 < n <= s.rings[r][j].slot.inflight
    case Go(t, n) =>
      && t < k.Threads() && s.threads[t].pos < |k.script|
      && (match k.script[s.threads[t].pos]
          case Xfer(_, r, _) =>
            if t < k.consumers then CanTake(k, s, t, r)
            else if t == k.consumers then CanPut(k, s, t, r, n)
            else true
          case Sync(b) =>
            t < k.Members(b) && s.threads[t].stage.Arrived? ==> s.bars[b].Passed(s.threads[t].stage.token)
          case StoreWait => t == 0 ==> s.stores == 0
          case _ => true)
  }

  ghost predicate CanTake(k: Launch, s: State, t: nat, r: nat)
    requires Shaped(k, s) && t < k.consumers && r < |k.stages|
  {
    var th := s.threads[t];
    th.stage.Ready? ==> s.rings[r][th.pipes[r].index].full.Passed(th.pipes[r].phase)
  }

  ghost predicate CanPut(k: Launch, s: State, t: nat, r: nat, n: nat)
    requires Shaped(k, s) && t == k.consumers && r < |k.stages|
  {
    var th := s.threads[t];
    && (th.stage.Ready? ==> s.rings[r][th.pipes[r].index].empty.Passed(th.pipes[r].phase))
    && (th.stage.Issuing? && th.stage.left > 0 ==> 0 < n <= th.stage.left)
  }

  /** Consumer at a ring item: wait for the full barrier, then read, arrive on the empty
      barrier and move on. */
  ghost function Take(k: Launch, s: State, t: nat, r: nat): State
    requires Shaped(k, s) && t < k.consumers && r < |k.stages|
  {
    var th := s.threads[t];
    var j := th.pipes[r].index;
    if th.stage.Ready? then s.WithThread(t, th.(stage := Busy))
    else s.WithLane(r, j, s.rings[r][j].Release()).WithThread(t, th.PassRing(r, k.stages[r]))
  }

  /** Producer at a ring item: wait for the empty barrier, announce the bytes on the full
      barrier, issue the copies, move on. */
  ghost function Put(k: Launch, s: State, t: nat, r: nat, bytes: nat, n: nat): State
    requires Shaped(k, s) && t == k.consumers && r < |k.stages| && CanPut(k, s, t, r, n)
  {
    var th := s.threads[t];
    var j := th.pipes[r].index;
    match th.stage
    case Busy => s.WithLane(r, j, s.rings[r][j].Expect(bytes)).WithThread(t, th.(stage := Issuing(bytes)))
    case Issuing(left) =>
      if left > 0 then
        s.WithLane(r, j, s.rings[r][j].Issue(th.pos, left, n)).WithThread(t, th.(stage := Issuing(left - n)))
      else s.WithThread(t, th.PassRing(r, k.stages[r]))
    case _ => s.WithThread(t, th.(stage := Busy))
  }

  ghost function Meet(k: Launch, s: State, t: nat, b: nat): State
    requires Shaped(k, s) && t < k.Threads() && b < 2
  {
    var th := s.threads[t];
    if t < k.Members(b) && !th.stage.Arrived? then
      s.(bars := s.bars[b := s.bars[b].Arrive()]).WithThread(t, th.(stage := Arrived(s.bars[b].bit)))
    else s.WithThread(t, th.Pass())
  }

  ghost function Apply(k: Launch, s: State, m: Move): State
    requires Shaped(k, s) && Enabled(k, s, m)
  {
    match m
    case StoreDone => s.(stores := s.stores - 1)
    case Land(r, j, n) => s.WithLane(r, j, s.rings[r][j].Land(n))
    case Go(t, n) =>
      var th := s.threads[t];
      match k.script[th.pos]
      case Xfer(_, r, bytes) =>
        if t < k.consumers then Take(k, s, t, r)
        else if t == k.consumers then Put(k, s, t, r, bytes, n)
        else s.WithThread(t, th.Pass())
      case Sync(b) => Meet(k, s, t, b)
      case Work(_) =>
        if t < k.consumers && th.stage.Ready? then s.WithThread(t, th.(stage := Busy))
        else s.WithThread(t, th.Pass())
      case StoreIssue =>
        s.WithThread(t, th.Pass()).(stores := s.stores + if t == 0 then 1 else 0)
      case StoreWait => s.WithThread(t, th.Pass())
  }

  ghost predicate Next(k: Launch, s: State, s': State) {
    Shaped(k, s) && exists m :: Enabled(k, s, m) && s' == Apply(k, s, m)
  }

  ghost predicate IsRun(k: Launch, run: seq<State>) {
    && 0 < |run| && run[0] == Init(k)
    && forall i | 0 <= i < |run| - 1 :: Next(k, run[i], run[i + 1])
  }

  ghost predicate Reachable(k: Launch, s: State) {
    exists run :: IsRun(k, run) && run[|run| - 1] == s
  }
}
