/** Which events of the script a thread's own program contains. */
module Roles {
  import opened Machine

  /** Leader issues the copies, Helper is any other producer thread; Writer is the consumer
      thread that issues the bulk stores, Worker any other consumer thread. */
  datatype Role = Leader | Helper | Writer | Worker

  function RoleOf(k: Kernel, t: nat): Role {
    if t == 0 then Writer else if t < k.consumers then Worker else if t == k.consumers then Leader else Helper
  }

  predicate Does(role: Role, e: Event) {
    match role
    case Leader => e.Xfer? || e == Sync(BLOCK)
    case Helper => e == Sync(BLOCK)
    case Writer => true
    case Worker => !e.StoreIssue? && !e.StoreWait?
  }

  /** The program of a role: its own events of a script, in order. */
  function Performed(script: seq<Event>, role: Role): seq<Event> {
    if script == [] then [] else
    var n := |script| - 1;
    Performed(script[..n], role) + if Does(role, script[n]) then [script[n]] else []
  }

  lemma {:induction false} PerformedConcat(a: seq<Event>, b: seq<Event>, role: Role)
    ensures Performed(a + b, role) == Performed(a, role) + Performed(b, role)
  {
    if b == [] {
      assert a + b == a;
    } else {
      PerformedConcat(a, b[..|b| - 1], role);
      assert (a + b)[..|a + b| - 1] == a + b[..|b| - 1];
    }
  }

  lemma {:induction false} PerformedAll(script: seq<Event>, role: Role)
    ensures (forall e | e in script :: Does(role, e)) ==> Performed(script, role) == script
    ensures (forall e | e in script :: !Does(role, e)) ==> Performed(script, role) == []
  {
    if script != [] { PerformedAll(script[..|script| - 1], role); }
  }

  /** An event outside a thread's program is a step that only moves the thread on, and that
      is always possible. */
  lemma IdleStep(k: Launch, s: State, t: nat, n: nat)
    requires Shaped(k, s) && t < k.Threads() && s.threads[t].pos < |k.script| && s.threads[t].stage.Ready?
    requires !Does(RoleOf(k, t), k.script[s.threads[t].pos])
    ensures Enabled(k, s, Go(t, n)) && Apply(k, s, Go(t, n)) == s.WithThread(t, s.threads[t].Pass())
  {
  }
}
