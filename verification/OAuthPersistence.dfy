/**
 * Loading and persisting the store. One load, shared by every caller, comes before any mutation; each mutation chains a
 * write of the snapshot it left onto the write before it, which may still be running or may have failed.
 */
module OAuthPersistence {
  import opened Options
  import opened OAuthStore

  datatype Phase = NotLoaded | Reading | Loaded | LoadFailed

  /** A failed write may leave anything in the backend. */
  datatype Status = Queued | Running | Done(ok: bool)

  datatype Write = Write(snapshot: Servers, status: Status)

  /** `waiting` holds the mutators suspended on the load; `applied` is the history of those that went through. */
  datatype State = State(
    phase: Phase,
    waiting: seq<Op>,
    servers: Servers,
    queue: seq<Write>,
    backend: Servers,
    loadedFrom: Servers,
    applied: seq<Op>)

  datatype Step =
    | Call(op: Op)
    | ReadDone(snapshot: Option<Servers>)
    | ReadFails
    | Resume(caller: nat)
    | GiveUp(caller: nat)
    | StartWrite(write: nat)
    | FinishWrite(write: nat, ok: bool, left: Servers)

  function Without<T>(s: seq<T>, i: nat): seq<T>
    requires i < |s|
  {
    s[..i] + s[i + 1..]
  }

  predicate Enabled(s: State, step: Step) {
    match step
    case Call(_) => true
    case ReadDone(_) => s.phase == Reading
    case ReadFails => s.phase == Reading
    case Resume(i) => s.phase == Loaded && i < |s.waiting|
    case GiveUp(i) => s.phase == LoadFailed && i < |s.waiting|
    case StartWrite(i) => i < |s.queue| && s.queue[i].status == Queued && (i > 0 ==> s.queue[i - 1].status.Done?)
    case FinishWrite(i, _, _) => i < |s.queue| && s.queue[i].status == Running
  }

  function Mutate(s: State, op: Op): State {
    var servers := Apply(s.servers, op);
    s.(servers := servers, queue := s.queue + [Write(servers, Queued)], applied := s.applied + [op])
  }

  function Next(s: State, step: Step): State
    requires Enabled(s, step)
  {
    match step
    case Call(op) => s.(waiting := s.waiting + [op], phase := if s.phase == NotLoaded then Reading else s.phase)
    case ReadDone(snapshot) =>
      var servers := snapshot.GetOr(s.servers);
      s.(phase := Loaded, servers := servers, loadedFrom := servers)
    case ReadFails => s.(phase := LoadFailed)
    case Resume(i) => Mutate(s.(waiting := Without(s.waiting, i)), s.waiting[i])
    case GiveUp(i) => s.(waiting := Without(s.waiting, i))
    case StartWrite(i) => s.(queue := s.queue[i := s.queue[i].(status := Running)])
    case FinishWrite(i, ok, left) =>
      s.(queue := s.queue[i := s.queue[i].(status := Done(ok))], backend := if ok then s.queue[i].snapshot else left)
  }

  // ----- What every run keeps -----

  /** The load comes first and once; memory is always the loaded snapshot with every applied operation folded in. */
  ghost predicate NothingOverwritten(s: State) {
    && (s.phase != Loaded ==> s.applied == [] && s.queue == [])
    && s.servers == ApplyAll(s.loadedFrom, s.applied)
  }

  /** The i-th write carries the memory the i-th mutation left. */
  ghost predicate InMutationOrder(s: State) {
    && |s.queue| == |s.applied|
    && forall i | 0 <= i < |s.queue| :: s.queue[i].snapshot == ApplyAll(s.loadedFrom, s.applied[..i + 1])
  }

  /** A write has started only when every earlier one is done, so at most one runs. */
  ghost predicate OneAtATime(s: State) {
    forall i, j | 0 <= i < j < |s.queue| && s.queue[j].status != Queued :: s.queue[i].status.Done?
  }

  /** After a successful write, until the next one ends, the backend holds what it wrote. */
  ghost predicate BackendIsLastWrite(s: State) {
    forall i | 0 <= i < |s.queue| && EndedLast(s, i) :: s.backend == s.queue[i].snapshot
  }

  ghost predicate EndedLast(s: State, i: nat)
    requires i < |s.queue|
  {
    s.queue[i].status == Done(true) && (i + 1 == |s.queue| || !s.queue[i + 1].status.Done?)
  }

  ghost predicate Inv(s: State) {
    NothingOverwritten(s) && InMutationOrder(s) && OneAtATime(s) && BackendIsLastWrite(s)
  }

  lemma MutateKeeps(s: State, op: Op)
    requires Inv(s) && s.phase == Loaded
    ensures Inv(Mutate(s, op))
  {
    var t := Mutate(s, op);
    assert t.applied[..|s.applied|] == s.applied;
    forall i | 0 <= i < |t.queue|
      ensures t.queue[i].snapshot == ApplyAll(t.loadedFrom, t.applied[..i + 1])
    {
      if i < |s.queue| {
        assert t.applied[..i + 1] == s.applied[..i + 1];
      } else {
        assert t.applied[..i + 1] == t.applied;
      }
    }
  }

  lemma FinishKeeps(s: State, i: nat, ok: bool, left: Servers)
    requires Inv(s) && Enabled(s, FinishWrite(i, ok, left))
    ensures Inv(Next(s, FinishWrite(i, ok, left)))
  {
    var t := Next(s, FinishWrite(i, ok, left));
    forall j | i < j < |s.queue|
      ensures s.queue[j].status == Queued
    {
    }
  }

  lemma StartKeeps(s: State, i: nat)
    requires Inv(s) && Enabled(s, StartWrite(i))
    ensures Inv(Next(s, StartWrite(i)))
  {
  }

  lemma StepKeeps(s: State, step: Step)
    requires Inv(s) && Enabled(s, step)
    ensures Inv(Next(s, step))
  {
    match step
    case Resume(i) => MutateKeeps(s.(waiting := Without(s.waiting, i)), s.waiting[i]);
    case StartWrite(i) => StartKeeps(s, i);
    case FinishWrite(i, ok, left) => FinishKeeps(s, i, ok, left);
    case _ =>
  }

  ghost predicate IsRun(s: State, steps: seq<Step>)
    decreases |steps|
  {
    steps == [] || (Enabled(s, steps[0]) && IsRun(Next(s, steps[0]), steps[1..]))
  }

  ghost function After(s: State, steps: seq<Step>): State
    requires IsRun(s, steps)
    decreases |steps|
  {
    if steps == [] then s else After(Next(s, steps[0]), steps[1..])
  }

  function Snapshots(queue: seq<Write>): seq<Servers> {
    seq(|queue|, i requires 0 <= i < |queue| => queue[i].snapshot)
  }

  lemma StepQueues(s: State, step: Step)
    requires Enabled(s, step)
    ensures Snapshots(s.queue) <= Snapshots(Next(s, step).queue)
  {
  }

  /** A store just constructed over some backend: nothing read, nothing written. */
  ghost predicate IsFresh(s: State) {
    s.phase == NotLoaded && s.servers == s.loadedFrom && s.waiting == [] && s.queue == [] && s.applied == []
  }

  /**
   * The invariant holds after every run, and no write already queued is dropped, reordered or given another snapshot.
   */
  lemma {:induction false} RunKeeps(s: State, steps: seq<Step>)
    requires Inv(s) && IsRun(s, steps)
    ensures Inv(After(s, steps))
    ensures Snapshots(s.queue) <= Snapshots(After(s, steps).queue)
    decreases |steps|
  {
    if steps != [] {
      StepQueues(s, steps[0]);
      StepKeeps(s, steps[0]);
      RunKeeps(Next(s, steps[0]), steps[1..]);
    }
  }

  // ----- What was loaded, and what was asked for -----

  /** The records a run starts from: the snapshot its one read brings, or the memory it found when there was none. */
  ghost function LoadedBy(memory: Servers, steps: seq<Step>): Servers {
    if steps == [] then memory
    else if steps[0].ReadDone? then (match steps[0].snapshot case Some(read) => read case None => memory)
    else LoadedBy(memory, steps[1..])
  }

  /** The mutators called over a run, those that gave up because the load failed, and the rest. */
  ghost function Called(steps: seq<Step>): multiset<Op> {
    if steps == [] then multiset{}
    else (if steps[0].Call? then multiset{steps[0].op} else multiset{}) + Called(steps[1..])
  }

  ghost function GaveUp(s: State, steps: seq<Step>): multiset<Op>
    requires IsRun(s, steps)
    decreases |steps|
  {
    if steps == [] then multiset{}
    else (if steps[0].GiveUp? then multiset{s.waiting[steps[0].caller]} else multiset{}) +
         GaveUp(Next(s, steps[0]), steps[1..])
  }

  lemma WithoutOne<T>(xs: seq<T>, i: nat)
    requires i < |xs|
    ensures multiset(xs) == multiset(Without(xs, i)) + multiset{xs[i]}
  {
    assert xs == xs[..i] + [xs[i]] + xs[i + 1..];
  }

  /** A load that has not happened yet leaves the memory as it was; one that has cannot happen again. */
  lemma {:induction false} LoadIsRead(s: State, steps: seq<Step>)
    requires IsRun(s, steps)
    ensures s.phase in {NotLoaded, Reading} && s.servers == s.loadedFrom && After(s, steps).phase == Loaded ==>
      After(s, steps).loadedFrom == LoadedBy(s.servers, steps)
    ensures s.phase in {Loaded, LoadFailed} ==> After(s, steps).phase == s.phase
    decreases |steps|
  {
    if steps != [] {
      var next := Next(s, steps[0]);
      LoadIsRead(next, steps[1..]);
      if next.phase == Loaded {
        LoadedOnce(next, steps[1..]);
      }
    }
  }

  /** Every mutator called is still waiting, was applied once, or gave up; none is lost, none made up. */
  lemma {:induction false} EveryCallAccounted(s: State, steps: seq<Step>)
    requires IsRun(s, steps)
    ensures
      var t := After(s, steps);
      multiset(s.waiting) + multiset(s.applied) + Called(steps) ==
      multiset(t.waiting) + multiset(t.applied) + GaveUp(s, steps)
    decreases |steps|
  {
    if steps != [] {
      var step, next, t := steps[0], Next(s, steps[0]), After(s, steps);
      StepAccounts(s, step);
      EveryCallAccounted(next, steps[1..]);
      Balance(
        multiset(s.waiting) + multiset(s.applied), if step.Call? then multiset{step.op} else multiset{},
        multiset(next.waiting) + multiset(next.applied),
        if step.GiveUp? then multiset{s.waiting[step.caller]} else multiset{},
        Called(steps[1..]), multiset(t.waiting) + multiset(t.applied), GaveUp(next, steps[1..]));
    }
  }

  lemma Balance<T>(
    a: multiset<T>, c: multiset<T>, b: multiset<T>, g: multiset<T>, more: multiset<T>, d: multiset<T>,
    later: multiset<T>)
    requires a + c == b + g && b + more == d + later
    ensures a + (c + more) == d + (g + later)
  {
    assert a + (c + more) == b + g + more;
    assert b + g + more == b + more + g;
  }

  lemma StepAccounts(s: State, step: Step)
    requires Enabled(s, step)
    ensures
      var t := Next(s, step);
      multiset(s.waiting) + multiset(s.applied) + (if step.Call? then multiset{step.op} else multiset{}) ==
      multiset(t.waiting) + multiset(t.applied) +
      (if step.GiveUp? then multiset{s.waiting[step.caller]} else multiset{})
  {
    match step
    case Resume(i) => WithoutOne(s.waiting, i);
    case GiveUp(i) => WithoutOne(s.waiting, i);
    case _ =>
  }

  /** A failed load is final, and lets no mutator through: what the backend holds is not written over. */
  lemma FailedLoadChangesNothing(s: State, steps: seq<Step>)
    requires Inv(s) && IsRun(s, steps) && s.phase == Reading && steps != [] && steps[0] == ReadFails
    ensures
      var t := After(s, steps);
      t.phase == LoadFailed && t.applied == [] && t.queue == [] && t.servers == t.loadedFrom
  {
    RunKeeps(s, steps);
    LoadIsRead(Next(s, steps[0]), steps[1..]);
  }

  /**
   * For any interleaving of mutators, writes and the load: memory is the snapshot the one read brought, with the
   * mutations folded in, no two writes run at once, and once the queue has drained with its last write successful the
   * backend is memory.
   */
  lemma DrainedBackendIsMemory(s: State, steps: seq<Step>)
    requires IsFresh(s) && IsRun(s, steps)
    ensures
      var t := After(s, steps);
      && (t.phase == Loaded ==> t.servers == ApplyAll(LoadedBy(s.servers, steps), t.applied))
      && (t.phase != Loaded ==> t.applied == [] && t.queue == [])
      && (forall i, j | 0 <= i < |t.queue| && 0 <= j < |t.queue| ::
            t.queue[i].status == t.queue[j].status == Running ==> i == j)
      && (t.queue != [] && (forall w <- t.queue :: w.status.Done?) && t.queue[|t.queue| - 1].status.ok ==>
            t.backend == t.servers)
  {
    RunKeeps(s, steps);
    LoadIsRead(s, steps);
    var t := After(s, steps);
    assert t.applied[..|t.applied|] == t.applied;
    if t.queue != [] && (forall w <- t.queue :: w.status.Done?) && t.queue[|t.queue| - 1].status.ok {
      var n := |t.queue| - 1;
      assert t.queue[n] in t.queue && t.queue[n].status == Done(true);
      assert EndedLast(t, n);
    }
  }

  /**
   * Nothing blocks the queue, a failed write least of all: while a write is outstanding, one is running or the next
   * may start.
   */
  lemma {:induction false} QueueNeverBlocked(s: State, n: nat) returns (i: nat)
    requires Inv(s) && n < |s.queue| && !s.queue[n].status.Done?
    ensures i <= n && (s.queue[i].status == Running || Enabled(s, StartWrite(i)))
  {
    i := n;
    if n > 0 && !s.queue[n - 1].status.Done? {
      i := QueueNeverBlocked(s, n - 1);
    }
  }

  /** Once loaded, a store is never loaded again: the snapshot it started from is settled. */
  lemma {:induction false} LoadedOnce(s: State, steps: seq<Step>)
    requires IsRun(s, steps) && s.phase == Loaded
    ensures After(s, steps).phase == Loaded && After(s, steps).loadedFrom == s.loadedFrom
    ensures s.applied <= After(s, steps).applied
    decreases |steps|
  {
    if steps != [] {
      LoadedOnce(Next(s, steps[0]), steps[1..]);
    }
  }
}
