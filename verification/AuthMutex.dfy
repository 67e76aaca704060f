/**
 * The promise chain that serializes auth-challenge recovery. A caller reads the gate at the end of the chain, puts its
 * own there, waits for the one it read, runs, and opens its own on the way out, whether it returns or throws.
 */
module AuthMutex {
  /** A gate is named by the order it was made in; gate zero is the resolved promise the chain starts from. */
  type Gate = nat

  datatype Stage = Waiting | Running | Finished(threw: bool)

  datatype Frame = Frame(prior: Gate, own: Gate, stage: Stage)

  /** Callers are named by the order they joined the chain in; `entered` lists them as their bodies began. */
  datatype State = State(mutex: Gate, gatesMade: nat, open: set<Gate>, frames: seq<Frame>, entered: seq<nat>)

  datatype Step = Join | Enter(caller: nat) | Exit(caller: nat, threw: bool)

  const INITIAL: State := State(0, 0, {0}, [], [])

  predicate Enabled(s: State, step: Step) {
    match step
    case Join => true
    case Enter(c) => c < |s.frames| && s.frames[c].stage == Waiting && s.frames[c].prior in s.open
    case Exit(c, _) => c < |s.frames| && s.frames[c].stage == Running
  }

  function Next(s: State, step: Step): State
    requires Enabled(s, step)
  {
    match step
    case Join =>
      var gate := s.gatesMade + 1;
      s.(mutex := gate, gatesMade := gate, frames := s.frames + [Frame(s.mutex, gate, Waiting)])
    case Enter(c) =>
      s.(frames := s.frames[c := s.frames[c].(stage := Running)], entered := s.entered + [c])
    case Exit(c, threw) =>
      s.(open := s.open + {s.frames[c].own}, frames := s.frames[c := s.frames[c].(stage := Finished(threw))])
  }

  // ----- What every run keeps -----

  /** Each caller waits on its predecessor's gate. */
  ghost predicate Chained(s: State) {
    && s.mutex == s.gatesMade == |s.frames|
    && forall i | 0 <= i < |s.frames| :: s.frames[i].prior == i && s.frames[i].own == i + 1
  }

  /** How many bodies have finished: all that were entered, less one while the last is running. */
  ghost function FinishedCount(s: State): nat {
    var n := |s.entered|;
    if 0 < n <= |s.frames| && s.frames[n - 1].stage == Running then n - 1 else n
  }

  /** Bodies are entered in joining order; all that were entered have finished, but for the last; the rest wait. */
  ghost predicate InOrder(s: State) {
    && |s.entered| <= |s.frames|
    && (forall i | 0 <= i < |s.entered| :: s.entered[i] == i)
    && (forall i | 0 <= i < |s.frames| :: s.frames[i].stage.Finished? <==> i < FinishedCount(s))
    && (forall i | 0 <= i < |s.frames| :: s.frames[i].stage.Waiting? <==> |s.entered| <= i)
    && (forall g :: g in s.open <==> 0 <= g <= FinishedCount(s))
  }

  ghost predicate Inv(s: State) {
    Chained(s) && InOrder(s)
  }

  lemma StepKeeps(s: State, step: Step)
    requires Inv(s) && Enabled(s, step)
    ensures Inv(Next(s, step))
  {
  }

  ghost predicate IsRun(s: State, steps: seq<Step>)
    decreases |steps|
  {
    steps == [] || (Enabled(s, steps[0]) && IsRun(Next(s, steps[0]), steps[1..]))
  }

  ghost function After(s: State, steps: seq<Step>): State
    requires IsRun(s, steps)
    decreases |steps|
  {
    if steps == [] then s else After(Next(s, steps[0]), steps[1..])
  }

  lemma {:induction false} RunKeeps(s: State, steps: seq<Step>)
    requires Inv(s) && IsRun(s, steps)
    ensures Inv(After(s, steps))
    decreases |steps|
  {
    if steps != [] {
      StepKeeps(s, steps[0]);
      RunKeeps(Next(s, steps[0]), steps[1..]);
    }
  }

  /** In every run at most one body is running, and bodies begin in the order their callers joined. */
  lemma ExclusiveAndFifo(steps: seq<Step>)
    requires IsRun(INITIAL, steps)
    ensures
      var s := After(INITIAL, steps);
      && (forall i, j | 0 <= i < |s.frames| && 0 <= j < |s.frames| ::
            s.frames[i].stage == s.frames[j].stage == Running ==> i == j)
      && (forall i | 0 <= i < |s.entered| :: s.entered[i] == i)
  {
    RunKeeps(INITIAL, steps);
  }

  /** While a body runs nobody may enter; its exit, by exception too, lets in exactly the caller that joined next. */
  lemma ExitReleasesSuccessor(s: State, c: nat, threw: bool, other: nat)
    requires Inv(s) && Enabled(s, Exit(c, threw))
    ensures !Enabled(s, Enter(other))
    ensures Enabled(Next(s, Exit(c, threw)), Enter(other)) <==> other == c + 1 && c + 1 < |s.frames|
  {
  }

  /** A waiter is never stranded: somebody is running, or the caller next in line may enter. */
  lemma SomebodyCanMove(s: State, waiter: nat, threw: bool)
    requires Inv(s) && waiter < |s.frames| && s.frames[waiter].stage == Waiting
    ensures
      var next := |s.entered|;
      && next <= waiter
      && (Enabled(s, Enter(next)) || (next > 0 && Enabled(s, Exit(next - 1, threw))))
  {
  }

  ghost predicate AllFinished(s: State) {
    forall f <- s.frames :: f.stage.Finished?
  }

  /** The entries and exits the callers so far have left to make. */
  ghost function Remaining(s: State): int {
    2 * |s.frames| - |s.entered| - FinishedCount(s)
  }

  predicate HasJoin(steps: seq<Step>) {
    exists step <- steps :: step.Join?
  }

  /** While nobody joins, every step uses up one. */
  lemma StepUsesOne(s: State, step: Step)
    requires Inv(s) && Enabled(s, step) && !step.Join?
    ensures Remaining(Next(s, step)) == Remaining(s) - 1 && |Next(s, step).frames| == |s.frames|
  {
  }

  /**
   * Whatever schedule the environment picks: a run without new callers takes at most one entry and one exit for each
   * caller, and one that can be taken no further, however the bodies ended, has given every caller its turn.
   */
  lemma {:induction false} EveryScheduleFinishes(s: State, steps: seq<Step>)
    requires Inv(s) && IsRun(s, steps) && !HasJoin(steps)
    ensures |steps| == Remaining(s) - Remaining(After(s, steps)) && |steps| <= 2 * |s.frames|
    ensures |After(s, steps).frames| == |s.frames|
    ensures AllFinished(After(s, steps)) <==> forall step :: Enabled(After(s, steps), step) ==> step.Join?
    decreases |steps|
  {
    if steps != [] {
      assert !steps[0].Join?;
      assert forall step <- steps[1..] :: step in steps;
      StepKeeps(s, steps[0]);
      StepUsesOne(s, steps[0]);
      EveryScheduleFinishes(Next(s, steps[0]), steps[1..]);
    } else {
      StuckIsFinished(s);
    }
    RunKeeps(s, steps);
  }

  lemma StuckIsFinished(s: State)
    requires Inv(s)
    ensures AllFinished(s) <==> forall step :: Enabled(s, step) ==> step.Join?
  {
    var n := |s.entered|;
    if FinishedCount(s) < n {
      assert Enabled(s, Exit(n - 1, true)) && s.frames[n - 1] in s.frames;
    } else if n < |s.frames| {
      assert Enabled(s, Enter(n)) && s.frames[n] in s.frames;
    }
  }

  /** If every body that begins ends, however it ends, some schedule lets every caller have its turn. */
  lemma {:induction false} EveryoneFinishes(s: State, throws: nat -> bool) returns (steps: seq<Step>)
    requires Inv(s)
    ensures IsRun(s, steps) && AllFinished(After(s, steps)) && |After(s, steps).frames| == |s.frames|
    decreases |s.frames| - |s.entered|, |s.frames| - FinishedCount(s)
  {
    var n := |s.entered|;
    if FinishedCount(s) < n {
      steps := Continue(s, Exit(n - 1, throws(n - 1)), throws);
    } else if n < |s.frames| {
      steps := Continue(s, Enter(n), throws);
    } else {
      steps := [];
    }
  }

  lemma {:induction false} Continue(s: State, step: Step, throws: nat -> bool) returns (steps: seq<Step>)
    requires Inv(s) && Enabled(s, step) && !step.Join?
    ensures IsRun(s, steps) && AllFinished(After(s, steps)) && |After(s, steps).frames| == |s.frames|
    decreases |s.frames| - |s.entered|, |s.frames| - FinishedCount(s), 0
  {
    StepKeeps(s, step);
    var rest := EveryoneFinishes(Next(s, step), throws);
    steps := [step] + rest;
    assert steps[1..] == rest;
  }

  /** The mutex field and the segments of `handleAuthChallenge` around its await. */
  class OAuthManager {
    var authChallengeMutex: Gate
    ghost var gatesMade: nat
    ghost var open: set<Gate>
    ghost var frames: seq<Frame>
    ghost var entered: seq<nat>

    ghost function Model(): State
      reads this
    {
      State(authChallengeMutex, gatesMade, open, frames, entered)
    }

    ghost predicate Valid()
      reads this
    {
      Inv(Model())
    }

    constructor ()
      ensures Valid() && Model() == INITIAL
    {
      authChallengeMutex, gatesMade, open, frames, entered := 0, 0, {0}, [], [];
    }

    /** Read the end of the chain, become its end, and go on to await what was read. */
    method JoinChain() returns (ghost caller: nat)
      requires Valid()
      modifies this
      ensures Valid() && Model() == Next(old(Model()), Join) && caller == |old(frames)|
    {
      StepKeeps(Model(), Join);
      caller := |frames|;
      var prior := authChallengeMutex;
      var gate := prior + 1;
      gatesMade := gatesMade + 1;
      authChallengeMutex := gate;
      frames := frames + [Frame(prior, gate, Waiting)];
    }

    ghost method EnterBody(caller: nat)
      requires Valid() && Enabled(Model(), Enter(caller))
      modifies this
      ensures Valid() && Model() == Next(old(Model()), Enter(caller))
    {
      StepKeeps(Model(), Enter(caller));
      frames := frames[caller := frames[caller].(stage := Running)];
      entered := entered + [caller];
    }

    /** The `finally`: release, whichever way the body ended. */
    ghost method Release(caller: nat, threw: bool)
      requires Valid() && Enabled(Model(), Exit(caller, threw))
      modifies this
      ensures Valid() && Model() == Next(old(Model()), Exit(caller, threw))
    {
      StepKeeps(Model(), Exit(caller, threw));
      open := open + {frames[caller].own};
      frames := frames[caller := frames[caller].(stage := Finished(threw))];
    }
  }
}
