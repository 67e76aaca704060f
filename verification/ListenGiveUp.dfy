/**
 * Every way a dropped stream can end when nothing can be re-opened. A run is losing when it only fires timers, fails
 * refreshes and hears of closed streams, in any order the environment likes.
 */
module ListenGiveUp {
  import opened Options
  import opened ListenModel
  import opened ListenSafety
  import opened ListenBackoff
  import opened ListenBadge

  predicate IsLosing(step: Step) {
    step.TimerFires? || step.Resume? || step.Reject? || step.Catch? || step.StreamClosed?
  }

  predicate AllLosing(steps: seq<Step>) {
    forall step <- steps :: IsLosing(step)
  }

  /** How many re-listens a run starts. */
  function Fires(steps: seq<Step>): nat {
    if steps == [] then 0 else (if steps[0].TimerFires? then 1 else 0) + Fires(steps[1..])
  }

  /** How many of its steps do something. */
  function Moves(steps: seq<Step>): nat {
    if steps == [] then 0 else (if steps[0].StreamClosed? then 0 else 1) + Moves(steps[1..])
  }

  /** Nothing can happen any more, but for late news of streams already closed. */
  ghost predicate AtRest(s: State) {
    forall step | Enabled(s, step) && IsLosing(step) :: step.StreamClosed?
  }

  type Refreshes = map<nat, Refresh>

  /** The reconnects among the refreshes in flight. */
  function RetriesIn(refreshes: Refreshes): set<nat> {
    set g <- refreshes | refreshes[g].origin.Reconnect?
  }

  function Unrejected(refreshes: Refreshes): set<nat> {
    set g <- refreshes | !refreshes[g].stage.Rejected?
  }

  function Unclosed(refreshes: Refreshes): set<nat> {
    set g <- refreshes | refreshes[g].stage.Closing?
  }

  /** The steps the refreshes in flight can take. */
  function Load(refreshes: Refreshes): nat {
    |refreshes.Keys| + |Unrejected(refreshes)| + |Unclosed(refreshes)|
  }

  lemma OneMore(some: set<nat>, more: set<nat>, g: nat)
    requires g in more && g !in some && forall h | h != g :: h in more <==> h in some
    ensures more == some + {g} && |more| == |some| + 1
  {
    assert more - {g} == some;
  }

  lemma LoadAdded(refreshes: Refreshes, g: nat, r: Refresh)
    requires g !in refreshes && r.origin.Reconnect? && r.stage.Listening?
    ensures
      var more := refreshes[g := r];
      && RetriesIn(more) == RetriesIn(refreshes) + {g} && |RetriesIn(more)| == |RetriesIn(refreshes)| + 1
      && Load(more) == Load(refreshes) + 2
  {
    var more := refreshes[g := r];
    OneMore(refreshes.Keys, more.Keys, g);
    OneMore(RetriesIn(refreshes), RetriesIn(more), g);
    OneMore(Unrejected(refreshes), Unrejected(more), g);
    assert Unclosed(more) == Unclosed(refreshes);
  }

  lemma LoadResumed(refreshes: Refreshes, g: nat, filter: Filter)
    requires g in refreshes && refreshes[g].stage.Closing?
    ensures
      var more := refreshes[g := refreshes[g].(stage := Listening(filter))];
      RetriesIn(more) == RetriesIn(refreshes) && Load(more) == Load(refreshes) - 1
  {
    var more := refreshes[g := refreshes[g].(stage := Listening(filter))];
    assert more.Keys == refreshes.Keys;
    assert RetriesIn(more) == RetriesIn(refreshes);
    assert Unrejected(more) == Unrejected(refreshes);
    assert Unclosed(more) == Unclosed(refreshes) - {g};
  }

  lemma LoadRejected(refreshes: Refreshes, g: nat)
    requires g in refreshes && refreshes[g].stage.Listening?
    ensures
      var more := refreshes[g := refreshes[g].(stage := Rejected)];
      RetriesIn(more) == RetriesIn(refreshes) && Load(more) == Load(refreshes) - 1
  {
    var more := refreshes[g := refreshes[g].(stage := Rejected)];
    assert more.Keys == refreshes.Keys;
    assert RetriesIn(more) == RetriesIn(refreshes);
    assert Unrejected(more) == Unrejected(refreshes) - {g};
    assert Unclosed(more) == Unclosed(refreshes);
  }

  lemma LoadCaught(refreshes: Refreshes, g: nat)
    requires g in refreshes && refreshes[g].stage.Rejected?
    ensures
      var less := refreshes - {g};
      && RetriesIn(less) == RetriesIn(refreshes) - {g}
      && |RetriesIn(less)| == |RetriesIn(refreshes)| - (if refreshes[g].origin.Reconnect? then 1 else 0)
      && Load(less) == Load(refreshes) - 1
  {
    var less := refreshes - {g};
    assert less.Keys == refreshes.Keys - {g};
    assert RetriesIn(less) == RetriesIn(refreshes) - {g};
    assert Unrejected(less) == Unrejected(refreshes);
    assert Unclosed(less) == Unclosed(refreshes);
  }

  function Retries(s: State): set<nat> {
    RetriesIn(s.refreshes)
  }

  /** The failures that still count towards the delay. */
  function Counted(s: State): nat {
    if s.attempts < RECONNECT_MAX_ATTEMPTS then s.attempts else RECONNECT_MAX_ATTEMPTS
  }

  function Slots(s: State): nat {
    |Retries(s)| + if s.timer.Some? then 1 else 0
  }

  // ----- What every losing run keeps -----

  /** The connection is up and wanted, no stream is installed, and no handler but a reconnect's owns the filter. */
  ghost predicate Lost(s: State) {
    && Numbered(s) && !s.terminal && Wants(s) && s.current == None
    && (NewestInFlight(s) ==> s.refreshes[s.generation].origin.Reconnect?)
  }

  /**
   * Each count of failures from `first` on has paid for at most one re-listen and one wait. With no timer armed, either
   * a reconnect is still to fail or the client has given up.
   */
  ghost predicate Within(s: State, first: nat, waited: nat, fires: nat) {
    && Lost(s) && first <= Counted(s)
    && (s.timer.Some? ==>
          && s.timer.value == Delay(Counted(s))
          && waited <= DelaysBetween(first, Counted(s)) && fires <= Counted(s) - first)
    && (s.timer.None? ==>
          && waited <= DelaysBetween(first, Counted(s) + 1) && fires <= Counted(s) + 1 - first
          && (Retries(s) == {} ==> s.attempts > RECONNECT_MAX_ATTEMPTS && s.badge.status == Ended))
  }

  /** The same with every re-listen and every wait paid for. */
  ghost predicate Full(s: State, first: nat, waited: nat, fires: nat) {
    && first <= Counted(s)
    && (if s.timer.Some?
        then waited == DelaysBetween(first, Counted(s)) && fires == Counted(s) - first
        else waited == DelaysBetween(first, Counted(s) + 1) && fires == Counted(s) + 1 - first)
  }

  /** What is left to do: each step but the news of a closed stream makes it smaller. */
  function Work(s: State): nat {
    Load(s.refreshes) + (if s.timer.Some? then 4 else 0) + 4 * (RECONNECT_MAX_ATTEMPTS - Counted(s))
  }

  /** How one losing step moves the counts. */
  ghost predicate Moved(s: State, step: Step, t: State) {
    && t.attempts + |Retries(t)| == s.attempts + |Retries(s)| + (if step.TimerFires? then 1 else 0)
    && Slots(t) <= Slots(s)
    && (s.timer.Some? && !step.TimerFires? ==> t.timer.Some?)
    && (if step.StreamClosed? then Work(t) == Work(s) else Work(t) < Work(s))
  }

  lemma FireWithin(s: State, first: nat, waited: nat, fires: nat)
    requires Within(s, first, waited, fires) && s.timer.Some?
    ensures
      var t := Next(s, TimerFires);
      Moved(s, TimerFires, t) && Within(t, first, waited + s.timer.value, fires + 1)
    ensures Full(s, first, waited, fires) ==> Full(Next(s, TimerFires), first, waited + s.timer.value, fires + 1)
  {
    var r := Refresh(Origin.Reconnect, s.generation, Listening(CurrentFilter(s)));
    LoadAdded(s.refreshes, s.generation + 1, r);
    Fired(s, r);
  }

  lemma Fired(s: State, r: Refresh)
    requires Lost(s) && s.timer.Some? && r == Refresh(Origin.Reconnect, s.generation, Listening(CurrentFilter(s)))
    ensures
      Next(s, TimerFires) ==
      s.(timer := None, generation := s.generation + 1, refreshes := s.refreshes[s.generation + 1 := r])
    ensures Lost(Next(s, TimerFires))
  {
  }

  lemma ResumeWithin(s: State, g: nat, first: nat, waited: nat, fires: nat)
    requires Within(s, first, waited, fires) && Enabled(s, Resume(g))
    ensures
      var t := Next(s, Resume(g));
      && Moved(s, Resume(g), t) && Within(t, first, waited, fires)
      && t.timer == s.timer && t.attempts == s.attempts
  {
    LoadResumed(s.refreshes, g, CurrentFilter(s));
  }

  lemma RejectWithin(s: State, g: nat, first: nat, waited: nat, fires: nat)
    requires Within(s, first, waited, fires) && Enabled(s, Reject(g))
    ensures
      var t := Next(s, Reject(g));
      && Moved(s, Reject(g), t) && Within(t, first, waited, fires)
      && t.timer == s.timer && t.attempts == s.attempts
  {
    LoadRejected(s.refreshes, g);
  }

  /** A handler that is not a reconnect's finds that it does not own the filter. */
  lemma OtherCatch(s: State, g: nat)
    requires Lost(s) && Enabled(s, Catch(g)) && !s.refreshes[g].origin.Reconnect?
    ensures Next(s, Catch(g)) == s.(refreshes := s.refreshes - {g})
  {
  }

  lemma RetryCatch(s: State, g: nat)
    requires Lost(s) && Enabled(s, Catch(g)) && s.refreshes[g].origin.Reconnect?
    ensures
      var t := Next(s, Catch(g));
      && t == s.(refreshes := s.refreshes - {g}, attempts := s.attempts + 1, badge := t.badge, timer := t.timer,
                 announced := t.announced)
      && (if t.attempts > RECONNECT_MAX_ATTEMPTS then t.timer == s.timer && t.badge.status == Ended
          else t.timer == Some(Delay(t.attempts)))
  {
  }

  lemma RetryCatchWithin(s: State, g: nat, first: nat, waited: nat, fires: nat)
    requires Within(s, first, waited, fires) && Enabled(s, Catch(g)) && s.refreshes[g].origin.Reconnect?
    ensures
      var t := Next(s, Catch(g));
      Moved(s, Catch(g), t) && Within(t, first, waited, fires) && t.attempts == s.attempts + 1
    ensures s.timer == None && Full(s, first, waited, fires) ==> Full(Next(s, Catch(g)), first, waited, fires)
  {
    LoadCaught(s.refreshes, g);
    RetryCatch(s, g);
  }

  lemma OtherCatchWithin(s: State, g: nat, first: nat, waited: nat, fires: nat)
    requires Within(s, first, waited, fires) && Enabled(s, Catch(g)) && !s.refreshes[g].origin.Reconnect?
    ensures
      var t := Next(s, Catch(g));
      Moved(s, Catch(g), t) && Within(t, first, waited, fires) && t.attempts == s.attempts && t.timer == s.timer
  {
    LoadCaught(s.refreshes, g);
    OtherCatch(s, g);
  }

  lemma CatchWithin(s: State, g: nat, first: nat, waited: nat, fires: nat)
    requires Within(s, first, waited, fires) && Enabled(s, Catch(g))
    ensures Moved(s, Catch(g), Next(s, Catch(g))) && Within(Next(s, Catch(g)), first, waited, fires)
    ensures s.timer == None && Full(s, first, waited, fires) ==> Full(Next(s, Catch(g)), first, waited, fires)
  {
    if s.refreshes[g].origin.Reconnect? {
      RetryCatchWithin(s, g, first, waited, fires);
    } else {
      OtherCatchWithin(s, g, first, waited, fires);
    }
  }

  lemma CloseWithin(s: State, id: StreamId, reason: CloseReason, first: nat, waited: nat, fires: nat)
    requires Within(s, first, waited, fires) && Enabled(s, StreamClosed(id, reason))
    ensures
      var t := Next(s, StreamClosed(id, reason));
      && Moved(s, StreamClosed(id, reason), t) && Within(t, first, waited, fires)
      && t == s.(streams := t.streams)
  {
  }

  lemma StepWithin(s: State, step: Step, first: nat, waited: nat, fires: nat)
    requires Within(s, first, waited, fires) && Enabled(s, step) && IsLosing(step)
    ensures
      var t := Next(s, step);
      && Moved(s, step, t)
      && (if step.TimerFires? then Within(t, first, waited + s.timer.value, fires + 1)
          else Within(t, first, waited, fires))
  {
    match step
    case TimerFires => FireWithin(s, first, waited, fires);
    case Resume(g) => ResumeWithin(s, g, first, waited, fires);
    case Reject(g) => RejectWithin(s, g, first, waited, fires);
    case Catch(g) => CatchWithin(s, g, first, waited, fires);
    case StreamClosed(id, reason) => CloseWithin(s, id, reason, first, waited, fires);
  }

  /** Over any losing run the counts stay within their bounds, and each re-listen is a failure counted or to come. */
  lemma {:induction false} RunWithin(s: State, steps: seq<Step>, first: nat, waited: nat, fires: nat)
    requires Within(s, first, waited, fires) && IsRun(s, steps) && AllLosing(steps)
    ensures
      var t := After(s, steps);
      && Within(t, first, waited + Waited(s, steps), fires + Fires(steps))
      && t.attempts + |Retries(t)| == s.attempts + |Retries(s)| + Fires(steps)
      && Slots(t) <= Slots(s)
      && (s.timer.Some? && Fires(steps) == 0 ==> t.timer.Some?)
      && Work(t) + Moves(steps) <= Work(s)
    decreases |steps|
  {
    if steps != [] {
      var step := steps[0];
      assert IsLosing(step);
      StepWithin(s, step, first, waited, fires);
      var (wait, fire) := if step.TimerFires? then (s.timer.value, 1) else (0, 0);
      assert wait + Waited(Next(s, step), steps[1..]) == Waited(s, steps);
      RunWithin(Next(s, step), steps[1..], first, waited + wait, fires + fire);
    }
  }

  lemma RestMeans(s: State, first: nat, waited: nat, fires: nat)
    requires Within(s, first, waited, fires) && AtRest(s)
    ensures GivenUp(s) && s.refreshes == map[] && s.attempts > RECONNECT_MAX_ATTEMPTS
  {
    RestIsIdle(s);
    assert Retries(s) == {};
  }

  /** Any refresh in flight has a next step. */
  function Turn(s: State, g: nat): (step: Step)
    requires g in s.refreshes
    ensures Enabled(s, step) && IsLosing(step) && !step.StreamClosed? && !step.TimerFires?
  {
    match s.refreshes[g].stage
    case Closing => Resume(g)
    case Listening(_) => Reject(g)
    case Rejected => Catch(g)
  }

  lemma RestIsIdle(s: State)
    ensures AtRest(s) <==> s.timer == None && s.refreshes == map[]
  {
    if s.timer.Some? {
      assert Enabled(s, TimerFires) && !AtRest(s);
    } else if s.refreshes != map[] {
      var g :| g in s.refreshes;
      assert Enabled(s, Turn(s, g)) && !AtRest(s);
    }
  }

  // ----- Where a run comes to rest -----

  lemma CatchAlone(s: State, g: nat, first: nat, waited: nat, fires: nat)
    requires Within(s, first, waited, fires) && Full(s, first, waited, fires) && Slots(s) <= 1 && Enabled(s, Catch(g))
    ensures Full(Next(s, Catch(g)), first, waited, fires)
  {
    CatchWithin(s, g, first, waited, fires);
    if s.refreshes[g].origin.Reconnect? {
      assert g in Retries(s);
      assert Retries(s) != {} && |Retries(s)| >= 1;
    } else {
      OtherCatch(s, g);
    }
  }

  lemma StepAlone(s: State, step: Step, first: nat, waited: nat, fires: nat, wait: nat, fire: nat)
    requires Within(s, first, waited, fires) && Full(s, first, waited, fires) && Slots(s) <= 1
    requires Enabled(s, step) && IsLosing(step)
    requires (wait, fire) == if step.TimerFires? then (s.timer.value, 1) else (0, 0)
    ensures Within(Next(s, step), first, waited + wait, fires + fire)
    ensures Full(Next(s, step), first, waited + wait, fires + fire) && Slots(Next(s, step)) <= 1
  {
    StepWithin(s, step, first, waited, fires);
    match step
    case TimerFires => FireWithin(s, first, waited, fires);
    case Resume(g) => ResumeWithin(s, g, first, waited, fires);
    case Reject(g) => RejectWithin(s, g, first, waited, fires);
    case Catch(g) => CatchAlone(s, g, first, waited, fires);
    case StreamClosed(id, reason) => CloseWithin(s, id, reason, first, waited, fires);
  }

  /** With nobody else's reconnect about, at most one thing is ever on its way, and every wait is paid for. */
  lemma {:induction false} RunAlone(s: State, steps: seq<Step>, first: nat, waited: nat, fires: nat)
    requires Within(s, first, waited, fires) && Full(s, first, waited, fires) && Slots(s) <= 1
    requires IsRun(s, steps) && AllLosing(steps)
    ensures Full(After(s, steps), first, waited + Waited(s, steps), fires + Fires(steps))
    decreases |steps|
  {
    if steps != [] {
      var step := steps[0];
      assert IsLosing(step);
      var (wait, fire) := if step.TimerFires? then (s.timer.value, 1) else (0, 0);
      StepAlone(s, step, first, waited, fires, wait, fire);
      assert wait + Waited(Next(s, step), steps[1..]) == Waited(s, steps);
      RunAlone(Next(s, step), steps[1..], first, waited + wait, fires + fire);
    }
  }

  // ----- The drop -----

  /** The state in which the client has just lost a live stream on a live connection. */
  ghost predicate Dropping(s: State) {
    Inv(s) && s.current.Some? && !s.terminal && Wants(s)
  }

  function Dropped(s: State): State
    requires s.current.Some? && s.current.value in s.streams && !s.streams[s.current.value].reportedClosed
  {
    Next(s, StreamClosed(s.current.value, Remote))
  }

  lemma DropStarts(s: State)
    requires Dropping(s)
    ensures Within(Dropped(s), Counted(s), 0, 0) && Full(Dropped(s), Counted(s), 0, 0) && Dropped(s).timer.Some?
    ensures Dropped(s).attempts == s.attempts && Dropped(s).refreshes == s.refreshes
  {
    StepKeeps(s, StreamClosed(s.current.value, Remote));
    if s.attempts > RECONNECT_MAX_ATTEMPTS {
      DelayBounds(RECONNECT_MAX_ATTEMPTS, s.attempts);
    }
  }

  /**
   * Nobody else's reconnect is in flight when the stream drops. Then every losing run re-lists at most nine times less
   * the failures already counted, and one that can go no further has done so exactly, waited exactly those delays, and
   * left the client at rest: no stream, no timer, and a badge that says so. After a healthy stream: nine, 75.5 seconds.
   */
  lemma DroppedStreamGivesUp(s: State, steps: seq<Step>)
    requires Dropping(s) && s.attempts <= RECONNECT_MAX_ATTEMPTS && Retries(s) == {}
    requires IsRun(Dropped(s), steps) && AllLosing(steps)
    ensures
      var fires, waited := Fires(steps), Waited(Dropped(s), steps);
      && fires <= 9 - s.attempts && waited == DelaysBetween(s.attempts, s.attempts + fires)
      && (AtRest(After(Dropped(s), steps)) ==>
            && GivenUp(After(Dropped(s), steps)) && fires == 9 - s.attempts
            && (s.attempts == 0 ==> fires == 9 && waited == 75_500))
  {
    DropStarts(s);
    AloneGivesUp(Dropped(s), steps, s.attempts);
    DelayTotals();
  }

  lemma AloneGivesUp(d: State, steps: seq<Step>, first: nat)
    requires Within(d, first, 0, 0) && Full(d, first, 0, 0) && Slots(d) <= 1 && IsRun(d, steps) && AllLosing(steps)
    ensures
      var fires, waited := Fires(steps), Waited(d, steps);
      && fires <= 9 - first && waited == DelaysBetween(first, first + fires)
      && (AtRest(After(d, steps)) ==> GivenUp(After(d, steps)) && fires == 9 - first)
  {
    RunAlone(d, steps, first, 0, 0);
    RunWithin(d, steps, first, 0, 0);
    FullMeans(After(d, steps), first, Waited(d, steps), Fires(steps));
  }

  lemma FullMeans(s: State, first: nat, waited: nat, fires: nat)
    requires Within(s, first, waited, fires) && Full(s, first, waited, fires)
    ensures fires <= 9 - first && waited == DelaysBetween(first, first + fires)
    ensures AtRest(s) ==> GivenUp(s) && fires == 9 - first
  {
    assert first + fires == if s.timer.Some? then Counted(s) else Counted(s) + 1;
    if AtRest(s) {
      RestMeans(s, first, waited, fires);
    }
  }

  /**
   * What superseded reconnects in flight do to the count: each spends one of the failures that end the run. With `r` of
   * them the re-listens are the failures less those spent, at least nine less `r` (and always one), at most nine; the
   * waiting can only be shorter. Any losing run does a bounded number of things.
   */
  lemma StaleReconnectsSpendFailures(s: State, steps: seq<Step>)
    requires Dropping(s) && IsRun(Dropped(s), steps) && AllLosing(steps)
    ensures Moves(steps) <= Work(Dropped(s))
    ensures Fires(steps) <= 9 - Counted(s) && Waited(Dropped(s), steps) <= DelaysBetween(Counted(s), 9)
    ensures
      var t := After(Dropped(s), steps);
      AtRest(t) ==>
        && GivenUp(t) && t.attempts == s.attempts + |Retries(s)| + Fires(steps)
        && Fires(steps) >= 1 && s.attempts + |Retries(s)| + Fires(steps) >= 9
  {
    var d, t := Dropped(s), After(Dropped(s), steps);
    DropStarts(s);
    RunWithin(d, steps, Counted(s), 0, 0);
    DelaysSum(Counted(s), Counted(t), 9);
    DelaysSum(Counted(s), if t.timer.Some? then Counted(t) else Counted(t) + 1, 9);
    if AtRest(t) {
      RestMeans(t, Counted(s), Waited(d, steps), Fires(steps));
    }
  }

  // ----- Runs that come to rest -----

  lemma FireFull(s: State, first: nat, waited: nat, fires: nat)
    requires Within(s, first, waited, fires) && Full(s, first, waited, fires) && s.timer.Some?
    ensures
      var t, wait := Next(s, TimerFires), s.timer.value;
      && Work(t) < Work(s) && Within(t, first, waited + wait, fires + 1) && Full(t, first, waited + wait, fires + 1)
  {
    FireWithin(s, first, waited, fires);
  }

  lemma TurnFull(s: State, g: nat, first: nat, waited: nat, fires: nat)
    requires Within(s, first, waited, fires) && Full(s, first, waited, fires) && s.timer.None? && g in s.refreshes
    ensures
      var t := Next(s, Turn(s, g));
      Work(t) < Work(s) && Within(t, first, waited, fires) && Full(t, first, waited, fires)
  {
    match s.refreshes[g].stage
    case Closing => ResumeWithin(s, g, first, waited, fires);
    case Listening(_) => RejectWithin(s, g, first, waited, fires);
    case Rejected => CatchWithin(s, g, first, waited, fires);
  }

  /** Every timer fires before the next failure. */
  lemma {:induction false} EagerRun(s: State, first: nat, waited: nat, fires: nat) returns (steps: seq<Step>)
    requires Within(s, first, waited, fires) && Full(s, first, waited, fires)
    ensures IsRun(s, steps) && AllLosing(steps) && AtRest(After(s, steps))
    ensures Full(After(s, steps), first, waited + Waited(s, steps), fires + Fires(steps))
    decreases Work(s)
  {
    RestIsIdle(s);
    if AtRest(s) {
      steps := [];
    } else {
      var step := if s.timer.Some? then TimerFires else var g :| g in s.refreshes; Turn(s, g);
      var (wait, fire) := if s.timer.Some? then (s.timer.value, 1) else (0, 0);
      if s.timer.Some? {
        FireFull(s, first, waited, fires);
      } else {
        TurnFull(s, step.refresh, first, waited, fires);
      }
      var rest := EagerRun(Next(s, step), first, waited + wait, fires + fire);
      steps := LosingCons(s, step, rest);
    }
  }

  lemma LosingCons(s: State, step: Step, rest: seq<Step>) returns (steps: seq<Step>)
    requires Enabled(s, step) && IsLosing(step) && IsRun(Next(s, step), rest) && AllLosing(rest)
    ensures steps == [step] + rest && IsRun(s, steps) && AllLosing(steps)
    ensures After(s, steps) == After(Next(s, step), rest)
    ensures Waited(s, steps) == (if step.TimerFires? then s.timer.value else 0) + Waited(Next(s, step), rest)
    ensures Fires(steps) == (if step.TimerFires? then 1 else 0) + Fires(rest)
  {
    steps := [step] + rest;
    assert steps[1..] == rest;
  }

  lemma TurnDrains(s: State, g: nat, first: nat)
    requires Within(s, first, 0, 0) && s.timer.Some? && g in s.refreshes
    ensures
      var t := Next(s, Turn(s, g));
      && Work(t) < Work(s) && Within(t, first, 0, 0) && t.timer.Some?
      && t.attempts + |Retries(t)| == s.attempts + |Retries(s)|
  {
    match s.refreshes[g].stage
    case Closing => ResumeWithin(s, g, first, 0, 0);
    case Listening(_) => RejectWithin(s, g, first, 0, 0);
    case Rejected => CatchWithin(s, g, first, 0, 0);
  }

  /** The refreshes in flight all fail before the timer fires. */
  lemma {:induction false} Drain(s: State, first: nat) returns (steps: seq<Step>)
    requires Within(s, first, 0, 0) && s.timer.Some?
    ensures IsRun(s, steps) && AllLosing(steps) && Fires(steps) == Waited(s, steps) == 0
    ensures After(s, steps).refreshes == map[] && After(s, steps).timer.Some? && Within(After(s, steps), first, 0, 0)
    ensures After(s, steps).attempts == s.attempts + |Retries(s)|
    decreases Work(s)
  {
    if s.refreshes != map[] {
      var g :| g in s.refreshes;
      TurnDrains(s, g, first);
      var rest := Drain(Next(s, Turn(s, g)), first);
      steps := LosingCons(s, Turn(s, g), rest);
    } else {
      assert Retries(s) == {};
      steps := [];
    }
  }

  lemma LosingConcat(s: State, xs: seq<Step>, ys: seq<Step>) returns (steps: seq<Step>)
    requires IsRun(s, xs) && AllLosing(xs) && IsRun(After(s, xs), ys) && AllLosing(ys)
    ensures steps == xs + ys && IsRun(s, steps) && AllLosing(steps)
    ensures After(s, steps) == After(After(s, xs), ys)
    ensures Waited(s, steps) == Waited(s, xs) + Waited(After(s, xs), ys)
    ensures Fires(steps) == Fires(xs) + Fires(ys)
  {
    steps := xs + ys;
    RunConcat(s, xs, ys, steps);
    FiresConcat(xs, ys);
  }

  lemma {:induction false} FiresConcat(xs: seq<Step>, ys: seq<Step>)
    ensures Fires(xs + ys) == Fires(xs) + Fires(ys)
  {
    if xs == [] {
      assert xs + ys == ys;
    } else {
      assert (xs + ys)[1..] == xs[1..] + ys;
      FiresConcat(xs[1..], ys);
    }
  }

  /** Both bounds are reached: fewest when the superseded reconnects fail first, most when every timer fires first. */
  lemma BothEndsHappen(s: State) returns (fewest: seq<Step>, most: seq<Step>)
    requires Dropping(s)
    ensures IsRun(Dropped(s), fewest) && AllLosing(fewest) && AtRest(After(Dropped(s), fewest))
    ensures
      var spent := s.attempts + |Retries(s)|;
      && Fires(fewest) == (if spent <= 8 then 9 - spent else 1)
      && (spent > 0 ==> Waited(Dropped(s), fewest) <= 75_000)
    ensures IsRun(Dropped(s), most) && AllLosing(most) && AtRest(After(Dropped(s), most))
    ensures Fires(most) == 9 - Counted(s) && Waited(Dropped(s), most) == DelaysBetween(Counted(s), 9)
  {
    DropStarts(s);
    most := EagerRun(Dropped(s), Counted(s), 0, 0);
    RestIsFull(Dropped(s), most, Counted(s), 0, 0);
    fewest := DrainedRun(Dropped(s), Counted(s));
    if s.attempts + |Retries(s)| > 0 {
      DelayTotals();
      DelaysSum(1, if s.attempts + |Retries(s)| <= 8 then s.attempts + |Retries(s)| else 8, 9);
    }
  }

  lemma DrainedRun(d: State, first: nat) returns (steps: seq<Step>)
    requires Within(d, first, 0, 0) && d.timer.Some?
    ensures IsRun(d, steps) && AllLosing(steps) && AtRest(After(d, steps))
    ensures
      var spent := d.attempts + |Retries(d)|;
      var start := if spent <= 8 then spent else 8;
      Fires(steps) == 9 - start && Waited(d, steps) == DelaysBetween(start, 9)
  {
    var drained := Drain(d, first);
    var e := After(d, drained);
    var rest := EagerRun(e, Counted(e), 0, 0);
    RestIsFull(e, rest, Counted(e), 0, 0);
    steps := LosingConcat(d, drained, rest);
  }

  /** At rest a full run has made all its re-listens. */
  lemma RestIsFull(s: State, steps: seq<Step>, first: nat, waited: nat, fires: nat)
    requires Within(s, first, waited, fires) && IsRun(s, steps) && AllLosing(steps) && AtRest(After(s, steps))
    requires Full(After(s, steps), first, waited + Waited(s, steps), fires + Fires(steps))
    ensures fires + Fires(steps) == 9 - first && waited + Waited(s, steps) == DelaysBetween(first, 9)
  {
    RunWithin(s, steps, first, waited, fires);
    RestMeans(After(s, steps), first, waited + Waited(s, steps), fires + Fires(steps));
  }

  /** Every losing run that comes to rest has made nine re-listens over 75.5 seconds. */
  ghost predicate AlwaysNine(s: State)
    requires Dropping(s)
  {
    forall steps | IsRun(Dropped(s), steps) && AllLosing(steps) && AtRest(After(Dropped(s), steps)) ::
      Fires(steps) == 9 && Waited(Dropped(s), steps) == 75_500
  }

  /** That is so exactly when the stream was healthy and nobody else's reconnect was in flight as it dropped. */
  lemma NineExactly(s: State)
    requires Dropping(s)
    ensures AlwaysNine(s) <==> s.attempts == 0 && Retries(s) == {}
  {
    if s.attempts == 0 && Retries(s) == {} {
      forall steps | IsRun(Dropped(s), steps) && AllLosing(steps) && AtRest(After(Dropped(s), steps))
        ensures Fires(steps) == 9 && Waited(Dropped(s), steps) == 75_500
      {
        DroppedStreamGivesUp(s, steps);
      }
    } else {
      var fewest, _ := BothEndsHappen(s);
      assert s.attempts + |Retries(s)| > 0;
      assert Waited(Dropped(s), fewest) <= 75_000;
    }
  }

  /**
   * From the acknowledgement on: whatever failures came before it, the newest refresh's stream starts the count afresh,
   * so if it drops with no older reconnect in flight, every losing run ends after the same nine and 75.5 seconds.
   */
  lemma AcknowledgedStreamThatDropsGivesUp(s: State, id: StreamId, honored: set<Uri>)
    requires Inv(s) && Enabled(s, Acknowledge(s.generation, id, honored)) && !s.terminal && Wants(s)
    ensures Dropping(Next(s, Acknowledge(s.generation, id, honored)))
    ensures AlwaysNine(Next(s, Acknowledge(s.generation, id, honored))) <==> Retries(s) <= {s.generation}
  {
    var installed := Next(s, Acknowledge(s.generation, id, honored));
    StepKeeps(s, Acknowledge(s.generation, id, honored));
    NineExactly(installed);
    assert Retries(installed) == Retries(s) - {s.generation};
  }

  /**
   * A reachable one that is not: the user subscribes while a reconnect is in flight and is acknowledged, that healthy
   * stream drops, and the old reconnect fails. Eight re-listens over 75 seconds are all that is left.
   */
  lemma EightAfterStaleReconnect(uri: Uri) returns (before: seq<Step>, s: State, steps: seq<Step>)
    ensures IsRun(INITIAL, before) && s == After(INITIAL, before)
    ensures Dropping(s) && s.attempts == 0 && s.badge.status == Acknowledged && s.subscribed == {uri}
    ensures IsRun(Dropped(s), steps) && AllLosing(steps) && GivenUp(After(Dropped(s), steps))
    ensures Fires(steps) == 8 && Waited(Dropped(s), steps) == 75_000
  {
    before, s := SubscribeDuringReconnect(uri);
    RunAppend(INITIAL, before, Acknowledge(3, 1, {uri}));
    before := before + [Acknowledge(3, 1, {uri})];
    s := After(INITIAL, before);
    InitialInv();
    RunKeeps(INITIAL, before);
    DropStarts(s);
    steps := EightMore(Dropped(s));
  }

  lemma EightMore(d: State) returns (steps: seq<Step>)
    requires Numbered(d) && !d.terminal && Wants(d) && d.current == None && d.attempts == 0 && d.timer.Some?
    requires Enabled(d, Reject(2)) && d.refreshes[2].origin.Reconnect?
    ensures IsRun(d, steps) && AllLosing(steps) && GivenUp(After(d, steps))
    ensures Fires(steps) == 8 && Waited(d, steps) == 75_000
  {
    var d1 := Next(d, Reject(2));
    var d2 := Next(d1, Catch(2));
    var relistens := FailedRelistens(d2.generation, 8);
    assert AfterFailures(d2, 1);
    FailuresGiveUp(d2, 1, 8, 9);
    FailedRelistensFire(d2.generation, 8);
    DelayTotals();
    steps := LosingCons(d1, Catch(2), relistens);
    steps := LosingCons(d, Reject(2), steps);
  }

  lemma FiresOfThree(a: Step, b: Step, c: Step)
    ensures Fires([a, b, c]) == Fires([a]) + Fires([b]) + Fires([c])
  {
    FiresConcat([a], [b]);
    FiresConcat([a, b], [c]);
    assert [a] + [b] == [a, b] && [a, b] + [c] == [a, b, c];
  }

  lemma {:induction false} FailedRelistensFire(generation: nat, n: nat)
    ensures AllLosing(FailedRelistens(generation, n)) && Fires(FailedRelistens(generation, n)) == n
    decreases n
  {
    if n > 0 {
      var first := FailedRelisten(generation);
      FailedRelistensFire(generation + 1, n - 1);
      FiresConcat(first, FailedRelistens(generation + 1, n - 1));
      FiresOfThree(first[0], first[1], first[2]);
    }
  }
}
