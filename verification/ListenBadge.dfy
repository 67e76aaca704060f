/**
 * Whether the badge can be trusted to change: a badge other than "ended" always has something behind it that will
 * move it. True within one session; a late reconnect failure can break it across two.
 */
module ListenBadge {
  import opened Options
  import opened ListenModel
  import opened ListenSafety

  /** Something that will move the badge: an open stream, a newest refresh on its way, or a timer with a use. */
  ghost predicate HasBacking(s: State) {
    s.current.Some? || NewestInFlight(s) || (s.timer.Some? && Wants(s))
  }

  ghost predicate Backed(s: State) {
    s.badge.status != Ended && !s.terminal ==> HasBacking(s)
  }

  /**
   * What must hold before a step for it to leave the badge backed. Only two steps can fail it: the connection coming
   * up under a badge with nothing behind it, and a change of capabilities that takes an armed timer's use away.
   */
  ghost predicate Guarded(s: State, step: Step) {
    match step
    case SetTerminal(t) => t || s.badge.status == Ended || HasBacking(s)
    case SetOptIns(o) => s.terminal || s.badge.status == Ended || HasBacking(s.(optIns := o))
    case _ => true
  }

  lemma CaughtBacked(s: State, refresh: nat)
    requires Inv(s) && Backed(s) && Enabled(s, Catch(refresh))
    ensures Backed(Caught(s, refresh))
  {
  }

  lemma StepBackedExactly(s: State, step: Step)
    requires Inv(s) && Backed(s) && Enabled(s, step)
    ensures Backed(Next(s, step)) <==> Guarded(s, step)
  {
    match step
    case Catch(g) => CaughtBacked(s, g);
    case _ =>
  }

  ghost predicate BackedThroughout(s: State, steps: seq<Step>)
    requires IsRun(s, steps)
    decreases |steps|
  {
    Backed(s) && (steps != [] ==> BackedThroughout(Next(s, steps[0]), steps[1..]))
  }

  ghost predicate GuardedThroughout(s: State, steps: seq<Step>)
    requires IsRun(s, steps)
    decreases |steps|
  {
    steps != [] ==> Guarded(s, steps[0]) && GuardedThroughout(Next(s, steps[0]), steps[1..])
  }

  /** Over any run at all, the badge is backed at every point exactly when the guard held before every step. */
  lemma {:induction false} BadgeBackedExactly(s: State, steps: seq<Step>)
    requires Inv(s) && Backed(s) && IsRun(s, steps)
    ensures BackedThroughout(s, steps) <==> GuardedThroughout(s, steps)
    decreases |steps|
  {
    if steps != [] {
      var next := Next(s, steps[0]);
      StepKeeps(s, steps[0]);
      StepBackedExactly(s, steps[0]);
      if Backed(next) {
        BadgeBackedExactly(next, steps[1..]);
      } else {
        assert !BackedThroughout(next, steps[1..]);
      }
    }
  }

  // ----- One session -----

  /**
   * The steps of one session, its own start included: the connection comes up while the badge reads "ended", as a
   * reset leaves it, and from then on a change of capabilities does not take away everything to listen for.
   */
  ghost predicate InSession(s: State, step: Step) {
    match step
    case SetTerminal(t) => t || s.badge.status == Ended
    case SetOptIns(o) => s.badge.status == Ended || (Wants(s) ==> Wants(s.(optIns := o)))
    case _ => true
  }

  ghost predicate IsSession(s: State, steps: seq<Step>)
    decreases |steps|
  {
    steps == [] ||
    (Enabled(s, steps[0]) && InSession(s, steps[0]) && IsSession(Next(s, steps[0]), steps[1..]))
  }

  lemma {:induction false} SessionGuarded(s: State, steps: seq<Step>)
    requires Inv(s) && Backed(s) && IsSession(s, steps)
    ensures IsRun(s, steps) && GuardedThroughout(s, steps)
    decreases |steps|
  {
    if steps != [] {
      StepKeeps(s, steps[0]);
      StepBackedExactly(s, steps[0]);
      SessionGuarded(Next(s, steps[0]), steps[1..]);
    }
  }

  lemma {:induction false} BackedAtEnd(s: State, steps: seq<Step>)
    requires IsRun(s, steps) && BackedThroughout(s, steps)
    ensures Backed(After(s, steps))
    decreases |steps|
  {
    if steps != [] {
      BackedAtEnd(Next(s, steps[0]), steps[1..]);
    }
  }

  /** Through a whole session, from before it comes up, no badge is left promising a change that nothing will make. */
  lemma BadgeBackedThroughSession(s: State, steps: seq<Step>)
    requires Inv(s) && Backed(s) && IsSession(s, steps)
    ensures IsRun(s, steps) && BackedThroughout(s, steps) && Backed(After(s, steps))
  {
    SessionGuarded(s, steps);
    BadgeBackedExactly(s, steps);
    BackedAtEnd(s, steps);
  }

  /** Every connect starts a session that way, whatever the last one left suspended. */
  lemma ResetBacks(s: State)
    requires Inv(s)
    ensures Inv(ResetStream(s)) && Backed(ResetStream(s))
  {
    ResetKeeps(s);
  }

  /** A connect as the client performs it: reset while down, come up, learn the capabilities, open the stream. */
  function Connect(optIns: OptIns): seq<Step> {
    [Reset, SetTerminal(false), SetOptIns(optIns), OpenOnConnect]
  }

  /** From whatever the last session left, it is a session, the connection ends up live, and the badge backed. */
  lemma ConnectIsSession(s: State, optIns: OptIns)
    requires Inv(s)
    ensures IsSession(s, Connect(optIns)) && IsRun(s, Connect(optIns))
    ensures
      var t := After(s, Connect(optIns));
      && Inv(t) && Backed(t) && !t.terminal && t.subscribed == {}
      && (NewestInFlight(t) <==> optIns.tools || optIns.resources || optIns.prompts)
  {
    var s1 := Next(s, Reset);
    var s2 := Next(s1, SetTerminal(false));
    var s3 := Next(s2, SetOptIns(optIns));
    var steps := SessionCons(s3, OpenOnConnect, []);
    steps := SessionCons(s2, SetOptIns(optIns), steps);
    steps := SessionCons(s1, SetTerminal(false), steps);
    ResetBacks(s);
    BadgeBackedThroughSession(s1, steps);
    RunKeeps(s1, steps);
    steps := SessionCons(s, Reset, steps);
    assert steps == Connect(optIns);
  }

  /**
   * What a user can rely on within a session: once nothing is on its way and no timer is armed, a badge that does not
   * say "ended" on a live connection stands over an open stream opened for exactly the URIs the list shows. The
   * session starts with a reset, up or down, and includes the connection's coming up.
   */
  lemma QuietSessionMirrors(s: State, steps: seq<Step>)
    requires Inv(s) && IsSession(ResetStream(s), steps)
    ensures IsRun(ResetStream(s), steps)
    ensures
      var t := After(ResetStream(s), steps);
      !NewestInFlight(t) && t.timer == None && !t.terminal && t.badge.status != Ended ==>
        && t.current.Some? && t.current.value in t.streams
        && t.streams[t.current.value] == Stream(t.subscribed, t.generation, false, false)
  {
    ResetBacks(s);
    BadgeBackedThroughSession(ResetStream(s), steps);
    RunKeeps(ResetStream(s), steps);
  }

  /** The statement has instances: from a new client, a connect, a subscribe and its acknowledgement end in one. */
  lemma QuietSessionHappens(uri: Uri) returns (steps: seq<Step>)
    ensures IsSession(ResetStream(INITIAL), steps) && IsRun(ResetStream(INITIAL), steps)
    ensures
      var t := After(ResetStream(INITIAL), steps);
      && !NewestInFlight(t) && t.timer == None && !t.terminal && t.badge.status == Acknowledged
      && t.current.Some? && t.subscribed == {uri}
  {
    var s0 := ResetStream(INITIAL);
    var s1 := Next(s0, SetTerminal(false));
    var s2 := Next(s1, Subscribe(uri));
    steps := SessionCons(s2, Acknowledge(2, 0, {uri}), []);
    steps := SessionCons(s1, Subscribe(uri), steps);
    steps := SessionCons(s0, SetTerminal(false), steps);
  }

  lemma SessionCons(s: State, first: Step, rest: seq<Step>) returns (steps: seq<Step>)
    requires Enabled(s, first) && InSession(s, first)
    requires IsSession(Next(s, first), rest) && IsRun(Next(s, first), rest)
    ensures steps == [first] + rest && IsSession(s, steps) && IsRun(s, steps)
    ensures After(s, steps) == After(Next(s, first), rest)
  {
    steps := [first] + rest;
    assert steps[1..] == rest;
  }

  // ----- Two things that are not invariants -----

  const LISTS_TOOLS: OptIns := OptIns(true, false, false)
  const LISTS_NOTHING: OptIns := OptIns(false, false, false)

  /** A connection with no resource subscribed opens its stream for list changes alone, and the server drops it. */
  lemma ConnectAndDrop() returns (steps: seq<Step>, s: State)
    ensures IsRun(INITIAL, steps) && s == After(INITIAL, steps)
    ensures s.generation == 1 && s.refreshes == map[] && s.subscribed == {} && s.attempts == 0 && !s.terminal
    ensures s.current == None && s.timer.Some? && s.optIns == LISTS_TOOLS && s.streams.Keys == {0}
  {
    s, steps := INITIAL, [];
    RunAppend(INITIAL, steps, SetTerminal(false)); steps := steps + [SetTerminal(false)];
    RunAppend(INITIAL, steps, SetOptIns(LISTS_TOOLS)); steps := steps + [SetOptIns(LISTS_TOOLS)];
    RunAppend(INITIAL, steps, OpenOnConnect); steps := steps + [OpenOnConnect];
    RunAppend(INITIAL, steps, Acknowledge(1, 0, {})); steps := steps + [Acknowledge(1, 0, {})];
    RunAppend(INITIAL, steps, StreamClosed(0, Remote)); steps := steps + [StreamClosed(0, Remote)];
    s := After(INITIAL, steps);
  }

  /** The reconnect is awaiting `listen()` when the transport reports an error; the client connects again. */
  lemma ConnectAgainDuringReconnect() returns (steps: seq<Step>, s: State)
    ensures IsRun(INITIAL, steps) && s == After(INITIAL, steps)
    ensures s.generation == 3 && s.refreshes.Keys == {2}
    ensures s.refreshes[2].origin == Reconnect && s.refreshes[2].stage.Listening?
    ensures s.subscribed == {} && s.attempts == 0 && !s.terminal && s.optIns == LISTS_TOOLS
    ensures s.current == None && s.timer == None
  {
    steps, s := ConnectAndDrop();
    RunAppend(INITIAL, steps, TimerFires); steps := steps + [TimerFires];
    RunAppend(INITIAL, steps, SetTerminal(true)); steps := steps + [SetTerminal(true)];
    RunAppend(INITIAL, steps, Reset); steps := steps + [Reset];
    RunAppend(INITIAL, steps, SetTerminal(false)); steps := steps + [SetTerminal(false)];
    s := After(INITIAL, steps);
  }

  /**
   * Across sessions the badge can be stranded. After the run above the old `listen()` rejects, and its handler,
   * which is not gated on the generation, arms a timer on the old capabilities. The new server advertises none, so
   * the timer returns without touching the badge.
   */
  lemma BadgeStrandedAcrossSessions() returns (steps: seq<Step>)
    ensures IsRun(INITIAL, steps)
    ensures
      var s := After(INITIAL, steps);
      s.badge.status == Reconnecting && !s.terminal && s.current == None && s.timer == None && s.refreshes == map[]
  {
    var s;
    steps, s := ConnectAgainDuringReconnect();
    RunAppend(INITIAL, steps, Reject(2)); steps := steps + [Reject(2)];
    RunAppend(INITIAL, steps, Catch(2)); steps := steps + [Catch(2)];
    RunAppend(INITIAL, steps, SetOptIns(LISTS_NOTHING)); steps := steps + [SetOptIns(LISTS_NOTHING)];
    RunAppend(INITIAL, steps, TimerFires); steps := steps + [TimerFires];
  }

  ghost predicate ReconnectingOverLiveStream(s: State) {
    s.badge.status == Reconnecting && s.current.Some?
  }

  /**
   * A reconnect fails with retries left while a stream is installed: it has been superseded, and its handler does not
   * ask.
   */
  ghost predicate FailsOverLiveStream(s: State, step: Step) {
    && step.Catch? && step.refresh in s.refreshes && s.refreshes[step.refresh].origin == Reconnect
    && s.current.Some? && s.attempts < RECONNECT_MAX_ATTEMPTS && !s.terminal && Wants(s)
  }

  /** That puts "reconnecting" over a healthy stream, and nothing else does. */
  lemma ReconnectingOverLiveStreamOnlyFromStaleReconnect(s: State, step: Step)
    requires Inv(s) && Enabled(s, step) && !ReconnectingOverLiveStream(s)
    ensures ReconnectingOverLiveStream(Next(s, step)) <==> FailsOverLiveStream(s, step)
    ensures FailsOverLiveStream(s, step) ==> step.refresh < s.generation
  {
  }

  ghost predicate NeverReconnectingOverLiveStream(s: State, steps: seq<Step>)
    requires IsRun(s, steps)
    decreases |steps|
  {
    && !ReconnectingOverLiveStream(s)
    && (steps != [] ==> NeverReconnectingOverLiveStream(Next(s, steps[0]), steps[1..]))
  }

  ghost predicate NeverFailsOverLiveStream(s: State, steps: seq<Step>)
    requires IsRun(s, steps)
    decreases |steps|
  {
    steps != [] ==> !FailsOverLiveStream(s, steps[0]) && NeverFailsOverLiveStream(Next(s, steps[0]), steps[1..])
  }

  /** Over any run the badge never reads so exactly when no superseded reconnect fails so. */
  lemma {:induction false} ReconnectingOverLiveStreamExactly(s: State, steps: seq<Step>)
    requires Inv(s) && IsRun(s, steps) && !ReconnectingOverLiveStream(s)
    ensures NeverReconnectingOverLiveStream(s, steps) <==> NeverFailsOverLiveStream(s, steps)
    decreases |steps|
  {
    if steps != [] {
      var next := Next(s, steps[0]);
      StepKeeps(s, steps[0]);
      ReconnectingOverLiveStreamOnlyFromStaleReconnect(s, steps[0]);
      if ReconnectingOverLiveStream(next) {
        assert !NeverReconnectingOverLiveStream(next, steps[1..]);
      } else {
        ReconnectingOverLiveStreamExactly(next, steps[1..]);
      }
    }
  }

  lemma SubscribeDuringReconnect(uri: Uri) returns (steps: seq<Step>, s: State)
    ensures IsRun(INITIAL, steps) && s == After(INITIAL, steps)
    ensures s.generation == 3 && s.subscribed == {uri} && s.attempts == 0 && !s.terminal
    ensures s.current == None && s.streams.Keys == {0}
    ensures s.refreshes == map[2 := Refresh(Reconnect, 1, Listening(Filter({}, LISTS_TOOLS))),
                               3 := Refresh(Subscribing(uri), 2, Listening(Filter({uri}, LISTS_TOOLS)))]
  {
    steps, s := ConnectAndDrop();
    RunAppend(INITIAL, steps, TimerFires); steps := steps + [TimerFires];
    RunAppend(INITIAL, steps, Subscribe(uri)); steps := steps + [Subscribe(uri)];
    s := After(INITIAL, steps);
  }

  /**
   * The witness: while a reconnect is in flight the user subscribes and is acknowledged; then the reconnect rejects.
   */
  lemma ReconnectingOverLiveStreamHappens(uri: Uri) returns (steps: seq<Step>)
    ensures IsRun(INITIAL, steps) && ReconnectingOverLiveStream(After(INITIAL, steps))
  {
    var s;
    steps, s := SubscribeDuringReconnect(uri);
    RunAppend(INITIAL, steps, Acknowledge(3, 1, {uri})); steps := steps + [Acknowledge(3, 1, {uri})];
    RunAppend(INITIAL, steps, Reject(2)); steps := steps + [Reject(2)];
    RunAppend(INITIAL, steps, Catch(2)); steps := steps + [Catch(2)];
  }
}
