/**
 * What every run of the listen-stream machine keeps: ownership of the stream by the newest refresh, no leaked
 * stream, and a badge that never reads active over an empty set.
 */
module ListenSafety {
  import opened Options
  import opened ListenModel

  ghost predicate NewestInFlight(s: State) {
    s.generation in s.refreshes
  }

  /** A refresh's number is the generation it took, one past the generation its caller had read. */
  ghost predicate Numbered(s: State) {
    forall g <- s.refreshes :: g <= s.generation && s.refreshes[g].generationBefore + 1 == g
  }

  /** The installed stream is the newest refresh's, was opened for exactly the subscribed URIs, and is still open. */
  ghost predicate Owned(s: State) {
    s.current.Some? ==>
      && s.current.value in s.streams
      && s.streams[s.current.value] == Stream(s.subscribed, s.generation, false, false)
      && !NewestInFlight(s)
  }

  /** The newest refresh, while it awaits `listen()`, asked for exactly the subscribed URIs, its own among them. */
  ghost predicate Asked(s: State) {
    NewestInFlight(s) ==>
      var newest := s.refreshes[s.generation];
      && (newest.stage.Listening? ==> newest.stage.filter.uris == s.subscribed)
      && (newest.origin.Subscribing? ==> newest.origin.uri in s.subscribed)
  }

  /** Every stream `listen()` handed back is the current one, has had `close()` called, or has reported its end. */
  ghost predicate NoLeak(s: State) {
    forall id <- s.streams ::
      s.current == Some(id) || s.streams[id].closeCalled || s.streams[id].reportedClosed
  }

  ghost predicate Coherent(badge: Badge, subscribed: set<Uri>) {
    badge.active ==> subscribed != {}
  }

  /** No listener ever saw an active stream over an empty subscribed set. */
  ghost predicate NeverSeenIncoherent(s: State) {
    && Coherent(s.badge, s.subscribed)
    && forall a <- s.announced :: Coherent(a.badge, a.subscribed)
  }

  ghost predicate Inv(s: State) {
    Numbered(s) && Owned(s) && Asked(s) && NoLeak(s) && NeverSeenIncoherent(s)
  }

  lemma ListenOrIdleKeeps(s: State, frame: Refresh)
    requires Numbered(s) && NoLeak(s) && NeverSeenIncoherent(s) && s.current == None
    requires frame.generationBefore + 1 == s.generation
    requires frame.origin.Subscribing? ==> frame.origin.uri in s.subscribed
    ensures Inv(ListenOrIdle(s, s.generation, frame))
  {
  }

  lemma BeginRefreshKeeps(s: State, origin: Origin)
    requires Numbered(s) && NoLeak(s) && NeverSeenIncoherent(s)
    requires s.current.Some? ==> s.current.value in s.streams
    requires origin.Subscribing? ==> origin.uri in s.subscribed
    ensures Inv(BeginRefresh(s, origin))
  {
    if s.current == None {
      var base := if origin.Reconnect? then s else s.(timer := None, attempts := 0);
      ListenOrIdleKeeps(base.(generation := s.generation + 1), Refresh(origin, s.generation, Closing));
    }
  }

  lemma ReconcileKeeps(s: State)
    requires Numbered(s) && Owned(s) && Asked(s) && NoLeak(s)
    requires forall a <- s.announced :: Coherent(a.badge, a.subscribed)
    ensures Inv(Reconcile(s))
  {
  }

  lemma ReconnectFailedKeeps(s: State)
    requires Inv(s)
    ensures Inv(ReconnectFailed(s))
  {
  }

  lemma CaughtKeeps(s: State, refresh: nat)
    requires Inv(s) && refresh in s.refreshes && s.refreshes[refresh].stage.Rejected?
    ensures Inv(Caught(s, refresh))
  {
    var r := s.refreshes[refresh];
    var left := s.(refreshes := s.refreshes - {refresh});
    match r.origin
    case Reconnect => ReconnectFailedKeeps(left);
    case Subscribing(uri) =>
      if s.generation == refresh {
        ReconcileKeeps(left.(subscribed := s.subscribed - {uri}));
      }
    case _ =>
      if s.generation == refresh {
        ReconcileKeeps(left);
      }
  }

  lemma InstallKeeps(s: State, refresh: nat, id: StreamId, honored: set<Uri>)
    requires Inv(s) && refresh in s.refreshes && s.refreshes[refresh].stage.Listening? && id !in s.streams
    ensures Inv(Install(s, refresh, id, honored))
  {
  }

  lemma ClosedKeeps(s: State, id: StreamId, reason: CloseReason)
    requires Inv(s) && id in s.streams
    ensures Inv(Closed(s, id, reason))
  {
  }

  lemma ResetKeeps(s: State)
    requires Inv(s)
    ensures Inv(ResetStream(s))
  {
  }

  lemma ResumeKeeps(s: State, refresh: nat)
    requires Inv(s) && refresh in s.refreshes && s.refreshes[refresh].stage.Closing?
    ensures Inv(ListenOrIdle(s, refresh, s.refreshes[refresh]))
  {
  }

  lemma StepKeeps(s: State, step: Step)
    requires Inv(s) && Enabled(s, step)
    ensures Inv(Next(s, step))
  {
    match step
    case Subscribe(uri) =>
      if uri !in s.subscribed {
        var added := AnnounceUris(s.(subscribed := s.subscribed + {uri}));
        BeginRefreshKeeps(SetBadge(added, Badge(true, Connecting, s.badge.honored)), Subscribing(uri));
      }
    case Unsubscribe(uri) =>
      if uri in s.subscribed {
        var removed := s.(subscribed := s.subscribed - {uri});
        BeginRefreshKeeps(
          AnnounceUris(if removed.subscribed == {} then SetBadge(removed, INACTIVE) else removed), Unsubscribing);
      }
    case OpenOnConnect => BeginRefreshKeeps(s, OnConnect);
    case TimerFires => BeginRefreshKeeps(s.(timer := None), Reconnect);
    case Catch(g) => CaughtKeeps(s, g);
    case Resume(g) => ResumeKeeps(s, g);
    case Acknowledge(g, id, honored) => InstallKeeps(s, g, id, honored);
    case StreamClosed(id, reason) => ClosedKeeps(s, id, reason);
    case Reset => ResetKeeps(s);
    case _ =>
  }

  lemma BeginRefreshTells(s: State, origin: Origin)
    ensures s.announced <= BeginRefresh(s, origin).announced
  {
  }

  lemma CaughtTells(s: State, refresh: nat)
    requires refresh in s.refreshes
    ensures s.announced <= Caught(s, refresh).announced
  {
  }

  lemma StepTells(s: State, step: Step)
    requires Enabled(s, step)
    ensures s.announced <= Next(s, step).announced
  {
    match step
    case Subscribe(uri) =>
      var added := AnnounceUris(s.(subscribed := s.subscribed + {uri}));
      BeginRefreshTells(SetBadge(added, Badge(true, Connecting, s.badge.honored)), Subscribing(uri));
    case Unsubscribe(uri) =>
      var removed := s.(subscribed := s.subscribed - {uri});
      BeginRefreshTells(
        AnnounceUris(if removed.subscribed == {} then SetBadge(removed, INACTIVE) else removed), Unsubscribing);
    case OpenOnConnect => BeginRefreshTells(s, OnConnect);
    case TimerFires => BeginRefreshTells(s.(timer := None), Reconnect);
    case Catch(g) => CaughtTells(s, g);
    case _ =>
  }

  /**
   * Ownership, no leak and a coherent badge hold after every run, from any state that has them. What listeners were
   * told is never taken back, so the last part speaks of every event of the run.
   */
  lemma {:induction false} RunKeeps(s: State, steps: seq<Step>)
    requires Inv(s) && IsRun(s, steps)
    ensures Inv(After(s, steps))
    ensures s.announced <= After(s, steps).announced
    decreases |steps|
  {
    if steps != [] {
      StepTells(s, steps[0]);
      StepKeeps(s, steps[0]);
      RunKeeps(Next(s, steps[0]), steps[1..]);
    }
  }

  lemma InitialInv()
    ensures Inv(INITIAL)
  {
  }

  // ----- What the invariant says of a session -----

  ghost function LiveStreams(s: State): set<StreamId> {
    set id <- s.streams | !s.streams[id].closeCalled && !s.streams[id].reportedClosed
  }

  /** After any run from a fresh client, at most one stream is open and unclosed: the current one, if any. */
  lemma AtMostOneLiveStream(steps: seq<Step>)
    requires IsRun(INITIAL, steps)
    ensures
      var s := After(INITIAL, steps);
      && LiveStreams(s) == (if s.current.Some? then {s.current.value} else {})
      && |LiveStreams(s)| <= 1
  {
    InitialInv();
    RunKeeps(INITIAL, steps);
  }

  /**
   * The user's edits folded over a run: a click adds or removes its URI, a reset forgets them all, and a subscribe
   * whose own refresh fails takes its URI back while that refresh is still the newest. Nothing else counts.
   */
  ghost function Edited(s: State, start: set<Uri>, steps: seq<Step>): set<Uri>
    requires IsRun(s, steps)
    decreases |steps|
  {
    if steps == [] then start else Edited(Next(s, steps[0]), Edit(s, start, steps[0]), steps[1..])
  }

  function Edit(s: State, uris: set<Uri>, step: Step): set<Uri>
    requires Enabled(s, step)
  {
    match step
    case Subscribe(uri) => uris + {uri}
    case Unsubscribe(uri) => uris - {uri}
    case Reset => {}
    case Catch(g) =>
      var origin := s.refreshes[g].origin;
      if origin.Subscribing? && g == s.generation then uris - {origin.uri} else uris
    case _ => uris
  }

  /** The subscribed set is that fold: no drop, reconnect, superseded failure or race adds to it or takes away. */
  lemma {:induction false} SubscribedFollowsEdits(s: State, steps: seq<Step>)
    requires Inv(s) && IsRun(s, steps)
    ensures After(s, steps).subscribed == Edited(s, s.subscribed, steps)
    decreases |steps|
  {
    if steps != [] {
      StepSubscribed(s, steps[0]);
      StepKeeps(s, steps[0]);
      SubscribedFollowsEdits(Next(s, steps[0]), steps[1..]);
    }
  }

  lemma StepSubscribed(s: State, step: Step)
    requires Numbered(s) && Enabled(s, step)
    ensures Next(s, step).subscribed == Edit(s, s.subscribed, step)
  {
  }

  lemma BeginRefreshRelists(s: State, origin: Origin)
    requires Numbered(s) && !origin.Reconnect?
    ensures
      var t := BeginRefresh(s, origin);
      && t.generation == s.generation + 1 && t.current == None && t.timer == None && t.attempts == 0
      && t.subscribed == s.subscribed
      && (s.current.Some? && s.current.value in s.streams ==> t.streams == CloseStream(s.streams, s.current.value))
      && (NewestInFlight(t) || (t.badge == INACTIVE && !Wants(t)))
  {
  }

  /**
   * Every edit re-lists: it takes the next generation, closes whatever stream was installed, disarms the timer, and
   * leaves either a newest refresh on its way or, with nothing to listen for, an inactive badge.
   */
  lemma EditRelists(s: State, step: Step)
    requires Inv(s) && (step.Subscribe? || step.Unsubscribe?)
    requires Next(s, step).subscribed != s.subscribed
    ensures
      var t := Next(s, step);
      && t.generation == s.generation + 1 && t.current == None && t.timer == None && t.attempts == 0
      && (s.current.Some? ==> t.streams[s.current.value].closeCalled)
      && LiveStreams(t) == {}
      && (NewestInFlight(t) || (t.badge == INACTIVE && !Wants(t)))
  {
    StepKeeps(s, step);
    assert NoLeak(Next(s, step));
    match step
    case Subscribe(uri) =>
      var added := AnnounceUris(s.(subscribed := s.subscribed + {uri}));
      BeginRefreshRelists(SetBadge(added, Badge(true, Connecting, s.badge.honored)), Subscribing(uri));
    case Unsubscribe(uri) =>
      var removed := s.(subscribed := s.subscribed - {uri});
      BeginRefreshRelists(
        AnnounceUris(if removed.subscribed == {} then SetBadge(removed, INACTIVE) else removed), Unsubscribing);
  }

  lemma {:induction false} RunAppend(s: State, steps: seq<Step>, last: Step)
    requires IsRun(s, steps) && Enabled(After(s, steps), last)
    ensures IsRun(s, steps + [last]) && After(s, steps + [last]) == Next(After(s, steps), last)
    decreases |steps|
  {
    var run := steps + [last];
    if steps == [] {
      assert run[1..] == [];
    } else {
      assert run[1..] == steps[1..] + [last];
      RunAppend(Next(s, steps[0]), steps[1..], last);
    }
  }

  lemma {:induction false} GenerationNeverFalls(s: State, steps: seq<Step>)
    requires IsRun(s, steps)
    ensures s.generation <= After(s, steps).generation
    ensures s.generation == After(s, steps).generation ==> Reset !in steps
    decreases |steps|
  {
    if steps != [] {
      assert s.generation <= Next(s, steps[0]).generation;
      GenerationNeverFalls(Next(s, steps[0]), steps[1..]);
    }
  }

  lemma CaughtSubscriber(s: State, refresh: nat, uri: Uri)
    requires Inv(s) && Enabled(s, Catch(refresh)) && s.refreshes[refresh].origin == Subscribing(uri)
    ensures Caught(s, refresh).subscribed == if s.generation == refresh then s.subscribed - {uri} else s.subscribed
    ensures s.generation == refresh ==> uri in s.subscribed && s.current == None
  {
  }

  /**
   * A failed subscribe takes its URI back exactly when nothing has moved the generation since the click (no
   * refresh and no reset in between), and then no stream is installed that could still carry the URI.
   */
  lemma RollbackOnlyByOwner(s: State, uri: Uri, between: seq<Step>)
    requires Inv(s) && uri !in s.subscribed
    requires IsRun(SubscribeTo(s, uri), between)
    requires Enabled(After(SubscribeTo(s, uri), between), Catch(s.generation + 1))
    requires After(SubscribeTo(s, uri), between).refreshes[s.generation + 1].origin == Subscribing(uri)
    ensures
      var before := After(SubscribeTo(s, uri), between);
      var after := Next(before, Catch(s.generation + 1));
      && (after.subscribed != before.subscribed <==> before.generation == s.generation + 1)
      && (before.generation == s.generation + 1 ==>
            && after.subscribed == before.subscribed - {uri}
            && uri in before.subscribed
            && before.current == None
            && Reset !in between)
  {
    var clicked := SubscribeTo(s, uri);
    assert clicked == Next(s, Subscribe(uri));
    StepKeeps(s, Subscribe(uri));
    RunKeeps(clicked, between);
    GenerationNeverFalls(clicked, between);
    CaughtSubscriber(After(clicked, between), s.generation + 1, uri);
    assert clicked.generation == s.generation + 1;
  }
}
