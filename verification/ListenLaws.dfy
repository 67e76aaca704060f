/**
 * What each thing that can happen does to the timer, the count, the badge, the filter and the listeners, said of the
 * state before and the state after.
 */
module ListenLaws {
  import opened Options
  import opened ListenModel
  import opened ListenSafety

  // ----- What counts as what -----

  /** The installed stream ends, whatever the reason. */
  ghost predicate LosesStream(s: State, step: Step) {
    step.StreamClosed? && s.current == Some(step.stream)
  }

  /** A reconnect's failure reaches its handler. */
  ghost predicate FailsReconnect(s: State, step: Step) {
    step.Catch? && step.refresh in s.refreshes && s.refreshes[step.refresh].origin.Reconnect?
  }

  /** Somebody else's failure reaches a handler that finds its refresh still the newest. */
  ghost predicate FailsAsOwner(s: State, step: Step) {
    && step.Catch? && step.refresh in s.refreshes && step.refresh == s.generation
    && !s.refreshes[step.refresh].origin.Reconnect?
  }

  /** The user, or a connect, asks for a new stream. */
  ghost predicate IsUserRefresh(s: State, step: Step) {
    match step
    case Subscribe(uri) => uri !in s.subscribed
    case Unsubscribe(uri) => uri in s.subscribed
    case OpenOnConnect => Wants(s)
    case _ => false
  }

  ghost predicate SomethingToListenFor(uris: set<Uri>, optIns: OptIns) {
    uris != {} || optIns.tools || optIns.resources || optIns.prompts
  }

  /** The subscribed set, less the URI of a failed subscribe that still owns the filter. */
  ghost function LeftBy(s: State, step: Step): set<Uri> {
    if FailsAsOwner(s, step) && s.refreshes[step.refresh].origin.Subscribing?
    then s.subscribed - {s.refreshes[step.refresh].origin.uri}
    else s.subscribed
  }

  /** A timer is armed for exactly three reasons, and never for a stream we closed or the server ended in good order. */
  ghost predicate Arms(s: State, step: Step) {
    SomethingToListenFor(LeftBy(s, step), s.optIns) &&
    ((LosesStream(s, step) && step.reason == Remote && !s.terminal)
     || (FailsReconnect(s, step) && s.attempts < RECONNECT_MAX_ATTEMPTS && !s.terminal)
     || FailsAsOwner(s, step))
  }

  // ----- The segments that steps share -----

  lemma RefreshEffect(s: State, origin: Origin)
    requires Wants(s) || s.current.Some?
    ensures
      var t := BeginRefresh(s, origin);
      && t.badge == s.badge && t.subscribed == s.subscribed && t.optIns == s.optIns
      && (if origin.Reconnect? then t.timer == s.timer && t.attempts == s.attempts
          else t.timer == None && t.attempts == 0)
      && (forall g <- t.refreshes | g != s.generation + 1 :: g in s.refreshes && t.refreshes[g] == s.refreshes[g])
      && (s.generation + 1 in t.refreshes && t.refreshes[s.generation + 1].stage.Listening? ==>
            Wants(s) && t.refreshes[s.generation + 1].stage.filter == Filter(s.subscribed, s.optIns))
  {
  }

  lemma IdleEffect(s: State, origin: Origin)
    requires !Wants(s) && !origin.Reconnect?
    ensures
      var t := BeginRefresh(s, origin);
      && (t.badge == s.badge || t.badge == INACTIVE) && (s.current == None ==> t.badge == INACTIVE)
      && t.timer == None && t.attempts == 0 && t.subscribed == s.subscribed
      && (forall g <- t.refreshes | t.refreshes[g].stage.Listening? && g != s.generation + 1 ::
            g in s.refreshes && t.refreshes[g] == s.refreshes[g])
      && (s.generation + 1 in t.refreshes && s.generation + 1 !in s.refreshes ==>
            !t.refreshes[s.generation + 1].stage.Listening?)
  {
  }

  lemma CatchEffect(s: State, g: nat)
    requires Inv(s) && Enabled(s, Catch(g))
    ensures
      var t, step := Next(s, Catch(g)), Catch(g);
      && t.subscribed == LeftBy(s, step) && t.refreshes == s.refreshes - {g}
      && t.attempts == (if FailsReconnect(s, step) then s.attempts + 1 else s.attempts)
      && t.timer == (if Arms(s, step) then Some(Delay(t.attempts)) else s.timer)
      && t.badge ==
         if Arms(s, step) then Badge(t.subscribed != {}, Reconnecting, {})
         else if FailsReconnect(s, step) then Badge(t.subscribed != {}, Ended, {})
         else if FailsAsOwner(s, step) then INACTIVE
         else s.badge
  {
    assert SomethingToListenFor(s.subscribed, s.optIns) <==> Wants(s);
  }

  /** The state in which a click's refresh begins. */
  ghost function Clicked(s: State, step: Step): State
    requires step.Subscribe? || step.Unsubscribe?
  {
    match step
    case Subscribe(uri) =>
      SetBadge(AnnounceUris(s.(subscribed := s.subscribed + {uri})), Badge(true, Connecting, s.badge.honored))
    case Unsubscribe(uri) =>
      var removed := s.(subscribed := s.subscribed - {uri});
      AnnounceUris(if removed.subscribed == {} then SetBadge(removed, INACTIVE) else removed)
  }

  lemma ClickEffect(s: State, step: Step)
    requires Inv(s) && (step.Subscribe? || step.Unsubscribe?) && IsUserRefresh(s, step)
    ensures
      var t, uri := Next(s, step), step.uri;
      && t.subscribed == (if step.Subscribe? then s.subscribed + {uri} else s.subscribed - {uri})
      && t.timer == None && t.attempts == 0
      && t.badge ==
         (if step.Subscribe? then Badge(true, Connecting, s.badge.honored)
          else if t.subscribed == {} then INACTIVE else s.badge)
      && (forall g <- t.refreshes | t.refreshes[g].stage.Listening? && g != s.generation + 1 ::
            g in s.refreshes && t.refreshes[g] == s.refreshes[g])
      && (s.generation + 1 in t.refreshes && t.refreshes[s.generation + 1].stage.Listening? ==>
            Wants(t) && t.refreshes[s.generation + 1].stage.filter == Filter(t.subscribed, s.optIns))
  {
    var begun := Clicked(s, step);
    var origin := if step.Subscribe? then Subscribing(step.uri) else Unsubscribing;
    assert Next(s, step) == BeginRefresh(begun, origin);
    if Wants(begun) || begun.current.Some? {
      RefreshEffect(begun, origin);
    } else {
      IdleEffect(begun, origin);
    }
  }

  // ----- Who takes over, and what is closed -----

  /** A new refresh begins: the user's, or the timer's on a live connection with something to listen for. */
  ghost predicate Begins(s: State, step: Step) {
    IsUserRefresh(s, step) || (step.TimerFires? && !s.terminal && SomethingToListenFor(s.subscribed, s.optIns))
  }

  ghost predicate Begun(s: State, origin: Origin, t: State) {
    && t.generation == s.generation + 1 && t.current == None
    && t.streams == (if s.current.Some? then CloseStream(s.streams, s.current.value) else s.streams)
    && (t.generation in t.refreshes && t.generation !in s.refreshes ==>
          t.refreshes[t.generation].origin == origin && t.refreshes[t.generation].generationBefore == s.generation)
  }

  lemma BeginRefreshBegins(s: State, origin: Origin)
    ensures Begun(s, origin, BeginRefresh(s, origin))
  {
  }

  lemma ClickBegins(s: State, step: Step)
    requires (step.Subscribe? || step.Unsubscribe?) && IsUserRefresh(s, step)
    ensures Begun(s, OriginOf(step), Next(s, step))
  {
    BeginRefreshBegins(Clicked(s, step), OriginOf(step));
  }

  /** Who awaits the refresh a step begins. */
  ghost function OriginOf(step: Step): Origin {
    match step
    case Subscribe(uri) => Subscribing(uri)
    case Unsubscribe(_) => Unsubscribing
    case OpenOnConnect => OnConnect
    case _ => Reconnect
  }

  lemma BeginningBegins(s: State, step: Step)
    requires Begins(s, step) && Enabled(s, step)
    ensures Begun(s, OriginOf(step), Next(s, step))
  {
    match step
    case Subscribe(_) => ClickBegins(s, step);
    case Unsubscribe(_) => ClickBegins(s, step);
    case OpenOnConnect => BeginRefreshBegins(s, OnConnect);
    case TimerFires => BeginRefreshBegins(s.(timer := None), Reconnect);
  }

  /** The generation moves exactly when a refresh begins or everything is reset. */
  lemma GenerationLaw(s: State, step: Step)
    requires Inv(s) && Enabled(s, step)
    ensures Next(s, step).generation == s.generation + if Begins(s, step) || step.Reset? then 1 else 0
    ensures
      var g, t := s.generation + 1, Next(s, step);
      g in t.refreshes ==>
        Begins(s, step) && t.refreshes[g].generationBefore == s.generation && t.refreshes[g].origin == OriginOf(step)
  {
    if Begins(s, step) {
      BeginningBegins(s, step);
    } else {
      NotBeginning(s, step);
    }
  }

  lemma NotBeginning(s: State, step: Step)
    requires Inv(s) && Enabled(s, step) && !Begins(s, step)
    ensures
      var t := Next(s, step);
      && t.generation == s.generation + (if step.Reset? then 1 else 0) && s.generation + 1 !in t.refreshes
      && t.current ==
         (if step.Acknowledge? && step.refresh == s.generation then Some(step.stream)
          else if LosesStream(s, step) || step.Reset? then None
          else s.current)
    ensures
      forall id <- Next(s, step).streams ::
        Next(s, step).streams[id].closeCalled <==>
        || (id in s.streams && s.streams[id].closeCalled)
        || (s.current == Some(id) && step.Reset?)
        || (step.Acknowledge? && step.stream == id && step.refresh != s.generation)
  {
    match step
    case Catch(g) => CatchLeavesStreams(s, g);
    case Resume(g) => ResumeLeavesStreams(s, g);
    case _ =>
  }

  lemma CatchLeavesStreams(s: State, g: nat)
    requires Numbered(s) && Enabled(s, Catch(g))
    ensures
      var t := Next(s, Catch(g));
      && t.streams == s.streams && t.current == s.current && t.generation == s.generation
      && s.generation + 1 !in t.refreshes
  {
  }

  lemma ResumeLeavesStreams(s: State, g: nat)
    requires Numbered(s) && Enabled(s, Resume(g))
    ensures
      var t := Next(s, Resume(g));
      && t.streams == s.streams && t.current == s.current && t.generation == s.generation
      && s.generation + 1 !in t.refreshes
  {
  }

  /** The newest refresh's stream is the installed one until it ends, is replaced, or is reset. */
  lemma CurrentLaw(s: State, step: Step)
    requires Inv(s) && Enabled(s, step)
    ensures
      Next(s, step).current ==
      if step.Acknowledge? && step.refresh == s.generation then Some(step.stream)
      else if LosesStream(s, step) || Begins(s, step) || step.Reset? then None
      else s.current
  {
    if Begins(s, step) {
      BeginningBegins(s, step);
    } else {
      NotBeginning(s, step);
    }
  }

  /** Nothing is closed but the installed stream, when it is replaced or reset, and a superseded one as it arrives. */
  lemma CloseCallsLaw(s: State, step: Step, id: StreamId)
    requires Inv(s) && Enabled(s, step) && id in Next(s, step).streams
    ensures
      Next(s, step).streams[id].closeCalled <==>
      || (id in s.streams && s.streams[id].closeCalled)
      || (s.current == Some(id) && (Begins(s, step) || step.Reset?))
      || (step.Acknowledge? && step.stream == id && step.refresh != s.generation)
  {
    if Begins(s, step) {
      BeginningBegins(s, step);
    } else {
      NotBeginning(s, step);
    }
  }

  // ----- The timer and the count -----

  lemma TimerLaw(s: State, step: Step)
    requires Inv(s) && Enabled(s, step)
    ensures
      Next(s, step).timer ==
      if Arms(s, step) then Some(Delay(Next(s, step).attempts))
      else if step.TimerFires? || step.Reset? || IsUserRefresh(s, step) then None
      else s.timer
  {
    match step
    case Catch(g) => CatchEffect(s, g);
    case TimerFires => if Wants(s) { RefreshEffect(s.(timer := None), Reconnect); }
    case OpenOnConnect => if Wants(s) { RefreshEffect(s, OnConnect); }
    case Subscribe(_) => if IsUserRefresh(s, step) { ClickEffect(s, step); }
    case Unsubscribe(_) => if IsUserRefresh(s, step) { ClickEffect(s, step); }
    case _ =>
  }

  lemma AttemptsLaw(s: State, step: Step)
    requires Inv(s) && Enabled(s, step)
    ensures
      Next(s, step).attempts ==
      if FailsReconnect(s, step) then s.attempts + 1
      else if step.Reset? || IsUserRefresh(s, step) || (step.Acknowledge? && step.refresh == s.generation) then 0
      else s.attempts
  {
    match step
    case Catch(g) => CatchEffect(s, g);
    case TimerFires => if Wants(s) { RefreshEffect(s.(timer := None), Reconnect); }
    case OpenOnConnect => if Wants(s) { RefreshEffect(s, OnConnect); }
    case Subscribe(_) => if IsUserRefresh(s, step) { ClickEffect(s, step); }
    case Unsubscribe(_) => if IsUserRefresh(s, step) { ClickEffect(s, step); }
    case _ =>
  }

  /** The end of the installed stream reconnects exactly when it was unexpected, on a live connection, and wanted. */
  lemma CloseLaw(s: State, id: StreamId, reason: CloseReason)
    requires Inv(s) && Enabled(s, StreamClosed(id, reason)) && s.current == Some(id)
    ensures
      var t := Next(s, StreamClosed(id, reason));
      && t.current == None
      && (if reason == Remote && !s.terminal && Wants(s)
          then t.timer == Some(Delay(s.attempts)) && t.badge == Badge(s.subscribed != {}, Reconnecting, {})
          else t.timer == s.timer && t.badge == Badge(s.subscribed != {}, Ended, {}))
  {
    TimerLaw(s, StreamClosed(id, reason));
    AttemptsLaw(s, StreamClosed(id, reason));
    BadgeLaw(s, StreamClosed(id, reason));
  }

  /** Nothing drops and nothing is refused. */
  predicate IsUneventful(step: Step) {
    !step.Reject? && !(step.StreamClosed? && step.reason == Remote)
  }

  ghost predicate NothingRejected(s: State) {
    forall g <- s.refreshes :: !s.refreshes[g].stage.Rejected?
  }

  lemma UneventfulStep(s: State, step: Step)
    requires Inv(s) && NothingRejected(s) && Enabled(s, step) && IsUneventful(step) && s.timer == None
    ensures NothingRejected(Next(s, step)) && Next(s, step).timer == None
  {
    TimerLaw(s, step);
  }

  /** A run in which no stream drops and no refresh is refused never arms a timer, however its streams end. */
  lemma {:induction false} UneventfulRunArmsNothing(s: State, steps: seq<Step>)
    requires Inv(s) && s.timer == None && NothingRejected(s)
    requires IsRun(s, steps) && forall step <- steps :: IsUneventful(step)
    ensures After(s, steps).timer == None
    decreases |steps|
  {
    if steps != [] {
      assert IsUneventful(steps[0]);
      StepKeeps(s, steps[0]);
      UneventfulStep(s, steps[0]);
      UneventfulRunArmsNothing(Next(s, steps[0]), steps[1..]);
    }
  }

  // ----- The badge -----

  /** What the badge reads after a step, by what happened. */
  lemma BadgeLaw(s: State, step: Step)
    requires Inv(s) && Enabled(s, step)
    ensures
      var t := Next(s, step);
      var shown := t.subscribed != {};
      t.badge ==
      if Arms(s, step) then Badge(shown, Reconnecting, {})
      else if LosesStream(s, step) || FailsReconnect(s, step) then Badge(shown, Ended, {})
      else if step.Reset? || FailsAsOwner(s, step) then Badge(false, Ended, {})
      else if step.Acknowledge? && step.refresh == s.generation then Badge(shown, Acknowledged, step.honored)
      else if step.Subscribe? && IsUserRefresh(s, step) then Badge(true, Connecting, s.badge.honored)
      else if step.Unsubscribe? && IsUserRefresh(s, step) && !shown then Badge(false, Ended, {})
      else if step.Resume? && !SomethingToListenFor(s.subscribed, s.optIns) then Badge(false, Ended, {})
      else s.badge
  {
    match step
    case Catch(g) => CatchEffect(s, g);
    case TimerFires => if Wants(s) { RefreshEffect(s.(timer := None), Reconnect); }
    case OpenOnConnect => if Wants(s) { RefreshEffect(s, OnConnect); }
    case Subscribe(_) => if IsUserRefresh(s, step) { ClickEffect(s, step); }
    case Unsubscribe(_) => if IsUserRefresh(s, step) { ClickEffect(s, step); }
    case _ =>
  }

  // ----- The filter -----

  /** A refresh that calls `listen()` asks for everything wanted at that moment, and only then is called at all. */
  lemma FilterLaw(s: State, step: Step, g: nat)
    requires Inv(s) && Enabled(s, step)
    ensures
      var t := Next(s, step);
      g in t.refreshes && t.refreshes[g].stage.Listening? && !(g in s.refreshes && s.refreshes[g].stage.Listening?) ==>
        && t.refreshes[g].stage.filter == Filter(t.subscribed, s.optIns)
        && SomethingToListenFor(t.subscribed, s.optIns)
  {
    match step
    case Catch(c) => CatchEffect(s, c);
    case TimerFires => if Wants(s) { RefreshEffect(s.(timer := None), Reconnect); }
    case OpenOnConnect => if Wants(s) { RefreshEffect(s, OnConnect); }
    case Subscribe(_) => if IsUserRefresh(s, step) { ClickEffect(s, step); }
    case Unsubscribe(_) => if IsUserRefresh(s, step) { ClickEffect(s, step); }
    case _ =>
  }

  // ----- The listeners -----

  /** What a listener to the stream alone believes: the badge it was told last. */
  function HeardBadge(announced: seq<Announcement>): Badge {
    if announced == [] then INACTIVE else
    var last := announced[|announced| - 1];
    if last.event == StreamChange then last.badge else HeardBadge(announced[..|announced| - 1])
  }

  /** What a listener to the subscriptions alone believes. */
  function HeardUris(announced: seq<Announcement>): set<Uri> {
    if announced == [] then {} else
    var last := announced[|announced| - 1];
    if last.event == SubscriptionsChange then last.subscribed else HeardUris(announced[..|announced| - 1])
  }

  /** Either believes what is so. */
  ghost predicate Told(s: State) {
    HeardBadge(s.announced) == s.badge && HeardUris(s.announced) == s.subscribed
  }

  lemma SetBadgeTold(s: State, badge: Badge)
    ensures HeardBadge(SetBadge(s, badge).announced) == badge
    ensures HeardUris(SetBadge(s, badge).announced) == HeardUris(s.announced)
  {
    assert SetBadge(s, badge).announced[..|s.announced|] == s.announced;
  }

  lemma AnnounceTold(s: State)
    ensures HeardBadge(AnnounceUris(s).announced) == HeardBadge(s.announced)
    ensures HeardUris(AnnounceUris(s).announced) == s.subscribed
  {
    assert AnnounceUris(s).announced[..|s.announced|] == s.announced;
  }

  lemma BeginRefreshTold(s: State, origin: Origin)
    requires Told(s)
    ensures Told(BeginRefresh(s, origin))
  {
    var base := if origin.Reconnect? then s else s.(timer := None, attempts := 0);
    var taken := base.(generation := s.generation + 1, current := None);
    if s.current == None && !Wants(s) {
      SetBadgeTold(taken.(refreshes := taken.refreshes - {s.generation + 1}), INACTIVE);
    }
  }

  lemma ReconcileTold(s: State)
    requires HeardUris(s.announced) == s.subscribed
    ensures Told(Reconcile(s))
    ensures Reconcile(s).subscribed == s.subscribed
  {
    SetBadgeTold(s, if Wants(s) then Badge(s.subscribed != {}, Reconnecting, {}) else INACTIVE);
  }

  lemma RolledBackTold(s: State)
    ensures Told(AnnounceUris(Reconcile(s)))
  {
    SetBadgeTold(s, if Wants(s) then Badge(s.subscribed != {}, Reconnecting, {}) else INACTIVE);
    AnnounceTold(Reconcile(s));
  }

  lemma CaughtTold(s: State, g: nat)
    requires Told(s) && g in s.refreshes
    ensures Told(Caught(s, g))
  {
    var left := s.(refreshes := s.refreshes - {g});
    match s.refreshes[g].origin
    case Reconnect =>
      var counted := left.(attempts := s.attempts + 1);
      SetBadgeTold(counted, Badge(s.subscribed != {}, Ended, {}));
      SetBadgeTold(counted, Badge(s.subscribed != {}, Reconnecting, {}));
    case Subscribing(uri) => RolledBackTold(left.(subscribed := s.subscribed - {uri}));
    case _ => ReconcileTold(left);
  }

  lemma ClickTold(s: State, step: Step)
    requires Told(s) && (step.Subscribe? || step.Unsubscribe?)
    ensures Told(Next(s, step))
  {
    match step
    case Subscribe(uri) =>
      var added := s.(subscribed := s.subscribed + {uri});
      AnnounceTold(added);
      SetBadgeTold(AnnounceUris(added), Badge(true, Connecting, s.badge.honored));
      BeginRefreshTold(Clicked(s, step), Subscribing(uri));
    case Unsubscribe(uri) =>
      var removed := s.(subscribed := s.subscribed - {uri});
      SetBadgeTold(removed, INACTIVE);
      AnnounceTold(if removed.subscribed == {} then SetBadge(removed, INACTIVE) else removed);
      BeginRefreshTold(Clicked(s, step), Unsubscribing);
  }

  lemma ClosedTold(s: State, id: StreamId, reason: CloseReason)
    requires Told(s) && id in s.streams
    ensures Told(Closed(s, id, reason))
  {
    var told := s.(streams := s.streams[id := s.streams[id].(reportedClosed := true)]);
    var dropped := told.(current := None);
    SetBadgeTold(dropped, Badge(s.subscribed != {}, Ended, {}));
    SetBadgeTold(dropped, Badge(s.subscribed != {}, Reconnecting, {}));
  }

  lemma StepTold(s: State, step: Step)
    requires Told(s) && Enabled(s, step)
    ensures Told(Next(s, step))
  {
    match step
    case Subscribe(_) => ClickTold(s, step);
    case Unsubscribe(_) => ClickTold(s, step);
    case OpenOnConnect => BeginRefreshTold(s, OnConnect);
    case TimerFires => BeginRefreshTold(s.(timer := None), Reconnect);
    case Catch(g) => CaughtTold(s, g);
    case StreamClosed(id, reason) => ClosedTold(s, id, reason);
    case Resume(g) => SetBadgeTold(s.(refreshes := s.refreshes - {g}), INACTIVE);
    case Acknowledge(g, id, honored) => InstallTold(s, g, id, honored);
    case Reset => ResetTold(s);
    case _ =>
  }

  lemma InstallTold(s: State, g: nat, id: StreamId, honored: set<Uri>)
    requires Told(s) && Enabled(s, Acknowledge(g, id, honored))
    ensures Told(Install(s, g, id, honored))
  {
    var left := s.(refreshes := s.refreshes - {g}, streams := Install(s, g, id, honored).streams);
    SetBadgeTold(left.(current := Some(id), attempts := 0), Badge(s.subscribed != {}, Acknowledged, honored));
  }

  lemma ResetTold(s: State)
    ensures Told(ResetStream(s))
  {
    var cleared := s.(
      subscribed := {}, generation := s.generation + 1, timer := None, attempts := 0, current := None,
      streams := ResetStream(s).streams);
    SetBadgeTold(cleared, INACTIVE);
    AnnounceTold(SetBadge(cleared, INACTIVE));
  }

  /**
   * After any run of a new client, whoever heard the stream's events knows the badge, and whoever heard the
   * subscriptions' knows the set.
   */
  lemma {:induction false} ListenersAreTold(s: State, steps: seq<Step>)
    requires Told(s) && IsRun(s, steps)
    ensures Told(After(s, steps))
    decreases |steps|
  {
    if steps != [] {
      StepTold(s, steps[0]);
      ListenersAreTold(Next(s, steps[0]), steps[1..]);
    }
  }

  lemma InitialTold()
    ensures Told(INITIAL)
  {
  }
}
