/**
 * The listen-stream part of the client as the object it is: fields updated in place, one method per synchronous
 * segment. Each method does to the fields exactly what its step of ListenModel says, and keeps the invariant.
 *
 * The suspended refreshes, the streams handed out and the dispatched events live outside the object in the program
 * (async frames, SDK objects, listeners), so here they are ghost.
 */
module ListenStream {
  import opened Options
  import opened ListenModel
  import opened ListenSafety

  class InspectorClient {
    var subscribedResources: set<Uri>
    var modernListenGeneration: nat
    var modernSubscription: Option<StreamId>
    var modernStreamState: Badge
    var modernReconnectAttempts: nat
    var modernReconnectTimer: Option<nat>
    var terminalStatus: bool
    var listChanged: OptIns

    ghost var refreshes: map<nat, Refresh>
    ghost var streams: map<StreamId, Stream>
    ghost var announced: seq<Announcement>

    ghost function Model(): State
      reads this
    {
      State(subscribedResources, modernListenGeneration, modernSubscription, modernStreamState,
            modernReconnectAttempts, modernReconnectTimer, terminalStatus, listChanged, refreshes, streams, announced)
    }

    ghost predicate Valid()
      reads this
    {
      Inv(Model())
    }

    constructor ()
      ensures Valid() && Model() == INITIAL
    {
      subscribedResources, modernListenGeneration, modernSubscription := {}, 0, None;
      modernStreamState, modernReconnectAttempts, modernReconnectTimer := INACTIVE, 0, None;
      terminalStatus, listChanged := true, OptIns(false, false, false);
      refreshes, streams, announced := map[], map[], [];
    }

    // ----- Helpers that several segments call -----

    predicate WantsModernStream()
      reads this
      ensures WantsModernStream() == Wants(Model())
    {
      subscribedResources != {} || listChanged.tools || listChanged.resources || listChanged.prompts
    }

    method SetModernStreamState(next: Badge)
      modifies `modernStreamState, `announced
      ensures Model() == SetBadge(old(Model()), next)
    {
      modernStreamState := next;
      announced := announced + [Announcement(StreamChange, modernStreamState, subscribedResources)];
    }

    method DispatchSubscriptionsChange()
      modifies `announced
      ensures Model() == AnnounceUris(old(Model()))
    {
      announced := announced + [Announcement(SubscriptionsChange, modernStreamState, subscribedResources)];
    }

    method ClearModernReconnectTimer()
      modifies `modernReconnectTimer
      ensures modernReconnectTimer == None
    {
      if modernReconnectTimer != None {
        modernReconnectTimer := None;
      }
    }

    method BackoffDelay() returns (delay: nat)
      ensures delay == Delay(modernReconnectAttempts)
    {
      var factor, n := 1, 0;
      while n < modernReconnectAttempts
        invariant n <= modernReconnectAttempts && factor == Pow2(n)
      {
        factor, n := factor * 2, n + 1;
      }
      delay := if RECONNECT_BASE_MS * factor < RECONNECT_MAX_MS then RECONNECT_BASE_MS * factor else RECONNECT_MAX_MS;
    }

    method ScheduleModernReconnect()
      modifies this
      ensures Model() == ScheduleReconnect(old(Model()))
    {
      SetModernStreamState(Badge(subscribedResources != {}, Reconnecting, {}));
      var delay := BackoffDelay();
      ClearModernReconnectTimer();
      modernReconnectTimer := Some(delay);
    }

    method ReconcileAfterFailedRefresh()
      modifies this
      ensures Model() == Reconcile(old(Model()))
    {
      if !WantsModernStream() {
        SetModernStreamState(INACTIVE);
        return;
      }
      ScheduleModernReconnect();
    }

    method OnModernReconnectFailed()
      modifies this
      ensures Model() == ReconnectFailed(old(Model()))
    {
      modernReconnectAttempts := modernReconnectAttempts + 1;
      if modernReconnectAttempts > RECONNECT_MAX_ATTEMPTS || terminalStatus || !WantsModernStream() {
        SetModernStreamState(Badge(subscribedResources != {}, Ended, {}));
        return;
      }
      ScheduleModernReconnect();
    }

    ghost method CallClose(id: StreamId)
      modifies `streams
      ensures streams == CloseStream(old(streams), id)
    {
      streams := CloseStream(streams, id);
    }

    // ----- The refresh, cut at its awaits -----

    /**
     * From the call to the first await: take a generation, drop the old stream, and listen at once if there was none.
     */
    method RefreshModernSubscription(ghost origin: Origin, fromReconnect: bool)
      requires fromReconnect == origin.Reconnect?
      modifies this
      ensures Model() == BeginRefresh(old(Model()), origin)
    {
      if !fromReconnect {
        ClearModernReconnectTimer();
        modernReconnectAttempts := 0;
      }
      ghost var frame := Refresh(origin, modernListenGeneration, Closing);
      modernListenGeneration := modernListenGeneration + 1;
      var previous := modernSubscription;
      modernSubscription := None;
      match previous
      case Some(id) =>
        CallClose(id);
        refreshes := refreshes[modernListenGeneration := frame];
      case None =>
        ListenOrSettle(modernListenGeneration, frame);
    }

    /** From the close to the `listen()` call; a superseded refresh goes through it too. */
    method ListenOrSettle(ghost refresh: nat, ghost frame: Refresh)
      modifies this
      ensures Model() == ListenOrIdle(old(Model()), refresh, frame)
    {
      if !WantsModernStream() {
        refreshes := refreshes - {refresh};
        SetModernStreamState(INACTIVE);
        return;
      }
      refreshes := refreshes[refresh := frame.(stage := Listening(CurrentFilter(Model())))];
    }

    method ResumeAfterClose(ghost refresh: nat)
      requires Valid() && Enabled(Model(), Resume(refresh))
      modifies this
      ensures Valid() && Model() == Next(old(Model()), Resume(refresh))
    {
      StepKeeps(Model(), Resume(refresh));
      ListenOrSettle(refresh, refreshes[refresh]);
    }

    /** `listen()` resolved with a stream. */
    method OnListenAcknowledged(generation: nat, subscription: StreamId, honored: set<Uri>)
      requires Valid() && Enabled(Model(), Acknowledge(generation, subscription, honored))
      modifies this
      ensures Valid() && Model() == Next(old(Model()), Acknowledge(generation, subscription, honored))
    {
      StepKeeps(Model(), Acknowledge(generation, subscription, honored));
      streams := streams[subscription := Stream(refreshes[generation].stage.filter.uris, generation, false, false)];
      refreshes := refreshes - {generation};
      if generation != modernListenGeneration {
        CallClose(subscription);
        return;
      }
      modernSubscription := Some(subscription);
      modernReconnectAttempts := 0;
      SetModernStreamState(Badge(subscribedResources != {}, Acknowledged, honored));
    }

    method OnModernSubscriptionClosed(subscription: StreamId, reason: CloseReason, generation: nat)
      requires Valid() && Enabled(Model(), StreamClosed(subscription, reason))
      requires generation == streams[subscription].generation
      modifies this
      ensures Valid() && Model() == Next(old(Model()), StreamClosed(subscription, reason))
    {
      StepKeeps(Model(), StreamClosed(subscription, reason));
      streams := streams[subscription := streams[subscription].(reportedClosed := true)];
      if generation != modernListenGeneration || modernSubscription != Some(subscription) {
        return;
      }
      modernSubscription := None;
      var shouldReconnect := reason == Remote && !terminalStatus && WantsModernStream();
      if !shouldReconnect {
        SetModernStreamState(Badge(subscribedResources != {}, Ended, {}));
        return;
      }
      ScheduleModernReconnect();
    }

    // ----- Entry points -----

    method SubscribeToResource(uri: Uri)
      requires Valid()
      modifies this
      ensures Valid() && Model() == Next(old(Model()), Subscribe(uri))
    {
      StepKeeps(Model(), Subscribe(uri));
      if uri in subscribedResources {
        return;
      }
      subscribedResources := subscribedResources + {uri};
      DispatchSubscriptionsChange();
      SetModernStreamState(Badge(true, Connecting, modernStreamState.honored));
      RefreshModernSubscription(Subscribing(uri), false);
    }

    method OnSubscribeRefreshFailed(uri: Uri, generationBefore: nat)
      requires Valid() && Enabled(Model(), Catch(generationBefore + 1))
      requires refreshes[generationBefore + 1].origin == Subscribing(uri)
      modifies this
      ensures Valid() && Model() == Next(old(Model()), Catch(generationBefore + 1))
    {
      StepKeeps(Model(), Catch(generationBefore + 1));
      refreshes := refreshes - {generationBefore + 1};
      if modernListenGeneration == generationBefore + 1 {
        subscribedResources := subscribedResources - {uri};
        ReconcileAfterFailedRefresh();
        DispatchSubscriptionsChange();
      }
    }

    method UnsubscribeFromResource(uri: Uri)
      requires Valid()
      modifies this
      ensures Valid() && Model() == Next(old(Model()), Unsubscribe(uri))
    {
      StepKeeps(Model(), Unsubscribe(uri));
      if uri !in subscribedResources {
        return;
      }
      subscribedResources := subscribedResources - {uri};
      if subscribedResources == {} {
        SetModernStreamState(INACTIVE);
      }
      DispatchSubscriptionsChange();
      RefreshModernSubscription(Unsubscribing, false);
    }

    method OpenModernListenStreamOnConnect()
      requires Valid()
      modifies this
      ensures Valid() && Model() == Next(old(Model()), Step.OpenOnConnect)
    {
      StepKeeps(Model(), Step.OpenOnConnect);
      if !WantsModernStream() {
        return;
      }
      RefreshModernSubscription(OnConnect, false);
    }

    /**
     * The shared handler of a failed unsubscribe and of a failed open on connect: nothing to undo, the badge to
     * settle.
     */
    method OnOtherRefreshFailed(generationBefore: nat)
      requires Valid() && Enabled(Model(), Catch(generationBefore + 1))
      requires refreshes[generationBefore + 1].origin in {Unsubscribing, OnConnect}
      modifies this
      ensures Valid() && Model() == Next(old(Model()), Catch(generationBefore + 1))
    {
      StepKeeps(Model(), Catch(generationBefore + 1));
      refreshes := refreshes - {generationBefore + 1};
      if modernListenGeneration == generationBefore + 1 {
        ReconcileAfterFailedRefresh();
      }
    }

    method OnTimer()
      requires Valid() && Enabled(Model(), TimerFires)
      modifies this
      ensures Valid() && Model() == Next(old(Model()), TimerFires)
    {
      StepKeeps(Model(), TimerFires);
      modernReconnectTimer := None;
      if terminalStatus || !WantsModernStream() {
        return;
      }
      RefreshModernSubscription(Origin.Reconnect, true);
    }

    method OnReconnectRefreshFailed(ghost refresh: nat)
      requires Valid() && Enabled(Model(), Catch(refresh)) && refreshes[refresh].origin == Origin.Reconnect
      modifies this
      ensures Valid() && Model() == Next(old(Model()), Catch(refresh))
    {
      StepKeeps(Model(), Catch(refresh));
      refreshes := refreshes - {refresh};
      OnModernReconnectFailed();
    }

    method ResetSubscriptionStream()
      requires Valid()
      modifies this
      ensures Valid() && Model() == Next(old(Model()), Reset)
    {
      StepKeeps(Model(), Reset);
      var closing := modernSubscription;
      subscribedResources := {};
      modernListenGeneration := modernListenGeneration + 1;
      ClearModernReconnectTimer();
      modernReconnectAttempts := 0;
      modernSubscription := None;
      SetModernStreamState(INACTIVE);
      DispatchSubscriptionsChange();
      if closing.Some? {
        CallClose(closing.value);
      }
    }
  }
}
