/**
 * The modern `subscriptions/listen` stream machine, as a step function on values.
 *
 * A user-edited set of resource URIs is mirrored by one non-resumable server stream. Every edit re-lists:
 * it takes a new generation number, closes the current stream and opens another. Each step below is one
 * synchronous segment of the client, the code between two `await`s; the environment (server, timer, user,
 * transport) picks which step comes next, so many refreshes can be suspended at once. A refresh is named by
 * the generation it took.
 */
module ListenModel {
  import opened Options

  type Uri = string
  type StreamId = nat

  const RECONNECT_BASE_MS: nat := 500
  const RECONNECT_MAX_MS: nat := 15_000
  const RECONNECT_MAX_ATTEMPTS: nat := 8

  datatype StreamStatus = Connecting | Acknowledged | Reconnecting | Ended

  /** What the Subscriptions section shows about the stream. */
  datatype Badge = Badge(active: bool, status: StreamStatus, honored: set<Uri>)

  const INACTIVE: Badge := Badge(false, Ended, {})

  /** The list-change opt-ins: what the Inspector wants, intersected with what the server advertises. */
  datatype OptIns = OptIns(tools: bool, resources: bool, prompts: bool)

  datatype Filter = Filter(uris: set<Uri>, optIns: OptIns)

  datatype CloseReason = Local | Graceful | Remote

  /** Who awaits a refresh, and hence which handler sees its failure. */
  datatype Origin = OnConnect | Subscribing(uri: Uri) | Unsubscribing | Reconnect

  /**
   * Where a refresh is suspended: closing the old stream, awaiting `listen()`, or rejected and on its way to its
   * handler.
   */
  datatype Stage = Closing | Listening(filter: Filter) | Rejected

  datatype Refresh = Refresh(origin: Origin, generationBefore: nat, stage: Stage)

  /** A stream some `listen()` handed back. */
  datatype Stream = Stream(uris: set<Uri>, generation: nat, closeCalled: bool, reportedClosed: bool)

  /** One dispatched event, with the state a listener would read while handling it. */
  datatype Announcement = Announcement(event: Event, badge: Badge, subscribed: set<Uri>)

  datatype Event = StreamChange | SubscriptionsChange

  datatype State = State(
    subscribed: set<Uri>,
    generation: nat,
    current: Option<StreamId>,
    badge: Badge,
    attempts: nat,
    timer: Option<nat>,
    terminal: bool,
    optIns: OptIns,
    refreshes: map<nat, Refresh>,
    streams: map<StreamId, Stream>,
    announced: seq<Announcement>)

  datatype Step =
    | Subscribe(uri: Uri)
    | Unsubscribe(uri: Uri)
    | OpenOnConnect
    | Resume(refresh: nat)
    | Acknowledge(refresh: nat, stream: StreamId, honored: set<Uri>)
    | Reject(refresh: nat)
    | Catch(refresh: nat)
    | StreamClosed(stream: StreamId, reason: CloseReason)
    | TimerFires
    | Reset
    | SetTerminal(terminal: bool)
    | SetOptIns(optIns: OptIns)

  // ----- The filter, the badge and the backoff -----

  function CurrentFilter(s: State): Filter {
    Filter(s.subscribed, s.optIns)
  }

  predicate Wants(s: State) {
    s.subscribed != {} || s.optIns.tools || s.optIns.resources || s.optIns.prompts
  }

  function SetBadge(s: State, badge: Badge): State {
    s.(badge := badge, announced := s.announced + [Announcement(StreamChange, badge, s.subscribed)])
  }

  function AnnounceUris(s: State): State {
    s.(announced := s.announced + [Announcement(SubscriptionsChange, s.badge, s.subscribed)])
  }

  function Pow2(n: nat): nat {
    if n == 0 then 1 else 2 * Pow2(n - 1)
  }

  function Delay(attempts: nat): nat {
    var doubled := RECONNECT_BASE_MS * Pow2(attempts);
    if doubled < RECONNECT_MAX_MS then doubled else RECONNECT_MAX_MS
  }

  // ----- The segments -----

  function CloseStream(streams: map<StreamId, Stream>, id: StreamId): map<StreamId, Stream> {
    if id in streams then streams[id := streams[id].(closeCalled := true)] else streams
  }

  /** The rest of a refresh once the old stream is closed: call `listen()`, or settle for no stream at all. */
  function ListenOrIdle(s: State, refresh: nat, frame: Refresh): State {
    if Wants(s) then
      s.(refreshes := s.refreshes[refresh := frame.(stage := Listening(CurrentFilter(s)))])
    else
      SetBadge(s.(refreshes := s.refreshes - {refresh}), INACTIVE)
  }

  /** The first segment of a refresh. Only a user-initiated one resets the backoff run. */
  function BeginRefresh(s: State, origin: Origin): State {
    var base := if origin.Reconnect? then s else s.(timer := None, attempts := 0);
    var owner := s.generation + 1;
    var frame := Refresh(origin, s.generation, Closing);
    var taken := base.(generation := owner, current := None);
    match s.current
    case None => ListenOrIdle(taken, owner, frame)
    case Some(id) => taken.(streams := CloseStream(s.streams, id), refreshes := s.refreshes[owner := frame])
  }

  function ScheduleReconnect(s: State): State {
    SetBadge(s, Badge(s.subscribed != {}, Reconnecting, {})).(timer := Some(Delay(s.attempts)))
  }

  function Reconcile(s: State): State {
    if Wants(s) then ScheduleReconnect(s) else SetBadge(s, INACTIVE)
  }

  function ReconnectFailed(s: State): State {
    var counted := s.(attempts := s.attempts + 1);
    if counted.attempts > RECONNECT_MAX_ATTEMPTS || s.terminal || !Wants(s) then
      SetBadge(counted, Badge(s.subscribed != {}, Ended, {}))
    else
      ScheduleReconnect(counted)
  }

  function SubscribeTo(s: State, uri: Uri): State {
    if uri in s.subscribed then s else
    var added := AnnounceUris(s.(subscribed := s.subscribed + {uri}));
    BeginRefresh(SetBadge(added, Badge(true, Connecting, s.badge.honored)), Subscribing(uri))
  }

  function UnsubscribeFrom(s: State, uri: Uri): State {
    if uri !in s.subscribed then s else
    var removed := s.(subscribed := s.subscribed - {uri});
    BeginRefresh(AnnounceUris(if removed.subscribed == {} then SetBadge(removed, INACTIVE) else removed), Unsubscribing)
  }

  /** `listen()` resolved: install the stream, or close it when a newer refresh has taken over. */
  function Install(s: State, refresh: nat, id: StreamId, honored: set<Uri>): State
    requires refresh in s.refreshes && s.refreshes[refresh].stage.Listening?
  {
    var handed := Stream(s.refreshes[refresh].stage.filter.uris, refresh, refresh != s.generation, false);
    var left := s.(refreshes := s.refreshes - {refresh}, streams := s.streams[id := handed]);
    if refresh != s.generation then left
    else SetBadge(left.(current := Some(id), attempts := 0), Badge(s.subscribed != {}, Acknowledged, honored))
  }

  /** The failure handler of each kind of caller. All but the reconnect timer's test that they still own the filter. */
  function Caught(s: State, refresh: nat): State
    requires refresh in s.refreshes
  {
    var r := s.refreshes[refresh];
    var left := s.(refreshes := s.refreshes - {refresh});
    var owned := s.generation == r.generationBefore + 1;
    match r.origin
    case Reconnect => ReconnectFailed(left)
    case Subscribing(uri) =>
      if owned then AnnounceUris(Reconcile(left.(subscribed := s.subscribed - {uri}))) else left
    case _ =>
      if owned then Reconcile(left) else left
  }

  function Closed(s: State, id: StreamId, reason: CloseReason): State
    requires id in s.streams
  {
    var told := s.(streams := s.streams[id := s.streams[id].(reportedClosed := true)]);
    if s.streams[id].generation != s.generation || s.current != Some(id) then told
    else
      var dropped := told.(current := None);
      if reason == Remote && !s.terminal && Wants(s) then ScheduleReconnect(dropped)
      else SetBadge(dropped, Badge(s.subscribed != {}, Ended, {}))
  }

  function TimerFired(s: State): State {
    var spent := s.(timer := None);
    if s.terminal || !Wants(s) then spent else BeginRefresh(spent, Reconnect)
  }

  function ResetStream(s: State): State {
    var cleared := s.(
      subscribed := {}, generation := s.generation + 1, timer := None, attempts := 0, current := None,
      streams := if s.current.Some? then CloseStream(s.streams, s.current.value) else s.streams);
    AnnounceUris(SetBadge(cleared, INACTIVE))
  }

  /** What the environment may do next. */
  predicate Enabled(s: State, step: Step) {
    match step
    case Resume(g) => g in s.refreshes && s.refreshes[g].stage.Closing?
    case Acknowledge(g, id, _) => g in s.refreshes && s.refreshes[g].stage.Listening? && id !in s.streams
    case Reject(g) => g in s.refreshes && s.refreshes[g].stage.Listening?
    case Catch(g) => g in s.refreshes && s.refreshes[g].stage.Rejected?
    case StreamClosed(id, _) => id in s.streams && !s.streams[id].reportedClosed
    case TimerFires => s.timer.Some?
    case _ => true
  }

  function Next(s: State, step: Step): State
    requires Enabled(s, step)
  {
    match step
    case Subscribe(uri) => SubscribeTo(s, uri)
    case Unsubscribe(uri) => UnsubscribeFrom(s, uri)
    case OpenOnConnect => if Wants(s) then BeginRefresh(s, OnConnect) else s
    case Resume(g) => ListenOrIdle(s, g, s.refreshes[g])
    case Acknowledge(g, id, honored) => Install(s, g, id, honored)
    case Reject(g) => s.(refreshes := s.refreshes[g := s.refreshes[g].(stage := Rejected)])
    case Catch(g) => Caught(s, g)
    case StreamClosed(id, reason) => Closed(s, id, reason)
    case TimerFires => TimerFired(s)
    case Reset => ResetStream(s)
    case SetTerminal(t) => s.(terminal := t)
    case SetOptIns(o) => s.(optIns := o)
  }

  // ----- Runs -----

  ghost predicate IsRun(s: State, steps: seq<Step>)
    decreases |steps|
  {
    steps == [] || (Enabled(s, steps[0]) && IsRun(Next(s, steps[0]), steps[1..]))
  }

  ghost function After(s: State, steps: seq<Step>): State
    requires IsRun(s, steps)
    decreases |steps|
  {
    if steps == [] then s else After(Next(s, steps[0]), steps[1..])
  }

  const INITIAL: State :=
    State({}, 0, None, INACTIVE, 0, None, true, OptIns(false, false, false), map[], map[], [])
}
