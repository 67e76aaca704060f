/**
 * The raw-wire channel: requests sent around the SDK, and the correlation of their responses. One step per synchronous
 * segment; the environment picks sends, responses, timeouts, send failures and teardowns in any order.
 */
module RawWireModel {
  import opened Options
  import Decimal

  type Id = string

  /** A JSON-RPC id: the SDK mints numbers, this channel strings. */
  datatype MessageId = NumberId(n: int) | StringId(s: string)

  datatype Body = Result(value: string) | Error(message: string)

  datatype Message = Response(id: MessageId, body: Body) | Other(text: string)

  datatype Promise = Unsettled | Resolved(value: string) | Rejected(reason: string)

  /**
   * `pending` is the client's map, `armed` the timers that can still fire, `promises` what each caller awaits;
   * `consumed` and `forwarded` are where the incoming messages went.
   */
  datatype State = State(
    counter: nat,
    pending: set<Id>,
    armed: set<Id>,
    promises: map<Id, Promise>,
    consumed: seq<Message>,
    forwarded: seq<Message>)

  datatype Step =
    | Request
    | Receive(message: Message)
    | Timeout(id: Id)
    | SendFails(id: Id, reason: string)
    | RejectAll(reason: string)

  const INITIAL: State := State(0, {}, {}, map[], [], [])

  function MintedId(n: nat): Id {
    "inspector-ext-" + Decimal.OfNat(n)
  }

  function KeyOf(id: MessageId): Id {
    match id
    case NumberId(n) => Decimal.OfInt(n)
    case StringId(s) => s
  }

  /** Settling a settled promise does nothing. */
  function Settle(promises: map<Id, Promise>, id: Id, to: Promise): map<Id, Promise> {
    if id in promises && promises[id] == Unsettled then promises[id := to] else promises
  }

  function SettleAll(promises: map<Id, Promise>, ids: set<Id>, to: Promise): map<Id, Promise> {
    map id <- promises :: if id in ids && promises[id] == Unsettled then to else promises[id]
  }

  lemma SettleOneMore(promises: map<Id, Promise>, ids: set<Id>, id: Id, to: Promise)
    ensures Settle(SettleAll(promises, ids, to), id, to) == SettleAll(promises, ids + {id}, to)
  {
  }

  function Outcome(body: Body): Promise {
    match body
    case Result(value) => Resolved(value)
    case Error(message) => Rejected(message)
  }

  predicate Claims(s: State, message: Message) {
    message.Response? && KeyOf(message.id) in s.pending
  }

  /** What the SDK sees of a forwarded message: a result may be rewritten on the way. */
  function Next(s: State, step: Step, rewrite: Message -> Message): State {
    match step
    case Request =>
      var id := MintedId(s.counter + 1);
      s.(counter := s.counter + 1, pending := s.pending + {id}, armed := s.armed + {id},
         promises := s.promises[id := Unsettled])
    case Receive(message) =>
      if Claims(s, message) then
        var id := KeyOf(message.id);
        s.(pending := s.pending - {id}, armed := s.armed - {id},
           promises := Settle(s.promises, id, Outcome(message.body)), consumed := s.consumed + [message])
      else
        var seen := if message.Response? && message.body.Result? then rewrite(message) else message;
        s.(forwarded := s.forwarded + [seen])
    case Timeout(id) =>
      s.(pending := s.pending - {id}, armed := s.armed - {id},
         promises := Settle(s.promises, id, Rejected("timed out")))
    case SendFails(id, reason) =>
      var live := id in s.pending;
      s.(pending := s.pending - {id}, armed := if live then s.armed - {id} else s.armed,
         promises := Settle(s.promises, id, Rejected(reason)))
    case RejectAll(reason) =>
      s.(pending := {}, armed := s.armed - s.pending, promises := SettleAll(s.promises, s.pending, Rejected(reason)))
  }

  predicate Enabled(s: State, step: Step) {
    match step
    case Timeout(id) => id in s.armed
    case SendFails(id, _) => id in s.promises
    case _ => true
  }

  // ----- What every run keeps -----

  /** A request is in the pending map exactly when its promise is unsettled, and exactly when its timer is armed. */
  ghost predicate Correlated(s: State) {
    && s.pending == s.armed
    && (forall id <- s.pending :: id in s.promises)
    && (forall id <- s.promises :: id in s.pending <==> s.promises[id] == Unsettled)
  }

  ghost predicate Minted(s: State) {
    forall id <- s.promises :: exists n: nat | 1 <= n <= s.counter :: id == MintedId(n)
  }

  ghost predicate Inv(s: State) {
    Correlated(s) && Minted(s)
  }

  lemma FreshId(s: State)
    requires Minted(s)
    ensures MintedId(s.counter + 1) !in s.promises
  {
    if MintedId(s.counter + 1) in s.promises {
      var n: nat :| 1 <= n <= s.counter && MintedId(s.counter + 1) == MintedId(n);
      MintedIdInjective(s.counter + 1, n);
    }
  }

  lemma MintedIdInjective(m: nat, n: nat)
    requires MintedId(m) == MintedId(n)
    ensures m == n
  {
    var prefix := "inspector-ext-";
    assert MintedId(m)[|prefix|..] == Decimal.OfNat(m);
    assert MintedId(n)[|prefix|..] == Decimal.OfNat(n);
    Decimal.OfNatInjective(m, n);
  }

  lemma StepKeeps(s: State, step: Step, rewrite: Message -> Message)
    requires Inv(s) && Enabled(s, step)
    ensures Inv(Next(s, step, rewrite))
  {
    FreshId(s);
    var t := Next(s, step, rewrite);
    forall id | id in t.promises
      ensures exists n: nat | 1 <= n <= t.counter :: id == MintedId(n)
    {
      if id in s.promises {
        var n: nat :| 1 <= n <= s.counter && id == MintedId(n);
      }
    }
  }

  ghost predicate IsRun(s: State, steps: seq<Step>, rewrite: Message -> Message)
    decreases |steps|
  {
    steps == [] || (Enabled(s, steps[0]) && IsRun(Next(s, steps[0], rewrite), steps[1..], rewrite))
  }

  ghost function After(s: State, steps: seq<Step>, rewrite: Message -> Message): State
    requires IsRun(s, steps, rewrite)
    decreases |steps|
  {
    if steps == [] then s else After(Next(s, steps[0], rewrite), steps[1..], rewrite)
  }

  /** Correlation holds after every run; a settled promise keeps its outcome to the end of it. */
  lemma {:induction false} RunKeeps(s: State, steps: seq<Step>, rewrite: Message -> Message)
    requires Inv(s) && IsRun(s, steps, rewrite)
    ensures Inv(After(s, steps, rewrite))
    ensures forall id <- s.promises | s.promises[id] != Unsettled ::
      id in After(s, steps, rewrite).promises && After(s, steps, rewrite).promises[id] == s.promises[id]
    decreases |steps|
  {
    if steps != [] {
      StepKeeps(s, steps[0], rewrite);
      FreshId(s);
      RunKeeps(Next(s, steps[0], rewrite), steps[1..], rewrite);
    }
  }

  /** The ids a run mints, in order. */
  ghost function MintedBy(s: State, steps: seq<Step>, rewrite: Message -> Message): seq<Id>
    requires IsRun(s, steps, rewrite)
    decreases |steps|
  {
    if steps == [] then [] else
    (if steps[0].Request? then [MintedId(s.counter + 1)] else []) +
    MintedBy(Next(s, steps[0], rewrite), steps[1..], rewrite)
  }

  lemma {:induction false} MintedInOrder(s: State, steps: seq<Step>, rewrite: Message -> Message, i: nat)
    requires IsRun(s, steps, rewrite) && i < |MintedBy(s, steps, rewrite)|
    ensures MintedBy(s, steps, rewrite)[i] == MintedId(s.counter + 1 + i)
    decreases |steps|
  {
    var next := Next(s, steps[0], rewrite);
    if !steps[0].Request? {
      MintedInOrder(next, steps[1..], rewrite, i);
    } else if i > 0 {
      MintedInOrder(next, steps[1..], rewrite, i - 1);
    }
  }

  /** No run uses an id twice. */
  lemma IdsNeverRepeat(s: State, steps: seq<Step>, rewrite: Message -> Message, i: nat, j: nat)
    requires IsRun(s, steps, rewrite) && i < j < |MintedBy(s, steps, rewrite)|
    ensures MintedBy(s, steps, rewrite)[i] != MintedBy(s, steps, rewrite)[j]
  {
    MintedInOrder(s, steps, rewrite, i);
    MintedInOrder(s, steps, rewrite, j);
    if MintedId(s.counter + 1 + i) == MintedId(s.counter + 1 + j) {
      MintedIdInjective(s.counter + 1 + i, s.counter + 1 + j);
    }
  }

  /** Whether an arriving message is the raw channel's: a response to a request of its own still unsettled. */
  ghost predicate Awaited(s: State, message: Message) {
    message.Response? && KeyOf(message.id) in s.promises && s.promises[KeyOf(message.id)] == Unsettled
  }

  ghost function Consumes(s: State, step: Step): seq<Message> {
    if step.Receive? && Awaited(s, step.message) then [step.message] else []
  }

  ghost function Hands(s: State, step: Step, rewrite: Message -> Message): seq<Message> {
    if step.Receive? && !Awaited(s, step.message) then [Handed(step.message, rewrite)] else []
  }

  /** The messages of a run that were awaited on arrival, in order. */
  ghost function AwaitedIn(s: State, steps: seq<Step>, rewrite: Message -> Message): seq<Message>
    requires IsRun(s, steps, rewrite)
    decreases |steps|
  {
    if steps == [] then [] else Consumes(s, steps[0]) + AwaitedIn(Next(s, steps[0], rewrite), steps[1..], rewrite)
  }

  /** What the SDK is handed for a message: a result rewritten, anything else as it came. */
  function Handed(message: Message, rewrite: Message -> Message): Message {
    if message.Response? && message.body.Result? then rewrite(message) else message
  }

  /** The messages of a run that were not awaited on arrival, in order, as the SDK is handed them. */
  ghost function HandedIn(s: State, steps: seq<Step>, rewrite: Message -> Message): seq<Message>
    requires IsRun(s, steps, rewrite)
    decreases |steps|
  {
    if steps == [] then [] else Hands(s, steps[0], rewrite) + HandedIn(Next(s, steps[0], rewrite), steps[1..], rewrite)
  }

  /**
   * Over any run the incoming messages are split, in order: exactly those awaited on arrival are consumed, as they
   * came, and exactly the others forwarded, results rewritten. Nothing is in both, nothing lost, nothing made up.
   */
  lemma {:induction false} ConsumedOrForwarded(s: State, steps: seq<Step>, rewrite: Message -> Message)
    requires Inv(s) && IsRun(s, steps, rewrite)
    ensures After(s, steps, rewrite).consumed == s.consumed + AwaitedIn(s, steps, rewrite)
    ensures After(s, steps, rewrite).forwarded == s.forwarded + HandedIn(s, steps, rewrite)
    decreases |steps|
  {
    if steps != [] {
      StepKeeps(s, steps[0], rewrite);
      StepSplits(s, steps[0], rewrite);
      var next := Next(s, steps[0], rewrite);
      ConsumedOrForwarded(next, steps[1..], rewrite);
      Regroup(s.consumed, Consumes(s, steps[0]), AwaitedIn(next, steps[1..], rewrite));
      Regroup(s.forwarded, Hands(s, steps[0], rewrite), HandedIn(next, steps[1..], rewrite));
    }
  }

  lemma Regroup<T>(xs: seq<T>, ys: seq<T>, zs: seq<T>)
    ensures xs + ys + zs == xs + (ys + zs)
  {
  }

  lemma StepSplits(s: State, step: Step, rewrite: Message -> Message)
    requires Inv(s) && Enabled(s, step)
    ensures
      var t := Next(s, step, rewrite);
      t.consumed == s.consumed + Consumes(s, step) && t.forwarded == s.forwarded + Hands(s, step, rewrite)
  {
  }

  ghost predicate AnsweredBy(message: Message, id: Id, value: string) {
    message.Response? && KeyOf(message.id) == id && message.body == Result(value)
  }

  /** A result resolves with its value; an error rejects with its message. */
  predicate SettledBy(promise: Promise, body: Body) {
    match body
    case Result(value) => promise == Resolved(value)
    case Error(message) => promise == Rejected(message)
  }

  /** A response to a request still pending settles it so, and no other. */
  lemma ResponseSettles(s: State, id: Id, body: Body, rewrite: Message -> Message)
    requires Inv(s) && id in s.pending
    ensures
      var t := Next(s, Receive(Response(StringId(id), body)), rewrite);
      && id in t.promises && SettledBy(t.promises[id], body)
      && t.promises.Keys == s.promises.Keys && t.pending == s.pending - {id} && t.armed == s.armed - {id}
      && forall other <- s.promises | other != id :: t.promises[other] == s.promises[other]
  {
  }

  /** A request that times out, cannot be sent or is torn down is rejected, not left, and takes nobody else with it. */
  lemma FailureRejects(s: State, step: Step, rewrite: Message -> Message, id: Id)
    requires Inv(s) && Enabled(s, step) && id in s.pending && (step.Timeout? || step.SendFails? || step.RejectAll?)
    ensures
      var t := Next(s, step, rewrite);
      && id in t.promises
      && (if step.RejectAll? || step.id == id then t.promises[id].Rejected? && id !in t.pending
          else t.promises[id] == Unsettled && id in t.pending)
  {
  }

  /** Whoever got a result got it from a consumed response to its own id, and no id was answered twice. */
  ghost predicate Attributed(s: State) {
    && (forall id <- s.promises | s.promises[id].Resolved? ::
          exists m <- s.consumed :: AnsweredBy(m, id, s.promises[id].value))
    && (forall m <- s.consumed ::
          m.Response? && KeyOf(m.id) in s.promises && SettledBy(s.promises[KeyOf(m.id)], m.body))
    && (forall i, j | 0 <= i < j < |s.consumed| :: KeyOf(s.consumed[i].id) != KeyOf(s.consumed[j].id))
  }

  lemma StepAttributes(s: State, step: Step, rewrite: Message -> Message)
    requires Inv(s) && Attributed(s) && Enabled(s, step)
    ensures Attributed(Next(s, step, rewrite))
  {
    var t := Next(s, step, rewrite);
    match step {
      case Request => FreshId(s);
      case Receive(message) =>
        if Claims(s, message) {
          assert t.consumed == s.consumed + [message];
          assert message in t.consumed && forall m <- s.consumed :: m in t.consumed;
        }
      case _ =>
    }
    forall id | id in t.promises && t.promises[id].Resolved?
      ensures exists m <- t.consumed :: AnsweredBy(m, id, t.promises[id].value)
    {
      if id in s.promises && s.promises[id].Resolved? {
        var m :| m in s.consumed && AnsweredBy(m, id, s.promises[id].value);
      } else {
        assert AnsweredBy(step.message, id, t.promises[id].value);
      }
    }
  }

  /** Over any run of a new channel, no caller is handed another request's result, and no response settles two. */
  lemma {:induction false} RunAttributes(s: State, steps: seq<Step>, rewrite: Message -> Message)
    requires Inv(s) && Attributed(s) && IsRun(s, steps, rewrite)
    ensures Attributed(After(s, steps, rewrite))
    decreases |steps|
  {
    if steps != [] {
      StepKeeps(s, steps[0], rewrite);
      StepAttributes(s, steps[0], rewrite);
      RunAttributes(Next(s, steps[0], rewrite), steps[1..], rewrite);
    }
  }

  /** A response to a request the SDK sent carries a number, and always reaches the SDK. */
  lemma SdkResponsesAreForwarded(s: State, n: int, body: Body)
    requires Inv(s)
    ensures !Claims(s, Response(NumberId(n), body))
  {
    if Decimal.OfInt(n) in s.pending {
      var m: nat :| 1 <= m <= s.counter && Decimal.OfInt(n) == MintedId(m);
      assert MintedId(m)[0] == 'i';
      FirstIsDigitOrMinus(n);
    }
  }

  lemma FirstIsDigitOrMinus(n: int)
    ensures Decimal.OfInt(n) != "" && (Decimal.OfInt(n)[0] == '-' || '0' <= Decimal.OfInt(n)[0] <= '9')
  {
    if n >= 0 {
      FirstIsDigit(n);
    }
  }

  lemma {:induction false} FirstIsDigit(n: nat)
    ensures Decimal.OfNat(n) != "" && '0' <= Decimal.OfNat(n)[0] <= '9'
    decreases n
  {
    if n >= 10 {
      FirstIsDigit(n / 10);
    }
  }
}
