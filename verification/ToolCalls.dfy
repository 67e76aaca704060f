/**
 * One `tools/call` as the user sees it: inside an attempt, the multi-round-trip loop that answers the server's
 * `input_required` results, run once more after an auth challenge that is satisfied; around the attempts, the loop that
 * has the user complete URL elicitations and tries again.
 *
 * The server and the user are arbitrary functions of what has happened so far.
 */
module ToolCalls {
  import opened Options
  import opened Json

  const MRTR_MAX_ROUNDS: nat := 10
  const MAX_URL_ELICITATION_RETRIES: nat := 5

  type Url = string

  type Params = map<string, Json>

  /**
   * What a failure carries: its text, and the URL elicitations of a `-32042` error, an empty list in the non-spec
   * form.
   */
  datatype CallError = CallError(text: string, urls: Option<seq<Url>>)

  /** The server's reply to the last request of a list. */
  datatype Reply =
    | Complete(result: Json)
    | InputRequired(requests: Option<seq<(string, Json)>>, requestState: Option<string>)
    | Refused(error: CallError)

  datatype UserReply = Answered(value: Json) | Abandoned(error: CallError)

  datatype Final = Answer(result: Json) | Raised(error: CallError)

  const TOO_MANY_ROUNDS: CallError := CallError("exceeded the input_required rounds", None)

  // ----- One exchange -----

  datatype Fulfilment = Responses(answers: Option<seq<(string, Json)>>) | Unfulfilled(error: CallError)

  function AnswersTo(requests: seq<(string, Json)>, user: (string, Json) -> UserReply): Fulfilment {
    if requests == [] then Responses(Some([])) else
    var n := |requests| - 1;
    match AnswersTo(requests[..n], user)
    case Unfulfilled(e) => Unfulfilled(e)
    case Responses(before) =>
      match user(requests[n].0, requests[n].1)
      case Abandoned(e) => Unfulfilled(e)
      case Answered(value) => Responses(Some(before.GetOr([]) + [(requests[n].0, value)]))
  }

  function FulfilmentOf(requests: Option<seq<(string, Json)>>, user: (string, Json) -> UserReply): Fulfilment {
    if requests.None? then Responses(None) else AnswersTo(requests.value, user)
  }

  /** The answers go out under exactly the keys the requests came with, in their order. */
  lemma {:induction false} AnswersKeepKeys(requests: seq<(string, Json)>, user: (string, Json) -> UserReply)
    requires AnswersTo(requests, user).Responses?
    ensures
      var answers := AnswersTo(requests, user).answers;
      && answers.Some? && |answers.value| == |requests|
      && forall i | 0 <= i < |requests| ::
           answers.value[i].0 == requests[i].0 && user(requests[i].0, requests[i].1) == Answered(answers.value[i].1)
  {
    if requests != [] {
      AnswersKeepKeys(requests[..|requests| - 1], user);
    }
  }

  /** A retry is the original request with one round's answers and state token, and nothing of the rounds before. */
  function RetryParams(params: Params, answers: Option<seq<(string, Json)>>, requestState: Option<string>): Params {
    var answered := if answers.Some? then params["inputResponses" := Obj(answers.value)] else params;
    if requestState.Some? then answered["requestState" := Str(requestState.value)] else answered
  }

  /** Key by key: the two keys a retry adds, each only when the round has it, and for every other key the original. */
  lemma RetryIsOriginalPlus(
    params: Params, answers: Option<seq<(string, Json)>>, requestState: Option<string>, key: string)
    ensures
      var retry := RetryParams(params, answers, requestState);
      && (answers.Some? ==> "inputResponses" in retry && retry["inputResponses"] == Obj(answers.value))
      && (requestState.Some? ==> "requestState" in retry && retry["requestState"] == Str(requestState.value))
      && (!(key == "inputResponses" && answers.Some?) && !(key == "requestState" && requestState.Some?) ==>
            (key in retry <==> key in params) && (key in params ==> retry[key] == params[key]))
  {
  }

  /** The answers are complete exactly when every request was answered; else the failure is the first one met. */
  lemma {:induction false} AnswersOrFirstFailure(requests: seq<(string, Json)>, user: (string, Json) -> UserReply)
    ensures AnswersTo(requests, user).Responses? <==> forall r <- requests :: user(r.0, r.1).Answered?
    ensures AnswersTo(requests, user).Unfulfilled? ==>
      exists i | 0 <= i < |requests| ::
        && user(requests[i].0, requests[i].1) == Abandoned(AnswersTo(requests, user).error)
        && forall j | 0 <= j < i :: user(requests[j].0, requests[j].1).Answered?
  {
    if requests != [] {
      var n := |requests| - 1;
      var front := requests[..n];
      AnswersOrFirstFailure(front, user);
      assert requests == front + [requests[n]];
      if AnswersTo(front, user).Unfulfilled? {
        var i :| 0 <= i < n && user(front[i].0, front[i].1) == Abandoned(AnswersTo(front, user).error)
                 && forall j | 0 <= j < i :: user(front[j].0, front[j].1).Answered?;
        assert user(requests[i].0, requests[i].1) == Abandoned(AnswersTo(requests, user).error);
        assert forall j | 0 <= j < i :: requests[j] == front[j];
      } else {
        assert forall j | 0 <= j < n :: requests[j] == front[j] && front[j] in front;
      }
    }
  }

  /** The request sent after `before` is the retry that the server's reply to `before` calls for. */
  ghost predicate IsRetry(
    params: Params, server: seq<Params> -> Reply, user: (nat, string, Json) -> UserReply, before: seq<Params>,
    sent: Params)
  {
    var reply := server(before);
    && reply.InputRequired?
    && var round := |before|;
       var fulfilled := FulfilmentOf(reply.requests, (key, request) => user(round, key, request));
       && fulfilled.Responses?
       && sent == RetryParams(params, fulfilled.answers, reply.requestState)
  }

  method FulfilInputRequests(requests: Option<seq<(string, Json)>>, user: (string, Json) -> UserReply)
    returns (fulfilled: Fulfilment)
    ensures fulfilled == FulfilmentOf(requests, user)
  {
    if requests.None? {
      return Responses(None);
    }
    var responses := [];
    for i := 0 to |requests.value|
      invariant AnswersTo(requests.value[..i], user) == Responses(Some(responses))
    {
      var (key, embedded) := requests.value[i];
      assert requests.value[..i + 1][..i] == requests.value[..i];
      var answer := user(key, embedded);
      if answer.Abandoned? {
        AbandonedStays(requests.value, i + 1, user);
        return Unfulfilled(answer.error);
      }
      responses := responses + [(key, answer.value)];
    }
    assert requests.value[..|requests.value|] == requests.value;
    return Responses(Some(responses));
  }

  lemma {:induction false} AbandonedStays(requests: seq<(string, Json)>, i: nat, user: (string, Json) -> UserReply)
    requires i <= |requests| && AnswersTo(requests[..i], user).Unfulfilled?
    ensures AnswersTo(requests, user) == AnswersTo(requests[..i], user)
    decreases |requests|
  {
    if i < |requests| {
      assert requests[..|requests| - 1][..i] == requests[..i];
      AbandonedStays(requests[..|requests| - 1], i, user);
    } else {
      assert requests[..i] == requests;
    }
  }

  /** The requests of one exchange: the original, then each the retry its predecessors call for, eleven at most. */
  ghost predicate IsExchange(
    params: Params, server: seq<Params> -> Reply, user: (nat, string, Json) -> UserReply, sent: seq<Params>)
  {
    && 1 <= |sent| <= MRTR_MAX_ROUNDS + 1 && sent[0] == params
    && forall i | 1 <= i < |sent| :: IsRetry(params, server, user, sent[..i], sent[i])
  }

  /** An exchange is over when the server has answered, refused, or asked once too often, or the user gave no answer. */
  ghost predicate EndsWith(
    server: seq<Params> -> Reply, user: (nat, string, Json) -> UserReply, sent: seq<Params>, final: Final)
  {
    match server(sent)
    case Complete(result) => final == Answer(result)
    case Refused(error) => final == Raised(error)
    case InputRequired(requests, _) =>
      var round := |sent|;
      if round > MRTR_MAX_ROUNDS then final == Raised(TOO_MANY_ROUNDS)
      else
        var fulfilled := FulfilmentOf(requests, (key, request) => user(round, key, request));
        fulfilled.Unfulfilled? && final == Raised(fulfilled.error)
  }

  /** At most eleven requests: the original and ten retries. */
  method RequestWithInputRequired(params: Params, server: seq<Params> -> Reply, user: (nat, string, Json) -> UserReply)
    returns (final: Final, sent: seq<Params>)
    ensures IsExchange(params, server, user, sent)
    ensures EndsWith(server, user, sent, final)
  {
    var round, nextParams := 0, params;
    sent := [];
    while true
      invariant |sent| == round <= MRTR_MAX_ROUNDS
      invariant
        if round == 0 then nextParams == params
        else sent[0] == params && IsRetry(params, server, user, sent, nextParams)
      invariant forall i | 1 <= i < |sent| :: IsRetry(params, server, user, sent[..i], sent[i])
      decreases MRTR_MAX_ROUNDS - round
    {
      ghost var before := sent;
      sent := sent + [nextParams];
      assert sent[..round] == before;
      assert forall i | 0 <= i <= round :: sent[..i] == before[..i];
      var outcome := server(sent);
      match outcome {
        case Complete(result) => return Answer(result), sent;
        case Refused(error) => return Raised(error), sent;
        case InputRequired(requests, requestState) =>
          round := round + 1;
          if round > MRTR_MAX_ROUNDS {
            return Raised(TOO_MANY_ROUNDS), sent;
          }
          var current := round;
          var fulfilled := FulfilInputRequests(requests, (key, request) => user(current, key, request));
          if fulfilled.Unfulfilled? {
            return Raised(fulfilled.error), sent;
          }
          nextParams := RetryParams(params, fulfilled.answers, requestState);
      }
    }
  }

  // ----- The call -----

  datatype Action = Accept | Decline | CancelIt

  datatype Event = Succeeded(result: Json) | Failed(text: string)

  datatype Outcome =
    | Returned(result: Json)
    | CancelledByUser
    | RepeatedUrl(url: Url)
    | NotAccepted(action: Action)
    | Threw(error: CallError)

  /**
   * What comes of an error that ends an attempt's first exchange. It is thrown on when it is no auth challenge or
   * recovery is off or nested too deep; a challenge is satisfied, and the client connected again, or leads to another
   * error.
   */
  datatype Recovery = NotTried | Satisfied | Replaced(error: CallError)

  /**
   * Everything outside the loops. By attempt and leg: the server and the user's answers. By attempt: the recovery, what
   * can still fail once a result is in (polling a task, validating the output), whether the user had cancelled by the
   * time the attempt failed, and what the user does with each URL of the elicitations the attempt failed with.
   */
  datatype World = World(
    server: (nat, nat, seq<Params>) -> Reply,
    user: (nat, nat, nat, string, Json) -> UserReply,
    recover: (nat, CallError) -> Recovery,
    settle: (nat, Json) -> Final,
    cancelled: nat -> bool,
    onUrl: (nat, nat) -> Action)

  function ServerIn(world: World, n: nat, leg: nat): seq<Params> -> Reply {
    sent => world.server(n, leg, sent)
  }

  function UserIn(world: World, n: nat, leg: nat): (nat, string, Json) -> UserReply {
    (round: nat, key, request) => world.user(n, leg, round, key, request)
  }

  /** The requests `sent` on a leg of attempt `n`, and the reply it ends with. */
  ghost predicate IsLeg(n: nat, leg: nat, params: Params, world: World, sent: seq<Params>, replied: Final) {
    && IsExchange(params, ServerIn(world, n, leg), UserIn(world, n, leg), sent)
    && EndsWith(ServerIn(world, n, leg), UserIn(world, n, leg), sent, replied)
  }

  predicate IsSatisfied(n: nat, replied: Final, world: World) {
    replied.Raised? && world.recover(n, replied.error).Satisfied?
  }

  /** A result is settled; an error of the first leg may have become another. */
  function Settled(n: nat, replied: Final, world: World): Final {
    match replied
    case Answer(result) => world.settle(n, result)
    case Raised(error) =>
      match world.recover(n, error)
      case Replaced(other) => Raised(other)
      case _ => replied
  }

  function SettledAgain(n: nat, replied: Final, world: World): Final {
    if replied.Answer? then world.settle(n, replied.result) else replied
  }

  /**
   * What attempt `n` can come to, and the requests it puts on the wire, leg by leg: one exchange, and after a satisfied
   * auth challenge, whatever round it came in, a second one that starts from the original request.
   */
  ghost predicate IsAttempt(n: nat, params: Params, world: World, final: Final, legs: seq<seq<Params>>) {
    legs != [] && exists replied | IsLeg(n, 0, params, world, legs[0], replied) ::
      GoesOn(n, params, world, replied, final, legs)
  }

  /** How an attempt goes on from the end of its first leg. */
  ghost predicate GoesOn(n: nat, params: Params, world: World, replied: Final, final: Final, legs: seq<seq<Params>>) {
    if IsSatisfied(n, replied, world) then
      |legs| == 2 && exists again | IsLeg(n, 1, params, world, legs[1], again) :: final == SettledAgain(n, again, world)
    else |legs| == 1 && final == Settled(n, replied, world)
  }

  method AttemptToolCall(n: nat, params: Params, world: World) returns (final: Final, legs: seq<seq<Params>>)
    ensures IsAttempt(n, params, world, final, legs)
  {
    var replied, sent := RequestWithInputRequired(params, ServerIn(world, n, 0), UserIn(world, n, 0));
    legs := [sent];
    assert IsLeg(n, 0, params, world, legs[0], replied);
    final := replied;
    if replied.Raised? {
      match world.recover(n, replied.error) {
        case NotTried =>
        case Replaced(error) => final := Raised(error);
        case Satisfied =>
          var again, sentAgain := RequestWithInputRequired(params, ServerIn(world, n, 1), UserIn(world, n, 1));
          legs := [sent, sentAgain];
          assert IsLeg(n, 1, params, world, legs[1], again);
          final := again;
          if again.Answer? {
            final := world.settle(n, again.result);
          }
      }
    } else {
      final := world.settle(n, replied.result);
    }
    assert GoesOn(n, params, world, replied, final, legs);
  }

  /** An exchange ends in one way only. */
  lemma EndsOnce(n: nat, leg: nat, params: Params, world: World, sent: seq<Params>, a: Final, b: Final)
    requires IsLeg(n, leg, params, world, sent, a) && IsLeg(n, leg, params, world, sent, b)
    ensures a == b
  {
  }

  /**
   * An attempt is a single exchange, of at most eleven requests, exactly when its first exchange does not end in a
   * challenge that is satisfied; otherwise it is two, of at most eleven each.
   */
  lemma OneExchangeExactly(
    n: nat, params: Params, world: World, final: Final, legs: seq<seq<Params>>, replied: Final)
    requires IsAttempt(n, params, world, final, legs) && IsLeg(n, 0, params, world, legs[0], replied)
    ensures |legs| == 1 <==> !IsSatisfied(n, replied, world)
    ensures |legs| == 2 <==> IsSatisfied(n, replied, world)
    ensures forall leg <- legs :: |leg| <= MRTR_MAX_ROUNDS + 1
  {
    var other :| IsLeg(n, 0, params, world, legs[0], other) && GoesOn(n, params, world, other, final, legs);
    EndsOnce(n, 0, params, world, legs[0], replied, other);
  }

  /** A round of URL elicitations: what the server asked for, and as much of it as the user was shown. */
  datatype Round = Round(asked: seq<Url>, shown: seq<Url>)

  /** The user accepted everything shown but the last, to which the answer was `action`. */
  ghost predicate StoppedAt(n: nat, round: Round, action: Action, world: World) {
    && action != Accept && round.shown != [] && round.shown <= round.asked
    && world.onUrl(n, |round.shown| - 1) == action
    && forall i | 0 <= i < |round.shown| - 1 :: world.onUrl(n, i) == Accept
  }

  ghost predicate AllAccepted(n: nat, round: Round, world: World) {
    round.shown == round.asked && forall i | 0 <= i < |round.asked| :: world.onUrl(n, i) == Accept
  }

  /** In order, up to and including the first one the user does not accept. */
  method RunUrlElicitations(n: nat, urls: seq<Url>, world: World) returns (action: Action, shown: seq<Url>)
    ensures if action == Accept then AllAccepted(n, Round(urls, shown), world)
            else StoppedAt(n, Round(urls, shown), action, world)
  {
    for i := 0 to |urls|
      invariant forall j | 0 <= j < i :: world.onUrl(n, j) == Accept
    {
      action := world.onUrl(n, i);
      if action != Accept {
        return action, urls[..i + 1];
      }
    }
    return Accept, urls;
  }

  /** No URL asked for in one round is asked for again in a later one that is shown. */
  ghost predicate RoundsDisjoint(rounds: seq<Round>) {
    forall i, j | 0 <= i < j < |rounds| :: forall url <- rounds[j].asked :: url !in rounds[i].asked
  }

  ghost predicate NeverShownTwice(rounds: seq<Round>) {
    forall i, j | 0 <= i < j < |rounds| :: forall url <- rounds[j].shown :: url !in rounds[i].shown
  }

  /** The one result event a finished call emits; a user cancel emits none. */
  ghost predicate OneEvent(outcome: Outcome, events: seq<Event>) {
    match outcome
    case CancelledByUser => events == []
    case Returned(result) => events == [Succeeded(result)]
    case Threw(error) => events == [Failed(error.text)]
    case _ => |events| == 1 && events[0].Failed?
  }

  /** Whether the attempt failed for want of URL elicitations that the loop still has a round for. */
  predicate AsksForUrls(n: nat, final: Final, world: World) {
    && final.Raised? && !world.cancelled(n)
    && final.error.urls.Some? && final.error.urls.value != [] && n < MAX_URL_ELICITATION_RETRIES
  }

  /** Attempt `n` led to another: its URLs were all new, were shown, and were all accepted. */
  ghost predicate LedOn(n: nat, final: Final, world: World, rounds: seq<Round>) {
    && AsksForUrls(n, final, world)
    && n < |rounds| && rounds[n].asked == final.error.urls.value && AllAccepted(n, rounds[n], world)
  }

  ghost predicate AskedBefore(url: Url, rounds: seq<Round>) {
    exists round <- rounds :: url in round.asked
  }

  ghost predicate AllAttempts(params: Params, world: World, finals: seq<Final>, wires: seq<seq<seq<Params>>>) {
    |finals| == |wires| && forall n | 0 <= n < |finals| :: IsAttempt(n, params, world, finals[n], wires[n])
  }

  ghost predicate AllLedOn(finals: seq<Final>, world: World, rounds: seq<Round>) {
    forall n | 0 <= n < |finals| :: LedOn(n, finals[n], world, rounds)
  }

  /** How the last attempt settles the call. */
  ghost predicate Concludes(n: nat, final: Final, world: World, rounds: seq<Round>, outcome: Outcome) {
    n <= |rounds| &&
    match final
    case Answer(result) => outcome == Returned(result) && |rounds| == n
    case Raised(error) =>
      if world.cancelled(n) then outcome == CancelledByUser && |rounds| == n
      else if !AsksForUrls(n, final, world) then outcome == Threw(error) && |rounds| == n
      else if exists url <- error.urls.value :: AskedBefore(url, rounds[..n]) then
        && |rounds| == n
        && outcome.RepeatedUrl? && outcome.url in error.urls.value && AskedBefore(outcome.url, rounds)
      else
        && |rounds| == n + 1 && rounds[n].asked == error.urls.value
        && outcome.NotAccepted? && StoppedAt(n, rounds[n], outcome.action, world)
  }

  const SAME_URL_AGAIN := "the server asked for the same URL elicitation again"
  const NOT_ACCEPTED := "required URL elicitation was not accepted"

  /**
   * At most six attempts; a new one only after every URL the last one asked for was shown and accepted; no URL asked
   * for or shown in two rounds; exactly one result event, none on a user cancel; and the outcome is the last attempt's.
   */
  method CallToolWithRetries(params: Params, world: World)
    returns (
      outcome: Outcome, events: seq<Event>, finals: seq<Final>, wires: seq<seq<seq<Params>>>, rounds: seq<Round>)
    ensures OneEvent(outcome, events)
    ensures 1 <= |finals| == |wires| <= MAX_URL_ELICITATION_RETRIES + 1
    ensures AllAttempts(params, world, finals, wires)
    ensures RoundsDisjoint(rounds) && NeverShownTwice(rounds)
    ensures AllLedOn(finals[..|finals| - 1], world, rounds)
    ensures Concludes(|finals| - 1, finals[|finals| - 1], world, rounds, outcome)
  {
    events, finals, wires, rounds := [], [], [], [];
    var urlElicitationAttempt, presentedUrls := 0, {};
    while true
      invariant events == []
      invariant |finals| == |wires| == |rounds| == urlElicitationAttempt <= MAX_URL_ELICITATION_RETRIES
      invariant Remembers(presentedUrls, rounds)
      invariant AllAttempts(params, world, finals, wires) && AllLedOn(finals, world, rounds)
      decreases MAX_URL_ELICITATION_RETRIES - |finals|
    {
      var n := urlElicitationAttempt;
      var final, legs := AttemptToolCall(n, params, world);
      ghost var ledOn, attempted := finals, wires;
      finals, wires := finals + [final], wires + [legs];
      assert finals[..n] == ledOn;
      AttemptOneMore(params, world, ledOn, attempted, final, legs);
      if final.Answer? {
        ShownOnce(presentedUrls, rounds);
        events := [Succeeded(final.result)];
        return Returned(final.result), events, finals, wires, rounds;
      }
      var error := final.error;
      if world.cancelled(n) {
        ShownOnce(presentedUrls, rounds);
        return CancelledByUser, events, finals, wires, rounds;
      }
      if error.urls.Some? && |error.urls.value| > 0 && urlElicitationAttempt < MAX_URL_ELICITATION_RETRIES {
        urlElicitationAttempt := urlElicitationAttempt + 1;
        ghost var earlier := rounds;
        var ending;
        ending, rounds, presentedUrls := UrlRound(n, final, world, rounds, presentedUrls);
        LedOnStill(ledOn, world, earlier, rounds);
        if ending.None? {
          LedOnOneMore(ledOn, final, world, rounds);
          continue;
        }
        ShownOnce(presentedUrls, rounds);
        events := [Failed(if ending.value.RepeatedUrl? then SAME_URL_AGAIN else NOT_ACCEPTED)];
        return ending.value, events, finals, wires, rounds;
      }
      ShownOnce(presentedUrls, rounds);
      events := [Failed(error.text)];
      return Threw(error), events, finals, wires, rounds;
    }
  }

  /**
   * One round of URL elicitations: refuse a repeated URL, else show them up to the first that is not accepted. The
   * loop guard remembers them all, shown or not. `None` when the call may try again.
   */
  method UrlRound(n: nat, final: Final, world: World, rounds: seq<Round>, presentedUrls: set<Url>)
    returns (ending: Option<Outcome>, nowRounds: seq<Round>, nowPresentedUrls: set<Url>)
    requires AsksForUrls(n, final, world) && |rounds| == n && Remembers(presentedUrls, rounds)
    ensures rounds <= nowRounds && Remembers(nowPresentedUrls, nowRounds)
    ensures
      if ending.None? then |nowRounds| == n + 1 && LedOn(n, final, world, nowRounds)
      else
        && (ending.value.RepeatedUrl? || ending.value.NotAccepted?)
        && Concludes(n, final, world, nowRounds, ending.value)
  {
    var urls := final.error.urls.value;
    var repeated := FirstRepeated(urls, presentedUrls);
    if repeated.Some? {
      assert rounds[..n] == rounds;
      return Some(RepeatedUrl(repeated.value)), rounds, presentedUrls;
    }
    var action, shown := RunUrlElicitations(n, urls, world);
    RoundOneMore(rounds, presentedUrls, Round(urls, shown));
    nowRounds, nowPresentedUrls := rounds + [Round(urls, shown)], presentedUrls + (set url <- urls :: url);
    if action == Accept {
      return None, nowRounds, nowPresentedUrls;
    }
    assert nowRounds[..n] == rounds;
    return Some(NotAccepted(action)), nowRounds, nowPresentedUrls;
  }

  /** The loop guard: what it has seen, no URL in two rounds, and no more shown than asked for. */
  ghost predicate Remembers(urls: set<Url>, rounds: seq<Round>) {
    && (forall url :: url in urls <==> AskedBefore(url, rounds))
    && RoundsDisjoint(rounds)
    && forall round <- rounds :: round.shown <= round.asked
  }

  lemma RoundOneMore(rounds: seq<Round>, presentedUrls: set<Url>, last: Round)
    requires Remembers(presentedUrls, rounds) && last.shown <= last.asked
    requires forall url <- last.asked :: url !in presentedUrls
    ensures Remembers(presentedUrls + (set url <- last.asked :: url), rounds + [last])
  {
    var more := rounds + [last];
    assert forall round <- rounds :: round in more;
    assert last in more by { assert more[|rounds|] == last; }
    forall i, j | 0 <= i < j < |more|
      ensures forall url <- more[j].asked :: url !in more[i].asked
    {
      if j == |rounds| {
        assert more[i] in rounds;
      }
    }
  }

  lemma ShownOnce(urls: set<Url>, rounds: seq<Round>)
    requires Remembers(urls, rounds)
    ensures RoundsDisjoint(rounds) && NeverShownTwice(rounds)
  {
    forall i, j | 0 <= i < j < |rounds|
      ensures forall url <- rounds[j].shown :: url !in rounds[i].shown
    {
      assert rounds[i] in rounds && rounds[j] in rounds;
      assert forall url <- rounds[j].shown :: url in rounds[j].asked;
      assert forall url <- rounds[i].shown :: url in rounds[i].asked;
    }
  }

  lemma AttemptOneMore(
    params: Params, world: World, finals: seq<Final>, wires: seq<seq<seq<Params>>>, final: Final,
    legs: seq<seq<Params>>)
    requires AllAttempts(params, world, finals, wires) && IsAttempt(|finals|, params, world, final, legs)
    ensures AllAttempts(params, world, finals + [final], wires + [legs])
  {
  }

  lemma LedOnStill(finals: seq<Final>, world: World, rounds: seq<Round>, more: seq<Round>)
    requires AllLedOn(finals, world, rounds) && rounds <= more
    ensures AllLedOn(finals, world, more)
  {
    forall n | 0 <= n < |finals|
      ensures LedOn(n, finals[n], world, more)
    {
      assert LedOn(n, finals[n], world, rounds);
    }
  }

  lemma LedOnOneMore(finals: seq<Final>, final: Final, world: World, rounds: seq<Round>)
    requires AllLedOn(finals, world, rounds) && LedOn(|finals|, final, world, rounds)
    ensures AllLedOn(finals + [final], world, rounds)
  {
  }

  method FirstRepeated(urls: seq<Url>, presented: set<Url>) returns (repeated: Option<Url>)
    ensures repeated.None? <==> forall url <- urls :: url !in presented
    ensures repeated.Some? ==> repeated.value in urls && repeated.value in presented
  {
    for i := 0 to |urls|
      invariant forall j | 0 <= j < i :: urls[j] !in presented
    {
      if urls[i] in presented {
        return Some(urls[i]);
      }
    }
    return None;
  }

  /**
   * How an attempt's last leg decides it: a result is settled; an error is what the leg ended with, unless recovery
   * was tried on a first leg and came to another.
   */
  lemma AttemptIsItsLastLeg(
    n: nat, params: Params, world: World, final: Final, legs: seq<seq<Params>>, replied: Final)
    requires IsAttempt(n, params, world, final, legs)
    requires IsLeg(n, |legs| - 1, params, world, legs[|legs| - 1], replied)
    ensures replied.Answer? ==> final == world.settle(n, replied.result)
    ensures replied.Raised? && |legs| == 2 ==> final == replied
    ensures replied.Raised? && |legs| == 1 ==>
      match world.recover(n, replied.error)
      case NotTried => final == replied
      case Replaced(other) => final == Raised(other)
      case Satisfied => false
  {
    var first :| IsLeg(n, 0, params, world, legs[0], first) && GoesOn(n, params, world, first, final, legs);
    if |legs| == 1 {
      EndsOnce(n, 0, params, world, legs[0], first, replied);
    } else {
      var again :| IsLeg(n, 1, params, world, legs[1], again) && final == SettledAgain(n, again, world);
      EndsOnce(n, 1, params, world, legs[1], again, replied);
    }
  }

  // ----- How much goes on the wire -----

  /** The requests of one attempt, all legs together. */
  function Requests(legs: seq<seq<Params>>): nat {
    if legs == [] then 0 else Requests(legs[..|legs| - 1]) + |legs[|legs| - 1]|
  }

  function Total(wires: seq<seq<seq<Params>>>): nat {
    if wires == [] then 0 else Total(wires[..|wires| - 1]) + Requests(wires[|wires| - 1])
  }

  /** How many attempts recovered from an auth challenge and started over. */
  function Recovered(wires: seq<seq<seq<Params>>>): nat {
    if wires == [] then 0
    else Recovered(wires[..|wires| - 1]) + if |wires[|wires| - 1]| == 2 then 1 else 0
  }

  lemma RequestsOf(legs: seq<seq<Params>>)
    requires 1 <= |legs| <= 2
    ensures Requests(legs) == if |legs| == 1 then |legs[0]| else |legs[0]| + |legs[1]|
  {
    var front := legs[..|legs| - 1];
    assert front != [] ==> front[..|front| - 1] == [] && Requests(front[..|front| - 1]) == 0;
  }

  lemma AttemptRequests(n: nat, params: Params, world: World, final: Final, legs: seq<seq<Params>>)
    requires IsAttempt(n, params, world, final, legs)
    ensures 1 <= |legs| <= 2 && 1 <= Requests(legs) <= (MRTR_MAX_ROUNDS + 1) * |legs|
  {
    RequestsOf(legs);
  }

  /** Eleven requests for each attempt and for each recovered one again: 132 over the six attempts a call can make. */
  lemma {:induction false} AtMostElevenEach(
    params: Params, world: World, finals: seq<Final>, wires: seq<seq<seq<Params>>>)
    requires AllAttempts(params, world, finals, wires)
    ensures Recovered(wires) <= |wires|
    ensures |wires| <= Total(wires) <= (MRTR_MAX_ROUNDS + 1) * (|wires| + Recovered(wires))
    ensures |wires| <= MAX_URL_ELICITATION_RETRIES + 1 ==> Total(wires) <= 132
    decreases |wires|
  {
    if wires != [] {
      var n := |wires| - 1;
      EarlierAttempts(params, world, finals, wires);
      AtMostElevenEach(params, world, finals[..n], wires[..n]);
      AttemptRequests(n, params, world, finals[n], wires[n]);
    }
  }

  lemma EarlierAttempts(params: Params, world: World, finals: seq<Final>, wires: seq<seq<seq<Params>>>)
    requires AllAttempts(params, world, finals, wires) && wires != []
    ensures AllAttempts(params, world, finals[..|wires| - 1], wires[..|wires| - 1])
    ensures IsAttempt(|wires| - 1, params, world, finals[|wires| - 1], wires[|wires| - 1])
  {
  }

  // ----- The bounds are reached -----

  const CHALLENGED: CallError := CallError("401", None)

  /**
   * A server that asks for input `first` times and then challenges, is satisfied, asks ten times more and then replies
   * as `last` says; and a user who answers and accepts everything.
   */
  function Insistent(first: nat, last: nat -> Reply): World {
    World(
      (n: nat, leg: nat, sent: seq<Params>) =>
        if |sent| <= (if leg == 0 then first else MRTR_MAX_ROUNDS) then InputRequired(None, None)
        else if leg == 0 then Refused(CHALLENGED)
        else last(n),
      (n: nat, leg: nat, round: nat, key: string, request: Json) => Answered(Null),
      (n: nat, error: CallError) => if error == CHALLENGED then Recovery.Satisfied else NotTried,
      (n: nat, result: Json) => Answer(result),
      (n: nat) => false,
      (n: nat, i: nat) => Accept)
  }

  /** With nothing to answer and no state token, every retry is the original request. */
  function Copies(params: Params, count: nat): seq<Params> {
    seq(count, i requires 0 <= i < count => params)
  }

  lemma CopiesAreALeg(n: nat, leg: nat, params: Params, world: World, count: nat, replied: Final)
    requires 1 <= count <= MRTR_MAX_ROUNDS + 1
    requires forall sent: seq<Params> | |sent| < count :: world.server(n, leg, sent) == InputRequired(None, None)
    requires
      world.server(n, leg, Copies(params, count)) ==
      if replied.Answer? then Complete(replied.result) else Refused(replied.error)
    ensures IsLeg(n, leg, params, world, Copies(params, count), replied)
  {
    var sent := Copies(params, count);
    forall i | 1 <= i < count
      ensures IsRetry(params, ServerIn(world, n, leg), UserIn(world, n, leg), sent[..i], sent[i])
    {
    }
  }

  lemma InsistentAttempt(n: nat, params: Params, first: nat, last: nat -> Reply, final: Final)
    returns (legs: seq<seq<Params>>)
    requires first <= MRTR_MAX_ROUNDS
    requires last(n) == if final.Answer? then Complete(final.result) else Refused(final.error)
    ensures IsAttempt(n, params, Insistent(first, last), final, legs)
    ensures |legs| == 2 && |legs[0]| == first + 1 && |legs[1]| == 11 && Requests(legs) == first + 12
  {
    var world := Insistent(first, last);
    legs := [Copies(params, first + 1), Copies(params, 11)];
    CopiesAreALeg(n, 0, params, world, first + 1, Raised(CHALLENGED));
    CopiesAreALeg(n, 1, params, world, 11, final);
    assert IsSatisfied(n, Raised(CHALLENGED), world);
    assert final == SettledAgain(n, final, world);
    assert GoesOn(n, params, world, Raised(CHALLENGED), final, legs);
    RequestsOf(legs);
  }

  /**
   * One attempt, twelve requests: the server challenges the first, the challenge is satisfied, and it asks for input
   * ten times before it completes.
   */
  lemma TwelveInOneAttempt(params: Params) returns (world: World, legs: seq<seq<Params>>)
    ensures IsAttempt(0, params, world, Answer(Null), legs)
    ensures |legs| == 2 && |legs[0]| == 1 && Requests(legs) == 12 > MRTR_MAX_ROUNDS + 1
  {
    var last := (n: nat) => Complete(Null);
    world := Insistent(0, last);
    legs := InsistentAttempt(0, params, 0, last, Answer(Null));
  }

  /** A URL for each attempt. */
  function UrlOf(n: nat): Url {
    seq(n + 1, i requires 0 <= i <= n => 'u')
  }

  function WantsUrl(n: nat): CallError {
    CallError("-32042", Some([UrlOf(n)]))
  }

  function WantingUrls(count: nat): seq<Final> {
    seq(count, n requires 0 <= n < count => Raised(WantsUrl(n)))
  }

  function Rounds(count: nat): seq<Round> {
    seq(count, n requires 0 <= n < count => Round([UrlOf(n)], [UrlOf(n)]))
  }

  lemma {:induction false} InsistentAttempts(params: Params, last: nat -> Reply, count: nat)
    returns (wires: seq<seq<seq<Params>>>)
    requires forall n: nat :: last(n) == Refused(WantsUrl(n))
    ensures AllAttempts(params, Insistent(MRTR_MAX_ROUNDS, last), WantingUrls(count), wires)
    ensures Total(wires) == 22 * count
  {
    if count == 0 {
      wires := [];
    } else {
      var n := count - 1;
      var before := InsistentAttempts(params, last, n);
      var legs := InsistentAttempt(n, params, MRTR_MAX_ROUNDS, last, Raised(WantsUrl(n)));
      AttemptOneMore(
        params, Insistent(MRTR_MAX_ROUNDS, last), WantingUrls(n), before, Raised(WantsUrl(n)), legs);
      assert WantingUrls(count) == WantingUrls(n) + [Raised(WantsUrl(n))];
      wires := before + [legs];
      TotalOneMore(before, legs);
    }
  }

  lemma TotalOneMore(wires: seq<seq<seq<Params>>>, legs: seq<seq<Params>>)
    ensures Total(wires + [legs]) == Total(wires) + Requests(legs)
  {
    assert (wires + [legs])[..|wires|] == wires;
  }

  /** With no round left the error is thrown. */
  lemma OutOfRounds(n: nat, error: CallError, world: World, rounds: seq<Round>)
    requires n == |rounds| && n >= MAX_URL_ELICITATION_RETRIES && !world.cancelled(n)
    ensures Concludes(n, Raised(error), world, rounds, Threw(error))
  {
  }

  lemma RoundsLeadOn(world: World, count: nat)
    requires count <= MAX_URL_ELICITATION_RETRIES
    requires forall n: nat :: !world.cancelled(n)
    requires forall n: nat, i: nat :: world.onUrl(n, i) == Accept
    ensures RoundsDisjoint(Rounds(count)) && AllLedOn(WantingUrls(count), world, Rounds(count))
  {
    assert forall i, j | 0 <= i < j < count :: |UrlOf(i)| != |UrlOf(j)|;
  }

  /** A whole call of 132 requests: every attempt is challenged late, recovers, and ends by asking for another URL. */
  lemma TheBoundIsReached(params: Params)
    returns (world: World, finals: seq<Final>, wires: seq<seq<seq<Params>>>, rounds: seq<Round>)
    ensures |finals| == MAX_URL_ELICITATION_RETRIES + 1 && AllAttempts(params, world, finals, wires)
    ensures RoundsDisjoint(rounds) && AllLedOn(finals[..|finals| - 1], world, rounds)
    ensures Concludes(|finals| - 1, finals[|finals| - 1], world, rounds, Threw(WantsUrl(|finals| - 1)))
    ensures Total(wires) == 132
  {
    var last := (n: nat) => Refused(WantsUrl(n));
    var six: nat := 6;
    world, finals, rounds := Insistent(MRTR_MAX_ROUNDS, last), WantingUrls(six), Rounds(six - 1);
    wires := InsistentAttempts(params, last, six);
    RoundsLeadOn(world, six - 1);
    OutOfRounds(six - 1, WantsUrl(six - 1), world, rounds);
    assert finals[..six - 1] == WantingUrls(six - 1);
  }
}
