# Verified models of the MCP Inspector's core

The MCP Inspector talks to MCP servers on behalf of a developer. Its `core/` holds the parts where getting it right is
hard: a stream that must mirror a list the user keeps editing, request loops that must end, schema rewrites that must
not change what a schema means, stores that must not mix up credentials. This project models those parts in Dafny and
proves what they promise.

Asynchronous code is modelled as atomic steps, one for each stretch of code between two `await`s. The environment (the
server, the user, timers, the transport) picks the next step, so every interleaving is covered. Where the program is an
object that updates its fields, so is the model: each class method is shown to do to the fields exactly what its step
does to a state value, and the theorems over all runs are about those steps. Functions that only compute are functions.

| file | what it models |
|---|---|
| `ListenModel`, `ListenLaws`, `ListenSafety`, `ListenBadge`, `ListenBackoff`, `ListenGiveUp`, `ListenStream` | the modern `subscriptions/listen` stream: ownership by generation, optimistic subscribe with rollback, drops, reconnects with backoff |
| `RawWireModel`, `RawWire` | requests sent around the SDK and the correlation of their responses |
| `ToolCalls` | the `input_required` loop inside one attempt of a tool call, and the URL-elicitation loop around the attempts |
| `ListSalvage` | walking a paginated list a second time to keep the entries that parse |
| `NullableUnion`, `NullableUnionMeaning` | flattening "this type, or null" in a JSON Schema, and a denotation of the fragment to judge it by |
| `HeaderScan`, `HeaderScanner`, `HeaderScanMeaning` | finding `x-mcp-header` annotations in a tool's input schema |
| `HeaderEncoding`, `HeaderParams` | the `Mcp-Param-*` headers of a tool call |
| `OAuthStore`, `OAuthHistory`, `OAuthPersistence`, `OAuthStorage` | the OAuth credential store, its history, its load and its write queue |
| `AuthMutex` | the promise chain that serializes auth-challenge recovery |
| `ErrorChain` | searching errors that carry other errors, possibly in a cycle |
| `ServerList` | reading, writing and stripping of secrets of the server configuration |
| `Options`, `Json`, `Text`, `Decimal` | what several of these share |

## Where the code and its promises part

Seven places where a property one would expect is false of the code. Each has a lemma with the input that shows it or an
exact condition that excludes it, and beside it what does hold.

- The badge can read "reconnecting" over a healthy stream (`ListenBadge.ReconnectingOverLiveStreamHappens`), because the
  handler of a failed reconnect does not test whether it still owns the stream. Exactly that failure, with retries left
  on a live connection, makes it so (`ListenBadge.ReconnectingOverLiveStreamExactly`).
- For the same reason a reconnect that fails after the client has connected again can leave the badge at "reconnecting"
  with nothing behind it (`ListenBadge.BadgeStrandedAcrossSessions`). Over all runs this happens exactly when the
  connection comes up, or a change of capabilities disarms a timer, under a badge that nothing else backs
  (`ListenBadge.BadgeBackedExactly`); within one session it does not (`ListenBadge.BadgeBackedThroughSession`).
- For the same reason again a healthy stream that drops need not be retried nine times over 75.5 seconds
  (`ListenGiveUp.EightAfterStaleReconnect`): it is so exactly when no older reconnect is in flight as it drops and no
  failure has been counted since it was acknowledged (`ListenGiveUp.NineExactly`).
- `admitsNull` says yes to a schema whose conditional rejects null, and to one that carries `nullable: true` beside a
  union without null (`NullableUnionMeaning.AdmitsNullOverclaims`). Without the flag and without conditionals its yes is
  sound; with them the exact condition is given, for each of the ways it comes to a yes.
- Collapsing a type list that has an enum drops null from the enum, so a reader of the enum who takes the flag in
  OpenAPI's sense no longer accepts null (`NullableUnionMeaning.TypeListKeepsMeaning` gives the exact condition).
- The bound on input rounds, stated for one logical request (core/mcp/inspectorClient.ts:368-375), is a bound on one
  exchange: a tool call that recovers from an auth challenge starts over with all its rounds
  (`ToolCalls.TwelveInOneAttempt`, and `ToolCalls.OneExchangeExactly` for exactly when).
- A saved setting can read back changed: a task TTL of zero comes back as the default, a blank header row is gone, and
  default settings of an entry without `env` and `cwd` come back as none (`ServerList.SettingsSurviveExactly`).

## Model

| member | source | states |
|---|---|---|
| ListenSafety.StepKeeps | core/mcp/inspectorClient.ts:5633-5973 | every atomic step keeps: the installed stream is the newest refresh's and was opened for exactly the subscribed URIs; every stream handed out is current, closed by us or reported closed; no listener sees an active badge over an empty set |
| ListenSafety.RunKeeps | core/mcp/inspectorClient.ts:1571-1590 | the same after every run, whatever the interleaving; and the events told to listeners only grow |
| ListenSafety.AtMostOneLiveStream | core/mcp/inspectorClient.ts:5633-5697 | from a new client, after any run, the streams neither closed nor ended are exactly the current one, if any: nothing leaks |
| ListenSafety.SubscribedFollowsEdits | core/mcp/inspectorClient.ts:5841-5973 | after any run the subscribed set is the fold of the user's clicks and the resets, in which a failed subscribe takes its own URI back exactly when its refresh is still the newest; nothing else adds or removes |
| ListenSafety.EditRelists | core/mcp/inspectorClient.ts:5625-5653 | every edit that changes the set takes a new generation, leaves no open stream, disarms the timer, and leaves a newest refresh on its way or nothing to listen for |
| ListenSafety.RollbackOnlyByOwner | core/mcp/inspectorClient.ts:5862-5899 | a failed subscribe removes its URI if and only if no later refresh or reset has begun, and then no stream is installed that could carry it |
| ListenSafety.GenerationNeverFalls | core/mcp/inspectorClient.ts:5644 | the generation never falls, and a run that leaves it alone contains no reset |
| ListenLaws.CloseLaw | core/mcp/inspectorClient.ts:5705-5742 | the end of the installed stream arms a timer and reads "reconnecting" if and only if it was a remote drop on a live connection with something to listen for; a local or graceful close ends it and leaves the timer alone |
| ListenLaws.UneventfulRunArmsNothing | core/mcp/inspectorClient.ts:5705-5829 | a run in which nothing drops and nothing is refused never arms a timer |
| ListenLaws.TimerLaw | core/mcp/inspectorClient.ts:5615-5829 | over every kind of step the timer is armed for exactly three reasons, with the delay of the failures so far, and disarmed when it fires, on a user refresh and on a reset |
| ListenLaws.AttemptsLaw | core/mcp/inspectorClient.ts:5670-5829 | only a failed reconnect counts; a user refresh, a reset and the newest acknowledgement start afresh |
| ListenLaws.BadgeLaw | core/mcp/inspectorClient.ts:5490-5973 | what the badge reads after each kind of step, the URIs the server honored among it |
| ListenLaws.GenerationLaw | core/mcp/inspectorClient.ts:5633-5644 | the generation moves exactly when a refresh begins, by the user or by the timer on a live wanted connection, or at a reset |
| ListenLaws.CurrentLaw | core/mcp/inspectorClient.ts:5646-5717 | the installed stream is the last newest one acknowledged, until it ends, is replaced or reset |
| ListenLaws.CloseCallsLaw | core/mcp/inspectorClient.ts:5646-5668 | streams are closed exactly when replaced, reset, or superseded on arrival |
| ListenLaws.FilterLaw | core/mcp/inspectorClient.ts:5509-5560 | a `listen()` asks for all subscribed URIs and all list changes wanted at that moment, and is made only if there are any |
| ListenLaws.ListenersAreTold | core/mcp/inspectorClient.ts:5490-5500 | after any run the last stream event told the badge as it is, and the last subscriptions event the set as it is |
| ListenBadge.BadgeBackedThroughSession | core/mcp/inspectorClient.ts:5743-5778 | at every point of a session, its own coming up included, a badge other than "ended" on a live connection has a current stream, a newest refresh in flight or an armed timer with something to listen for |
| ListenBadge.StepBackedExactly | core/mcp/inspectorClient.ts:5705-5829 | one step leaves such a badge backed exactly when its guard held: only the connection coming up and a change of capabilities can fail it |
| ListenBadge.BadgeBackedExactly | core/mcp/inspectorClient.ts:5705-5829 | over any run whatever, sessions or not, the badge is backed at every point if and only if the guard held before every step |
| ListenBadge.ConnectIsSession | core/mcp/inspectorClient.ts:1739 | from whatever the last session left, a reset, the connection coming up, its capabilities and the opening refresh are such a session and end live and backed |
| ListenBadge.ResetBacks | core/mcp/inspectorClient.ts:1571-1590 | every reset establishes that, whatever the last session left suspended |
| ListenBadge.QuietSessionMirrors | core/mcp/inspectorClient.ts:5490-5507 | in a session that starts with a reset, up or down, and is now at rest on a live connection, a badge other than "ended" stands over an open stream for exactly the listed URIs |
| ListenBadge.QuietSessionHappens | core/mcp/inspectorClient.ts:5665-5679 | one that ends acknowledged, over a stream for the subscribed URI |
| ListenBadge.BadgeStrandedAcrossSessions | core/mcp/inspectorClient.ts:5795-5829 | a run across two sessions that ends with "reconnecting", no stream, no timer and nothing in flight |
| ListenBadge.ReconnectingOverLiveStreamOnlyFromStaleReconnect | core/mcp/inspectorClient.ts:5814-5829 | a step puts "reconnecting" over a live stream if and only if it is the failure of a reconnect, then superseded, with a stream installed, retries left, the connection up and something to listen for |
| ListenBadge.ReconnectingOverLiveStreamExactly | core/mcp/inspectorClient.ts:5803-5829 | over any run the badge never reads so if and only if no such failure occurs |
| ListenBadge.ReconnectingOverLiveStreamHappens | core/mcp/inspectorClient.ts:5803-5805 | and one does |
| ListenBackoff.DelayBounds | core/mcp/inspectorClient.ts:356-358 | delays never shrink over consecutive failures, lie in 500 to 15,000 ms, start at the base and reach the cap from the fifth failure on |
| ListenBackoff.OneFailedRelisten | core/mcp/inspectorClient.ts:5795-5829 | from a dropped stream after k failures, one more failing re-listen waits the k-th delay and leads to k + 1 failures, or gives up after the eighth |
| ListenBackoff.FailuresGiveUp | core/mcp/inspectorClient.ts:5785-5829 | one after another, the re-listens left all fail, the delays left are all waited, and the client gives up |
| ListenGiveUp.DroppedStreamGivesUp | core/mcp/inspectorClient.ts:5705-5829 | with no older reconnect in flight as a stream drops, every run in which nothing is re-opened makes at most nine re-listens less the failures already counted and waits exactly their delays; one that can go no further has made them all and rests at "ended" with no stream and no timer: nine and 75,500 ms after a healthy stream |
| ListenGiveUp.NineExactly | core/mcp/inspectorClient.ts:5705-5829 | all such runs end after nine re-listens and 75,500 ms if and only if no failure had been counted and no older reconnect was in flight |
| ListenGiveUp.StaleReconnectsSpendFailures | core/mcp/inspectorClient.ts:5803-5829 | each older reconnect in flight spends one failure: re-listens are the failures less those, at least nine less them and at least one, at most nine; the waiting can only be shorter; every run is bounded and ends given up |
| ListenGiveUp.BothEndsHappen | core/mcp/inspectorClient.ts:5785-5829 | from every drop there are runs that come to rest with the fewest and with the most |
| ListenGiveUp.EightAfterStaleReconnect | core/mcp/inspectorClient.ts:5814-5829 | a healthy stream, reached from a new client, whose loss ends after eight re-listens and 75,000 ms |
| ListenGiveUp.AcknowledgedStreamThatDropsGivesUp | core/mcp/inspectorClient.ts:5670-5679 | an acknowledgement starts the count afresh, whatever failures came before: nine and 75,500 ms if and only if no older reconnect is in flight |
| ListenGiveUp.RunWithin | core/mcp/inspectorClient.ts:5785-5829 | over any such run each count of failures pays for at most one re-listen and one wait, and each re-listen is a failure counted or to come |
| ListenStream.InspectorClient.RefreshModernSubscription | core/mcp/inspectorClient.ts:5633-5652 | the fields change exactly as the first segment of a refresh says |
| ListenStream.InspectorClient.ResumeAfterClose | core/mcp/inspectorClient.ts:5653-5663 | the segment after the old stream is closed: listen, or settle for none; keeps the invariant |
| ListenStream.InspectorClient.OnListenAcknowledged | core/mcp/inspectorClient.ts:5665-5696 | installs the stream, or closes it when superseded; keeps the invariant |
| ListenStream.InspectorClient.OnModernSubscriptionClosed | core/mcp/inspectorClient.ts:5705-5742 | a superseded stream's end changes nothing; a remote drop reconnects while connected with something to listen for, all else ends |
| ListenStream.InspectorClient.ScheduleModernReconnect | core/mcp/inspectorClient.ts:5785-5807 | the badge and one armed timer, with the delay the failures so far call for |
| ListenStream.InspectorClient.BackoffDelay | core/mcp/inspectorClient.ts:5791-5794 | the doubling, capped delay |
| ListenStream.InspectorClient.OnTimer | core/mcp/inspectorClient.ts:5796-5806 | disarms, then re-lists unless the connection is terminal or nothing is wanted |
| ListenStream.InspectorClient.OnReconnectRefreshFailed | core/mcp/inspectorClient.ts:5814-5829 | counts the failure and retries or ends, whoever owns the stream by now |
| ListenStream.InspectorClient.SubscribeToResource | core/mcp/inspectorClient.ts:5848-5868 | the optimistic add, its two dispatches and the refresh; nothing for a URI already there |
| ListenStream.InspectorClient.OnSubscribeRefreshFailed | core/mcp/inspectorClient.ts:5869-5899 | rollback, reconciliation and announcement in that order, only for the owner |
| ListenStream.InspectorClient.UnsubscribeFromResource | core/mcp/inspectorClient.ts:5924-5952 | the removal, inactive before announced when it was the last, and the refresh |
| ListenStream.InspectorClient.OpenModernListenStreamOnConnect | core/mcp/inspectorClient.ts:5598-5603 | a refresh when anything is wanted, otherwise nothing |
| ListenStream.InspectorClient.OnOtherRefreshFailed | core/mcp/inspectorClient.ts:5603-5612 | reconciles the badge, only for the owner |
| ListenStream.InspectorClient.ResetSubscriptionStream | core/mcp/inspectorClient.ts:1571-1590 | clears the set, bumps the generation, disarms, closes the stream, and announces only once all have moved |
| RawWireModel.RunKeeps | core/mcp/inspectorClient.ts:2521-2599 | after any run an id is pending if and only if its promise is unsettled, and if and only if its timer is armed; a settled promise keeps its outcome |
| RawWireModel.RunAttributes | core/mcp/inspectorClient.ts:2569-2586 | over any run every result a caller got came from a consumed response to its own id, every consumed response resolved its request with its result or rejected it with its error, and no id was answered twice |
| RawWireModel.ResponseSettles | core/mcp/inspectorClient.ts:2569-2586 | a response to a pending request resolves it with its result or rejects it with its error message, and touches no other |
| RawWireModel.FailureRejects | core/mcp/inspectorClient.ts:2543-2599 | a timeout, a failed send and a teardown reject exactly the requests they are about |
| RawWireModel.IdsNeverRepeat | core/mcp/inspectorClient.ts:2530 | no run mints an id twice |
| RawWireModel.ConsumedOrForwarded | core/mcp/messageTrackingTransport.ts:145-196 | over any run the messages consumed are exactly those that answered an unsettled request of the channel on arrival, and those forwarded exactly the others, results rewritten, both in order |
| RawWireModel.SdkResponsesAreForwarded | core/mcp/inspectorClient.ts:2569-2576 | a response with a numeric id, as the SDK mints them, is never taken by the raw channel |
| RawWire.RawWireChannel.RawWireRequest | core/mcp/inspectorClient.ts:2521-2549 | mints an id never used before, arms its timer and enters it in the map |
| RawWire.RawWireChannel.ConsumeRawWireResponse | core/mcp/inspectorClient.ts:2569-2586 | takes a response exactly when its id is pending, removing it, disarming its timer and settling its promise |
| RawWire.RawWireChannel.OnMessage | core/mcp/messageTrackingTransport.ts:145-196 | consume, else hand on the rewritten result, else hand on the message |
| RawWire.RawWireChannel.OnTimeout | core/mcp/inspectorClient.ts:2543-2548 | the fired timer removes the entry and rejects its promise |
| RawWire.RawWireChannel.OnSendFailed | core/mcp/inspectorClient.ts:2550-2557 | a failed send withdraws the request if it is still pending and rejects its promise unless settled |
| RawWire.RawWireChannel.RejectPendingRawWireRequests | core/mcp/inspectorClient.ts:2593-2599 | teardown empties the map, with every timer disarmed and every promise rejected |
| ToolCalls.RequestWithInputRequired | core/mcp/inspectorClient.ts:2884-2940 | one exchange: at most eleven requests; the first is the original, each later one the original with only the last round's answers and state token; the outcome is the one the server's last reply calls for |
| ToolCalls.AttemptToolCall | core/mcp/inspectorClient.ts:4053-4090 | an attempt is one exchange and, after an auth challenge in any round of it that is satisfied, a second from the original request; another outcome of the challenge replaces the error |
| ToolCalls.OneExchangeExactly | core/mcp/inspectorClient.ts:6164-6230 | an attempt stays one exchange of at most eleven requests if and only if its first exchange does not end in a satisfied challenge |
| ToolCalls.AttemptIsItsLastLeg | core/mcp/inspectorClient.ts:4062-4105 | how the last leg decides the attempt: a result is settled, an error thrown on or replaced by what recovery came to |
| ToolCalls.TwelveInOneAttempt | core/mcp/inspectorClient.ts:6196-6213 | an attempt of twelve requests: the first is challenged and satisfied, then ten rounds of input |
| ToolCalls.FulfilInputRequests | core/mcp/inspectorClient.ts:2942-2957 | the answers of one round, or the first failure to answer |
| ToolCalls.AnswersKeepKeys | core/mcp/inspectorClient.ts:2948-2957 | the answers go out under exactly the keys the requests came with |
| ToolCalls.AnswersOrFirstFailure | core/mcp/inspectorClient.ts:2948-2957 | the answers are complete if and only if every request was answered, else the failure is the first one met |
| ToolCalls.RetryIsOriginalPlus | core/mcp/inspectorClient.ts:2923-2931 | key by key a retry is the original, but for the answers and the state token of the round, each only if there is one |
| ToolCalls.RunUrlElicitations | core/mcp/inspectorClient.ts:4166-4176 | accept if and only if every URL was shown and accepted; otherwise the first refusal, and nothing after it was shown |
| ToolCalls.UrlRound | core/mcp/inspectorClient.ts:3881-3935 | a URL asked for in an earlier round ends the call with nothing shown; otherwise they are shown up to the first refusal, all are remembered, and the call goes on only if all are accepted |
| ToolCalls.CallToolWithRetries | core/mcp/inspectorClient.ts:3845-3951 | at most six attempts, each as the auth recovery allows; every attempt but the last asked for new URLs that were all shown and accepted; no URL asked for or shown in two rounds; the outcome is what the last attempt calls for; exactly one result event, none on a user cancel |
| ToolCalls.AtMostElevenEach | core/mcp/inspectorClient.ts:4063-4072 | eleven requests for each attempt and eleven more for each that recovered from an auth challenge: 132 `tools/call` requests bound a whole call |
| ToolCalls.TheBoundIsReached | core/mcp/inspectorClient.ts:3845-3951 | a call of six attempts that sends all 132 |
| ListSalvage.ListClient.SalvageList | core/mcp/inspectorClient.ts:3441-3573 | whatever else happens between the pages, on success the kept entries and this method's report are the one-pass split of all fetched pages laid end to end, at most 64 pages, distinct cursors, never ended by the cap, and the response rejected is the method's last before the walk; it fails exactly when a page was no use, the cap was hit or nothing was malformed; what surfaces is then the original error, the walk's own is only logged, no response is rejected, and this method's correlation entry is what it was; nothing else is touched |
| ListSalvage.ListClient.Walk | core/mcp/inspectorClient.ts:3463-3536 | the page loop: each page the server's answer to the cursor of the page before, the error that stops it, and the shared maps as they were last left by whatever ran between the pages |
| ListSalvage.ListClient.RestoreResponseCorrelation | core/mcp/inspectorClient.ts:3314-3320 | the method's entry is what it was, or gone if there was none |
| ListSalvage.SalvageListItems | core/mcp/listSalvage.ts:259-287 | one page's split |
| ListSalvage.SplitConcat | core/mcp/listSalvage.ts:259-287 | splitting page by page with a running index is splitting the concatenation once |
| ListSalvage.SplitIsTotal | core/mcp/listSalvage.ts:272-285 | every entry is kept or reported |
| ListSalvage.ReportIsTrue | core/mcp/listSalvage.ts:278-284 | each report names an entry at that position that fails, with its reason and label |
| ListSalvage.ReportInOrder | core/mcp/listSalvage.ts:272-285 | the report is in list order |
| ListSalvage.KeptIsParsed | core/mcp/listSalvage.ts:273-277 | each kept value is the parsed form of its entry, in list order |
| NullableUnionMeaning.NormalizeKeepsNonNull | core/json/nullableUnion.ts:446-502 | a rewritten schema accepts exactly the non-null values the original does, whatever `$ref` and the other keywords mean |
| NullableUnionMeaning.NullableFlagIsTrue | core/json/nullableUnion.ts:326-337 | `nullable: true` on a rewritten schema implies that the original accepts null, and for `[T, "null"]` is set exactly then |
| NullableUnionMeaning.UnionMissesNullOnlyWhenComposed | core/json/nullableUnion.ts:402-421 | for the union form the flag misses a null only when the null branch composes constraints the rewrite does not evaluate |
| NullableUnionMeaning.TypeListKeepsMeaning | core/json/nullableUnion.ts:482-499 | with the flag read as OpenAPI 3.0 reads it, a rewritten type list means the same for every value if and only if it had no enum or excluded null already |
| NullableUnionMeaning.TypeListRewritten | core/json/nullableUnion.ts:482-499 | a type list of a type and null is rewritten if and only if the type has a widget, nothing is composed and the enum leaves something to select |
| NullableUnionMeaning.UnionRewritten | core/json/nullableUnion.ts:446-480 | a union of a branch and null, in either order, is collapsed if and only if its wrapper only describes it, the branch has a widget, stands alone and leaves something to select; a wrapper that carries anything more is not; a plain null branch makes the result nullable |
| NullableUnionMeaning.DescribingIsNoConstraint | core/json/nullableUnion.ts:145-185 | a wrapper carries no constraint if and only if it says nothing but the union and annotation keywords |
| NullableUnionMeaning.UnionKeepsDescription | core/json/nullableUnion.ts:312-338 | the branch's keywords win, the wrapper's description stays where the branch has none |
| NullableUnionMeaning.TitledUnion | core/json/nullableUnion.ts:446-480 | a titled, described nullable string with a default becomes a nullable string with the same words |
| NullableUnionMeaning.RenderableTypes | core/json/nullableUnion.ts:19-29 | the types with a widget are those a value other than null can have |
| NullableUnionMeaning.AloneIsEvaluated | core/json/nullableUnion.ts:201-232 | composition is unevaluated exactly when the schema leans on another one |
| NullableUnionMeaning.NormalizedIsFlat | core/json/nullableUnion.ts:312-338 | the result has one type with a widget and no union, is never rewritten again, and keeps every other keyword of the schema its keywords come from |
| NullableUnionMeaning.EnumNamesStayAligned | core/json/nullableUnion.ts:269-298 | when null members are stripped the labels are dropped, or stand beside the same members as before; kept exactly when they were parallel |
| NullableUnionMeaning.NormalizedEnum | core/json/nullableUnion.ts:312-338 | the enum of a rewritten schema is exactly the non-null members, at least one |
| NullableUnionMeaning.AdmitsNullIsSound | core/json/nullableUnion.ts:371-421 | for a union of any size and any meaning of `$ref`, without the `nullable` flag and conditionals, a yes implies that null validates |
| NullableUnionMeaning.FlaggedAdmitsNullExactly | core/json/nullableUnion.ts:371-386 | with the flag, and the flag widening the type, the yes is right if and only if the union and the conditional accept null |
| NullableUnionMeaning.TypedAdmitsNullExactly | core/json/nullableUnion.ts:392-401 | where a type decides, the yes is right if and only if the conditional accepts null |
| NullableUnionMeaning.UntypedAdmitsNullExactly | core/json/nullableUnion.ts:402-421 | where the union decides, the yes is right if and only if the conditional beside it accepts null and so does a branch, one it rests on by its conditional alone |
| NullableUnionMeaning.OwnLevelAcceptsNull | core/json/nullableUnion.ts:371-383 | after any yes the type, the union and the conditional are all that is left to decide whether null validates |
| NullableUnionMeaning.AdmitsNullOverclaims | core/json/nullableUnion.ts:371-421 | two schemas it says yes to and that reject null |
| NullableUnionMeaning.AnyNullBranchIsSeen | core/json/nullableUnion.ts:402-421 | however many branches a union has, any one that names null, lets it through and stands alone earns a yes |
| HeaderEncoding.EncodeRoundTrip | core/json/xMcpHeader.ts:231-265 | decoding an encoded value returns it, for every well-formed Unicode string |
| HeaderEncoding.EncodeInjective | core/json/xMcpHeader.ts:261-265 | two values never share a header |
| HeaderEncoding.EncodeIsLegal | core/json/xMcpHeader.ts:231-265 | the encoded value is a non-empty, trimmed, legal field value; a value goes out as it is exactly when it is legal and not shaped like the sentinel |
| HeaderEncoding.NeedsBase64 | core/json/xMcpHeader.ts:231-247 | true exactly when the value is no legal field value or is shaped like the sentinel |
| HeaderEncoding.EncodeMcpParamValue | core/json/xMcpHeader.ts:261-265 | computes the encoding the round trip is about |
| HeaderEncoding.Base64RoundTrip | core/json/xMcpHeader.ts:249-254 | section 4 of RFC 4648: decoding undoes encoding, padding included |
| HeaderEncoding.Utf8RoundTrip | core/json/xMcpHeader.ts:249-254 | section 3 of RFC 3629: a strict decoder, refusing overlong forms and surrogates, undoes the encoding |
| HeaderEncoding.Utf8Layout | core/json/xMcpHeader.ts:249-254 | the bits of a character in its bytes, as section 3 of RFC 3629 lays them out |
| HeaderEncoding.SextetsAreTheBits | core/json/xMcpHeader.ts:249-254 | section 4 of RFC 4648: four characters carry the twenty-four bits of three bytes, first bits first |
| HeaderEncoding.PaddingIsTheBits | core/json/xMcpHeader.ts:249-254 | the characters and pads of one or two bytes left over |
| HeaderEncoding.AlphabetIsTheTable | core/json/xMcpHeader.ts:249-254 | the alphabet of table 1 of RFC 4648 |
| HeaderScanner.ScanXMcpHeaderDeclarations | core/json/xMcpHeader.ts:128-195 | the recursive walk with its list, its name map and its early exit computes the fold over the places it reaches |
| HeaderScanner.Walk.Visit | core/json/xMcpHeader.ts:134-190 | one node and everything below it, continuing from the declarations so far |
| HeaderScanner.Walk.VisitNode | core/json/xMcpHeader.ts:134-168 | the annotation of the node itself, with its four faults in order |
| HeaderScanMeaning.ScanMeans | core/json/xMcpHeader.ts:128-195 | valid if and only if every annotated node the walk reaches is on a pure `properties` chain below the root with a token and a permitted type, and no two names are the same letter by letter but for case; the declarations are then exactly those nodes, once each, in walk order |
| HeaderScan.LowerComparesCase | core/json/xMcpHeader.ts:157-161 | two names have one lower-case form if and only if they differ in the case of letters at most |
| HeaderScan.TokenCharsAreVisible | core/json/xMcpHeader.ts:33 | section 5.6.2 of RFC 9110: a token character is any visible ASCII character but the delimiters |
| HeaderScan.FaultMeans | core/json/xMcpHeader.ts:142-156 | which of the four faults of a single node is reported |
| HeaderScan.DeclaredPathIsChain | core/json/xMcpHeader.ts:163-170 | the path of a declaration names the properties passed through, in order |
| HeaderScan.ChildMeans | core/json/xMcpHeader.ts:166-186 | where the walk goes from a node: members of `properties`, and under each keyword the items, the values of a map of schemas, or the value itself |
| HeaderScanMeaning.FirstFault | core/json/xMcpHeader.ts:134-190 | the reported fault is that of the first place that breaks a rule |
| HeaderScanMeaning.PlacesAreLedTo | core/json/xMcpHeader.ts:169-190 | the walk reaches a node by a chain if and only if the chain leads there hop by hop |
| HeaderParams.ValueAtPath | core/json/xMcpHeader.ts:267-274 | the argument at a path |
| HeaderParams.PathReaches | core/json/xMcpHeader.ts:267-274 | a path reaches what its last key leads to from where the rest reaches |
| HeaderParams.MemberMeans | core/json/xMcpHeader.ts:270-271 | a key leads to a member of an object, an element or the length of an array, and nowhere from anything else |
| HeaderParams.PrimitiveText | core/json/xMcpHeader.ts:212-218 | exactly which text a value is mirrored as: a string itself, a boolean by name, a safe integer in plain decimal without leading zeros |
| HeaderParams.BuildMcpParamHeaders | core/json/xMcpHeader.ts:284-298 | the record filled declaration by declaration |
| HeaderParams.OneHeaderPerMirrored | core/json/xMcpHeader.ts:284-298 | over unique names the record holds one header for each mirrored declaration and nothing else, and no two names are the same but for case |
| HeaderParams.HeaderCarriesArgument | core/json/xMcpHeader.ts:212-218 | each header is legal and decodes to the string form of the argument it mirrors |
| HeaderParams.McpParamHeadersForTool | core/json/xMcpHeader.ts:307-314 | no header for an invalid schema, else exactly one for each annotated argument with a value |
| OAuthHistory.ReadRefinesFlat | core/auth/oauth-storage.ts:89-335 | after any history of saves and clears from any snapshot, every credential read is the flat map's answer: the keyed value with its stamp, else the unkeyed one |
| OAuthHistory.RecordsRefineFlat | core/auth/oauth-storage.ts:110-142 | the records hold at each place what the flat history says, with the active issuer and the enterprise mark |
| OAuthHistory.StampIsTrue | core/auth/oauth-storage.ts:159-174 | a value stamped with an issuer was saved under it for that server and not touched since; a read for an issuer never yields another issuer's value |
| OAuthHistory.FlatCameFrom | core/auth/oauth-storage.ts:189-335 | a value is there because an operation saved it there, or the snapshot held it, and nothing touched it after |
| OAuthHistory.PreregisteredIsKept | core/auth/oauth-storage.ts:216-241 | the preregistered client is the last one saved unless cleared or forgotten since, whatever happens to the issuers |
| OAuthPersistence.DrainedBackendIsMemory | core/auth/oauth-storage.ts:52-82 | for any interleaving memory is the snapshot the one read brought, or the memory it found when there was none, with the mutations folded in; nothing is mutated before that; no two writes run at once, and a drained queue whose last write succeeded leaves the backend equal to memory |
| OAuthPersistence.RunKeeps | core/auth/oauth-storage.ts:74-82 | writes carry the memory each mutation left, in mutation order, and start only when all earlier ones are done; none is dropped, reordered or altered |
| OAuthPersistence.QueueNeverBlocked | core/auth/oauth-storage.ts:74-82 | while a write is outstanding one is running or the next may start, failed writes before it or not |
| OAuthPersistence.LoadedOnce | core/auth/oauth-storage.ts:52-68 | once loaded, a store is never loaded over |
| OAuthPersistence.LoadIsRead | core/auth/oauth-storage.ts:59-68 | a loaded store started from what the read of its run returned |
| OAuthPersistence.FailedLoadChangesNothing | core/auth/oauth-storage.ts:52-72 | a failed load is final and lets no mutator through |
| OAuthPersistence.EveryCallAccounted | core/auth/oauth-storage.ts:70-82 | every mutator called is waiting, was applied once, or gave up |
| OAuthStorage.OAuthStorageBase.Mutator | core/auth/oauth-storage.ts:189-335 | every mutator edits the records as its operation says and chains one write, with no await between |
| OAuthStorage.OAuthStorageBase.UpdateIssuerSlot | core/auth/oauth-storage.ts:110-130 | one slot written, the unkeyed value given up, the issuer made active on a save only |
| OAuthStorage.OAuthStorageBase.MapIssuerSlots | core/auth/oauth-storage.ts:133-142 | the loop that edits every slot |
| OAuthStorage.OAuthStorageBase.SaveClientInformation | core/auth/oauth-storage.ts:189-214 | the records after a registration is saved, keyed or not |
| OAuthStorage.OAuthStorageBase.ClearClientInformation | core/auth/oauth-storage.ts:243-265 | one issuer's registration gone, or every one with the unkeyed one |
| OAuthStorage.OAuthStorageBase.SaveTokens | core/auth/oauth-storage.ts:288-313 | the records after tokens are saved, keyed or not |
| OAuthStorage.OAuthStorageBase.ClearTokens | core/auth/oauth-storage.ts:315-335 | one issuer's tokens gone, or all |
| OAuthStorage.OAuthStorageBase.GetCredential | core/auth/oauth-storage.ts:144-175 | the read of a registration or of tokens, stamped only when it came from the slot |
| OAuthStorage.OAuthStorageBase.GetClientRegistrationKind | core/auth/oauth-storage.ts:177-187 | the same value without a stamp |
| OAuthStorage.OAuthStorageBase.EnsureLoaded | core/auth/oauth-storage.ts:52-72 | the first caller starts the one load, later ones join it |
| OAuthStorage.OAuthStorageBase.OnSnapshotRead | core/auth/oauth-storage.ts:59-68 | the snapshot replaces memory before any mutation |
| OAuthStorage.OAuthMemoryStore.ClearEnterpriseManagedResourceServers | core/auth/store.ts:141-149 | exactly the enterprise-managed servers go |
| AuthMutex.ExclusiveAndFifo | core/mcp/oauthManager.ts:563-580 | in every run at most one body runs, and bodies begin in joining order |
| AuthMutex.ExitReleasesSuccessor | core/mcp/oauthManager.ts:569-580 | an exit, by exception too, lets in exactly the caller that joined next |
| AuthMutex.SomebodyCanMove | core/mcp/oauthManager.ts:563-580 | while anybody waits, somebody runs or the next in line may enter |
| AuthMutex.EveryScheduleFinishes | core/mcp/oauthManager.ts:563-580 | every schedule without new callers takes at most one entry and one exit a caller, and can be taken no further if and only if every caller has had its turn |
| AuthMutex.EveryoneFinishes | core/mcp/oauthManager.ts:563-580 | however the bodies end, some schedule gives every caller its turn |
| AuthMutex.OAuthManager.JoinChain | core/mcp/oauthManager.ts:563-568 | reads the end of the chain and becomes it, in one step |
| ErrorChain.FindNested | core/auth/challenge.ts:119-128 | terminates on any finite graph, cycles and all; finds a matching error if and only if one is reachable; and finds the first, depth first and `cause` before `data.cause` |
| ErrorChain.FindDeep | core/auth/issuerBinding.ts:121-151 | the shared-`seen` recursion finds the first way to a match that meets nothing already seen; what a failed search leaves seen is closed under links and has no match |
| ErrorChain.FirstIsUnique | core/auth/challenge.ts:119-121 | there is only one first way, so one first match |
| ServerList.ReadWriteSettles | core/mcp/serverList.ts:632-696 | reading an entry and writing it back, twice, is doing it once |
| ServerList.ConfigSettles | core/mcp/serverList.ts:632-696 | the same for a whole file, whose servers and their order stay |
| ServerList.SettingsSurviveExactly | core/mcp/serverList.ts:321-696 | an entry written and read back has no settings if and only if they leave nothing on disk and it shows no `env` or `cwd`; otherwise the same settings if and only if they are tidy (no blank or repeated keys, clean roots and URLs, storable numbers, no default spelled out) and mirror what it shows |
| ServerList.TracelessIsDefault | core/mcp/serverList.ts:447-569 | tidy settings leave nothing on disk if and only if they are the defaults |
| ServerList.MirrorsAreNotWritten | core/mcp/serverList.ts:447-569 | the `env` and `cwd` shown in the form never reach the stored fields |
| ServerList.ToRecordSettles | core/mcp/serverList.ts:186-195 | collapsing rows into a record is idempotent |
| ServerList.EnvPairsToRecord | core/mcp/serverList.ts:186-195 | the loop that collapses them |
| ServerList.LastRowWins | core/mcp/serverList.ts:186-195 | a record holds for each key that is not blank the value of its last row |
| ServerList.FirstPlaceStays | core/mcp/serverList.ts:186-195 | and the keys in the order they first stand in |
| ServerList.DropBlankRows | core/mcp/serverList.ts:461-464 | rows are dropped one by one, exactly those with a blank key |
| ServerList.CleanRootsSettles | core/mcp/serverList.ts:108-145 | normalized roots are clean and stay as they are |
| ServerList.RootsAreCleanedEach | core/mcp/serverList.ts:108-145 | roots are cleaned one by one: a blank URI drops the root, a blank name goes, any other is trimmed, all else stays |
| ServerList.TypesRead | core/mcp/serverList.ts:73-100 | the three types read as themselves, "http" as "streamable-http", anything else as stdio |
| ServerList.FieldsShowAsStored | core/mcp/serverList.ts:321-440 | each stored field shows under its own name, absent ones as the defaults |
| ServerList.MergeRestores | core/mcp/serverList.ts:749-825 | the stripped entry and its secrets together are the entry that was stored |
| ServerList.MergeChangesOnlyNamed | core/mcp/serverList.ts:798-825 | merging changes the values it has secrets for and no other |
| ServerList.StrippedCarriesNoSecret | core/mcp/serverList.ts:749-786 | no client secret and no stdio `env` value is left, and every `env` key is |
| ServerList.ExtractSecretsFromStored | core/mcp/serverList.ts:749-786 | the loop that takes them out |

## Left out

- Listen stream: the legacy era, the errors for a client that is not connected or a server without subscriptions, a client object gone in the middle of a refresh, and the order in which the subscribed set is listed. Listeners do not call the client back while being notified.
- ListenBadge.BadgeBackedThroughSession: about one session, which comes up under an "ended" badge and keeps something to listen for once it has; across sessions it is false, and `ListenBadge.BadgeBackedExactly` says when.
- Refreshes, streams, timers of the raw channel, promises, the write queue and the mutex gates live outside the objects in the program, in suspended calls, SDK objects and promise chains. In the classes they are ghost fields.
- Transports, `fetch`, the keychain, files, React, the CLI and the web client: input and output.
- The SDK: `listen()`, `request()`, `auth()`, the codecs and Zod schemas are steps of the environment or arbitrary functions.
- ToolCalls: progress and cancellation signals, argument conversion, metadata and task polling, whose own requests are not counted; polling is part of an arbitrary `settle`, and what decides a recovery part of an arbitrary `recover`.
- ListSalvage: the strict path before the walk, the tools-only second walk of `refreshExcludedTools`, a change of era between two pages, and the texts of log messages and reports. A page asked for again after auth recovery counts as one.
- NullableUnion: malformed keyword values, such as a `type` that is neither a string nor a list of strings, and union members that are neither schemas nor booleans. `$ref` has an arbitrary meaning, and so have the keywords outside the fragment together.
- NullableUnionMeaning.AdmitsNullIsSound: conditionals are excluded by hypothesis because whether one accepts null is not a matter of its own level; the three lemmas beside it give the exact condition with them.
- HeaderEncoding: lone surrogates, which have no UTF-8 form.
- HeaderParams.ValueAtPath: members that every JavaScript object inherits, such as `constructor`.
- OAuth store: identity-provider sessions, code verifier, scope, metadata and discovery state each are one field set and read alone; the read of the preregistered client is its field. Credentials are opaque strings; their schemas are not parsed.
- AuthMutex: the check that may satisfy a challenge before the caller joins the chain, and what a body does.
- ErrorChain: `unionAuthorizationScopes`, `parseScopeString` and `parseWwwAuthenticateBearer`, which are string splitting, and the tests that decide what matches.
- ServerList: hand-edited values of the wrong type, console warnings, and the reordering of keys that look like integers.
- ServerList.StrippedCarriesNoSecret: an entry whose `type` is neither absent nor "stdio" keeps its `env`, as in the program.
