# gotify-slack in Dafny

gotify-slack is a Gotify server plugin that forwards Slack messages as Gotify
notifications. Each Gotify user configures a Slack API token. When the plugin
is enabled it opens a Slack real-time session with that token. For every
message in that session it then does the following:

- looks up the channel and the sender;
- skips messages the token's own user sent;
- turns `<@USERID>` mentions into `@Real Name`;
- hands Gotify a notification titled `Slack | team | channel | sender` with
  priority 5.

The model has four modules:

- `Slack` (slack.dfy): the Slack service as the plugin sees it. auth.test,
  users.info and conversations.info are lookups in one `Workspace` snapshot.
- `Mentions` (mentions.dfy): the mention rewrite. It covers the regular
  expression `<@[^>]+>` and how Go's `ReplaceAllStringFunc` finds its matches
  (leftmost first, no overlap). It also covers `strings.Trim` with the cutset
  `<@>`, and the lookup that gives each replacement.
- `Bridge` (bridge.dfy): the body of the event loop. `Handle` decides what
  one message event becomes. `Forward` is the loop over a finite stream of
  events, stopping at an invalid-authentication event.
- `Lifecycle` (lifecycle.dfy): the plugin instance. Class `Plugin` has the
  fields enabled, config, api, rtm, uid and team, plus an `outbox` for the
  messages handed to Gotify. Its methods `StopRTM`, `StartRTM` (whose event
  loop is a `for` loop), `ValidateAndSetConfig`, `Enable` and `Disable`
  update those fields in place.
  - Each method is proved to perform exactly one transition function on
    `State` (`AfterStop`, `AfterStart`, `AfterSetConfig`, `AfterEnable`,
    `AfterDisable`).
  - Each method preserves the invariant `Consistent`: enabled implies
    configured, a stored token is non-empty, and a session implies a client.
  - The lemmas state the lifecycle's promises about those functions.

Where the model takes outside input:

- the Slack directories and accepted tokens are the `Workspace` parameter;
- whether `Disconnect` succeeds is the `disconnectOk` parameter;
- the events a session delivers are the `events` sequence.

The model follows the code in three behaviours of ValidateAndSetConfig that
are easy to miss:

- An empty token only calls stopRTM (plugin.go:58-60). The stored
  configuration and the enabled flag stay as they are, so an enabled plugin
  stays enabled (`Lifecycle.EmptyTokenOnlyStops`).
- An empty token returns stopRTM's result (plugin.go:59, 136). When a session
  exists and Disconnect fails, the empty token is answered with that error
  (`Lifecycle.EmptyTokenOnlyStops`).
- While enabled, setting the same token again disconnects and starts a new
  session every time (plugin.go:68-72), so the call is idempotent only while
  the plugin is disabled (`Lifecycle.ReapplyWhileEnabledRestarts`,
  `Lifecycle.SetConfigIdempotentWhileDisabled`).

## Model

| member | source | states |
|---|---|---|
| Mentions.IsMention | plugin.go:75 | defines the strings the expression `<@[^>]+>` matches as a whole: "<@", one or more characters other than '>', then '>' |
| Mentions.MentionId | plugin.go:111 | defines the user id of a match as `strings.Trim` of it with the cutset `<@>`; `MentionIdIsTrimmedBody` and `MentionIdPlain` state what that gives |
| Mentions.ReplaceAll | plugin.go:110 | defines `ReplaceAllStringFunc` for the mention expression; `ReplaceAllLeftmost`, `ReplaceAllMentionFree` and `ReplaceAllIdentity` state what it does |
| Mentions.Replacement | plugin.go:111-116 | defines the callback: the id is looked up with users.info, giving "@" and the real name, or "@Error"; `ReplacementOfId` states it for every plain id |
| Mentions.ReplacementOfId | plugin.go:111-116 | a match around a plain user id is replaced by "@" and that user's real name, or by "@Error" when the id is unknown |
| Mentions.Rewrite | plugin.go:110-117 | defines the rewrite of one message text: every match replaced by its callback result; `RewriteExample` works an example through |
| Mentions.CloseFrom | plugin.go:75 | the first '>' at or after a position, or that there is none: the end of a `[^>]+>` run |
| Mentions.MatchAt | plugin.go:75 | a prefix of the text matches `<@[^>]+>` exactly when its length is the one returned (at most one prefix can match) |
| Mentions.BareMarkerKept | plugin.go:75 | a bare `<@>` never starts a match, whatever follows it, and is kept verbatim in front of the rewritten rest |
| Mentions.BareMarkerUnchanged | plugin.go:75 | the worked example "a <@> b" comes back unchanged |
| Mentions.TrimLeftSpec | plugin.go:111 | the left trim keeps a suffix that does not start with a cut character, and everything dropped is in the cutset |
| Mentions.TrimRightSpec | plugin.go:111 | the right trim keeps a prefix that does not end with a cut character, and everything dropped is in the cutset |
| Mentions.TrimSpec | plugin.go:111 | `strings.Trim` leaves a contiguous piece of the input with only cut characters around it, not starting or ending with one; it is empty exactly when every character is in the cutset |
| Mentions.MentionIdIsTrimmedBody | plugin.go:111 | the id taken from a match is the text between `<@` and `>`, trimmed of surplus markers |
| Mentions.MentionIdPlain | plugin.go:111 | when that text neither starts nor ends with a marker, the id is exactly that text |
| Mentions.ReplaceAllKeepsFirst | plugin.go:110 | text that does not start with a match keeps its first character, and rewriting goes on from the next one |
| Mentions.ReplaceAllReplacesFirst | plugin.go:110 | a match at the front is replaced as a whole, and rewriting goes on after it |
| Mentions.ReplaceAllMentionFree | plugin.go:110 | text without any match comes back unchanged |
| Mentions.ReplaceAllIdentity | plugin.go:110 | replacing every match by itself gives back the original text |
| Mentions.ReplaceAllLeftmost | plugin.go:110-117 | the leftmost match is replaced on its own: the text before it is kept, and matching resumes right after it (no overlap) |
| Mentions.ReplaceAllPlainPrefix | plugin.go:110 | text without '<' in front of the rest is kept verbatim |
| Mentions.ReplaceAllMentionPrefix | plugin.go:110 | a match at the front becomes the callback's result, followed by the rewritten rest |
| Mentions.ReplaceAllPlainThenMention | plugin.go:110 | plain text followed by a match: the text is kept, the match replaced, the rest rewritten |
| Mentions.ReplaceAllTwoMentions | plugin.go:110-117 | two matches separated by plain text are each replaced by their own callback result |
| Mentions.ExampleLookups | plugin.go:111-116 | a known user id gives "@" and the real name; an unknown one gives "@Error" |
| Mentions.RewriteExample | plugin.go:110-117 | "hello <@U123> and <@U456>" with only U123 (Alice) known becomes "hello @Alice and @Error" |
| Bridge.Title | plugin.go:105-109 | defines the title: the word Slack, the team, the channel name when it is non-empty, and the sender's real name, separated by a vertical-bar separator; `TitleChannelSegment` states the channel segment |
| Bridge.BuildTitle | plugin.go:105-109 | building the title piece by piece, as the event loop does, gives `Title` |
| Bridge.Handle | plugin.go:91-122 | a kept message has priority 5 and the text with mentions rewritten; `HandleDrops` and `HandleBuilds` state when a message is kept and what it becomes |
| Bridge.TitleExamples | plugin.go:105-109 | the worked titles: with a channel name it reads Slack, team, channel, sender; without one, Slack, team, sender; the parts are separated by a vertical-bar separator |
| Bridge.TitleChannelSegment | plugin.go:105-109 | the channel segment is in the title exactly when the channel name is non-empty, and it sits after the team and before the sender: the channel name followed by the separator |
| Bridge.HandleDrops | plugin.go:91-104 | a message event is dropped exactly when the channel lookup fails, the user lookup fails, or the sender is the session's own user |
| Bridge.HandleBuilds | plugin.go:105-122 | a kept message gives the title from team, channel name and sender's real name, the text with mentions rewritten, and priority 5 |
| Bridge.Forward | plugin.go:89-128 | the loop fails with invalid credentials exactly when an invalid-authentication event arrives; it sends at most one notification per message event, all with priority 5 |
| Bridge.ForwardAppend | plugin.go:89-128 | events are processed in order: a stretch without invalid authentication sends its notifications, then the rest continues from there |
| Bridge.ForwardSnoc | plugin.go:89-122 | one more event, other than invalid authentication, adds exactly the notification its message yields, if any, to what the loop has sent |
| Bridge.ForwardStopsAtInvalidAuth | plugin.go:124-125 | an invalid-authentication event ends the loop: nothing after it is processed, and the run fails |
| Bridge.DroppedEventInvisible | plugin.go:92-104 | an ignored event, or a message that is dropped, leaves no trace in the output |
| Bridge.SelfMessageIgnored | plugin.go:102-104 | a message from the session's own user never produces a notification |
| Lifecycle.Config.Valid | plugin.go:43-48 | defines token validity as auth.test accepting the token; used by `InvalidTokenChangesNothing` and `EnableGuards` |
| Lifecycle.AfterStop | plugin.go:131-137 | stopRTM keeps the state consistent (stopping without a session drops the client; with a session, the Disconnect result is returned) |
| Lifecycle.AfterStart | plugin.go:77-129 | startRTM keeps the state consistent (it creates the client, fails if auth.test fails, else records uid and team, opens the session and runs the loop) |
| Lifecycle.AfterSetConfig | plugin.go:56-73 | ValidateAndSetConfig keeps the state consistent |
| Lifecycle.AfterEnable | plugin.go:140-150 | Enable keeps the state consistent |
| Lifecycle.AfterDisable | plugin.go:153-160 | Disable keeps the state consistent |
| Lifecycle.EmptyTokenOnlyStops | plugin.go:58-60 | an empty token only stops the session: the stored configuration and the enabled flag are unchanged, and a failing Disconnect is the result |
| Lifecycle.InvalidTokenChangesNothing | plugin.go:61-63 | a non-empty token that auth.test rejects is refused with "the token is invalid", and nothing changes |
| Lifecycle.ValidTokenWhileDisabled | plugin.go:64-67 | a valid token is stored; while disabled nothing else happens and no error is returned |
| Lifecycle.ValidTokenStopFails | plugin.go:68-71 | while enabled, a failing disconnect is returned: the token is stored but no new session starts |
| Lifecycle.ValidTokenRestarts | plugin.go:68-72 | while enabled, after a successful stop a new session starts with the new token, and its run's result is returned |
| Lifecycle.SetConfigIdempotentWhileDisabled | plugin.go:56-67 | while disabled, setting the same configuration twice has the effect of setting it once |
| Lifecycle.ReapplyWhileEnabledRestarts | plugin.go:68-72 | while enabled, setting the same token again starts another session: the loop runs again and its notifications are sent again |
| Lifecycle.SetConfigNeverAuthTestFailed | plugin.go:61-83 | ValidateAndSetConfig never returns the session's own auth.test failure, because the token was checked against the same workspace just before |
| Lifecycle.EnableGuards | plugin.go:140-149 | Enable fails without a stored configuration, and fails when the stored token no longer passes auth.test, in both cases changing nothing; otherwise it succeeds and the plugin is enabled |
| Lifecycle.EnableStartsSession | plugin.go:140-149 | a successful Enable sets the flag, creates the client with the stored token, records uid and team, opens the session and runs its loop; the stored configuration and every other field stay as they were |
| Lifecycle.DisableWithSession | plugin.go:153-160 | with a session, a successful Disconnect makes Disable clear only the enabled flag (client and session kept); a failing one is returned with nothing changed |
| Lifecycle.DisableOnlyWhenStopped | plugin.go:153-160 | Disable clears the enabled flag exactly when stopping succeeds; when stopping fails, the state is unchanged |
| Lifecycle.StopWithoutSession | plugin.go:131-135 | without a session, stopping drops the client and succeeds, and so does Disable |
| Lifecycle.StopKeepsSession | plugin.go:136 | with a session, stopping never discards the session object (rtm is never reset) |
| Lifecycle.Plugin.constructor | plugin.go:181 | a fresh instance has every field at its zero value, and is consistent |
| Lifecycle.Plugin.StopRTM | plugin.go:131-137 | updates the fields exactly as `AfterStop`, keeping them consistent |
| Lifecycle.Plugin.StartRTM | plugin.go:77-129 | runs the event loop over the fields, appending one notification per kept message; the new fields and the error are exactly `AfterStart` |
| Lifecycle.Plugin.ValidateAndSetConfig | plugin.go:56-73 | updates the fields exactly as `AfterSetConfig`, keeping them consistent |
| Lifecycle.Plugin.Enable | plugin.go:140-150 | updates the fields exactly as `AfterEnable`, keeping them consistent |
| Lifecycle.Plugin.Disable | plugin.go:153-160 | updates the fields exactly as `AfterDisable`, keeping them consistent |

## Left out

- Goroutines:
  - `Enable` starts the session on a goroutine and never reads its result. The model runs it synchronously to the end of `events` and drops its error.
  - `ManageConnection` (plugin.go:87) runs the connection concurrently. The model has no connection, only the events it delivers.
  - Races between the session and a later `ValidateAndSetConfig` or `Disable` are not modelled.
- Network: every Slack call is answered from one `Workspace` snapshot for the whole operation. Directories that change while a session runs, and transient lookup failures that differ between calls, are not modelled.
- Disconnect: the effect of `Disconnect` on a session that is still delivering events is not modelled. Its result is the `disconnectOk` parameter.
- The `IncomingEvents` channel is a finite sequence. A loop that never ends is not modelled.
- Event types other than message and invalid-authentication are all a single `Other` event, which the loop ignores.
- Message fields other than channel, user and text are not modelled.
- `log.Println` (plugin.go:81, 94, 99) is left out: logging has no effect on state.
- `SendMessage` may fail, and the source ignores its error. The model appends the notification to `outbox` and does not model a failure.
- The client and session objects of the Slack library are modelled by what the plugin reads from them. `api` is modelled as the token the client was made with, and `rtm` as whether a session object exists.
- Strings are sequences of characters, so the byte-level UTF-8 handling of Go's `regexp` and `strings.Trim` is not modelled. Matches and trimming are on characters.
- `Config.Valid` is a fresh auth.test, answered from the same snapshot as the rest of the operation. As a result, the `AuthTestFailed` branch of startRTM (plugin.go:79-83) cannot be reached through ValidateAndSetConfig or Enable, although in the source a token can stop working between the two calls; `ValidTokenRestarts` therefore returns the loop's result and never that error (`SetConfigNeverAuthTestFailed`).
- GetGotifyPluginInfo, DefaultConfig, SetMessageHandler and main are registration boilerplate with no logic, so they are left out. GetDisplay only formats two fields into Markdown, so it is left out too.
- The text of the error messages is not modelled. The errors are the constructors of `Bridge.Error`, one per distinct error the source returns.
- Lifecycle.AfterStop: its own ensures states only that consistency is preserved; what the operation does is stated by the lemmas after it.
- Lifecycle.AfterStart: its own ensures states only that the state it produces is consistent; what the operation does is stated by the lemmas after it.
- Lifecycle.AfterSetConfig: its own ensures states only that the state it produces is consistent; what the operation does is stated by the lemmas after it.
- Lifecycle.AfterEnable: its own ensures states only that the state it produces is consistent; what the operation does is stated by `EnableGuards` (the failures) and `EnableStartsSession` (the whole new state on success).
- Lifecycle.AfterDisable: its own ensures states only that consistency is preserved; what the operation does is stated by `StopWithoutSession` and `DisableWithSession`, which give the whole new state in every case.
