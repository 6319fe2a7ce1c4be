# YouTube downloader core, modelled in Dafny

A model of the core of a desktop YouTube downloader. The app has three parts.
A FastAPI backend (`main.py`) keeps the WebSocket observers of each client, caches
OAuth credentials, throttles `yt_dlp` progress reports and assembles download
batches. An Electron renderer (`renderer.js`) validates the download form and
counts WebSocket reconnects. The Electron main process (`main.js`) forwards
cookies, gates the OAuth callback and rewrites `app://` URLs.

Each section guarded by an `asyncio.Lock` is one atomic step. Some things the
core does not compute are inputs to the model:

- the clock, as integer milliseconds
- which WebSocket sends fail
- the result of an OAuth code exchange or a token refresh
- the result of every data API lookup, of the folder creation and of the download
- the timers the host fires

Modules, one per file:

- `ProgressHub` (hub.dfy) is `WebSocketManager`. A client maps to a list of
  connections. A ghost outbox records every send and whether it was delivered.
- `Auth` (auth.dfy) holds `CredentialManager` and `AuthManager`.
  `get_valid_credentials` is the pure function `GetValid` over the store and the
  refresh-lock table; the class method is proved equal to it.
- `Throttle` (throttle.dfy) is the hook that `ProgressManager.create_hook`
  returns. It is a step function over `_last_update` with runs of calls, and a
  class whose `Hook` follows the step.
- `Batch` (batch.dfy) covers watch-URL extraction, the `fetch_*_videos` helpers,
  the URL list that `start_download` collects, and the `video_1..video_n` task loop.
  Nothing in main.py calls the three helpers (main.py:315, 331, 351):
  `start_download` runs its own inline copies. So the helper's 404 rule
  (`FetchWatchLaterVideos`) is not what the endpoint does;
  `WatchLater404FailsStartDownload` shows that the endpoint fails instead.
- `Server` (server.dfy) holds the three module-level instances (`main.py:259-261`)
  and the handlers `auth_callback`, `get_credentials`, `download_video` and
  `start_download`.
- `Renderer` (renderer.dfy) covers `validateDownloadParams` with `trim`, and the
  reconnect counter. The counter is pure step functions plus a `SocketController`
  class whose methods follow them.
- `ElectronMain` (electron_main.dfy) covers the cookie header, `Set-Cookie`
  parsing, the callback gate and the `app://` rewrite.
- `Text` (text.dfy) provides JavaScript `split`/`join`/`startsWith`/`replace` and
  decimal rendering.
- `Messages` (messages.dfy) holds the progress payloads.
- `Wrappers` (wrappers.dfy) holds `Option` and `Result`.

## Model

| member | source | states |
|---|---|---|
| ProgressHub.RemoveFirst | main.py:184 | `list.remove`: the list without its first entry of the connection; one shorter when the connection is listed, unchanged otherwise |
| ProgressHub.Registered | main.py:172-177 | the registry after `connect`: the client's list (empty when the client is absent) with the connection appended; no other client changes |
| ProgressHub.Unregistered | main.py:180-188 | the registry after `disconnect`: for a listed connection, its first entry goes and the key is dropped when the list empties; an unknown client or connection changes nothing |
| ProgressHub.Sends | main.py:196-201 | one `send_text` per entry of the list, in list order, undelivered exactly for the connections whose send raises |
| ProgressHub.Pruned | main.py:191-204 | the registry after `broadcast_to_client`, stated without the loops: when some send fails, the client's list becomes its surviving entries in order, and the key goes when none survive; otherwise nothing changes |
| ProgressHub.ConnectAppends | main.py:172-178 | connect appends the connection to the client's list and creates the list if missing; the count of that connection grows by one; other clients are unchanged |
| ProgressHub.ConnectTwiceGivesTwoEntries | main.py:172-178 | the same connection registered twice is listed twice (a list, not a set) |
| ProgressHub.DisconnectRemovesFirst | main.py:180-186 | disconnect removes the first occurrence only; the key is dropped exactly when the list had one element; other clients are unchanged |
| ProgressHub.RemoveFirstCount | main.py:184 | `list.remove` lowers the multiset count of that connection by exactly one |
| ProgressHub.DisconnectUnknownNoChange | main.py:180-188 | an unknown client or connection (the swallowed `ValueError`) leaves the registry unchanged |
| ProgressHub.RegistryStepsKeepNoEmptyLists | main.py:172-204 | connect, disconnect and broadcast keep the invariant that no client maps to an empty list |
| ProgressHub.SurvivingMembership | main.py:195-204 | a connection stays after a broadcast exactly when it was listed and its send succeeded |
| ProgressHub.SendsFollowList | main.py:196-201 | a broadcast sends the message once to every listed entry, in list order, and the delivery flag is false exactly for the failing connections |
| ProgressHub.UnregisterFailingKeepsSurvivors | main.py:203-204 | disconnecting the failing entries one by one leaves exactly the surviving ones, in order |
| ProgressHub.UnregisterFailingIsPruned | main.py:195-204 | the two loops of broadcast (collect the failures, then disconnect each) amount to removing exactly the failing entries |
| ProgressHub.BroadcastPrunesExactlyFailing | main.py:191-204 | after a broadcast the client's list is the surviving connections in order, and every other client is unchanged |
| ProgressHub.BroadcastToUnknownClient | main.py:192-193 | a broadcast to a client with no entry sends nothing and changes nothing |
| ProgressHub.WebSocketManager.Connect | main.py:172-178 | the registry becomes `Registered` of the old one; the invariant holds; the outbox is unchanged |
| ProgressHub.WebSocketManager.Disconnect | main.py:180-189 | the registry becomes `Unregistered` of the old one; the invariant holds; the outbox is unchanged |
| ProgressHub.WebSocketManager.BroadcastToClient | main.py:191-204 | the outbox gains one send per listed connection with its delivery flag; the registry becomes `Pruned` of the old one |
| Auth.CredentialManager.Put | main.py:211-213 | `store` overwrites this client's entry and leaves the rest unchanged |
| Auth.CredentialManager.Get | main.py:215-217 | `get` returns the stored credential, or None exactly when the client has none |
| Auth.CredentialManager.Remove | main.py:219-221 | `remove` drops the client's entry, and an absent client is harmless |
| Auth.AuthManager.constructor | main.py:224-226 | an AuthManager owns a fresh, empty CredentialManager of its own and an empty lock table |
| Auth.AuthManager.GetValidCredentials | main.py:228-256 | the result, the new store and the new lock table are those of `GetValid` on the old state |
| Auth.GetValid | main.py:228-256 | `get_valid_credentials` on an explicit state: no entry gives None; a valid credential is returned; an invalid one adds the client's lock; if it is expired with a refresh token, it is refreshed, stored and returned, or evicted with None when the refresh raises; otherwise it is returned as stored |
| Auth.LookupAddsNoClient | main.py:228-256 | a lookup never adds a client to the store; it only replaces or evicts this client's entry |
| Auth.MissingCredentialGivesNone | main.py:230-233 | with no stored credential, the result is None and nothing changes |
| Auth.ValidCredentialUnchanged | main.py:236-253 | a valid credential is returned as stored, with no refresh and no new lock |
| Auth.RefreshOnlyWhenNeeded | main.py:236-246 | the refresh outcome matters only for an invalid, expired credential that has a refresh token |
| Auth.LockTableOnlyGrows | main.py:238-239 | the lock table only grows, by at most this client, and gains it exactly when its stored credential is invalid |
| Auth.RefreshSucceeds | main.py:242-247 | a successful refresh is stored back and returned |
| Auth.RefreshFails | main.py:248-251 | a failed refresh evicts this client's credential, and only that one, and returns None |
| Auth.UnrefreshableInvalidKept | main.py:236-253 | an invalid credential without `expired and refresh_token` is returned and stays stored |
| Auth.SecondCallAfterRefreshReusesIt | main.py:236-253 | after a refresh to a valid credential, the next call returns it without refreshing, whatever a refresh would do |
| Auth.OtherClientsUntouched | main.py:228-256 | a call changes no other client's entry |
| Throttle.Total | main.py:138 | `total_bytes`, or `total_bytes_estimate` when `total_bytes` is 0 (Python `or`) |
| Throttle.Admitted | main.py:135-161 | after the interval check: a `downloading` event with a positive total gives a progress message of downloaded/total*100 with speed and eta; `finished` gives the finished message; anything else gives nothing |
| Throttle.HookStep | main.py:131-163 | one hook call: within 100 ms of `_last_update`, nothing is sent and `_last_update` stays; otherwise `_last_update` becomes now and the message is that of `Admitted` |
| Throttle.Run | main.py:130-165 | the hook called once per call, in order, with `_last_update` carried from call to call; it records the times of the admitted calls and the messages in sending order |
| Throttle.IgnoredWithinInterval | main.py:132-133 | a call less than 100 ms after `_last_update` sends nothing and does not move `_last_update` |
| Throttle.FinishedCanBeDropped | main.py:132-161 | a `finished` event 50 ms after the last update is dropped, because the interval check comes before the status test |
| Throttle.PassingCallMovesLastUpdate | main.py:163 | every call that passes the interval check sets `_last_update` to the call time, whatever its status |
| Throttle.DownloadingSendsWhenTotalPositive | main.py:136-151 | a `downloading` event sends one progress message, downloaded/total*100, exactly when the total is positive |
| Throttle.EstimateReadOnlyWithoutTotal | main.py:138 | the estimate affects the total exactly when `total_bytes` is 0: otherwise no estimate changes it |
| Throttle.TotalFallsBackToEstimate | main.py:138 | the total is `total_bytes`, or `total_bytes_estimate` when `total_bytes` is 0 |
| Throttle.ProgressAboveHundredIffOverTotal | main.py:140-141 | a passing `downloading` event with a positive total reports more than 100 exactly when more bytes arrived than the total: nothing clamps it |
| Throttle.ProgressNotClamped | main.py:140-141 | an example of the unclamped progress: 300 of an estimated 200 bytes reports 150 |
| Throttle.FinishedSendsHundred | main.py:153-161 | a `finished` event that passes the check sends status `finished` with progress 100 |
| Throttle.OtherStatusSendsNothing | main.py:135-161 | any other status sends nothing |
| Throttle.RunNeverReportsError | main.py:130-165 | no run of the hook ever sends status `error` |
| Throttle.RunIsSpaced | main.py:132-163 | the calls the hook lets through are at least 100 ms apart, and the first is at least 100 ms after construction |
| Throttle.RunLastUpdate | main.py:132-163 | a run sends at most one message per admitted call, admits at most one per call, and ends with `_last_update` at the last admitted call |
| Throttle.AtMostOnePerWindow | main.py:128-133 | within any 100 ms window at most one call is admitted and at most one message sent (10 per second) |
| Throttle.AdmittedAreCallTimes | main.py:163 | every admitted time is the time of one of the calls |
| Throttle.ProgressManager.constructor | main.py:123-128 | `_last_update` starts at construction time and nothing has been scheduled yet |
| Throttle.ProgressManager.Hook | main.py:130-165 | one call of the hook moves `_last_update` and schedules the message given by `HookStep`, as if `asyncio.create_task` succeeded (see Left out) |
| Batch.SearchUrls | main.py:326-329 | one watch URL per search item, in order, built from `id.videoId` |
| Batch.PlaylistUrls | main.py:341-344 | one watch URL per Watch Later item, in order, built from `contentDetails.videoId` |
| Batch.UploadUrls | main.py:361-365 | the URL of every activity that has an upload, and only those; never more URLs than activities |
| Batch.UploadUrlsAppend | main.py:361-365 | the activity comprehension keeps activity order |
| Batch.WatchUrlInjective | main.py:327 | different video ids give different watch URLs |
| Batch.FetchSearchVideos | main.py:315-329 | an answered search gives the watch URLs of its items (none when `items` is absent); a failure propagates unchanged |
| Batch.FetchWatchLaterVideos | main.py:331-349 | an answered lookup gives the URLs of its items; an `HttpError` 404 gives []; any other failure propagates |
| Batch.FetchUnwatchedVideos | main.py:351-364 | an answered lookup gives the URLs of the activities that have an upload; a failure propagates |
| Batch.InlineWatchLater | main.py:566-578 | the Watch Later lookup inlined in `start_download`: an answer gives the URLs of its items, and every failure, 404 included, propagates |
| Batch.CollectVideoUrls | main.py:548-593 | the URL list: search URLs for a truthy query, then Watch Later, then uploads, each only when asked for, with the first failing asked-for lookup aborting (the unwatched block at main.py:580-593 reads like `fetch_unwatched_videos`) |
| Batch.WatchLaterNotFoundIsEmpty | main.py:345-348 | a 404 from the Watch Later lookup gives an empty list |
| Batch.WatchLaterOtherErrorsRaised | main.py:345-349 | every other Watch Later failure is re-raised unchanged |
| Batch.MissingItemsGiveNoUrls | main.py:326-365 | a response without `items` gives no URLs in each helper |
| Batch.InlineWatchLaterDiffersOnlyOn404 | main.py:566-578 | the inline Watch Later code in `start_download` agrees with the helper, except that a 404 raises instead of giving [] |
| Batch.CollectOrder | main.py:550-593 | the URL list is search results (only for a truthy query), then Watch Later, then uploads, each only when asked for |
| Batch.CollectFailsOnFirstError | main.py:550-593 | the collection fails exactly when an asked-for lookup raises, and with the first such error in the order search, Watch Later, unwatched |
| Batch.WatchLater404FailsStartDownload | main.py:566-578 | a 404 on Watch Later fails the whole request |
| Batch.UseRecommendedIgnored | main.py:550-593 | `useRecommended` has no effect on the URL list |
| Batch.NoSourceNoUrls | main.py:550-593 | a request that names no source collects no URLs |
| Batch.VideoId | main.py:598 | the task name `video_` followed by the decimal rendering of the number |
| Batch.VideoIdInjective | main.py:598 | `video_{i+1}` names are pairwise distinct |
| Batch.LaunchTasks | main.py:596-602 | task i downloads URL i into the folder as `video_{i+1}` for this client; the ids are pairwise distinct |
| Server.Backend.constructor | main.py:259-261 | the module-level credential_manager and auth_manager.credential_manager are two distinct, empty stores |
| Server.Backend.AuthCallback | main.py:407-445 | the callback succeeds exactly with a truthy state client id and a granted exchange, and sets the cookie to that id. Every failure is a 500, including the inner 401. The credential goes into the module-level `credential_manager`; the store and locks of `auth_manager` stay as they were |
| Server.LoginThenLookup | main.py:425 | right after a successful login, `get_valid_credentials` for that client answers None. The credential went into the module-level store (main.py:260), and the lookup reads the store of auth_manager (main.py:225) (finding 1, as written) |
| Server.AnyLoginThenLookup | main.py:425 | on any backend whose `auth_manager` store lacks the client (it always does: it starts empty and no lookup adds a client), a successful login followed by a lookup still answers None (finding 1, as written) |
| Server.Backend.AuthCallbackFixed | main.py:407-445 | the same callback storing into `auth_manager.credential_manager` (finding 1, corrected) |
| Server.LoginThenLookupFixed | main.py:228-253 | with the corrected callback, a valid credential is found right after login (finding 1, corrected) |
| Server.Backend.GetCredentials | main.py:275-283 | 401 without a truthy cookie or when `get_valid_credentials` gives None; otherwise the credential it returns |
| Server.CallHook | main.py:130-165 | `yt_dlp` calling the hook once per progress event schedules exactly the messages `Throttle.Run` sends |
| Server.Backend.DownloadVideo | main.py:285-313 | the hook schedules the throttled messages, as if `asyncio.create_task` succeeded (see Left out); a download that raises broadcasts one `error` payload with the video id and message, which prunes failing sockets; a completed download broadcasts nothing more |
| Server.Backend.StartDownload | main.py:534-611 | 401 without credentials; 500 when the folder cannot be created, the data API client cannot be built or a lookup raises; the credential store and refresh locks end as `get_valid_credentials` leaves them; otherwise one task per collected URL, in order, named `video_1..`, and `total_videos` is the URL count |
| Renderer.TrimStart | renderer.js:238 | the input less its leading run of white space: a suffix whose first character is not white space, and all it drops is white space |
| Renderer.TrimEnd | renderer.js:238 | the input less its trailing run of white space: a prefix whose last character is not white space, and all it drops is white space |
| Renderer.Trim | renderer.js:238 | the trimmed query is a slice of the input with only white space cut off before and after it; it starts and ends with a non-space, and is empty only if all of the input is white space |
| Renderer.TrimEmptyIffBlank | renderer.js:238 | a query trims to "" exactly when it is all white space |
| Renderer.ReadForm | renderer.js:237-245 | the form object of the click handler: the query trimmed, the other fields as read |
| Renderer.ValidateDownloadParams | renderer.js:119-136 | as written: the placeholder folder is rejected first, then a count that is 0 or less or above 50 (a NaN count passes both comparisons), then a form with no query and no box ticked; otherwise accepted |
| Renderer.ValidateDownloadParamsFixed | renderer.js:119-136 | the same checks in the same order, with the count check rejecting everything that is not a number from 1 to 50, NaN included (finding 2, corrected) |
| Renderer.CountMessageText | renderer.js:126 | the count message reads "Please enter a valid number of videos (1-50)" |
| Renderer.PlaceholderFolderRejected | renderer.js:120-123 | the folder "No folder selected" is rejected first, whatever else the form says |
| Renderer.CountOutOfRangeRejected | renderer.js:125-128 | with a folder chosen, a count of 0 or less, or above 50, is the reported error |
| Renderer.FirstFailingCheckReported | renderer.js:119-136 | a rejection reports exactly one message: that of the first check that fires, in the order folder, count, source |
| Renderer.AcceptedExactly | renderer.js:119-136 | as written, the form is accepted exactly when it has a folder, a count that is NaN or within 1..50, and a source |
| Renderer.BlankCountAccepted | renderer.js:125-128 | a blank count field (NaN) passes as written, and the corrected validator rejects it (finding 2, as written) |
| Renderer.AcceptedExactlyFixed | renderer.js:119-136 | the corrected validator accepts exactly a folder, a count within 1..50, and a source (finding 2, corrected) |
| Renderer.FixedAgreesOnNumbers | renderer.js:125-128 | the two validators differ only on NaN |
| Renderer.BlankQueryIsNoSource | renderer.js:130-133 | a query of white space only is not a source |
| Renderer.RecommendedAloneIsSource | renderer.js:130-133 | the "recommended" box alone is a source |
| Renderer.Cleanup | renderer.js:63-71 | `cleanupWebSocket`: the pending timer is cancelled and forgotten, attempts become 0, the flag is cleared, and a disconnect is requested |
| Renderer.Connect | renderer.js:44-53 | `connectWebSocket`: not connected and under 5 attempts, one connect request, the flag set and one more attempt; at 5 or more, `Cleanup`; otherwise nothing |
| Renderer.Reconnect | renderer.js:55-61 | `handleWebSocketReconnect`: the flag is cleared, any pending timer is cancelled and one new timer is set and named |
| Renderer.OnMessage | renderer.js:282-285 | a received message resets the attempts to 0 |
| Renderer.OnError | renderer.js:287-291 | an error runs `handleWebSocketReconnect` |
| Renderer.OnClose | renderer.js:293-300 | a close runs `handleWebSocketReconnect` when authenticated, `cleanupWebSocket` otherwise |
| Renderer.Fire | renderer.js:60 | the host firing a timer: a pending one is removed and runs `connectWebSocket`; a cancelled one does nothing |
| Renderer.Login | renderer.js:216-220 | a successful authentication sets the flag and runs `connectWebSocket` (likewise at renderer.js:313-317) |
| Renderer.Step | renderer.js:282-328 | one event dispatched to its handler: a connect call, a timer, a message, an error, a close, the page unload (`cleanupWebSocket`) or a login |
| Renderer.Run | renderer.js:282-328 | the handlers for a sequence of events in order, the state carried along and the bridge calls collected in order |
| Renderer.InitialInv | renderer.js:1-7 | the initial state meets the invariant |
| Renderer.AtMostOneTimer | renderer.js:55-61 | under the invariant, at most one reconnect timer is pending |
| Renderer.ConnectWhenIdle | renderer.js:45-48 | not connected and under 5 attempts: one connect request, the flag set, one more attempt |
| Renderer.ConnectWhenConnected | renderer.js:44-53 | connected and under 5 attempts: nothing happens |
| Renderer.ConnectWhenExhausted | renderer.js:44-71 | at 5 attempts: the timer is cleared, attempts reset to 0, the flag cleared, a disconnect requested |
| Renderer.MessageResetsAttempts | renderer.js:282-285 | a received message resets the attempts to 0 and changes nothing else |
| Renderer.ErrorReplacesTimer | renderer.js:287-291 | an error clears the flag, keeps the count, and replaces any pending timer with exactly one new one |
| Renderer.CloseReconnectsOrCleansUp | renderer.js:293-300 | a close reconnects when authenticated, and otherwise cleans up to 0 attempts |
| Renderer.StepKeepsInv | renderer.js:44-71 | every handler keeps the invariant: attempts at most 5, and the only pending timer is the one `reconnectTimeout` names |
| Renderer.RunKeepsInv | renderer.js:282-300 | every sequence of events keeps the invariant |
| Renderer.AttemptsNeverExceedCap | renderer.js:44-71 | from page load, `reconnectAttempts` never exceeds `MAX_RECONNECT_ATTEMPTS` |
| Renderer.ErrorThenTimerRetries | renderer.js:44-61 | under the cap, an error followed by its timer sends one more connect request |
| Renderer.ErrorThenTimerGivesUpAtCap | renderer.js:44-71 | at the cap, the same sequence gives up: a disconnect request, and the count restarts at 0 |
| Renderer.SocketController.ConnectWebSocket | renderer.js:44-53 | the state and the bridge calls follow `Connect`; the invariant holds |
| Renderer.SocketController.HandleWebSocketReconnect | renderer.js:55-61 | the state follows `Reconnect`, with no bridge call |
| Renderer.SocketController.CleanupWebSocket | renderer.js:63-71 | the state and the bridge calls follow `Cleanup` |
| Renderer.SocketController.OnWebSocketMessage | renderer.js:282-285 | the state follows `OnMessage` |
| Renderer.SocketController.OnWebSocketError | renderer.js:287-291 | the state follows `OnError` |
| Renderer.SocketController.OnWebSocketClose | renderer.js:293-300 | the state and the bridge calls follow `OnClose` |
| Renderer.SocketController.TimerCallback | renderer.js:60 | a pending reconnect timer that fires runs `connectWebSocket`; a cancelled one does nothing |
| Renderer.SocketController.OnLoggedIn | renderer.js:216-220 | after authentication the flag is set and `connectWebSocket` runs |
| ElectronMain.Render | main.js:87 | one cookie as `name=value` |
| ElectronMain.Rendered | main.js:87 | each cookie renders as `name=value`, one per cookie, in list order |
| ElectronMain.CookieHeader | main.js:136 | the rendered cookies joined with "; ", in list order (the same header is built at main.js:87) |
| ElectronMain.Indented | main.js:136 | the pieces a split on ';' of that header yields: the first rendering as it is, each later one behind one blank |
| ElectronMain.Blanked | main.js:136 | every piece behind one blank, the blank that "; " leaves after a split on ';' |
| ElectronMain.JoinIndented | main.js:136 | joining with "; " is joining with ";" after putting a blank in front of every piece but the first |
| ElectronMain.CookieHeaderCons | main.js:136 | for every list, the header is the first cookie's `name=value`, followed by "; " and the header of the rest when there is a rest |
| ElectronMain.CookieHeaderEmpty | main.js:87 | the edge case of no cookies: the empty header |
| ElectronMain.CookieHeaderSingle | main.js:136 | the edge case of one cookie: `name=value` with no separator |
| ElectronMain.CookieHeaderSplit | main.js:136 | split on ';', the header gives back every rendered cookie in order (the later ones behind the blank of "; "), when no name or value holds ';' |
| ElectronMain.ParseSetCookie | main.js:153 | `cookieStr.split(';')[0].split('=')` destructured: the name is the text before the first '=', the value the text up to the next '=', undefined when there is no '=' |
| ElectronMain.ParsedAll | main.js:152-153 | one parsed pair per `set-cookie` header, in header order |
| ElectronMain.CookiesToSet | main.js:150-160 | no `set-cookie` header sets nothing; otherwise one cookie per header, each its parsed first pair |
| ElectronMain.AttributesIgnored | main.js:153 | only the text before the first ';' is read |
| ElectronMain.ParseRenderRoundTrip | main.js:153 | `name=value` (plus attributes) parses back to name and value when neither holds ';' or '=' |
| ElectronMain.ValueTruncatedAtEquals | main.js:153 | a value holding '=' is cut at it |
| ElectronMain.NoEqualsNoValue | main.js:153 | with no '=', the name is the whole segment and the value is undefined |
| ElectronMain.SearchParam | main.js:127-129 | `searchParams.get(key)`: the value of the first `&`-separated pair of the query named `key`, or None |
| ElectronMain.HandleAuthCallback | main.js:125-147 | a URL with the callback prefix and a non-empty `code` becomes a request carrying the code, the state and the cookie header; every other URL does nothing |
| ElectronMain.FirstValue | main.js:128-129 | `searchParams.get` gives the value of the first pair with that name, or None exactly when no pair has it |
| ElectronMain.CallbackGate | main.js:125-147 | the request is sent exactly for URLs with the callback prefix and a non-empty code; it carries the code, the state and the cookie header |
| ElectronMain.GateIsPrefixTest | main.js:126 | the gate is a prefix test: a URL `.../auth/callback<anything>?code=c` passes |
| ElectronMain.OtherUrlsIgnored | main.js:126 | any other URL is ignored |
| ElectronMain.MissingCodeIgnored | main.js:128-131 | a callback URL without a `code` pair is ignored |
| ElectronMain.AppUrlToPath | main.js:223 | `request.url.replace("app://", "")`: the first occurrence of the scheme is cut out |
| ElectronMain.LeadingSchemeRemoved | main.js:223 | `app://rest` maps to `rest`, even when `rest` holds "app://" again |
| ElectronMain.OnlyFirstOccurrenceRemoved | main.js:223 | a later "app://" survives the rewrite |
| ElectronMain.FirstOccurrenceCut | main.js:223 | the first "app://" is cut out wherever it is, and the rest is kept |
| ElectronMain.NoSchemeUnchanged | main.js:223 | a URL without "app://" is unchanged |
| Text.Split | main.js:153 | `split` with a one-character separator: at least one piece, and no piece holds the separator |
| Text.Join | main.js:136 | `join`: the pieces with the separator between consecutive ones; no pieces give "" |
| Text.StartsWith | main.js:126 | `startsWith`: the string begins with the prefix |
| Text.IndexOf | main.js:223 | `indexOf`: the first index where the pattern occurs, or None exactly when it occurs nowhere |
| Text.ReplaceFirst | main.js:223 | `replace` with a string pattern: when the pattern occurs nowhere the string is unchanged; when its first occurrence is at i, the result is the text before i, the replacement, and the text after that occurrence |
| Text.NatToString | main.py:598 | `str(n)`: a non-empty string of decimal digits |
| Text.JoinSplit | main.js:153 | joining the pieces of a `split` with the same separator gives back the string |
| Text.SplitJoin | main.js:153 | splitting a join recovers the pieces when no piece holds the separator |
| Text.NatToStringInjective | main.py:598 | the decimal rendering of distinct numbers is distinct |
| Text.ParseNatToString | main.py:598 | the decimal rendering reads back as the same number |

## Left out

- Concurrency: each `asyncio.Lock` section is one atomic step. Interleavings between
  coroutines are not modelled, for example a `disconnect` landing while
  `broadcast_to_client` iterates, or two callers racing on a refresh.
- The hook's broadcasts are scheduled with `asyncio.create_task`. The model
  records them as scheduled and does not deliver them through the hub. The hook
  runs on an executor thread, where `asyncio.create_task` finds no running event
  loop; the effect of that on the download is not modelled.
- WebSocket transport, `accept`, close codes, and the `/progress` endpoint loop:
  connections are opaque numbers.
- `yt_dlp`, the Google OAuth flow and the data API client: their results are
  inputs. So is `creds.refresh`, whose outcome is a new credential or an error.
  Request parameters such as `maxResults`, `videoCategoryId` and the playlist id
  are not modelled.
- `encode_state` / `decode_state`: the callback receives the decoded client id,
  or None.
- The exact `detail` strings of HTTP errors: only the status codes are modelled.
  Response headers, cookie attributes, CORS and middleware are left out.
- `/auth`, `/auth/check` and `/user/profile` are not part of this model.
- JSON serialisation: messages are a datatype, and `Status`/`ProgressField` give
  their fields.
- `datetime.now()`: its two readings in the hook (lines 132 and 163) are taken as
  the same instant.
- `parseInt`: the count arrives as an integer, or None for NaN. `toFixed`, the DOM,
  `showError` and the status texts are left out. `updateProgress` and
  `progress.js` are not part of this model.
- The start-download click handler and the auth-button polling loop
  (renderer.js:168-280) are left out, except that a successful login sets the
  flag and connects.
- The host timer table: ids are handed out in increasing order, and
  `ReconnectIntervalMs` (5000) is not used to time the firing.
- ElectronMain.SearchParam: `URL` parsing is simplified, and so is the code that
  ElectronMain.HandleAuthCallback forwards. The query is the text after the first '?' and before '#'. There is
  no percent-decoding and no '+' to space, and the full URL grammar is not
  modelled. This differs on ordinary input. An OAuth code normally arrives with
  an encoded '/' (`%2F`), which `searchParams.get` (main.js:128) decodes, and the
  model forwards it as it is.
- `path.normalize` and `__dirname` in the `app://` handler. `createWindow`,
  `createAuthWindow`, `setupWebSocket`, the IPC wiring and `preload.js` are not
  part of this model.
- ProgressHub.WebSocketManager.BroadcastToClient: a message is one value, not the
  JSON text; a send that raises is an element of the `failing` set.
- Server.Backend.StartDownload: the launched `download_video` tasks are not run
  inside it, so it leaves the hub unchanged. Each task on its own is
  `Server.Backend.DownloadVideo`; running them together under `asyncio.gather`
  is not modelled.
- Throttle.Admitted: the byte counts of `HookEvent` are integers and progress is an exact real
  quotient. Python divides floats at main.py:141, and `yt_dlp` reports
  `total_bytes_estimate` as a float, so rounding is not modelled. A key that is
  present with the value None is read as its default here. In the source,
  `None > 0` at main.py:140 raises `TypeError`; that failure is not modelled.
- Throttle.FinishedCanBeDropped: this follows the code. The hook does not guarantee
  a final `finished` report, because the 100 ms check at main.py:132 comes before
  the status test.
- Auth.UnrefreshableInvalidKept: this follows the code. An invalid credential
  without `expired and refresh_token` is returned and kept, not evicted.

## Findings

| source | as written | input that shows it | evidently intended | confidence | as-written member | corrected member |
|---|---|---|---|---|---|---|
| main.py:425 | `auth_callback` stores the credential into the module-level `credential_manager` (main.py:260). `get_valid_credentials` reads `auth_manager.credential_manager`, a different instance (main.py:225, 261) | any successful callback for client `c`, followed by `get_credentials` for `c`: it answers 401 "Not authenticated". `Server.AnyLoginThenLookup` shows this after any history, since the store of `auth_manager` never gains a client | store into `auth_manager.credential_manager`, so that a login is seen | not executed; high | Server.LoginThenLookup | Server.LoginThenLookupFixed |
| renderer.js:125 | `numVideos <= 0 \|\| numVideos > MAX_VIDEOS` is false for NaN | a blank or non-numeric count field (`parseInt("")` is NaN), with a folder and a source | reject anything that is not a number from 1 to 50 | not executed; high | Renderer.BlankCountAccepted | Renderer.AcceptedExactlyFixed |
