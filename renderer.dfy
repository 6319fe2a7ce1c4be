/**
 * The renderer process (renderer.js): the download-form validator and the
 * WebSocket reconnect counter kept in module-level variables.
 *
 * The timers of `setTimeout` are modelled as a table of pending ids that the
 * host fires or that `clearTimeout` cancels; the calls into the preload bridge
 * (`window.electron.connectWebSocket()` / `disconnectWebSocket()`) are recorded
 * as requests.
 */
module Renderer {
  import opened Wrappers
  import Text

  const MaxVideos: nat := 50
  const MaxReconnectAttempts: nat := 5
  const ReconnectIntervalMs: nat := 5000
  /** The folder label shown before a folder is chosen. */
  const NoFolder := "No folder selected"

  // ---------------------------------------------------------------------
  // String.prototype.trim

  /** The white space and line terminators that `trim` removes. */
  predicate IsJsWhitespace(c: char)
  {
    || c == '\t' || c == '\U{000B}' || c == '\U{000C}' || c == ' ' || c == '\U{00A0}' || c == '\U{FEFF}'
    || c == '\n' || c == '\r' || c == '\U{2028}' || c == '\U{2029}'
    || c == '\U{1680}' || ('\U{2000}' <= c <= '\U{200A}') || c == '\U{202F}' || c == '\U{205F}' || c == '\U{3000}'
  }

  function TrimStart(s: string): (r: string)
    ensures |r| <= |s| && r == s[|s| - |r|..]
    ensures r != [] ==> !IsJsWhitespace(r[0])
    ensures forall k :: 0 <= k < |s| - |r| ==> IsJsWhitespace(s[k])
  {
    if s != [] && IsJsWhitespace(s[0]) then TrimStart(s[1..]) else s
  }

  function TrimEnd(s: string): (r: string)
    ensures |r| <= |s| && r == s[..|r|]
    ensures r != [] ==> !IsJsWhitespace(r[|r| - 1])
    ensures forall k :: |r| <= k < |s| ==> IsJsWhitespace(s[k])
  {
    if s != [] && IsJsWhitespace(s[|s| - 1]) then TrimEnd(s[..|s| - 1]) else s
  }

  /**
   * `s.trim()`: `s` with its leading and trailing white space removed, which
   * leaves no white space at either end.
   */
  function Trim(s: string): (r: string)
    ensures exists i, j ::
      && 0 <= i <= j <= |s| && r == s[i..j]
      && (forall k :: 0 <= k < i ==> IsJsWhitespace(s[k]))
      && (forall k :: j <= k < |s| ==> IsJsWhitespace(s[k]))
    ensures r != [] ==> !IsJsWhitespace(r[0]) && !IsJsWhitespace(r[|r| - 1])
    ensures forall k :: 0 <= k < |s| && !IsJsWhitespace(s[k]) ==> r != []
  {
    var t := TrimStart(s);
    var r := TrimEnd(t);
    TrimSlice(s, t, r);
    r
  }

  /** Trimming a suffix `t` of `s` back to its prefix `r` leaves the slice of `s` between two runs of white space. */
  lemma TrimSlice(s: string, t: string, r: string)
    requires |t| <= |s| && t == s[|s| - |t|..] && (forall k :: 0 <= k < |s| - |t| ==> IsJsWhitespace(s[k]))
    requires |r| <= |t| && r == t[..|r|] && (forall k :: |r| <= k < |t| ==> IsJsWhitespace(t[k]))
    ensures var i := |s| - |t|;
      && 0 <= i <= i + |r| <= |s| && r == s[i..i + |r|]
      && (forall k :: 0 <= k < i ==> IsJsWhitespace(s[k]))
      && (forall k :: i + |r| <= k < |s| ==> IsJsWhitespace(s[k]))
  {
    var i := |s| - |t|;
    forall k | i + |r| <= k < |s|
      ensures IsJsWhitespace(s[k])
    {
      assert s[k] == t[k - i];
    }
  }

  /** A query of white space only trims to the empty string, and only such a query does. */
  lemma TrimEmptyIffBlank(s: string)
    ensures Trim(s) == "" <==> forall k :: 0 <= k < |s| ==> IsJsWhitespace(s[k])
  {
  }

  // ---------------------------------------------------------------------
  // validateDownloadParams

  /**
   * The form as the start-download handler builds it (renderer.js:237-245); the
   * query is already trimmed and `numVideos` is the result of `parseInt`, with
   * None standing for NaN.
   */
  datatype FormData = FormData(
    query: string,
    category: string,
    numVideos: Option<int>,
    folder: string,
    useRecommended: bool,
    useWatchLater: bool,
    useUnwatched: bool)

  /** The form built from the raw inputs: the query field is trimmed (renderer.js:238). */
  function ReadForm(rawQuery: string, category: string, numVideos: Option<int>, folder: string,
                    useRecommended: bool, useWatchLater: bool, useUnwatched: bool): FormData
  {
    FormData(Trim(rawQuery), category, numVideos, folder, useRecommended, useWatchLater, useUnwatched)
  }

  /** `true`, or `false` after `showError` with that message. */
  datatype Verdict = Accepted | Rejected(message: string)

  const FolderMessage := "Please select a folder first"
  const SourceMessage := "Please enter a search query or select at least one video source"

  /** `Please enter a valid number of videos (1-${MAX_VIDEOS})`. */
  function CountMessage(): string
  {
    "Please enter a valid number of videos (1-" + Text.NatToString(MaxVideos) + ")"
  }

  /** `numVideos <= 0 || numVideos > MAX_VIDEOS`: both comparisons are false for NaN. */
  predicate CountCheckFires(n: Option<int>)
  {
    n.Some? && (n.value <= 0 || n.value > MaxVideos)
  }

  /** The query is truthy (non-empty) or a checkbox is ticked. */
  predicate HasSource(f: FormData)
  {
    f.query != "" || f.useRecommended || f.useWatchLater || f.useUnwatched
  }

  /** `validateDownloadParams` (renderer.js:119-136) as written. */
  function ValidateDownloadParams(f: FormData): Verdict
  {
    if f.folder == NoFolder then Rejected(FolderMessage)
    else if CountCheckFires(f.numVideos) then Rejected(CountMessage())
    else if !HasSource(f) then Rejected(SourceMessage)
    else Accepted
  }

  /** The count check as intended: anything but a number from 1 to 50 is rejected. */
  predicate CountValid(n: Option<int>)
  {
    n.Some? && 1 <= n.value <= MaxVideos
  }

  /** `validateDownloadParams` with the count check rejecting NaN as well. */
  function ValidateDownloadParamsFixed(f: FormData): Verdict
  {
    if f.folder == NoFolder then Rejected(FolderMessage)
    else if !CountValid(f.numVideos) then Rejected(CountMessage())
    else if !HasSource(f) then Rejected(SourceMessage)
    else Accepted
  }

  /** The count message names the bound 50. */
  lemma CountMessageText()
    ensures CountMessage() == "Please enter a valid number of videos (1-50)"
  {
    assert Text.NatToString(5) == "5";
    assert Text.NatToString(50) == Text.NatToString(5) + "0";
  }

  /** The placeholder folder is rejected first, whatever else the form says. */
  lemma PlaceholderFolderRejected(f: FormData)
    requires f.folder == NoFolder
    ensures ValidateDownloadParams(f) == Rejected(FolderMessage)
    ensures ValidateDownloadParamsFixed(f) == Rejected(FolderMessage)
  {
  }

  /** With a folder chosen, a count outside 1..50 is the error reported, whatever the sources. */
  lemma CountOutOfRangeRejected(f: FormData, n: int)
    requires f.folder != NoFolder && f.numVideos == Some(n) && (n <= 0 || n > MaxVideos)
    ensures ValidateDownloadParams(f) == Rejected(CountMessage())
    ensures ValidateDownloadParamsFixed(f) == Rejected(CountMessage())
  {
  }

  /** Exactly one message is reported, and it is that of the first check that fires. */
  lemma FirstFailingCheckReported(f: FormData)
    ensures ValidateDownloadParams(f).Rejected? ==>
      ValidateDownloadParams(f).message
      == (if f.folder == NoFolder then FolderMessage
          else if CountCheckFires(f.numVideos) then CountMessage()
          else SourceMessage)
  {
  }

  /** The validator as written accepts exactly: a folder, a count that is NaN or within 1..50, and a source. */
  lemma AcceptedExactly(f: FormData)
    ensures ValidateDownloadParams(f) == Accepted <==>
      f.folder != NoFolder && (f.numVideos.None? || 1 <= f.numVideos.value <= MaxVideos) && HasSource(f)
  {
  }

  /** The corrected validator accepts exactly: a folder, a count within 1..50, and a source. */
  lemma AcceptedExactlyFixed(f: FormData)
    ensures ValidateDownloadParamsFixed(f) == Accepted <==>
      f.folder != NoFolder && f.numVideos.Some? && 1 <= f.numVideos.value <= MaxVideos && HasSource(f)
  {
  }

  /** A blank count field (`parseInt("")` is NaN) passes the count check of the validator as written. */
  lemma BlankCountAccepted(folder: string)
    requires folder != NoFolder
    ensures ValidateDownloadParams(ReadForm("", "", None, folder, true, false, false)) == Accepted
    ensures ValidateDownloadParamsFixed(ReadForm("", "", None, folder, true, false, false)) == Rejected(CountMessage())
  {
  }

  /** The two validators differ only on NaN. */
  lemma FixedAgreesOnNumbers(f: FormData)
    requires f.numVideos.Some?
    ensures ValidateDownloadParamsFixed(f) == ValidateDownloadParams(f)
  {
  }

  /** A query of white space alone is no source. */
  lemma BlankQueryIsNoSource(rawQuery: string, category: string, n: int, folder: string)
    requires forall k :: 0 <= k < |rawQuery| ==> IsJsWhitespace(rawQuery[k])
    requires folder != NoFolder && 1 <= n <= MaxVideos
    ensures ValidateDownloadParams(ReadForm(rawQuery, category, Some(n), folder, false, false, false)) == Rejected(SourceMessage)
  {
    TrimEmptyIffBlank(rawQuery);
  }

  /** "Recommended" alone is a source, although the backend never reads it. */
  lemma RecommendedAloneIsSource(f: FormData)
    requires f.folder != NoFolder && CountValid(f.numVideos)
    requires f.query == "" && f.useRecommended && !f.useWatchLater && !f.useUnwatched
    ensures ValidateDownloadParams(f) == Accepted
  {
  }

  // ---------------------------------------------------------------------
  // The reconnect counter

  /** A call into the preload bridge. */
  datatype Ipc = ConnectRequest | DisconnectRequest

  /**
   * `isAuthenticated`, `isWebSocketConnected`, `reconnectAttempts` and
   * `reconnectTimeout` (renderer.js:1-7), together with the host's table of
   * pending timers and the id the next `setTimeout` returns.
   */
  datatype SocketState = SocketState(
    authenticated: bool,
    connected: bool,
    attempts: nat,
    timeout: Option<nat>,
    pending: set<nat>,
    nextTimer: nat)

  /** What a handler changed and which bridge calls it made. */
  datatype Outcome = Outcome(state: SocketState, ipc: seq<Ipc>)

  const Initial := SocketState(false, false, 0, None, {}, 1)

  /** `clearTimeout(reconnectTimeout)` when it is set. */
  function Cleared(s: SocketState): set<nat>
  {
    if s.timeout.Some? then s.pending - {s.timeout.value} else s.pending
  }

  /** `cleanupWebSocket` (renderer.js:63-71). */
  function Cleanup(s: SocketState): Outcome
  {
    Outcome(s.(timeout := None, pending := Cleared(s), attempts := 0, connected := false), [DisconnectRequest])
  }

  /** `connectWebSocket` (renderer.js:44-53). */
  function Connect(s: SocketState): Outcome
  {
    if !s.connected && s.attempts < MaxReconnectAttempts then
      Outcome(s.(connected := true, attempts := s.attempts + 1), [ConnectRequest])
    else if s.attempts >= MaxReconnectAttempts then
      Cleanup(s)
    else
      Outcome(s, [])
  }

  /** `handleWebSocketReconnect` (renderer.js:55-61): any pending timer is replaced by a new one. */
  function Reconnect(s: SocketState): Outcome
  {
    Outcome(s.(connected := false, pending := Cleared(s) + {s.nextTimer}, timeout := Some(s.nextTimer),
               nextTimer := s.nextTimer + 1), [])
  }

  /** The `onWebSocketMessage` handler (renderer.js:282-285). */
  function OnMessage(s: SocketState): Outcome
  {
    Outcome(s.(attempts := 0), [])
  }

  /** The `onWebSocketError` handler (renderer.js:287-291). */
  function OnError(s: SocketState): Outcome
  {
    Reconnect(s)
  }

  /** The `onWebSocketClose` handler (renderer.js:293-300). */
  function OnClose(s: SocketState): Outcome
  {
    if s.authenticated then Reconnect(s) else Cleanup(s)
  }

  /** The host firing timer `id`: a pending reconnect timer runs `connectWebSocket`; a cancelled one does nothing. */
  function Fire(s: SocketState, id: nat): Outcome
  {
    if id in s.pending then Connect(s.(pending := s.pending - {id})) else Outcome(s, [])
  }

  /** A successful authentication check (renderer.js:216-220, 313-317): the flag is set and a connection is requested. */
  function Login(s: SocketState): Outcome
  {
    Connect(s.(authenticated := true))
  }

  datatype Event = ConnectCall | TimerFired(id: nat) | Message | Error | Close | Unload | LoggedIn

  function Step(s: SocketState, e: Event): Outcome
  {
    match e
    case ConnectCall => Connect(s)
    case TimerFired(id) => Fire(s, id)
    case Message => OnMessage(s)
    case Error => OnError(s)
    case Close => OnClose(s)
    case Unload => Cleanup(s)
    case LoggedIn => Login(s)
  }

  function Run(s: SocketState, events: seq<Event>): Outcome
    decreases |events|
  {
    if events == [] then Outcome(s, [])
    else
      var o := Step(s, events[0]);
      var rest := Run(o.state, events[1..]);
      Outcome(rest.state, o.ipc + rest.ipc)
  }

  /**
   * The counter stays within the cap, and at most one reconnect timer is pending:
   * the one `reconnectTimeout` names.
   */
  ghost predicate Inv(s: SocketState)
  {
    && s.attempts <= MaxReconnectAttempts
    && (s.timeout.None? ==> s.pending == {})
    && (s.timeout.Some? ==> s.pending <= {s.timeout.value} && s.timeout.value < s.nextTimer)
  }

  lemma InitialInv()
    ensures Inv(Initial)
  {
  }

  lemma AtMostOneTimer(s: SocketState)
    requires Inv(s)
    ensures |s.pending| <= 1
  {
    if s.timeout.Some? {
      assert s.pending <= {s.timeout.value};
      if s.pending != {} {
        assert s.pending == {s.timeout.value};
      }
    }
  }

  /** Under the cap and not connected: one connection request, one more attempt. */
  lemma ConnectWhenIdle(s: SocketState)
    requires !s.connected && s.attempts < MaxReconnectAttempts
    ensures Connect(s) == Outcome(s.(connected := true, attempts := s.attempts + 1), [ConnectRequest])
  {
  }

  /** Under the cap and connected: nothing happens. */
  lemma ConnectWhenConnected(s: SocketState)
    requires s.connected && s.attempts < MaxReconnectAttempts
    ensures Connect(s) == Outcome(s, [])
  {
  }

  /** At the cap: the timer is cleared, the counter reset, the flag cleared and a disconnect requested. */
  lemma ConnectWhenExhausted(s: SocketState)
    requires s.attempts >= MaxReconnectAttempts
    ensures var o := Connect(s);
      && o.ipc == [DisconnectRequest]
      && o.state.attempts == 0 && !o.state.connected && o.state.timeout.None?
      && (s.timeout.Some? ==> s.timeout.value !in o.state.pending)
  {
  }

  /** A message resets the counter and touches nothing else. */
  lemma MessageResetsAttempts(s: SocketState)
    ensures OnMessage(s).state == s.(attempts := 0) && OnMessage(s).ipc == []
  {
  }

  /** An error clears the flag and replaces any pending reconnect timer with exactly one new one. */
  lemma ErrorReplacesTimer(s: SocketState)
    requires Inv(s)
    ensures var t := OnError(s).state;
      && !t.connected && t.attempts == s.attempts
      && t.timeout == Some(s.nextTimer) && t.pending == {s.nextTimer}
      && s.nextTimer !in s.pending
  {
  }

  /** A close reconnects when authenticated and cleans up otherwise. */
  lemma CloseReconnectsOrCleansUp(s: SocketState)
    ensures s.authenticated ==> OnClose(s) == Reconnect(s)
    ensures !s.authenticated ==> OnClose(s) == Cleanup(s) && OnClose(s).state.attempts == 0
  {
  }

  lemma StepKeepsInv(s: SocketState, e: Event)
    requires Inv(s)
    ensures Inv(Step(s, e).state)
  {
  }

  lemma {:induction false} RunKeepsInv(s: SocketState, events: seq<Event>)
    requires Inv(s)
    ensures Inv(Run(s, events).state)
    decreases |events|
  {
    if events != [] {
      StepKeepsInv(s, events[0]);
      RunKeepsInv(Step(s, events[0]).state, events[1..]);
    }
  }

  /** From page load, whatever happens, `reconnectAttempts` never exceeds `MAX_RECONNECT_ATTEMPTS`. */
  lemma AttemptsNeverExceedCap(events: seq<Event>)
    ensures Run(Initial, events).state.attempts <= MaxReconnectAttempts
  {
    RunKeepsInv(Initial, events);
  }

  /** An error followed by its timer retries once more while under the cap. */
  lemma ErrorThenTimerRetries(s: SocketState)
    requires Inv(s) && s.attempts < MaxReconnectAttempts
    ensures var o := Run(s, [Error, TimerFired(s.nextTimer)]);
      && o.ipc == [ConnectRequest]
      && o.state.connected && o.state.attempts == s.attempts + 1
      && o.state.pending == {}
  {
    var e := OnError(s);
    assert [Error, TimerFired(s.nextTimer)][1..] == [TimerFired(s.nextTimer)];
    assert Run(e.state, [TimerFired(s.nextTimer)]) == Outcome(Fire(e.state, s.nextTimer).state, Fire(e.state, s.nextTimer).ipc + []);
  }

  /** At the cap, the same error and timer give up: a disconnect is requested and the counter restarts. */
  lemma ErrorThenTimerGivesUpAtCap(s: SocketState)
    requires Inv(s) && s.attempts == MaxReconnectAttempts
    ensures var o := Run(s, [Error, TimerFired(s.nextTimer)]);
      && o.ipc == [DisconnectRequest]
      && !o.state.connected && o.state.attempts == 0
      && o.state.timeout.None?
  {
    var e := OnError(s);
    assert [Error, TimerFired(s.nextTimer)][1..] == [TimerFired(s.nextTimer)];
    assert Run(e.state, [TimerFired(s.nextTimer)]) == Outcome(Fire(e.state, s.nextTimer).state, Fire(e.state, s.nextTimer).ipc + []);
  }

  /** The renderer's module-level connection state and its handlers. */
  class SocketController {
    var isAuthenticated: bool
    var isWebSocketConnected: bool
    var reconnectAttempts: nat
    var reconnectTimeout: Option<nat>
    /** The host's pending timers. */
    var timers: set<nat>
    var nextTimer: nat
    /** The calls made into the preload bridge, in order. */
    var requests: seq<Ipc>

    function State(): SocketState
      reads this
    {
      SocketState(isAuthenticated, isWebSocketConnected, reconnectAttempts, reconnectTimeout, timers, nextTimer)
    }

    ghost predicate Valid()
      reads this
    {
      Inv(State())
    }

    constructor ()
      ensures Valid() && State() == Initial && requests == []
    {
      isAuthenticated := false;
      isWebSocketConnected := false;
      reconnectAttempts := 0;
      reconnectTimeout := None;
      timers := {};
      nextTimer := 1;
      requests := [];
    }

    method CleanupWebSocket()
      requires Valid()
      modifies this
      ensures Valid()
      ensures State() == Cleanup(old(State())).state && requests == old(requests) + Cleanup(old(State())).ipc
    {
      if reconnectTimeout.Some? {
        timers := timers - {reconnectTimeout.value};
        reconnectTimeout := None;
      }
      reconnectAttempts := 0;
      isWebSocketConnected := false;
      requests := requests + [DisconnectRequest];
    }

    method ConnectWebSocket()
      requires Valid()
      modifies this
      ensures Valid()
      ensures State() == Connect(old(State())).state && requests == old(requests) + Connect(old(State())).ipc
    {
      if !isWebSocketConnected && reconnectAttempts < MaxReconnectAttempts {
        requests := requests + [ConnectRequest];
        isWebSocketConnected := true;
        reconnectAttempts := reconnectAttempts + 1;
      } else if reconnectAttempts >= MaxReconnectAttempts {
        CleanupWebSocket();
      }
    }

    method HandleWebSocketReconnect()
      requires Valid()
      modifies this
      ensures Valid()
      ensures State() == Reconnect(old(State())).state && requests == old(requests)
    {
      isWebSocketConnected := false;
      if reconnectTimeout.Some? {
        timers := timers - {reconnectTimeout.value};
      }
      timers := timers + {nextTimer};
      reconnectTimeout := Some(nextTimer);
      nextTimer := nextTimer + 1;
    }

    method OnWebSocketMessage()
      requires Valid()
      modifies this
      ensures Valid()
      ensures State() == OnMessage(old(State())).state && requests == old(requests)
    {
      reconnectAttempts := 0;
    }

    method OnWebSocketError()
      requires Valid()
      modifies this
      ensures Valid()
      ensures State() == OnError(old(State())).state && requests == old(requests)
    {
      HandleWebSocketReconnect();
    }

    method OnWebSocketClose()
      requires Valid()
      modifies this
      ensures Valid()
      ensures State() == OnClose(old(State())).state && requests == old(requests) + OnClose(old(State())).ipc
    {
      if isAuthenticated {
        HandleWebSocketReconnect();
      } else {
        CleanupWebSocket();
      }
    }

    /** The host running timer `id`'s callback, if it is still pending. */
    method TimerCallback(id: nat)
      requires Valid()
      modifies this
      ensures Valid()
      ensures State() == Fire(old(State()), id).state && requests == old(requests) + Fire(old(State()), id).ipc
    {
      if id in timers {
        timers := timers - {id};
        ConnectWebSocket();
      }
    }

    /** The end of a successful authentication check. */
    method OnLoggedIn()
      requires Valid()
      modifies this
      ensures Valid()
      ensures State() == Login(old(State())).state && requests == old(requests) + Login(old(State())).ipc
    {
      isAuthenticated := true;
      ConnectWebSocket();
    }
  }
}
