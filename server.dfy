/**
 * The request handlers of the backend (main.py) that tie the pieces together:
 * the module-level instances, `auth_callback`, the `get_credentials`
 * dependency, `download_video` and `start_download`.
 *
 * The outcome of the OAuth code exchange, of each data API lookup, of the folder
 * creation and of the download itself are inputs; so are the times at which the
 * progress hook is called and the connections whose `send_text` fails.
 */
module Server {
  import opened Wrappers
  import opened Messages
  import Hub = ProgressHub
  import Auth
  import Throttle
  import Batch

  /** What `flow.fetch_token(code=code)` produced. */
  datatype Exchange = Granted(credential: Auth.Credential) | ExchangeFailed(message: string)

  /** The answer of `/auth/callback`: success with the `client_id` cookie, or an HTTP error status. */
  datatype CallbackReply = Authenticated(cookieClientId: string) | CallbackFailed(status: int)

  /** What `yt_dlp` did with the URL once the hook had been called. */
  datatype DownloadOutcome = Completed | DownloadRaised(message: string)

  /** The answer of `/start-download`. */
  datatype StartReply = Started(totalVideos: nat, tasks: seq<Batch.Task>) | StartFailed(status: int)

  /** The three module-level instances of main.py:259-261. */
  class Backend {
    const manager: Hub.WebSocketManager
    const credentialManager: Auth.CredentialManager
    const authManager: Auth.AuthManager

    /** The hub is well formed and the two credential stores are different objects. */
    ghost predicate Valid()
      reads manager
    {
      manager.Valid() && credentialManager != authManager.credentialManager
    }

    constructor ()
      ensures Valid()
      ensures fresh(manager) && fresh(credentialManager) && fresh(authManager) && fresh(authManager.credentialManager)
      ensures manager.activeConnections == map[] && manager.outbox == []
      ensures credentialManager.credentials == map[]
      ensures authManager.credentialManager.credentials == map[] && authManager.refreshLocks == {}
    {
      manager := new Hub.WebSocketManager();
      credentialManager := new Auth.CredentialManager();
      authManager := new Auth.AuthManager();
    }

    /**
     * `auth_callback` as written (main.py:407-445): the credential goes into the
     * module-level `credential_manager`. Every failure, including the 401 raised
     * for a missing client id inside the `try`, leaves as a 500.
     */
    method AuthCallback(stateClientId: Option<string>, exchange: Exchange) returns (r: CallbackReply)
      requires Valid()
      modifies credentialManager
      ensures Valid()
      ensures (Batch.Truthy(stateClientId) && exchange.Granted?) <==> r.Authenticated?
      ensures r.Authenticated? ==> r.cookieClientId == stateClientId.value
      ensures r.CallbackFailed? ==> r.status == 500
      ensures credentialManager.credentials
              == if r.Authenticated? then old(credentialManager.credentials)[stateClientId.value := exchange.credential]
                 else old(credentialManager.credentials)
      ensures authManager.credentialManager.credentials == old(authManager.credentialManager.credentials)
      ensures authManager.refreshLocks == old(authManager.refreshLocks)
    {
      if !Batch.Truthy(stateClientId) {
        return CallbackFailed(500);
      }
      var clientId := stateClientId.value;
      match exchange
      case ExchangeFailed(_) =>
        return CallbackFailed(500);
      case Granted(c) =>
        credentialManager.Put(clientId, c);
        return Authenticated(clientId);
    }

    /** `auth_callback` storing where `get_valid_credentials` looks: `auth_manager.credential_manager`. */
    method AuthCallbackFixed(stateClientId: Option<string>, exchange: Exchange) returns (r: CallbackReply)
      requires Valid()
      modifies authManager.credentialManager
      ensures Valid()
      ensures (Batch.Truthy(stateClientId) && exchange.Granted?) <==> r.Authenticated?
      ensures r.Authenticated? ==> r.cookieClientId == stateClientId.value
      ensures r.CallbackFailed? ==> r.status == 500
      ensures authManager.credentialManager.credentials
              == if r.Authenticated? then old(authManager.credentialManager.credentials)[stateClientId.value := exchange.credential]
                 else old(authManager.credentialManager.credentials)
    {
      if !Batch.Truthy(stateClientId) {
        return CallbackFailed(500);
      }
      var clientId := stateClientId.value;
      match exchange
      case ExchangeFailed(_) =>
        return CallbackFailed(500);
      case Granted(c) =>
        authManager.credentialManager.Put(clientId, c);
        return Authenticated(clientId);
    }

    /** The `get_credentials` dependency (main.py:275-283): 401 without a cookie or without credentials. */
    method GetCredentials(cookie: Option<string>, refresh: Auth.RefreshOutcome) returns (r: Result<Auth.Credential, int>)
      requires Valid()
      modifies authManager, authManager.credentialManager
      ensures Valid()
      ensures !Batch.Truthy(cookie) ==>
        r == Err(401)
        && authManager.credentialManager.credentials == old(authManager.credentialManager.credentials)
        && authManager.refreshLocks == old(authManager.refreshLocks)
      ensures Batch.Truthy(cookie) ==>
        var res := Auth.GetValid(old(authManager.credentialManager.credentials), old(authManager.refreshLocks), cookie.value, refresh);
        && r == (if res.result.Some? then Ok(res.result.value) else Err(401))
        && authManager.credentialManager.credentials == res.store
        && authManager.refreshLocks == res.locks
    {
      if !Batch.Truthy(cookie) {
        return Err(401);
      }
      var creds := authManager.GetValidCredentials(cookie.value, refresh);
      if creds.None? {
        return Err(401);
      }
      return Ok(creds.value);
    }

    /**
     * `download_video` (main.py:285-313): a `ProgressManager` created at `start`
     * whose hook is called at each of `calls`; if the download raises, the error
     * is broadcast to the client. Returns the progress messages the hook scheduled.
     */
    method DownloadVideo(clientId: string, videoId: string, start: int, calls: seq<Throttle.Call>,
                         outcome: DownloadOutcome, failing: set<Hub.ConnId>)
      returns (scheduled: seq<ProgressMessage>)
      requires Valid()
      modifies manager
      ensures Valid()
      ensures scheduled == Throttle.Run(videoId, start, calls).emitted
      ensures outcome.Completed? ==>
        manager.activeConnections == old(manager.activeConnections) && manager.outbox == old(manager.outbox)
      ensures outcome.DownloadRaised? ==>
        var m := Failed(videoId, outcome.message);
        && manager.activeConnections == Hub.Pruned(old(manager.activeConnections), clientId, failing)
        && manager.outbox == old(manager.outbox) + Hub.Sends(clientId, Hub.Listed(old(manager.activeConnections), clientId), m, failing)
    {
      var pm := new Throttle.ProgressManager(manager, clientId, videoId, start);
      CallHook(pm, calls);
      scheduled := pm.scheduled;
      if outcome.DownloadRaised? {
        manager.BroadcastToClient(clientId, Failed(videoId, outcome.message), failing);
      }
    }

    /**
     * `start_download` (main.py:534-611) up to launching its tasks: credentials
     * first (the dependency), then the folder, then the data API client, then
     * the URL list; any exception after the credentials becomes a 500.
     */
    method StartDownload(cookie: Option<string>, refresh: Auth.RefreshOutcome, req: Batch.DownloadRequest,
                         folderCreated: bool, serviceBuilt: bool, search: Batch.Lookup<Batch.SearchItem>,
                         playlist: Batch.Lookup<Batch.PlaylistItem>, activities: Batch.Lookup<Batch.ActivityItem>)
      returns (r: StartReply)
      requires Valid()
      modifies authManager, authManager.credentialManager
      ensures Valid()
      ensures !Batch.Truthy(cookie) ==>
        && authManager.credentialManager.credentials == old(authManager.credentialManager.credentials)
        && authManager.refreshLocks == old(authManager.refreshLocks)
      ensures Batch.Truthy(cookie) ==>
        var res := Auth.GetValid(old(authManager.credentialManager.credentials), old(authManager.refreshLocks), cookie.value, refresh);
        && authManager.credentialManager.credentials == res.store
        && authManager.refreshLocks == res.locks
      ensures var authorised := Batch.Truthy(cookie)
                && Auth.GetValid(old(authManager.credentialManager.credentials), old(authManager.refreshLocks), cookie.value, refresh).result.Some?;
        && (!authorised ==> r == StartFailed(401))
        && (authorised && !folderCreated ==> r == StartFailed(500))
        && (authorised && folderCreated && !serviceBuilt ==> r == StartFailed(500))
        && (authorised && folderCreated && serviceBuilt ==>
              var urls := Batch.CollectVideoUrls(req, search, playlist, activities);
              && (urls.Err? ==> r == StartFailed(500))
              && (urls.Ok? ==>
                    && r.Started?
                    && r.totalVideos == |urls.value|
                    && |r.tasks| == |urls.value|
                    && forall i :: 0 <= i < |urls.value| ==>
                         r.tasks[i] == Batch.Task(urls.value[i], req.folder, Batch.VideoId(i + 1), cookie.value)))
    {
      var creds := GetCredentials(cookie, refresh);
      if creds.Err? {
        return StartFailed(401);
      }
      var clientId := cookie.value;
      if !folderCreated {
        return StartFailed(500);
      }
      if !serviceBuilt {
        return StartFailed(500);
      }
      var urls := Batch.CollectVideoUrls(req, search, playlist, activities);
      if urls.Err? {
        return StartFailed(500);
      }
      var tasks := Batch.LaunchTasks(urls.value, req.folder, clientId);
      return Started(|urls.value|, tasks);
    }
  }

  /** `yt_dlp` calling the progress hook once for each of `calls`, in order. */
  method CallHook(pm: Throttle.ProgressManager, calls: seq<Throttle.Call>)
    modifies pm
    ensures pm.scheduled == old(pm.scheduled) + Throttle.Run(pm.videoId, old(pm.lastUpdate), calls).emitted
    ensures pm.lastUpdate == Throttle.Run(pm.videoId, old(pm.lastUpdate), calls).lastUpdate
  {
    var i := 0;
    while i < |calls|
      invariant 0 <= i <= |calls|
      invariant pm.scheduled + Throttle.Run(pm.videoId, pm.lastUpdate, calls[i..]).emitted
                == old(pm.scheduled) + Throttle.Run(pm.videoId, old(pm.lastUpdate), calls).emitted
      invariant Throttle.Run(pm.videoId, pm.lastUpdate, calls[i..]).lastUpdate
                == Throttle.Run(pm.videoId, old(pm.lastUpdate), calls).lastUpdate
    {
      assert calls[i..][1..] == calls[i + 1..];
      pm.Hook(calls[i].at, calls[i].event);
      i := i + 1;
    }
    assert calls[i..] == [];
  }

  /**
   * The credential a successful callback stores is never seen by the code that
   * reads credentials: right after a login, `get_valid_credentials` answers None.
   */
  method LoginThenLookup(clientId: string, c: Auth.Credential, refresh: Auth.RefreshOutcome)
    returns (reply: CallbackReply, r: Option<Auth.Credential>)
    requires clientId != ""
    ensures reply == Authenticated(clientId)
    ensures r == None
  {
    var backend := new Backend();
    reply := backend.AuthCallback(Some(clientId), Granted(c));
    r := backend.authManager.GetValidCredentials(clientId, refresh);
  }

  /**
   * The same on any backend, after any history: a login for a client that the
   * store of `auth_manager` does not hold leaves the lookup answering None. That
   * store starts empty and no lookup adds a client to it (`Auth.LookupAddsNoClient`),
   * so it never holds one.
   */
  method AnyLoginThenLookup(backend: Backend, clientId: string, c: Auth.Credential, refresh: Auth.RefreshOutcome)
    returns (reply: CallbackReply, r: Option<Auth.Credential>)
    requires backend.Valid() && clientId != ""
    requires clientId !in backend.authManager.credentialManager.credentials
    modifies backend.credentialManager, backend.authManager, backend.authManager.credentialManager
    ensures reply == Authenticated(clientId)
    ensures r == None
    ensures clientId !in backend.authManager.credentialManager.credentials
  {
    reply := backend.AuthCallback(Some(clientId), Granted(c));
    r := backend.authManager.GetValidCredentials(clientId, refresh);
  }

  /** With the callback storing into the store that is read, a valid credential is found right after login. */
  method LoginThenLookupFixed(clientId: string, c: Auth.Credential, refresh: Auth.RefreshOutcome)
    returns (reply: CallbackReply, r: Option<Auth.Credential>)
    requires clientId != "" && c.valid
    ensures reply == Authenticated(clientId)
    ensures r == Some(c)
  {
    var backend := new Backend();
    reply := backend.AuthCallbackFixed(Some(clientId), Granted(c));
    r := backend.authManager.GetValidCredentials(clientId, refresh);
  }
}
