/**
 * The credential cache and the validity check of the backend (main.py,
 * classes `CredentialManager` and `AuthManager`).
 *
 * A credential is reduced to the three facts the check reads (`valid`,
 * `expired`, whether it holds a refresh token) plus a token that tells one
 * credential from another. The outcome of `creds.refresh(...)` against the
 * identity provider is an input. Each `async with` section is one atomic step.
 */
module Auth {
  import opened Wrappers

  type ClientId = string
  type Store = map<ClientId, Credential>

  datatype Credential = Credential(token: string, valid: bool, expired: bool, hasRefreshToken: bool)

  /** What `creds.refresh(request)` does: renew the credential, or raise. */
  datatype RefreshOutcome = Refreshed(renewed: Credential) | RefreshError

  /** The value returned by one `get_valid_credentials` call and the state it leaves. */
  datatype Resolution = Resolution(result: Option<Credential>, store: Store, locks: set<ClientId>)

  /** `dict.get`. */
  function Lookup(store: Store, client: ClientId): Option<Credential>
  {
    if client in store then Some(store[client]) else None
  }

  /** The guard at main.py:243: only an expired credential with a refresh token is refreshed. */
  predicate Refreshable(c: Credential)
  {
    c.expired && c.hasRefreshToken
  }

  /** `get_valid_credentials` (main.py:228-256) on an explicit state. */
  function GetValid(store: Store, locks: set<ClientId>, client: ClientId, refresh: RefreshOutcome): Resolution
  {
    match Lookup(store, client)
    case None => Resolution(None, store, locks)
    case Some(c) =>
      if c.valid then Resolution(Some(c), store, locks)
      else if Refreshable(c) then
        match refresh
        case Refreshed(n) => Resolution(Some(n), store[client := n], locks + {client})
        case RefreshError => Resolution(None, store - {client}, locks + {client})
      else Resolution(Some(c), store, locks + {client})
  }

  // ---------------------------------------------------------------------
  // Properties of get_valid_credentials

  /** A lookup never adds a client to the store: it only replaces or evicts this client's entry. */
  lemma LookupAddsNoClient(store: Store, locks: set<ClientId>, client: ClientId, refresh: RefreshOutcome)
    ensures GetValid(store, locks, client, refresh).store.Keys <= store.Keys
  {
  }

  /** No stored credential: `None`, and nothing changes. */
  lemma MissingCredentialGivesNone(store: Store, locks: set<ClientId>, client: ClientId, refresh: RefreshOutcome)
    requires client !in store
    ensures GetValid(store, locks, client, refresh) == Resolution(None, store, locks)
  {
  }

  /** A valid credential is returned as stored, with no refresh and no new lock. */
  lemma ValidCredentialUnchanged(store: Store, locks: set<ClientId>, client: ClientId, refresh: RefreshOutcome)
    requires client in store && store[client].valid
    ensures GetValid(store, locks, client, refresh) == Resolution(Some(store[client]), store, locks)
  {
  }

  /** The refresh outcome matters only for an invalid, expired, refreshable credential. */
  lemma RefreshOnlyWhenNeeded(store: Store, locks: set<ClientId>, client: ClientId, r1: RefreshOutcome, r2: RefreshOutcome)
    requires client !in store || store[client].valid || !Refreshable(store[client])
    ensures GetValid(store, locks, client, r1) == GetValid(store, locks, client, r2)
  {
  }

  /**
   * The lock table only grows, gains at most this client, and gains it exactly when a
   * stored credential is invalid.
   */
  lemma LockTableOnlyGrows(store: Store, locks: set<ClientId>, client: ClientId, refresh: RefreshOutcome)
    ensures var res := GetValid(store, locks, client, refresh);
      && locks <= res.locks <= locks + {client}
      && (client in res.locks <==> client in locks || (client in store && !store[client].valid))
  {
  }

  /** A successful refresh is stored back and returned. */
  lemma RefreshSucceeds(store: Store, locks: set<ClientId>, client: ClientId, renewed: Credential)
    requires client in store && !store[client].valid && Refreshable(store[client])
    ensures GetValid(store, locks, client, Refreshed(renewed))
            == Resolution(Some(renewed), store[client := renewed], locks + {client})
  {
  }

  /** A failed refresh evicts the client's credential, and only it, and returns `None`. */
  lemma RefreshFails(store: Store, locks: set<ClientId>, client: ClientId)
    requires client in store && !store[client].valid && Refreshable(store[client])
    ensures var res := GetValid(store, locks, client, RefreshError);
      && res.result == None
      && res.store.Keys == store.Keys - {client}
      && (forall k :: k in res.store ==> res.store[k] == store[k])
  {
  }

  /** An invalid credential that is not refreshable is returned as is and stays stored. */
  lemma UnrefreshableInvalidKept(store: Store, locks: set<ClientId>, client: ClientId, refresh: RefreshOutcome)
    requires client in store && !store[client].valid && !Refreshable(store[client])
    ensures var res := GetValid(store, locks, client, refresh);
      res.result == Some(store[client]) && res.store == store
  {
  }

  /**
   * A caller that runs after a successful refresh to a valid credential gets that
   * credential without refreshing again, whatever a refresh would have done.
   */
  lemma SecondCallAfterRefreshReusesIt(store: Store, locks: set<ClientId>, client: ClientId, renewed: Credential, refresh: RefreshOutcome)
    requires client in store && !store[client].valid && Refreshable(store[client])
    requires renewed.valid
    ensures var first := GetValid(store, locks, client, Refreshed(renewed));
      var second := GetValid(first.store, first.locks, client, refresh);
      second == Resolution(Some(renewed), first.store, first.locks)
  {
  }

  /** Only the refreshed client's entry changes; every other entry survives any call. */
  lemma OtherClientsUntouched(store: Store, locks: set<ClientId>, client: ClientId, refresh: RefreshOutcome, other: ClientId)
    requires other != client
    ensures var res := GetValid(store, locks, client, refresh);
      Lookup(res.store, other) == Lookup(store, other)
  {
  }

  // ---------------------------------------------------------------------
  // The objects

  /** `CredentialManager` (main.py:206-221): a plain map behind a lock. */
  class CredentialManager {
    var credentials: Store

    constructor ()
      ensures credentials == map[]
    {
      credentials := map[];
    }

    /** `store`: overwrites this client's entry; other entries are untouched. */
    method Put(client: ClientId, c: Credential)
      modifies this
      ensures credentials == old(credentials)[client := c]
    {
      credentials := credentials[client := c];
    }

    /** `get`. */
    method Get(client: ClientId) returns (r: Option<Credential>)
      ensures r.Some? <==> client in credentials
      ensures r.Some? ==> r.value == credentials[client]
    {
      if client in credentials {
        r := Some(credentials[client]);
      } else {
        r := None;
      }
    }

    /** `remove`: `pop(client_id, None)`, so removing an absent client is harmless. */
    method Remove(client: ClientId)
      modifies this
      ensures credentials == old(credentials) - {client}
    {
      credentials := credentials - {client};
    }
  }

  /** `AuthManager` (main.py:223-256): its own `CredentialManager` and the refresh-lock table. */
  class AuthManager {
    const credentialManager: CredentialManager
    /** The keys of `_refresh_locks`; the locks themselves are not modelled. */
    var refreshLocks: set<ClientId>

    constructor ()
      ensures fresh(credentialManager)
      ensures credentialManager.credentials == map[] && refreshLocks == {}
    {
      credentialManager := new CredentialManager();
      refreshLocks := {};
    }

    /** `get_valid_credentials`, with the outcome of a refresh as an input. */
    method GetValidCredentials(client: ClientId, refresh: RefreshOutcome) returns (r: Option<Credential>)
      modifies this, credentialManager
      ensures var res := GetValid(old(credentialManager.credentials), old(refreshLocks), client, refresh);
        && r == res.result
        && credentialManager.credentials == res.store
        && refreshLocks == res.locks
    {
      var creds := credentialManager.Get(client);
      if creds.None? {
        return None;
      }
      var c := creds.value;
      if !c.valid {
        if client !in refreshLocks {
          refreshLocks := refreshLocks + {client};
        }
        if c.expired && c.hasRefreshToken {
          match refresh
          case Refreshed(n) =>
            c := n;
            credentialManager.Put(client, c);
          case RefreshError =>
            credentialManager.Remove(client);
            return None;
        }
      }
      return Some(c);
    }
  }
}
