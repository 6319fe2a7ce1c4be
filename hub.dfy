/**
 * The observer registry of the backend (main.py, class `WebSocketManager`):
 * client id to the list of that client's open WebSocket connections,
 * with connect, disconnect and a best-effort broadcast that prunes the
 * connections whose send failed.
 *
 * Each `async with self._lock` section is one atomic step. A connection is
 * an opaque handle compared by identity, as Python's `list.remove` compares
 * WebSocket objects. Which sends fail is an input of `BroadcastToClient`.
 */
module ProgressHub {
  import opened Messages

  type ClientId = string
  type ConnId = nat
  type Registry = map<ClientId, seq<ConnId>>

  /** One `send_text` attempt and whether it succeeded. */
  datatype Send = Send(client: ClientId, conn: ConnId, message: ProgressMessage, delivered: bool)

  /** No client is registered with an empty list. */
  ghost predicate NoEmptyLists(m: Registry)
  {
    forall c :: c in m ==> m[c] != []
  }

  /** The list registered for `client`; absent reads as empty. */
  function Listed(m: Registry, client: ClientId): seq<ConnId>
  {
    if client in m then m[client] else []
  }

  /** Number of entries of `conn` in `s`. */
  function Count(s: seq<ConnId>, conn: ConnId): nat
  {
    multiset(s)[conn]
  }

  /** Index of the first entry of `conn` in `s`. */
  function FirstIndex(s: seq<ConnId>, conn: ConnId): (i: nat)
    requires conn in s
    ensures i < |s| && s[i] == conn && conn !in s[..i]
  {
    if s[0] == conn then 0 else 1 + FirstIndex(s[1..], conn)
  }

  /** Python's `list.remove`: drops the first entry of `conn`, if there is one. */
  function RemoveFirst(s: seq<ConnId>, conn: ConnId): (r: seq<ConnId>)
    ensures |r| == if conn in s then |s| - 1 else |s|
  {
    if conn in s then
      var i := FirstIndex(s, conn);
      s[..i] + s[i + 1..]
    else s
  }

  /** `list.remove` takes away exactly one entry of the connection. */
  lemma RemoveFirstCount(s: seq<ConnId>, conn: ConnId)
    requires conn in s
    ensures multiset(RemoveFirst(s, conn)) == multiset(s) - multiset{conn}
  {
    var i := FirstIndex(s, conn);
    assert s == s[..i] + [conn] + s[i + 1..];
  }

  /** The registry with `client`'s list set to `l`, the key dropped when `l` is empty. */
  function WithList(m: Registry, client: ClientId, l: seq<ConnId>): Registry
  {
    if l == [] then m - {client} else m[client := l]
  }

  /** State after `connect` (main.py:172-177). */
  function Registered(m: Registry, client: ClientId, conn: ConnId): Registry
  {
    m[client := Listed(m, client) + [conn]]
  }

  /**
   * State after `disconnect` (main.py:180-188): an unknown client, or a
   * connection not in the list (the `ValueError` the code swallows), leaves
   * the registry as it is.
   */
  function Unregistered(m: Registry, client: ClientId, conn: ConnId): Registry
  {
    if client in m && conn in m[client]
    then WithList(m, client, RemoveFirst(m[client], conn))
    else m
  }

  /** `disconnect(d, client)` for each `d` of `ds` in turn. */
  function UnregisteredEach(m: Registry, client: ClientId, ds: seq<ConnId>): Registry
    decreases |ds|
  {
    if ds == [] then m else UnregisteredEach(Unregistered(m, client, ds[0]), client, ds[1..])
  }

  /** The entries of `s` whose send fails, in list order (the `disconnected` list). */
  function Failing(s: seq<ConnId>, failing: set<ConnId>): seq<ConnId>
  {
    if s == [] then []
    else (if s[0] in failing then [s[0]] else []) + Failing(s[1..], failing)
  }

  /** The entries of `s` whose send succeeds, in list order. */
  function Surviving(s: seq<ConnId>, failing: set<ConnId>): seq<ConnId>
  {
    if s == [] then []
    else (if s[0] in failing then [] else [s[0]]) + Surviving(s[1..], failing)
  }

  /** One send per entry of `s`, in list order. */
  function Sends(client: ClientId, s: seq<ConnId>, message: ProgressMessage, failing: set<ConnId>): seq<Send>
  {
    if s == [] then []
    else [Send(client, s[0], message, s[0] !in failing)] + Sends(client, s[1..], message, failing)
  }

  /** State after `broadcast_to_client` (main.py:191-204), stated without the loops. */
  function Pruned(m: Registry, client: ClientId, failing: set<ConnId>): Registry
  {
    if client in m && Failing(m[client], failing) != []
    then WithList(m, client, Surviving(m[client], failing))
    else m
  }

  // ---------------------------------------------------------------------
  // Properties of connect and disconnect

  /** `connect` appends, creating the list when the client has none; other clients are untouched. */
  lemma ConnectAppends(m: Registry, client: ClientId, conn: ConnId)
    ensures var m' := Registered(m, client, conn);
      && m'.Keys == m.Keys + {client}
      && m'[client] == Listed(m, client) + [conn]
      && Count(m'[client], conn) == Count(Listed(m, client), conn) + 1
      && (forall k :: k in m && k != client ==> m'[k] == m[k])
  {
  }

  /** Registering the same connection twice leaves two entries. */
  lemma ConnectTwiceGivesTwoEntries(m: Registry, client: ClientId, conn: ConnId)
    requires client !in m
    ensures Registered(Registered(m, client, conn), client, conn)[client] == [conn, conn]
  {
  }

  /** `disconnect` removes one entry of the connection and drops a client whose list empties. */
  lemma DisconnectRemovesFirst(m: Registry, client: ClientId, conn: ConnId)
    requires client in m && conn in m[client]
    ensures var m' := Unregistered(m, client, conn);
      var i := FirstIndex(m[client], conn);
      && (client in m' <==> |m[client]| > 1)
      && (client in m' ==> m'[client] == m[client][..i] + m[client][i + 1..])
      && (client in m' ==> Count(m'[client], conn) == Count(m[client], conn) - 1)
      && (forall k :: k in m && k != client ==> k in m' && m'[k] == m[k])
  {
    RemoveFirstCount(m[client], conn);
  }

  /** An unknown client or connection leaves the registry unchanged. */
  lemma DisconnectUnknownNoChange(m: Registry, client: ClientId, conn: ConnId)
    requires client !in m || conn !in m[client]
    ensures Unregistered(m, client, conn) == m
  {
  }

  /** connect and disconnect keep the no-empty-list invariant. */
  lemma RegistryStepsKeepNoEmptyLists(m: Registry, client: ClientId, conn: ConnId, failing: set<ConnId>)
    requires NoEmptyLists(m)
    ensures NoEmptyLists(Registered(m, client, conn))
    ensures NoEmptyLists(Unregistered(m, client, conn))
    ensures NoEmptyLists(Pruned(m, client, failing))
  {
  }

  // ---------------------------------------------------------------------
  // Properties of broadcast

  /** A connection survives a broadcast exactly when its send succeeds. */
  lemma {:induction false} SurvivingMembership(s: seq<ConnId>, failing: set<ConnId>, conn: ConnId)
    ensures conn in Surviving(s, failing) <==> conn in s && conn !in failing
    ensures conn in Failing(s, failing) <==> conn in s && conn in failing
  {
    if s != [] {
      SurvivingMembership(s[1..], failing, conn);
      assert s == [s[0]] + s[1..];
    }
  }

  /** Every entry is sent the message once, in list order; delivery fails exactly for `failing`. */
  lemma {:induction false} SendsFollowList(client: ClientId, s: seq<ConnId>, message: ProgressMessage, failing: set<ConnId>)
    ensures |Sends(client, s, message, failing)| == |s|
    ensures forall i :: 0 <= i < |s| ==>
              Sends(client, s, message, failing)[i] == Send(client, s[i], message, s[i] !in failing)
  {
    if s != [] {
      SendsFollowList(client, s[1..], message, failing);
    }
  }

  lemma {:induction false} FailingAppend(a: seq<ConnId>, b: seq<ConnId>, failing: set<ConnId>)
    ensures Failing(a + b, failing) == Failing(a, failing) + Failing(b, failing)
  {
    if a != [] {
      assert (a + b)[0] == a[0];
      assert (a + b)[1..] == a[1..] + b;
      FailingAppend(a[1..], b, failing);
    } else {
      assert a + b == b;
    }
  }

  lemma {:induction false} SendsAppend(client: ClientId, a: seq<ConnId>, b: seq<ConnId>, message: ProgressMessage, failing: set<ConnId>)
    ensures Sends(client, a + b, message, failing) == Sends(client, a, message, failing) + Sends(client, b, message, failing)
  {
    if a != [] {
      assert (a + b)[0] == a[0];
      assert (a + b)[1..] == a[1..] + b;
      SendsAppend(client, a[1..], b, message, failing);
    } else {
      assert a + b == b;
    }
  }

  /** `list.remove` skips a prefix that does not hold the connection. */
  lemma RemoveFirstAfterPrefix(p: seq<ConnId>, conn: ConnId, rest: seq<ConnId>)
    requires conn !in p
    ensures RemoveFirst(p + [conn] + rest, conn) == p + rest
  {
    var s := p + [conn] + rest;
    assert s[|p|] == conn;
    assert s[..|p|] == p && s[|p| + 1..] == rest;
  }

  lemma WithListTwice(m: Registry, client: ClientId, l: seq<ConnId>, l': seq<ConnId>)
    ensures WithList(WithList(m, client, l), client, l') == WithList(m, client, l')
  {
  }

  /**
   * Disconnecting the failing entries one by one, in list order, leaves exactly
   * the surviving ones after the kept prefix `p`.
   */
  lemma {:induction false} UnregisterFailingKeepsSurvivors(m: Registry, client: ClientId, p: seq<ConnId>, s: seq<ConnId>, failing: set<ConnId>)
    requires forall k :: 0 <= k < |p| ==> p[k] !in failing
    ensures UnregisteredEach(WithList(m, client, p + s), client, Failing(s, failing))
            == WithList(m, client, p + Surviving(s, failing))
    decreases |s|
  {
    if s == [] {
      assert p + s == p;
      assert p + Surviving(s, failing) == p;
    } else if s[0] in failing {
      DropFailingHead(m, client, p, s, failing);
      UnregisterFailingKeepsSurvivors(m, client, p, s[1..], failing);
    } else {
      KeepSurvivingHead(p, s, failing);
      UnregisterFailingKeepsSurvivors(m, client, p + [s[0]], s[1..], failing);
    }
  }

  /** A failing head entry is the first disconnected, and `list.remove` takes exactly it. */
  lemma {:induction false} DropFailingHead(m: Registry, client: ClientId, p: seq<ConnId>, s: seq<ConnId>, failing: set<ConnId>)
    requires forall k :: 0 <= k < |p| ==> p[k] !in failing
    requires s != [] && s[0] in failing
    ensures UnregisteredEach(WithList(m, client, p + s), client, Failing(s, failing))
            == UnregisteredEach(WithList(m, client, p + s[1..]), client, Failing(s[1..], failing))
    ensures Surviving(s, failing) == Surviving(s[1..], failing)
  {
    var x := s[0];
    assert x !in p;
    var l := p + s;
    assert l == p + [x] + s[1..];
    RemoveFirstAfterPrefix(p, x, s[1..]);
    WithListTwice(m, client, l, p + s[1..]);
    assert Unregistered(WithList(m, client, l), client, x) == WithList(m, client, p + s[1..]);
    var rest := Failing(s[1..], failing);
    assert Failing(s, failing) == [x] + rest;
    assert ([x] + rest)[1..] == rest;
  }

  /** A surviving head entry moves into the kept prefix. */
  lemma {:induction false} KeepSurvivingHead(p: seq<ConnId>, s: seq<ConnId>, failing: set<ConnId>)
    requires s != [] && s[0] !in failing
    ensures p + s == (p + [s[0]]) + s[1..]
    ensures Failing(s, failing) == Failing(s[1..], failing)
    ensures p + Surviving(s, failing) == (p + [s[0]]) + Surviving(s[1..], failing)
  {
    var x := s[0];
    var t := s[1..];
    assert s == [x] + t;
    assert p + ([x] + t) == (p + [x]) + t;
    assert Failing(s, failing) == [] + Failing(t, failing);
    assert Surviving(s, failing) == [x] + Surviving(t, failing);
    assert p + ([x] + Surviving(t, failing)) == (p + [x]) + Surviving(t, failing);
  }

  /**
   * The two loops of `broadcast_to_client` — collect the failing connections,
   * then disconnect each — amount to `Pruned`.
   */
  lemma UnregisterFailingIsPruned(m: Registry, client: ClientId, failing: set<ConnId>)
    ensures UnregisteredEach(m, client, Failing(Listed(m, client), failing)) == Pruned(m, client, failing)
  {
    if client in m && Failing(m[client], failing) != [] {
      SurvivingMembership(m[client], failing, Failing(m[client], failing)[0]);
      assert m[client] != [];
      assert [] + m[client] == m[client];
      assert m[client := m[client]] == m;
      UnregisterFailingKeepsSurvivors(m, client, [], m[client], failing);
      assert [] + Surviving(m[client], failing) == Surviving(m[client], failing);
    }
  }

  /** Broadcast: exactly the connections whose send failed are gone; the rest remain in order. */
  lemma BroadcastPrunesExactlyFailing(m: Registry, client: ClientId, failing: set<ConnId>, conn: ConnId)
    requires NoEmptyLists(m)
    requires client in m
    ensures var m' := Pruned(m, client, failing);
      && (conn in Listed(m', client) <==> conn in m[client] && conn !in failing)
      && Listed(m', client) == Surviving(m[client], failing)
      && (forall k :: k != client ==> (k in m' <==> k in m) && (k in m ==> m'[k] == m[k]))
  {
    SurvivingMembership(m[client], failing, conn);
    if Failing(m[client], failing) == [] {
      SurvivorsWhenNoneFail(m[client], failing);
    }
  }

  lemma {:induction false} SurvivorsWhenNoneFail(s: seq<ConnId>, failing: set<ConnId>)
    requires Failing(s, failing) == []
    ensures Surviving(s, failing) == s
  {
    if s != [] {
      SurvivorsWhenNoneFail(s[1..], failing);
      assert s == [s[0]] + s[1..];
    }
  }

  /** Broadcast to a client with no entry sends nothing and changes nothing. */
  lemma BroadcastToUnknownClient(m: Registry, client: ClientId, message: ProgressMessage, failing: set<ConnId>)
    requires client !in m
    ensures Pruned(m, client, failing) == m
    ensures Sends(client, Listed(m, client), message, failing) == []
  {
  }

  // ---------------------------------------------------------------------
  // The registry object

  class WebSocketManager {
    var activeConnections: Registry
    /** Every `send_text` attempted, in order, with its outcome. */
    ghost var outbox: seq<Send>

    ghost predicate Valid()
      reads this
    {
      NoEmptyLists(activeConnections)
    }

    constructor ()
      ensures Valid()
      ensures activeConnections == map[] && outbox == []
    {
      activeConnections := map[];
      outbox := [];
    }

    /** `connect` (main.py:172-177); the `websocket.accept()` handshake is not modelled. */
    method Connect(conn: ConnId, client: ClientId)
      requires Valid()
      modifies this
      ensures Valid()
      ensures activeConnections == Registered(old(activeConnections), client, conn)
      ensures outbox == old(outbox)
    {
      if client !in activeConnections {
        activeConnections := activeConnections[client := []];
      }
      activeConnections := activeConnections[client := activeConnections[client] + [conn]];
    }

    /** `disconnect` (main.py:180-188). */
    method Disconnect(conn: ConnId, client: ClientId)
      requires Valid()
      modifies this
      ensures Valid()
      ensures activeConnections == Unregistered(old(activeConnections), client, conn)
      ensures outbox == old(outbox)
    {
      if client in activeConnections {
        var l := activeConnections[client];
        if conn in l {
          l := RemoveFirst(l, conn);
          activeConnections := activeConnections[client := l];
          if l == [] {
            activeConnections := activeConnections - {client};
          }
        }
      }
    }

    /**
     * `broadcast_to_client` (main.py:191-204): one send per listed connection,
     * in list order, then a `disconnect` for each failed one.
     */
    method BroadcastToClient(client: ClientId, message: ProgressMessage, failing: set<ConnId>)
      requires Valid()
      modifies this
      ensures Valid()
      ensures activeConnections == Pruned(old(activeConnections), client, failing)
      ensures outbox == old(outbox) + Sends(client, Listed(old(activeConnections), client), message, failing)
    {
      if client !in activeConnections {
        return;
      }
      var conns := activeConnections[client];
      var disconnected: seq<ConnId> := [];
      ghost var sent: seq<Send> := [];
      for i := 0 to |conns|
        invariant activeConnections == old(activeConnections) && outbox == old(outbox)
        invariant disconnected == Failing(conns[..i], failing)
        invariant sent == Sends(client, conns[..i], message, failing)
      {
        assert conns[..i + 1] == conns[..i] + [conns[i]];
        FailingAppend(conns[..i], [conns[i]], failing);
        SendsAppend(client, conns[..i], [conns[i]], message, failing);
        sent := sent + [Send(client, conns[i], message, conns[i] !in failing)];
        if conns[i] in failing {
          disconnected := disconnected + [conns[i]];
        }
      }
      assert conns[..|conns|] == conns;
      outbox := outbox + sent;
      ghost var target := UnregisteredEach(old(activeConnections), client, disconnected);
      for j := 0 to |disconnected|
        invariant Valid()
        invariant UnregisteredEach(activeConnections, client, disconnected[j..]) == target
        invariant outbox == old(outbox) + Sends(client, conns, message, failing)
      {
        assert disconnected[j..][1..] == disconnected[j + 1..];
        Disconnect(disconnected[j], client);
      }
      UnregisterFailingIsPruned(old(activeConnections), client, failing);
    }
  }
}
