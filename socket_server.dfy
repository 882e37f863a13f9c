/**
 * The connection registry of helpers/socketServer.js: the `users` object that maps a user
 * id to the id of the socket it registered from, updated by the registerUser and
 * disconnect handlers and read by emitToUser. A JavaScript object enumerates its (string,
 * non-index) keys in insertion order; the model keeps that order beside the map.
 */
module SocketServer {
  import opened Wrappers

  type UserId = string
  type SocketId = string

  /** The users object: its keys in enumeration order, and the key-to-socket map. */
  datatype Table = Table(order: seq<UserId>, users: map<UserId, SocketId>)

  /** The order lists every key once and nothing else. */
  predicate TableValid(t: Table) {
    && (forall i, j :: 0 <= i < j < |t.order| ==> t.order[i] != t.order[j])
    && (forall u :: u in t.users ==> u in t.order)
    && (forall i :: 0 <= i < |t.order| ==> t.order[i] in t.users)
  }

  /** registerUser: map `u` to `s`; a new key goes last, an existing key keeps its place. */
  function Register(t: Table, u: UserId, s: SocketId): (r: Table)
    requires TableValid(t)
    ensures TableValid(r)
    ensures u in r.users && r.users[u] == s
    ensures r.users.Keys == t.users.Keys + {u}
    ensures forall v :: v in t.users && v != u ==> r.users[v] == t.users[v]
    ensures u in t.users ==> r.order == t.order
    ensures u !in t.users ==> r.order == t.order + [u]
  {
    Table(if u in t.users then t.order else t.order + [u], t.users[u := s])
  }

  /** The first position at or after `from` whose key is mapped to `s`. */
  function FirstMappedTo(t: Table, s: SocketId, from: nat): (r: Option<nat>)
    requires TableValid(t)
    ensures r.Some? ==> from <= r.value < |t.order| && t.users[t.order[r.value]] == s
    ensures forall j :: from <= j < |t.order| && (r.None? || j < r.value) ==> t.users[t.order[j]] != s
    decreases |t.order| - from
  {
    if from >= |t.order| then None
    else if t.users[t.order[from]] == s then Some(from)
    else FirstMappedTo(t, s, from + 1)
  }

  /** The key enumeration after deleting the key at position i. */
  function RemoveAt(order: seq<UserId>, i: nat): (r: seq<UserId>)
    requires i < |order|
    ensures |r| == |order| - 1
    ensures forall j :: 0 <= j < i ==> r[j] == order[j]
    ensures forall j :: i <= j < |r| ==> r[j] == order[j + 1]
  {
    order[..i] + order[i + 1..]
  }

  /**
   * disconnect: walk the keys in order and delete the first one mapped to the closing
   * socket, then stop; with none mapped to it, nothing changes.
   */
  function Disconnect(t: Table, s: SocketId): (r: Table)
    requires TableValid(t)
    ensures TableValid(r)
    ensures r.users.Keys <= t.users.Keys && |t.users.Keys - r.users.Keys| <= 1
    ensures forall u :: u in r.users ==> r.users[u] == t.users[u]
    ensures forall u :: u in t.users && t.users[u] != s ==> u in r.users
    ensures (forall u :: u in t.users ==> t.users[u] != s) ==> r == t
    ensures forall i :: 0 <= i < |t.order| && t.users[t.order[i]] == s
                        && (forall k :: 0 <= k < i ==> t.users[t.order[k]] != s) ==>
      r.users.Keys == t.users.Keys - {t.order[i]}
  {
    match FirstMappedTo(t, s, 0)
    case None => t
    case Some(i) =>
      RemoveKeyValid(t, i);
      Table(RemoveAt(t.order, i), t.users - {t.order[i]})
  }

  /** Deleting the key at position i keeps the order and the map in step. */
  lemma RemoveKeyValid(t: Table, i: nat)
    requires TableValid(t) && i < |t.order|
    ensures var r := Table(RemoveAt(t.order, i), t.users - {t.order[i]});
      TableValid(r) && t.users.Keys - r.users.Keys == {t.order[i]}
  {
    var r := Table(RemoveAt(t.order, i), t.users - {t.order[i]});
    forall a, b | 0 <= a < b < |r.order| ensures r.order[a] != r.order[b] {
      var a' := if a < i then a else a + 1;
      var b' := if b < i then b else b + 1;
      assert r.order[a] == t.order[a'] && r.order[b] == t.order[b'] && a' < b';
    }
    forall u | u in r.users ensures u in r.order {
      var k :| 0 <= k < |t.order| && t.order[k] == u;
      assert k != i;
      if k < i { assert r.order[k] == u; } else { assert r.order[k - 1] == u; }
    }
    forall a | 0 <= a < |r.order| ensures r.order[a] in r.users {
      var a' := if a < i then a else a + 1;
      assert r.order[a] == t.order[a'] && a' != i;
    }
  }

  /** One message handed to a socket. */
  datatype Delivery = Delivery(socket: SocketId, event: string, data: string)

  /**
   * emitToUser: one delivery to the socket registered for `u` when that socket id is
   * truthy; nothing, and no error, when `u` is not registered.
   */
  function Deliveries(t: Table, u: UserId, event: string, data: string): (r: seq<Delivery>)
    ensures |r| <= 1
    ensures r != [] <==> u in t.users && t.users[u] != ""
    ensures forall i :: 0 <= i < |r| ==> r[i] == Delivery(t.users[u], event, data)
  {
    if u in t.users && t.users[u] != "" then [Delivery(t.users[u], event, data)] else []
  }

  /** After registering, emitting to `u` reaches exactly the socket it registered from. */
  lemma EmitAfterRegister(t: Table, u: UserId, s: SocketId, event: string, data: string)
    requires TableValid(t) && s != ""
    ensures Deliveries(Register(t, u, s), u, event, data) == [Delivery(s, event, data)]
  {
  }

  /** If exactly one user was mapped to the socket, no entry maps to it after disconnect. */
  lemma DisconnectClearsSoleMapping(t: Table, s: SocketId, u: UserId)
    requires TableValid(t)
    requires u in t.users && t.users[u] == s
    requires forall v :: v in t.users && v != u ==> t.users[v] != s
    ensures var r := Disconnect(t, s);
      u !in r.users && forall v :: v in r.users ==> r.users[v] != s
  {
    var k :| 0 <= k < |t.order| && t.order[k] == u;
    var f := FirstMappedTo(t, s, 0);
    assert f.Some?;
    assert t.order[f.value] == u;
  }

  /**
   * The loop stops after the first deletion: when two users share a socket, the one later
   * in key order stays registered to it after disconnect.
   */
  lemma DisconnectKeepsLaterSharer(t: Table, s: SocketId, i: nat, j: nat)
    requires TableValid(t)
    requires i < j < |t.order|
    requires t.users[t.order[i]] == s && t.users[t.order[j]] == s
    requires forall k :: 0 <= k < i ==> t.users[t.order[k]] != s
    ensures var r := Disconnect(t, s);
      t.order[j] in r.users && r.users[t.order[j]] == s && t.order[i] !in r.users
  {
    FirstMappedAt(t, s, i);
    assert t.order[i] != t.order[j];
  }

  /** The first key mapped to `s` sits at position i. */
  lemma FirstMappedAt(t: Table, s: SocketId, i: nat)
    requires TableValid(t) && i < |t.order| && t.users[t.order[i]] == s
    requires forall k :: 0 <= k < i ==> t.users[t.order[k]] != s
    ensures FirstMappedTo(t, s, 0) == Some(i)
  {
  }

  /** The registry object: the `users` object and the deliveries made so far. */
  class Registry {
    var order: seq<UserId>
    var users: map<UserId, SocketId>
    var sent: seq<Delivery>

    ghost function Contents(): Table
      reads this
    {
      Table(order, users)
    }

    ghost predicate Valid()
      reads this
    {
      TableValid(Contents())
    }

    constructor ()
      ensures Valid() && Contents() == Table([], map[]) && sent == []
    {
      order, users, sent := [], map[], [];
    }

    /** The registerUser handler of the socket `socket`. */
    method RegisterUser(socket: SocketId, userId: UserId)
      requires Valid()
      modifies this
      ensures Valid()
      ensures Contents() == Register(old(Contents()), userId, socket) && sent == old(sent)
    {
      if userId !in users {
        order := order + [userId];
      }
      users := users[userId := socket];
    }

    /** `delete users[order[i]]`: the key leaves both the map and the enumeration. */
    method DeleteAt(i: nat)
      requires Valid() && i < |order|
      modifies this
      ensures Valid() && sent == old(sent)
      ensures Contents() == Table(RemoveAt(old(order), i), old(users) - {old(order)[i]})
    {
      RemoveKeyValid(Contents(), i);
      users := users - {order[i]};
      order := RemoveAt(order, i);
    }

    /** The disconnect handler of the socket `socket`: the for-in loop with delete and break. */
    method OnDisconnect(socket: SocketId)
      requires Valid()
      modifies this
      ensures Valid()
      ensures Contents() == Disconnect(old(Contents()), socket) && sent == old(sent)
    {
      ghost var t := Contents();
      var i := 0;
      while i < |order|
        invariant 0 <= i <= |order|
        invariant Contents() == t
        invariant forall j :: 0 <= j < i ==> users[order[j]] != socket
      {
        var userId := order[i];
        if users[userId] == socket {
          FirstMappedAt(t, socket, i);
          DeleteAt(i);
          break;
        }
        i := i + 1;
      }
    }

    /** emitToUser: deliver to the registered socket, if any. */
    method EmitToUser(userId: UserId, event: string, data: string)
      requires Valid()
      modifies this
      ensures Valid() && Contents() == old(Contents())
      ensures sent == old(sent) + Deliveries(old(Contents()), userId, event, data)
    {
      if userId in users {
        var socketId := users[userId];
        if socketId != "" {
          sent := sent + [Delivery(socketId, event, data)];
        }
      }
    }
  }
}
