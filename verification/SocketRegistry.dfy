/**
 * The socket manager's registry: connected clients, rooms, the per-user list of client ids, and every client's
 * own set of rooms. All of it is mutated in place under one mutex; each method below is one critical section.
 */
module SocketRegistry {
  import opened Common

  /** The registry as a value: each registered client's user, each room's members, each user's client ids in
      order of connection, and the rooms each registered client believes it is in. */
  datatype Registry = Registry(
    users: map<string, string>,
    rooms: map<string, set<string>>,
    userRegistry: map<string, seq<string>>,
    joined: map<string, set<string>>)

  // ---------------------------------------------------------------- the operations, as functions

  function RemoveFirst(ids: seq<string>, id: string): seq<string> {
    if ids == [] then [] else if ids[0] == id then ids[1..] else [ids[0]] + RemoveFirst(ids[1..], id)
  }

  function WithoutMember(rooms: map<string, set<string>>, r: string, c: string): map<string, set<string>> {
    if r !in rooms then rooms
    else if rooms[r] - {c} == {} then rooms - {r}
    else rooms[r := rooms[r] - {c}]
  }

  function WithMember(rooms: map<string, set<string>>, r: string, c: string): map<string, set<string>> {
    rooms[r := (if r in rooms then rooms[r] else {}) + {c}]
  }

  function ClientIds(reg: map<string, seq<string>>, u: string): seq<string> {
    if u in reg then reg[u] else []
  }

  function WithClientId(reg: map<string, seq<string>>, u: string, c: string): map<string, seq<string>> {
    if u == "" then reg else reg[u := ClientIds(reg, u) + [c]]
  }

  function WithoutClientId(reg: map<string, seq<string>>, u: string, c: string): map<string, seq<string>> {
    if u == "" || u !in reg then reg
    else if RemoveFirst(reg[u], c) == [] then reg - {u}
    else reg[u := RemoveFirst(reg[u], c)]
  }

  /** Member c leaves all the rooms in rs, in whatever order. */
  function WithoutMemberOf(rooms: map<string, set<string>>, rs: set<string>, c: string): map<string, set<string>> {
    map r | r in rooms && !(r in rs && rooms[r] - {c} == {}) :: if r in rs then rooms[r] - {c} else rooms[r]
  }

  function Register(v: Registry, c: string, u: string, rs: set<string>): Registry {
    Registry(v.users[c := u], v.rooms,
             WithClientId(v.userRegistry, u, c),
             v.joined[c := rs])
  }

  function Unregister(v: Registry, c: string): Registry {
    if c !in v.users || c !in v.joined then v
    else Registry(v.users - {c}, WithoutMemberOf(v.rooms, v.joined[c], c),
                  WithoutClientId(v.userRegistry, v.users[c], c), v.joined - {c})
  }

  function Join(v: Registry, c: string, r: string): Registry {
    v.(rooms := WithMember(v.rooms, r, c),
       joined := if c in v.joined then v.joined[c := v.joined[c] + {r}] else v.joined)
  }

  function Leave(v: Registry, c: string, r: string): Registry {
    if r !in v.rooms then v
    else v.(rooms := WithoutMember(v.rooms, r, c),
            joined := if c in v.joined then v.joined[c := v.joined[c] - {r}] else v.joined)
  }

  // ---------------------------------------------------------------- the implementation

  class Client {
    const ID: string
    const UserID: string
    var Rooms: set<string>

    constructor (id: string, userID: string)
      ensures ID == id && UserID == userID && Rooms == {}
    {
      ID, UserID, Rooms := id, userID, {};
    }
  }

  class Room {
    const ID: string
    var Clients: map<string, Client>

    constructor (id: string)
      ensures ID == id && Clients == map[]
    {
      ID, Clients := id, map[];
    }
  }

  class SocketManager {
    var clients: map<string, Client>
    var rooms: map<string, Room>
    var userRegistry: map<string, seq<string>>

    /** The keys are the ids of the objects they lead to; so no two keys share an object. */
    ghost predicate Valid()
      reads this`clients, this`rooms, clients.Values, rooms.Values
    {
      && (forall id :: id in clients ==> clients[id].ID == id)
      && (forall r :: r in rooms ==> rooms[r].ID == r)
    }

    ghost function Users(): map<string, string>
      reads this`clients
    {
      map id | id in clients :: clients[id].UserID
    }

    ghost function Members(): map<string, set<string>>
      reads this`rooms, rooms.Values
    {
      map r | r in rooms :: rooms[r].Clients.Keys
    }

    ghost function Joined(): map<string, set<string>>
      reads this`clients, clients.Values
    {
      map id | id in clients :: clients[id].Rooms
    }

    ghost function Now(): Registry
      reads this, clients.Values, rooms.Values
    {
      Registry(Users(), Members(), userRegistry, Joined())
    }

    /** Client ids are UUIDs: whoever carries the id of a registered client is that client. */
    ghost predicate IsOwnId(client: Client)
      reads this`clients
    {
      client.ID in clients ==> clients[client.ID] == client
    }

    constructor ()
      ensures Valid() && Now() == Registry(map[], map[], map[], map[])
    {
      clients, rooms, userRegistry := map[], map[], map[];
    }

    method RegisterClient(client: Client)
      requires Valid() && IsOwnId(client)
      modifies this
      ensures Valid() && IsOwnId(client)
      ensures Now() == Register(old(Now()), client.ID, client.UserID, client.Rooms)
    {
      AddClient(client);
      AddToUserRegistry(client.UserID, client.ID);
    }

    method AddToUserRegistry(userID: string, id: string)
      modifies this`userRegistry
      ensures userRegistry == WithClientId(old(userRegistry), userID, id)
    {
      if userID != "" {
        if userID !in userRegistry {
          userRegistry := userRegistry[userID := []];
        }
        userRegistry := userRegistry[userID := userRegistry[userID] + [id]];
      }
    }

    method AddClient(client: Client)
      requires Valid()
      modifies this`clients
      ensures Valid() && clients == old(clients)[client.ID := client]
      ensures Users() == old(Users())[client.ID := client.UserID]
      ensures Joined() == old(Joined())[client.ID := client.Rooms]
      ensures Members() == old(Members())
    {
      clients := clients[client.ID := client];
    }

    /** delete(room.Clients, id) */
    method DeleteMember(roomID: string, id: string)
      requires Valid() && roomID in rooms
      modifies rooms[roomID]
      ensures Valid()
      ensures Members() == old(Members())[roomID := old(Members())[roomID] - {id}]
      ensures Joined() == old(Joined())
    {
      rooms[roomID].Clients := rooms[roomID].Clients - {id};
    }

    method DropRoomIfEmpty(roomID: string)
      requires Valid() && roomID in rooms
      modifies this`rooms
      ensures Valid()
      ensures Members() == if old(Members())[roomID] == {} then old(Members()) - {roomID} else old(Members())
      ensures rooms.Keys <= old(rooms.Keys) && forall r :: r in rooms ==> rooms[r] == old(rooms[r])
    {
      if |rooms[roomID].Clients| == 0 {
        rooms := rooms - {roomID};
      }
    }

    /** Deletes the client from one room, and the room if that leaves it empty. */
    method RemoveFromRoom(client: Client, roomID: string)
      requires Valid() && roomID in rooms
      modifies this`rooms, rooms[roomID]
      ensures Valid()
      ensures Members() == WithoutMember(old(Members()), roomID, client.ID)
      ensures Joined() == old(Joined())
      ensures rooms.Keys <= old(rooms.Keys) && forall r :: r in rooms ==> rooms[r] == old(rooms[r])
    {
      DeleteMember(roomID, client.ID);
      DropRoomIfEmpty(roomID);
    }

    /** Splices the first occurrence of id out of the user's list; an empty list disappears. */
    method RemoveFromUserRegistry(userID: string, id: string)
      modifies this`userRegistry
      ensures userRegistry == WithoutClientId(old(userRegistry), userID, id)
    {
      if userID == "" || userID !in userRegistry {
        return;
      }
      var clientIDs := userRegistry[userID];
      var i := 0;
      while i < |clientIDs| && clientIDs[i] != id
        invariant i <= |clientIDs| && id !in clientIDs[..i]
      {
        i := i + 1;
      }
      RemoveFirstAt(clientIDs, id, i);
      if i < |clientIDs| {
        userRegistry := userRegistry[userID := clientIDs[..i] + clientIDs[i + 1..]];
      }
      if |userRegistry[userID]| == 0 {
        userRegistry := userRegistry - {userID};
      }
    }

    /** One more room left, after those in left. */
    method LeaveNextRoom(client: Client, roomID: string, ghost before: map<string, set<string>>, ghost left: set<string>)
      requires Valid() && roomID !in left
      requires Members() == WithoutMemberOf(before, left, client.ID)
      modifies this`rooms, if roomID in rooms then {rooms[roomID]} else {}
      ensures Valid() && Joined() == old(Joined())
      ensures Members() == WithoutMemberOf(before, left + {roomID}, client.ID)
      ensures forall r :: r in rooms ==> r in old(rooms) && rooms[r] == old(rooms[r])
    {
      LeaveOneMore(before, left, client.ID, roomID);
      if roomID in rooms {
        RemoveFromRoom(client, roomID);
      }
    }

    method LeaveAllRooms(client: Client)
      requires Valid()
      modifies this`rooms, rooms.Values
      ensures Valid() && Joined() == old(Joined())
      ensures Members() == WithoutMemberOf(old(Members()), client.Rooms, client.ID)
    {
      ghost var before, mine, left := Members(), client.Rooms, {};
      var todo := client.Rooms;
      assert before == WithoutMemberOf(before, {}, client.ID);
      while todo != {}
        invariant left !! todo && left + todo == mine
        invariant client.Rooms == mine
        invariant Valid() && Joined() == old(Joined())
        invariant Members() == WithoutMemberOf(before, left, client.ID)
        invariant forall r :: r in rooms ==> r in old(rooms) && rooms[r] == old(rooms[r])
        decreases |todo|
      {
        var roomID :| roomID in todo;
        LeaveNextRoom(client, roomID, before, left);
        left := left + {roomID};
        todo := todo - {roomID};
      }
      assert left == mine;
    }

    method UnregisterClient(client: Client) returns (found: bool)
      requires Valid() && IsOwnId(client)
      modifies this, rooms.Values
      ensures Valid() && IsOwnId(client)
      ensures found == (client.ID in old(clients))
      ensures Now() == Unregister(old(Now()), client.ID)
    {
      if client.ID !in clients {
        return false;
      }
      RemoveClient(client);
      return true;
    }

    /** The three removals of a registered client, in the order of the critical section. */
    method RemoveClient(client: Client)
      requires Valid() && client.ID in clients && clients[client.ID] == client
      modifies this, rooms.Values
      ensures Valid() && clients == old(clients) - {client.ID}
      ensures Users() == old(Users()) - {client.ID}
      ensures Members() == WithoutMemberOf(old(Members()), old(client.Rooms), client.ID)
      ensures userRegistry == WithoutClientId(old(userRegistry), client.UserID, client.ID)
      ensures Joined() == old(Joined()) - {client.ID}
    {
      LeaveAllRooms(client);
      RemoveFromUserRegistry(client.UserID, client.ID);
      DeleteClient(client.ID);
    }

    method DeleteClient(id: string)
      requires Valid()
      modifies this`clients
      ensures Valid() && clients == old(clients) - {id}
      ensures Users() == old(Users()) - {id} && Joined() == old(Joined()) - {id} && Members() == old(Members())
    {
      clients := clients - {id};
    }

    method ClientJoinRoom(client: Client, roomID: string)
      requires Valid() && IsOwnId(client)
      modifies this`rooms, rooms.Values, client
      ensures Valid()
      ensures Now() == Join(old(Now()), client.ID, roomID)
      ensures client.Rooms == old(client.Rooms) + {roomID}
    {
      EnterRoom(client, roomID);
      RememberRoom(client, roomID);
    }

    method EnterRoom(client: Client, roomID: string)
      requires Valid()
      modifies this`rooms, rooms.Values
      ensures Valid() && Joined() == old(Joined())
      ensures Members() == WithMember(old(Members()), roomID, client.ID)
    {
      CreateRoomIfMissing(roomID);
      AddMember(client, roomID);
    }

    method CreateRoomIfMissing(roomID: string)
      requires Valid()
      modifies this`rooms
      ensures Valid() && roomID in rooms && fresh(rooms.Values - old(rooms.Values))
      ensures Members() == if roomID in old(rooms) then old(Members()) else old(Members())[roomID := {}]
      ensures Joined() == old(Joined())
    {
      if roomID !in rooms {
        var room := new Room(roomID);
        rooms := rooms[roomID := room];
        assert room.Clients.Keys == {};
        assert forall r :: r in old(rooms) ==> rooms[r] == old(rooms[r]) && rooms[r].Clients == old(rooms[r].Clients);
      }
    }

    method AddMember(client: Client, roomID: string)
      requires Valid() && roomID in rooms
      modifies rooms[roomID]
      ensures Valid()
      ensures Members() == old(Members())[roomID := old(Members())[roomID] + {client.ID}]
      ensures Joined() == old(Joined())
    {
      rooms[roomID].Clients := rooms[roomID].Clients[client.ID := client];
      assert rooms[roomID].Clients.Keys == old(rooms[roomID].Clients.Keys) + {client.ID};
    }

    method RememberRoom(client: Client, roomID: string)
      requires Valid() && IsOwnId(client)
      modifies client
      ensures Valid() && Members() == old(Members()) && Users() == old(Users())
      ensures client.Rooms == old(client.Rooms) + {roomID}
      ensures Joined() == if client.ID in clients then old(Joined())[client.ID := old(client.Rooms) + {roomID}]
                          else old(Joined())
    {
      client.Rooms := client.Rooms + {roomID};
    }

    method ForgetRoom(client: Client, roomID: string)
      requires Valid() && IsOwnId(client)
      modifies client
      ensures Valid() && Members() == old(Members()) && Users() == old(Users())
      ensures client.Rooms == old(client.Rooms) - {roomID}
      ensures Joined() == if client.ID in clients then old(Joined())[client.ID := old(client.Rooms) - {roomID}]
                          else old(Joined())
    {
      client.Rooms := client.Rooms - {roomID};
    }

    method ClientLeaveRoom(client: Client, roomID: string)
      requires Valid() && IsOwnId(client)
      modifies this`rooms, rooms.Values, client
      ensures Valid()
      ensures Now() == Leave(old(Now()), client.ID, roomID)
    {
      if roomID !in rooms {
        return;
      }
      ForgetRoom(client, roomID);
      RemoveFromRoom(client, roomID);
    }

    method IsUserConnected(userID: string) returns (connected: bool)
      requires Valid()
      ensures connected == (userID in Now().userRegistry && |Now().userRegistry[userID]| > 0)
      ensures Inv(Now()) ==> (connected <==> userID != "" && exists c :: c in Now().users && Now().users[c] == userID)
    {
      connected := userID in userRegistry && |userRegistry[userID]| > 0;
      if Inv(Now()) {
        ConnectedMeansRegistered(Now(), userID);
      }
    }

    method GetUserClientIDs(userID: string) returns (ids: seq<string>)
      requires Valid()
      ensures ids == ClientIds(Now().userRegistry, userID)
      ensures Inv(Now()) && userID != "" ==> forall c :: c in ids <==> c in Now().users && Now().users[c] == userID
    {
      ids := [];
      if userID in userRegistry {
        ids := userRegistry[userID];
      }
      if Inv(Now()) && userID != "" {
        ConnectedMeansRegistered(Now(), userID);
      }
    }

    method Shutdown()
      modifies this
      ensures Valid() && Now() == Registry(map[], map[], map[], map[])
    {
      clients, rooms, userRegistry := map[], map[], map[];
    }
  }

  lemma {:induction false} RemoveFirstAt(ids: seq<string>, id: string, i: nat)
    requires i <= |ids| && id !in ids[..i] && (i < |ids| ==> ids[i] == id)
    ensures RemoveFirst(ids, id) == if i < |ids| then ids[..i] + ids[i + 1..] else ids
  {
    if i > 0 {
      assert ids[0] in ids[..i];
      assert forall x :: x in ids[1..][..i - 1] ==> x in ids[..i];
      RemoveFirstAt(ids[1..], id, i - 1);
    }
  }

  lemma LeaveOneMore(rooms: map<string, set<string>>, rs: set<string>, c: string, r: string)
    requires r !in rs
    ensures WithoutMemberOf(rooms, rs + {r}, c) == WithoutMember(WithoutMemberOf(rooms, rs, c), r, c)
  {
  }

  // ---------------------------------------------------------------- the invariant

  /** userRegistry[u] is non-empty, duplicate-free and lists exactly the registered clients of u. */
  ghost predicate UsersListed(v: Registry) {
    && "" !in v.userRegistry
    && (forall u :: u in v.userRegistry ==> v.userRegistry[u] != [] && Distinct(v.userRegistry[u]))
    && (forall u, c :: u in v.userRegistry && c in v.userRegistry[u] ==> c in v.users && v.users[c] == u)
    && (forall c :: c in v.users && v.users[c] != "" ==> v.users[c] in v.userRegistry && c in v.userRegistry[v.users[c]])
  }

  /** No room is empty; a client is in a room's map if and only if the room is in that client's Rooms. */
  ghost predicate RoomsMirrored(v: Registry) {
    && v.joined.Keys == v.users.Keys
    && (forall r :: r in v.rooms ==> v.rooms[r] != {} && v.rooms[r] <= v.users.Keys)
    && (forall c, r :: c in v.joined ==> (r in v.joined[c] <==> r in v.rooms && c in v.rooms[r]))
  }

  ghost predicate Inv(v: Registry) {
    UsersListed(v) && RoomsMirrored(v)
  }

  lemma ConnectedMeansRegistered(v: Registry, u: string)
    requires Inv(v)
    ensures u in v.userRegistry && |v.userRegistry[u]| > 0 <==> u != "" && exists c :: c in v.users && v.users[c] == u
    ensures u != "" ==> forall c :: c in ClientIds(v.userRegistry, u) <==> c in v.users && v.users[c] == u
  {
    if u in v.userRegistry {
      var c := v.userRegistry[u][0];
      assert c in v.userRegistry[u];
      assert c in v.users && v.users[c] == u;
    }
  }

  // ---------------------------------------------------------------- membership laws

  /** Client c is in room r's map. */
  ghost predicate In(rooms: map<string, set<string>>, r: string, c: string) {
    r in rooms && c in rooms[r]
  }

  ghost predicate NoEmptyRoom(rooms: map<string, set<string>>) {
    forall r :: r in rooms ==> rooms[r] != {}
  }

  /** Without empty rooms, the rooms are determined by who is in which. */
  lemma SameMembers(a: map<string, set<string>>, b: map<string, set<string>>)
    requires NoEmptyRoom(a) && NoEmptyRoom(b)
    requires forall r, c :: In(a, r, c) <==> In(b, r, c)
    ensures a == b
  {
    forall r ensures r in a <==> r in b {
      if r in a {
        var c :| c in a[r];
        assert In(b, r, c);
      }
      if r in b {
        var c :| c in b[r];
        assert In(a, r, c);
      }
    }
    forall r | r in a ensures a[r] == b[r] {
      forall c ensures c in a[r] <==> c in b[r] {
        assert In(a, r, c) <==> In(b, r, c);
      }
    }
  }

  lemma InWithout(rooms: map<string, set<string>>, r: string, c: string)
    requires NoEmptyRoom(rooms)
    ensures NoEmptyRoom(WithoutMember(rooms, r, c))
    ensures forall q, d :: In(WithoutMember(rooms, r, c), q, d) <==> In(rooms, q, d) && !(q == r && d == c)
  {
    if r in rooms && rooms[r] - {c} == {} {
      forall d | In(rooms, r, d) ensures d == c {
        assert d !in rooms[r] - {c};
      }
    }
  }

  lemma InWithoutOf(rooms: map<string, set<string>>, rs: set<string>, c: string)
    requires NoEmptyRoom(rooms)
    ensures NoEmptyRoom(WithoutMemberOf(rooms, rs, c))
    ensures forall q, d :: In(WithoutMemberOf(rooms, rs, c), q, d) <==> In(rooms, q, d) && !(q in rs && d == c)
  {
    forall q, d | In(rooms, q, d) && !(q in rs && d == c) ensures In(WithoutMemberOf(rooms, rs, c), q, d) {
      assert q in rs ==> d in rooms[q] - {c};
    }
  }

  lemma InWith(rooms: map<string, set<string>>, r: string, c: string)
    requires NoEmptyRoom(rooms)
    ensures NoEmptyRoom(WithMember(rooms, r, c))
    ensures forall q, d :: In(WithMember(rooms, r, c), q, d) <==> In(rooms, q, d) || (q == r && d == c)
  {
    assert c in WithMember(rooms, r, c)[r];
  }

  /** Unregistering takes a client out of every room and changes nothing else about rooms. */
  lemma InAfterUnregister(v: Registry, c: string)
    requires RoomsMirrored(v) && c in v.users
    ensures NoEmptyRoom(Unregister(v, c).rooms)
    ensures forall q, d :: In(Unregister(v, c).rooms, q, d) <==> In(v.rooms, q, d) && d != c
  {
    InWithoutOf(v.rooms, v.joined[c], c);
    forall q, d ensures In(Unregister(v, c).rooms, q, d) <==> In(v.rooms, q, d) && d != c {
      assert q in v.joined[c] <==> In(v.rooms, q, c);
    }
  }

  /** Without empty lists, the user registry is determined by the list of each user. */
  ghost predicate NoEmptyList(reg: map<string, seq<string>>) {
    forall u :: u in reg ==> reg[u] != []
  }

  lemma SameLists(a: map<string, seq<string>>, b: map<string, seq<string>>)
    requires NoEmptyList(a) && NoEmptyList(b)
    requires forall u :: ClientIds(a, u) == ClientIds(b, u)
    ensures a == b
  {
    forall u ensures u in a <==> u in b {
      assert ClientIds(a, u) == ClientIds(b, u);
    }
    forall u | u in a ensures a[u] == b[u] {
      assert ClientIds(a, u) == ClientIds(b, u);
    }
  }

  lemma InvBasics(v: Registry)
    requires Inv(v)
    ensures v.joined.Keys == v.users.Keys && NoEmptyRoom(v.rooms) && NoEmptyList(v.userRegistry)
  {
  }

  lemma ListsAfter(reg: map<string, seq<string>>, u: string, c: string)
    requires NoEmptyList(reg)
    ensures NoEmptyList(WithClientId(reg, u, c)) && NoEmptyList(WithoutClientId(reg, u, c))
    ensures forall w :: ClientIds(WithClientId(reg, u, c), w)
                        == if w == u && u != "" then ClientIds(reg, w) + [c] else ClientIds(reg, w)
    ensures forall w :: ClientIds(WithoutClientId(reg, u, c), w)
                        == if w == u && u != "" then RemoveFirst(ClientIds(reg, w), c) else ClientIds(reg, w)
  {
  }

  // ---------------------------------------------------------------- what keeps the invariant

  /**
   * Registering keeps the invariant if and only if the id is new and its client in no room yet, or the same
   * user-less client registers again.
   */
  lemma RegisterKeepsInvIff(v: Registry, c: string, u: string, rs: set<string>)
    requires Inv(v)
    ensures Inv(Register(v, c, u, rs))
            <==> if c in v.users then v.users[c] == "" && rs == v.joined[c] else rs == {}
  {
    var w := Register(v, c, u, rs);
    RegisterRooms(v, c, u, rs);
    if c !in v.users {
      RegisterListsNewClient(v, c, u, rs);
    } else if v.users[c] == "" {
      RegisterListsNewClient(v, c, u, rs);
    } else {
      RegisterListsTwice(v, c, u, rs);
    }
  }

  lemma RegisterRooms(v: Registry, c: string, u: string, rs: set<string>)
    requires Inv(v)
    ensures RoomsMirrored(Register(v, c, u, rs)) <==> rs == if c in v.users then v.joined[c] else {}
  {
    var w := Register(v, c, u, rs);
    var mine := if c in v.users then v.joined[c] else {};
    assert forall r :: r in mine <==> r in v.rooms && c in v.rooms[r];
    if RoomsMirrored(w) {
      assert w.joined[c] == rs;
      assert forall r :: r in rs <==> r in mine;
    }
  }

  lemma RegisterListsNewClient(v: Registry, c: string, u: string, rs: set<string>)
    requires UsersListed(v) && (c in v.users ==> v.users[c] == "")
    ensures UsersListed(Register(v, c, u, rs))
  {
    if u != "" {
      var ids := ClientIds(v.userRegistry, u);
      assert c !in ids;
      assert Distinct(ids + [c]);
    }
  }

  lemma RegisterListsTwice(v: Registry, c: string, u: string, rs: set<string>)
    requires UsersListed(v) && c in v.users && v.users[c] != ""
    ensures !UsersListed(Register(v, c, u, rs))
  {
    var u0 := v.users[c];
    var w := Register(v, c, u, rs);
    assert u0 in v.userRegistry && c in v.userRegistry[u0];
    var i :| 0 <= i < |v.userRegistry[u0]| && v.userRegistry[u0][i] == c;
    assert w.users[c] == u;
    assert w.userRegistry[u0][i] == c;
    if u0 == u {
      assert w.userRegistry[u][|v.userRegistry[u]|] == c;
    }
  }

  lemma {:induction false} RemoveFirstMembers(ids: seq<string>, c: string)
    requires Distinct(ids)
    ensures Distinct(RemoveFirst(ids, c))
    ensures forall d :: d in RemoveFirst(ids, c) <==> d in ids && d != c
  {
    if ids != [] {
      assert ids == [ids[0]] + ids[1..];
      RemoveFirstMembers(ids[1..], c);
      if ids[0] != c {
        var rest := RemoveFirst(ids[1..], c);
        forall j | 0 <= j < |rest| ensures rest[j] != ids[0] {
          assert rest[j] in rest;
          assert rest[j] in ids[1..];
        }
      }
    }
  }

  lemma UnregisterKeepsUsersListed(v: Registry, c: string)
    requires UsersListed(v)
    ensures UsersListed(Unregister(v, c))
  {
    if c in v.users && c in v.joined {
      var u := v.users[c];
      if u != "" {
        RemoveFirstMembers(v.userRegistry[u], c);
      }
    }
  }

  lemma UnregisterKeepsRoomsMirrored(v: Registry, c: string)
    requires RoomsMirrored(v)
    ensures RoomsMirrored(Unregister(v, c))
  {
  }

  lemma JoinKeepsInvIffRegistered(v: Registry, c: string, r: string)
    requires Inv(v)
    ensures Inv(Join(v, c, r)) <==> c in v.users
  {
    if c in v.users {
      JoinKeepsUsersListed(v, c, r);
      JoinKeepsRoomsMirrored(v, c, r);
    } else {
      assert c in Join(v, c, r).rooms[r];
    }
  }

  lemma JoinKeepsUsersListed(v: Registry, c: string, r: string)
    requires UsersListed(v)
    ensures UsersListed(Join(v, c, r))
  {
  }

  lemma JoinKeepsRoomsMirrored(v: Registry, c: string, r: string)
    requires RoomsMirrored(v) && c in v.users
    ensures RoomsMirrored(Join(v, c, r))
  {
    assert c in Join(v, c, r).rooms[r];
  }

  lemma LeaveKeepsInv(v: Registry, c: string, r: string)
    requires Inv(v)
    ensures Inv(Leave(v, c, r))
  {
    LeaveKeepsUsersListed(v, c, r);
    if r in v.rooms {
      LeaveKeepsRoomsMirrored(v, c, r);
    }
  }

  lemma LeaveKeepsUsersListed(v: Registry, c: string, r: string)
    requires UsersListed(v)
    ensures UsersListed(Leave(v, c, r))
  {
  }

  lemma LeaveKeepsRoomsMirrored(v: Registry, c: string, r: string)
    requires RoomsMirrored(v) && r in v.rooms
    ensures RoomsMirrored(Leave(v, c, r))
  {
    var w := Leave(v, c, r);
    InWithout(v.rooms, r, c);
    forall d, q | d in w.joined ensures q in w.joined[d] <==> q in w.rooms && d in w.rooms[q] {
      assert q in v.joined[d] <==> In(v.rooms, q, d);
      assert q in w.rooms && d in w.rooms[q] <==> In(w.rooms, q, d);
    }
  }

  // ---------------------------------------------------------------- runs

  datatype Op =
    | OpRegister(c: string, u: string)
    | OpUnregister(c: string)
    | OpJoin(c: string, r: string)
    | OpLeave(c: string, r: string)

  function Do(v: Registry, op: Op): Registry {
    match op
    case OpRegister(c, u) => Register(v, c, u, {})
    case OpUnregister(c) => Unregister(v, c)
    case OpJoin(c, r) => Join(v, c, r)
    case OpLeave(c, r) => Leave(v, c, r)
  }

  /** New clients register, registered clients join, leave and unregister. */
  predicate Allowed(v: Registry, op: Op) {
    match op
    case OpRegister(c, _) => c !in v.users
    case OpUnregister(c) => c in v.users
    case OpJoin(c, _) => c in v.users
    case OpLeave(c, _) => c in v.users
  }

  predicate AllAllowed(v: Registry, ops: seq<Op>)
    decreases |ops|
  {
    ops == [] || (Allowed(v, ops[0]) && AllAllowed(Do(v, ops[0]), ops[1..]))
  }

  function DoAll(v: Registry, ops: seq<Op>): Registry
    decreases |ops|
  {
    if ops == [] then v else DoAll(Do(v, ops[0]), ops[1..])
  }

  lemma DoKeepsInv(v: Registry, op: Op)
    requires Inv(v) && Allowed(v, op)
    ensures Inv(Do(v, op))
  {
    match op {
      case OpRegister(c, u) => RegisterKeepsInvIff(v, c, u, {});
      case OpUnregister(c) =>
        UnregisterKeepsUsersListed(v, c);
        UnregisterKeepsRoomsMirrored(v, c);
      case OpJoin(c, r) => JoinKeepsInvIffRegistered(v, c, r);
      case OpLeave(c, r) => LeaveKeepsInv(v, c, r);
    }
  }

  /** Every run of critical sections keeps all three indexes and the back pointers consistent. */
  lemma {:induction false} RunsKeepInv(v: Registry, ops: seq<Op>)
    requires Inv(v) && AllAllowed(v, ops)
    ensures Inv(DoAll(v, ops))
    decreases |ops|
  {
    if ops != [] {
      DoKeepsInv(v, ops[0]);
      RunsKeepInv(Do(v, ops[0]), ops[1..]);
    }
  }

  // ---------------------------------------------------------------- unregistering erases a client

  lemma UnlistingUndoesListing(reg: map<string, seq<string>>, u: string, c: string)
    requires NoEmptyList(reg) && c !in ClientIds(reg, u)
    ensures WithoutClientId(WithClientId(reg, u, c), u, c) == reg
  {
    RemoveFirstOfAppended(ClientIds(reg, u), c);
  }

  lemma AddThenRemove<V>(m: map<string, V>, c: string, x: V)
    requires c !in m
    ensures m[c := x] - {c} == m
  {
  }

  lemma NewClientIsUnlisted(v: Registry, c: string, u: string)
    requires UsersListed(v) && c !in v.users
    ensures c !in ClientIds(v.userRegistry, u)
  {
  }

  lemma UnregisterUndoesRegister(v: Registry, c: string, u: string)
    requires Inv(v) && c !in v.users
    ensures Unregister(Register(v, c, u, {}), c) == v
  {
    InvBasics(v);
    NewClientIsUnlisted(v, c, u);
    UnregisterUndoesRegisterRaw(v, c, u);
  }

  lemma UnregisterUndoesRegisterRaw(v: Registry, c: string, u: string)
    requires c !in v.users && c !in v.joined && NoEmptyList(v.userRegistry) && c !in ClientIds(v.userRegistry, u)
    ensures Unregister(Register(v, c, u, {}), c) == v
  {
    AddThenRemove(v.users, c, u);
    AddThenRemove(v.joined, c, {});
    UnlistingUndoesListing(v.userRegistry, u, c);
    assert WithoutMemberOf(v.rooms, {}, c) == v.rooms;
  }

  lemma {:induction false} RemoveFirstOfAppended(ids: seq<string>, c: string)
    requires c !in ids
    ensures RemoveFirst(ids + [c], c) == ids
  {
    if ids != [] {
      assert (ids + [c])[1..] == ids[1..] + [c];
      RemoveFirstOfAppended(ids[1..], c);
    }
  }

  lemma OwnJoinIsErased(v: Registry, c: string, r: string)
    requires Inv(v) && c in v.users
    ensures Unregister(Join(v, c, r), c) == Unregister(v, c)
  {
    var w := Join(v, c, r);
    JoinKeepsInvIffRegistered(v, c, r);
    InAfterUnregister(v, c);
    InAfterUnregister(w, c);
    InWith(v.rooms, r, c);
    SameMembers(Unregister(w, c).rooms, Unregister(v, c).rooms);
    assert w.joined - {c} == v.joined - {c};
  }

  lemma OwnLeaveIsErased(v: Registry, c: string, r: string)
    requires Inv(v) && c in v.users
    ensures Unregister(Leave(v, c, r), c) == Unregister(v, c)
  {
    var w := Leave(v, c, r);
    LeaveKeepsInv(v, c, r);
    InAfterUnregister(v, c);
    InAfterUnregister(w, c);
    InWithout(v.rooms, r, c);
    SameMembers(Unregister(w, c).rooms, Unregister(v, c).rooms);
    assert w.joined - {c} == v.joined - {c};
  }

  lemma {:induction false} RemoveFirstCommutes(ids: seq<string>, c: string, d: string)
    ensures RemoveFirst(RemoveFirst(ids, c), d) == RemoveFirst(RemoveFirst(ids, d), c)
  {
    if ids != [] {
      RemoveFirstCommutes(ids[1..], c, d);
    }
  }

  lemma {:induction false} RemoveFirstBeforeAppend(ids: seq<string>, c: string, d: string)
    requires c in ids || c != d
    ensures RemoveFirst(ids + [d], c) == RemoveFirst(ids, c) + [d]
  {
    if ids != [] {
      assert (ids + [d])[1..] == ids[1..] + [d];
      if ids[0] != c {
        RemoveFirstBeforeAppend(ids[1..], c, d);
      }
    }
  }

  lemma ListingCommutes(reg: map<string, seq<string>>, u: string, d: string, uc: string, c: string)
    requires NoEmptyList(reg) && c != d
    ensures WithoutClientId(WithClientId(reg, u, d), uc, c) == WithClientId(WithoutClientId(reg, uc, c), u, d)
  {
    ListsAfter(reg, u, d);
    ListsAfter(reg, uc, c);
    ListsAfter(WithClientId(reg, u, d), uc, c);
    ListsAfter(WithoutClientId(reg, uc, c), u, d);
    RemoveFirstBeforeAppend(ClientIds(reg, uc), c, d);
    SameLists(WithoutClientId(WithClientId(reg, u, d), uc, c), WithClientId(WithoutClientId(reg, uc, c), u, d));
  }

  lemma UnlistingCommutes(reg: map<string, seq<string>>, ud: string, d: string, uc: string, c: string)
    requires NoEmptyList(reg)
    ensures WithoutClientId(WithoutClientId(reg, ud, d), uc, c) == WithoutClientId(WithoutClientId(reg, uc, c), ud, d)
  {
    ListsAfter(reg, ud, d);
    ListsAfter(reg, uc, c);
    ListsAfter(WithoutClientId(reg, ud, d), uc, c);
    ListsAfter(WithoutClientId(reg, uc, c), ud, d);
    RemoveFirstCommutes(ClientIds(reg, uc), c, d);
    SameLists(WithoutClientId(WithoutClientId(reg, ud, d), uc, c), WithoutClientId(WithoutClientId(reg, uc, c), ud, d));
  }

  lemma UpdateThenRemove<V>(m: map<string, V>, d: string, x: V, c: string)
    requires c != d
    ensures m[d := x] - {c} == (m - {c})[d := x]
  {
  }

  lemma RegisterCommutesRaw(v: Registry, d: string, u: string, c: string)
    requires c in v.users && c in v.joined && c != d && NoEmptyList(v.userRegistry)
    ensures Unregister(Register(v, d, u, {}), c) == Register(Unregister(v, c), d, u, {})
  {
    ListingCommutes(v.userRegistry, u, d, v.users[c], c);
    UpdateThenRemove(v.users, d, u, c);
    UpdateThenRemove(v.joined, d, {}, c);
  }

  lemma RegisterCommutes(v: Registry, d: string, u: string, c: string)
    requires Inv(v) && c in v.users && d !in v.users
    ensures Unregister(Register(v, d, u, {}), c) == Register(Unregister(v, c), d, u, {})
  {
    InvBasics(v);
    RegisterCommutesRaw(v, d, u, c);
  }

  lemma UnregisterCommutes(v: Registry, d: string, c: string)
    requires Inv(v) && c in v.users && d in v.users && c != d
    ensures Unregister(Unregister(v, d), c) == Unregister(Unregister(v, c), d)
  {
    var (w, x) := (Unregister(v, d), Unregister(v, c));
    UnregisterRoomsCommute(v, d, c);
    UnlistingCommutes(v.userRegistry, v.users[d], d, v.users[c], c);
    assert w.users - {c} == x.users - {d};
    assert w.joined - {c} == x.joined - {d};
  }

  lemma UnregisterRoomsCommute(v: Registry, d: string, c: string)
    requires RoomsMirrored(v) && c in v.users && d in v.users && c != d
    ensures Unregister(Unregister(v, d), c).rooms == Unregister(Unregister(v, c), d).rooms
  {
    var (w, x) := (Unregister(v, d), Unregister(v, c));
    UnregisterKeepsRoomsMirrored(v, d);
    UnregisterKeepsRoomsMirrored(v, c);
    InAfterUnregister(v, d);
    InAfterUnregister(v, c);
    InAfterUnregister(w, c);
    InAfterUnregister(x, d);
    SameMembers(Unregister(w, c).rooms, Unregister(x, d).rooms);
  }

  lemma JoinRoomsCommute(v: Registry, d: string, r: string, c: string)
    requires Inv(v) && c in v.users && d in v.users && c != d
    ensures Unregister(Join(v, d, r), c).rooms == Join(Unregister(v, c), d, r).rooms
  {
    var (w, x) := (Join(v, d, r), Unregister(v, c));
    JoinKeepsInvIffRegistered(v, d, r);
    InAfterUnregister(v, c);
    InAfterUnregister(w, c);
    InWith(v.rooms, r, d);
    InWith(x.rooms, r, d);
    SameMembers(Unregister(w, c).rooms, Join(x, d, r).rooms);
  }

  lemma JoinCommutes(v: Registry, d: string, r: string, c: string)
    requires Inv(v) && c in v.users && d in v.users && c != d
    ensures Unregister(Join(v, d, r), c) == Join(Unregister(v, c), d, r)
  {
    InvBasics(v);
    JoinRoomsCommute(v, d, r, c);
    UpdateThenRemove(v.joined, d, v.joined[d] + {r}, c);
    SameRegistry(Unregister(Join(v, d, r), c), Join(Unregister(v, c), d, r));
  }

  lemma SameRegistry(a: Registry, b: Registry)
    requires a.users == b.users && a.rooms == b.rooms && a.userRegistry == b.userRegistry && a.joined == b.joined
    ensures a == b
  {
  }

  lemma LeaveRoomsCommute(v: Registry, d: string, r: string, c: string)
    requires Inv(v) && c in v.users && d in v.users && c != d
    ensures Unregister(Leave(v, d, r), c).rooms == Leave(Unregister(v, c), d, r).rooms
  {
    var (w, x) := (Leave(v, d, r), Unregister(v, c));
    LeaveKeepsInv(v, d, r);
    InAfterUnregister(v, c);
    InAfterUnregister(w, c);
    InWithout(v.rooms, r, d);
    InWithout(x.rooms, r, d);
    SameMembers(Unregister(w, c).rooms, Leave(x, d, r).rooms);
  }

  lemma LeaveCommutes(v: Registry, d: string, r: string, c: string)
    requires Inv(v) && c in v.users && d in v.users && c != d
    ensures Unregister(Leave(v, d, r), c) == Leave(Unregister(v, c), d, r)
  {
    InvBasics(v);
    LeaveRoomsCommute(v, d, r, c);
    LeaveJoinedCommutes(v, d, r, c);
    SameRegistry(Unregister(Leave(v, d, r), c), Leave(Unregister(v, c), d, r));
  }

  /** Leaving takes the room out of d's Rooms, whether or not the room exists. */
  lemma LeaveForgets(v: Registry, d: string, r: string)
    requires RoomsMirrored(v) && d in v.users
    ensures Leave(v, d, r).joined == v.joined[d := v.joined[d] - {r}]
  {
    assert r !in v.joined[d] ==> v.joined[d] - {r} == v.joined[d];
  }

  /** The early return when the room does not exist matters to Rooms only if it mattered before. */
  lemma LeaveJoinedCommutes(v: Registry, d: string, r: string, c: string)
    requires Inv(v) && c in v.users && d in v.users && c != d
    ensures Unregister(Leave(v, d, r), c).joined == Leave(Unregister(v, c), d, r).joined
  {
    LeaveForgets(v, d, r);
    UnregisterKeepsRoomsMirrored(v, c);
    LeaveForgets(Unregister(v, c), d, r);
    UpdateThenRemove(v.joined, d, v.joined[d] - {r}, c);
  }

  /** A step of another client commutes with unregistering c. */
  lemma OthersCommute(v: Registry, op: Op, c: string)
    requires Inv(v) && c in v.users && Allowed(v, op) && op.c != c
    ensures Allowed(Unregister(v, c), op)
    ensures Unregister(Do(v, op), c) == Do(Unregister(v, c), op)
  {
    match op {
      case OpRegister(d, u) => RegisterCommutes(v, d, u, c);
      case OpUnregister(d) => UnregisterCommutes(v, d, c);
      case OpJoin(d, r) => JoinCommutes(v, d, r, c);
      case OpLeave(d, r) => LeaveCommutes(v, d, r, c);
    }
  }

  function Others(ops: seq<Op>, c: string): seq<Op> {
    if ops == [] then [] else (if ops[0].c == c then [] else [ops[0]]) + Others(ops[1..], c)
  }

  /** While c is connected, its own steps are joins and leaves. */
  predicate StaysConnected(ops: seq<Op>, c: string) {
    forall i :: 0 <= i < |ops| && ops[i].c == c ==> ops[i].OpJoin? || ops[i].OpLeave?
  }

  lemma {:induction false} UnregisterErasesSteps(v: Registry, ops: seq<Op>, c: string)
    requires Inv(v) && c in v.users && AllAllowed(v, ops) && StaysConnected(ops, c)
    ensures AllAllowed(Unregister(v, c), Others(ops, c))
    ensures Unregister(DoAll(v, ops), c) == DoAll(Unregister(v, c), Others(ops, c))
    decreases |ops|
  {
    if ops != [] {
      var op := ops[0];
      var w := Do(v, op);
      DoKeepsInv(v, op);
      if op.c == c {
        if op.OpJoin? {
          OwnJoinIsErased(v, c, op.r);
        } else {
          OwnLeaveIsErased(v, c, op.r);
        }
        UnregisterErasesSteps(w, ops[1..], c);
        assert Others(ops, c) == Others(ops[1..], c);
      } else {
        OthersCommute(v, op, c);
        UnregisterErasesSteps(w, ops[1..], c);
        assert Others(ops, c) == [op] + Others(ops[1..], c);
      }
    }
  }

  /**
   * A connection leaves no trace. Register c, let c and everybody else do anything in between, unregister c:
   * the registry is exactly what the others alone would have made of it.
   */
  lemma UnregisterErasesClient(v: Registry, c: string, u: string, ops: seq<Op>)
    requires Inv(v) && c !in v.users
    requires AllAllowed(Register(v, c, u, {}), ops) && StaysConnected(ops, c)
    ensures Unregister(DoAll(Register(v, c, u, {}), ops), c) == DoAll(v, Others(ops, c))
  {
    RegisterKeepsInvIff(v, c, u, {});
    UnregisterUndoesRegister(v, c, u);
    UnregisterErasesSteps(Register(v, c, u, {}), ops, c);
  }

  /** In particular, a client alone gives back exactly the clients, rooms and user registry found. */
  lemma {:induction false} OwnStepsRoundTrip(v: Registry, c: string, u: string, ops: seq<Op>)
    requires Inv(v) && c !in v.users
    requires AllAllowed(Register(v, c, u, {}), ops) && StaysConnected(ops, c)
    requires forall i :: 0 <= i < |ops| ==> ops[i].c == c
    ensures Unregister(DoAll(Register(v, c, u, {}), ops), c) == v
  {
    NoOthers(ops, c);
    UnregisterErasesClient(v, c, u, ops);
  }

  lemma {:induction false} NoOthers(ops: seq<Op>, c: string)
    requires forall i :: 0 <= i < |ops| ==> ops[i].c == c
    ensures Others(ops, c) == []
  {
    if ops != [] {
      NoOthers(ops[1..], c);
    }
  }
}
