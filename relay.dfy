/**
 * The socket.io `connection` handler of server/server.mjs: `joinRoom`, `sendMessage`
 * and `disconnect`. The room table that `socket.join` and `io.to(room)` use is a map
 * from room to the set of joined socket ids; every `io.to(room).emit` appends one
 * emission to an outbox; `console.log` lines are appended to a log. The two Supabase
 * queries are parameters: functions from what is sent to what comes back.
 */
module Relay {
  import opened Wrappers

  type SessionId = string
  type RoomId = string
  type UserId = string
  type MessageId = string

  /** The `sendMessage` payload `{ userId, roomId, content, type? }`; an absent `type` is None. */
  datatype MessagePayload = MessagePayload(userId: UserId, roomId: RoomId, content: string, msgType: Option<string>)

  /** The `values` object handed to the insert (server.mjs:35-40). */
  datatype NewMessage = NewMessage(userId: UserId, roomId: RoomId, content: string, msgType: string)

  datatype Profile = Profile(id: UserId, name: string, image: Option<string>)

  /**
   * A row of the `messages` table as a query returns it. `user` is the joined sender
   * (`user:users(*)`); the plain `select("*")` after the insert leaves it out.
   */
  datatype MessageRecord = MessageRecord(
    id: MessageId, userId: UserId, roomId: RoomId, content: string, msgType: string, user: Option<Profile>)

  /** One `io.to(room).emit(event, record)`: the room, the sockets it reached, the event and its data. */
  datatype Emission = Emission(room: RoomId, recipients: set<SessionId>, event: string, record: MessageRecord)

  /** The handler's return value: `{ success: true, data }` or `{ success: false, data: [] }`. */
  datatype SendReply = Sent(data: MessageRecord) | SendFailed

  /** JavaScript truthiness of the optional `type`: absent and `""` are falsy. */
  predicate Truthy(t: Option<string>) {
    t.Some? && t.value != ""
  }

  /** The row to insert: the payload's fields as they are, `type` defaulting to `"TEXT"`. */
  function BuildValues(payload: MessagePayload): (r: NewMessage)
    ensures r.userId == payload.userId && r.roomId == payload.roomId && r.content == payload.content
    ensures Truthy(payload.msgType) ==> r.msgType == payload.msgType.value
    ensures !Truthy(payload.msgType) ==> r.msgType == "TEXT"
    ensures r.msgType != ""
  {
    NewMessage(payload.userId, payload.roomId, payload.content,
      if Truthy(payload.msgType) then payload.msgType.value else "TEXT")
  }

  /** The sockets joined to `room` in a room table (none when the room is not a key). */
  function MembersOf(rooms: map<RoomId, set<SessionId>>, room: RoomId): set<SessionId> {
    if room in rooms then rooms[room] else {}
  }

  /** `socket.join(room)`: the socket is added to that room's set. */
  function Join(rooms: map<RoomId, set<SessionId>>, session: SessionId, room: RoomId): (r: map<RoomId, set<SessionId>>)
    ensures MembersOf(r, room) == MembersOf(rooms, room) + {session}
    ensures forall other :: other != room ==> MembersOf(r, other) == MembersOf(rooms, other)
  {
    rooms[room := MembersOf(rooms, room) + {session}]
  }

  /** Joining a room a second time changes nothing. */
  lemma JoinIdempotent(rooms: map<RoomId, set<SessionId>>, session: SessionId, room: RoomId)
    ensures Join(Join(rooms, session, room), session, room) == Join(rooms, session, room)
  {
    var once := Join(rooms, session, room);
    assert MembersOf(once, room) + {session} == MembersOf(once, room);
  }

  /** The records a session has received, oldest first. */
  function Received(outbox: seq<Emission>, session: SessionId): (r: seq<MessageRecord>)
    ensures |r| <= |outbox|
  {
    if outbox == [] then []
    else
      var last := outbox[|outbox| - 1];
      Received(outbox[..|outbox| - 1], session) + (if session in last.recipients then [last.record] else [])
  }

  /** An emission adds its record to what each of its recipients received, and to nobody else's. */
  lemma ReceivedAfterEmit(outbox: seq<Emission>, e: Emission, session: SessionId)
    ensures Received(outbox + [e], session) ==
      Received(outbox, session) + (if session in e.recipients then [e.record] else [])
  {
    assert (outbox + [e])[..|outbox|] == outbox;
  }

  class RelayServer {
    /** socket.io's room table. */
    var rooms: map<RoomId, set<SessionId>>
    /** Every `emit` so far, in order. */
    var outbox: seq<Emission>
    /** The lines written with `console.log`. */
    var log: seq<string>

    constructor ()
      ensures rooms == map[] && outbox == [] && log == []
    {
      rooms, outbox, log := map[], [], [];
    }

    function Members(room: RoomId): set<SessionId>
      reads this
    {
      MembersOf(rooms, room)
    }

    /** The `connection` event (server.mjs:25-26): only logs the socket id. */
    method Connect(session: SessionId)
      modifies this`log
      ensures log == old(log) + ["Client connected: " + session]
    {
      log := log + ["Client connected: " + session];
    }

    /** `joinRoom` (server.mjs:29-31): `socket.join(roomId)`, nothing else. */
    method JoinRoom(session: SessionId, room: RoomId)
      modifies this`rooms
      ensures rooms == Join(old(rooms), session, room)
      ensures Members(room) == old(Members(room)) + {session}
    {
      rooms := Join(rooms, session, room);
    }

    /**
     * `sendMessage` (server.mjs:33-68): insert the row, re-fetch it by the inserted id with
     * its sender, and only when both returned data emit the fetched row to the payload's room.
     * `insert` and `fetchWithUser` stand for the two queries; their `error` values are
     * ignored by the handler and so are not modelled.
     */
    method SendMessage(payload: MessagePayload,
                       insert: NewMessage -> Option<MessageRecord>,
                       fetchWithUser: MessageId -> Option<MessageRecord>)
      returns (reply: SendReply)
      modifies this`outbox
      ensures insert(BuildValues(payload)).None? ==> reply == SendFailed && outbox == old(outbox)
      ensures insert(BuildValues(payload)).Some? && fetchWithUser(insert(BuildValues(payload)).value.id).None? ==>
        reply == SendFailed && outbox == old(outbox)
      ensures reply.Sent? <==>
        insert(BuildValues(payload)).Some? && fetchWithUser(insert(BuildValues(payload)).value.id).Some?
      ensures reply.Sent? ==>
        && reply.data == fetchWithUser(insert(BuildValues(payload)).value.id).value
        && outbox == old(outbox) + [Emission(payload.roomId, Members(payload.roomId), "message", reply.data)]
      ensures forall s ::
                Received(outbox, s)
                == Received(old(outbox), s) + (if reply.Sent? && s in Members(payload.roomId) then [reply.data] else [])
    {
      var values := BuildValues(payload);
      var insertData := insert(values);
      if insertData.None? {
        return SendFailed;
      }
      var fetchData := fetchWithUser(insertData.value.id);
      if fetchData.None? {
        return SendFailed;
      }
      var e := Emission(payload.roomId, Members(payload.roomId), "message", fetchData.value);
      forall s ensures Received(outbox + [e], s) == Received(outbox, s) + (if s in e.recipients then [e.record] else []) {
        ReceivedAfterEmit(outbox, e, s);
      }
      outbox := outbox + [e];
      reply := Sent(fetchData.value);
    }

    /** The `disconnect` event (server.mjs:70-72): only logs; the room table and the outbox stay as they are. */
    method Disconnect(session: SessionId)
      modifies this`log
      ensures log == old(log) + ["Client disconnected: " + session]
    {
      log := log + ["Client disconnected: " + session];
    }
  }

  /**
   * With a store whose insert of the built row returns a row with the payload's fields,
   * and whose fetch by that row's id returns the same row with its sender, a successful
   * send delivers the payload's content, sender, room and type to every member of the room.
   */
  lemma ConsistentStoreDeliversPayload(
    payload: MessagePayload,
    insert: NewMessage -> Option<MessageRecord>, fetchWithUser: MessageId -> Option<MessageRecord>,
    rooms: map<RoomId, set<SessionId>>, outbox: seq<Emission>, s: SessionId)
    requires insert(BuildValues(payload)).Some?
    requires var row := insert(BuildValues(payload)).value;
      && row.userId == payload.userId && row.roomId == payload.roomId
      && row.content == payload.content && row.msgType == BuildValues(payload).msgType
      && fetchWithUser(row.id).Some?
      && fetchWithUser(row.id).value == row.(user := fetchWithUser(row.id).value.user)
    requires s in MembersOf(rooms, payload.roomId)
    ensures var fetched := fetchWithUser(insert(BuildValues(payload)).value.id).value;
      var after := outbox + [Emission(payload.roomId, MembersOf(rooms, payload.roomId), "message", fetched)];
      var got := Received(after, s)[|Received(after, s)| - 1];
      && |Received(after, s)| == |Received(outbox, s)| + 1
      && got.content == payload.content && got.userId == payload.userId && got.roomId == payload.roomId
      && got.msgType == BuildValues(payload).msgType
  {
    var fetched := fetchWithUser(insert(BuildValues(payload)).value.id).value;
    var e := Emission(payload.roomId, MembersOf(rooms, payload.roomId), "message", fetched);
    ReceivedAfterEmit(outbox, e, s);
  }
}
