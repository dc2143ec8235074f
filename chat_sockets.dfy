/** The real-time chat: per-booking rooms, the access gate on the
    booking's status, the find-or-create of the booking's chat, the append
    of each sent message and the broadcast of the whole history. */
module ChatSockets {
  import opened Common
  import opened BookingSchema
  import opened ChatSchema
  import opened Store

  type SocketId = string

  const GateError: string := "Chat is only available for accepted bookings."

  /** The status the gate compares against, letter for letter. */
  const GateStatus: string := "Accepted"

  /** What a handler emits: an error to the calling socket, the message
      list to every socket of a booking's room, or the list to the caller. */
  datatype Emit =
    | ErrorToCaller(message: string)
    | ToRoom(room: Id, members: set<SocketId>, messages: seq<Message>)
    | ToCaller(messages: seq<Message>)

  /** The gate of `joinChat` and `sendMessage`: the booking exists and its
      status is exactly `"Accepted"`. */
  predicate ChatOpen(bookings: map<Id, Booking>, bookingId: Id)
  {
    bookingId in bookings && bookings[bookingId].status == GateStatus
  }

  function RoomOf(rooms: map<Id, set<SocketId>>, room: Id): set<SocketId>
  {
    if room in rooms then rooms[room] else {}
  }

  /** The stored conversation of a booking: that of the first chat found
      for it, or nothing when there is none. */
  function History(chats: seq<Chat>, bookingId: Id): (h: seq<Message>)
    ensures FindChat(chats, bookingId).None? ==> h == []
    ensures FindChat(chats, bookingId).Some? ==> h == chats[FindChat(chats, bookingId).value].messages
  {
    match FindChat(chats, bookingId)
    case None => []
    case Some(i) => chats[i].messages
  }

  /** The chats after `m` is pushed onto the booking's chat and the chat is
      saved at time `now`; a booking without a chat gets a new one at the end. */
  function Appended(chats: seq<Chat>, bookingId: Id, m: Message, now: int): seq<Chat>
  {
    match FindChat(chats, bookingId)
    case None => chats + [Chat(bookingId, [m], now, now)]
    case Some(i) => chats[i := Touched(chats[i].(messages := chats[i].messages + [m]), now)]
  }

  /** At most one chat per booking. */
  predicate OneChatPerBooking(chats: seq<Chat>)
  {
    forall i, j :: 0 <= i < j < |chats| ==> chats[i].bookingId != chats[j].bookingId
  }

  /** The sockets connected to the chat and the rooms they have joined. */
  class Gateway {
    var rooms: map<Id, set<SocketId>>

    constructor ()
      ensures rooms == map[]
    {
      rooms := map[];
    }

    /** `joinChat`: when the gate is open the socket joins the booking's
        room and nothing is emitted; otherwise the caller gets the gate error
        and the rooms are unchanged. */
    method JoinChat(db: Database, socket: SocketId, bookingId: Id) returns (e: Option<Emit>)
      modifies this`rooms
      ensures ChatOpen(db.bookings, bookingId) ==>
                e.None? && rooms == old(rooms)[bookingId := RoomOf(old(rooms), bookingId) + {socket}]
      ensures !ChatOpen(db.bookings, bookingId) ==>
                e == Some(ErrorToCaller(GateError)) && rooms == old(rooms)
    {
      if !(bookingId in db.bookings) || db.bookings[bookingId].status != GateStatus {
        return Some(ErrorToCaller(GateError));
      }
      rooms := rooms[bookingId := RoomOf(rooms, bookingId) + {socket}];
      e := None;
    }

    /** `sendMessage`: when the gate is open the message (with the sent
        text, and the clock reading as its timestamp) is pushed onto the
        booking's chat, created first if missing, and the room receives the
        full updated history. Whether the sender joined the room plays no part. */
    method SendMessage(db: Database, bookingId: Id, senderId: Option<Id>, receiverId: Option<Id>,
                       message: Option<string>, now: int) returns (e: Emit)
      modifies db`chats
      ensures !ChatOpen(db.bookings, bookingId) ==>
                e == ErrorToCaller(GateError) && db.chats == old(db.chats)
      ensures ChatOpen(db.bookings, bookingId) ==>
                db.chats == Appended(old(db.chats), bookingId, NewMessage(senderId, receiverId, message, None, now), now)
      ensures ChatOpen(db.bookings, bookingId) ==>
                e == ToRoom(bookingId, RoomOf(rooms, bookingId), History(db.chats, bookingId))
    {
      if !(bookingId in db.bookings) || db.bookings[bookingId].status != GateStatus {
        return ErrorToCaller(GateError);
      }
      var m := NewMessage(senderId, receiverId, message, None, now);
      ghost var before := db.chats;
      var found := FindChat(db.chats, bookingId);
      var chat: Chat;
      if found.None? {
        chat := NewChat(bookingId, now);
      } else {
        chat := db.chats[found.value];
      }
      chat := chat.(messages := chat.messages + [m]);
      chat := Touched(chat, now);
      if found.None? {
        db.chats := db.chats + [chat];
      } else {
        db.chats := db.chats[found.value := chat];
      }
      AppendAtEnd(before, bookingId, m, now);
      e := ToRoom(bookingId, RoomOf(rooms, bookingId), chat.messages);
    }

    /** `getMessages`: the stored history, or the empty list; no gate, no change. */
    method GetMessages(db: Database, bookingId: Id) returns (e: Emit)
      ensures e == ToCaller(History(db.chats, bookingId))
      ensures FindChat(db.chats, bookingId).None? ==> e.messages == []
    {
      var found := FindChat(db.chats, bookingId);
      if found.None? {
        e := ToCaller([]);
      } else {
        e := ToCaller(db.chats[found.value].messages);
      }
    }
  }

  /** The appended message lands at the end of the booking's history; the
      earlier messages keep their values and order. */
  lemma AppendAtEnd(chats: seq<Chat>, bookingId: Id, m: Message, now: int)
    ensures History(Appended(chats, bookingId, m, now), bookingId) == History(chats, bookingId) + [m]
  {
    var after := Appended(chats, bookingId, m, now);
    match FindChat(chats, bookingId)
    case None =>
      assert after[|chats|].bookingId == bookingId;
      assert forall j :: 0 <= j < |chats| ==> after[j].bookingId != bookingId;
      assert FindChat(after, bookingId) == Some(|chats|);
    case Some(i) =>
      assert after[i].bookingId == bookingId;
      assert forall j :: 0 <= j < i ==> after[j] == chats[j];
      assert FindChat(after, bookingId) == Some(i);
  }

  /** Sending on one booking leaves the history of every other booking as it was. */
  lemma OtherHistoriesUnchanged(chats: seq<Chat>, bookingId: Id, other: Id, m: Message, now: int)
    requires other != bookingId
    ensures History(Appended(chats, bookingId, m, now), other) == History(chats, other)
  {
    var after := Appended(chats, bookingId, m, now);
    match FindChat(chats, bookingId)
    case None =>
      assert after == chats + [Chat(bookingId, [m], now, now)];
      assert forall j :: 0 <= j < |chats| ==> after[j] == chats[j];
      FindChatUnchanged(chats, after, other);
    case Some(i) =>
      assert forall j :: 0 <= j < |chats| && j != i ==> after[j] == chats[j];
      assert after[i].bookingId == chats[i].bookingId;
      FindChatUnchanged(chats, after, other);
  }

  /** Chats that keep the booking of every position, and add none for
      `other`, find the chat of `other` at the same place. */
  lemma FindChatUnchanged(chats: seq<Chat>, after: seq<Chat>, other: Id)
    requires |chats| <= |after|
    requires forall j :: 0 <= j < |chats| ==> after[j].bookingId == chats[j].bookingId
    requires forall j :: |chats| <= j < |after| ==> after[j].bookingId != other
    ensures FindChat(after, other) == FindChat(chats, other)
  {
    match FindChat(chats, other)
    case None =>
      assert FindChat(after, other).None?;
    case Some(k) =>
      assert FindChat(after, other) == Some(k);
  }

  /** Find-or-create never makes a second chat for a booking. */
  lemma AppendedKeepsOneChat(chats: seq<Chat>, bookingId: Id, m: Message, now: int)
    requires OneChatPerBooking(chats)
    ensures OneChatPerBooking(Appended(chats, bookingId, m, now))
  {
    var after := Appended(chats, bookingId, m, now);
    assert forall j :: 0 <= j < |chats| ==> after[j].bookingId == chats[j].bookingId;
  }

  /** A booking without a chat gets exactly one new chat, holding exactly
      the sent message; a booking with one keeps the number of chats. */
  lemma AppendedCreatesWhenMissing(chats: seq<Chat>, bookingId: Id, m: Message, now: int)
    ensures FindChat(chats, bookingId).None? ==>
              Appended(chats, bookingId, m, now) == chats + [Chat(bookingId, [m], now, now)]
    ensures FindChat(chats, bookingId).Some? ==> |Appended(chats, bookingId, m, now)| == |chats|
  {
  }

  /** No status the booking schema admits is the gate's `"Accepted"`. */
  lemma GateStatusNotAdmitted()
    ensures GateStatus !in Statuses
    ensures "accepted" in Statuses
  {
  }

  /** So when every stored booking is well formed, the gate is closed for
      every booking id: joining and sending always answer with the error. */
  lemma GateAlwaysClosed(bookings: map<Id, Booking>, bookingId: Id)
    requires forall k :: k in bookings ==> WellFormed(bookings[k])
    ensures !ChatOpen(bookings, bookingId)
  {
    GateStatusNotAdmitted();
  }
}
