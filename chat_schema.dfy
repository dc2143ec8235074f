/** The Chat document: one per booking, holding the conversation as an
    ordered list of embedded messages. */
module ChatSchema {
  import opened Common

  /** An embedded message; the schema marks none of its fields required. */
  datatype Message = Message(senderId: Option<Id>, receiverId: Option<Id>, text: Option<string>, timestamp: int)

  /** `bookingId` is required; `createdAt`/`updatedAt` come from the
      schema's `timestamps` option. */
  datatype Chat = Chat(bookingId: Id, messages: seq<Message>, createdAt: int, updatedAt: int)

  /** A message as the schema builds it: `timestamp` defaults to the clock
      reading `now` when the caller supplies none. */
  function NewMessage(senderId: Option<Id>, receiverId: Option<Id>, text: Option<string>,
                      timestamp: Option<int>, now: int): (m: Message)
    ensures m.senderId == senderId && m.receiverId == receiverId && m.text == text
    ensures timestamp.None? ==> m.timestamp == now
    ensures timestamp.Some? ==> m.timestamp == timestamp.value
  {
    Message(senderId, receiverId, text, if timestamp.Some? then timestamp.value else now)
  }

  /** A new chat for a booking, stamped at its first save. */
  function NewChat(bookingId: Id, now: int): (c: Chat)
    ensures c.bookingId == bookingId && c.messages == []
    ensures c.createdAt == now && c.updatedAt == now
  {
    Chat(bookingId, [], now, now)
  }

  /** Saving a modified chat refreshes `updatedAt` and keeps `createdAt`. */
  function Touched(c: Chat, now: int): (d: Chat)
    ensures d.bookingId == c.bookingId && d.messages == c.messages
    ensures d.createdAt == c.createdAt && d.updatedAt == now
  {
    c.(updatedAt := now)
  }
}
