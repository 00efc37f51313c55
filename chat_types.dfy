/** The message records exchanged with the chat API and the realtime channel. */
module ChatTypes {
  import opened Wrappers

  datatype User = User(id: string, username: string)

  /**
   * A chat message. `parentId` is `None` for both `null` and an absent field;
   * `replies` and `count` (the `_count.replies` field) are optional because
   * the client tolerates their absence.
   */
  datatype Message = Message(
    id: string,
    senderId: string,
    receiverId: string,
    text: string,
    createdAt: string,
    isRead: Option<bool>,
    parentId: Option<string>,
    replies: Option<seq<Message>>,
    sender: User,
    count: Option<int>)

  /** `message.parentId` is truthy: present, not null and not the empty string. */
  predicate IsReply(m: Message) {
    m.parentId.Some? && m.parentId.value != ""
  }

  /** `msg.replies || []`. */
  function RepliesOf(m: Message): seq<Message> {
    m.replies.GetOr([])
  }

  /** `msg._count?.replies || 0`. */
  function CountOf(m: Message): int {
    m.count.GetOr(0)
  }

  /** The denormalised reply count agrees with the reply list. */
  predicate CountConsistent(m: Message) {
    CountOf(m) == |RepliesOf(m)|
  }
}
