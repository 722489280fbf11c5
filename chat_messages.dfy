/** The chat message exchanged between the browser client and the server.

    On the server it is `ChatMessageDTO`; in the browser it is the JSON object
    the client builds or parses. Every field may be null (absent), so each is
    an `Option`. The destinations and topics used by both sides are defined
    here once.
 */
module ChatMessages {
  import opened Wrappers
  import opened Dates

  datatype ChatMessage = ChatMessage(
    id: Option<int>,
    senderId: Option<int>,
    senderName: Option<string>,
    receiverId: Option<int>,
    receiverName: Option<string>,
    content: Option<string>,
    timestamp: Option<DateTime>,
    isRead: Option<bool>,
    conversationId: Option<string>,
    messageType: Option<string>)

  /** A message with every field null (`ChatMessageDTO.builder().build()`). */
  const EmptyMessage: ChatMessage :=
    ChatMessage(None, None, None, None, None, None, None, None, None, None)

  const CHAT: string := "CHAT"
  const JOIN: string := "JOIN"
  const LEAVE: string := "LEAVE"

  const PUBLIC_TOPIC: string := "/topic/public"
  const ADD_USER_DESTINATION: string := "/app/chat.addUser"
  const SEND_MESSAGE_DESTINATION: string := "/app/chat.sendMessage"
  const PRIVATE_DESTINATION_PREFIX: string := "/app/chat.sendPrivateMessage/"
  const CONVERSATION_TOPIC_PREFIX: string := "/topic/conversations."

  /** The topic on which the messages of one conversation are delivered. */
  function ConversationTopic(conversationId: string): (t: string)
    ensures |t| == |CONVERSATION_TOPIC_PREFIX| + |conversationId|
    ensures t[..|CONVERSATION_TOPIC_PREFIX|] == CONVERSATION_TOPIC_PREFIX
    ensures t[|CONVERSATION_TOPIC_PREFIX|..] == conversationId
  {
    CONVERSATION_TOPIC_PREFIX + conversationId
  }

  /** Different conversations are delivered on different topics. */
  lemma ConversationTopicInjective(a: string, b: string)
    requires ConversationTopic(a) == ConversationTopic(b)
    ensures a == b
  {
    assert a == ConversationTopic(a)[|CONVERSATION_TOPIC_PREFIX|..];
  }

  /** A message sent to a destination or a topic. */
  datatype Publication = Publication(destination: string, message: ChatMessage)
}
