/** The chat endpoints (ChatController): STOMP message mappings and REST
    handlers as call sequences over the chat store, the message broker and the
    WebSocket session's attributes. The authenticated user's id is a parameter. */
module ChatController {
  import opened Wrappers
  import opened Dates
  import opened ChatMessages
  import opened ChatService

  /** What the broker delivered: every `@SendTo` return value and every
      `convertAndSend`. */
  class Broker {
    var published: seq<Publication>

    constructor ()
      ensures published == []
    {
      published := [];
    }

    method ConvertAndSend(destination: string, m: ChatMessage)
      modifies this
      ensures published == old(published) + [Publication(destination, m)]
    {
      published := published + [Publication(destination, m)];
    }
  }

  /** A value stored in the WebSocket session's attributes. */
  datatype SessionValue = StringValue(s: string) | LongValue(n: int)

  /** The attributes of one WebSocket session. The map rejects null values
      with a NullPointerException. */
  class WebSocketSession {
    var attributes: map<string, SessionValue>

    constructor ()
      ensures attributes == map[]
    {
      attributes := map[];
    }
  }

  const USERNAME_KEY: string := "username"
  const USER_ID_KEY: string := "userId"

  /** `sendMessage` (`/app/chat.sendMessage`): saves the message and sends the
      saved copy to the public topic. */
  method SendMessage(store: ChatStore, broker: Broker, dto: ChatMessage, now: DateTime) returns (r: Result<ChatMessage>)
    requires store.Valid()
    modifies store, broker
    ensures store.Valid()
    ensures r.Ok? ==> broker.published == old(broker.published) + [Publication(PUBLIC_TOPIC, r.value)]
    ensures r.Err? <==> SaveError(old(store.users), dto).Some?
    ensures r.Err? ==> r.error == SaveError(old(store.users), dto).value
    ensures r.Err? ==> broker.published == old(broker.published) && store.messages == old(store.messages)
    ensures r.Ok? ==>
      |store.messages| == |old(store.messages)| + 1
      && r.value == MessageDto(|store.messages|, store.messages[|store.messages| - 1], store.users)
  {
    var written;
    r, written := store.SaveMessage(dto, now);
    if r.Ok? {
      broker.ConvertAndSend(PUBLIC_TOPIC, r.value);
    }
  }

  /** `sendPrivateMessage` (`/app/chat.sendPrivateMessage/{conversationId}`):
      saves first, then sends the saved copy to the topic of the path's
      conversation id, the topic a client viewing that conversation holds. */
  method SendPrivateMessage(store: ChatStore, broker: Broker, conversationId: string, dto: ChatMessage, now: DateTime)
    returns (r: Result<ChatMessage>)
    requires store.Valid()
    modifies store, broker
    ensures store.Valid()
    ensures r.Ok? ==> broker.published == old(broker.published) + [Publication(ConversationTopic(conversationId), r.value)]
    ensures r.Err? <==> SaveError(old(store.users), dto).Some?
    ensures r.Err? ==> r.error == SaveError(old(store.users), dto).value
    ensures r.Err? ==> broker.published == old(broker.published) && store.messages == old(store.messages)
    ensures r.Ok? ==>
      |store.messages| == |old(store.messages)| + 1
      && r.value == MessageDto(|store.messages|, store.messages[|store.messages| - 1], store.users)
  {
    var written;
    r, written := store.SaveMessage(dto, now);
    if r.Err? {
      return;
    }
    broker.ConvertAndSend(ConversationTopic(conversationId), r.value);
  }

  /** `addUser` (`/app/chat.addUser`): records the sender's name and id in the
      session and returns the payload unchanged for the public topic. A null
      name or id is refused by the attribute map, after the puts before it. */
  method AddUser(session: WebSocketSession, broker: Broker, dto: ChatMessage) returns (r: Result<ChatMessage>)
    modifies session, broker
    ensures dto.senderName.None? ==>
      r == Err(NullPointerException) && session.attributes == old(session.attributes)
    ensures dto.senderName.Some? && dto.senderId.None? ==>
      r == Err(NullPointerException)
      && session.attributes == old(session.attributes)[USERNAME_KEY := StringValue(dto.senderName.value)]
    ensures dto.senderName.Some? && dto.senderId.Some? ==>
      r == Ok(dto)
      && session.attributes == old(session.attributes)[USERNAME_KEY := StringValue(dto.senderName.value)]
                                                      [USER_ID_KEY := LongValue(dto.senderId.value)]
    ensures r.Ok? ==> broker.published == old(broker.published) + [Publication(PUBLIC_TOPIC, dto)]
    ensures r.Err? ==> broker.published == old(broker.published)
  {
    if dto.senderName.None? {
      return Err(NullPointerException);
    }
    session.attributes := session.attributes[USERNAME_KEY := StringValue(dto.senderName.value)];
    if dto.senderId.None? {
      return Err(NullPointerException);
    }
    session.attributes := session.attributes[USER_ID_KEY := LongValue(dto.senderId.value)];
    r := Ok(dto);
    broker.ConvertAndSend(PUBLIC_TOPIC, dto);
  }

  /** `getOrCreateConversation`: pairs the authenticated user with the path user. */
  method GetOrCreateConversation(store: ChatStore, currentUserId: int, userId: int, now: DateTime)
    returns (r: Result<ConversationView>)
    requires store.Valid()
    modifies store
    ensures store.Valid()
    ensures r.Ok? ==> r.value.conversationId == ConversationIdFor(currentUserId, userId)
    ensures r.Ok? <==> currentUserId in store.users && userId in store.users
    ensures store.messages == old(store.messages) && store.users == old(store.users)
  {
    r := store.FindOrCreateConversation(currentUserId, userId, now);
  }

  const DEFAULT_PAGE: int := 0
  const DEFAULT_SIZE: int := 20

  /** `getMessages`: marks the conversation read for the authenticated user,
      then returns the requested page (page 0 and size 20 when absent). The
      mark-read commits even when the page request is then refused. */
  method GetMessages(store: ChatStore, conversationId: string, userId: int, page: Option<int>, size: Option<int>)
    returns (r: Result<MessagePage>)
    requires store.Valid()
    modifies store
    ensures store.Valid()
    ensures store.messages == MarkedRead(old(store.messages), conversationId, userId)
    ensures store.users == old(store.users) && store.conversations == old(store.conversations)
    ensures r == MessagesPage(store.messages, store.users, conversationId,
                              page.GetOr(DEFAULT_PAGE), size.GetOr(DEFAULT_SIZE))
    ensures r.Ok? ==> forall k :: 0 <= k < |r.value.messages| && r.value.messages[k].receiverId == Some(userId) ==>
      r.value.messages[k].isRead == Some(true)
  {
    PageAfterMarkRead(store.messages, store.users, conversationId, userId, page.GetOr(DEFAULT_PAGE), size.GetOr(DEFAULT_SIZE));
    store.MarkMessagesAsRead(conversationId, userId);
    r := MessagesPage(store.messages, store.users, conversationId, page.GetOr(DEFAULT_PAGE), size.GetOr(DEFAULT_SIZE));
  }

  /** `sendMessageRest`: the sender is always the authenticated user; the saved
      copy goes to its conversation's topic. */
  method SendMessageRest(store: ChatStore, broker: Broker, userId: int, dto: ChatMessage, now: DateTime)
    returns (r: Result<ChatMessage>)
    requires store.Valid()
    modifies store, broker
    ensures store.Valid()
    ensures r.Ok? ==> r.value.senderId == Some(userId) && r.value.conversationId.Some?
    ensures r.Ok? ==>
      broker.published == old(broker.published) + [Publication(ConversationTopic(r.value.conversationId.value), r.value)]
    ensures r.Ok? ==>
      dto.receiverId.Some?
      && r.value.conversationId == Some(ResolveConversationId(dto.conversationId, userId, dto.receiverId.value))
    ensures r.Err? ==> broker.published == old(broker.published) && store.messages == old(store.messages)
    ensures userId !in old(store.users) ==> r == Err(RuntimeException)
    ensures r.Err? <==> SaveError(old(store.users), dto.(senderId := Some(userId))).Some?
    ensures r.Err? ==> r.error == SaveError(old(store.users), dto.(senderId := Some(userId))).value
  {
    var written;
    r, written := store.SaveMessage(dto.(senderId := Some(userId)), now);
    if r.Err? {
      return;
    }
    broker.ConvertAndSend(ConversationTopic(r.value.conversationId.value), r.value);
  }

  /** `markMessagesAsRead` (`PUT /conversations/{conversationId}/read`). */
  method MarkMessagesAsRead(store: ChatStore, conversationId: string, userId: int)
    requires store.Valid()
    modifies store
    ensures store.Valid()
    ensures store.messages == MarkedRead(old(store.messages), conversationId, userId)
    ensures CountUnread(store.messages, conversationId, userId) == 0
    ensures store.users == old(store.users) && store.conversations == old(store.conversations)
  {
    MarkedReadClearsUnread(store.messages, conversationId, userId);
    store.MarkMessagesAsRead(conversationId, userId);
  }
}
