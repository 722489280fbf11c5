/** The WebSocket session listener (WebSocketEventListener): a connect event
    publishes nothing; a disconnect event reads the session's "username" and
    "userId" attributes and announces a LEAVE on the public topic when a
    username is present. The lemmas at the end connect the server's
    messages to what the browser client does with them. */
module WebSocketEvents {
  import opened Wrappers
  import opened ChatMessages
  import opened ChatService
  import opened ChatController
  import ChatClient
  import Text

  /** The connect handler only logs. */
  function HandleConnect(attributes: map<string, SessionValue>): (p: Option<Publication>)
    ensures p.None?
  {
    None
  }

  /** `(String) get(key)`: a value of another type fails the cast. */
  function StringAttribute(attributes: map<string, SessionValue>, key: string): (r: Result<Option<string>>)
    ensures key !in attributes ==> r == Ok(None)
    ensures key in attributes && attributes[key].StringValue? ==> r == Ok(Some(attributes[key].s))
    ensures key in attributes && !attributes[key].StringValue? ==> r == Err(ClassCastException)
  {
    if key !in attributes then Ok(None)
    else match attributes[key]
      case StringValue(s) => Ok(Some(s))
      case LongValue(_) => Err(ClassCastException)
  }

  /** `(Long) get(key)`. */
  function LongAttribute(attributes: map<string, SessionValue>, key: string): (r: Result<Option<int>>)
    ensures key !in attributes ==> r == Ok(None)
    ensures key in attributes && attributes[key].LongValue? ==> r == Ok(Some(attributes[key].n))
    ensures key in attributes && !attributes[key].LongValue? ==> r == Err(ClassCastException)
  {
    if key !in attributes then Ok(None)
    else match attributes[key]
      case LongValue(n) => Ok(Some(n))
      case StringValue(_) => Err(ClassCastException)
  }

  /** The LEAVE announcement: only the type, the sender id and the sender name are set. */
  function LeaveAnnouncement(userId: Option<int>, username: string): (m: ChatMessage)
    ensures m.messageType == Some(LEAVE) && m.senderId == userId && m.senderName == Some(username)
    ensures m.content.None? && m.receiverId.None? && m.conversationId.None? && m.id.None?
  {
    EmptyMessage.(messageType := Some(LEAVE), senderId := userId, senderName := Some(username))
  }

  /** The disconnect handler: at most one publication, a LEAVE on the public
      topic, exactly when the session holds a username. */
  function HandleDisconnect(attributes: map<string, SessionValue>): (r: Result<Option<Publication>>)
    ensures r.Ok? && r.value.Some? <==>
      USERNAME_KEY in attributes && attributes[USERNAME_KEY].StringValue?
      && (USER_ID_KEY in attributes ==> attributes[USER_ID_KEY].LongValue?)
    ensures r.Ok? && r.value.Some? ==>
      r.value.value.destination == PUBLIC_TOPIC
      && r.value.value.message == LeaveAnnouncement(LongAttribute(attributes, USER_ID_KEY).value,
                                                    attributes[USERNAME_KEY].s)
  {
    var username :- StringAttribute(attributes, USERNAME_KEY);
    var userId :- LongAttribute(attributes, USER_ID_KEY);
    if username.Some? then Ok(Some(Publication(PUBLIC_TOPIC, LeaveAnnouncement(userId, username.value))))
    else Ok(None)
  }

  /** After `addUser` stored a name and an id, the disconnect of that session
      announces the same name and id. */
  lemma LeaveCarriesJoinedIdentity(attributes: map<string, SessionValue>, name: string, id: int)
    ensures HandleDisconnect(attributes[USERNAME_KEY := StringValue(name)][USER_ID_KEY := LongValue(id)])
         == Ok(Some(Publication(PUBLIC_TOPIC, LeaveAnnouncement(Some(id), name))))
  {
    var a := attributes[USERNAME_KEY := StringValue(name)][USER_ID_KEY := LongValue(id)];
    assert USERNAME_KEY != USER_ID_KEY;
    assert a[USERNAME_KEY] == StringValue(name);
  }

  /** A browser receiving that announcement on the public topic shows
      "<name> left the chat". */
  lemma ClientShowsLeave(userId: Option<int>, name: string)
    ensures ChatClient.PublicHandling(LeaveAnnouncement(userId, name)) == ChatClient.Notify(name + " left the chat")
  {
  }

  /** The JOIN a client sends is returned unchanged by `addUser`, so other
      clients show "<name> joined the chat". */
  lemma ClientShowsJoin(u: ChatClient.User)
    ensures ChatClient.PublicHandling(ChatClient.JoinMessage(u))
         == ChatClient.Notify(Text.StringOf(u.fullName) + " joined the chat")
  {
  }

  /** A saved message never carries a type, so the client's public handler
      displays it as a chat message. */
  lemma SavedMessagesAreDisplayed(id: nat, m: MessageRow, users: map<int, UserRow>)
    requires m.senderId in users && m.receiverId in users
    ensures ChatClient.PublicHandling(MessageDto(id, m, users)) == ChatClient.Display(MessageDto(id, m, users))
  {
  }
}
