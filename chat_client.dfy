/** The browser chat client (chat-client-example.js).

    The client's module-level variables (`stompClient`, `currentUser`,
    `selectedConversation`, `window.conversationSubscription`) are the fields
    of `Client`. The STOMP transport and the REST backend are a `Channel` that
    records what the client asks of them: subscription events, published
    frames, connects, disconnects and REST requests. Asynchronous callbacks
    (the STOMP connect callback, the `.then` of the identity fetch, inbound
    frames) are methods that the environment calls; a callback can only run
    once the call that registered it has happened, which the `pending`
    counters record.

    A `TypeError` raised by dereferencing `null` aborts the running handler:
    the model performs the effects before the failing expression and none
    after it.
 */
module ChatClient {
  import opened Wrappers
  import opened Text
  import opened ChatMessages

  /** The identity returned by the user endpoint: the fields the client reads. */
  datatype User = User(id: int, fullName: Option<string>)

  /** A conversation as the REST API returns it: its id and its participants' ids. */
  datatype Conversation = Conversation(conversationId: string, participantIds: seq<int>)

  /** An entry of the subscription log. The handle of a subscription is the
      index of its `SubscribeTo` entry in the log. */
  datatype SubscriptionEvent = SubscribeTo(topic: string) | Unsubscribe(handle: nat)

  /** A STOMP SEND frame: destination, frame headers and JSON body. */
  datatype Frame = Frame(destination: string, headers: map<string, string>, body: ChatMessage)

  /** A REST call made with `fetch`. */
  datatype Request =
    | FetchCurrentUser
    | LoadConversations
    | LoadMessages(conversationId: string, page: nat, size: nat)
    | MarkRead(conversationId: string)

  /** What the public-topic handler does with a frame. */
  datatype PublicAction = Notify(text: string) | Display(message: ChatMessage)

  predicate IsConversationTopic(t: string) { StartsWith(t, CONVERSATION_TOPIC_PREFIX) }

  /** Handle `h` names a conversation-topic subscription that was never released. */
  ghost predicate HeldConversation(log: seq<SubscriptionEvent>, h: nat) {
    h < |log| && log[h].SubscribeTo? && IsConversationTopic(log[h].topic)
    && forall j :: h < j < |log| ==> log[j] != Unsubscribe(h)
  }

  /** A subscription held after one more log entry was held before it, and
      that entry does not release it. */
  lemma HeldBeforeAppend(log: seq<SubscriptionEvent>, e: SubscriptionEvent, h: nat)
    requires HeldConversation(log + [e], h) && h < |log|
    ensures HeldConversation(log, h) && e != Unsubscribe(h)
  {
    var longer := log + [e];
    forall j | h < j < |log|
      ensures log[j] != Unsubscribe(h)
    {
      assert longer[j] == log[j];
    }
    assert longer[|log|] == e;
  }

  lemma PublicTopicIsNotConversationTopic()
    ensures !IsConversationTopic(PUBLIC_TOPIC)
  {
    assert PUBLIC_TOPIC[7] != CONVERSATION_TOPIC_PREFIX[7];
  }

  /** The receiver of a message sent in a conversation: the id of the first
      participant that is not the current user, or null. */
  function ReceiverId(participantIds: seq<int>, userId: int): (r: Option<int>)
    ensures r.None? <==> forall i :: 0 <= i < |participantIds| ==> participantIds[i] == userId
    ensures r.Some? ==> exists i :: 0 <= i < |participantIds| && participantIds[i] == r.value
                                    && (forall j :: 0 <= j < i ==> participantIds[j] == userId)
    ensures r.Some? ==> r.value != userId
  {
    if |participantIds| == 0 then None
    else if participantIds[0] != userId then Some(participantIds[0])
    else
      var rest := ReceiverId(participantIds[1..], userId);
      assert forall i :: 0 < i < |participantIds| ==> participantIds[i] == participantIds[1..][i - 1];
      if rest.Some? then
        var k :| 0 <= k < |participantIds[1..]| && participantIds[1..][k] == rest.value
                 && (forall j :: 0 <= j < k ==> participantIds[1..][j] == userId);
        assert participantIds[k + 1] == rest.value;
        rest
      else rest
  }

  /** In a two-person conversation the receiver is the other participant. */
  lemma ReceiverOfPair(me: int, other: int)
    requires me != other
    ensures ReceiverId([me, other], me) == Some(other)
    ensures ReceiverId([other, me], me) == Some(other)
  {
    assert [me, other][1..] == [other];
  }

  /** The routing of a frame received on the public topic. */
  function PublicHandling(m: ChatMessage): (a: PublicAction)
    ensures m.messageType == Some(JOIN) ==> a == Notify(StringOf(m.senderName) + " joined the chat")
    ensures m.messageType == Some(LEAVE) ==> a == Notify(StringOf(m.senderName) + " left the chat")
    ensures m.messageType != Some(JOIN) && m.messageType != Some(LEAVE) ==> a == Display(m)
  {
    if m.messageType == Some(JOIN) then Notify(StringOf(m.senderName) + " joined the chat")
    else if m.messageType == Some(LEAVE) then Notify(StringOf(m.senderName) + " left the chat")
    else Display(m)
  }

  /** The JOIN message built once the identity is known. */
  function JoinMessage(u: User): (m: ChatMessage)
    ensures m.messageType == Some(JOIN) && m.senderId == Some(u.id) && m.senderName == u.fullName
    ensures m.content == Some(StringOf(u.fullName) + " joined the chat")
    ensures m.receiverId.None? && m.conversationId.None?
  {
    EmptyMessage.(messageType := Some(JOIN), senderId := Some(u.id), senderName := u.fullName,
                  content := Some(StringOf(u.fullName) + " joined the chat"))
  }

  /** The LEAVE message sent on disconnect. */
  function LeaveMessage(u: User): (m: ChatMessage)
    ensures m.messageType == Some(LEAVE) && m.senderId == Some(u.id) && m.senderName == u.fullName
    ensures m.content.None? && m.receiverId.None? && m.conversationId.None?
  {
    EmptyMessage.(messageType := Some(LEAVE), senderId := Some(u.id), senderName := u.fullName)
  }

  /** The guard of `sendMessage`: a client, a selected conversation and
      content that is not empty after `trim()`. */
  predicate MaySend(hasClient: bool, selected: Option<Conversation>, content: string) {
    hasClient && selected.Some? && !JsBlank(content)
  }

  /** The chat message built by `sendMessage`. */
  function OutgoingMessage(u: User, c: Conversation, content: string): (m: ChatMessage)
    ensures m.messageType == Some(CHAT)
    ensures m.senderId == Some(u.id) && m.senderName == u.fullName
    ensures m.receiverId == ReceiverId(c.participantIds, u.id)
    ensures m.content == Some(content) && m.conversationId == Some(c.conversationId)
  {
    EmptyMessage.(senderId := Some(u.id), senderName := u.fullName,
                  receiverId := ReceiverId(c.participantIds, u.id), content := Some(content),
                  conversationId := Some(c.conversationId), messageType := Some(CHAT))
  }

  /** The transport and the REST backend, as the logs of what was asked of them. */
  class Channel {
    var subscriptions: seq<SubscriptionEvent>
    var frames: seq<Frame>
    var requests: seq<Request>
    var connects: seq<map<string, string>>
    var disconnects: nat

    constructor ()
      ensures subscriptions == [] && frames == [] && requests == [] && connects == [] && disconnects == 0
    {
      subscriptions := [];
      frames := [];
      requests := [];
      connects := [];
      disconnects := 0;
    }

    method Connect(headers: map<string, string>)
      modifies this
      ensures connects == old(connects) + [headers]
      ensures subscriptions == old(subscriptions) && frames == old(frames)
      ensures requests == old(requests) && disconnects == old(disconnects)
    {
      connects := connects + [headers];
    }

    method Subscribe(topic: string) returns (h: nat)
      modifies this
      ensures h == |old(subscriptions)|
      ensures subscriptions == old(subscriptions) + [SubscribeTo(topic)]
      ensures frames == old(frames) && requests == old(requests)
      ensures connects == old(connects) && disconnects == old(disconnects)
    {
      h := |subscriptions|;
      subscriptions := subscriptions + [SubscribeTo(topic)];
    }

    method Release(h: nat)
      modifies this
      ensures subscriptions == old(subscriptions) + [Unsubscribe(h)]
      ensures frames == old(frames) && requests == old(requests)
      ensures connects == old(connects) && disconnects == old(disconnects)
    {
      subscriptions := subscriptions + [Unsubscribe(h)];
    }

    method Send(destination: string, body: ChatMessage)
      modifies this
      ensures frames == old(frames) + [Frame(destination, map[], body)]
      ensures subscriptions == old(subscriptions) && requests == old(requests)
      ensures connects == old(connects) && disconnects == old(disconnects)
    {
      frames := frames + [Frame(destination, map[], body)];
    }

    method Call(r: Request)
      modifies this
      ensures requests == old(requests) + [r]
      ensures subscriptions == old(subscriptions) && frames == old(frames)
      ensures connects == old(connects) && disconnects == old(disconnects)
    {
      requests := requests + [r];
    }

    method Disconnect()
      modifies this
      ensures disconnects == old(disconnects) + 1
      ensures subscriptions == old(subscriptions) && frames == old(frames)
      ensures requests == old(requests) && connects == old(connects)
    {
      disconnects := disconnects + 1;
    }
  }

  class Client {
    var stompClient: bool
    var currentUser: Option<User>
    var selectedConversation: Option<Conversation>
    var conversationSubscription: Option<nat>
    var notifications: seq<string>
    var displayed: seq<ChatMessage>
    /** Connect callbacks and identity fetches started but not yet delivered. */
    var pendingConnects: nat
    var pendingIdentity: nat
    const channel: Channel

    /** The client holds exactly the conversation subscription it references,
        and STOMP frames never carry headers (credentials travel only in the
        connect headers). */
    ghost predicate Valid()
      reads this, channel
    {
      (conversationSubscription.Some? ==>
        stompClient && HeldConversation(channel.subscriptions, conversationSubscription.value))
      && (forall h: nat :: HeldConversation(channel.subscriptions, h) ==> conversationSubscription == Some(h))
      && (pendingConnects > 0 || pendingIdentity > 0 ==> stompClient)
      && (forall i :: 0 <= i < |channel.frames| ==> channel.frames[i].headers == map[])
    }

    constructor (ch: Channel)
      requires ch.subscriptions == [] && ch.frames == []
      ensures Valid()
      ensures channel == ch && !stompClient && currentUser.None? && selectedConversation.None?
      ensures conversationSubscription.None? && notifications == [] && displayed == []
      ensures pendingConnects == 0 && pendingIdentity == 0
    {
      channel := ch;
      stompClient := false;
      currentUser := None;
      selectedConversation := None;
      conversationSubscription := None;
      notifications := [];
      displayed := [];
      pendingConnects := 0;
      pendingIdentity := 0;
    }

    /** `connectToChat`: creates the STOMP client and connects with the bearer token. */
    method ConnectToChat(token: string)
      requires Valid()
      modifies this, channel
      ensures Valid()
      ensures stompClient && pendingConnects == old(pendingConnects) + 1
      ensures channel.connects == old(channel.connects) + [map["Authorization" := "Bearer " + token]]
      ensures channel.subscriptions == old(channel.subscriptions) && channel.frames == old(channel.frames)
      ensures channel.requests == old(channel.requests) && channel.disconnects == old(channel.disconnects)
      ensures currentUser == old(currentUser) && selectedConversation == old(selectedConversation)
      ensures conversationSubscription == old(conversationSubscription)
      ensures notifications == old(notifications) && displayed == old(displayed)
      ensures pendingIdentity == old(pendingIdentity)
    {
      stompClient := true;
      pendingConnects := pendingConnects + 1;
      channel.Connect(map["Authorization" := "Bearer " + token]);
    }

    /** `onConnected`: subscribes to the public topic, then starts the identity fetch. */
    method OnConnected()
      requires Valid() && pendingConnects > 0
      modifies this, channel
      ensures Valid()
      ensures pendingConnects == old(pendingConnects) - 1
      ensures pendingIdentity == old(pendingIdentity) + 1
      ensures channel.subscriptions == old(channel.subscriptions) + [SubscribeTo(PUBLIC_TOPIC)]
      ensures channel.requests == old(channel.requests) + [FetchCurrentUser]
      ensures channel.frames == old(channel.frames) && channel.connects == old(channel.connects)
      ensures channel.disconnects == old(channel.disconnects)
      ensures stompClient && currentUser == old(currentUser)
      ensures selectedConversation == old(selectedConversation)
      ensures conversationSubscription == old(conversationSubscription)
      ensures notifications == old(notifications) && displayed == old(displayed)
    {
      PublicTopicIsNotConversationTopic();
      var _ := channel.Subscribe(PUBLIC_TOPIC);
      pendingConnects := pendingConnects - 1;
      pendingIdentity := pendingIdentity + 1;
      channel.Call(FetchCurrentUser);
      forall h: nat | HeldConversation(channel.subscriptions, h)
        ensures HeldConversation(old(channel.subscriptions), h)
      {
        HeldBeforeAppend(old(channel.subscriptions), SubscribeTo(PUBLIC_TOPIC), h);
      }
      if conversationSubscription.Some? {
        assert HeldConversation(channel.subscriptions, conversationSubscription.value);
      }
    }

    /** The continuation of the identity fetch (`null` when it failed): stores the
        user; with a user, sends JOIN and loads the conversation list; without
        one, building JOIN throws and nothing is sent. */
    method OnIdentityFetched(user: Option<User>)
      requires Valid() && pendingIdentity > 0
      modifies this, channel
      ensures Valid()
      ensures currentUser == user && pendingIdentity == old(pendingIdentity) - 1
      ensures user.Some? ==> channel.frames == old(channel.frames) + [Frame(ADD_USER_DESTINATION, map[], JoinMessage(user.value))]
      ensures user.Some? ==> channel.requests == old(channel.requests) + [LoadConversations]
      ensures user.None? ==> channel.frames == old(channel.frames) && channel.requests == old(channel.requests)
      ensures channel.subscriptions == old(channel.subscriptions) && channel.connects == old(channel.connects)
      ensures channel.disconnects == old(channel.disconnects)
      ensures stompClient && selectedConversation == old(selectedConversation)
      ensures conversationSubscription == old(conversationSubscription)
      ensures pendingConnects == old(pendingConnects)
      ensures notifications == old(notifications) && displayed == old(displayed)
    {
      currentUser := user;
      pendingIdentity := pendingIdentity - 1;
      if user.None? {
        return;
      }
      channel.Send(ADD_USER_DESTINATION, JoinMessage(user.value));
      channel.Call(LoadConversations);
    }

    /** `onMessageReceived`: the handler of the public topic. */
    method OnMessageReceived(m: ChatMessage)
      requires Valid()
      modifies this
      ensures Valid()
      ensures PublicHandling(m).Notify? ==>
        notifications == old(notifications) + [PublicHandling(m).text] && displayed == old(displayed)
      ensures PublicHandling(m).Display? ==>
        displayed == old(displayed) + [m] && notifications == old(notifications)
      ensures stompClient == old(stompClient) && currentUser == old(currentUser)
      ensures selectedConversation == old(selectedConversation)
      ensures conversationSubscription == old(conversationSubscription)
      ensures pendingConnects == old(pendingConnects) && pendingIdentity == old(pendingIdentity)
    {
      match PublicHandling(m)
      case Notify(text) => notifications := notifications + [text];
      case Display(msg) => displayed := displayed + [msg];
    }

    /** `sendMessage`: publishes one CHAT frame on the private destination of the
        selected conversation, unless a guard fails. Past the guards, without a
        current user, reading `currentUser.id` throws a TypeError (`thrown`)
        before anything is sent. */
    method SendMessage(content: string) returns (thrown: bool)
      requires Valid()
      modifies channel
      ensures Valid()
      ensures thrown <==> MaySend(stompClient, selectedConversation, content) && currentUser.None?
      ensures MaySend(stompClient, selectedConversation, content) && currentUser.Some? ==>
        channel.frames == old(channel.frames) + [Frame(PRIVATE_DESTINATION_PREFIX + selectedConversation.value.conversationId,
                                                      map[], OutgoingMessage(currentUser.value, selectedConversation.value, content))]
      ensures !(MaySend(stompClient, selectedConversation, content) && currentUser.Some?) ==>
        channel.frames == old(channel.frames)
      ensures channel.subscriptions == old(channel.subscriptions) && channel.requests == old(channel.requests)
      ensures channel.connects == old(channel.connects) && channel.disconnects == old(channel.disconnects)
    {
      if !MaySend(stompClient, selectedConversation, content) {
        return false;
      }
      if currentUser.None? {
        return true;
      }
      var conv := selectedConversation.value;
      channel.Send(PRIVATE_DESTINATION_PREFIX + conv.conversationId,
                   OutgoingMessage(currentUser.value, conv, content));
      thrown := false;
    }

    /** `subscribeToConversation`: releases the previous conversation handle,
        subscribes to the conversation's topic and marks it read. Without a
        STOMP client the subscribe call throws (`thrown`). */
    method SubscribeToConversation(conversationId: string) returns (thrown: bool)
      requires Valid()
      modifies this, channel
      ensures Valid()
      ensures thrown <==> !stompClient
      ensures thrown ==>
        channel.subscriptions == old(channel.subscriptions) && channel.requests == old(channel.requests)
        && conversationSubscription == old(conversationSubscription)
      ensures !thrown && old(conversationSubscription).Some? ==>
        channel.subscriptions == old(channel.subscriptions)
          + [Unsubscribe(old(conversationSubscription).value), SubscribeTo(ConversationTopic(conversationId))]
      ensures !thrown && old(conversationSubscription).None? ==>
        channel.subscriptions == old(channel.subscriptions) + [SubscribeTo(ConversationTopic(conversationId))]
      ensures !thrown ==>
        conversationSubscription == Some(|channel.subscriptions| - 1)
        && channel.requests == old(channel.requests) + [MarkRead(conversationId)]
      ensures forall h: nat :: HeldConversation(channel.subscriptions, h) ==> conversationSubscription == Some(h)
      ensures channel.frames == old(channel.frames) && channel.connects == old(channel.connects)
      ensures channel.disconnects == old(channel.disconnects)
      ensures stompClient == old(stompClient) && currentUser == old(currentUser)
      ensures selectedConversation == old(selectedConversation)
      ensures notifications == old(notifications) && displayed == old(displayed)
      ensures pendingConnects == old(pendingConnects) && pendingIdentity == old(pendingIdentity)
    {
      if !stompClient {
        // No previous handle can exist without a client, so nothing is released.
        return true;
      }
      var before := channel.subscriptions;
      if conversationSubscription.Some? {
        var old_h := conversationSubscription.value;
        channel.Release(old_h);
        forall h: nat | HeldConversation(channel.subscriptions, h)
          ensures false
        {
          HeldBeforeAppend(before, Unsubscribe(old_h), h);
        }
      }
      var mid := channel.subscriptions;
      var h := channel.Subscribe(ConversationTopic(conversationId));
      conversationSubscription := Some(h);
      channel.Call(MarkRead(conversationId));
      thrown := false;
      forall k: nat | HeldConversation(channel.subscriptions, k)
        ensures k == h
      {
        if k < h {
          // `k` would be held in `mid`, where no conversation subscription is held.
          HeldBeforeAppend(mid, SubscribeTo(ConversationTopic(conversationId)), k);
        }
      }
      assert IsConversationTopic(ConversationTopic(conversationId));
    }

    /** `onConversationMessageReceived`: always displays the frame, then marks its
        conversation read when the current user is its receiver. */
    method OnConversationMessageReceived(m: ChatMessage)
      requires Valid()
      modifies this, channel
      ensures Valid()
      ensures displayed == old(displayed) + [m]
      ensures currentUser.Some? && m.receiverId == Some(currentUser.value.id) ==>
        channel.requests == old(channel.requests) + [MarkRead(StringOf(m.conversationId))]
      ensures !(currentUser.Some? && m.receiverId == Some(currentUser.value.id)) ==>
        channel.requests == old(channel.requests)
      ensures channel.subscriptions == old(channel.subscriptions) && channel.frames == old(channel.frames)
      ensures channel.connects == old(channel.connects) && channel.disconnects == old(channel.disconnects)
      ensures stompClient == old(stompClient) && currentUser == old(currentUser)
      ensures selectedConversation == old(selectedConversation)
      ensures conversationSubscription == old(conversationSubscription)
      ensures notifications == old(notifications)
      ensures pendingConnects == old(pendingConnects) && pendingIdentity == old(pendingIdentity)
    {
      displayed := displayed + [m];
      if currentUser.None? {
        return;
      }
      if m.receiverId == Some(currentUser.value.id) {
        channel.Call(MarkRead(StringOf(m.conversationId)));
      }
    }

    /** `selectConversation`: records the selection first, then subscribes (and
        marks read), then loads the first page of 20 messages. */
    method SelectConversation(c: Conversation)
      requires Valid()
      modifies this, channel
      ensures Valid()
      ensures selectedConversation == Some(c)
      ensures stompClient ==>
        conversationSubscription == Some(|channel.subscriptions| - 1)
        && channel.subscriptions[|channel.subscriptions| - 1] == SubscribeTo(ConversationTopic(c.conversationId))
        && channel.requests == old(channel.requests) + [MarkRead(c.conversationId), LoadMessages(c.conversationId, 0, 20)]
      ensures !stompClient ==>
        channel.requests == old(channel.requests) && channel.subscriptions == old(channel.subscriptions)
      ensures forall h: nat :: HeldConversation(channel.subscriptions, h) ==> conversationSubscription == Some(h)
      ensures channel.frames == old(channel.frames) && channel.connects == old(channel.connects)
      ensures channel.disconnects == old(channel.disconnects)
      ensures stompClient == old(stompClient) && currentUser == old(currentUser)
      ensures notifications == old(notifications) && displayed == old(displayed)
      ensures pendingConnects == old(pendingConnects) && pendingIdentity == old(pendingIdentity)
    {
      selectedConversation := Some(c);
      var thrown := SubscribeToConversation(c.conversationId);
      if thrown {
        return;
      }
      channel.Call(LoadMessages(c.conversationId, 0, 20));
    }

    /** `disconnect`: with a client, sends LEAVE when a user is known, then closes
        the connection; `stompClient` is not cleared. Without a client it does nothing. */
    method Disconnect()
      requires Valid()
      modifies channel
      ensures Valid()
      ensures stompClient && currentUser.Some? ==>
        channel.frames == old(channel.frames) + [Frame(ADD_USER_DESTINATION, map[], LeaveMessage(currentUser.value))]
      ensures !(stompClient && currentUser.Some?) ==> channel.frames == old(channel.frames)
      ensures channel.disconnects == old(channel.disconnects) + (if stompClient then 1 else 0)
      ensures channel.subscriptions == old(channel.subscriptions) && channel.requests == old(channel.requests)
      ensures channel.connects == old(channel.connects)
    {
      if stompClient {
        if currentUser.Some? {
          channel.Send(ADD_USER_DESTINATION, LeaveMessage(currentUser.value));
        }
        channel.Disconnect();
      }
    }
  }

  /** Switching conversations twice leaves exactly one conversation
      subscription held: the one of the last conversation selected. */
  method SwitchTwice(client: Client, a: Conversation, b: Conversation)
    requires client.Valid() && client.stompClient
    modifies client, client.channel
    ensures client.Valid()
    ensures client.selectedConversation == Some(b)
    ensures client.conversationSubscription.Some?
    ensures forall h: nat :: HeldConversation(client.channel.subscriptions, h) <==> client.conversationSubscription == Some(h)
    ensures client.channel.subscriptions[client.conversationSubscription.value] == SubscribeTo(ConversationTopic(b.conversationId))
    ensures client.channel.requests == old(client.channel.requests)
      + [MarkRead(a.conversationId), LoadMessages(a.conversationId, 0, 20),
         MarkRead(b.conversationId), LoadMessages(b.conversationId, 0, 20)]
  {
    client.SelectConversation(a);
    client.SelectConversation(b);
  }
}
