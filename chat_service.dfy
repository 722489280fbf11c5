/** The server side of the chat (ChatServiceImpl with the user, conversation
    and chat-message repositories it uses).

    `ChatStore` holds the three tables: users by id, conversations by their
    unique `conversationId`, and chat messages in the order they were saved
    (the message with index `i` has the generated id `i + 1`). The clock is the
    `now` parameter.
 */
module ChatService {
  import opened Wrappers
  import opened Text
  import opened Dates
  import opened ChatMessages
  import opened Tables

  datatype UserRow = UserRow(fullName: Option<string>)

  datatype ConversationRow = ConversationRow(
    rowId: nat,
    participants: set<int>,
    createdAt: DateTime,
    lastMessageAt: DateTime,
    lastMessage: Option<string>)

  datatype MessageRow = MessageRow(
    senderId: int,
    receiverId: int,
    content: string,
    timestamp: DateTime,
    isRead: bool,
    conversationId: string)

  /** `ConversationDTO`, with the participants as their ids. */
  datatype ConversationView = ConversationView(
    id: nat,
    conversationId: string,
    participants: set<int>,
    createdAt: DateTime,
    lastMessageAt: DateTime,
    lastMessage: Option<string>,
    unreadCount: nat)

  /** One page of a conversation's messages, as the message endpoint returns it. */
  datatype MessagePage = MessagePage(
    messages: seq<ChatMessage>, currentPage: nat, totalItems: nat, totalPages: nat)

  /** The conversation id of a pair of users: `conv_<smaller id>_<larger id>`. */
  function ConversationIdFor(a: int, b: int): (cid: string)
    ensures StartsWith(cid, "conv_")
  {
    var lo := if a <= b then a else b;
    var hi := if a <= b then b else a;
    "conv_" + IntToString(lo) + "_" + IntToString(hi)
  }

  /** The id does not depend on which user comes first. */
  lemma ConversationIdSymmetric(a: int, b: int)
    ensures ConversationIdFor(a, b) == ConversationIdFor(b, a)
  {
    if a != b {
      assert (if a <= b then a else b) == (if b <= a then b else a);
    }
  }

  predicate NoUnderscore(s: string) { forall k :: 0 <= k < |s| ==> s[k] != '_' }

  /** Index of the first `_` in `s`, or `|s|` when there is none. */
  function FirstUnderscore(s: string): (k: nat)
    ensures k <= |s|
  {
    if s == [] then 0 else if s[0] == '_' then 0 else 1 + FirstUnderscore(s[1..])
  }

  lemma {:induction false} FirstUnderscoreOf(x: string, y: string)
    requires NoUnderscore(x)
    ensures FirstUnderscore(x + "_" + y) == |x|
  {
    if x != [] {
      assert (x + "_" + y)[1..] == x[1..] + "_" + y;
      FirstUnderscoreOf(x[1..], y);
    }
  }

  /** Splitting at the first `_` recovers both halves. */
  lemma SplitAtSeparator(x1: string, y1: string, x2: string, y2: string)
    requires NoUnderscore(x1) && NoUnderscore(x2)
    requires x1 + "_" + y1 == x2 + "_" + y2
    ensures x1 == x2 && y1 == y2
  {
    var s := x1 + "_" + y1;
    var t := x2 + "_" + y2;
    FirstUnderscoreOf(x1, y1);
    FirstUnderscoreOf(x2, y2);
    assert x1 == s[..|x1|] && x2 == t[..|x2|];
    assert y1 == s[|x1| + 1..] && y2 == t[|x2| + 1..];
  }

  /** Equal ids of ordered pairs come from equal pairs. */
  lemma OrderedIdInjective(lo1: int, hi1: int, lo2: int, hi2: int)
    requires "conv_" + IntToString(lo1) + "_" + IntToString(hi1) == "conv_" + IntToString(lo2) + "_" + IntToString(hi2)
    ensures lo1 == lo2 && hi1 == hi2
  {
    var s1, s2 := IntToString(lo1), IntToString(lo2);
    var t1, t2 := IntToString(hi1), IntToString(hi2);
    assert ("conv_" + s1 + "_" + t1)[5..] == s1 + "_" + t1;
    assert ("conv_" + s2 + "_" + t2)[5..] == s2 + "_" + t2;
    SplitAtSeparator(s1, t1, s2, t2);
    IntToStringInjective(lo1, lo2);
    IntToStringInjective(hi1, hi2);
  }

  /** Different pairs of users get different conversation ids. */
  lemma ConversationIdInjective(a: int, b: int, c: int, d: int)
    requires ConversationIdFor(a, b) == ConversationIdFor(c, d)
    ensures {a, b} == {c, d}
  {
    var lo1 := if a <= b then a else b;
    var hi1 := if a <= b then b else a;
    var lo2 := if c <= d then c else d;
    var hi2 := if c <= d then d else c;
    OrderedIdInjective(lo1, hi1, lo2, hi2);
  }

  /** The conversation id `saveMessage` uses: a non-empty given id is kept,
      otherwise the one derived from the sender and receiver. */
  function ResolveConversationId(given: Option<string>, sender: int, receiver: int): (cid: string)
    ensures given.Some? && given.value != "" ==> cid == given.value
    ensures given.None? || given.value == "" ==> cid == ConversationIdFor(sender, receiver)
  {
    if given.Some? && given.value != "" then given.value else ConversationIdFor(sender, receiver)
  }

  /** The messages addressed to `userId` in `cid` that are still unread. */
  function CountUnread(ms: seq<MessageRow>, cid: string, userId: int): (n: nat)
    ensures n <= |ms|
  {
    if ms == [] then 0
    else CountUnread(ms[..|ms| - 1], cid, userId)
         + (var m := ms[|ms| - 1]; if m.conversationId == cid && m.receiverId == userId && !m.isRead then 1 else 0)
  }

  /** The message table after the bulk update that marks a conversation read
      for one receiver. */
  function MarkedRead(ms: seq<MessageRow>, cid: string, userId: int): (r: seq<MessageRow>)
    ensures |r| == |ms|
    ensures forall i :: 0 <= i < |ms| ==>
      r[i] == (if ms[i].conversationId == cid && ms[i].receiverId == userId then ms[i].(isRead := true) else ms[i])
  {
    seq(|ms|, i requires 0 <= i < |ms| =>
      if ms[i].conversationId == cid && ms[i].receiverId == userId then ms[i].(isRead := true) else ms[i])
  }

  /** After marking a conversation read, the user has no unread message in it. */
  lemma {:induction false} MarkedReadClearsUnread(ms: seq<MessageRow>, cid: string, userId: int)
    ensures CountUnread(MarkedRead(ms, cid, userId), cid, userId) == 0
    decreases |ms|
  {
    if ms != [] {
      var ms' := ms[..|ms| - 1];
      MarkedReadClearsUnread(ms', cid, userId);
      assert MarkedRead(ms, cid, userId)[..|ms| - 1] == MarkedRead(ms', cid, userId);
    }
  }

  /** Marking one (conversation, receiver) read leaves every other pair's count as it was. */
  lemma {:induction false} MarkedReadKeepsOthers(ms: seq<MessageRow>, cid: string, userId: int, cid': string, userId': int)
    requires cid != cid' || userId != userId'
    ensures CountUnread(MarkedRead(ms, cid, userId), cid', userId') == CountUnread(ms, cid', userId')
    decreases |ms|
  {
    if ms != [] {
      var ms' := ms[..|ms| - 1];
      MarkedReadKeepsOthers(ms', cid, userId, cid', userId');
      assert MarkedRead(ms, cid, userId)[..|ms| - 1] == MarkedRead(ms', cid, userId);
    }
  }

  /** Saving an unread message counts once for its receiver in its conversation. */
  lemma CountUnreadAppend(ms: seq<MessageRow>, m: MessageRow, cid: string, userId: int)
    ensures CountUnread(ms + [m], cid, userId)
         == CountUnread(ms, cid, userId) + (if m.conversationId == cid && m.receiverId == userId && !m.isRead then 1 else 0)
  {
    assert (ms + [m])[..|ms + [m]| - 1] == ms;
  }

  /** `unreadCount` of `mapToConversationDTO`: the viewer's unread messages in the
      conversation when the viewer is a participant, otherwise 0. */
  function UnreadCount(row: ConversationRow, cid: string, viewer: int, ms: seq<MessageRow>): (n: nat)
    ensures viewer in row.participants ==> n == CountUnread(ms, cid, viewer)
    ensures viewer !in row.participants ==> n == 0
  {
    if viewer in row.participants then CountUnread(ms, cid, viewer) else 0
  }

  function ConversationDto(row: ConversationRow, cid: string, viewer: int, ms: seq<MessageRow>): (v: ConversationView)
    ensures v.conversationId == cid && v.id == row.rowId && v.participants == row.participants
    ensures v.lastMessage == row.lastMessage && v.unreadCount == UnreadCount(row, cid, viewer, ms)
  {
    ConversationView(row.rowId, cid, row.participants, row.createdAt, row.lastMessageAt, row.lastMessage,
                     UnreadCount(row, cid, viewer, ms))
  }

  /** `mapToDTO`: the stored message with its id and the participants' names;
      the `type` field is never set. */
  function MessageDto(id: nat, m: MessageRow, users: map<int, UserRow>): (d: ChatMessage)
    requires m.senderId in users && m.receiverId in users
    ensures d.id == Some(id) && d.messageType.None?
    ensures d.senderId == Some(m.senderId) && d.receiverId == Some(m.receiverId)
    ensures d.senderName == users[m.senderId].fullName && d.receiverName == users[m.receiverId].fullName
    ensures d.content == Some(m.content) && d.isRead == Some(m.isRead)
    ensures d.conversationId == Some(m.conversationId) && d.timestamp == Some(m.timestamp)
  {
    ChatMessage(Some(id), Some(m.senderId), users[m.senderId].fullName, Some(m.receiverId),
                users[m.receiverId].fullName, Some(m.content), Some(m.timestamp), Some(m.isRead),
                Some(m.conversationId), None)
  }

  /** The ids (index + 1) and rows of a conversation's messages, newest first
      (save order stands for timestamp order). */
  function NewestFirst(ms: seq<MessageRow>, cid: string): (r: seq<(nat, MessageRow)>)
    ensures forall e :: e in r ==> 1 <= e.0 <= |ms| && e.1 == ms[e.0 - 1] && e.1.conversationId == cid
    ensures forall k, l :: 0 <= k < l < |r| ==> r[k].0 > r[l].0
    decreases |ms|
  {
    if ms == [] then []
    else
      var rest := NewestFirst(ms[..|ms| - 1], cid);
      if ms[|ms| - 1].conversationId == cid then [(|ms|, ms[|ms| - 1])] + rest else rest
  }

  /** Where a message of the conversation stands in its listing. */
  lemma {:induction false} NewestFirstPosition(ms: seq<MessageRow>, cid: string, i: nat) returns (k: nat)
    requires i < |ms| && ms[i].conversationId == cid
    ensures k < |NewestFirst(ms, cid)| && NewestFirst(ms, cid)[k] == (i + 1, ms[i])
    decreases |ms|
  {
    var ms' := ms[..|ms| - 1];
    var rest := NewestFirst(ms', cid);
    var head := (|ms|, ms[|ms| - 1]);
    if i == |ms| - 1 {
      assert NewestFirst(ms, cid) == [head] + rest;
      k := 0;
    } else {
      assert ms'[i] == ms[i];
      var k' := NewestFirstPosition(ms', cid, i);
      if ms[|ms| - 1].conversationId == cid {
        assert NewestFirst(ms, cid) == [head] + rest;
        k := k' + 1;
      } else {
        assert NewestFirst(ms, cid) == rest;
        k := k';
      }
    }
  }

  /** Every message of the conversation is listed. */
  lemma NewestFirstComplete(ms: seq<MessageRow>, cid: string, i: nat)
    requires i < |ms| && ms[i].conversationId == cid
    ensures (i + 1, ms[i]) in NewestFirst(ms, cid)
  {
    var k := NewestFirstPosition(ms, cid, i);
  }

  /** Both ends of every message are known users. */
  ghost predicate EndsKnown(ms: seq<MessageRow>, users: map<int, UserRow>) {
    forall i :: 0 <= i < |ms| ==> ms[i].senderId in users && ms[i].receiverId in users
  }

  /** `findMessagesByConversationIdPaged`: the requested page of the
      conversation's messages, newest first, with the page totals. */
  function MessagesPage(ms: seq<MessageRow>, users: map<int, UserRow>, cid: string, page: int, size: int): (r: Result<MessagePage>)
    requires EndsKnown(ms, users)
    ensures r.Err? <==> page < 0 || size < 1
    ensures r.Err? ==> r.error == IllegalArgumentException
    ensures r.Ok? ==> r.value.totalItems == |NewestFirst(ms, cid)| && r.value.currentPage == page
    ensures r.Ok? ==> |r.value.messages| <= size
    ensures r.Ok? ==> forall d :: d in r.value.messages ==>
      exists i :: 0 <= i < |ms| && ms[i].conversationId == cid && d == MessageDto(i + 1, ms[i], users)
  {
    var all := NewestFirst(ms, cid);
    var p :- PageOf(all, page, size);
    PageDtosListed(ms, users, cid, p);
    Ok(MessagePage(PageDtos(p, users), page, |all|, TotalPages(|all|, size)))
  }

  /** The DTOs of a page of numbered messages, in page order. */
  function PageDtos(p: seq<(nat, MessageRow)>, users: map<int, UserRow>): (r: seq<ChatMessage>)
    requires forall k :: 0 <= k < |p| ==> p[k].1.senderId in users && p[k].1.receiverId in users
    ensures |r| == |p| && forall k :: 0 <= k < |p| ==> r[k] == MessageDto(p[k].0, p[k].1, users)
  {
    seq(|p|, k requires 0 <= k < |p| => MessageDto(p[k].0, p[k].1, users))
  }

  /** Every DTO of a page taken from a conversation's messages is the DTO of
      one of them. */
  lemma PageDtosListed(ms: seq<MessageRow>, users: map<int, UserRow>, cid: string, p: seq<(nat, MessageRow)>)
    requires EndsKnown(ms, users) && forall x :: x in p ==> x in NewestFirst(ms, cid)
    ensures forall k :: 0 <= k < |p| ==> p[k].1.senderId in users && p[k].1.receiverId in users
    ensures forall d :: d in PageDtos(p, users) ==>
      exists i :: 0 <= i < |ms| && ms[i].conversationId == cid && d == MessageDto(i + 1, ms[i], users)
  {
    var all := NewestFirst(ms, cid);
    forall k | 0 <= k < |p| ensures p[k].1.senderId in users && p[k].1.receiverId in users {
      assert p[k] in all;
    }
    forall d | d in PageDtos(p, users)
      ensures exists i :: 0 <= i < |ms| && ms[i].conversationId == cid && d == MessageDto(i + 1, ms[i], users)
    {
      var k :| 0 <= k < |p| && PageDtos(p, users)[k] == d;
      assert p[k] in all;
      var i := p[k].0 - 1;
      assert ms[i].conversationId == cid && d == MessageDto(i + 1, ms[i], users);
    }
  }

  /** Right after the receiver marked a conversation read, every message of
      the page that is addressed to the receiver is read. */
  lemma PageAfterMarkRead(ms: seq<MessageRow>, users: map<int, UserRow>, cid: string, userId: int, page: int, size: int)
    requires EndsKnown(ms, users)
    ensures EndsKnown(MarkedRead(ms, cid, userId), users)
    ensures var r := MessagesPage(MarkedRead(ms, cid, userId), users, cid, page, size);
      r.Ok? ==> forall k :: 0 <= k < |r.value.messages| && r.value.messages[k].receiverId == Some(userId) ==>
        r.value.messages[k].isRead == Some(true)
  {
    var ms' := MarkedRead(ms, cid, userId);
    assert EndsKnown(ms', users) by {
      forall i | 0 <= i < |ms'| ensures ms'[i].senderId in users && ms'[i].receiverId in users {
        assert ms'[i].senderId == ms[i].senderId && ms'[i].receiverId == ms[i].receiverId;
      }
    }
  }

  /** The failure of `saveMessage`, checked in the code's order: the sender
      id (null, then unknown), the receiver id (null, then unknown), then
      the NOT NULL content column at the insert. None when it succeeds. */
  function SaveError(users: map<int, UserRow>, dto: ChatMessage): (e: Option<Exception>)
    ensures e.None? <==>
      dto.senderId.Some? && dto.senderId.value in users && dto.receiverId.Some? && dto.receiverId.value in users
      && dto.content.Some?
    ensures (dto.senderId.Some? && dto.senderId.value in users && dto.receiverId.Some? && dto.receiverId.value in users
             && dto.content.None?) ==> e == Some(DataIntegrityViolationException)
  {
    if dto.senderId.None? then Some(InvalidDataAccessApiUsageException)
    else if dto.senderId.value !in users then Some(RuntimeException)
    else if dto.receiverId.None? then Some(InvalidDataAccessApiUsageException)
    else if dto.receiverId.value !in users then Some(RuntimeException)
    else if dto.content.None? then Some(DataIntegrityViolationException)
    else None
  }

  class ChatStore {
    var users: map<int, UserRow>
    var conversations: map<string, ConversationRow>
    var messages: seq<MessageRow>
    var nextConversationRowId: nat

    /** Every participant and every message end is a user, and every message
        belongs to a stored conversation. */
    ghost predicate Valid()
      reads this
    {
      (forall cid :: cid in conversations ==> conversations[cid].participants <= users.Keys)
      && EndsKnown(messages, users)
      && (forall i :: 0 <= i < |messages| ==> messages[i].conversationId in conversations)
    }

    /** `saveMessage`. `written` is the caller's DTO afterwards: a derived
        conversation id is written back into it. A null sender or receiver id
        reaches `findById`, whose IllegalArgumentException Spring translates
        into an InvalidDataAccessApiUsageException. Every failure rolls the
        transaction back. */
    method SaveMessage(dto: ChatMessage, now: DateTime) returns (r: Result<ChatMessage>, written: ChatMessage)
      requires Valid()
      modifies this
      ensures Valid()
      ensures users == old(users)
      ensures dto.senderId.None? ==> r == Err(InvalidDataAccessApiUsageException)
      ensures dto.senderId.Some? && dto.senderId.value !in users ==> r == Err(RuntimeException)
      ensures dto.senderId.Some? && dto.senderId.value in users && dto.receiverId.None? ==>
        r == Err(InvalidDataAccessApiUsageException)
      ensures (dto.senderId.Some? && dto.senderId.value in users && dto.receiverId.Some?
               && dto.receiverId.value !in users) ==> r == Err(RuntimeException)
      ensures r.Err? <==> SaveError(users, dto).Some?
      ensures r.Err? ==> r.error == SaveError(users, dto).value
      ensures r.Err? ==>
        conversations == old(conversations) && messages == old(messages)
        && nextConversationRowId == old(nextConversationRowId)
      ensures r.Ok? ==> dto.senderId.Some? && dto.receiverId.Some? && dto.content.Some?
      ensures r.Ok? ==>
        var s, rc := dto.senderId.value, dto.receiverId.value;
        var cid := ResolveConversationId(dto.conversationId, s, rc);
        && written.conversationId == Some(cid)
        && messages == old(messages) + [MessageRow(s, rc, dto.content.value, now, false, cid)]
        && cid in conversations
        && conversations == old(conversations)[cid := conversations[cid]]
        && conversations[cid].lastMessage == dto.content
        && conversations[cid].lastMessageAt == now
        && (cid in old(conversations) ==>
              conversations[cid] == old(conversations)[cid].(lastMessage := dto.content, lastMessageAt := now))
        && (cid !in old(conversations) ==>
              conversations[cid] == ConversationRow(old(nextConversationRowId), {s, rc}, now, now, dto.content))
        && r.value == MessageDto(|messages|, messages[|messages| - 1], users)
      ensures written == dto || (dto.conversationId.None? || dto.conversationId == Some(""))
      ensures written.(conversationId := dto.conversationId) == dto
    {
      written := dto;
      if dto.senderId.None? {
        return Err(InvalidDataAccessApiUsageException), written;
      }
      var s := dto.senderId.value;
      if s !in users {
        return Err(RuntimeException), written;
      }
      if dto.receiverId.None? {
        return Err(InvalidDataAccessApiUsageException), written;
      }
      var rc := dto.receiverId.value;
      if rc !in users {
        return Err(RuntimeException), written;
      }
      var cid := ResolveConversationId(dto.conversationId, s, rc);
      if dto.conversationId.None? || dto.conversationId == Some("") {
        written := dto.(conversationId := Some(cid));
      }
      if dto.content.None? {
        // content is NOT NULL: the insert fails and the transaction rolls back.
        return Err(DataIntegrityViolationException), written;
      }
      var conv: ConversationRow;
      if cid in conversations {
        conv := conversations[cid];
      } else {
        conv := ConversationRow(nextConversationRowId, {s, rc}, now, now, None);
        nextConversationRowId := nextConversationRowId + 1;
      }
      conversations := conversations[cid := conv.(lastMessage := dto.content, lastMessageAt := now)];
      messages := messages + [MessageRow(s, rc, dto.content.value, now, false, cid)];
      r := Ok(MessageDto(|messages|, messages[|messages| - 1], users));
    }

    /** `findOrCreateConversation`: both users must exist; the conversation of
        the pair is created only when it does not exist yet, so repeated calls
        never create a second one. */
    method FindOrCreateConversation(userId1: int, userId2: int, now: DateTime) returns (r: Result<ConversationView>)
      requires Valid()
      modifies this
      ensures Valid()
      ensures users == old(users) && messages == old(messages)
      ensures userId1 !in users || userId2 !in users ==>
        r == Err(RuntimeException) && conversations == old(conversations)
        && nextConversationRowId == old(nextConversationRowId)
      ensures userId1 in users && userId2 in users ==>
        var cid := ConversationIdFor(userId1, userId2);
        && cid in conversations
        && (cid in old(conversations) ==>
              conversations == old(conversations) && nextConversationRowId == old(nextConversationRowId))
        && (cid !in old(conversations) ==>
              conversations == old(conversations)[cid := ConversationRow(old(nextConversationRowId), {userId1, userId2}, now, now, None)]
              && nextConversationRowId == old(nextConversationRowId) + 1)
        && r == Ok(ConversationDto(conversations[cid], cid, userId1, messages))
    {
      if userId1 !in users || userId2 !in users {
        return Err(RuntimeException);
      }
      var cid := ConversationIdFor(userId1, userId2);
      if cid !in conversations {
        conversations := conversations[cid := ConversationRow(nextConversationRowId, {userId1, userId2}, now, now, None)];
        nextConversationRowId := nextConversationRowId + 1;
      }
      r := Ok(ConversationDto(conversations[cid], cid, userId1, messages));
    }

    /** `markMessagesAsRead`: the bulk update of the conversation's messages
        addressed to the user. */
    method MarkMessagesAsRead(cid: string, userId: int)
      requires Valid()
      modifies this
      ensures Valid()
      ensures messages == MarkedRead(old(messages), cid, userId)
      ensures users == old(users) && conversations == old(conversations)
      ensures nextConversationRowId == old(nextConversationRowId)
    {
      messages := MarkedRead(messages, cid, userId);
    }
  }
}
