/** The conversation store and the scheduled-message registry of
    src/utils/messageUtils.ts as copy-on-write transitions: each operation
    takes the current snapshot and returns the next one.

    `sendMessage` is split into its two state updates: the immediate one
    (`SendMessage`, applied to the snapshot the caller passed in) and the
    deferred simulated reply (`DeliverReply`, applied to whatever snapshot
    is current when the timer fires). The clock readings `Date.now()` and
    `new Date().toISOString()` are parameters. */
module Messages {
  import opened Wrappers
  import opened Text

  datatype Sender = User | Contact

  /** `failed` exists in the type but no operation produces it. */
  datatype Status = Sent | Delivered | Read | Failed

  datatype Message = Message(id: int, sender: Sender, content: string, time: string, status: Status)

  datatype Conversation = Conversation(
    id: int,
    username: string,
    name: string,
    platform: string,
    lastMessage: string,
    time: string,
    unread: bool,
    avatar: Option<string>,
    messages: seq<Message>)

  datatype ScheduledMessage = ScheduledMessage(
    id: int,
    content: string,
    recipients: nat,
    scheduledFor: string,
    platform: string)

  /** The reply armed by a send: the conversation it will be posted to. */
  datatype PendingReply = PendingReply(conversationId: int)

  /** What a call of `sendMessage` does: nothing (blank text, no state
      update, no timer), or a new snapshot plus an armed reply. */
  datatype SendOutcome =
    | Ignored
    | Posted(conversations: seq<Conversation>, reply: PendingReply)

  const SentLabel := "1 min ago"
  const ReplyLabel := "just now"
  const ReplyText := "Thanks for your message! I'll get back to you soon."

  /** `{...conv, lastMessage, time, messages: [...conv.messages, msg]}`. */
  function Post(conv: Conversation, msg: Message, timeLabel: string): Conversation {
    conv.(lastMessage := msg.content, time := timeLabel, messages := conv.messages + [msg])
  }

  /** `conversations.map(conv => conv.id === id ? Post(conv, msg, timeLabel) : conv)`. */
  function PostTo(convs: seq<Conversation>, id: int, msg: Message, timeLabel: string): (r: seq<Conversation>)
    ensures |r| == |convs|
    ensures forall i :: 0 <= i < |convs| ==> r[i].id == convs[i].id
    ensures forall i :: 0 <= i < |convs| && convs[i].id != id ==> r[i] == convs[i]
  {
    seq(|convs|, i requires 0 <= i < |convs| =>
      if convs[i].id == id then Post(convs[i], msg, timeLabel) else convs[i])
  }

  /** The conversation `after` is `before` with exactly `msg` appended,
      `lastMessage` set to its content and `time` to `timeLabel`; identity,
      display fields and the unread flag are untouched. */
  ghost predicate AppendedOne(before: Conversation, after: Conversation, msg: Message, timeLabel: string) {
    && after.id == before.id
    && after.username == before.username
    && after.name == before.name
    && after.platform == before.platform
    && after.unread == before.unread
    && after.avatar == before.avatar
    && |after.messages| == |before.messages| + 1
    && after.messages[..|before.messages|] == before.messages
    && after.messages[|before.messages|] == msg
    && after.lastMessage == msg.content
    && after.time == timeLabel
  }

  /** The transition `PostTo` in observable terms: the list keeps its
      length and order, every conversation with the target id gains exactly
      `msg`, and every other conversation is unchanged. */
  lemma PostToSpec(convs: seq<Conversation>, id: int, msg: Message, timeLabel: string)
    ensures |PostTo(convs, id, msg, timeLabel)| == |convs|
    ensures forall i :: 0 <= i < |convs| && convs[i].id == id ==>
      AppendedOne(convs[i], PostTo(convs, id, msg, timeLabel)[i], msg, timeLabel)
    ensures forall i :: 0 <= i < |convs| && convs[i].id != id ==>
      PostTo(convs, id, msg, timeLabel)[i] == convs[i]
  {
    var r := PostTo(convs, id, msg, timeLabel);
    forall i | 0 <= i < |convs| && convs[i].id == id
      ensures AppendedOne(convs[i], r[i], msg, timeLabel)
    {
      assert r[i].messages == convs[i].messages + [msg];
      assert r[i].messages[..|convs[i].messages|] == convs[i].messages;
    }
  }

  /** The user message `sendMessage` creates. */
  function UserMessage(content: string, msgId: int, now: string): Message {
    Message(msgId, User, content, now, Sent)
  }

  /** The canned contact message the timer posts. */
  function ReplyMessage(msgId: int, now: string): Message {
    Message(msgId, Contact, ReplyText, now, Read)
  }

  /** The immediate part of `sendMessage(conversationId, content, conversations, …)`. */
  function SendMessage(convs: seq<Conversation>, conversationId: int, content: string,
                       msgId: int, now: string): (r: SendOutcome)
    ensures IsBlank(content) <==> r == Ignored
    ensures r.Posted? ==> r.reply == PendingReply(conversationId)
    ensures r.Posted? ==> |r.conversations| == |convs|
    ensures r.Posted? ==> forall i :: 0 <= i < |convs| && convs[i].id == conversationId ==>
      AppendedOne(convs[i], r.conversations[i], Message(msgId, User, content, now, Sent), SentLabel)
    ensures r.Posted? ==> forall i :: 0 <= i < |convs| && convs[i].id != conversationId ==>
      r.conversations[i] == convs[i]
  {
    if IsBlank(content) then Ignored
    else
      var msg := UserMessage(content, msgId, now);
      PostToSpec(convs, conversationId, msg, SentLabel);
      Posted(PostTo(convs, conversationId, msg, SentLabel), PendingReply(conversationId))
  }

  /** The deferred part of `sendMessage`: `setConversations(prev => …)`,
      applied to `current`, the snapshot at the time the timer fires. */
  function DeliverReply(current: seq<Conversation>, pending: PendingReply,
                        msgId: int, now: string): (r: seq<Conversation>)
    ensures |r| == |current|
    ensures forall i :: 0 <= i < |current| && current[i].id == pending.conversationId ==>
      AppendedOne(current[i], r[i], Message(msgId, Contact, ReplyText, now, Read), ReplyLabel)
    ensures forall i :: 0 <= i < |current| && current[i].id != pending.conversationId ==>
      r[i] == current[i]
  {
    var msg := ReplyMessage(msgId, now);
    PostToSpec(current, pending.conversationId, msg, ReplyLabel);
    PostTo(current, pending.conversationId, msg, ReplyLabel)
  }

  /** Blank or whitespace-only text changes nothing and arms no reply. */
  lemma BlankSendIgnored(convs: seq<Conversation>, conversationId: int, content: string,
                         msgId: int, now: string)
    requires AllSpace(content)
    ensures SendMessage(convs, conversationId, content, msgId, now) == Ignored
  {
    BlankIffAllSpace(content);
  }

  /** A send to an id that matches no conversation leaves the list as it
      was (the reply is still armed, and will be a no-op too). */
  lemma SendToUnknownId(convs: seq<Conversation>, conversationId: int, content: string,
                        msgId: int, now: string)
    requires forall c :: c in convs ==> c.id != conversationId
    requires !IsBlank(content)
    ensures SendMessage(convs, conversationId, content, msgId, now).Posted?
    ensures SendMessage(convs, conversationId, content, msgId, now).conversations == convs
  {
    var r := SendMessage(convs, conversationId, content, msgId, now);
    assert forall i :: 0 <= i < |convs| ==> convs[i] in convs;
    assert r.conversations == convs;
  }

  /** Send followed directly by its reply: the target conversation ends
      with the user message immediately followed by the canned reply, and
      its summary fields show the reply. */
  lemma SendThenReply(convs: seq<Conversation>, conversationId: int, content: string,
                      userId: int, sentAt: string, replyId: int, repliedAt: string, i: int)
    requires !IsBlank(content)
    requires 0 <= i < |convs| && convs[i].id == conversationId
    ensures
      var sent := SendMessage(convs, conversationId, content, userId, sentAt);
      var after := DeliverReply(sent.conversations, sent.reply, replyId, repliedAt);
      && after[i].messages == convs[i].messages
           + [Message(userId, User, content, sentAt, Sent), Message(replyId, Contact, ReplyText, repliedAt, Read)]
      && after[i].lastMessage == ReplyText
      && after[i].time == ReplyLabel
  {
    var sent := SendMessage(convs, conversationId, content, userId, sentAt);
    var mid := sent.conversations[i];
    var after := DeliverReply(sent.conversations, sent.reply, replyId, repliedAt);
    assert mid.messages == convs[i].messages + [UserMessage(content, userId, sentAt)];
    assert after[i].messages == mid.messages + [ReplyMessage(replyId, repliedAt)];
  }

  /** `scheduleMessage(content, scheduledTime, selectedRecipients, platform, …)`:
      the registry gains one record at the end holding the recipient count;
      `scheduledFor` is `scheduledTime.toISOString()`, passed in. The
      function does not validate its input. */
  function ScheduleMessage(registry: seq<ScheduledMessage>, content: string, scheduledFor: string,
                           selectedRecipients: seq<int>, platform: string, id: int): (r: seq<ScheduledMessage>)
    ensures |r| == |registry| + 1
    ensures r[..|registry|] == registry
    ensures r[|registry|].recipients == |selectedRecipients|
    ensures r[|registry|].content == content
    ensures r[|registry|].platform == platform
    ensures r[|registry|].scheduledFor == scheduledFor
    ensures r[|registry|].id == id
  {
    registry + [ScheduledMessage(id, content, |selectedRecipients|, scheduledFor, platform)]
  }

  /** The scheduling scenario: two recipients give a count of two, and
      neither blank content nor an empty recipient list is refused. */
  lemma ScheduleExamples(registry: seq<ScheduledMessage>)
    ensures ScheduleMessage([], "Hi {first_name}", "2024-01-01T10:00:00.000Z", [1, 2], "Instagram", 7)
         == [ScheduledMessage(7, "Hi {first_name}", 2, "2024-01-01T10:00:00.000Z", "Instagram")]
    ensures |ScheduleMessage(registry, "", "t", [], "Twitter", 8)| == |registry| + 1
  {
  }
}
