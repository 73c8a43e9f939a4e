/** The message composer of src/components/automation/MessageComposer.tsx:
    the guard in front of `sendMessage`, what the text box holds after a
    send attempt, the Enter key rule and the quick-reply buttons. */
module Composer {
  import opened Wrappers
  import opened Text
  import opened Messages

  /** `selectedConversation` (`number | null`) read as a JavaScript
      condition: null and the id 0 both count as "no conversation". */
  predicate HasSelection(selected: Option<int>) {
    selected.Some? && selected.value != 0
  }

  /** `selectedConversation && messageText.trim()`: a conversation other
      than 0 is selected and the text holds a visible character. */
  function CanSend(selected: Option<int>, text: string): (r: bool)
    ensures r <==> selected.Some? && selected.value != 0 && !AllSpace(text)
  {
    BlankIffAllSpace(text);
    HasSelection(selected) && !IsBlank(text)
  }

  /** `disabled={!selectedConversation || !messageText.trim()}`, written
      apart from the handler's guard; it is that guard's negation. */
  function SendDisabled(selected: Option<int>, text: string): (r: bool)
    ensures r <==> !CanSend(selected, text)
    ensures r <==> selected == None || selected == Some(0) || AllSpace(text)
  {
    !HasSelection(selected) || IsBlank(text)
  }

  /** The composer after a send attempt: the text left in the box and what
      `sendMessage` did to the conversations. */
  datatype Step = Step(text: string, outcome: SendOutcome)

  /** `handleSendMessage`. The untrimmed text is what gets sent. */
  function HandleSendMessage(selected: Option<int>, text: string, convs: seq<Conversation>,
                             msgId: int, now: string): (r: Step)
    ensures CanSend(selected, text) ==>
      && r.text == ""
      && r.outcome.Posted?
      && r.outcome.reply == PendingReply(selected.value)
      && r.outcome == SendMessage(convs, selected.value, text, msgId, now)
    ensures !CanSend(selected, text) ==> r == Step(text, Ignored)
  {
    if HasSelection(selected) && !IsBlank(text) then
      Step("", SendMessage(convs, selected.value, text, msgId, now))
    else
      Step(text, Ignored)
  }

  /** The Send button is disabled exactly when clicking it would do nothing. */
  lemma DisabledIffNoSend(selected: Option<int>, text: string, convs: seq<Conversation>,
                          msgId: int, now: string)
    ensures SendDisabled(selected, text) <==> HandleSendMessage(selected, text, convs, msgId, now).outcome == Ignored
    ensures !SendDisabled(selected, text) ==> HandleSendMessage(selected, text, convs, msgId, now).text == ""
  {
  }

  /** Conversation 0 can never be sent to from the composer. */
  lemma ZeroIdIsNoSelection(text: string, convs: seq<Conversation>, msgId: int, now: string)
    ensures HandleSendMessage(Some(0), text, convs, msgId, now) == Step(text, Ignored)
    ensures SendDisabled(Some(0), text)
  {
  }

  /** A key press in the text box. */
  datatype Key = Key(key: string, shiftKey: bool)

  /** Whether `handleKeyPress` acts on a key: Enter without Shift. */
  predicate SubmitsOnKey(k: Key) {
    k.key == "Enter" && !k.shiftKey
  }

  /** `handleKeyPress`: whether the browser's default action is prevented,
      and the composer afterwards. Other keys leave the text to the
      textarea's own editing, which is not modelled. */
  function HandleKeyPress(k: Key, selected: Option<int>, text: string, convs: seq<Conversation>,
                          msgId: int, now: string): (r: (bool, Step))
    ensures r.0 <==> k.key == "Enter" && !k.shiftKey
    ensures r.0 ==> r.1 == HandleSendMessage(selected, text, convs, msgId, now)
    ensures !r.0 ==> r.1 == Step(text, Ignored)
  {
    if SubmitsOnKey(k) then (true, HandleSendMessage(selected, text, convs, msgId, now))
    else (false, Step(text, Ignored))
  }

  /** Shift+Enter never sends, whatever is typed and selected. */
  lemma ShiftEnterNeverSends(selected: Option<int>, text: string, convs: seq<Conversation>,
                             msgId: int, now: string)
    ensures HandleKeyPress(Key("Enter", true), selected, text, convs, msgId, now).1.outcome == Ignored
  {
  }

  /** Enter sends exactly what clicking the Send button sends. */
  lemma EnterLikeSendButton(selected: Option<int>, text: string, convs: seq<Conversation>,
                            msgId: int, now: string)
    ensures HandleKeyPress(Key("Enter", false), selected, text, convs, msgId, now).1.outcome.Posted?
            <==> !SendDisabled(selected, text)
  {
  }

  /** The three quick-reply buttons, in display order. */
  const QuickReplies: seq<string> := [
    "Thanks for your interest!",
    "When's a good time to chat?",
    "Here's more info about our service"
  ]

  /** Clicking quick-reply button `i` replaces the text, whatever it was. */
  function QuickReply(text: string, i: int): (r: string)
    requires 0 <= i < |QuickReplies|
    ensures r in QuickReplies
    ensures i == 0 ==> r == "Thanks for your interest!"
    ensures i == 1 ==> r == "When's a good time to chat?"
    ensures i == 2 ==> r == "Here's more info about our service"
  {
    QuickReplies[i]
  }

  /** A quick reply is never blank, so with a conversation selected it
      enables the Send button, and the send posts the quick reply itself. */
  lemma QuickReplyEnablesSend(text: string, i: int, id: int, convs: seq<Conversation>,
                              msgId: int, now: string)
    requires 0 <= i < |QuickReplies| && id != 0
    ensures !SendDisabled(Some(id), QuickReply(text, i))
    ensures var s := HandleSendMessage(Some(id), QuickReply(text, i), convs, msgId, now);
      s.text == "" && s.outcome.Posted?
  {
    var q := QuickReply(text, i);
    assert q[0] == 'T' || q[0] == 'W' || q[0] == 'H';
    assert !IsSpace(q[0]);
    NotBlankWithVisibleChar(q, 0);
  }

  /** A string holding a character that is not whitespace is not blank. */
  lemma NotBlankWithVisibleChar(s: string, i: int)
    requires 0 <= i < |s| && !IsSpace(s[i])
    ensures !IsBlank(s)
  {
    BlankIffAllSpace(s);
  }
}
