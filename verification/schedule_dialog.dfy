/** The schedule-message dialog
    (src/components/automation/ScheduleMessageDialog.tsx): its form state,
    the recipient checkboxes, and the guarded hand-off to `scheduleMessage`.
    "Tomorrow's date" and the ISO rendering of the chosen date and time are
    clock- and time-zone-dependent, so they are parameters. */
module ScheduleDialog {
  import opened Text
  import opened Seqs
  import Selection
  import opened Messages

  datatype Form = Form(text: string, date: string, time: string, platform: string, recipients: seq<int>)

  const DefaultTime := "12:00"
  const DefaultPlatform := "Instagram"

  /** The dialog as first rendered, and as `resetForm` leaves it. */
  function InitialForm(tomorrow: string): (f: Form)
    ensures f.text == "" && f.recipients == []
    ensures f.time == "12:00" && f.platform == "Instagram" && f.date == tomorrow
  {
    Form("", tomorrow, DefaultTime, DefaultPlatform, [])
  }

  /** `conversations.map(conv => conv.id)`. */
  function ConversationIds(convs: seq<Conversation>): (ids: seq<int>)
    ensures |ids| == |convs|
    ensures forall i :: 0 <= i < |convs| ==> ids[i] == convs[i].id
  {
    Map(convs, (c: Conversation) => c.id)
  }

  /** `handleToggleRecipient(id)`. */
  function ToggleRecipient(f: Form, id: int): (g: Form)
    ensures g.recipients == Selection.Toggle(f.recipients, id)
    ensures g.(recipients := f.recipients) == f
  {
    f.(recipients := Selection.Toggle(f.recipients, id))
  }

  /** `handleSelectAll()`: deselect everything when the counts agree,
      otherwise select every conversation in list order. */
  function SelectAll(f: Form, convs: seq<Conversation>): (g: Form)
    ensures |f.recipients| == |convs| ==> g.recipients == []
    ensures |f.recipients| != |convs| ==>
      |g.recipients| == |convs| &&
      forall i :: 0 <= i < |convs| ==> g.recipients[i] == convs[i].id
    ensures g.(recipients := f.recipients) == f
  {
    f.(recipients := Selection.ToggleAll(f.recipients, ConversationIds(convs)))
  }

  /** The condition `handleSchedule` tests before doing anything: the
      text holds a visible character and some recipient is ticked. */
  function CanSchedule(f: Form): (r: bool)
    ensures r <==> !AllSpace(f.text) && f.recipients != []
  {
    BlankIffAllSpace(f.text);
    !IsBlank(f.text) && |f.recipients| > 0
  }

  /** `disabled={!messageText.trim() || selectedRecipients.length === 0}`,
      written apart from the handler's guard; it is that guard's negation. */
  function ScheduleDisabled(f: Form): (r: bool)
    ensures r <==> !CanSchedule(f)
  {
    IsBlank(f.text) || |f.recipients| == 0
  }

  /** The button is disabled exactly when the handler would refuse. */
  lemma DisabledIffRefused(f: Form)
    ensures ScheduleDisabled(f) <==> !CanSchedule(f)
    ensures ScheduleDisabled(f) <==> AllSpace(f.text) || f.recipients == []
  {
    BlankIffAllSpace(f.text);
  }

  /** The dialog state after a click on "Schedule Message". */
  datatype Outcome = Outcome(form: Form, registry: seq<ScheduledMessage>, closed: bool)

  /** `handleSchedule()`: when the guard holds, append one record, close
      the dialog and reset the form; otherwise change nothing. */
  function HandleSchedule(f: Form, registry: seq<ScheduledMessage>, scheduledFor: string,
                          id: int, tomorrow: string): (o: Outcome)
    ensures !CanSchedule(f) ==> o == Outcome(f, registry, false)
    ensures CanSchedule(f) ==>
      && o.closed
      && o.form == InitialForm(tomorrow)
      && |o.registry| == |registry| + 1
      && o.registry[..|registry|] == registry
      && o.registry[|registry|] == ScheduledMessage(id, f.text, |f.recipients|, scheduledFor, f.platform)
  {
    if CanSchedule(f) then
      Outcome(InitialForm(tomorrow),
              ScheduleMessage(registry, f.text, scheduledFor, f.recipients, f.platform, id),
              true)
    else Outcome(f, registry, false)
  }

  /** A successful schedule records at least one recipient. */
  lemma ScheduledCountPositive(f: Form, registry: seq<ScheduledMessage>, scheduledFor: string,
                               id: int, tomorrow: string)
    requires CanSchedule(f)
    ensures HandleSchedule(f, registry, scheduledFor, id, tomorrow).registry[|registry|].recipients > 0
  {
  }

  /** Recipients picked only through the checkboxes are conversation ids
      without repetition, so the dialog's count comparison means "every
      conversation is selected". */
  lemma SelectionInvariant(f: Form, convs: seq<Conversation>, id: int)
    requires NoDup(f.recipients) && NoDup(ConversationIds(convs))
    requires forall x :: x in f.recipients ==> x in ConversationIds(convs)
    requires id in ConversationIds(convs)
    ensures NoDup(ToggleRecipient(f, id).recipients)
    ensures forall x :: x in ToggleRecipient(f, id).recipients ==> x in ConversationIds(convs)
    ensures NoDup(SelectAll(f, convs).recipients)
    ensures forall x :: x in SelectAll(f, convs).recipients ==> x in ConversationIds(convs)
    ensures |f.recipients| == |convs| <==> forall x :: x in ConversationIds(convs) ==> x in f.recipients
  {
    Selection.ToggleNoDup(f.recipients, id);
    Selection.ToggleStaysWithin(f.recipients, id, ConversationIds(convs));
    Selection.CountsMeanEverySelected(f.recipients, ConversationIds(convs));
  }
}
