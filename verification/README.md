# A Dafny model of the DropDMs dashboard logic

DropDMs is a React dashboard for running direct-message outreach on social
platforms. It works on mock data held in component state. This project models
the logic behind its screens as pure Dafny functions over immutable values.
Each state update becomes a function from one snapshot to the next.

- **Conversations** (`src/utils/messageUtils.ts`): sending a message, the
  canned reply posted after it, scheduling a message, and the initials shown
  in avatars. Module `Messages`, with `Text` for the JavaScript string
  operations they rely on.
- **Composer** (`src/components/automation/MessageComposer.tsx`): the guard
  in front of a send, what the text box holds afterwards, the Enter key rule,
  and the quick replies. Module `Composer`.
- **Inbox search** (`src/components/automation/ConversationList.tsx`).
  Module `ConversationSearch`.
- **Schedule dialog** (`src/components/automation/ScheduleMessageDialog.tsx`):
  the recipient checkboxes, select-all, the guarded hand-off to
  `scheduleMessage`, and the form reset. Module `ScheduleDialog`. The
  checkbox logic it shares with the leads table is in module `Selection`.
- **Leads table** (`src/pages/Leads.tsx`). Module `Leads`.
- **Campaigns**: the kanban board (`KanbanBoard.tsx`, module `Kanban`), the
  week calendar (`CalendarView.tsx`, module `Calendar`), and the campaigns
  page's tab filter and empty state (`src/pages/Campaigns.tsx`, module
  `Campaigns`). Two parts of these are present in the code but never reached
  from the page:
  - The page keeps `activeTab` in state but never calls `setActiveTab`, so
    only the `'All'` tab is ever active. The status tabs (`Tab.Only`) model
    what the filter would do if a tab were switched.
  - The page imports `CalendarView` but does not render it. Module
    `Calendar` models the component on its own.
- **Proxy profiles** (`src/pages/ProxyProfiles.tsx`). Module `ProxyProfiles`.
- **Social profiles** (`src/pages/SocialProfiles.tsx`). Module
  `SocialProfiles`. `App.tsx` has no route to this page and no other file
  imports it, so module `SocialProfiles` models the page on its own.

`Seqs` holds the order-preserving `Filter` that every list view uses, with
its lemmas. `Wrappers` holds `Option`.

How JavaScript behaviour is represented:

- `trim()` removes the ECMAScript white-space and line-terminator characters.
- `toLowerCase` and `toUpperCase` act on ASCII letters.
- `includes` is substring search.
- `split(' ')` followed by `part[0]` and `join('')` is modelled piece by
  piece. An empty piece yields `undefined`, which `join` renders as nothing.
- A `number | null` selection is false when it is null or 0.
- An optional string is false when it is absent or empty.
- Clock readings (`Date.now()`, `new Date().toISOString()`, "tomorrow") are
  parameters.
- The date formatters (`Intl.DateTimeFormat`, date-fns `format`) are
  parameters.
- Calendar dates are day numbers counted from 1970-01-01.

`messageUtils.ts` has no operation that clears a conversation's `unread`
flag and none that removes a scheduled message, so the model has neither.
The code also settles three other points:

- The reply step does not touch `unread`.
- A send to an id that no conversation has still arms the reply.
- `scheduleMessage` itself validates nothing. The dialog does the checking.

## Model

| member | source | states |
|---|---|---|
| Messages.PostTo | src/utils/messageUtils.ts:74-85 | Posting keeps the list's length, order and ids, and leaves every conversation with another id exactly as it was. |
| Messages.PostToSpec | src/utils/messageUtils.ts:74-85 | The conversation map keeps length and order. Every conversation with the target id gains exactly the new message at the end, with `lastMessage` and `time` updated and identity, avatar and `unread` untouched. Every other conversation is unchanged. |
| Messages.SendMessage | src/utils/messageUtils.ts:57-92 | Blank or whitespace-only content does nothing and arms no reply, and only such content. Otherwise the target conversation gains one `sent` user message with `lastMessage` set to the content and time "1 min ago". The others are unchanged, and a reply is armed for the same id. |
| Messages.DeliverReply | src/utils/messageUtils.ts:94-116 | The timer's update, applied to whatever snapshot is current. The target conversation gains the canned `read` contact reply, shows it as `lastMessage` with time "just now", and is otherwise untouched. Others are unchanged. |
| Messages.BlankSendIgnored | src/utils/messageUtils.ts:63 | Content made only of white space is ignored. |
| Messages.SendToUnknownId | src/utils/messageUtils.ts:74-87 | A send to an id no conversation has still posts (and arms the reply), but the list is unchanged. |
| Messages.SendThenReply | src/utils/messageUtils.ts:57-116 | A send followed by its reply leaves the conversation's history as the old history, then the user message, then the canned reply. The summary fields show the reply. |
| Messages.ScheduleMessage | src/utils/messageUtils.ts:120-135 | The registry gains exactly one record at the end, holding the content, platform, ISO time, id and the number of selected recipients. Earlier records are kept. |
| Messages.ScheduleExamples | src/utils/messageUtils.ts:120-135 | Two recipients are recorded as a count of 2. Blank content with no recipients is still recorded, because the function does not validate. |
| Text.BlankIffAllSpace | src/utils/messageUtils.ts:63 | `trim()` yields the empty string exactly when every character is white space. |
| Text.Contains | src/components/automation/ConversationList.tsx:24-28 | `includes` holds exactly when the needle occurs at some position of the text. |
| Text.ContainsEmpty | src/components/automation/ConversationList.tsx:24-28 | Every text includes the empty string. |
| Text.LowerIdempotent | src/components/automation/ConversationList.tsx:25-27 | Lower-casing twice is lower-casing once. |
| Text.Split | src/utils/messageUtils.ts:50 | `split` yields at least one piece, and no piece contains the separator. |
| Text.JoinSplit | src/utils/messageUtils.ts:49-52 | Joining the pieces of a split with the same separator gives back the text, so the split loses nothing. |
| Text.BeforeFirst | src/components/campaigns/CalendarView.tsx:36 | `split('T')[0]` is the longest prefix without a 'T'. It is the whole text, or it is followed by a 'T'. |
| Text.HeadsSplit | src/utils/messageUtils.ts:49-53 | The first characters of the space-separated pieces are exactly the characters that start a word: a non-space at the start or after a space. |
| Text.GetInitials | src/utils/messageUtils.ts:48-54 | `getInitials` is the upper-cased sequence of word-start characters (a non-space at the start or after a space), so empty pieces from repeated spaces contribute nothing. |
| Text.InitialsOfOneWord | src/utils/messageUtils.ts:48-54 | A one-word name gives its first letter, upper-cased. |
| Text.InitialsOfTwoWords | src/utils/messageUtils.ts:48-54 | Two words separated by one space give their two first letters, upper-cased, in order. |
| Text.ExtraSpaceIgnored | src/utils/messageUtils.ts:50-52 | A run of two spaces starts the same words as a single space. |
| Text.InitialsSkipEmptyWords | src/utils/messageUtils.ts:48-54 | A doubled space gives the same initials as a single space, because the empty piece between the two spaces contributes nothing. |
| Text.InitialsOfFullName | src/utils/messageUtils.ts:48-54 | "John Doe" has initials "JD". |
| Text.InitialsOfSingleName | src/utils/messageUtils.ts:48-54 | "Madonna" has initials "M". |
| Text.InitialsOfSpacedName | src/utils/messageUtils.ts:48-54 | "ann  lee" gives "AL", and the empty name gives the empty string. |
| Selection.Without | src/components/automation/ScheduleMessageDialog.tsx:32 | Filtering out an id removes it and keeps every other id in order, with all of its occurrences. |
| Selection.Toggle | src/components/automation/ScheduleMessageDialog.tsx:30-36 | Toggling flips the membership of the id and no other. A selected id is removed by exactly that filter, giving a shorter order-preserving subsequence. An unselected id is appended at the end. |
| Selection.ToggleTwice | src/components/automation/ScheduleMessageDialog.tsx:30-36 | Two toggles of one id restore the set of selected ids. When the id was not selected they restore the very same array. |
| Selection.ToggleNoDup | src/components/automation/ScheduleMessageDialog.tsx:30-36 | Toggling never introduces a duplicate id. |
| Selection.ToggleStaysWithin | src/components/automation/ScheduleMessageDialog.tsx:30-36 | Toggling an id of the list keeps every selected id inside the list. |
| Selection.ToggleAll | src/components/automation/ScheduleMessageDialog.tsx:38-44 | When the counts agree, select-all clears the selection. Otherwise it selects the whole list, after which the counts agree. |
| Selection.AllChecked | src/components/automation/ScheduleMessageDialog.tsx:141 | For a duplicate-free selection drawn from a duplicate-free list, the count test behind "Deselect All" holds exactly when every id of the list is selected. |
| Selection.CountsMeanEverySelected | src/components/automation/ScheduleMessageDialog.tsx:39 | For a duplicate-free selection drawn from a duplicate-free list, equal counts hold exactly when every id of the list is selected. |
| Selection.CountsCanMislead | src/components/automation/ScheduleMessageDialog.tsx:39 | Without that invariant the count test is fooled: [1, 9] against [1, 2] reads as "all selected". |
| ScheduleDialog.InitialForm | src/components/automation/ScheduleMessageDialog.tsx:22-28 | The dialog opens with empty text, no recipients, time "12:00", platform "Instagram" and tomorrow's date. |
| ScheduleDialog.ConversationIds | src/components/automation/ScheduleMessageDialog.tsx:42 | The ids are listed one per conversation, in list order. |
| ScheduleDialog.ToggleRecipient | src/components/automation/ScheduleMessageDialog.tsx:30-36 | A checkbox click toggles that recipient and leaves every other form field unchanged. |
| ScheduleDialog.SelectAll | src/components/automation/ScheduleMessageDialog.tsx:38-44 | Select-all clears the recipients when the counts agree, or selects every conversation id in list order. Other fields are unchanged. |
| ScheduleDialog.CanSchedule | src/components/automation/ScheduleMessageDialog.tsx:47 | `handleSchedule` goes ahead exactly when the text holds a character that is not white space and some recipient is selected. |
| ScheduleDialog.ScheduleDisabled | src/components/automation/ScheduleMessageDialog.tsx:175 | The button's own `disabled` expression is the exact negation of the handler's guard. |
| ScheduleDialog.DisabledIffRefused | src/components/automation/ScheduleMessageDialog.tsx:175 | The Schedule button is disabled exactly when the handler would refuse: the text is all white space or no recipient is selected. |
| ScheduleDialog.HandleSchedule | src/components/automation/ScheduleMessageDialog.tsx:46-61 | If the guard fails, nothing changes and the dialog stays open. Otherwise one record with the text, recipient count and platform is appended, the dialog closes, and the form is back to its initial state. |
| ScheduleDialog.ScheduledCountPositive | src/components/automation/ScheduleMessageDialog.tsx:47 | A scheduled record always counts at least one recipient. |
| ScheduleDialog.SelectionInvariant | src/components/automation/ScheduleMessageDialog.tsx:30-44 | Checkbox and select-all clicks keep the recipients duplicate-free conversation ids. Under that invariant the dialog's count test means "every conversation selected". |
| Leads.LeadIdsAreTableOrder | src/pages/Leads.tsx:6-47 | The ids of the five sample leads, in table order, are the distinct ids 1 to 5. |
| Leads.ToggleLeadSelection | src/pages/Leads.tsx:79-85 | A row click flips that lead's membership only. A selected lead is removed by filtering out its id, and a newly selected lead is appended. |
| Leads.DoubleToggleRestores | src/pages/Leads.tsx:79-85 | Two clicks on a row restore the set of selected leads. |
| Leads.ToggleAllLeads | src/pages/Leads.tsx:88-94 | With five ids selected the header box clears the selection. Otherwise it selects ids 1 to 5. |
| Leads.LeadSelectionInvariant | src/pages/Leads.tsx:76-94 | The selection starts empty, and row clicks and header clicks keep it made of distinct ids of the table's rows. |
| Leads.HeaderCheckedMeansAllLeads | src/pages/Leads.tsx:145 | For every selection the table can reach, the header box is checked exactly when every lead is selected. |
| Leads.StatusClass | src/pages/Leads.tsx:50-61 | Each of the three known statuses gets its own badge class, in both directions. Every other status gets the muted class. |
| Leads.FormatDate | src/pages/Leads.tsx:64-73 | A missing or empty date reads "Never". Any other date goes to the locale formatter. |
| Leads.NeverContactedLead | src/pages/Leads.tsx:39-47 | The lead with no contact date shows "Never", whatever the formatter. |
| Kanban.GroupByStatus | src/components/campaigns/KanbanBoard.tsx:200-211 | The one-pass grouping yields the four columns in key order. Each column holds the campaigns of its status in input order. |
| Kanban.ColumnStep | src/components/campaigns/KanbanBoard.tsx:207-211 | Pushing the next campaign onto its status column extends that column's filtered prefix by exactly that campaign. The other columns are unchanged. |
| Kanban.EachCampaignInItsColumn | src/components/campaigns/KanbanBoard.tsx:207-211 | A campaign is in a column exactly when the column's status is its own. |
| Kanban.ColumnsKeepOrder | src/components/campaigns/KanbanBoard.tsx:207-211 | Within a column, campaigns keep their input order. |
| Kanban.ColumnsPartition | src/components/campaigns/KanbanBoard.tsx:200-211 | The four columns together hold the input exactly, counted with multiplicity. |
| Kanban.OneColumnCount | src/components/campaigns/KanbanBoard.tsx:207-211 | Each campaign is counted across the columns as often as it occurs in the input. |
| Kanban.ColumnCount | src/components/campaigns/KanbanBoard.tsx:207-211 | A column counts a campaign as often as the input does if the status matches, and never otherwise. |
| Kanban.ColumnSizesAddUp | src/components/campaigns/KanbanBoard.tsx:200-211 | The column sizes sum to the number of campaigns. |
| Kanban.EmptyBoard | src/components/campaigns/KanbanBoard.tsx:200-205 | With no campaigns the board still has the four empty columns, in order. |
| Kanban.StatusColor | src/components/campaigns/KanbanBoard.tsx:26-39 | Scheduled is emerald, Ongoing amber, Paused orange and Completed violet, and each colour belongs to its status only. |
| Kanban.StatusColorsDistinct | src/components/campaigns/KanbanBoard.tsx:26-39 | Two statuses share a badge colour exactly when they are the same status. |
| Kanban.TimeLabel | src/components/campaigns/KanbanBoard.tsx:99-108 | The clock row appears exactly when a time is truthy. It reads "start - end", "start" alone, or "--" followed by the end. |
| Kanban.ProgressBar | src/components/campaigns/KanbanBoard.tsx:118-131 | A card has a progress row exactly when its campaign is not scheduled. The row prints the campaign's progress and fills the bar to it. |
| Kanban.ProgressByColumn | src/components/campaigns/KanbanBoard.tsx:119 | On the board, a card shows a progress bar exactly when it is outside the Scheduled column. |
| Calendar.WeekStart | src/components/campaigns/CalendarView.tsx:18 | The week starts on the Sunday on or before the view date, within six days of it. |
| Calendar.WeekDays | src/components/campaigns/CalendarView.tsx:21 | The week has seven consecutive days starting at the week start. |
| Calendar.WeekKeys | src/components/campaigns/CalendarView.tsx:27-32 | There is one key per week day, in order. |
| Calendar.EmptyBuckets | src/components/campaigns/CalendarView.tsx:29-32 | Initialisation maps exactly the week's keys, each to an empty list. |
| Calendar.GroupByDay | src/components/campaigns/CalendarView.tsx:24-40 | The pass throws exactly when some campaign's day is not a week key but a name `{}` inherits from `Object.prototype` (such as "toString"), and it throws at the first such campaign. Otherwise each week key maps to the campaigns of that day in input order, and no other key is created. |
| Calendar.PlaceStep | src/components/campaigns/CalendarView.tsx:35-40 | One step of the pass for a campaign that does not throw keeps the map's keys. It extends every bucket to the next prefix, pushing the campaign only onto the bucket of its own day, if the week has that day. |
| Calendar.RenderWeek | src/components/campaigns/CalendarView.tsx:14-40 | A render shows the seven days of the Sunday-started week containing the view date, the same days the bucket keys are made from. It throws exactly when some campaign's day is an inherited name outside the week. Otherwise it shows the buckets of the reference week board. |
| Calendar.PlacementRule | src/components/campaigns/CalendarView.tsx:35-40 | A campaign is in a day's bucket exactly when its date before 'T' is that day's key. A campaign outside the week is in no bucket, and if its day is an inherited name the render throws instead. |
| Calendar.IsoDatesNeverThrow | src/components/campaigns/CalendarView.tsx:36-38 | A campaign whose date starts with a digit, as every ISO date does, never makes the pass throw. |
| Calendar.DayKeepsOrder | src/components/campaigns/CalendarView.tsx:35-40 | Within a day, campaigns keep their input order. |
| Calendar.SevenBuckets | src/components/campaigns/CalendarView.tsx:29-32 | With a formatter that tells days apart, the map has exactly seven keys. |
| Calendar.PreviousWeek | src/components/campaigns/CalendarView.tsx:43-45 | The left chevron moves the displayed week back by exactly one week and keeps the weekday of the view date. |
| Calendar.NextWeek | src/components/campaigns/CalendarView.tsx:48-50 | The right chevron moves the displayed week forward by exactly one week and keeps the weekday of the view date. |
| Calendar.NavigationRoundTrip | src/components/campaigns/CalendarView.tsx:43-50 | Previous-then-next returns to the same view date, and so does next-then-previous. Each step moves the displayed week by exactly seven days. |
| Calendar.WeekStartShift | src/components/campaigns/CalendarView.tsx:43-50 | Moving the view date by whole weeks moves the week start by the same amount. |
| Calendar.SundayUnique | src/components/campaigns/CalendarView.tsx:18 | Only one week start lies within any seven-day window containing a date. |
| ConversationSearch.FilterConversations | src/components/automation/ConversationList.tsx:24-28 | A conversation is listed exactly when the folded query occurs in its folded name, username or last message. The list keeps its order, and each listed conversation keeps all of its occurrences. |
| ConversationSearch.EmptyQueryKeepsAll | src/components/automation/ConversationList.tsx:24-28 | An empty query lists every conversation. |
| ConversationSearch.CaseInsensitive | src/components/automation/ConversationList.tsx:24-28 | Queries that differ only in letter case list the same conversations. |
| ConversationSearch.SearchIdempotent | src/components/automation/ConversationList.tsx:24-28 | Searching the result again with the same query changes nothing. |
| ProxyProfiles.InitialSelection | src/pages/ProxyProfiles.tsx:117 | The first sample profile, id 1, starts selected. |
| ProxyProfiles.FilterProxies | src/pages/ProxyProfiles.tsx:121-125 | A profile is listed exactly when the folded term occurs in its folded name, location or type. The list keeps its order, and each listed profile keeps all of its occurrences. |
| ProxyProfiles.EmptyTermKeepsAll | src/pages/ProxyProfiles.tsx:121-125 | An empty term lists every profile. |
| ProxyProfiles.CaseInsensitive | src/pages/ProxyProfiles.tsx:121-125 | Terms that differ only in letter case list the same profiles. |
| ProxyProfiles.TypePrefixFinds | src/pages/ProxyProfiles.tsx:121-125 | A term that is a prefix of a profile's type, in any letter case, finds that profile. |
| ProxyProfiles.MatchingProfileListed | src/pages/ProxyProfiles.tsx:121-125 | A profile that matches the term is listed. |
| ProxyProfiles.SocksTypesMatch | src/pages/ProxyProfiles.tsx:121-125 | The term "socks" matches every SOCKS4 and SOCKS5 profile through its type. |
| ProxyProfiles.SocksFindsSocksProfiles | src/pages/ProxyProfiles.tsx:121-125 | "socks" finds all three SOCKS4 and SOCKS5 sample profiles. |
| SocialProfiles.FindName | src/pages/SocialProfiles.tsx:74-75 | The lookup is absent exactly when no option has the id. Otherwise it is the name of the first option with that id. |
| SocialProfiles.NewProfile | src/pages/SocialProfiles.tsx:73-86 | The new profile carries the given id and the form's four values. Its platform and proxy names are the labels the `find` lookup returns for the chosen values, present exactly when the value is one of the options. |
| SocialProfiles.Validate | src/pages/SocialProfiles.tsx:41-46 | The form is valid exactly when all four fields are non-empty. There is one message per empty field. |
| SocialProfiles.Submit | src/pages/SocialProfiles.tsx:73-91 | An invalid form changes nothing. A valid one appends exactly the new profile: the form's values, the new id, and the platform and proxy names looked up with `find`. It closes the add card and resets the form. |
| SocialProfiles.SavedProfilesComplete | src/pages/SocialProfiles.tsx:41-46 | A saved profile always has four non-empty fields. |
| SocialProfiles.PlatformNameResolved | src/pages/SocialProfiles.tsx:74-80 | A platform chosen from the list gets its display name. |
| SocialProfiles.DeleteProfile | src/pages/SocialProfiles.tsx:93-95 | Deletion removes exactly the profiles with that id and keeps the rest in order, each with all of its occurrences. |
| SocialProfiles.DeleteIdempotent | src/pages/SocialProfiles.tsx:93-95 | Deleting an id twice is deleting it once. |
| SocialProfiles.DeleteUnknownId | src/pages/SocialProfiles.tsx:93-95 | Deleting an id no profile has changes nothing. |
| SocialProfiles.KeySuffix | src/pages/SocialProfiles.tsx:263 | `slice(-4)` is the last four characters of the key, or the whole key when it is shorter. |
| SocialProfiles.MaskedKey | src/pages/SocialProfiles.tsx:263 | The shown key is twelve bullet characters, each a '•', followed by the key's last four characters. |
| SocialProfiles.MaskRevealsOnlySuffix | src/pages/SocialProfiles.tsx:263 | Keys with the same last four characters are displayed identically. |
| SocialProfiles.ShowsEmptyCard | src/pages/SocialProfiles.tsx:227 | The "No Social Profiles" card shows exactly when no profile is listed and the add form is closed. |
| SocialProfiles.SaveHidesEmptyCard | src/pages/SocialProfiles.tsx:227 | After a successful save the "No Social Profiles" card is not shown. |
| Campaigns.FilterCampaigns | src/pages/Campaigns.tsx:88 | The All tab yields every campaign. A status tab yields exactly the campaigns of that status, in input order, each with all of its occurrences. |
| Campaigns.ShowsEmptyState | src/pages/Campaigns.tsx:101 | The empty state shows exactly when no campaign belongs under the tab. |
| Campaigns.EmptyStateIff | src/pages/Campaigns.tsx:101 | The empty state shows exactly when all four kanban columns are empty. |
| Campaigns.OneColumnPerTab | src/pages/Campaigns.tsx:88-98 | Under a status tab, every other kanban column is empty and the tab's column holds the whole filtered list. |
| Campaigns.AllTabShowsWholeBoard | src/pages/Campaigns.tsx:88-98 | Under the All tab the board is the board of every campaign. |
| Campaigns.SampleTabsNeverEmpty | src/pages/Campaigns.tsx:9-101 | With the sample campaigns, no tab shows the empty state. |
| Composer.CanSend | src/components/automation/MessageComposer.tsx:22 | A send goes ahead exactly when a conversation other than null or 0 is selected and the text holds a character that is not white space. |
| Composer.SendDisabled | src/components/automation/MessageComposer.tsx:68 | The button's own `disabled` expression is the exact negation of the handler's guard: no conversation, conversation 0, or text that is all white space. |
| Composer.HandleSendMessage | src/components/automation/MessageComposer.tsx:21-26 | With a truthy selection and non-blank text, the untrimmed text is sent to that conversation, a reply is armed and the box is cleared. Otherwise nothing is sent and the text stays. |
| Composer.DisabledIffNoSend | src/components/automation/MessageComposer.tsx:68 | The Send button is disabled exactly when clicking it would send nothing. When enabled, a click clears the box. |
| Composer.ZeroIdIsNoSelection | src/components/automation/MessageComposer.tsx:22 | Conversation id 0 counts as no selection, so nothing can be sent to it from the composer. |
| Composer.HandleKeyPress | src/components/automation/MessageComposer.tsx:28-33 | Enter without Shift, and only that key, prevents the default action and attempts a send. Every other key leaves the text and the conversations alone. |
| Composer.ShiftEnterNeverSends | src/components/automation/MessageComposer.tsx:29 | Shift+Enter never sends. |
| Composer.EnterLikeSendButton | src/components/automation/MessageComposer.tsx:28-33 | Enter posts exactly when the Send button is enabled. |
| Composer.QuickReply | src/components/automation/MessageComposer.tsx:83-99 | Each quick-reply button replaces the text with its own fixed string, whatever the text was. |
| Composer.QuickReplyEnablesSend | src/components/automation/MessageComposer.tsx:83-99 | A quick reply is never blank. With a conversation selected, it enables Send and the send posts. |

## Left out

- The three-second delay of the simulated reply. `DeliverReply` is applied to whatever snapshot is current when the timer fires. Interleavings between the two steps are not enumerated.
- Toasts, icons, CSS classes other than the status badges, and all layout.
- `Intl.DateTimeFormat` (`formatMessageTime`, `formatScheduledDate`, and the date line of `formatDate` in the leads table and kanban card). These are locale-dependent, so the formatter is a parameter.
- date-fns `format`, the local time zone, and building a `Date` from the dialog's date and time. The day key and the ISO string are parameters. An invalid date that makes `toISOString` throw is not modelled.
- Text.Lower: folds ASCII letters only, because JavaScript's full Unicode case mapping is out of scope. Text lengths and `slice` count characters, not UTF-16 code units.
- Message attachments, which no modelled operation reads or writes.
- Calendar.GroupByDay: a week key that is itself the name "__proto__" is treated like any other key. In JavaScript, assigning to that key replaces the object's prototype. The `yyyy-MM-dd` formatter always starts a key with a digit, so it cannot produce that name.
- The `in` guard of the kanban grouping and the `default` branch of `getStatusColor`. Statuses are a four-value datatype, so neither can be reached. `getColumnColor` returns one constant and is not modelled.
- The proxy `uptime` (floating point), the performance-metrics panel, and the new-proxy form.
- The empty-state sentence built from `activeTab.toLowerCase()` on the campaigns page.
- `Campaign.progress` is an `int`, where the source has a JavaScript `number`. A fractional progress value would be printed and used as the bar width as is. The sample data holds only whole numbers.
- The seed conversations of `src/data/conversations.ts`. They are not part of this model.
- No file of the repository renders `MessageComposer`, `ConversationList` or `ScheduleMessageDialog`. They are modelled as components on their own. `Automation.tsx` has its own inline inbox and its own copy of `getInitials` (line 129), which is not modelled. `Settings.tsx` and the dashboard do not use any modelled component and are not part of this model.
- Free typing in the composer and dialog text boxes. The model starts from the text they hold.
