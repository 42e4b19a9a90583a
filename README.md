# Heimdallr core, modelled in Dafny

Heimdallr is a Discord bot that announces a team's calendar events and holidays, and sends reminders for them. This project models the parts of it that decide things:

- **The reminder ledger** (`ReminderTracker`). It is a map from the key `guild:event:offset` to the time a reminder was sent. A sweep evicts entries older than seven days.
- **The scheduler tick** (`ReminderScheduler`):
  - For every guild with a notification channel, and every event, holiday or sprint, it finds the reminder offsets that fall inside the five-minute window.
  - It sends each such reminder unless the ledger already holds its key, and marks the key afterwards.
  - The nested loops of the tick are methods over a `ReminderLedger` object. They are proved to compute a fold (`Run`) over the flat list of candidate reminders.
  - The idempotence and at-most-once properties are proved about that fold.
- **The RSVP store** (`RsvpTracker`), the **guild configuration cache** (`ConfigManager`) and **the embed field list** (`EmbedFields`). These are objects whose maps and sequences are updated in place.
- **The intake filters** of the webhook (`Webhooks`) and the realtime listener (`RealtimeListener`). Both use one eligibility test, applied in different orders.
- **The reaction handlers** (`ReactionAdd`, `ReactionRemove`). Their marker, emoji and field-name literals are kept exactly as the source writes them.
- **The command parsers**:
  - `/schedule` (`Schedule`), `/reschedule` (`Reschedule`) and `/reminders` (`ConfigReminders`);
  - the shared duration wording (`Durations`);
  - the embed helpers (`Embeds`).
- **Shared helpers.** `Wrappers` holds `Option`. `Text` holds the JavaScript string operations the source uses: `trim`, `includes`, `replace` of the first occurrence, `split`/`join`, decimal rendering and `parseInt`.

Values from outside the code are parameters:

- Clocks are integer millisecond instants. An Invalid Date is `None`.
- Data fetched from the database is passed in as values, and `None` stands for a fetch that threw.
- The outcome of a delivery is a parameter too.

## Model

| member | source | states |
|---|---|---|
| ReminderTracker.ReminderKeyInjective | src/services/reminderTracker.js:58-60 | For guild ids without `:`, equal ledger keys mean equal guild, event and offset. Distinct reminders never share a key. |
| ReminderTracker.ReminderKey | src/services/reminderTracker.js:58-60 | The key is the guild id, `:`, the event id, `:` and the offset in decimal. Its length is the sum of the parts, it starts with the guild id and a colon, and it ends with the written offset. |
| ReminderTracker.ReminderLedger.HasBeenSent | src/services/reminderTracker.js:69-72 | The definition: the reminder's key is in the ledger. MarkAsSent and ClearAll state how the answer changes. |
| ReminderTracker.ReminderLedger.MarkAsSent | src/services/reminderTracker.js:81-89 | After marking, `hasBeenSent` holds for that key. Every other key keeps its presence and value. The map grows by at most one entry. |
| ReminderTracker.ReminderLedger.CleanupOldReminders | src/services/reminderTracker.js:94-111 | Deletes exactly the entries sent strictly before `now` minus seven days and keeps the rest. The returned count equals the number of entries deleted. |
| ReminderTracker.SweepStep | src/services/reminderTracker.js:99-105 | One loop step deletes the visited entry if it is stale and keeps it otherwise. Entries not yet visited are untouched. |
| ReminderTracker.SweepDone | src/services/reminderTracker.js:94-111 | A sweep over no keys changes nothing. A sweep over all keys yields the retained map. The stale count equals the old size minus the new size. |
| ReminderTracker.RetainedSize | src/services/reminderTracker.js:98-108 | The retained keys are the old keys minus the stale ones. The two sizes add up to the old size. |
| ReminderTracker.RetentionBoundary | src/services/reminderTracker.js:95-96 | An entry exactly seven days old is kept. One a millisecond older is evicted. |
| ReminderTracker.MarkSurvivesSweep | src/services/reminderTracker.js:81-111 | A key marked less than seven days before a sweep survives it. |
| ReminderTracker.ReminderLedger.LoadReminders | src/services/reminderTracker.js:14-33 | After a load, the ledger is the stored map without its stale entries. No entry older than the cutoff remains. |
| ReminderTracker.ReminderLedger.ClearAll | src/services/reminderTracker.js:116-120 | After clearing, `hasBeenSent` is false for every guild, event and offset. |
| RsvpTracker.RsvpKey | src/services/rsvpTracker.js:53-55 | The key is the guild id, a colon, then the message id, and both parts can be read back from it. |
| RsvpTracker.SetResponse | src/services/rsvpTracker.js:76-81 | Afterwards the user's entry holds the new answer and every other user's entry is unchanged. The list grows only for a new user. Distinct user ids stay distinct, so the last write wins. |
| RsvpTracker.TallyTotal | src/services/rsvpTracker.js:100-106 | When every status is accepted, declined or maybe, the three counts add up to the number of responses. |
| RsvpTracker.CountIsUsers | src/services/rsvpTracker.js:100-106 | Each count equals the number of distinct users holding that status. |
| RsvpTracker.ChangeMovesOneVote | src/services/rsvpTracker.js:76-81 | Changing one user's answer moves at most one vote between counts. A user is never counted twice. |
| RsvpTracker.RsvpStore.TrackRsvp | src/services/rsvpTracker.js:66-84 | The record is created with this title and no responses only if it is absent. An existing title is kept. The user's answer is then set. Other records are unchanged, and a record's response count never decreases. |
| RsvpTracker.RsvpStore.GetRsvpStats | src/services/rsvpTracker.js:92-107 | Returns all zeros for an unknown message. Otherwise it returns the tally of the record's responses, computed by a loop. |
| RsvpTracker.RsvpStore.GetRsvps | src/services/rsvpTracker.js:115-127 | Returns `[]` for an unknown message. Otherwise it returns exactly one item per response, in order. |
| ConfigManager.FullConfig | src/services/configManager.js:64-68 | The saved record has the config's keys plus `guild_id` and `updated_at`. A `guild_id` in the config overrides the argument. `updated_at` is always the fresh timestamp. Other fields are copied. |
| ConfigManager.ConfigStore.GetGuildConfig | src/services/configManager.js:54-56 | Returns the stored config if there is one, otherwise `None`. |
| ConfigManager.ConfigStore.SaveGuildConfig | src/services/configManager.js:63-74 | Stores and returns the full record, which the getter then returns. Every other guild's entry is unchanged. The guild counts as configured exactly when the record has truthy `supabase_url` and `supabase_key`. |
| ConfigManager.ConfigStore.IsGuildConfigured | src/services/configManager.js:81-84 | The definition: a stored config whose `supabase_url` and `supabase_key` are both truthy. SaveGuildConfig and ClearGuildCache state how it changes. |
| ConfigManager.ConfigStore.ClearGuildCache | src/services/configManager.js:90-93 | Removes only that guild. Afterwards the guild is neither stored nor configured. |
| ConfigManager.ConfigStore.GetAllGuildConfigs | src/services/configManager.js:99-101 | Holds exactly the stored guilds, each with its stored config. |
| ReminderScheduler.MinutesUntil | src/services/reminderScheduler.js:64 | The minute count is the floor of the millisecond difference divided by 60000. |
| ReminderScheduler.DueWindow | src/services/reminderScheduler.js:63-73 | Offset `o` is due exactly when the start lies between `o-5` minutes (inclusive) and `o+6` minutes (exclusive) from now. |
| ReminderScheduler.DefaultTimes | src/services/reminderScheduler.js:99-103 | The built-in lists are strictly decreasing and positive, and start with a day or more and then an hour or more. Only holidays start at a week, and only meetings have three offsets. |
| ReminderScheduler.GetReminderTimes | src/services/reminderScheduler.js:98-110 | Returns the configured list for the type when present and truthy, otherwise the built-in list for the type. |
| ReminderScheduler.EventType | src/services/reminderScheduler.js:67 | The definition: the event's type, or "holiday" when the type is empty. |
| ReminderScheduler.EventId | src/services/reminderScheduler.js:75 | The definition: the event's id, or its title, `-` and start date when the id is empty. |
| ReminderScheduler.FormatReminderTime | src/services/reminderScheduler.js:177-189 | Returns "now" exactly for counts of zero or less. Otherwise it is "in " followed by the shared duration wording. |
| ReminderScheduler.RoleMentions | src/services/reminderScheduler.js:141 | Gives one `<@&id>` per role id, in order. |
| ReminderScheduler.MentionContent | src/services/reminderScheduler.js:136-146 | The content is empty exactly when there are no roles and the type is not holiday. A holiday without roles gets `@everyone`. Otherwise, for role ids without spaces, the content splits back into the role mentions. |
| ReminderScheduler.MentionsSplit | src/services/reminderScheduler.js:141 | Mentions of role ids without spaces, joined by spaces, split back into the same mentions. |
| ReminderScheduler.ReactionsFor | src/services/reminderScheduler.js:153-161 | Meetings get ✅ ❌ ❓, work sessions get ✅ ❌, and other types get none. |
| ReminderScheduler.OffsetCandidatesDue | src/services/reminderScheduler.js:71-81 | A subject's candidates are exactly its due offsets. A subject with an invalid date has none. |
| ReminderScheduler.GuildCandidates | src/services/reminderScheduler.js:38-81 | The definition: nothing for a guild without a notification channel or whose fetch threw. Otherwise the sprints' candidates come first, then those of the events and holidays. SkippedGuildIsolated and OffsetCandidatesDue state its properties. |
| ReminderScheduler.TickCandidates | src/services/reminderScheduler.js:37-84 | The definition: every guild's candidates, guild by guild. TickCandidatesAppend states that it splits at any point. |
| ReminderScheduler.Step | src/services/reminderScheduler.js:76-79 | A candidate whose key is in the ledger changes nothing. Otherwise it is sent, delivered unless its key is failing, and marked. The ledger gains exactly its key and keeps every other entry. |
| ReminderScheduler.Run | src/services/reminderScheduler.js:62-82 | The definition: Step applied to the candidates in order. RunLedger, RunSends, RunIdle and SecondTickSendsNothing state its properties. |
| ReminderScheduler.SkippedGuildIsolated | src/services/reminderScheduler.js:37-42 | A guild without a config or notification channel, or whose fetch threw, contributes nothing. The other guilds' candidates are the same as without it. |
| ReminderScheduler.RunLedger | src/services/reminderScheduler.js:75-79 | After a run, the ledger holds the old keys plus every candidate's key. Old entries keep their values. |
| ReminderScheduler.RunSends | src/services/reminderScheduler.js:75-79 | Each send in a run has a key that was absent before and is marked after. No two sends share a key. |
| ReminderScheduler.RunMarksRegardlessOfDelivery | src/services/reminderScheduler.js:119-170 | The ledger after a run does not depend on which deliveries failed. |
| ReminderScheduler.RunIdle | src/services/reminderScheduler.js:75-79 | When every candidate is already marked, a run sends nothing and changes nothing. |
| ReminderScheduler.SecondTickSendsNothing | src/services/reminderScheduler.js:75-79 | Running a tick again on the same data, from the ledger the first run left, sends nothing. |
| ReminderScheduler.NoResendAcrossTicks | src/services/reminderScheduler.js:75-79 | No key sent by one tick is sent again by the next tick. |
| ReminderScheduler.SendAndMark | src/services/reminderScheduler.js:76-78 | Sends and marks an unmarked candidate, even when delivery fails. A marked candidate is skipped. |
| ReminderScheduler.CheckOffsets | src/services/reminderScheduler.js:71-81 | The offset loop leaves the ledger and the sends equal to the fold over the subject's due offsets. |
| ReminderScheduler.CheckSprintNotifications | src/services/reminderScheduler.js:198-228 | Applies the fixed offsets `[1440,60]` to the start, then to the end, under the `-start` and `-end` keys, as the fold states. |
| ReminderScheduler.CheckSprints | src/services/reminderScheduler.js:58-60 | The sprint loop equals the fold over all sprints' candidates. |
| ReminderScheduler.CheckEvents | src/services/reminderScheduler.js:62-82 | The event loop equals the fold over each event's configured offsets. |
| ReminderScheduler.CheckGuild | src/services/reminderScheduler.js:38-85 | A guild's step equals the fold over that guild's candidates. A skipped guild, or one whose fetch threw, changes nothing. |
| ReminderScheduler.CheckUpcomingEvents | src/services/reminderScheduler.js:30-90 | A whole tick equals the fold over all guilds' candidates, and every sent key is marked afterwards. |
| Durations.Breakdown | src/commands/config-reminders.js:70-80 | The count is the floor of minutes divided by the largest unit that fits. Days are used exactly from 1440 minutes, and minutes exactly below 60. |
| Durations.DescribeCount | src/commands/config-reminders.js:70-80 | The description starts with the decimal count, which `parseInt` reads back. |
| Durations.SingularExactly | src/services/reminderScheduler.js:181-187 | The count is 1 exactly for 1 minute, 60 to 119 minutes and 1440 to 2879 minutes. The description ends in the plural "s" exactly for every other minute count. |
| Durations.Words | src/commands/config-reminders.js:70-80 | The wording is never empty. It ends in "s" exactly when the count is not 1. |
| Webhooks.FailedChecks | src/api/webhooks.js:59-75 | Records which of the three skip conditions an event fails. |
| Webhooks.EligibleIffNoFailedCheck | src/api/webhooks.js:59-75 | An event is eligible exactly when it fails none of the three checks. |
| Webhooks.WebhookSkip | src/api/webhooks.js:59-75 | Gives no reason exactly for eligible events. Otherwise it gives the first failing check, in the order recurrence, notified, guild. |
| Webhooks.StripColon | src/api/webhooks.js:22 | Removes one leading `:` and the whitespace after it, and leaves other text alone. |
| Webhooks.CleanSecret | src/api/webhooks.js:22 | A missing or empty header cleans to "". A cleaned secret never starts with whitespace. |
| Webhooks.CleanSecretRecovers | src/api/webhooks.js:22 | A secret surrounded by whitespace cleans back to itself. |
| Webhooks.CleanSecretRecoversAfterColon | src/api/webhooks.js:22 | A secret preceded by `:` and whitespace, in any padding, cleans back to itself. |
| Webhooks.Authenticate | src/api/webhooks.js:13-33 | Without a configured secret every request gets 503. Otherwise the request passes exactly when the cleaned header equals the secret, and gets 401 if not. An empty header never passes. |
| Webhooks.HandleTeamEvents | src/api/webhooks.js:39-91 | A payload that is not an INSERT into `team_events`, or has no record, gets 400. An ineligible event gets its skip reason. An eligible one gets success, or 500 when the send throws. |
| Webhooks.ForwardedIffEligible | src/api/webhooks.js:59-79 | A request reaches the send exactly when it is authorised, well-formed and eligible. |
| RealtimeListener.InitRealtimeListener | src/services/realtimeListener.js:13-16 | There is no subscription without both the URL and the key. |
| RealtimeListener.ListenerSkip | src/services/realtimeListener.js:45-60 | Gives no reason exactly for eligible events. Otherwise it gives the first failing check, in the order guild, recurrence, notified. |
| RealtimeListener.SameEligibilityAsWebhook | src/services/realtimeListener.js:45-64 | The listener and the webhook forward the same events. They give different reasons only when two or more checks fail. |
| RealtimeListener.NonRecurringPassesRecurrence | src/services/realtimeListener.js:51 | For a non-recurring event, `recurring_event_id` never changes the outcome. |
| RealtimeListener.HandleNewEvent | src/services/realtimeListener.js:94-117 | An unknown guild gets no send. A known guild gets one send attempt, whose failure is absorbed. |
| RealtimeListener.AttemptedIffEligibleAndKnown | src/services/realtimeListener.js:45-64 | A send is attempted exactly for eligible events whose guild is in the cache. |
| EmbedFields.FirstIndex | src/events/messageReactionAdd.js:53 | Finds the first field with the name, or none exactly when no field has it. |
| EmbedFields.EmbedData.FindField | src/events/messageReactionAdd.js:53 | The `findIndex` loop returns the first matching index, or -1 when none matches. |
| EmbedFields.Upsert | src/events/messageReactionAdd.js:53-63 | The first matching field gets the value, and no field is added. Otherwise one non-inline field is appended. All other fields are unchanged. |
| EmbedFields.UpdateOnly | src/events/messageReactionRemove.js:69-74 | Only the first matching field's value changes, and nothing is ever appended. |
| EmbedFields.RemoveFirst | src/events/messageReactionRemove.js:64-68 | Removes the first matching field. The other fields keep their order. |
| EmbedFields.UpsertIdempotent | src/events/messageReactionAdd.js:53-63 | Writing the same RSVP text twice equals writing it once. |
| EmbedFields.RemoveUndoesAppend | src/events/messageReactionRemove.js:64-68 | Removing a field that was just appended restores the list. |
| EmbedFields.UpsertKeepsOtherLookup | src/events/messageReactionAdd.js:53-63 | Writing one field name leaves the lookup of every other name unchanged. |
| ReactionAdd.IsReminderTitle | src/events/messageReactionAdd.js:25 | The definition: a non-empty title that contains "Reminder:". |
| ReactionAdd.EventTitle | src/events/messageReactionAdd.js:39 | The definition: the title with its first "⏰ Reminder: " removed. ReminderMessagesAreTargets states that it recovers the event's title. |
| ReactionAdd.RsvpText | src/events/messageReactionAdd.js:51 | The definition: the three counts rendered in the field's fixed sentence. |
| ReactionAdd.EmojiStatus | src/events/messageReactionAdd.js:28-35 | ✅, ❌ and ❓ map to accepted, declined and maybe. Any other emoji maps to nothing. |
| ReactionAdd.ReminderMessagesAreTargets | src/events/messageReactionAdd.js:25 | Every event reminder the scheduler posts has a title this handler accepts, and stripping the title gives the event's title back. |
| ReactionAdd.HandleReactionAdd | src/events/messageReactionAdd.js:7-69 | Edits exactly for a human's RSVP emoji on a reminder embed. The message's record becomes the old record, or a new one titled from the embed, with the user's answer set by `SetResponse`. Every other record is unchanged. The `📊 RSVPs` field then shows the record's tally. The embed's title never changes, and nothing changes when the handler does not edit. |
| ReactionRemove.IsEventNotification | src/events/messageReactionRemove.js:28-31 | The definition: the title contains one of the three stored markers. |
| ReactionRemove.IsValidEmoji | src/events/messageReactionRemove.js:36-37 | The definition: the emoji name is one of the three stored names. |
| ReactionRemove.StripMarkers | src/events/messageReactionRemove.js:41-44 | The definition: each marker and its space is removed once, in order. The handler uses this title only in log lines. StripMarkersOfPrefixed states what it recovers. |
| ReactionRemove.EditedFields | src/events/messageReactionRemove.js:62-74 | With a zero total the RSVP field is removed. Otherwise only its value is replaced. The list never grows, and a list without the field is unchanged. |
| ReactionRemove.HandleReactionRemove | src/events/messageReactionRemove.js:7-81 | Edits exactly for a human's listed emoji on a titled embed carrying a marker, and only when the removal call does not throw. The fields then become `EditedFields` of the old ones. Otherwise the fields are unchanged. The embed's title never changes. |
| ReactionRemove.StripMarkersOfPrefixed | src/events/messageReactionRemove.js:41-44 | Each marker in front of a title is stripped, leaving the title. |
| ReactionRemove.IgnoresRealEmoji | src/events/messageReactionRemove.js:36-37 | The emoji names the add handler accepts are never accepted here. |
| ReactionRemove.NeverFindsAddedField | src/events/messageReactionRemove.js:62 | The field the add handler writes never changes which field this handler finds. |
| ReactionRemove.IgnoresReminderTitles | src/events/messageReactionRemove.js:28-31 | A reminder title as the scheduler writes it is not recognised, unless the event title itself carries a marker character. |
| Schedule.AcceptsAnyFields | src/commands/meetings/schedule.js:80-81 | Any four-digit year with any two-digit month and day is accepted, even out of range, and its fields read back. |
| Schedule.AcceptedIsRendering | src/commands/meetings/schedule.js:80-81 | Every accepted date is the zero-padded rendering of its three numbers. |
| Schedule.IsDateFormat | src/commands/meetings/schedule.js:80-81 | The definition of the date pattern: four digits, `-`, two digits, `-`, two digits. AcceptsAnyFields and AcceptedIsRendering characterise it. |
| Schedule.MatchTime | src/commands/meetings/schedule.js:92-93 | A match consists of an hour 1-12 with an optional leading 0, `:`, minutes 00-59, an optional whitespace character and AM/PM/am/pm. The match spells out the whole input. |
| Schedule.MatchTimeComplete | src/commands/meetings/schedule.js:92-93 | Every text of that shape matches, with exactly its parts. |
| Schedule.HourValue | src/commands/meetings/schedule.js:106 | A matched hour is between 1 and 12. |
| Schedule.ConvertTime | src/commands/meetings/schedule.js:92-116 | A time converts exactly when it matches the pattern. The result is `HH:MM` with an hour below 24. Clock12Converts proves the round trip. |
| Schedule.ParseIntOfHour | src/commands/meetings/schedule.js:106 | `parseInt` of a matched hour is its value. |
| Schedule.To24 | src/commands/meetings/schedule.js:110-114 | The converted hour is in 0..23, and is 12 or more exactly for PM. It equals the input modulo 12. |
| Schedule.From24 | src/commands/meetings/schedule.js:110-114 | The reference inverse of the conversion gives an hour 1..12. |
| Schedule.To24Bijective | src/commands/meetings/schedule.js:110-114 | The conversion is a bijection between (1..12, AM/PM) and 0..23. |
| Schedule.Time24 | src/commands/meetings/schedule.js:116 | The result is the two-digit converted hour, `:`, and the minutes as typed. |
| Schedule.Clock12Converts | src/commands/meetings/schedule.js:105-116 | Any 24-hour reading written on a 12-hour clock converts back to that reading. |
| Schedule.ProjectId | src/commands/meetings/schedule.js:139 | The project id is the config's truthy `project_id`, otherwise null. |
| Schedule.ScheduleMeeting | src/commands/meetings/schedule.js:55-142 | Refuses an unconfigured guild, then a bad date, then a bad time. Only a request passing all three creates an event. Its start date, `start_time` (time24 plus `:00`), recurrence, role ids and default timezone are stated. |
| Reschedule.FindMeeting | src/commands/meetings/reschedule.js:95-96 | Finds the first event with that exact id and type `meeting`, or none exactly when no event qualifies. |
| Reschedule.RescheduleMeeting | src/commands/meetings/reschedule.js:27-114 | Gives the same three refusals as `/schedule`, then refuses a moment strictly before now. An update happens exactly when the meeting is found. The payload is only the date and time24 plus `:00`. |
| Reschedule.SameChecksAsSchedule | src/commands/meetings/reschedule.js:43-79 | For the same guild, date and time, both commands refuse in the same way. |
| Reschedule.InvalidInstantIsNotPast | src/commands/meetings/reschedule.js:82-83 | A well-formed date naming no real day is never "in the past". |
| Reschedule.NowIsNotPast | src/commands/meetings/reschedule.js:82-83 | A moment equal to the clock is accepted. |
| Text.Trim | src/commands/config-reminders.js:30 | Neither end of the result is white space, and an empty result means the input was all white space. TrimPadded states that padding is removed exactly. |
| Text.ParseInt | src/commands/config-reminders.js:30 | The definition of `parseInt` without a radix, covering leading white space, a sign, a hex prefix and the longest run of digits. ParseIntOfDecimal states that it reads a written number back. |
| ConfigReminders.ParsePiece | src/commands/config-reminders.js:30 | A kept piece is a number above zero. |
| ConfigReminders.KeepPositive | src/commands/config-reminders.js:30 | Every kept time is positive, and there are no more times than pieces. |
| ConfigReminders.ParseTimes | src/commands/config-reminders.js:30 | Every parsed time is positive, and there are no more times than comma-separated pieces. |
| ConfigReminders.ParseTimesOfList | src/commands/config-reminders.js:30 | A list of positive counts written with commas parses back to itself, in order. |
| ConfigReminders.DropsNonPositive | src/commands/config-reminders.js:30 | A piece that is not a number above zero drops out. |
| ConfigReminders.WithTimes | src/commands/config-reminders.js:56-62 | The saved config has the same fields plus `reminder_times`. Every other field is unchanged. |
| ConfigReminders.SavedTimesAreUsed | src/commands/config-reminders.js:56-62 | After saving, the scheduler reads the new list for that type. |
| ConfigReminders.OtherTypesKept | src/commands/config-reminders.js:56-62 | Other types' configured lists are unchanged. |
| ConfigReminders.PrimitiveTimesIgnored | src/commands/config-reminders.js:56-57 | A truthy `reminder_times` that is not an object ignores the update. The scheduler stays on the built-in list. |
| ConfigReminders.Lines | src/commands/config-reminders.js:88 | There is one line per time, in order. |
| ConfigReminders.SummaryLines | src/commands/config-reminders.js:88 | The joined summary splits back into exactly one line per time. |
| ConfigReminders.LineMatchesReminderWording | src/commands/config-reminders.js:70-80 | The reply's wording for a count is the scheduler's reminder wording without "in ". |
| ConfigReminders.ConfigureReminders | src/commands/config-reminders.js:23-102 | Saves nothing for an empty list or an unknown guild. Otherwise it saves the stored record with the new list and replies with the summary. |
| ConfigReminders.SaveTimes | src/commands/config-reminders.js:42-62 | Saves nothing for an unknown guild. Otherwise it saves the stored record with the type's list replaced. |
| Embeds.EventColor | src/utils/embeds.js:104-113 | The five known types get a colour other than grey. Anything else gets `0x808080`. |
| Embeds.FormatEventType | src/utils/embeds.js:120-129 | Known types get a label. Unknown ones come back unchanged. |
| Embeds.TablesDistinguishKnownTypes | src/utils/embeds.js:104-129 | The five known types get five distinct colours and five distinct labels. |
| Embeds.GetSprintStatus | src/utils/embeds.js:168-180 | The status is Upcoming exactly before the start, Completed exactly after the end otherwise, and Active in every other case. |
| Embeds.ActiveOnClosedInterval | src/utils/embeds.js:173-179 | With valid dates, Active holds exactly on the closed interval, at its bounds too. |
| Embeds.InvalidDatesAreActive | src/utils/embeds.js:168-180 | A sprint whose dates do not parse is always Active. |
| Embeds.StatusMonotone | src/utils/embeds.js:173-179 | The status never moves backwards in time. |
| Embeds.CombineDateTime | src/utils/embeds.js:39-45 | Uses the clock without a date, `date T time` with a time, and the date alone otherwise. |
| Embeds.CreateEventEmbed | src/utils/embeds.js:8-31 | States the title (default "Event"), the colour and the optional description. The Date and Type fields always come first, in that order, and Location is added only when present. |

## Left out

- **File persistence.** The JSON load and save of the ledger, the RSVP records and the configurations is not modelled; only the in-memory maps are. `saveConfigs` rethrows a write error after the map has already changed. A save is modelled as always succeeding, so the error reply of `/reminders` (src/commands/config-reminders.js:95-102) is not modelled.
- **Cron scheduling and `stopScheduler`.** These are timers; the model covers one tick. The awaits between the check and the mark are modelled as sequential.
- **Discord and database I/O.** Channel fetch, send, react, message edit, `createEvent`, `updateEvent` and the event queries are not modelled. Their results enter as parameters: fetched rows, a `None` for a fetch that threw, and the set of failing deliveries.
- **`sendNotificationWithRetry` and `removeRSVP`.** src/services/notificationService.js:109-114 does not export `sendNotificationWithRetry`, and src/services/rsvpTracker.js:132-136 does not export `removeRSVP`. As written, each call therefore throws a TypeError that its `catch` absorbs; the model leaves the outcome open as the parameters `sendOk` and `removeThrows`. The remove handler's statistics (`yes`, `no`, `maybe`, `total`) are parameters as well, since `getRSVPStats` produces no such fields.
- **Date parsing, time zones and locale formatting.** Instants are integers, and an Invalid Date is `None`. `/reschedule` receives the instant its date and time parse to as `newInstant`. The locale text of an embed's date is a parameter. The clock reading used by `markAsSent` is the tick's guild clock. The sweep's cutoff is seven local calendar days (`setDate(getDate() - 7)`, src/services/reminderTracker.js:95-96), which across a daylight-saving change is 167 or 169 hours; `Cutoff` uses a fixed 604 800 000 ms. A stored `sentAt` that does not parse becomes an Invalid Date, which the source never evicts because `NaN < cutoff` is false; `SentRecord.sentAt` is an integer and cannot represent it.
- **`parseInt` beyond decimal and hex integers.** Fractions, exponents and the loss of precision above 2^53 are not modelled.
- **JavaScript object prototype keys.** Looking up a type such as `constructor` in the colour table would find a prototype member, and so would `emojiMap[reaction.emoji.name]` (src/events/messageReactionAdd.js:34) for a custom emoji with such a name: the source would then store a function as the status and edit the message, where `EmojiStatus` returns `None`. Event types and emoji names are treated as plain strings.
- **Missing fields in template strings.** The source renders a missing `title`, `start_date` or `name` as "undefined" in its template strings (src/services/reminderScheduler.js:75, 204, 212, 222); the model renders it as "". Ledger keys and titles differ accordingly, and deduplication differs only when two keys collide. Likewise, when an event has neither `event_type` nor `type`, `formatEventType(undefined)` returns `undefined` as the Type field's value (src/utils/embeds.js:10, 23, 128), where `Embeds.CreateEventEmbed` gives "".
- **Aliasing.** `/reminders` mutates the cached config's `reminder_times` object before saving it. The remove handler's `embed.toJSON()` (src/events/messageReactionRemove.js:59) shares its field array with the message's embed. The model uses values, so neither effect is captured.
- **`isGuildConfigured`.** It returns the truthy value itself rather than a boolean; it is modelled as a predicate.
- **UTF-16.** Strings are sequences of code points, not UTF-16 units.
- **Display-only code.** The success embeds of the commands, `createSprintEmbed`, `createMeetingEmbed`, `formatDate`, `formatDateTime` and the reminder embed's title, description and colour texts are not modelled beyond what the notice holds. The outer `catch` blocks that only log are not modelled either. The webhook's outer `catch` (src/api/webhooks.js:88-91) also answers `500 {error: 'Internal server error'}`, for example when a request without a body makes the destructuring at src/api/webhooks.js:43 throw; `Webhooks.HandleTeamEvents` receives an already-parsed payload and has no such response.
- **ReactionAdd.HandleReactionAdd** models the message's embed as plain `{title, fields}` data: it updates the existing `📊 RSVPs` field or appends one, and the title is kept. With discord.js v14, whose `Embed` exposes `title` and `fields` as getters over its own `data` property, the spread `{ ...embed }` (src/events/messageReactionAdd.js:50) copies only `data`. The source then never finds the existing field (:53), always appends to a fresh one-field list (:57-62), and edits the message with an embed that has no title (:65). The model does not capture that behaviour of the library class.
- **ConfigReminders.ParsePiece** states only that a kept value is positive. It does not state that the value is `parseInt` of the trimmed piece; `ParseTimesOfList` and `DropsNonPositive` state that relation for numerals and for rejected pieces.
- **ConfigReminders.TypeName.** An event type outside the three listed gives the text "undefined" in the reply, as the source renders it.
