/**
 * The realtime listener's intake (src/services/realtimeListener.js): the
 * callback run for each inserted `team_events` row filters it with the same
 * eligibility test as the webhook, checking the guild first, and hands the
 * survivors to `handleNewEvent`, which sends only into a guild the bot knows.
 */
module RealtimeListener {
  import opened Wrappers
  import opened Webhooks

  /** `initRealtimeListener`: no subscription without both credentials. */
  datatype Listener = NoListener | Subscribed

  function InitRealtimeListener(supabaseUrl: string, supabaseKey: string): (l: Listener)
    ensures l == Subscribed ==> supabaseUrl != "" && supabaseKey != ""
    ensures supabaseUrl == "" || supabaseKey == "" ==> l == NoListener
  {
    if supabaseUrl == "" || supabaseKey == "" then NoListener else Subscribed
  }

  /** The callback's filter: guild, then recurrence, then notified. */
  function ListenerSkip(e: EventRecord): (r: Option<Skip>)
    ensures r.None? <==> Eligible(e)
    ensures r.Some? ==> r.value in FailedChecks(e)
    ensures r == Some(NonFirstOccurrence) ==> e.discordGuildId != ""
    ensures r == Some(AlreadyNotified) ==> e.discordGuildId != "" && !LaterOccurrence(e)
  {
    if e.discordGuildId == "" then Some(NoGuild)
    else if LaterOccurrence(e) then Some(NonFirstOccurrence)
    else if e.notifiedAt != "" then Some(AlreadyNotified)
    else None
  }

  /** What handling one row ends in. Every error is caught in the callback
      or in `handleNewEvent`, so none of these propagates. */
  datatype Outcome = Filtered(reason: Skip) | GuildNotFound | Sent | NotDelivered

  /** `handleNewEvent`: nothing is sent into a guild missing from the client's
      cache; otherwise the send is attempted and a failure is swallowed. */
  function HandleNewEvent(guildCache: set<string>, e: EventRecord, sendOk: bool): (o: Outcome)
    ensures e.discordGuildId !in guildCache ==> o == GuildNotFound
    ensures e.discordGuildId in guildCache ==> o == (if sendOk then Sent else NotDelivered)
  {
    if e.discordGuildId !in guildCache then GuildNotFound
    else if sendOk then Sent
    else NotDelivered
  }

  /** The INSERT callback. */
  function OnInsert(guildCache: set<string>, e: EventRecord, sendOk: bool): Outcome {
    match ListenerSkip(e)
    case Some(s) => Filtered(s)
    case None => HandleNewEvent(guildCache, e, sendOk)
  }

  /** The listener forwards exactly the rows the webhook forwards; only the
      reason given for a skipped row can differ, and only when it fails more
      than one check. */
  lemma SameEligibilityAsWebhook(e: EventRecord)
    ensures ListenerSkip(e).None? <==> WebhookSkip(e).None?
    ensures ListenerSkip(e).Some? && ListenerSkip(e) != WebhookSkip(e) ==> |FailedChecks(e)| >= 2
  {
    var l, w := ListenerSkip(e), WebhookSkip(e);
    if l.Some? && l != w {
      assert l.value in FailedChecks(e) && w.value in FailedChecks(e);
      assert {l.value, w.value} <= FailedChecks(e);
      assert |{l.value, w.value}| == 2;
    }
  }

  /** A non-recurring row is never filtered as a later occurrence, whatever
      its `recurring_event_id`. */
  lemma NonRecurringPassesRecurrence(e: EventRecord, otherId: Option<string>)
    requires !e.isRecurring
    ensures ListenerSkip(e.(recurringEventId := otherId)) == ListenerSkip(e)
    ensures WebhookSkip(e.(recurringEventId := otherId)) == WebhookSkip(e)
  {
  }

  /** A notification is attempted exactly for an eligible row of a known guild. */
  lemma AttemptedIffEligibleAndKnown(guildCache: set<string>, e: EventRecord, sendOk: bool)
    ensures OnInsert(guildCache, e, sendOk) in {Sent, NotDelivered} <==>
            Eligible(e) && e.discordGuildId in guildCache
  {
  }
}
