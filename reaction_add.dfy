/**
 * The reaction-added handler (src/events/messageReactionAdd.js): a ✅, ❌ or
 * ❓ on a reminder message records the user's answer and rewrites the
 * "📊 RSVPs" field of the message's embed with the new tally.
 */
module ReactionAdd {
  import opened Wrappers
  import opened Text
  import opened RsvpTracker
  import opened EmbedFields
  import ReminderScheduler

  const RsvpFieldName: string := "\U{1F4CA} RSVPs"
  const ReminderPrefix: string := "⏰ Reminder: "

  datatype User = User(id: string, tag: string, bot: bool)

  /** The emoji-to-status table; any other emoji is ignored. */
  function EmojiStatus(emojiName: string): (r: Option<string>)
    ensures r.Some? <==> emojiName in {"✅", "❌", "❓"}
    ensures r.Some? ==> IsKnownStatus(r.value)
    ensures r == Some(Accepted) <==> emojiName == "✅"
    ensures r == Some(Declined) <==> emojiName == "❌"
    ensures r == Some(Maybe) <==> emojiName == "❓"
  {
    if emojiName == "✅" then Some(Accepted)
    else if emojiName == "❌" then Some(Declined)
    else if emojiName == "❓" then Some(Maybe)
    else None
  }

  /** Only embeds whose title contains "Reminder:" are RSVP targets. */
  predicate IsReminderTitle(title: string) {
    title != "" && Includes(title, "Reminder:")
  }

  /** The event title: the embed title without its first "⏰ Reminder: ". */
  function EventTitle(title: string): string {
    ReplaceFirst(title, ReminderPrefix, "")
  }

  /** `✅ {accepted} attending | ❌ {declined} not attending | ❓ {maybe} maybe`. */
  function RsvpText(s: Stats): string {
    "✅ " + NatToString(s.accepted) + " attending | ❌ " + NatToString(s.declined)
    + " not attending | ❓ " + NatToString(s.maybe) + " maybe"
  }

  /** Every reminder the scheduler posts for an event is an RSVP target, and
      the handler reads the event's own title back from it. */
  lemma ReminderMessagesAreTargets(e: ReminderScheduler.Event, offset: int)
    ensures var title := ReminderScheduler.SubjectNotice(ReminderScheduler.EventSubject(e), offset).title;
            IsReminderTitle(title) && EventTitle(title) == e.title
  {
    var title := ReminderPrefix + e.title;
    assert title[2..2 + |"Reminder:"|] == "Reminder:";
    assert OccursAt(title, "Reminder:", 2);
    StripPrefix(ReminderPrefix, e.title);
  }

  /** The handler's filter: a person (not a bot) reacted with an RSVP emoji
      on a message whose first embed is a reminder. */
  predicate Accepts(user: User, hasEmbed: bool, title: string, emojiName: string) {
    !user.bot && hasEmbed && IsReminderTitle(title) && EmojiStatus(emojiName).Some?
  }

  /** `execute(reaction, user)` for the message `messageId` of guild
      `guildId`, whose first embed is `embed` (null when it has none). */
  method HandleReactionAdd(store: RsvpStore, embed: EmbedData?, guildId: string, messageId: string,
                           user: User, emojiName: string, now: int)
    returns (edited: bool)
    requires store.Valid()
    modifies store, embed
    ensures store.Valid()
    ensures edited <==> Accepts(user, embed != null, if embed != null then old(embed.title) else "", emojiName)
    ensures !edited ==> store.rsvps == old(store.rsvps)
    ensures !edited && embed != null ==> embed.fields == old(embed.fields)
    ensures edited ==>
              var key := RsvpKey(guildId, messageId);
              var status := EmojiStatus(emojiName).value;
              key in store.rsvps
              && Lookup(store.rsvps[key].responses, user.id) == Some(ResponseData(user.tag, status, now))
              && (key !in old(store.rsvps) ==> store.rsvps[key].eventTitle == EventTitle(old(embed.title)))
              && (key in old(store.rsvps) ==> store.rsvps[key].eventTitle == old(store.rsvps)[key].eventTitle)
              && (forall k :: k != key ==> (k in store.rsvps <==> k in old(store.rsvps))
                                           && (k in store.rsvps ==> store.rsvps[k] == old(store.rsvps)[k]))
              && embed.fields == Upsert(old(embed.fields), RsvpFieldName, RsvpText(Tally(store.rsvps[key].responses)))
    ensures edited ==>
              var key := RsvpKey(guildId, messageId);
              var before := if key in old(store.rsvps) then old(store.rsvps)[key]
                            else RsvpRecord(EventTitle(old(embed.title)), []);
              store.rsvps[key]
              == RsvpRecord(before.eventTitle,
                            SetResponse(before.responses, user.id, ResponseData(user.tag, EmojiStatus(emojiName).value, now)))
    ensures embed != null ==> embed.title == old(embed.title)
  {
    if user.bot || embed == null {
      return false;
    }
    if !IsReminderTitle(embed.title) {
      return false;
    }
    var status := EmojiStatus(emojiName);
    if status.None? {
      return false;
    }
    var eventTitle := EventTitle(embed.title);
    store.TrackRsvp(guildId, messageId, user.id, user.tag, status.value, eventTitle, now);
    var stats := store.GetRsvpStats(guildId, messageId);
    var text := RsvpText(stats);
    var index := embed.FindField(RsvpFieldName);
    if index >= 0 {
      embed.fields := embed.fields[index := embed.fields[index].(value := text)];
    } else {
      embed.fields := embed.fields + [Field(RsvpFieldName, text, false)];
    }
    return true;
  }
}
