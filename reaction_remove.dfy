/**
 * The reaction-removed handler (src/events/messageReactionRemove.js).
 *
 * Its marker, emoji and field-name literals are stored in the source as
 * UTF-8 text decoded as Windows-1252 ("ðŸ“Š" where the add handler has
 * "📊"), and they are kept here code point for code point. The handler
 * also calls a removal operation that the RSVP store does not provide;
 * whether that call throws is a parameter, as are the statistics it would
 * read afterwards.
 */
module ReactionRemove {
  import opened Wrappers
  import opened Text
  import opened EmbedFields
  import ReactionAdd

  /** The three title markers, as stored in the source. */
  const NewEventMarker: string := "\U{00F0}\U{0178}\U{201C}\U{2026} New Event:"
  const ReminderMarker: string := "\U{00E2}\U{00B0} Reminder:"
  const StartingMarker: string := "\U{00F0}\U{0178}\U{0161}\U{20AC} Starting Now:"

  /** The three emoji names the handler accepts, as stored in the source. */
  const YesEmoji: string := "\U{00E2}\U{0153}\U{2026}"
  const NoEmoji: string := "\U{00E2}\U{0152}"
  const MaybeEmoji: string := "\U{00E2}\U{201C}"

  /** The field name the handler looks for, as stored in the source. */
  const RsvpFieldName: string := "\U{00F0}\U{0178}\U{201C}\U{0160} RSVPs"

  /** The statistics the handler reads, as already-rendered text (`yes`, `no`,
      `maybe`) and `total`, `None` when that property is missing. */
  datatype RemoveStats = RemoveStats(yes: string, no: string, maybe: string, total: Option<int>)

  predicate IsEventNotification(title: string) {
    Includes(title, NewEventMarker) || Includes(title, ReminderMarker) || Includes(title, StartingMarker)
  }

  predicate IsValidEmoji(emojiName: string) {
    emojiName in [YesEmoji, NoEmoji, MaybeEmoji]
  }

  /** The title with each of the three markers (followed by a space) removed
      once, in order. */
  function StripMarkers(title: string): string {
    var t := ReplaceFirst(title, NewEventMarker + " ", "");
    var u := ReplaceFirst(t, ReminderMarker + " ", "");
    ReplaceFirst(u, StartingMarker + " ", "")
  }

  function RsvpText(s: RemoveStats): string {
    YesEmoji + " " + s.yes + " | " + NoEmoji + " " + s.no + " | " + MaybeEmoji + " " + s.maybe
  }

  /** The new field list: with a zero total the RSVP field is removed if
      present, otherwise its value is replaced if present; never appended. */
  function EditedFields(fs: seq<Field>, s: RemoveStats): (r: seq<Field>)
    ensures |r| <= |fs|
    ensures FirstIndex(fs, RsvpFieldName).None? ==> r == fs
    ensures s.total == Some(0) ==> r == RemoveFirst(fs, RsvpFieldName)
    ensures s.total != Some(0) ==> r == UpdateOnly(fs, RsvpFieldName, RsvpText(s))
  {
    if s.total == Some(0) then RemoveFirst(fs, RsvpFieldName)
    else UpdateOnly(fs, RsvpFieldName, RsvpText(s))
  }

  datatype User = User(id: string, tag: string, bot: bool)

  /** The handler's filter. */
  predicate Accepts(user: User, hasEmbed: bool, title: string, emojiName: string) {
    !user.bot && hasEmbed && title != "" && IsEventNotification(title) && IsValidEmoji(emojiName)
  }

  /** `execute(reaction, user)` on a message whose first embed's data is
      `embed` (null when it has none). `removeThrows` is whether the removal
      call throws, which ends the handler in its `catch`. */
  method HandleReactionRemove(embed: EmbedData?, user: User, emojiName: string,
                              removeThrows: bool, stats: RemoveStats)
    returns (edited: bool)
    modifies embed
    ensures edited <==> Accepts(user, embed != null, if embed != null then old(embed.title) else "", emojiName)
                        && !removeThrows
    ensures !edited && embed != null ==> embed.fields == old(embed.fields)
    ensures edited ==> embed.fields == EditedFields(old(embed.fields), stats)
    ensures embed != null ==> embed.title == old(embed.title)
  {
    if user.bot || embed == null || embed.title == "" {
      return false;
    }
    if !IsEventNotification(embed.title) || !IsValidEmoji(emojiName) {
      return false;
    }
    if removeThrows {
      return false;
    }
    var text := RsvpText(stats);
    var index := embed.FindField(RsvpFieldName);
    if stats.total == Some(0) {
      if index >= 0 {
        embed.fields := embed.fields[..index] + embed.fields[index + 1..];
      }
    } else {
      if index >= 0 {
        embed.fields := embed.fields[index := embed.fields[index].(value := text)];
      }
    }
    return true;
  }

  /** A string lacking the first character of `t` does not contain `t`. */
  lemma AbsentLead(s: string, t: string)
    requires t != [] && t[0] !in s
    ensures !Includes(s, t)
  {
    forall i ensures !OccursAt(s, t, i) {
      if 0 <= i && i + |t| <= |s| {
        assert s[i..i + |t|][0] == s[i];
        assert s[i] in s;
      }
    }
  }

  /** A string that holds the first character of `t` only at its front, and
      does not start with `t`, does not contain `t`. */
  lemma AbsentAfterFront(s: string, t: string)
    requires t != [] && forall i :: 0 < i < |s| ==> s[i] != t[0]
    requires !OccursAt(s, t, 0)
    ensures !Includes(s, t)
  {
    forall i ensures !OccursAt(s, t, i) {
      if 0 < i && i + |t| <= |s| {
        assert s[i..i + |t|][0] == s[i];
      }
    }
  }

  /** Each marker is removed from the front of a title whose remaining text
      holds none of the markers' lead characters (U+00F0, U+00E2). */
  lemma StripMarkersOfPrefixed(marker: string, rest: string)
    requires marker in [NewEventMarker + " ", ReminderMarker + " ", StartingMarker + " "]
    requires '\U{00F0}' !in rest && '\U{00E2}' !in rest
    ensures StripMarkers(marker + rest) == rest
  {
    var n, r, st := NewEventMarker + " ", ReminderMarker + " ", StartingMarker + " ";
    assert n[0] == '\U{00F0}' && st[0] == '\U{00F0}' && r[0] == '\U{00E2}';
    if marker == n {
      StripPrefix(n, rest);
      AbsentLead(rest, r);
      AbsentLead(rest, st);
    } else if marker == r {
      assert '\U{00F0}' !in marker;
      assert '\U{00F0}' !in marker + rest;
      AbsentLead(marker + rest, n);
      StripPrefix(r, rest);
      AbsentLead(rest, st);
    } else {
      assert '\U{00E2}' !in marker;
      assert '\U{00E2}' !in marker + rest;
      var s := marker + rest;
      assert forall i :: 0 < i < |s| ==> s[i] != n[0] by {
        forall i | 0 < i < |s| ensures s[i] != n[0] {
          if i >= |marker| {
            assert s[i] == rest[i - |marker|];
          }
        }
      }
      assert s[..|n|][2] != n[2];
      AbsentAfterFront(s, n);
      AbsentLead(marker + rest, r);
      StripPrefix(st, rest);
    }
  }

  /** The handler never accepts the emoji names Discord reports for the
      reactions the bot adds (✅ ❌ ❓), which the add handler does accept. */
  lemma IgnoresRealEmoji(emojiName: string)
    requires ReactionAdd.EmojiStatus(emojiName).Some?
    ensures !IsValidEmoji(emojiName)
  {
  }

  /** The field the add handler writes is never the one this handler finds:
      adding or updating "📊 RSVPs" leaves the lookup of this handler's
      field name where it was. */
  lemma NeverFindsAddedField(fs: seq<Field>, value: string)
    ensures FirstIndex(Upsert(fs, ReactionAdd.RsvpFieldName, value), RsvpFieldName) == FirstIndex(fs, RsvpFieldName)
  {
    assert ReactionAdd.RsvpFieldName[0] != RsvpFieldName[0];
    UpsertKeepsOtherLookup(fs, ReactionAdd.RsvpFieldName, value, RsvpFieldName);
  }

  /** A reminder title as the scheduler writes it ("⏰ Reminder: ...") is not
      an event notification for this handler unless the event's own title
      carries one of the garbled markers. */
  lemma IgnoresReminderTitles(eventTitle: string)
    requires '\U{00F0}' !in eventTitle && '\U{00E2}' !in eventTitle
    ensures !IsEventNotification(ReactionAdd.ReminderPrefix + eventTitle)
  {
    var t := ReactionAdd.ReminderPrefix + eventTitle;
    assert forall i :: 0 <= i < |t| ==> t[i] != '\U{00F0}' && t[i] != '\U{00E2}' by {
      forall i | 0 <= i < |t| ensures t[i] != '\U{00F0}' && t[i] != '\U{00E2}' {
        if i >= |ReactionAdd.ReminderPrefix| {
          assert t[i] == eventTitle[i - |ReactionAdd.ReminderPrefix|];
        }
      }
    }
    AbsentLead(t, NewEventMarker);
    AbsentLead(t, ReminderMarker);
    AbsentLead(t, StartingMarker);
  }
}
