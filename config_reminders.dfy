/**
 * The `/reminders` command (src/commands/config-reminders.js): parse a
 * comma-separated list of minute counts, store it as the guild's reminder
 * offsets for one event type, and describe the new offsets.
 */
module ConfigReminders {
  import opened Wrappers
  import opened Text
  import opened ConfigManager
  import Durations
  import ReminderScheduler

  // ---------------------------------------------------------------------------
  // Parsing the list
  // ---------------------------------------------------------------------------

  /** `parseInt(t.trim())` for one piece, kept only when it is a number
      above zero. */
  function ParsePiece(p: string): (r: Option<int>)
    ensures r.Some? ==> r.value > 0
  {
    var v := ParseInt(Trim(p));
    if v.Some? && v.value > 0 then v else None
  }

  /** The kept values of the pieces, in the pieces' order. */
  function KeepPositive(pieces: seq<string>): (r: seq<int>)
    ensures |r| <= |pieces|
    ensures forall i :: 0 <= i < |r| ==> r[i] > 0
    decreases |pieces|
  {
    if pieces == [] then []
    else
      var head := ParsePiece(pieces[0]);
      var rest := KeepPositive(pieces[1..]);
      if head.Some? then
        assert head.value > 0;
        [head.value] + rest
      else rest
  }

  /** `timesStr.split(',').map(t => parseInt(t.trim())).filter(t => !isNaN(t) && t > 0)`:
      every kept time is positive and there are no more of them than pieces. */
  function ParseTimes(s: string): (r: seq<int>)
    ensures |r| <= |Split(s, ',')|
    ensures forall i :: 0 <= i < |r| ==> r[i] > 0
  {
    KeepPositive(Split(s, ','))
  }

  /** The decimal numerals of a list of counts. */
  function Numerals(times: seq<nat>): (r: seq<string>)
    ensures |r| == |times|
    ensures forall i :: 0 <= i < |r| ==> r[i] == NatToString(times[i])
    decreases |times|
  {
    if times == [] then [] else [NatToString(times[0])] + Numerals(times[1..])
  }

  lemma {:induction false} KeepPositiveOfNumerals(times: seq<nat>)
    requires forall i :: 0 <= i < |times| ==> times[i] > 0
    ensures KeepPositive(Numerals(times)) == times
    decreases |times|
  {
    if times != [] {
      var n := Numerals(times);
      TrimWithoutWhitespace(n[0]);
      ParseIntOfDecimal(times[0]);
      assert n[1..] == Numerals(times[1..]);
      KeepPositiveOfNumerals(times[1..]);
      assert [times[0]] + times[1..] == times;
    }
  }

  /** Any non-empty list of positive counts, written with commas, parses
      back to itself, in the same order. */
  lemma ParseTimesOfList(times: seq<nat>)
    requires |times| >= 1 && forall i :: 0 <= i < |times| ==> times[i] > 0
    ensures ParseTimes(Join(Numerals(times), ',')) == times
  {
    var n := Numerals(times);
    forall i | 0 <= i < |n| ensures ',' !in n[i] {
      assert AllDigits(n[i]);
      assert forall j :: 0 <= j < |n[i]| ==> n[i][j] != ',';
    }
    SplitJoin(n, ',');
    KeepPositiveOfNumerals(times);
  }

  /** Pieces that are not numbers above zero drop out ("0", "-5", "abc"). */
  lemma DropsNonPositive(p: string, rest: seq<string>)
    requires ParseInt(Trim(p)).None? || ParseInt(Trim(p)).value <= 0
    ensures KeepPositive([p] + rest) == KeepPositive(rest)
  {
    assert ([p] + rest)[1..] == rest;
  }

  // ---------------------------------------------------------------------------
  // Storing the list
  // ---------------------------------------------------------------------------

  /** The configuration saved: `reminder_times` is the old object with the
      type's list replaced, or a new object holding only that list when the
      field was missing or falsy. A truthy value that is not an object (a
      string, a number) silently ignores the property assignment and is
      saved as it was. */
  function WithTimes(config: Config, eventType: string, times: seq<int>): (c: Config)
    ensures c.Keys == config.Keys + {"reminder_times"}
    ensures forall k :: k in config && k != "reminder_times" ==> c[k] == config[k]
  {
    var old_ := Field(config, "reminder_times");
    var updated :=
      if old_.Some? && old_.value.Times? then Times(old_.value.t[eventType := times])
      else if old_.Some? && Truthy(old_) then old_.value
      else Times(map[eventType := times]);
    config["reminder_times" := updated]
  }

  /** The reminder_times field is an object, or missing or falsy. */
  predicate TimesAssignable(config: Config) {
    var v := Field(config, "reminder_times");
    v.None? || v.value.Times? || !Truthy(v)
  }

  /** After the save, the scheduler reads the new list for that type. */
  lemma SavedTimesAreUsed(guildId: string, config: Config, eventType: string, times: seq<int>, now: string)
    requires TimesAssignable(config)
    ensures ReminderScheduler.GetReminderTimes(FullConfig(guildId, WithTimes(config, eventType, times), now), eventType) == times
  {
    var c := WithTimes(config, eventType, times);
    assert Field(FullConfig(guildId, c, now), "reminder_times") == Field(c, "reminder_times");
  }

  /** The other types' lists are the ones they had. */
  lemma OtherTypesKept(guildId: string, config: Config, eventType: string, times: seq<int>, now: string, other: string)
    requires other != eventType
    ensures ReminderScheduler.ConfiguredTimes(FullConfig(guildId, WithTimes(config, eventType, times), now), other)
            == ReminderScheduler.ConfiguredTimes(config, other)
  {
    var c := WithTimes(config, eventType, times);
    assert Field(FullConfig(guildId, c, now), "reminder_times") == Field(c, "reminder_times");
  }

  /** A truthy `reminder_times` that is not an object keeps the scheduler on
      its built-in table for the type, whatever was asked for. */
  lemma PrimitiveTimesIgnored(guildId: string, config: Config, eventType: string, times: seq<int>, now: string)
    requires !TimesAssignable(config)
    ensures ReminderScheduler.GetReminderTimes(FullConfig(guildId, WithTimes(config, eventType, times), now), eventType)
            == ReminderScheduler.DefaultTimes(eventType)
  {
    var c := WithTimes(config, eventType, times);
    assert Field(FullConfig(guildId, c, now), "reminder_times") == Field(config, "reminder_times");
  }

  // ---------------------------------------------------------------------------
  // The reply
  // ---------------------------------------------------------------------------

  /** `typeNames[type]`, rendered into the description. */
  function TypeName(eventType: string): string {
    if eventType == "meeting" then "Meetings"
    else if eventType == "sprint" then "Sprints"
    else if eventType == "holiday" then "Holidays"
    else "undefined"
  }

  /** `• ${desc} before (${t} minutes)`. */
  function Line(t: nat): string
    requires t >= 1
  {
    "• " + Durations.Describe(t) + " before (" + NatToString(t) + " minutes)"
  }

  function Lines(times: seq<nat>): (r: seq<string>)
    requires forall i :: 0 <= i < |times| ==> times[i] >= 1
    ensures |r| == |times|
    ensures forall i :: 0 <= i < |r| ==> r[i] == Line(times[i])
    decreases |times|
  {
    if times == [] then []
    else
      var tail := times[1..];
      assert forall i :: 0 <= i < |tail| ==> tail[i] == times[i + 1];
      var rest := Lines(tail);
      var r := [Line(times[0])] + rest;
      assert forall i :: 1 <= i < |r| ==> r[i] == rest[i - 1];
      r
  }

  /** The field listing the new times, one line each joined by newlines. */
  function Summary(times: seq<nat>): string
    requires |times| >= 1 && forall i :: 0 <= i < |times| ==> times[i] >= 1
  {
    Join(Lines(times), '\n')
  }

  /** The summary has exactly one line per time, in order. */
  lemma SummaryLines(times: seq<nat>)
    requires |times| >= 1 && forall i :: 0 <= i < |times| ==> times[i] >= 1
    ensures Split(Summary(times), '\n') == Lines(times)
  {
    var ls := Lines(times);
    forall i | 0 <= i < |ls| ensures '\n' !in ls[i] {
      LineOneLine(times[i]);
    }
    SplitJoin(ls, '\n');
  }

  lemma LineOneLine(t: nat)
    requires t >= 1
    ensures '\n' !in Line(t)
  {
    var n := NatToString(t);
    Durations.DescribeOneLine(t);
    assert '\n' !in n by {
      forall i | 0 <= i < |n| ensures n[i] != '\n' {
        assert IsDigit(n[i]);
      }
    }
    assert Line(t) == "• " + Durations.Describe(t) + " before (" + n + " minutes)";
  }

  /** A line's description is the scheduler's reminder wording without "in ". */
  lemma LineMatchesReminderWording(t: nat)
    requires t >= 1
    ensures "in " + Durations.Describe(t) == ReminderScheduler.FormatReminderTime(t)
  {
  }

  datatype Reply = InvalidTimes | NotConfigured | Updated(description: string, summary: string)

  /** The command's values as non-negative counts (all are positive). */
  function AsNats(times: seq<int>): (r: seq<nat>)
    requires forall i :: 0 <= i < |times| ==> times[i] > 0
    ensures |r| == |times| && forall i :: 0 <= i < |r| ==> r[i] == times[i] && r[i] >= 1
    decreases |times|
  {
    if times == [] then [] else [times[0] as nat] + AsNats(times[1..])
  }

  /** The reply to a saved list. */
  function UpdatedReply(eventType: string, times: seq<int>): Reply
    requires |times| >= 1 && forall i :: 0 <= i < |times| ==> times[i] > 0
  {
    Updated("Updated reminder times for " + TypeName(eventType), Summary(AsNats(times)))
  }

  /** `execute`: nothing is saved for an empty list or an unknown guild;
      otherwise the guild's stored record is saved again with the new list. */
  method ConfigureReminders(store: ConfigStore, guildId: string, eventType: string, timesStr: string, now: string)
    returns (reply: Reply)
    modifies store
    ensures ParseTimes(timesStr) == [] ==> reply == InvalidTimes && store.guildConfigs == old(store.guildConfigs)
    ensures ParseTimes(timesStr) != [] && guildId !in old(store.guildConfigs) ==>
              reply == NotConfigured && store.guildConfigs == old(store.guildConfigs)
    ensures ParseTimes(timesStr) != [] && guildId in old(store.guildConfigs) ==>
              store.guildConfigs == old(store.guildConfigs)[guildId :=
                FullConfig(guildId, WithTimes(old(store.guildConfigs)[guildId], eventType, ParseTimes(timesStr)), now)]
              && reply == UpdatedReply(eventType, ParseTimes(timesStr))
  {
    var times := ParseTimes(timesStr);
    if |times| == 0 {
      return InvalidTimes;
    }
    reply := SaveTimes(store, guildId, eventType, times, now);
  }

  /** The part of `execute` after the list is known to be non-empty. */
  method SaveTimes(store: ConfigStore, guildId: string, eventType: string, times: seq<int>, now: string)
    returns (reply: Reply)
    requires |times| >= 1 && forall i :: 0 <= i < |times| ==> times[i] > 0
    modifies store
    ensures guildId !in old(store.guildConfigs) ==> reply == NotConfigured && store.guildConfigs == old(store.guildConfigs)
    ensures guildId in old(store.guildConfigs) ==>
              store.guildConfigs == old(store.guildConfigs)[guildId :=
                FullConfig(guildId, WithTimes(old(store.guildConfigs)[guildId], eventType, times), now)]
              && reply == UpdatedReply(eventType, times)
  {
    var config := store.GetGuildConfig(guildId);
    if config.None? {
      return NotConfigured;
    }
    var saved := WithTimes(config.value, eventType, times);
    var _ := store.SaveGuildConfig(guildId, saved, now);
    reply := UpdatedReply(eventType, times);
  }
}
