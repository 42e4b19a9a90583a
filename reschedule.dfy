/**
 * The `/reschedule` command (src/commands/meetings/reschedule.js): the same
 * date and time checks and conversion as `/schedule`, a check that the new
 * moment is not in the past, the lookup of the meeting among the guild's
 * upcoming events, and the two fields sent to `updateEvent`.
 */
module Reschedule {
  import opened Wrappers
  import opened ConfigManager
  import Schedule

  /** The fields of an upcoming event the lookup reads. */
  datatype Meeting = Meeting(id: string, eventType: string, title: string)

  /** `events.find(e => e.id === meetingId && e.event_type === 'meeting')`,
      as the position of the first such event. */
  function FindMeeting(events: seq<Meeting>, meetingId: string): (r: Option<nat>)
    ensures r.Some? ==> r.value < |events| && events[r.value].id == meetingId && events[r.value].eventType == "meeting"
    ensures r.Some? ==> forall j :: 0 <= j < r.value ==> !(events[j].id == meetingId && events[j].eventType == "meeting")
    ensures r.None? <==> forall j :: 0 <= j < |events| ==> !(events[j].id == meetingId && events[j].eventType == "meeting")
    decreases |events|
  {
    if events == [] then None
    else if events[0].id == meetingId && events[0].eventType == "meeting" then Some(0)
    else
      match FindMeeting(events[1..], meetingId)
      case None =>
        assert forall j :: 1 <= j < |events| ==> events[j] == events[1..][j - 1];
        None
      case Some(i) =>
        assert forall j :: 1 <= j < i + 1 ==> events[j] == events[1..][j - 1];
        Some(i + 1)
  }

  /** The fields sent to `updateEvent`, and nothing else. */
  datatype UpdatePayload = UpdatePayload(startDate: string, startTime: string)

  /** The reply: a refusal, a failed fetch (the `catch`), or the update of the
      meeting at `index` of the fetched list. */
  datatype Reply =
    | NotConfigured
    | InvalidDate
    | InvalidTime
    | InPast
    | FetchFailed
    | NotFound
    | Update(index: nat, payload: UpdatePayload)

  /** `execute` up to `updateEvent`. `newInstant` is the moment the new date
      and time parse to (`None` for an Invalid Date), `now` the clock, and
      `events` the guild's upcoming events (`None` when the fetch threw). */
  function RescheduleMeeting(store: ConfigStore, guildId: string, meetingId: string, date: string, time: string,
                             newInstant: Option<int>, now: int, events: Option<seq<Meeting>>): (r: Reply)
    reads store
    ensures !store.IsGuildConfigured(guildId) ==> r == NotConfigured
    ensures store.IsGuildConfigured(guildId) && !Schedule.IsDateFormat(date) ==> r == InvalidDate
    ensures store.IsGuildConfigured(guildId) && Schedule.IsDateFormat(date) && Schedule.ConvertTime(time).None? ==> r == InvalidTime
    ensures r == InPast <==>
              (store.IsGuildConfigured(guildId) && Schedule.IsDateFormat(date) && Schedule.ConvertTime(time).Some?
               && newInstant.Some? && newInstant.value < now)
    ensures r.Update? <==>
              (store.IsGuildConfigured(guildId) && Schedule.IsDateFormat(date) && Schedule.ConvertTime(time).Some?
               && !(newInstant.Some? && newInstant.value < now)
               && events.Some? && FindMeeting(events.value, meetingId).Some?)
    ensures r.Update? ==> r.index < |events.value|
                          && events.value[r.index].id == meetingId && events.value[r.index].eventType == "meeting"
                          && r.payload == UpdatePayload(date, Schedule.ConvertTime(time).value + ":00")
  {
    if !store.IsGuildConfigured(guildId) then NotConfigured
    else if !Schedule.IsDateFormat(date) then InvalidDate
    else
      match Schedule.ConvertTime(time)
      case None => InvalidTime
      case Some(time24) =>
        if newInstant.Some? && newInstant.value < now then InPast
        else if events.None? then FetchFailed
        else
          match FindMeeting(events.value, meetingId)
          case None => NotFound
          case Some(i) => Update(i, UpdatePayload(date, time24 + ":00"))
  }

  /** The first three answers are the ones `/schedule` gives for the same
      guild, date and time. */
  lemma SameChecksAsSchedule(store: ConfigStore, guildId: string, meetingId: string, date: string, time: string,
                             newInstant: Option<int>, now: int, events: Option<seq<Meeting>>, o: Schedule.Options)
    requires o.date == date && o.time == time
    ensures var r := RescheduleMeeting(store, guildId, meetingId, date, time, newInstant, now, events);
            var s := Schedule.ScheduleMeeting(store, guildId, o);
            (r == NotConfigured <==> s == Schedule.NotConfigured)
            && (r == InvalidDate <==> s == Schedule.InvalidDate)
            && (r == InvalidTime <==> s == Schedule.InvalidTime)
  {
  }

  /** A date that passes the format check but names no real day parses to an
      Invalid Date, which is never "in the past": the request goes on to the
      lookup. */
  lemma InvalidInstantIsNotPast(store: ConfigStore, guildId: string, meetingId: string, date: string, time: string,
                                now: int, events: Option<seq<Meeting>>)
    requires store.IsGuildConfigured(guildId) && Schedule.IsDateFormat(date) && Schedule.ConvertTime(time).Some?
    ensures RescheduleMeeting(store, guildId, meetingId, date, time, None, now, events) !in
              {NotConfigured, InvalidDate, InvalidTime, InPast}
  {
  }

  /** A moment equal to the clock is accepted: only a strictly earlier one is
      refused. */
  lemma NowIsNotPast(store: ConfigStore, guildId: string, meetingId: string, date: string, time: string,
                     now: int, events: Option<seq<Meeting>>)
    ensures RescheduleMeeting(store, guildId, meetingId, date, time, Some(now), now, events) != InPast
  {
  }
}
