/**
 * One tick of the reminder scheduler (src/services/reminderScheduler.js).
 *
 * For every guild with a notification channel the tick fetches its events,
 * holidays and sprints, and for every reminder offset (minutes before the
 * start) that falls inside the five-minute window around "minutes until
 * start" it sends a reminder unless the ledger already holds its key, then
 * marks the key. Sending catches every error, so the key is marked whether
 * or not the message went out.
 *
 * The tick is modelled in two layers: the candidates a tick considers, as a
 * flat list computed by pure functions of the fetched rows and the clock, and
 * the fold `Run` that offers each candidate to the ledger in turn. The nested
 * loops of `CheckUpcomingEvents` are proved to compute exactly that fold.
 */
module ReminderScheduler {
  import opened Wrappers
  import opened Text
  import opened Durations
  import opened ConfigManager
  import opened ReminderTracker

  const MsPerMinute: int := 60000

  /** Half-width of the due window, in minutes (the scheduler runs every five minutes). */
  const Window: int := 5

  /** A row of `team_events` or `holidays`. Missing text fields are "".
      `start` is the instant `event.datetime || new Date(event.start_date)` in
      milliseconds, `None` when that is an invalid date. */
  datatype Event = Event(id: string, title: string, name: string, startDate: string,
                         eventType: string, start: Option<int>, roleIds: seq<string>)

  /** A row of `sprints`, with its start and end instants. */
  datatype Sprint = Sprint(id: string, name: string, start: Option<int>, end: Option<int>)

  datatype GuildData = GuildData(events: seq<Event>, holidays: seq<Event>, sprints: seq<Sprint>)

  /** One guild of the client's cache as a tick sees it: the clock reading
      taken for it and the fetched rows, `None` when a fetch threw. */
  datatype GuildFetch = GuildFetch(guildId: string, now: int, data: Option<GuildData>)

  /** What a reminder message says: embed title and description, message
      content ("" for none) and the reactions added to it. */
  datatype Notice = Notice(title: string, description: string, content: string, reactions: seq<string>)

  /** A due reminder: the ledger key parts, the title logged in the ledger,
      the time of marking and the message. */
  datatype Candidate = Candidate(guildId: string, eventId: string, offset: int,
                                 ledgerTitle: string, at: int, notice: Notice)

  /** A reminder that was sent, and whether Discord accepted it. */
  datatype Dispatch = Dispatch(candidate: Candidate, delivered: bool)

  /** The ledger and the reminders sent so far in a tick. */
  datatype TickState = TickState(sent: map<string, SentRecord>, sends: seq<Dispatch>)

  datatype Phase = Starting | Ending

  /** What a run of offsets is measured against: an event's start, or a
      sprint's start or end. */
  datatype Subject = EventSubject(event: Event) | SprintSubject(sprint: Sprint, phase: Phase)

  // ---------------------------------------------------------------------------
  // The due window
  // ---------------------------------------------------------------------------

  /** `Math.floor((eventDate - now) / (1000 * 60))`. */
  function MinutesUntil(at: int, now: int): (m: int)
    ensures m * MsPerMinute <= at - now < (m + 1) * MsPerMinute
  {
    (at - now) / MsPerMinute
  }

  /** `Math.abs(minutesUntil - reminderTime) <= 5`. */
  predicate Due(minutesUntil: int, offset: int) {
    -Window <= minutesUntil - offset <= Window
  }

  /** In real time, offset `o` is due from exactly `o - 5` minutes before the
      start up to (but not including) `o + 6` minutes before it. */
  lemma DueWindow(at: int, now: int, offset: int)
    ensures Due(MinutesUntil(at, now), offset) <==>
            (offset - Window) * MsPerMinute <= at - now < (offset + Window + 1) * MsPerMinute
  {
    var m := MinutesUntil(at, now);
    if m < offset - Window {
      assert (m + 1) * MsPerMinute <= (offset - Window) * MsPerMinute;
    }
    if m > offset + Window {
      assert m * MsPerMinute >= (offset + Window + 1) * MsPerMinute;
    }
    if offset - Window <= m {
      assert (offset - Window) * MsPerMinute <= m * MsPerMinute;
    }
    if m <= offset + Window {
      assert (m + 1) * MsPerMinute <= (offset + Window + 1) * MsPerMinute;
    }
  }

  // ---------------------------------------------------------------------------
  // Offsets, keys and message text
  // ---------------------------------------------------------------------------

  /** `event.event_type || 'holiday'`. */
  function EventType(e: Event): string {
    if e.eventType == "" then "holiday" else e.eventType
  }

  /** `event.id || `${event.title}-${event.start_date}``. */
  function EventId(e: Event): string {
    if e.id != "" then e.id else e.title + "-" + e.startDate
  }

  /** The built-in offsets for a type: meetings 1 day, 1 hour and 15 minutes
      before, sprints 1 day and 1 hour, holidays 1 week and 1 day, anything
      else 1 day and 1 hour. */
  function DefaultTimes(eventType: string): (r: seq<int>)
    ensures |r| >= 2 && r[0] >= 1440 && r[1] >= 60
    ensures forall i, j :: 0 <= i < j < |r| ==> r[i] > r[j] > 0
    ensures eventType == "holiday" <==> r[0] == 10080
    ensures eventType == "meeting" <==> |r| == 3
  {
    if eventType == "meeting" then [1440, 60, 15]
    else if eventType == "sprint" then [1440, 60]
    else if eventType == "holiday" then [10080, 1440]
    else [1440, 60]
  }

  /** `config.reminder_times[type]` when `reminder_times` is an object holding
      that type; any array counts, even an empty one. */
  function ConfiguredTimes(config: Config, eventType: string): Option<seq<int>> {
    match Field(config, "reminder_times")
    case Some(Times(t)) => if eventType in t then Some(t[eventType]) else None
    case _ => None
  }

  /** `getReminderTimes`: the configured list wins, the built-in table is the
      fallback. */
  function GetReminderTimes(config: Config, eventType: string): (r: seq<int>)
    ensures ConfiguredTimes(config, eventType).Some? ==> r == ConfiguredTimes(config, eventType).value
    ensures ConfiguredTimes(config, eventType).None? ==> r == DefaultTimes(eventType) && |r| >= 2
  {
    match ConfiguredTimes(config, eventType)
    case Some(times) => times
    case None => DefaultTimes(eventType)
  }

  /** `formatReminderTime`: "now" for a non-positive count, otherwise "in "
      and the count in its largest whole unit. */
  function FormatReminderTime(minutes: int): (r: string)
    ensures r == "now" <==> minutes <= 0
    ensures minutes > 0 ==> r == "in " + Describe(minutes)
  {
    if minutes <= 0 then "now" else "in " + Describe(minutes)
  }

  /** `<@&id>` for each role, in order. */
  function RoleMentions(roleIds: seq<string>): (r: seq<string>)
    ensures |r| == |roleIds|
    ensures forall i :: 0 <= i < |r| ==> r[i] == "<@&" + roleIds[i] + ">"
  {
    if roleIds == [] then [] else ["<@&" + roleIds[0] + ">"] + RoleMentions(roleIds[1..])
  }

  /** The message content: every role mentioned, else `@everyone` for a
      holiday, else nothing. */
  function MentionContent(e: Event): (r: string)
    ensures r == "" <==> e.roleIds == [] && EventType(e) != "holiday"
    ensures e.roleIds == [] && EventType(e) == "holiday" ==> r == "@everyone"
    ensures e.roleIds != [] && (forall i :: 0 <= i < |e.roleIds| ==> ' ' !in e.roleIds[i]) ==>
              Split(r, ' ') == RoleMentions(e.roleIds)
  {
    if e.roleIds != [] then
      var parts := RoleMentions(e.roleIds);
      var r := Join(parts, ' ');
      assert r[..|parts[0]|] == parts[0] by { JoinHead(parts, ' '); }
      assert r[0] == '<';
      MentionsSplit(e.roleIds);
      r
    else if EventType(e) == "holiday" then "@everyone"
    else ""
  }

  /** Role ids without spaces can be read back from the joined mentions. */
  lemma MentionsSplit(roleIds: seq<string>)
    requires roleIds != []
    ensures (forall i :: 0 <= i < |roleIds| ==> ' ' !in roleIds[i]) ==>
              Split(Join(RoleMentions(roleIds), ' '), ' ') == RoleMentions(roleIds)
  {
    var parts := RoleMentions(roleIds);
    if forall i :: 0 <= i < |roleIds| ==> ' ' !in roleIds[i] {
      forall i | 0 <= i < |parts| ensures ' ' !in parts[i] {
        assert parts[i] == "<@&" + roleIds[i] + ">";
      }
      SplitJoin(parts, ' ');
    }
  }

  /** A join begins with its first part. */
  lemma {:induction false} JoinHead(parts: seq<string>, sep: char)
    requires |parts| >= 1
    ensures |Join(parts, sep)| >= |parts[0]|
    ensures Join(parts, sep)[..|parts[0]|] == parts[0]
  {
    if |parts| > 1 {
      assert Join(parts, sep) == parts[0] + ([sep] + Join(parts[1..], sep));
    }
  }

  /** The RSVP reactions, chosen by the raw `event_type` (no holiday default):
      three for meetings, two for work sessions, none otherwise. */
  function ReactionsFor(rawType: string): (r: seq<string>)
    ensures |r| <= 3 && r == ["✅", "❌", "❓"][..|r|]
    ensures |r| == 3 <==> rawType == "meeting"
    ensures |r| == 2 <==> rawType == "work_session"
    ensures r == [] <==> rawType != "meeting" && rawType != "work_session"
  {
    if rawType == "meeting" then ["✅", "❌", "❓"]
    else if rawType == "work_session" then ["✅", "❌"]
    else []
  }

  function SprintId(s: Sprint): string {
    if s.id != "" then s.id else s.name
  }

  /** The instant a subject's offsets count back from. */
  function Instant(subject: Subject): Option<int> {
    match subject
    case EventSubject(e) => e.start
    case SprintSubject(s, Starting) => s.start
    case SprintSubject(s, Ending) => s.end
  }

  /** The event id under which the subject's reminders are recorded. */
  function SubjectId(subject: Subject): string {
    match subject
    case EventSubject(e) => EventId(e)
    case SprintSubject(s, Starting) => SprintId(s) + "-start"
    case SprintSubject(s, Ending) => SprintId(s) + "-end"
  }

  /** The title recorded in the ledger (`event.title || event.name`). */
  function LedgerTitle(subject: Subject): string {
    match subject
    case EventSubject(e) => if e.title != "" then e.title else e.name
    case SprintSubject(s, Starting) => s.name + " starting"
    case SprintSubject(s, Ending) => s.name + " ending"
  }

  /** The message of `sendReminder` / `sendSprintReminder`. */
  function SubjectNotice(subject: Subject, offset: int): Notice {
    var when := FormatReminderTime(offset);
    match subject
    case EventSubject(e) =>
      Notice("⏰ Reminder: " + e.title, "This event is starting " + when + "!",
             MentionContent(e), ReactionsFor(e.eventType))
    case SprintSubject(s, Starting) =>
      Notice("\U{1F680} Sprint Starting: " + s.name, "Sprint \"" + s.name + "\" is starting " + when + "!",
             "@everyone", [])
    case SprintSubject(s, Ending) =>
      Notice("\U{1F3C1} Sprint Ending: " + s.name, "Sprint \"" + s.name + "\" is ending " + when + "!",
             "@everyone", [])
  }

  function MakeCandidate(guildId: string, now: int, subject: Subject, offset: int): Candidate {
    Candidate(guildId, SubjectId(subject), offset, LedgerTitle(subject), now, SubjectNotice(subject, offset))
  }

  /** Whether offset `o` of the subject is due at `now`; never for an invalid
      date, whose minute count is `NaN`. */
  predicate DueAt(subject: Subject, now: int, offset: int) {
    Instant(subject).Some? && Due(MinutesUntil(Instant(subject).value, now), offset)
  }

  /** The ledger key of a candidate. */
  function Key(c: Candidate): string {
    ReminderKey(c.guildId, c.eventId, c.offset)
  }

  // ---------------------------------------------------------------------------
  // The candidates of a tick
  // ---------------------------------------------------------------------------

  /** The due offsets of one subject, in list order. */
  function OffsetCandidates(guildId: string, now: int, subject: Subject, offsets: seq<int>): seq<Candidate>
    decreases |offsets|
  {
    if offsets == [] then []
    else
      var o := offsets[|offsets| - 1];
      OffsetCandidates(guildId, now, subject, offsets[..|offsets| - 1])
      + (if DueAt(subject, now, o) then [MakeCandidate(guildId, now, subject, o)] else [])
  }

  /** Sprint reminders always use the fixed offsets 1 day and 1 hour. */
  const SprintOffsets: seq<int> := [1440, 60]

  /** `checkSprintNotifications`: the start reminders, then the end reminders. */
  function SprintCandidates(guildId: string, now: int, s: Sprint): seq<Candidate> {
    OffsetCandidates(guildId, now, SprintSubject(s, Starting), SprintOffsets)
    + OffsetCandidates(guildId, now, SprintSubject(s, Ending), SprintOffsets)
  }

  function SprintsCandidates(guildId: string, now: int, sprints: seq<Sprint>): seq<Candidate>
    decreases |sprints|
  {
    if sprints == [] then []
    else
      SprintsCandidates(guildId, now, sprints[..|sprints| - 1])
      + SprintCandidates(guildId, now, sprints[|sprints| - 1])
  }

  /** The reminders of one event, at the offsets its type is configured with. */
  function EventCandidates(guildId: string, now: int, config: Config, e: Event): seq<Candidate> {
    OffsetCandidates(guildId, now, EventSubject(e), GetReminderTimes(config, EventType(e)))
  }

  function EventsCandidates(guildId: string, now: int, config: Config, events: seq<Event>): seq<Candidate>
    decreases |events|
  {
    if events == [] then []
    else
      EventsCandidates(guildId, now, config, events[..|events| - 1])
      + EventCandidates(guildId, now, config, events[|events| - 1])
  }

  lemma SprintsCandidatesPrefix(guildId: string, now: int, sprints: seq<Sprint>, i: int)
    requires 0 <= i < |sprints|
    ensures SprintsCandidates(guildId, now, sprints[..i + 1])
            == SprintsCandidates(guildId, now, sprints[..i]) + SprintCandidates(guildId, now, sprints[i])
  {
    assert sprints[..i + 1][..i] == sprints[..i];
  }

  lemma EventsCandidatesPrefix(guildId: string, now: int, config: Config, events: seq<Event>, j: int)
    requires 0 <= j < |events|
    ensures EventsCandidates(guildId, now, config, events[..j + 1])
            == EventsCandidates(guildId, now, config, events[..j]) + EventCandidates(guildId, now, config, events[j])
  {
    assert events[..j + 1][..j] == events[..j];
  }

  /** A guild takes part only if it has a configuration with a truthy
      `notification_channel_id`. */
  predicate Active(config: Option<Config>) {
    config.Some? && Truthy(Field(config.value, "notification_channel_id"))
  }

  /** One guild's candidates: none when it is skipped or a fetch threw,
      otherwise the sprints' and then the events' and holidays'. */
  function GuildCandidates(config: Option<Config>, g: GuildFetch): seq<Candidate> {
    if !Active(config) || g.data.None? then []
    else
      var d := g.data.value;
      SprintsCandidates(g.guildId, g.now, d.sprints)
      + EventsCandidates(g.guildId, g.now, config.value, d.events + d.holidays)
  }

  function ConfigOf(configs: map<string, Config>, guildId: string): Option<Config> {
    if guildId in configs then Some(configs[guildId]) else None
  }

  /** The candidates of a whole tick, guild by guild. */
  function TickCandidates(configs: map<string, Config>, guilds: seq<GuildFetch>): seq<Candidate>
    decreases |guilds|
  {
    if guilds == [] then []
    else
      var g := guilds[|guilds| - 1];
      TickCandidates(configs, guilds[..|guilds| - 1]) + GuildCandidates(ConfigOf(configs, g.guildId), g)
  }

  // ---------------------------------------------------------------------------
  // Offering candidates to the ledger
  // ---------------------------------------------------------------------------

  /** One candidate: skipped if its key is in the ledger, otherwise sent
      (delivered unless its key is in `failing`) and marked either way. */
  function Step(st: TickState, c: Candidate, failing: set<string>): (r: TickState)
    ensures r.sent.Keys == st.sent.Keys + {Key(c)}
    ensures forall k :: k in st.sent ==> r.sent[k] == st.sent[k]
    ensures Key(c) in st.sent ==> r.sends == st.sends
    ensures Key(c) !in st.sent ==> r.sends == st.sends + [Dispatch(c, Key(c) !in failing)]
  {
    if Key(c) in st.sent then st
    else TickState(st.sent[Key(c) := SentRecord(c.at, c.ledgerTitle)],
                   st.sends + [Dispatch(c, Key(c) !in failing)])
  }

  /** The candidates offered in order. */
  function Run(st: TickState, cs: seq<Candidate>, failing: set<string>): TickState
    decreases |cs|
  {
    if cs == [] then st
    else Step(Run(st, cs[..|cs| - 1], failing), cs[|cs| - 1], failing)
  }

  /** Offering two lists in turn is offering their concatenation. */
  lemma {:induction false} RunAppend(st: TickState, a: seq<Candidate>, b: seq<Candidate>, failing: set<string>)
    ensures Run(st, a + b, failing) == Run(Run(st, a, failing), b, failing)
    decreases |b|
  {
    if b == [] {
      assert a + b == a;
    } else {
      assert (a + b)[..|a + b| - 1] == a + b[..|b| - 1];
      assert (a + b)[|a + b| - 1] == b[|b| - 1];
      RunAppend(st, a, b[..|b| - 1], failing);
    }
  }

  /** Offering one more candidate is one step. */
  lemma RunSnoc(st: TickState, a: seq<Candidate>, c: Candidate, failing: set<string>)
    ensures Run(st, a + [c], failing) == Step(Run(st, a, failing), c, failing)
  {
    assert (a + [c])[..|a + [c]| - 1] == a;
  }

  /** The keys of a list of candidates. */
  function KeysOf(cs: seq<Candidate>): set<string>
    decreases |cs|
  {
    if cs == [] then {} else KeysOf(cs[..|cs| - 1]) + {Key(cs[|cs| - 1])}
  }

  /** Every candidate's key is among the keys of its list. */
  lemma {:induction false} KeyInKeysOf(cs: seq<Candidate>, i: int)
    requires 0 <= i < |cs|
    ensures Key(cs[i]) in KeysOf(cs)
    decreases |cs|
  {
    if i < |cs| - 1 {
      var init := cs[..|cs| - 1];
      KeyInKeysOf(init, i);
      assert init[i] == cs[i];
    }
  }

  /** After a run the ledger holds exactly the keys it held before and the
      keys of the offered candidates; entries already present are untouched. */
  lemma {:induction false} RunLedger(st: TickState, cs: seq<Candidate>, failing: set<string>)
    ensures Run(st, cs, failing).sent.Keys == st.sent.Keys + KeysOf(cs)
    ensures forall k :: k in st.sent ==> Run(st, cs, failing).sent[k] == st.sent[k]
    decreases |cs|
  {
    if cs != [] {
      RunLedger(st, cs[..|cs| - 1], failing);
    }
  }

  /** Each run only appends to the list of sends; every new send had a key
      missing from the ledger before the run and present after it, and no two
      new sends share a key: a reminder is sent at most once. */
  lemma {:induction false} RunSends(st: TickState, cs: seq<Candidate>, failing: set<string>)
    ensures var r := Run(st, cs, failing);
            |r.sends| >= |st.sends| && r.sends[..|st.sends|] == st.sends
            && (forall j :: |st.sends| <= j < |r.sends| ==>
                  Key(r.sends[j].candidate) in r.sent && Key(r.sends[j].candidate) !in st.sent)
            && (forall i, j :: |st.sends| <= i < j < |r.sends| ==>
                  Key(r.sends[i].candidate) != Key(r.sends[j].candidate))
    decreases |cs|
  {
    if cs != [] {
      var init := cs[..|cs| - 1];
      RunSends(st, init, failing);
      RunLedger(st, init, failing);
      var p := Run(st, init, failing);
      var r := Run(st, cs, failing);
      if Key(cs[|cs| - 1]) !in p.sent {
        assert r.sends == p.sends + [Dispatch(cs[|cs| - 1], Key(cs[|cs| - 1]) !in failing)];
        assert r.sends[..|st.sends|] == p.sends[..|st.sends|];
        forall j | |st.sends| <= j < |r.sends|
          ensures Key(r.sends[j].candidate) in r.sent && Key(r.sends[j].candidate) !in st.sent
        {
          if j < |p.sends| {
            assert r.sends[j] == p.sends[j];
          } else {
            assert r.sends[j].candidate == cs[|cs| - 1];
            assert Key(cs[|cs| - 1]) !in st.sent;
          }
        }
      }
    }
  }

  /** What is marked does not depend on whether Discord accepted the
      messages: a failed delivery is marked like a successful one. */
  lemma {:induction false} RunMarksRegardlessOfDelivery(st: TickState, cs: seq<Candidate>, f1: set<string>, f2: set<string>)
    ensures Run(st, cs, f1).sent == Run(st, cs, f2).sent
    ensures |Run(st, cs, f1).sends| == |Run(st, cs, f2).sends|
    decreases |cs|
  {
    if cs != [] {
      RunMarksRegardlessOfDelivery(st, cs[..|cs| - 1], f1, f2);
    }
  }

  /** When every candidate's key is already in the ledger a run changes nothing. */
  lemma {:induction false} RunIdle(st: TickState, cs: seq<Candidate>, failing: set<string>)
    requires forall i :: 0 <= i < |cs| ==> Key(cs[i]) in st.sent
    ensures Run(st, cs, failing) == st
    decreases |cs|
  {
    if cs != [] {
      RunIdle(st, cs[..|cs| - 1], failing);
    }
  }

  /** Idempotence: running a tick again on the same rows and clock readings,
      starting from the ledger the first run left, sends nothing. */
  lemma SecondTickSendsNothing(configs: map<string, Config>, guilds: seq<GuildFetch>,
                               ledger: map<string, SentRecord>, f1: set<string>, f2: set<string>)
    ensures var cs := TickCandidates(configs, guilds);
            var after := Run(TickState(ledger, []), cs, f1).sent;
            Run(TickState(after, []), cs, f2) == TickState(after, [])
  {
    var cs := TickCandidates(configs, guilds);
    RunLedger(TickState(ledger, []), cs, f1);
    var after := Run(TickState(ledger, []), cs, f1).sent;
    forall i | 0 <= i < |cs| ensures Key(cs[i]) in after {
      KeyInKeysOf(cs, i);
    }
    RunIdle(TickState(after, []), cs, f2);
  }

  /** At most once across ticks: nothing the second of two consecutive ticks
      sends has a key the first tick sent, whatever the two ticks consider. */
  lemma NoResendAcrossTicks(ledger: map<string, SentRecord>, cs1: seq<Candidate>, cs2: seq<Candidate>,
                            f1: set<string>, f2: set<string>)
    ensures var r1 := Run(TickState(ledger, []), cs1, f1);
            var r2 := Run(TickState(r1.sent, []), cs2, f2);
            forall i, j :: 0 <= i < |r1.sends| && 0 <= j < |r2.sends| ==>
              Key(r1.sends[i].candidate) != Key(r2.sends[j].candidate)
  {
    var r1 := Run(TickState(ledger, []), cs1, f1);
    RunSends(TickState(ledger, []), cs1, f1);
    RunSends(TickState(r1.sent, []), cs2, f2);
  }

  /** The due window, both ways: a subject's candidates are exactly its due
      offsets, each with the subject's ledger key and message. */
  lemma {:induction false} OffsetCandidatesDue(guildId: string, now: int, subject: Subject, offsets: seq<int>, c: Candidate)
    ensures c in OffsetCandidates(guildId, now, subject, offsets) <==>
            exists o :: o in offsets && DueAt(subject, now, o) && c == MakeCandidate(guildId, now, subject, o)
    decreases |offsets|
  {
    if offsets != [] {
      var init := offsets[..|offsets| - 1];
      var last := offsets[|offsets| - 1];
      OffsetCandidatesDue(guildId, now, subject, init, c);
      DueSnoc(guildId, now, subject, offsets, c);
    }
  }

  /** Splitting the last offset off the existential of the due window. */
  lemma DueSnoc(guildId: string, now: int, subject: Subject, offsets: seq<int>, c: Candidate)
    requires offsets != []
    ensures (exists o :: o in offsets && DueAt(subject, now, o) && c == MakeCandidate(guildId, now, subject, o))
            <==> (exists o :: o in offsets[..|offsets| - 1] && DueAt(subject, now, o) && c == MakeCandidate(guildId, now, subject, o))
                 || (DueAt(subject, now, offsets[|offsets| - 1]) && c == MakeCandidate(guildId, now, subject, offsets[|offsets| - 1]))
  {
    var init := offsets[..|offsets| - 1];
    var last := offsets[|offsets| - 1];
    assert offsets == init + [last];
    if exists o :: o in offsets && DueAt(subject, now, o) && c == MakeCandidate(guildId, now, subject, o) {
      var o :| o in offsets && DueAt(subject, now, o) && c == MakeCandidate(guildId, now, subject, o);
      if o != last {
        assert o in init;
      }
    }
  }

  /** One more guild appends its own candidates. */
  lemma TickCandidatesSnoc(configs: map<string, Config>, xs: seq<GuildFetch>, g: GuildFetch)
    ensures TickCandidates(configs, xs + [g])
            == TickCandidates(configs, xs) + GuildCandidates(ConfigOf(configs, g.guildId), g)
  {
    assert (xs + [g])[..|xs + [g]| - 1] == xs;
  }

  lemma CandidatesAssoc(x: seq<Candidate>, y: seq<Candidate>, z: seq<Candidate>)
    ensures (x + y) + z == x + (y + z)
  {
  }

  /** The candidates of a guild list split at any point. */
  lemma {:induction false} TickCandidatesAppend(configs: map<string, Config>, a: seq<GuildFetch>, b: seq<GuildFetch>)
    ensures TickCandidates(configs, a + b) == TickCandidates(configs, a) + TickCandidates(configs, b)
    decreases |b|
  {
    if b == [] {
      assert a + b == a;
    } else {
      var init := b[..|b| - 1];
      var g := b[|b| - 1];
      TickCandidatesAppend(configs, a, init);
      assert b == init + [g];
      assert a + b == (a + init) + [g];
      TickCandidatesSnoc(configs, a + init, g);
      TickCandidatesSnoc(configs, init, g);
      var tail := GuildCandidates(ConfigOf(configs, g.guildId), g);
      CandidatesAssoc(TickCandidates(configs, a), TickCandidates(configs, init), tail);
    }
  }

  /** A guild that is skipped, or whose fetch throws, contributes nothing and
      does not stop the guilds after it. */
  lemma SkippedGuildIsolated(configs: map<string, Config>, before: seq<GuildFetch>, g: GuildFetch, after: seq<GuildFetch>)
    requires !Active(ConfigOf(configs, g.guildId)) || g.data.None?
    ensures TickCandidates(configs, before + [g] + after) == TickCandidates(configs, before + after)
  {
    TickCandidatesAppend(configs, before + [g], after);
    TickCandidatesAppend(configs, before, [g]);
    TickCandidatesAppend(configs, before, after);
    assert TickCandidates(configs, [g]) == [] by {
      assert [g][..0] == [];
    }
  }

  // ---------------------------------------------------------------------------
  // The tick, as the source runs it
  // ---------------------------------------------------------------------------

  /** Sends one candidate unless its key is recorded, then marks it. The send
      itself catches every error, so the mark follows whether or not the
      message was delivered. */
  method SendAndMark(ledger: ReminderLedger, c: Candidate, failing: set<string>, sends: seq<Dispatch>)
    returns (out: seq<Dispatch>)
    modifies ledger
    ensures TickState(ledger.sent, out) == Step(TickState(old(ledger.sent), sends), c, failing)
  {
    out := sends;
    if !ledger.HasBeenSent(c.guildId, c.eventId, c.offset) {
      var delivered := Key(c) !in failing;
      ledger.MarkAsSent(c.guildId, c.eventId, c.offset, c.ledgerTitle, c.at);
      out := sends + [Dispatch(c, delivered)];
    }
  }

  /** The inner `for (const reminderTime of ...)` loop for one subject. */
  method CheckOffsets(ledger: ReminderLedger, guildId: string, now: int, subject: Subject, offsets: seq<int>,
                      failing: set<string>, sends: seq<Dispatch>)
    returns (out: seq<Dispatch>)
    modifies ledger
    ensures TickState(ledger.sent, out)
         == Run(TickState(old(ledger.sent), sends), OffsetCandidates(guildId, now, subject, offsets), failing)
  {
    ghost var st := TickState(ledger.sent, sends);
    var instant := Instant(subject);
    out := sends;
    var i := 0;
    while i < |offsets|
      invariant 0 <= i <= |offsets|
      invariant TickState(ledger.sent, out) == Run(st, OffsetCandidates(guildId, now, subject, offsets[..i]), failing)
    {
      var offset := offsets[i];
      assert offsets[..i + 1][..i] == offsets[..i];
      if instant.Some? && Due(MinutesUntil(instant.value, now), offset) {
        var c := MakeCandidate(guildId, now, subject, offset);
        assert OffsetCandidates(guildId, now, subject, offsets[..i + 1])
            == OffsetCandidates(guildId, now, subject, offsets[..i]) + [c];
        RunSnoc(st, OffsetCandidates(guildId, now, subject, offsets[..i]), c, failing);
        out := SendAndMark(ledger, c, failing, out);
      } else {
        var before := OffsetCandidates(guildId, now, subject, offsets[..i]);
        assert OffsetCandidates(guildId, now, subject, offsets[..i + 1]) == before + [];
        assert before + [] == before;
      }
      i := i + 1;
    }
    assert offsets[..i] == offsets;
  }

  /** `checkSprintNotifications`. */
  method CheckSprintNotifications(ledger: ReminderLedger, guildId: string, now: int, s: Sprint,
                                  failing: set<string>, sends: seq<Dispatch>)
    returns (out: seq<Dispatch>)
    modifies ledger
    ensures TickState(ledger.sent, out)
         == Run(TickState(old(ledger.sent), sends), SprintCandidates(guildId, now, s), failing)
  {
    ghost var st := TickState(ledger.sent, sends);
    out := CheckOffsets(ledger, guildId, now, SprintSubject(s, Starting), SprintOffsets, failing, sends);
    out := CheckOffsets(ledger, guildId, now, SprintSubject(s, Ending), SprintOffsets, failing, out);
    RunAppend(st, OffsetCandidates(guildId, now, SprintSubject(s, Starting), SprintOffsets),
              OffsetCandidates(guildId, now, SprintSubject(s, Ending), SprintOffsets), failing);
  }

  /** `for (const sprint of sprints)`. */
  method CheckSprints(ledger: ReminderLedger, guildId: string, now: int, sprints: seq<Sprint>,
                      failing: set<string>, sends: seq<Dispatch>)
    returns (out: seq<Dispatch>)
    modifies ledger
    ensures TickState(ledger.sent, out)
         == Run(TickState(old(ledger.sent), sends), SprintsCandidates(guildId, now, sprints), failing)
  {
    ghost var st := TickState(ledger.sent, sends);
    out := sends;
    var i := 0;
    while i < |sprints|
      invariant 0 <= i <= |sprints|
      invariant TickState(ledger.sent, out) == Run(st, SprintsCandidates(guildId, now, sprints[..i]), failing)
    {
      SprintsCandidatesPrefix(guildId, now, sprints, i);
      RunAppend(st, SprintsCandidates(guildId, now, sprints[..i]), SprintCandidates(guildId, now, sprints[i]), failing);
      out := CheckSprintNotifications(ledger, guildId, now, sprints[i], failing, out);
      i := i + 1;
    }
    assert sprints[..i] == sprints;
  }

  /** `for (const event of allEvents)`: each event at the offsets of its type. */
  method CheckEvents(ledger: ReminderLedger, guildId: string, now: int, config: Config, events: seq<Event>,
                     failing: set<string>, sends: seq<Dispatch>)
    returns (out: seq<Dispatch>)
    modifies ledger
    ensures TickState(ledger.sent, out)
         == Run(TickState(old(ledger.sent), sends), EventsCandidates(guildId, now, config, events), failing)
  {
    ghost var st := TickState(ledger.sent, sends);
    out := sends;
    var j := 0;
    while j < |events|
      invariant 0 <= j <= |events|
      invariant TickState(ledger.sent, out) == Run(st, EventsCandidates(guildId, now, config, events[..j]), failing)
    {
      var e := events[j];
      var times := GetReminderTimes(config, EventType(e));
      ghost var here := OffsetCandidates(guildId, now, EventSubject(e), times);
      assert here == EventCandidates(guildId, now, config, e);
      EventsCandidatesPrefix(guildId, now, config, events, j);
      RunAppend(st, EventsCandidates(guildId, now, config, events[..j]), here, failing);
      out := CheckOffsets(ledger, guildId, now, EventSubject(e), times, failing, out);
      j := j + 1;
    }
    assert events[..j] == events;
  }

  /** The body of the per-guild `try` block: skip a guild without a
      notification channel, fetch, then sprints, then events and holidays. */
  method CheckGuild(ledger: ReminderLedger, store: ConfigStore, g: GuildFetch,
                    failing: set<string>, sends: seq<Dispatch>)
    returns (out: seq<Dispatch>)
    modifies ledger
    ensures TickState(ledger.sent, out)
         == Run(TickState(old(ledger.sent), sends), GuildCandidates(store.GetGuildConfig(g.guildId), g), failing)
  {
    ghost var st := TickState(ledger.sent, sends);
    out := sends;
    var config := store.GetGuildConfig(g.guildId);
    if !Active(config) || g.data.None? {
      return;
    }
    var d := g.data.value;
    out := CheckSprints(ledger, g.guildId, g.now, d.sprints, failing, out);
    out := CheckEvents(ledger, g.guildId, g.now, config.value, d.events + d.holidays, failing, out);
    RunAppend(st, SprintsCandidates(g.guildId, g.now, d.sprints),
              EventsCandidates(g.guildId, g.now, config.value, d.events + d.holidays), failing);
  }

  /** `checkUpcomingEvents`: every guild in turn. Returns the reminders sent,
      in order, with their delivery outcome; the ledger is left as the fold
      over the tick's candidates leaves it. */
  method CheckUpcomingEvents(ledger: ReminderLedger, store: ConfigStore, guilds: seq<GuildFetch>,
                             failing: set<string>)
    returns (sends: seq<Dispatch>)
    modifies ledger
    ensures TickState(ledger.sent, sends)
         == Run(TickState(old(ledger.sent), []), TickCandidates(store.guildConfigs, guilds), failing)
    ensures forall i :: 0 <= i < |sends| ==> Key(sends[i].candidate) in ledger.sent
  {
    ghost var st := TickState(ledger.sent, []);
    sends := [];
    var i := 0;
    while i < |guilds|
      invariant 0 <= i <= |guilds|
      invariant TickState(ledger.sent, sends) == Run(st, TickCandidates(store.guildConfigs, guilds[..i]), failing)
    {
      assert guilds[..i + 1][..i] == guilds[..i];
      RunAppend(st, TickCandidates(store.guildConfigs, guilds[..i]),
                GuildCandidates(ConfigOf(store.guildConfigs, guilds[i].guildId), guilds[i]), failing);
      sends := CheckGuild(ledger, store, guilds[i], failing, sends);
      i := i + 1;
    }
    assert guilds[..i] == guilds;
    RunSends(st, TickCandidates(store.guildConfigs, guilds), failing);
  }
}
