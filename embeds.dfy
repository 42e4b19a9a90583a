/**
 * The embed helpers (src/utils/embeds.js): the colour and label tables for
 * event types, the three-way sprint status, the choice of the moment an
 * event's embed is stamped with, and which fields an event embed carries.
 * Dates are instants (`None` for an Invalid Date); the locale text of a date
 * is a parameter.
 */
module Embeds {
  import opened Wrappers
  import opened EmbedFields

  /** The event types both tables know. */
  const KnownTypes: seq<string> := ["meeting", "sprint", "holiday", "deadline", "celebration"]

  const Grey: int := 0x808080

  /** `getEventColor`: the table's colour, grey for any other type. */
  function EventColor(eventType: string): (c: int)
    ensures eventType !in KnownTypes ==> c == Grey
    ensures eventType in KnownTypes ==> c != Grey && 0 < c <= 0xFFFFFF
  {
    if eventType == "meeting" then 0x5865F2
    else if eventType == "sprint" then 0x00D9FF
    else if eventType == "holiday" then 0xFFA500
    else if eventType == "deadline" then 0xFF0000
    else if eventType == "celebration" then 0x00FF00
    else Grey
  }

  /** `formatEventType`: the table's label, the type itself for any other. */
  function FormatEventType(eventType: string): (r: string)
    ensures eventType !in KnownTypes ==> r == eventType
    ensures eventType in KnownTypes ==> r != eventType && r != ""
  {
    if eventType == "meeting" then "\U{1F4C5} Meeting"
    else if eventType == "sprint" then "\U{1F3C3} Sprint"
    else if eventType == "holiday" then "\U{1F389} Holiday"
    else if eventType == "deadline" then "\U{23F0} Deadline"
    else if eventType == "celebration" then "\U{1F38A} Celebration"
    else eventType
  }

  /** The known types get five different colours and five different labels,
      and no known type's colour is the fallback. */
  lemma TablesDistinguishKnownTypes(a: string, b: string)
    requires a in KnownTypes && b in KnownTypes && a != b
    ensures EventColor(a) != EventColor(b)
    ensures FormatEventType(a) != FormatEventType(b)
  {
  }

  // ---------------------------------------------------------------------------
  // Sprint status
  // ---------------------------------------------------------------------------

  datatype SprintStatus = Upcoming | Completed | Active {
    function Label(): string {
      match this
      case Upcoming => "\U{23F3} Upcoming"
      case Completed => "\U{2705} Completed"
      case Active => "\U{1F525} Active"
    }
  }

  /** `getSprintStatus` at the instant `now`: before the start, after the end,
      or otherwise. A comparison with an Invalid Date is false. */
  function GetSprintStatus(now: int, start: Option<int>, end: Option<int>): (r: SprintStatus)
    ensures r == Upcoming <==> start.Some? && now < start.value
    ensures r == Completed <==> !(start.Some? && now < start.value) && end.Some? && now > end.value
    ensures r == Active <==> !(start.Some? && now < start.value) && !(end.Some? && now > end.value)
  {
    if start.Some? && now < start.value then Upcoming
    else if end.Some? && now > end.value then Completed
    else Active
  }

  /** For a sprint with valid dates, start no later than end, the status is
      Active exactly on the closed interval, bounds included. */
  lemma ActiveOnClosedInterval(now: int, start: int, end: int)
    requires start <= end
    ensures GetSprintStatus(now, Some(start), Some(end)) == Active <==> start <= now <= end
    ensures GetSprintStatus(now, Some(start), Some(end)) == Upcoming <==> now < start
    ensures GetSprintStatus(now, Some(start), Some(end)) == Completed <==> now > end
    ensures GetSprintStatus(start, Some(start), Some(end)) == Active
    ensures GetSprintStatus(end, Some(start), Some(end)) == Active
  {
  }

  /** A sprint whose dates do not parse is always Active. */
  lemma InvalidDatesAreActive(now: int)
    ensures GetSprintStatus(now, None, None) == Active
  {
  }

  /** Status moves forward with time: a later instant is never at an earlier
      stage (Upcoming, then Active, then Completed) when start <= end. */
  function Stage(s: SprintStatus): nat {
    match s
    case Upcoming => 0
    case Active => 1
    case Completed => 2
  }

  lemma StatusMonotone(t1: int, t2: int, start: int, end: int)
    requires start <= end && t1 <= t2
    ensures Stage(GetSprintStatus(t1, Some(start), Some(end))) <= Stage(GetSprintStatus(t2, Some(start), Some(end)))
  {
  }

  // ---------------------------------------------------------------------------
  // Event embeds
  // ---------------------------------------------------------------------------

  /** What `combineDateTime` builds a Date from: the clock, or a string. */
  datatype DateSource = Now | Parse(text: string)

  /** `combineDateTime(dateStr, timeStr)`: the clock without a date, the date
      and time joined by `T` when there is a time, otherwise the date alone. */
  function CombineDateTime(dateStr: string, timeStr: string): (r: DateSource)
    ensures r == Now <==> dateStr == ""
    ensures dateStr != "" && timeStr != "" ==> r == Parse(dateStr + "T" + timeStr)
    ensures dateStr != "" && timeStr == "" ==> r == Parse(dateStr)
  {
    if dateStr == "" then Now
    else if timeStr != "" then Parse(dateStr + "T" + timeStr)
    else Parse(dateStr)
  }

  /** The fields of an event the embed reads; missing text fields are "". */
  datatype EventView = EventView(
    title: string, description: string, location: string,
    eventType: string, kind: string,
    datetime: string, startDate: string, startTime: string)

  /** The built embed. */
  datatype Embed = Embed(title: string, color: int, description: Option<string>,
                         timestamp: DateSource, fields: seq<Field>)

  /** `event.event_type || event.type`. */
  function TypeOf(e: EventView): string {
    if e.eventType != "" then e.eventType else e.kind
  }

  /** `createEventEmbed(event)`, with `dateText` standing for the locale
      text of the event's date. */
  function CreateEventEmbed(e: EventView, dateText: string): (r: Embed)
    ensures r.title == if e.title != "" then e.title else "Event"
    ensures r.color == EventColor(TypeOf(e))
    ensures r.description.Some? <==> e.description != ""
    ensures r.description.Some? ==> r.description.value == e.description
    ensures r.timestamp == if e.datetime != "" then Parse(e.datetime) else CombineDateTime(e.startDate, e.startTime)
    ensures |r.fields| == if e.location != "" then 3 else 2
    ensures r.fields[0] == Field("\U{1F4C5} Date", dateText, true)
    ensures r.fields[1] == Field("\U{1F3F7}\U{FE0F} Type", FormatEventType(TypeOf(e)), true)
    ensures e.location != "" ==> r.fields[2] == Field("\U{1F4CD} Location", e.location, true)
  {
    var stamp := if e.datetime != "" then Parse(e.datetime) else CombineDateTime(e.startDate, e.startTime);
    var fields := [Field("\U{1F4C5} Date", dateText, true),
                   Field("\U{1F3F7}\U{FE0F} Type", FormatEventType(TypeOf(e)), true)];
    Embed(
      if e.title != "" then e.title else "Event",
      EventColor(TypeOf(e)),
      if e.description != "" then Some(e.description) else None,
      stamp,
      if e.location != "" then fields + [Field("\U{1F4CD} Location", e.location, true)] else fields)
  }
}
