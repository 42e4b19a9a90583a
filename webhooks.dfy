/**
 * The `/team-events` webhook (src/api/webhooks.js): a shared-secret check on
 * the request header, then a payload check, then the eligibility test every
 * new team event must pass before a notification is sent for it. The same
 * eligibility test, in another order, guards the realtime listener.
 */
module Webhooks {
  import opened Wrappers
  import opened Text

  /** The fields of a `team_events` row the intake looks at. Missing or
      `null` text fields are "" (they are only tested for truthiness);
      `recurring_event_id` keeps `null` as `None` because it is compared with
      `id` by strict inequality. */
  datatype EventRecord = EventRecord(id: string, isRecurring: bool, recurringEventId: Option<string>,
                                     notifiedAt: string, discordGuildId: string)

  /** The three reasons an event is not announced. */
  datatype Skip = NonFirstOccurrence | AlreadyNotified | NoGuild

  /** A later occurrence of a recurring series: the row is recurring and does
      not point to itself as the series head. */
  predicate LaterOccurrence(e: EventRecord) {
    e.isRecurring && e.recurringEventId != Some(e.id)
  }

  /** The checks an event fails. */
  function FailedChecks(e: EventRecord): (r: set<Skip>)
    ensures NonFirstOccurrence in r ==> e.isRecurring
    ensures AlreadyNotified in r <==> e.notifiedAt != ""
    ensures NoGuild in r <==> e.discordGuildId == ""
  {
    (if LaterOccurrence(e) then {NonFirstOccurrence} else {})
    + (if e.notifiedAt != "" then {AlreadyNotified} else {})
    + (if e.discordGuildId == "" then {NoGuild} else {})
  }

  /** An event is announced when it is the first (or only) occurrence, has
      not been announced, and belongs to a guild. */
  predicate Eligible(e: EventRecord) {
    !LaterOccurrence(e) && e.notifiedAt == "" && e.discordGuildId != ""
  }

  lemma EligibleIffNoFailedCheck(e: EventRecord)
    ensures Eligible(e) <==> FailedChecks(e) == {}
  {
    if !Eligible(e) {
      if LaterOccurrence(e) {
        assert NonFirstOccurrence in FailedChecks(e);
      } else if e.notifiedAt != "" {
        assert AlreadyNotified in FailedChecks(e);
      } else {
        assert NoGuild in FailedChecks(e);
      }
    }
  }

  /** The webhook's skip chain: recurrence, then notified, then guild. */
  function WebhookSkip(e: EventRecord): (r: Option<Skip>)
    ensures r.None? <==> Eligible(e)
    ensures r.Some? ==> r.value in FailedChecks(e)
    ensures r == Some(AlreadyNotified) ==> !LaterOccurrence(e)
    ensures r == Some(NoGuild) ==> !LaterOccurrence(e) && e.notifiedAt == ""
  {
    if LaterOccurrence(e) then Some(NonFirstOccurrence)
    else if e.notifiedAt != "" then Some(AlreadyNotified)
    else if e.discordGuildId == "" then Some(NoGuild)
    else None
  }

  /** The `reason` text of a skipped response. */
  function ReasonText(s: Skip): string {
    match s
    case NonFirstOccurrence => "non-first occurrence"
    case AlreadyNotified => "already notified"
    case NoGuild => "no discord_guild_id"
  }

  /** A JSON response body. */
  datatype Body =
    | Error(error: string)
    | Skipped(reason: string)
    | Success(eventId: string)
    | SendFailed(error: string, eventId: string)

  datatype Response = Response(status: int, body: Body)

  /** What the authentication middleware does: pass the request on, or answer it. */
  datatype Gate = Next | Respond(response: Response)

  /** Removes one leading colon and the white space run after it. */
  function StripColon(s: string): (r: string)
    ensures s != [] && s[0] == ':' ==> r == TrimStart(s[1..])
    ensures (s == [] || s[0] != ':') ==> r == s
  {
    if s != [] && s[0] == ':' then TrimStart(s[1..]) else s
  }

  /** The cleaned secret: a missing or empty header is "", any other header
      is trimmed and then loses one leading colon and the white space after it. */
  function CleanSecret(header: Option<string>): (r: string)
    ensures r == [] || !IsWhitespace(r[0])
    ensures header.None? || header == Some("") ==> r == ""
  {
    if header.None? || header.value == "" then ""
    else StripColon(Trim(header.value))
  }

  /** A secret without surrounding white space, sent padded with white
      space, is cleaned back to itself. */
  lemma CleanSecretRecovers(secret: string, p1: string, p3: string)
    requires secret != [] && secret[0] != ':'
    requires !IsWhitespace(secret[0]) && !IsWhitespace(secret[|secret| - 1])
    requires AllWhitespace(p1) && AllWhitespace(p3)
    ensures CleanSecret(Some(p1 + secret + p3)) == secret
  {
    PaddedTrim(p1, secret, p3);
  }

  /** The same with a leading colon and white space after it, as some
      senders prefix the header value. */
  lemma CleanSecretRecoversAfterColon(secret: string, p1: string, p2: string, p3: string)
    requires secret != [] && secret[0] != ':'
    requires !IsWhitespace(secret[0]) && !IsWhitespace(secret[|secret| - 1])
    requires AllWhitespace(p1) && AllWhitespace(p2) && AllWhitespace(p3)
    ensures CleanSecret(Some(p1 + ":" + p2 + secret + p3)) == secret
  {
    var body := ":" + p2 + secret;
    ColonBody(p2, secret);
    PaddedTrim(p1, body, p3);
    Regroup(p1, p2, secret, p3);
  }

  lemma Regroup(p1: string, p2: string, secret: string, p3: string)
    ensures p1 + ":" + p2 + secret + p3 == p1 + (":" + p2 + secret) + p3
  {
  }

  lemma PaddedTrim(p1: string, body: string, p3: string)
    requires body != [] && !IsWhitespace(body[0]) && !IsWhitespace(body[|body| - 1])
    requires AllWhitespace(p1) && AllWhitespace(p3)
    ensures p1 + body + p3 != [] && Trim(p1 + body + p3) == body
  {
    TrimPadded(p1, body, p3);
  }

  lemma ColonBody(p2: string, secret: string)
    requires secret != [] && !IsWhitespace(secret[0]) && !IsWhitespace(secret[|secret| - 1])
    requires AllWhitespace(p2)
    ensures var body := ":" + p2 + secret;
            body[0] == ':' && !IsWhitespace(body[0]) && !IsWhitespace(body[|body| - 1])
            && StripColon(body) == secret
  {
    var body := ":" + p2 + secret;
    assert body[1..] == p2 + secret;
    TrimStartPadded(p2, secret);
  }

  /** `authenticateWebhook`: 503 when no secret is configured, 401 unless the
      cleaned header equals it, otherwise on to the route. */
  function Authenticate(webhookSecret: string, header: Option<string>): (g: Gate)
    ensures webhookSecret == "" ==> g == Respond(Response(503, Error("Webhooks not configured")))
    ensures webhookSecret != "" ==> (g == Next <==> CleanSecret(header) == webhookSecret)
    ensures webhookSecret != "" && g != Next ==> g == Respond(Response(401, Error("Unauthorized")))
    ensures g == Next ==> header.Some? && header.value != ""
  {
    if webhookSecret == "" then Respond(Response(503, Error("Webhooks not configured")))
    else
      var clean := CleanSecret(header);
      if clean == "" || clean != webhookSecret then Respond(Response(401, Error("Unauthorized")))
      else Next
  }

  /** The request body fields the route reads. */
  datatype Payload = Payload(kind: string, table: string, record: Option<EventRecord>)

  predicate WellFormed(p: Payload) {
    p.kind == "INSERT" && p.table == "team_events" && p.record.Some?
  }

  /** The `/team-events` handler after authentication. `sendOk` is whether the
      notification call resolved rather than threw. */
  function HandleTeamEvents(p: Payload, sendOk: bool): (r: Response)
    ensures !WellFormed(p) ==> r.status == 400
    ensures WellFormed(p) && !Eligible(p.record.value) ==>
              r == Response(200, Skipped(ReasonText(WebhookSkip(p.record.value).value)))
    ensures WellFormed(p) && Eligible(p.record.value) ==>
              r == (if sendOk then Response(200, Success(p.record.value.id))
                    else Response(500, SendFailed("Failed to send notification", p.record.value.id)))
  {
    if p.kind != "INSERT" || p.table != "team_events" then Response(400, Error("Invalid webhook type"))
    else if p.record.None? then Response(400, Error("Missing record data"))
    else
      var e := p.record.value;
      match WebhookSkip(e)
      case Some(s) => Response(200, Skipped(ReasonText(s)))
      case None =>
        if sendOk then Response(200, Success(e.id))
        else Response(500, SendFailed("Failed to send notification", e.id))
  }

  /** A response says the notification was attempted. */
  predicate Attempted(r: Response) {
    r.body.Success? || r.body.SendFailed?
  }

  /** The whole request: middleware, then route. */
  function Request(webhookSecret: string, header: Option<string>, p: Payload, sendOk: bool): Response {
    match Authenticate(webhookSecret, header)
    case Respond(r) => r
    case Next => HandleTeamEvents(p, sendOk)
  }

  /** A notification is attempted exactly for an authenticated, well-formed
      insert of an eligible event, whatever the send then does. */
  lemma ForwardedIffEligible(webhookSecret: string, header: Option<string>, p: Payload, sendOk: bool)
    ensures Attempted(Request(webhookSecret, header, p, sendOk)) <==>
            webhookSecret != "" && CleanSecret(header) == webhookSecret
            && WellFormed(p) && Eligible(p.record.value)
  {
  }
}
