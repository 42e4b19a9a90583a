/**
 * The `/schedule` command (src/commands/meetings/schedule.js): the input
 * checks on the date and 12-hour time, the conversion to a 24-hour clock,
 * and the record handed to `createEvent`. The date and time checks and the
 * conversion are shared, word for word, with `/reschedule`.
 */
module Schedule {
  import opened Wrappers
  import opened Text
  import opened ConfigManager

  // ---------------------------------------------------------------------------
  // Dates
  // ---------------------------------------------------------------------------

  /** `/^\d{4}-\d{2}-\d{2}$/`: four digits, a hyphen, two digits, a hyphen,
      two digits, and nothing else. */
  predicate IsDateFormat(s: string) {
    |s| == 10 && s[4] == '-' && s[7] == '-'
    && AllDigits(s[..4]) && AllDigits(s[5..7]) && AllDigits(s[8..])
  }

  /** The text of a year, month and day number in the accepted shape. */
  function RenderDate(year: nat, month: nat, day: nat): string {
    PadZeros(NatToString(year), 4) + "-" + PadZeros(NatToString(month), 2) + "-" + PadZeros(NatToString(day), 2)
  }

  /** Any year below 10000 with any two-digit month and day, in range or
      not ("2025-13-45"), is accepted, and its fields read back. */
  lemma AcceptsAnyFields(year: nat, month: nat, day: nat)
    requires year < 10000 && month < 100 && day < 100
    ensures var s := RenderDate(year, month, day);
            IsDateFormat(s)
            && DigitsValue(s[..4]) == year && DigitsValue(s[5..7]) == month && DigitsValue(s[8..]) == day
  {
    assert Pow10(2) == 100 && Pow10(4) == 10000;
    PadWidth(year, 4);
    PadWidth(month, 2);
    PadWidth(day, 2);
    var y, m, d := PadZeros(NatToString(year), 4), PadZeros(NatToString(month), 2), PadZeros(NatToString(day), 2);
    var s := RenderDate(year, month, day);
    assert s == y + "-" + m + "-" + d;
    assert s[..4] == y && s[5..7] == m && s[8..] == d;
  }

  /** Every accepted date is the rendering of the numbers its fields hold. */
  lemma AcceptedIsRendering(s: string)
    requires IsDateFormat(s)
    ensures RenderDate(DigitsValue(s[..4]), DigitsValue(s[5..7]), DigitsValue(s[8..])) == s
  {
    PadCanonical(s[..4]);
    PadCanonical(s[5..7]);
    PadCanonical(s[8..]);
    assert s == s[..4] + "-" + s[5..7] + "-" + s[8..];
  }

  // ---------------------------------------------------------------------------
  // 12-hour times
  // ---------------------------------------------------------------------------

  /** The capture groups of `/^(0?[1-9]|1[0-2]):([0-5][0-9])\s?(AM|PM|am|pm)$/`,
      with the optional white-space character kept as `sep`. */
  datatype TimeMatch = TimeMatch(hour: string, minutes: string, sep: string, period: string)

  /** `0?[1-9]|1[0-2]`. */
  predicate IsHourText(h: string) {
    (|h| == 1 && '1' <= h[0] <= '9')
    || (|h| == 2 && h[0] == '0' && '1' <= h[1] <= '9')
    || (|h| == 2 && h[0] == '1' && '0' <= h[1] <= '2')
  }

  /** `[0-5][0-9]`. */
  predicate IsMinuteText(m: string) {
    |m| == 2 && '0' <= m[0] <= '5' && IsDigit(m[1])
  }

  /** `\s?`. */
  predicate IsSeparator(sep: string) {
    sep == "" || (|sep| == 1 && IsWhitespace(sep[0]))
  }

  /** `AM|PM|am|pm`: mixed case is refused. */
  predicate IsPeriod(p: string) {
    p == "AM" || p == "PM" || p == "am" || p == "pm"
  }

  predicate IsMatch(m: TimeMatch) {
    IsHourText(m.hour) && IsMinuteText(m.minutes) && IsSeparator(m.sep) && IsPeriod(m.period)
  }

  /** The text a match was made from. */
  function MatchText(m: TimeMatch): string {
    m.hour + ":" + m.minutes + m.sep + m.period
  }

  /** `timeStr.match(timeRegex)`: the hour runs up to the colon at position 1
      or 2, then come two minute digits, at most one white-space character and
      the period. */
  function MatchTime(s: string): (r: Option<TimeMatch>)
    ensures r.Some? ==> IsMatch(r.value) && MatchText(r.value) == s
  {
    var h := if |s| >= 2 && s[1] == ':' then 1 else if |s| >= 3 && s[2] == ':' then 2 else 0;
    if h == 0 || |s| < h + 5 then None
    else
      var k := if |s| - (h + 3) == 3 then 1 else 0;
      var hour, minutes, sep, period := s[..h], s[h + 1..h + 3], s[h + 3..h + 3 + k], s[h + 3 + k..];
      if IsHourText(hour) && IsMinuteText(minutes) && IsSeparator(sep) && IsPeriod(period) then
        Reassemble(s, h, k);
        Some(TimeMatch(hour, minutes, sep, period))
      else None
  }

  /** Every text of the accepted shape is matched, with these groups. */
  lemma MatchTimeComplete(m: TimeMatch)
    requires IsMatch(m)
    ensures MatchTime(MatchText(m)) == Some(m)
  {
    var s := MatchText(m);
    Pieces(s, m.hour, m.minutes, m.sep, m.period);
  }

  /** A text cut at a colon and two places after it is the sum of its pieces. */
  lemma Reassemble(s: string, h: nat, k: nat)
    requires h + 3 + k <= |s| && s[h] == ':'
    ensures s == s[..h] + ":" + s[h + 1..h + 3] + s[h + 3..h + 3 + k] + s[h + 3 + k..]
  {
    var t := s[..h] + ":" + s[h + 1..h + 3] + s[h + 3..h + 3 + k] + s[h + 3 + k..];
    assert |t| == |s|;
    forall i | 0 <= i < |s| ensures t[i] == s[i] {
      if i < h {
      } else if i == h {
      } else if i < h + 3 {
        assert t[i] == s[h + 1..h + 3][i - h - 1];
      } else if i < h + 3 + k {
        assert t[i] == s[h + 3..h + 3 + k][i - h - 3];
      } else {
        assert t[i] == s[h + 3 + k..][i - h - 3 - k];
      }
    }
  }

  /** The pieces of a text put together around a colon can be cut out again. */
  lemma Pieces(s: string, a: string, b: string, c: string, d: string)
    requires s == a + ":" + b + c + d
    ensures |s| == |a| + 1 + |b| + |c| + |d| && s[|a|] == ':'
    ensures s[..|a|] == a && s[|a| + 1..|a| + 1 + |b|] == b && s[|a| + 1 + |b|..] == c + d
  {
    assert s[..|a|] == a;
    assert s[|a| + 1..|a| + 1 + |b|] == b;
    assert s[|a| + 1 + |b|..] == c + d;
  }

  /** `parseInt(timeMatch[1])`. */
  function HourValue(h: string): (n: nat)
    requires IsHourText(h)
    ensures 1 <= n <= 12
  {
    assert AllDigits(h);
    if |h| == 2 then
      TwoDigitsValue(h);
      DigitsValue(h)
    else
      assert h[..0] == [];
      assert DigitsValue(h) == DigitValue(h[0]);
      DigitsValue(h)
  }

  lemma ParseIntOfHour(h: string)
    requires IsHourText(h)
    ensures ParseInt(h) == Some(HourValue(h) as int)
  {
    assert TrimStart(h) == h;
    LeadingDigitsOfDigits(h);
  }

  /** `timeMatch[3].toUpperCase() === 'PM'`. */
  predicate IsPm(period: string) {
    period == "PM" || period == "pm"
  }

  /** The 12-to-24-hour step: add 12 after noon except at 12 PM, and 12 AM is 0. */
  function To24(hours: int, pm: bool): (r: int)
    requires 1 <= hours <= 12
    ensures 0 <= r <= 23
    ensures r >= 12 <==> pm
    ensures r % 12 == hours % 12
  {
    if pm && hours != 12 then hours + 12
    else if !pm && hours == 12 then 0
    else hours
  }

  /** The hour on a 12-hour clock and whether it is after noon. */
  function From24(h24: int): (r: (int, bool))
    requires 0 <= h24 <= 23
    ensures 1 <= r.0 <= 12
  {
    (if h24 % 12 == 0 then 12 else h24 % 12, h24 >= 12)
  }

  /** The conversion is one-to-one from the 24 twelve-hour readings onto the
      hours 0..23. */
  lemma To24Bijective(hours: int, pm: bool, h24: int)
    requires 1 <= hours <= 12 && 0 <= h24 <= 23
    ensures From24(To24(hours, pm)) == (hours, pm)
    ensures To24(From24(h24).0, From24(h24).1) == h24
  {
  }

  /** `hours.toString().padStart(2, '0')` for an hour of the day. */
  function HourText(hours: int): (t: string)
    requires 0 <= hours <= 23
    ensures |t| == 2 && AllDigits(t) && DigitsValue(t) == hours
  {
    TwoDigitPad(hours);
    PadZeros(NatToString(hours), 2)
  }

  /** `${hours.toString().padStart(2, '0')}:${minutes}`. */
  function Time24(m: TimeMatch): (r: string)
    requires IsMatch(m)
    ensures |r| == 5 && r[2] == ':' && AllDigits(r[..2])
    ensures DigitsValue(r[..2]) == To24(HourValue(m.hour), IsPm(m.period)) < 24
    ensures r[3..] == m.minutes
  {
    var t := HourText(To24(HourValue(m.hour), IsPm(m.period)));
    var r := t + ":" + m.minutes;
    assert r[..2] == t && r[3..] == m.minutes;
    r
  }

  /** The time check and conversion together: `None` is the invalid-time reply. */
  function ConvertTime(s: string): (r: Option<string>)
    ensures r.Some? <==> MatchTime(s).Some?
    ensures r.Some? ==> |r.value| == 5 && r.value[2] == ':' && AllDigits(r.value[..2]) && DigitsValue(r.value[..2]) < 24
  {
    match MatchTime(s)
    case None => None
    case Some(m) => Some(Time24(m))
  }

  /** A time written the way a person reads a 24-hour clock reading on a
      12-hour clock ("12:05 AM", "9:30 PM") converts back to that reading. */
  function Clock12(h24: int, minute: nat): string
    requires 0 <= h24 <= 23 && minute < 60
  {
    var (h, pm) := From24(h24);
    NatToString(h) + ":" + PadZeros(NatToString(minute), 2) + " " + (if pm then "PM" else "AM")
  }

  lemma Clock12Converts(h24: int, minute: nat)
    requires 0 <= h24 <= 23 && minute < 60
    ensures ConvertTime(Clock12(h24, minute))
            == Some(PadZeros(NatToString(h24), 2) + ":" + PadZeros(NatToString(minute), 2))
  {
    var h, pm := From24(h24).0, From24(h24).1;
    var m := Clock12Match(h24, minute);
    ConvertOfMatch(m);
    To24Bijective(h, pm, h24);
    Time24Of(m, h24);
  }

  /** The groups of the 12-hour text of a 24-hour reading. */
  function Clock12Match(h24: int, minute: nat): (m: TimeMatch)
    requires 0 <= h24 <= 23 && minute < 60
    ensures IsMatch(m) && MatchText(m) == Clock12(h24, minute)
    ensures HourValue(m.hour) == From24(h24).0 && IsPm(m.period) == From24(h24).1
    ensures m.minutes == PadZeros(NatToString(minute), 2)
  {
    var h, pm := From24(h24).0, From24(h24).1;
    HourNumeral(h);
    MinuteNumeral(minute);
    assert IsWhitespace(' ');
    TimeMatch(NatToString(h), PadZeros(NatToString(minute), 2), " ", if pm then "PM" else "AM")
  }

  /** A match converts to its 24-hour text. */
  lemma ConvertOfMatch(m: TimeMatch)
    requires IsMatch(m)
    ensures ConvertTime(MatchText(m)) == Some(Time24(m))
  {
    MatchTimeComplete(m);
  }

  lemma Time24Of(m: TimeMatch, h24: int)
    requires IsMatch(m) && 0 <= h24 <= 23 && To24(HourValue(m.hour), IsPm(m.period)) == h24
    ensures Time24(m) == PadZeros(NatToString(h24), 2) + ":" + m.minutes
  {
  }

  /** The numeral of an hour 1..12 is an hour text reading back as it. */
  lemma HourNumeral(h: int)
    requires 1 <= h <= 12
    ensures IsHourText(NatToString(h)) && HourValue(NatToString(h)) == h
  {
    NatToStringValue(h);
    if h >= 10 {
      assert NatToString(h) == NatToString(1) + [DigitChar(h % 10)];
    }
  }

  /** A minute 0..59 padded to two places is a minute text. */
  lemma MinuteNumeral(minute: nat)
    requires minute < 60
    ensures IsMinuteText(PadZeros(NatToString(minute), 2))
  {
    var s := PadZeros(NatToString(minute), 2);
    TwoDigitPad(minute);
    TwoDigitsValue(s);
  }

  // ---------------------------------------------------------------------------
  // The command
  // ---------------------------------------------------------------------------

  /** The command's options; the optional ones are `None` when not given. */
  datatype Options = Options(
    title: string, date: string, time: string,
    description: Option<string>, location: Option<string>,
    recurring: Option<string>, notifyRoleId: Option<string>, timezone: Option<string>)

  /** The record passed to `createEvent`. */
  datatype EventData = EventData(
    title: string, description: Option<string>, eventType: string,
    startDate: string, startTime: string, location: Option<string>, timezone: string,
    isRecurring: bool, recurrencePattern: Option<string>,
    discordGuildId: string, discordRoleIds: Option<seq<string>>, discordRoleId: Option<string>,
    projectId: Value)

  /** The reply: one of the three refusals, or the record to create. */
  datatype Reply = NotConfigured | InvalidDate | InvalidTime | Create(data: EventData)

  /** `option || fallback` for a string option. */
  function OrDefault(o: Option<string>, fallback: string): string {
    if o.Some? && o.value != "" then o.value else fallback
  }

  /** `config?.project_id || null`. */
  function ProjectId(config: Option<Config>): (v: Value)
    ensures v != Null ==> config.Some? && Field(config.value, "project_id") == Some(v) && Truthy(Some(v))
  {
    if config.Some? && Truthy(Field(config.value, "project_id")) then config.value["project_id"] else Null
  }

  /** `execute` up to `createEvent`: the configuration check, then the date,
      then the time; only a request passing all three reaches `createEvent`. */
  function ScheduleMeeting(store: ConfigStore, guildId: string, o: Options): (r: Reply)
    reads store
    ensures !store.IsGuildConfigured(guildId) ==> r == NotConfigured
    ensures store.IsGuildConfigured(guildId) && !IsDateFormat(o.date) ==> r == InvalidDate
    ensures store.IsGuildConfigured(guildId) && IsDateFormat(o.date) && ConvertTime(o.time).None? ==> r == InvalidTime
    ensures r.Create? <==> store.IsGuildConfigured(guildId) && IsDateFormat(o.date) && ConvertTime(o.time).Some?
    ensures r.Create? ==>
              var d := r.data;
              d.startDate == o.date && d.startTime == ConvertTime(o.time).value + ":00"
              && d.eventType == "meeting" && d.discordGuildId == guildId
              && (d.isRecurring <==> d.recurrencePattern.Some?)
              && (d.isRecurring <==> OrDefault(o.recurring, "none") != "none")
              && (d.recurrencePattern.Some? ==> d.recurrencePattern.value == o.recurring.value)
              && (d.discordRoleIds.Some? <==> o.notifyRoleId.Some?)
              && (o.notifyRoleId.Some? ==> d.discordRoleIds.value == [o.notifyRoleId.value])
              && (o.timezone.None? ==> d.timezone == "America/New_York")
  {
    if !store.IsGuildConfigured(guildId) then NotConfigured
    else
      var recurring := OrDefault(o.recurring, "none");
      var timezone := OrDefault(o.timezone, "America/New_York");
      if !IsDateFormat(o.date) then InvalidDate
      else
        match ConvertTime(o.time)
        case None => InvalidTime
        case Some(time24) =>
          Create(EventData(
            o.title, o.description, "meeting", o.date, time24 + ":00", o.location, timezone,
            recurring != "none", if recurring != "none" then Some(recurring) else None,
            guildId,
            if o.notifyRoleId.Some? then Some([o.notifyRoleId.value]) else None,
            o.notifyRoleId,
            ProjectId(store.GetGuildConfig(guildId))))
  }
}
