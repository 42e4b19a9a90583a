/**
 * Minute counts written as "N minute(s)", "N hour(s)" or "N day(s)": the
 * largest whole unit that fits, rounded down, with the word in the plural
 * unless the count is exactly 1. The scheduler's reminder text
 * (src/services/reminderScheduler.js) and the reminder-settings reply
 * (src/commands/config-reminders.js) both use this wording.
 */
module Durations {
  import opened Wrappers
  import opened Text

  datatype Unit = Minute | Hour | Day {
    /** Minutes in one unit. */
    function Size(): nat {
      match this
      case Minute => 1
      case Hour => 60
      case Day => 1440
    }

    function Word(): string {
      match this
      case Minute => "minute"
      case Hour => "hour"
      case Day => "day"
    }
  }

  /** A positive number of minutes broken into the largest whole unit. */
  datatype Duration = Duration(count: nat, unit: Unit)

  /** `t` minutes in days when at least a day, in hours when at least an
      hour, otherwise in minutes; the count is rounded down. */
  function Breakdown(t: nat): (d: Duration)
    requires t >= 1
    ensures d.count >= 1
    ensures d.count * d.unit.Size() <= t < (d.count + 1) * d.unit.Size()
    ensures d.unit == Day <==> t >= 1440
    ensures d.unit == Minute <==> t < 60
  {
    if t >= 1440 then Duration(t / 1440, Day)
    else if t >= 60 then Duration(t / 60, Hour)
    else Duration(t, Minute)
  }

  /** `${n} unit${n !== 1 ? 's' : ''}`. */
  function Words(d: Duration): (r: string)
    ensures r != [] && (r[|r| - 1] == 's' <==> d.count != 1)
  {
    NatToString(d.count) + " " + d.unit.Word() + (if d.count != 1 then "s" else "")
  }

  /** The description of a positive minute count. */
  function Describe(t: nat): string
    requires t >= 1
  {
    Words(Breakdown(t))
  }

  /** `parseInt` of a description gives back the count of whole units. */
  lemma DescribeCount(t: nat)
    requires t >= 1
    ensures ParseInt(Describe(t)) == Some(Breakdown(t).count as int)
  {
    var d := Breakdown(t);
    var rest := " " + d.unit.Word() + (if d.count != 1 then "s" else "");
    assert Describe(t) == NatToString(d.count) + rest;
    ParseIntOfDecimalThen(d.count, rest);
  }

  /** A description is a single line. */
  lemma DescribeOneLine(t: nat)
    requires t >= 1
    ensures '\n' !in Describe(t)
  {
    var d := Breakdown(t);
    var n := NatToString(d.count);
    var rest := " " + d.unit.Word() + (if d.count != 1 then "s" else "");
    assert Describe(t) == n + rest;
    assert '\n' !in n by {
      forall i | 0 <= i < |n| ensures n[i] != '\n' {
        assert IsDigit(n[i]);
      }
    }
  }

  /** The word is singular exactly for one whole unit: 1 minute, 60 to 119
      minutes (one hour) and 1440 to 2879 minutes (one day); every other
      count ends in the plural "s". */
  lemma SingularExactly(t: nat)
    requires t >= 1
    ensures var d := Breakdown(t);
            (d.count == 1) <==> (t == 1 || 60 <= t < 120 || 1440 <= t < 2880)
    ensures var w := Describe(t);
            w != [] && ((w[|w| - 1] == 's') <==> !(t == 1 || 60 <= t < 120 || 1440 <= t < 2880))
  {
    var d := Breakdown(t);
    assert Describe(t) == Words(d);
  }
}
