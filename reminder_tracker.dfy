/**
 * The ledger of reminders already sent (src/services/reminderTracker.js): a map
 * from the text key `guild:event:offset` to when the reminder was sent, with a
 * sweep that evicts entries older than seven days. Its presence test is the only
 * guard against sending a reminder twice.
 */
module ReminderTracker {
  import opened Text
  import opened Wrappers

  /** Seven days in milliseconds: how long a ledger entry is kept. */
  const RetentionMs: int := 7 * 24 * 60 * 60 * 1000

  /** The value stored under a key: when it was sent (milliseconds since the
      epoch) and the title used in log lines. */
  datatype SentRecord = SentRecord(sentAt: int, eventTitle: string)

  /** The ledger key `${guildId}:${eventId}:${reminderTime}`. */
  function ReminderKey(guildId: string, eventId: string, reminderTime: int): (k: string)
    ensures |k| == |guildId| + |eventId| + 2 + |IntToString(reminderTime)|
    ensures k[..|guildId|] == guildId && k[|guildId|] == ':'
    ensures k[|k| - |IntToString(reminderTime)|..] == IntToString(reminderTime)
  {
    guildId + ":" + eventId + ":" + IntToString(reminderTime)
  }

  /** The cut-off of a sweep run at `now`: entries sent strictly before it go. */
  function Cutoff(now: int): int {
    now - RetentionMs
  }

  /** The keys a sweep with this cut-off deletes. */
  function StaleKeys(m: map<string, SentRecord>, cutoff: int): set<string> {
    set k | k in m && m[k].sentAt < cutoff
  }

  /** The ledger a sweep with this cut-off leaves behind. */
  function Retained(m: map<string, SentRecord>, cutoff: int): map<string, SentRecord> {
    map k | k in m && m[k].sentAt >= cutoff :: m[k]
  }

  class ReminderLedger {
    /** `sentReminders`. */
    var sent: map<string, SentRecord>

    constructor()
      ensures sent == map[]
    {
      sent := map[];
    }

    /** `hasBeenSent(guildId, eventId, reminderTime)`. */
    predicate HasBeenSent(guildId: string, eventId: string, reminderTime: int)
      reads this
    {
      ReminderKey(guildId, eventId, reminderTime) in sent
    }

    /** `markAsSent`: records (or re-records) one key and touches no other. */
    method MarkAsSent(guildId: string, eventId: string, reminderTime: int, eventTitle: string, now: int)
      modifies this
      ensures sent == old(sent)[ReminderKey(guildId, eventId, reminderTime) := SentRecord(now, eventTitle)]
      ensures HasBeenSent(guildId, eventId, reminderTime)
      ensures forall k :: k != ReminderKey(guildId, eventId, reminderTime) ==>
                (k in sent <==> k in old(sent)) && (k in sent ==> sent[k] == old(sent)[k])
      ensures |sent| <= |old(sent)| + 1
    {
      sent := sent[ReminderKey(guildId, eventId, reminderTime) := SentRecord(now, eventTitle)];
    }

    /** `cleanupOldReminders`: deletes exactly the entries sent before the
        cut-off, one at a time, counting them. */
    method CleanupOldReminders(now: int) returns (cleaned: nat)
      modifies this
      ensures sent == Retained(old(sent), Cutoff(now))
      ensures cleaned == |StaleKeys(old(sent), Cutoff(now))|
      ensures cleaned == |old(sent)| - |sent|
    {
      var cutoff := Cutoff(now);
      ghost var original := sent;
      cleaned := 0;
      var pending := sent.Keys;
      while pending != {}
        invariant pending <= original.Keys
        invariant sent == Swept(original, cutoff, pending)
        invariant cleaned == |StaleKeys(original, cutoff) - pending|
        decreases pending
      {
        var k :| k in pending;
        SweepStep(original, cutoff, pending, k);
        if sent[k].sentAt < cutoff {
          sent := sent - {k};
          cleaned := cleaned + 1;
        }
        pending := pending - {k};
      }
      SweepDone(original, cutoff);
    }

    /** `loadReminders` with the file contents already parsed: the stored map
        replaces the ledger and is swept at once. */
    method LoadReminders(stored: map<string, SentRecord>, now: int)
      modifies this
      ensures sent == Retained(stored, Cutoff(now))
      ensures forall k :: k in sent ==> sent[k].sentAt >= Cutoff(now)
    {
      sent := stored;
      var _ := CleanupOldReminders(now);
    }

    /** `clearAll`. */
    method ClearAll()
      modifies this
      ensures sent == map[]
      ensures forall g, e, t :: !HasBeenSent(g, e, t)
    {
      sent := map[];
    }
  }

  /** The ledger part-way through a sweep: the keys still `pending` have not
      been looked at yet. */
  function Swept(m: map<string, SentRecord>, cutoff: int, pending: set<string>): map<string, SentRecord> {
    map k | k in m && (k in pending || m[k].sentAt >= cutoff) :: m[k]
  }

  /** Looking at one pending key deletes it if and only if it is stale. */
  lemma SweepStep(m: map<string, SentRecord>, cutoff: int, pending: set<string>, k: string)
    requires k in pending && pending <= m.Keys
    ensures k in Swept(m, cutoff, pending) && Swept(m, cutoff, pending)[k] == m[k]
    ensures m[k].sentAt < cutoff ==>
      Swept(m, cutoff, pending) - {k} == Swept(m, cutoff, pending - {k})
      && StaleKeys(m, cutoff) - (pending - {k}) == (StaleKeys(m, cutoff) - pending) + {k}
      && k !in StaleKeys(m, cutoff) - pending
    ensures m[k].sentAt >= cutoff ==>
      Swept(m, cutoff, pending) == Swept(m, cutoff, pending - {k})
      && StaleKeys(m, cutoff) - (pending - {k}) == StaleKeys(m, cutoff) - pending
  {
  }

  /** A sweep that has looked at every key leaves the retained part, and has
      deleted the stale keys. */
  lemma SweepDone(m: map<string, SentRecord>, cutoff: int)
    ensures Swept(m, cutoff, m.Keys) == m
    ensures Swept(m, cutoff, {}) == Retained(m, cutoff)
    ensures |StaleKeys(m, cutoff)| == |m| - |Retained(m, cutoff)|
  {
    RetainedSize(m, cutoff);
  }

  /** A sweep splits the ledger into what it keeps and what it deletes. */
  lemma RetainedSize(m: map<string, SentRecord>, cutoff: int)
    ensures Retained(m, cutoff).Keys == m.Keys - StaleKeys(m, cutoff)
    ensures |Retained(m, cutoff)| + |StaleKeys(m, cutoff)| == |m|
  {
    var r := Retained(m, cutoff);
    var stale := StaleKeys(m, cutoff);
    assert r.Keys == m.Keys - stale;
    assert m.Keys == r.Keys + stale;
    assert r.Keys !! stale;
  }

  /** Retention boundary: an entry sent exactly seven days before the sweep is
      kept, one sent a millisecond earlier is deleted. */
  lemma RetentionBoundary(m: map<string, SentRecord>, k: string, now: int)
    requires k in m
    ensures m[k].sentAt == now - RetentionMs ==> k in Retained(m, Cutoff(now))
    ensures m[k].sentAt == now - RetentionMs - 1 ==> k !in Retained(m, Cutoff(now))
  {
  }

  /** An entry marked at time `t` survives every sweep up to seven days later,
      so within that horizon the reminder cannot be sent again. */
  lemma MarkSurvivesSweep(m: map<string, SentRecord>, k: string, title: string, t: int, now: int)
    requires now <= t + RetentionMs
    ensures k in Retained(m[k := SentRecord(t, title)], Cutoff(now))
  {
  }

  /** Distinct (guild, event, offset) triples never share a ledger key, as long
      as guild ids contain no colon (Discord guild ids are digit strings). */
  lemma ReminderKeyInjective(g1: string, e1: string, t1: int, g2: string, e2: string, t2: int)
    requires ':' !in g1 && ':' !in g2
    requires ReminderKey(g1, e1, t1) == ReminderKey(g2, e2, t2)
    ensures g1 == g2 && e1 == e2 && t1 == t2
  {
    KeyShape(g1, e1, t1);
    KeyShape(g2, e2, t2);
    HeadColon(g1, e1 + ":" + IntToString(t1), g2, e2 + ":" + IntToString(t2));
    LastColon(e1, IntToString(t1), e2, IntToString(t2));
    IntToStringInjective(t1, t2);
  }

  lemma KeyShape(g: string, e: string, t: int)
    ensures ReminderKey(g, e, t) == g + ":" + (e + ":" + IntToString(t))
  {
  }

  /** Two strings `g + ":" + w` with colon-free heads agree only when the
      heads and the tails agree. */
  lemma HeadColon(g1: string, w1: string, g2: string, w2: string)
    requires ':' !in g1 && ':' !in g2
    requires g1 + ":" + w1 == g2 + ":" + w2
    ensures g1 == g2 && w1 == w2
  {
    FirstColon(g1, w1);
    FirstColon(g2, w2);
    var k := g1 + ":" + w1;
    assert g1 == k[..|g1|] == g2;
    assert w1 == k[|g1| + 1..] == w2;
  }

  /** The first colon of `g + ":" + rest` is the one after `g`. */
  lemma FirstColon(g: string, rest: string)
    requires ':' !in g
    ensures IndexOf(g + ":" + rest, ":") == Some(|g|)
  {
    var s := g + ":" + rest;
    assert s[|g|..|g| + 1] == ":";
    assert OccursAt(s, ":", |g|);
    forall i | 0 <= i < |g| ensures !OccursAt(s, ":", i) {
      assert s[i] == g[i];
    }
  }

  /** Two strings `e + ":" + t` with colon-free tails agree only when the
      heads and the tails agree. */
  lemma LastColon(e1: string, t1: string, e2: string, t2: string)
    requires ':' !in t1 && ':' !in t2
    requires e1 + ":" + t1 == e2 + ":" + t2
    ensures e1 == e2 && t1 == t2
  {
    var w := e1 + ":" + t1;
    assert w[|e1|] == ':';
    assert w[|e2|] == ':';
    assert forall j :: |e1| < j < |w| ==> w[j] == t1[j - |e1| - 1];
    assert forall j :: |e2| < j < |w| ==> w[j] == t2[j - |e2| - 1];
    assert |e1| <= |e2| && |e2| <= |e1|;
    assert e1 == w[..|e1|] == e2;
    assert t1 == w[|e1| + 1..] == t2;
  }

  /** A written integer starts with a minus sign exactly when it is negative. */
  lemma SignOfIntToString(x: int)
    ensures (IntToString(x)[0] == '-') <==> x < 0
  {
    if x >= 0 {
      assert IsDigit(NatToString(x)[0]);
    }
  }

  /** Different integers are written differently. */
  lemma IntToStringInjective(a: int, b: int)
    requires IntToString(a) == IntToString(b)
    ensures a == b
  {
    SignOfIntToString(a);
    SignOfIntToString(b);
    if a < 0 {
      var na, nb := NatToString(-a), NatToString(-b);
      assert na == ("-" + na)[1..];
      assert nb == ("-" + nb)[1..];
      NatToStringInjective(-a, -b);
    } else {
      NatToStringInjective(a, b);
    }
  }

  lemma NatToStringInjective(m: nat, n: nat)
    requires NatToString(m) == NatToString(n)
    ensures m == n
  {
    NatToStringValue(m);
    NatToStringValue(n);
  }
}
