/**
 * RSVP records per reminder message (src/services/rsvpTracker.js). Each record
 * keeps the event title fixed at creation and a `responses` object from user id
 * to that user's latest answer. The object is modelled as the list of its
 * entries in key order (insertion order, which is JavaScript's order for
 * non-index keys such as Discord snowflakes): writing an existing key updates
 * its entry in place, writing a new key appends one.
 */
module RsvpTracker {
  import opened Wrappers

  const Accepted: string := "accepted"
  const Declined: string := "declined"
  const Maybe: string := "maybe"

  /** The data stored for one user: `{ userTag, status, timestamp }`. */
  datatype ResponseData = ResponseData(userTag: string, status: string, timestamp: int)

  /** One entry of the `responses` object. */
  datatype Entry = Entry(userId: string, data: ResponseData)

  datatype RsvpRecord = RsvpRecord(eventTitle: string, responses: seq<Entry>)

  datatype Stats = Stats(accepted: nat, declined: nat, maybe: nat)

  /** One item of `getRSVPs`: `{ userId, ...data }`. */
  datatype RsvpItem = RsvpItem(userId: string, userTag: string, status: string, timestamp: int)

  /** The record key `${guildId}:${messageId}`. */
  function RsvpKey(guildId: string, messageId: string): (k: string)
    ensures |k| == |guildId| + 1 + |messageId|
    ensures k[..|guildId|] == guildId && k[|guildId|] == ':' && k[|guildId| + 1..] == messageId
  {
    guildId + ":" + messageId
  }

  predicate IsKnownStatus(s: string) {
    s == Accepted || s == Declined || s == Maybe
  }

  /** Each user has at most one entry. */
  predicate DistinctUsers(rs: seq<Entry>) {
    forall i, j :: 0 <= i < j < |rs| ==> rs[i].userId != rs[j].userId
  }

  /** `responses[userId]`. */
  function Lookup(rs: seq<Entry>, userId: string): (r: Option<ResponseData>)
    ensures r.Some? <==> exists i :: 0 <= i < |rs| && rs[i].userId == userId
  {
    if rs == [] then None
    else if rs[0].userId == userId then Some(rs[0].data)
    else
      var r := Lookup(rs[1..], userId);
      assert forall i :: 1 <= i < |rs| ==> rs[i] == rs[1..][i - 1];
      r
  }

  /** `responses[userId] = data`: the user's answer is set and every other
      user's answer is kept; the object gains an entry only for a new user. */
  function SetResponse(rs: seq<Entry>, userId: string, data: ResponseData): (r: seq<Entry>)
    ensures Lookup(r, userId) == Some(data)
    ensures forall u :: u != userId ==> Lookup(r, u) == Lookup(rs, u)
    ensures |r| == if Lookup(rs, userId).Some? then |rs| else |rs| + 1
    ensures DistinctUsers(rs) ==> DistinctUsers(r)
  {
    if rs == [] then [Entry(userId, data)]
    else if rs[0].userId == userId then
      var r := [Entry(userId, data)] + rs[1..];
      assert r[1..] == rs[1..];
      r
    else
      var tail := SetResponse(rs[1..], userId, data);
      var r := [rs[0]] + tail;
      assert r[1..] == tail;
      assert DistinctUsers(rs) ==> DistinctUsers(r) by {
        if DistinctUsers(rs) {
          DistinctUncons(rs);
          DistinctCons(rs[0], tail);
        }
      }
      r
  }

  /** The tail of a list with one entry per user has one entry per user,
      none of them the head's. */
  lemma DistinctUncons(rs: seq<Entry>)
    requires rs != [] && DistinctUsers(rs)
    ensures DistinctUsers(rs[1..]) && Lookup(rs[1..], rs[0].userId).None?
  {
    var tail := rs[1..];
    forall i, j | 0 <= i < j < |tail| ensures tail[i].userId != tail[j].userId {
      assert tail[i] == rs[i + 1] && tail[j] == rs[j + 1];
    }
    forall i | 0 <= i < |tail| ensures tail[i].userId != rs[0].userId {
      assert tail[i] == rs[i + 1];
    }
  }

  /** A new head whose user is missing from the tail keeps one entry per user. */
  lemma DistinctCons(e: Entry, tail: seq<Entry>)
    requires DistinctUsers(tail) && Lookup(tail, e.userId).None?
    ensures DistinctUsers([e] + tail)
  {
    var r := [e] + tail;
    forall i, j | 0 <= i < j < |r| ensures r[i].userId != r[j].userId {
      assert r[j] == tail[j - 1];
      if i > 0 {
        assert r[i] == tail[i - 1];
      }
    }
  }

  /** How many entries have the given status. */
  function CountStatus(rs: seq<Entry>, status: string): nat {
    if rs == [] then 0
    else (if rs[0].data.status == status then 1 else 0) + CountStatus(rs[1..], status)
  }

  lemma {:induction false} CountStatusAppend(a: seq<Entry>, b: seq<Entry>, status: string)
    ensures CountStatus(a + b, status) == CountStatus(a, status) + CountStatus(b, status)
    decreases |a|
  {
    if a != [] {
      assert (a + b)[1..] == a[1..] + b;
      CountStatusAppend(a[1..], b, status);
    } else {
      assert a + b == b;
    }
  }

  /** The tally `getRSVPStats` computes, as a function of the entries. */
  function Tally(rs: seq<Entry>): Stats {
    Stats(CountStatus(rs, Accepted), CountStatus(rs, Declined), CountStatus(rs, Maybe))
  }

  /** When every answer is one of the three statuses, the three counts add up
      to the number of entries: nobody is counted twice or left out. */
  lemma {:induction false} TallyTotal(rs: seq<Entry>)
    requires forall i :: 0 <= i < |rs| ==> IsKnownStatus(rs[i].data.status)
    ensures Tally(rs).accepted + Tally(rs).declined + Tally(rs).maybe == |rs|
  {
    if rs != [] {
      TallyTotal(rs[1..]);
    }
  }

  /** The users whose current answer is `status`. */
  function UsersWith(rs: seq<Entry>, status: string): set<string> {
    set i | 0 <= i < |rs| && rs[i].data.status == status :: rs[i].userId
  }

  /** With one entry per user, each count is the number of users giving that answer. */
  lemma {:induction false} CountIsUsers(rs: seq<Entry>, status: string)
    requires DistinctUsers(rs)
    ensures CountStatus(rs, status) == |UsersWith(rs, status)|
  {
    if rs != [] {
      var tail := rs[1..];
      DistinctUncons(rs);
      CountIsUsers(tail, status);
      UsersWithUncons(rs, status);
      assert rs[0].userId !in UsersWith(tail, status);
      var here: set<string> := if rs[0].data.status == status then {rs[0].userId} else {};
      assert |here + UsersWith(tail, status)| == |here| + |UsersWith(tail, status)|;
    }
  }

  /** The users of a list are those of its head and those of its tail. */
  lemma UsersWithUncons(rs: seq<Entry>, status: string)
    requires rs != []
    ensures UsersWith(rs, status)
            == (if rs[0].data.status == status then {rs[0].userId} else {}) + UsersWith(rs[1..], status)
  {
    var tail := rs[1..];
    var here: set<string> := if rs[0].data.status == status then {rs[0].userId} else {};
    forall u | u in UsersWith(rs, status) ensures u in here + UsersWith(tail, status) {
      var i :| 0 <= i < |rs| && rs[i].data.status == status && rs[i].userId == u;
      if i > 0 {
        assert tail[i - 1] == rs[i];
      }
    }
    forall u | u in UsersWith(tail, status) ensures u in UsersWith(rs, status) {
      var i :| 0 <= i < |tail| && tail[i].data.status == status && tail[i].userId == u;
      assert rs[i + 1] == tail[i];
    }
  }

  /** Changing one user's answer moves that user's vote: the old status loses
      one, the new status gains one, and no other count moves. */
  lemma {:induction false} ChangeMovesOneVote(rs: seq<Entry>, userId: string, data: ResponseData, status: string)
    requires DistinctUsers(rs)
    ensures CountStatus(SetResponse(rs, userId, data), status)
         == CountStatus(rs, status)
            - (if Lookup(rs, userId).Some? && Lookup(rs, userId).value.status == status then 1 else 0)
            + (if data.status == status then 1 else 0)
  {
    if rs != [] {
      if rs[0].userId == userId {
        assert SetResponse(rs, userId, data)[1..] == rs[1..];
      } else {
        ChangeMovesOneVote(rs[1..], userId, data, status);
        assert SetResponse(rs, userId, data)[1..] == SetResponse(rs[1..], userId, data);
      }
    }
  }

  /** The item `getRSVPs` builds from one entry. */
  function ToItem(e: Entry): RsvpItem {
    RsvpItem(e.userId, e.data.userTag, e.data.status, e.data.timestamp)
  }

  class RsvpStore {
    /** `rsvps`. */
    var rsvps: map<string, RsvpRecord>

    ghost predicate Valid()
      reads this
    {
      forall k :: k in rsvps ==> DistinctUsers(rsvps[k].responses)
    }

    constructor()
      ensures Valid() && rsvps == map[]
    {
      rsvps := map[];
    }

    /** `trackRSVP`: creates the record (with this title and no responses) only
        if none exists, then sets the user's answer. */
    method TrackRsvp(guildId: string, messageId: string, userId: string, userTag: string,
                     status: string, eventTitle: string, now: int)
      requires Valid()
      modifies this
      ensures Valid()
      ensures RsvpKey(guildId, messageId) in rsvps
      ensures forall k :: k != RsvpKey(guildId, messageId) ==>
                (k in rsvps <==> k in old(rsvps)) && (k in rsvps ==> rsvps[k] == old(rsvps)[k])
      ensures var key := RsvpKey(guildId, messageId);
              var before := if key in old(rsvps) then old(rsvps)[key] else RsvpRecord(eventTitle, []);
              rsvps[key] == RsvpRecord(before.eventTitle,
                                       SetResponse(before.responses, userId, ResponseData(userTag, status, now)))
      ensures var key := RsvpKey(guildId, messageId);
              key in old(rsvps) ==> |rsvps[key].responses| >= |old(rsvps)[key].responses|
    {
      var key := RsvpKey(guildId, messageId);
      if key !in rsvps {
        rsvps := rsvps[key := RsvpRecord(eventTitle, [])];
      }
      var record := rsvps[key];
      rsvps := rsvps[key := record.(responses := SetResponse(record.responses, userId, ResponseData(userTag, status, now)))];
    }

    /** `getRSVPStats`: counts the answers of one record, all zero when there is
        no record. */
    method GetRsvpStats(guildId: string, messageId: string) returns (stats: Stats)
      ensures RsvpKey(guildId, messageId) !in rsvps ==> stats == Stats(0, 0, 0)
      ensures RsvpKey(guildId, messageId) in rsvps ==>
                stats == Tally(rsvps[RsvpKey(guildId, messageId)].responses)
    {
      var key := RsvpKey(guildId, messageId);
      if key !in rsvps {
        return Stats(0, 0, 0);
      }
      var rs := rsvps[key].responses;
      stats := Stats(0, 0, 0);
      var i := 0;
      while i < |rs|
        invariant 0 <= i <= |rs|
        invariant stats == Tally(rs[..i])
      {
        CountStatusAppend(rs[..i], [rs[i]], Accepted);
        CountStatusAppend(rs[..i], [rs[i]], Declined);
        CountStatusAppend(rs[..i], [rs[i]], Maybe);
        assert rs[..i + 1] == rs[..i] + [rs[i]];
        var s := rs[i].data.status;
        if s == Accepted {
          stats := stats.(accepted := stats.accepted + 1);
        } else if s == Declined {
          stats := stats.(declined := stats.declined + 1);
        } else if s == Maybe {
          stats := stats.(maybe := stats.maybe + 1);
        }
        i := i + 1;
      }
      assert rs[..i] == rs;
    }

    /** `getRSVPs`: one item per responding user, in key order; `[]` for an
        unknown message. */
    function GetRsvps(guildId: string, messageId: string): (items: seq<RsvpItem>)
      reads this
      ensures RsvpKey(guildId, messageId) !in rsvps ==> items == []
      ensures RsvpKey(guildId, messageId) in rsvps ==>
                var rs := rsvps[RsvpKey(guildId, messageId)].responses;
                |items| == |rs| && forall i :: 0 <= i < |rs| ==> items[i] == ToItem(rs[i])
    {
      var key := RsvpKey(guildId, messageId);
      if key !in rsvps then []
      else
        var rs := rsvps[key].responses;
        seq(|rs|, i requires 0 <= i < |rs| => ToItem(rs[i]))
    }
  }
}
