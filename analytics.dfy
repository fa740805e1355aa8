/** analytics.py: an append-only event log and one session counter per
    tracked user. Event and session ids are parameters (generate_id is
    random). */
module Analytics {
  import opened Common
  import opened Json
  import opened Utils
  import opened Counting
  import opened Sorting

  /** An event entry; `data` is the metadata dict, `userId` None when the
      caller passed none. */
  datatype EventEntry = EventEntry(id: string, event: string, data: seq<Field>, userId: Option<string>)

  datatype Session = Session(id: string, userId: string, eventCount: nat, lastEvent: Option<string>)

  /** create_event_entry: the event name is sanitised, the rest kept. */
  function CreateEventEntry(id: string, eventName: string, metadata: seq<Field>, userId: Option<string>): (r: EventEntry)
    ensures r.id == id && r.data == metadata && r.userId == userId
    ensures r.event == Sanitized(eventName) && '<' !in r.event && '>' !in r.event
  {
    EventEntry(id, Sanitized(eventName), metadata, userId)
  }

  /** create_session: a fresh session has counted nothing. */
  function CreateSession(id: string, userId: string): (r: Session)
    ensures r.id == id && r.userId == userId && r.eventCount == 0 && r.lastEvent.None?
  {
    Session(id, userId, 0, None)
  }

  /** `if user_id`: a user id that is given and not empty. */
  predicate Tracked(userId: Option<string>)
  {
    userId.Some? && userId.value != ""
  }

  function ByUser(u: string): EventEntry -> bool
  {
    (e: EventEntry) => e.userId == Some(u)
  }

  /** How many logged events carry user id u. */
  function EventsOf(events: seq<EventEntry>, u: string): nat
  {
    |Filter(events, ByUser(u))|
  }

  /** A user's session counter, 0 when there is no session. */
  function SessionCount(sessions: map<string, Session>, u: string): nat
  {
    if u in sessions then sessions[u].eventCount else 0
  }

  /** The event names in log order (`event.get("event", "unknown")`; every
      entry has one). */
  function Names(events: seq<EventEntry>): (r: seq<string>)
    ensures |r| == |events|
    ensures forall i :: 0 <= i < |events| ==> r[i] == events[i].event
  {
    seq(|events|, i requires 0 <= i < |events| => events[i].event)
  }

  /** The distinct non-empty user ids of the log. */
  function UsersOf(events: seq<EventEntry>): (r: set<string>)
    ensures |r| <= |events|
    ensures forall u :: u in r ==> u != ""
  {
    if events == [] then {}
    else
      var last := events[|events| - 1];
      UsersOf(events[..|events| - 1]) + (if Tracked(last.userId) then {last.userId.value} else {})
  }

  /** A user id is counted by count_unique_users exactly when some event
      carries it and it is not empty. */
  lemma {:induction false} UsersOfMember(events: seq<EventEntry>, u: string)
    ensures u in UsersOf(events) <==> u != "" && exists i :: 0 <= i < |events| && events[i].userId == Some(u)
  {
    if events != [] {
      var init := events[..|events| - 1];
      UsersOfMember(init, u);
      if u != "" && (exists i :: 0 <= i < |events| && events[i].userId == Some(u)) {
        var i :| 0 <= i < |events| && events[i].userId == Some(u);
        if i < |init| {
          assert init[i] == events[i];
        }
      }
      if exists i :: 0 <= i < |init| && init[i].userId == Some(u) {
        var i :| 0 <= i < |init| && init[i].userId == Some(u);
        assert events[i] == init[i];
      }
    }
  }

  lemma UsersOfPrefix(events: seq<EventEntry>, i: nat)
    requires i < |events|
    ensures UsersOf(events[..i + 1]) ==
              UsersOf(events[..i]) + (if Tracked(events[i].userId) then {events[i].userId.value} else {})
  {
    assert events[..i + 1][..i] == events[..i];
  }

  /** The key of get_top_events' sort, reversed: sorting by it in ascending
      order is sorted(..., reverse=True), which also keeps ties in order. */
  function NegCount(b: Bucket<string>): int
  {
    -(b.count as int)
  }

  class EventLog {
    /** _events */
    var events: seq<EventEntry>
    /** _sessions, by user id */
    var sessions: map<string, Session>

    /** Only tracked users have sessions, and each one's counter is the
        number of logged events carrying its user id. */
    ghost predicate Valid()
      reads this
    {
      && (forall u :: u in sessions ==> u != "" && sessions[u].userId == u)
      && (forall u :: u != "" ==> SessionCount(sessions, u) == EventsOf(events, u))
    }

    constructor()
      ensures Valid() && events == [] && sessions == map[]
    {
      events := [];
      sessions := map[];
    }

    /** update_session: creates the session on first use, then counts one
        more event and records its name. */
    method UpdateSession(userId: string, eventName: string, sessionId: string)
      modifies this
      ensures events == old(events)
      ensures sessions == old(sessions)[userId :=
                var s := if userId in old(sessions) then old(sessions)[userId] else CreateSession(sessionId, userId);
                s.(eventCount := s.eventCount + 1, lastEvent := Some(eventName))]
    {
      if userId !in sessions {
        sessions := sessions[userId := CreateSession(sessionId, userId)];
      }
      var session := sessions[userId];
      sessions := sessions[userId := session.(eventCount := session.eventCount + 1, lastEvent := Some(eventName))];
    }

    /** track_event: appends exactly one entry and, for a tracked user,
        counts it in that user's session. */
    method TrackEvent(eventName: string, metadata: seq<Field>, userId: Option<string>, eventId: string, sessionId: string)
      returns (entry: EventEntry)
      requires Valid()
      modifies this
      ensures Valid()
      ensures entry == CreateEventEntry(eventId, eventName, metadata, userId)
      ensures events == old(events) + [entry]
      ensures !Tracked(userId) ==> sessions == old(sessions)
      ensures Tracked(userId) ==>
                && sessions.Keys == old(sessions).Keys + {userId.value}
                && sessions[userId.value].eventCount == SessionCount(old(sessions), userId.value) + 1
                && sessions[userId.value].lastEvent == Some(eventName)
                && forall u :: u in old(sessions) && u != userId.value ==> sessions[u] == old(sessions)[u]
    {
      entry := CreateEventEntry(eventId, eventName, metadata, userId);
      events := events + [entry];
      if Tracked(userId) {
        UpdateSession(userId.value, eventName, sessionId);
      }
      forall u | u != "" ensures SessionCount(sessions, u) == EventsOf(events, u) {
        assert SessionCount(old(sessions), u) == EventsOf(old(events), u);
        FilterSnoc(old(events), entry, ByUser(u));
        assert ByUser(u)(entry) <==> Tracked(userId) && userId.value == u;
      }
    }

    /** count_by_type: one counter per event name, in first-seen order. */
    method CountByType() returns (r: seq<Bucket<string>>)
      ensures r == TallyOf(Names(events))
      ensures Total(r) == |events|
      ensures forall k :: CountOf(r, k) == Count(Names(events), k)
    {
      var names := Names(events);
      r := [];
      var i := 0;
      while i < |events|
        invariant 0 <= i <= |events|
        invariant r == TallyOf(names[..i])
      {
        assert names[..i + 1][..i] == names[..i];
        r := Bump(r, events[i].event);
        i := i + 1;
      }
      assert names[..i] == names;
      TallyTotal(names);
      forall k ensures CountOf(r, k) == Count(names, k) {
        TallyCount(names, k);
      }
    }

    /** count_unique_users: each non-empty user id once. */
    method CountUniqueUsers() returns (r: nat)
      ensures r == |UsersOf(events)|
      ensures r <= |events|
    {
      var users: set<string> := {};
      var i := 0;
      while i < |events|
        invariant 0 <= i <= |events|
        invariant users == UsersOf(events[..i])
      {
        UsersOfPrefix(events, i);
        var uid := events[i].userId;
        if Tracked(uid) {
          users := users + {uid.value};
        }
        i := i + 1;
      }
      assert events[..i] == events;
      r := |users|;
    }

    /** get_top_events: the counters by decreasing count, ties in first-seen
        order, cut to `limit`. */
    method GetTopEvents(limit: int) returns (r: seq<Bucket<string>>)
      ensures r == Take(SortBy(TallyOf(Names(events)), NegCount), limit)
      ensures 0 <= limit ==> |r| <= limit
      ensures forall i, j :: 0 <= i < j < |r| ==> r[i].count >= r[j].count
    {
      var counts := CountByType();
      var sorted := SortBy(counts, NegCount);
      SortBySorted(counts, NegCount);
      r := Take(sorted, limit);
      assert forall i, j :: 0 <= i < j < |r| ==> NegCount(sorted[i]) <= NegCount(sorted[j]);
    }

    /** clear_events: reports how many events there were and empties both
        the log and the sessions. */
    method ClearEvents() returns (count: nat)
      requires Valid()
      modifies this
      ensures Valid()
      ensures count == |old(events)|
      ensures events == [] && sessions == map[]
    {
      count := |events|;
      events := [];
      sessions := map[];
    }
  }
}
