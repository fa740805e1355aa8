/** notification_service.py: the notification table, the priority-sorted
    send queue and its batch processing, and the e-mail and SMS senders.
    Generated ids are parameters (generate_id is random). */
module NotificationService {
  import opened Common
  import opened Json
  import opened Tables
  import opened Sorting
  import opened Validators
  import opened Formatters
  import opened Models
  import opened Analytics

  // ---------------------------------------------------------------------
  // SMS truncation and dispatch

  const SmsLimit := 160

  /** truncate_sms: at most 160 characters, the cut marked by "...". */
  function TruncateSms(message: string): (r: string)
    ensures |message| <= SmsLimit ==> r == message
    ensures |message| > SmsLimit ==> |r| == SmsLimit && r[..157] == message[..157] && r[157..] == "..."
  {
    if |message| <= SmsLimit then message else message[..157] + "..."
  }

  /** dispatch_notification: succeeds exactly for the four known channels. */
  function DispatchNotification(notification: Notification): (r: bool)
    ensures r <==> notification.channel in {"email", "sms", "push", "webhook"}
  {
    var channel := notification.channel;
    if channel == "email" then true
    else if channel == "sms" then true
    else if channel == "push" then true
    else if channel == "webhook" then true
    else false
  }

  // ---------------------------------------------------------------------
  // The queue

  /** The "queued", "sent" and "failed" statuses of a queue entry. */
  datatype QueueStatus = Queued | Sent | SendFailed

  datatype QueueEntry = QueueEntry(id: string, notification: Notification, priority: int, status: QueueStatus)

  /** The sort key of sort_queue. */
  function Priority(e: QueueEntry): int
  {
    e.priority
  }

  /** An entry whose notification dispatches. */
  function Delivers(e: QueueEntry): bool
  {
    DispatchNotification(e.notification)
  }

  /** `e["status"] != "sent"` */
  function NotSent(e: QueueEntry): bool
  {
    e.status != Sent
  }

  /** A batch entry after the loop of process_queue set its status. */
  function Dispatched(e: QueueEntry): (r: QueueEntry)
    ensures r == e.(status := r.status) && (r.status == Sent <==> Delivers(e))
  {
    e.(status := if Delivers(e) then Sent else SendFailed)
  }

  function MarkBatch(batch: seq<QueueEntry>): (r: seq<QueueEntry>)
    ensures |r| == |batch|
    ensures forall i :: 0 <= i < |batch| ==> r[i] == Dispatched(batch[i])
  {
    seq(|batch|, i requires 0 <= i < |batch| => Dispatched(batch[i]))
  }

  /** _queue after process_queue(batch_size): the batch's entries that were
      not sent, marked, then everything beyond the batch. */
  function AfterBatch(queue: seq<QueueEntry>, batchSize: int): seq<QueueEntry>
  {
    Filter(MarkBatch(Take(queue, batchSize)), NotSent) + Drop(queue, batchSize)
  }

  /** The entries of a batch that are kept are exactly those that failed,
      and each is marked failed. */
  lemma {:induction false} KeptFailures(batch: seq<QueueEntry>)
    ensures |Filter(MarkBatch(batch), NotSent)| == |batch| - |Filter(batch, Delivers)|
    ensures forall e :: e in Filter(MarkBatch(batch), NotSent) ==> e.status == SendFailed
  {
    var kept := Filter(MarkBatch(batch), NotSent);
    forall e | e in kept ensures e.status == SendFailed {
      FilterMember(MarkBatch(batch), NotSent, e);
    }
    if batch != [] {
      assert MarkBatch(batch)[1..] == MarkBatch(batch[1..]);
      KeptFailures(batch[1..]);
    }
  }

  /** Filtering keeps a list sorted. */
  lemma {:induction false} FilterSorted<T>(s: seq<T>, keep: T -> bool, key: T -> int)
    requires SortedBy(s, key)
    ensures SortedBy(Filter(s, keep), key)
  {
    if s != [] {
      var tail := s[1..];
      assert SortedBy(tail, key) by {
        forall i, j | 0 <= i < j < |tail| ensures key(tail[i]) <= key(tail[j]) {
          assert tail[i] == s[i + 1] && tail[j] == s[j + 1];
        }
      }
      FilterSorted(tail, keep, key);
      var rest := Filter(tail, keep);
      forall j | 0 <= j < |rest| ensures key(s[0]) <= key(rest[j]) {
        var m :| 0 <= m < |tail| && tail[m] == rest[j];
        assert s[m + 1] == rest[j];
      }
    }
  }

  lemma SortedConcat<T>(a: seq<T>, b: seq<T>, key: T -> int)
    requires SortedBy(a, key) && SortedBy(b, key)
    requires forall i, j :: 0 <= i < |a| && 0 <= j < |b| ==> key(a[i]) <= key(b[j])
    ensures SortedBy(a + b, key)
  {
    var c := a + b;
    forall i, j | 0 <= i < j < |c| ensures key(c[i]) <= key(c[j]) {
      if j < |a| {
        assert c[i] == a[i] && c[j] == a[j];
      } else if i < |a| {
        assert c[i] == a[i] && c[j] == b[j - |a|];
      } else {
        assert c[i] == b[i - |a|] && c[j] == b[j - |a|];
      }
    }
  }

  /** Marking a batch keeps its priorities, so a sorted batch stays sorted
      and stays below whatever followed it. */
  lemma MarkBatchOrder(queue: seq<QueueEntry>, k: nat)
    requires SortedBy(queue, Priority) && k <= |queue|
    ensures SortedBy(MarkBatch(queue[..k]), Priority)
    ensures forall i, j :: 0 <= i < k && 0 <= j < |queue| - k ==>
              Priority(MarkBatch(queue[..k])[i]) <= Priority(queue[k..][j])
  {
    var marked := MarkBatch(queue[..k]);
    forall i | 0 <= i < k ensures Priority(marked[i]) == Priority(queue[i]) {
      assert queue[..k][i] == queue[i];
    }
    forall i, j | 0 <= i < k && 0 <= j < |queue| - k ensures Priority(marked[i]) <= Priority(queue[k..][j]) {
      assert queue[k..][j] == queue[k + j];
    }
  }

  /** process_queue keeps a priority-sorted queue sorted, and leaves the
      entries beyond the batch as they were, after the failed ones. */
  lemma AfterBatchSorted(queue: seq<QueueEntry>, batchSize: int)
    requires SortedBy(queue, Priority)
    ensures SortedBy(AfterBatch(queue, batchSize), Priority)
    ensures var kept := Filter(MarkBatch(Take(queue, batchSize)), NotSent);
            AfterBatch(queue, batchSize)[|kept|..] == Drop(queue, batchSize)
  {
    var k := SliceIndex(batchSize, |queue|);
    var tail := queue[k..];
    var marked := MarkBatch(queue[..k]);
    var kept := Filter(marked, NotSent);
    MarkBatchOrder(queue, k);
    FilterSorted(marked, NotSent, Priority);
    assert SortedBy(tail, Priority) by {
      forall i, j | 0 <= i < j < |tail| ensures Priority(tail[i]) <= Priority(tail[j]) {
        assert tail[i] == queue[k + i] && tail[j] == queue[k + j];
      }
    }
    forall i, j | 0 <= i < |kept| && 0 <= j < |tail| ensures Priority(kept[i]) <= Priority(tail[j]) {
      var m :| 0 <= m < |marked| && marked[m] == kept[i];
    }
    SortedConcat(kept, tail, Priority);
  }

  /** What process_queue leaves: the failed entries of the batch, each
      marked failed, followed by the untouched rest; the queue shrinks by
      the number of entries sent. */
  lemma AfterBatchShape(queue: seq<QueueEntry>, batchSize: int)
    ensures var sent := |Filter(Take(queue, batchSize), Delivers)|;
            var failed := |Take(queue, batchSize)| - sent;
            && |AfterBatch(queue, batchSize)| == |queue| - sent
            && AfterBatch(queue, batchSize)[failed..] == Drop(queue, batchSize)
            && forall i :: 0 <= i < failed ==> AfterBatch(queue, batchSize)[i].status == SendFailed
  {
    var batch := Take(queue, batchSize);
    var kept := Filter(MarkBatch(batch), NotSent);
    KeptFailures(batch);
    assert |Drop(queue, batchSize)| == |queue| - |batch|;
    forall i | 0 <= i < |kept| ensures AfterBatch(queue, batchSize)[i].status == SendFailed {
      assert AfterBatch(queue, batchSize)[i] == kept[i];
    }
  }

  /** The loop of process_queue: dispatches each entry of the batch in
      order, marks it "sent" or "failed", and counts both outcomes. */
  method DispatchBatch(batch: seq<QueueEntry>) returns (marked: seq<QueueEntry>, processed: nat, errors: nat)
    ensures marked == MarkBatch(batch)
    ensures processed == |Filter(batch, Delivers)|
    ensures processed + errors == |batch|
  {
    marked := [];
    processed, errors := 0, 0;
    var i := 0;
    while i < |batch|
      invariant 0 <= i <= |batch|
      invariant marked == MarkBatch(batch[..i])
      invariant processed == |Filter(batch[..i], Delivers)| && processed + errors == i
    {
      var done := batch[..i];
      assert batch[..i + 1] == done + [batch[i]];
      FilterSnoc(done, batch[i], Delivers);
      assert MarkBatch(done + [batch[i]]) == MarkBatch(done) + [Dispatched(batch[i])];
      if DispatchNotification(batch[i].notification) {
        marked := marked + [batch[i].(status := Sent)];
        processed := processed + 1;
      } else {
        marked := marked + [batch[i].(status := SendFailed)];
        errors := errors + 1;
      }
      i := i + 1;
    }
    assert batch[..i] == batch;
  }

  /** The counts process_queue reports. */
  datatype QueueReport = QueueReport(processed: nat, errors: nat, remaining: nat)

  /** [n for n in _notifications_db.values() if n["user_id"] == u], without
      the read ones when `unreadOnly`. */
  function Listed(userId: string, unreadOnly: bool): Notification -> bool
  {
    (n: Notification) => n.userId == userId && !(unreadOnly && n.read)
  }

  /** What a sender reports. */
  datatype SentReceipt = SentReceipt(id: string)

  /** The metadata track_event records for a sent notification. */
  function SentMetadata(channel: string, userId: string): seq<Field>
  {
    [Field("channel", JStr(channel)), Field("user_id", JStr(userId))]
  }

  class NotificationCenter {
    /** _notifications_db, in insertion order */
    var notifications: Table<Notification>
    /** _queue */
    var queue: seq<QueueEntry>

    /** The table is well formed and the queue is sorted by priority. */
    ghost predicate Valid()
      reads this
    {
      notifications.Valid() && SortedBy(queue, Priority)
    }

    constructor()
      ensures Valid() && notifications == Empty() && queue == []
    {
      notifications := Empty();
      queue := [];
    }

    /** queue_notification with sort_queue: the entry is appended and the
        queue stably re-sorted, which puts it after every entry of equal or
        lower priority and before every entry of higher priority. */
    method QueueNotification(notification: Notification, priority: int, entryId: string) returns (entry: QueueEntry)
      requires Valid()
      modifies this
      ensures Valid()
      ensures notifications == old(notifications)
      ensures entry == QueueEntry(entryId, notification, priority, Queued)
      ensures queue == SortBy(old(queue) + [entry], Priority)
      ensures var k := InsertIndex(old(queue), entry, Priority);
              && queue == old(queue)[..k] + [entry] + old(queue)[k..]
              && (forall i :: 0 <= i < k ==> old(queue)[i].priority <= priority)
              && (forall i :: k <= i < |old(queue)| ==> old(queue)[i].priority > priority)
      ensures multiset(queue) == multiset(old(queue)) + multiset{entry}
    {
      entry := QueueEntry(entryId, notification, priority, Queued);
      ghost var q := queue;
      AppendThenSort(q, entry, Priority);
      InsertBySplit(q, entry, Priority);
      InsertByMultiset(q, entry, Priority);
      queue := SortBy(queue + [entry], Priority);
      assert queue == InsertBy(q, entry, Priority);
    }

    /** process_queue: dispatches the first batch_size entries (a Python
        slice bound), marks each "sent" or "failed", and keeps the failed
        ones ahead of the rest of the queue. */
    method ProcessQueue(batchSize: int) returns (r: QueueReport)
      requires Valid()
      modifies this
      ensures Valid()
      ensures notifications == old(notifications)
      ensures queue == AfterBatch(old(queue), batchSize)
      ensures r.processed == |Filter(Take(old(queue), batchSize), Delivers)|
      ensures r.processed + r.errors == |Take(old(queue), batchSize)|
      ensures r.remaining == |queue| == |old(queue)| - r.processed
      ensures queue[r.errors..] == Drop(old(queue), batchSize)
      ensures forall i :: 0 <= i < r.errors ==> queue[i].status == SendFailed
    {
      var q := queue;
      AfterBatchSorted(q, batchSize);
      AfterBatchShape(q, batchSize);
      var marked, processed, errors := DispatchBatch(Take(q, batchSize));
      queue := Filter(marked, NotSent) + Drop(q, batchSize);
      r := QueueReport(processed, errors, |queue|);
    }

    /** The step both senders end with: store the notification, then track
        one "notification_sent" event for its user. */
    method StoreAndTrack(events: EventLog, n: Notification, eventId: string, sessionId: string)
      requires Valid() && events.Valid()
      modifies this, events
      ensures Valid() && events.Valid()
      ensures queue == old(queue)
      ensures notifications == old(notifications).Put(n.id, n)
      ensures events.events == old(events.events) +
                [CreateEventEntry(eventId, "notification_sent", SentMetadata(n.channel, n.userId), Some(n.userId))]
    {
      notifications := notifications.Put(n.id, n);
      var ignored := events.TrackEvent("notification_sent", SentMetadata(n.channel, n.userId), Some(n.userId), eventId, sessionId);
    }

    /** send_email: an invalid address is refused and nothing is stored or
        tracked; otherwise the notification (with its recipient) is stored
        and one "notification_sent" event is tracked. */
    method SendEmail(events: EventLog, userId: string, toEmail: string, subject: string, body: string,
                     notificationId: string, eventId: string, sessionId: string)
      returns (r: Response<SentReceipt>)
      requires Valid() && events.Valid()
      modifies this, events
      ensures Valid() && events.Valid()
      ensures queue == old(queue)
      ensures !ValidateEmail(toEmail) ==>
                && r == Fail("BAD_EMAIL", "Invalid email address")
                && notifications == old(notifications)
                && events.events == old(events.events) && events.sessions == old(events.sessions)
      ensures ValidateEmail(toEmail) ==>
                && r == Ok(SentReceipt(notificationId))
                && notifications == old(notifications).Put(notificationId,
                     CreateNotificationModel(notificationId, userId, "email", subject, body).(to := Some(toEmail)))
                && events.events == old(events.events) +
                     [CreateEventEntry(eventId, "notification_sent", SentMetadata("email", userId), Some(userId))]
    {
      if !ValidateEmail(toEmail) {
        return Fail("BAD_EMAIL", "Invalid email address");
      }
      var notification := CreateNotificationModel(notificationId, userId, "email", subject, body);
      notification := notification.(to := Some(toEmail));
      StoreAndTrack(events, notification, eventId, sessionId);
      r := Ok(SentReceipt(notification.id));
    }

    /** send_sms: an invalid number is refused and nothing is stored or
        tracked; otherwise the notification carries the number and the
        message cut to 160 characters. */
    method SendSms(events: EventLog, userId: string, phone: string, message: string,
                   notificationId: string, eventId: string, sessionId: string)
      returns (r: Response<SentReceipt>)
      requires Valid() && events.Valid()
      modifies this, events
      ensures Valid() && events.Valid()
      ensures queue == old(queue)
      ensures !ValidatePhone(phone) ==>
                && r == Fail("BAD_PHONE", "Invalid phone number")
                && notifications == old(notifications)
                && events.events == old(events.events) && events.sessions == old(events.sessions)
      ensures ValidatePhone(phone) ==>
                && r == Ok(SentReceipt(notificationId))
                && notifications == old(notifications).Put(notificationId,
                     CreateNotificationModel(notificationId, userId, "sms", "SMS", message)
                       .(to := Some(phone), message := Some(TruncateSms(message))))
                && events.events == old(events.events) +
                     [CreateEventEntry(eventId, "notification_sent", SentMetadata("sms", userId), Some(userId))]
    {
      if !ValidatePhone(phone) {
        return Fail("BAD_PHONE", "Invalid phone number");
      }
      var notification := CreateNotificationModel(notificationId, userId, "sms", "SMS", message);
      notification := notification.(to := Some(phone), message := Some(TruncateSms(message)));
      StoreAndTrack(events, notification, eventId, sessionId);
      r := Ok(SentReceipt(notification.id));
    }

    /** mark_read: NOT_FOUND for an unknown id; otherwise that notification
        becomes read and keeps its place. */
    method MarkRead(notificationId: string) returns (r: Response<bool>)
      requires Valid()
      modifies this
      ensures Valid()
      ensures queue == old(queue)
      ensures notificationId !in old(notifications.rows) ==>
                r == Fail("NOT_FOUND", "Notification not found") && notifications == old(notifications)
      ensures notificationId in old(notifications.rows) ==>
                && r == Ok(true)
                && notifications == old(notifications).Put(notificationId, old(notifications.rows)[notificationId].(read := true))
    {
      var found := notifications.Get(notificationId);
      if found.None? {
        return Fail("NOT_FOUND", "Notification not found");
      }
      notifications := notifications.Put(notificationId, found.value.(read := true));
      r := Ok(true);
    }

    /** list_notifications: a user's notifications in table order, without
        the read ones when `unreadOnly`. */
    method ListNotifications(userId: string, unreadOnly: bool) returns (r: seq<Notification>)
      requires Valid()
      ensures r == Filter(notifications.Values(), Listed(userId, unreadOnly))
      ensures forall n :: n in r <==> n in notifications.Values() && n.userId == userId && !(unreadOnly && n.read)
    {
      var all := notifications.Values();
      r := [];
      var i := 0;
      while i < |all|
        invariant 0 <= i <= |all|
        invariant r == Filter(all[..i], Listed(userId, unreadOnly))
      {
        assert all[..i + 1] == all[..i] + [all[i]];
        FilterSnoc(all[..i], all[i], Listed(userId, unreadOnly));
        var n := all[i];
        if n.userId == userId {
          if !(unreadOnly && n.read) {
            r := r + [n];
          }
        }
        i := i + 1;
      }
      assert all[..i] == all;
      forall n ensures n in r <==> n in all && n.userId == userId && !(unreadOnly && n.read) {
        FilterMember(all, Listed(userId, unreadOnly), n);
      }
    }

    /** get_unread_count: the count list_notifications(u, unread_only=True)
        reports. */
    method GetUnreadCount(userId: string) returns (count: nat)
      requires Valid()
      ensures count == |Filter(notifications.Values(), Listed(userId, true))|
    {
      var all := notifications.Values();
      count := 0;
      var i := 0;
      while i < |all|
        invariant 0 <= i <= |all|
        invariant count == |Filter(all[..i], Listed(userId, true))|
      {
        assert all[..i + 1] == all[..i] + [all[i]];
        FilterSnoc(all[..i], all[i], Listed(userId, true));
        if all[i].userId == userId && !all[i].read {
          count := count + 1;
        }
        i := i + 1;
      }
      assert all[..i] == all;
    }
  }

  /** Replacing one element that passes by one that does not lowers the
      filtered count by one. */
  lemma {:induction false} FilterCountUpdate<T>(s: seq<T>, i: nat, x: T, keep: T -> bool)
    requires i < |s| && keep(s[i]) && !keep(x)
    ensures |Filter(s[i := x], keep)| == |Filter(s, keep)| - 1
  {
    if i > 0 {
      assert s[i := x][1..] == s[1..][i - 1 := x];
      FilterCountUpdate(s[1..], i - 1, x, keep);
    } else {
      assert s[i := x][1..] == s[1..];
    }
  }

  /** mark_read on an unread notification of user u lowers u's unread count
      by one. */
  lemma MarkReadLowersUnread(t: Table<Notification>, id: string, userId: string)
    requires t.Valid() && id in t.rows && t.rows[id].userId == userId && !t.rows[id].read
    ensures |Filter(t.Put(id, t.rows[id].(read := true)).Values(), Listed(userId, true))| ==
            |Filter(t.Values(), Listed(userId, true))| - 1
  {
    var n := t.rows[id];
    PutExistingValues(t, id, n.(read := true));
    var i := IndexOf(t.keys, id);
    FilterCountUpdate(t.Values(), i, n.(read := true), Listed(userId, true));
  }

  // ---------------------------------------------------------------------
  // Templates

  /** Python's text.replace(pattern, replacement): every non-overlapping
      occurrence, scanning left to right. */
  function Replace(text: string, pattern: string, replacement: string): string
    requires pattern != []
    decreases |text|
  {
    if |text| < |pattern| then text
    else if text[..|pattern|] == pattern then replacement + Replace(text[|pattern|..], pattern, replacement)
    else [text[0]] + Replace(text[1..], pattern, replacement)
  }

  /** Text without the pattern is returned unchanged. */
  lemma {:induction false} ReplaceAbsent(text: string, pattern: string, replacement: string)
    requires pattern != [] && !Contains(text, pattern)
    ensures Replace(text, pattern, replacement) == text
    decreases |text|
  {
    if |text| >= |pattern| {
      assert text[0..] == text;
      assert !Contains(text[1..], pattern) by {
        forall i | 0 <= i <= |text[1..]| - |pattern| ensures !StartsWith(text[1..][i..], pattern) {
          assert text[1..][i..] == text[i + 1..];
        }
      }
      ReplaceAbsent(text[1..], pattern, replacement);
    }
  }

  /** "{{key}}" */
  function Placeholder(key: string): (p: string)
    ensures |p| == |key| + 4 && p[..2] == "{{"
  {
    "{{" + key + "}}"
  }

  /** Text containing no "{{" contains no placeholder. */
  lemma NoPlaceholder(text: string, key: string)
    requires !Contains(text, "{{")
    ensures !Contains(text, Placeholder(key))
  {
    var p := Placeholder(key);
    forall i | 0 <= i <= |text| - |p| ensures !StartsWith(text[i..], p) {
      if StartsWith(text[i..], p) {
        assert text[i..][..2] == p[..2];
        assert StartsWith(text[i..], "{{");
      }
    }
  }

  /** The replacements of substitute_variables, in the dict's order. */
  function SubstituteAll(text: string, variables: seq<Field>): string
  {
    if variables == [] then text
    else
      var v := variables[|variables| - 1];
      Replace(SubstituteAll(text, variables[..|variables| - 1]), Placeholder(v.key), PyStr(v.value))
  }

  /** substitute_variables: each "{{key}}" replaced by str(value); text
      without "{{" is returned unchanged. */
  method SubstituteVariables(text: string, variables: seq<Field>) returns (r: string)
    ensures r == SubstituteAll(text, variables)
    ensures !Contains(text, "{{") ==> r == text
  {
    r := text;
    var i := 0;
    while i < |variables|
      invariant 0 <= i <= |variables|
      invariant r == SubstituteAll(text, variables[..i])
      invariant !Contains(text, "{{") ==> r == text
    {
      assert variables[..i + 1][..i] == variables[..i];
      var v := variables[i];
      if !Contains(text, "{{") {
        NoPlaceholder(text, v.key);
        ReplaceAbsent(text, Placeholder(v.key), PyStr(v.value));
      }
      r := Replace(r, Placeholder(v.key), PyStr(v.value));
      i := i + 1;
    }
    assert variables[..i] == variables;
  }
}
