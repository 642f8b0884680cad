/** The Notification collection (models/Notification.js) and the two
    notification routes (routes/notificationRoutes.js): fetch by user and
    clear by user. The collection is a sequence in insertion order. */
module NotificationStore {
  import opened Base

  /** One persisted notification record; `kind` is the record's `type` tag
      ("task", "task-updated", "task-delete", "profile"). */
  datatype Notification = Notification(userId: Id, message: string, kind: string, date: int)

  /** GET /:userId: the records addressed to `u`, in store order. */
  function ForUser(s: seq<Notification>, u: Id): (r: seq<Notification>)
    ensures |r| <= |s|
    ensures forall i :: 0 <= i < |r| ==> r[i].userId == u
    ensures forall n :: n in r <==> n in s && n.userId == u
  {
    if s == [] then []
    else if s[0].userId == u then [s[0]] + ForUser(s[1..], u)
    else ForUser(s[1..], u)
  }

  /** What `deleteMany({ userId: u })` leaves behind: every record that is not
      addressed to `u`, in store order. */
  function Without(s: seq<Notification>, u: Id): (r: seq<Notification>)
    ensures |r| <= |s|
    ensures forall i :: 0 <= i < |r| ==> r[i].userId != u
    ensures forall n :: n in r <==> n in s && n.userId != u
  {
    if s == [] then []
    else if s[0].userId == u then Without(s[1..], u)
    else [s[0]] + Without(s[1..], u)
  }

  /** Fetching distributes over appending records: a record appended for one
      user shows up at the end of that user's fetch and nowhere else. */
  lemma {:induction false} ForUserAppend(s: seq<Notification>, t: seq<Notification>, u: Id)
    ensures ForUser(s + t, u) == ForUser(s, u) + ForUser(t, u)
  {
    if s == [] {
      assert s + t == t;
    } else {
      assert (s + t)[1..] == s[1..] + t;
      ForUserAppend(s[1..], t, u);
    }
  }

  /** Clearing splits the collection: the records removed are exactly the
      user's fetch, the rest stay, so nothing is lost or duplicated. */
  lemma {:induction false} ClearPartitions(s: seq<Notification>, u: Id)
    ensures |ForUser(s, u)| + |Without(s, u)| == |s|
    ensures multiset(ForUser(s, u)) + multiset(Without(s, u)) == multiset(s)
  {
    if s != [] {
      ClearPartitions(s[1..], u);
      assert s == [s[0]] + s[1..];
    }
  }

  /** A fetch right after a clear returns nothing. */
  lemma FetchAfterClearIsEmpty(s: seq<Notification>, u: Id)
    ensures ForUser(Without(s, u), u) == []
  {
  }

  /** Clearing one user's notifications leaves every other user's
      notifications untouched and in their order. */
  lemma {:induction false} ClearKeepsOthers(s: seq<Notification>, u: Id, v: Id)
    requires v != u
    ensures ForUser(Without(s, u), v) == ForUser(s, v)
  {
    if s != [] {
      ClearKeepsOthers(s[1..], u, v);
    }
  }

  /** Clearing twice is clearing once. */
  lemma {:induction false} ClearIdempotent(s: seq<Notification>, u: Id)
    ensures Without(Without(s, u), u) == Without(s, u)
  {
    if s != [] {
      ClearIdempotent(s[1..], u);
    }
  }

  /** Clearing a user who has no notifications leaves the collection as it is. */
  lemma {:induction false} ClearOfAbsentUserIsIdentity(s: seq<Notification>, u: Id)
    requires ForUser(s, u) == []
    ensures Without(s, u) == s
  {
    if s != [] {
      ClearOfAbsentUserIsIdentity(s[1..], u);
      assert s == [s[0]] + s[1..];
    }
  }

  /** The Notification collection, shared by the task and user routes. */
  class NotificationLog {
    var records: seq<Notification>

    constructor ()
      ensures records == []
    {
      records := [];
    }

    /** `Notification.create`: persists one record stamped with the current
        time `now` (the schema's `Date.now` default). */
    method Create(userId: Id, message: string, kind: string, now: int)
      modifies this
      ensures records == old(records) + [Notification(userId, message, kind, now)]
    {
      records := records + [Notification(userId, message, kind, now)];
    }

    /** DELETE /:userId: removes every record of `u` and answers with the same
        confirmation whether or not there was anything to remove. */
    method Clear(u: Id) returns (status: int)
      modifies this
      ensures records == Without(old(records), u)
      ensures status == Ok
    {
      records := Without(records, u);
      status := Ok;
    }
  }

  /** Two clears in a row: both confirm, the second changes nothing, and the
      user's fetch is empty afterwards. */
  method ClearTwice(log: NotificationLog, u: Id) returns (first: int, second: int)
    modifies log
    ensures first == Ok && second == Ok
    ensures log.records == Without(old(log.records), u)
    ensures ForUser(log.records, u) == []
  {
    first := log.Clear(u);
    second := log.Clear(u);
    ClearIdempotent(old(log.records), u);
    FetchAfterClearIsEmpty(old(log.records), u);
  }
}
