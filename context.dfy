/**
 * The store (NewsletterContext): one table per entity type, the generic
 * get/add/update/delete operations over them, and the soft-delete query
 * filter that hides deleted rows from every read. The clock the source reads
 * with `DateTime.UtcNow` is a counter here that advances on every reading, so
 * the instants it hands out strictly increase.
 */
module Data {

  import opened Common
  import opened Entities
  import Text
  import Seqs

  /** The exceptions the services raise, with their messages (`Exception.Message`). */
  datatype Error =
    | KeyNotFound(message: string)
    | InvalidOperation(message: string)
    | Argument(message: string)

  /** The store's own KeyNotFound message. */
  function Missing(kind: string, id: Id): Error
  {
    KeyNotFound("Entity of type " + kind + " with id " + Text.NatText(id) + " not found")
  }

  /** The services' KeyNotFound message, `"<what> with ID <id> not found."`. */
  function NotFound(what: string, id: Id): Error
  {
    KeyNotFound(what + " with ID " + Text.NatText(id) + " not found.")
  }

  /** A value, or the exception that was thrown instead. */
  datatype Result<+T> = Ok(value: T) | Fail(error: Error)

  /** The soft-delete query filter: a row is visible unless it is marked deleted. */
  predicate Visible<T>(e: Entity<T>)
  {
    !e.isDeleted
  }

  /** The rows every query reads: the visible ones, in table order. */
  function Live<T(!new)>(rows: seq<Entity<T>>): (r: seq<Entity<T>>)
    ensures forall e :: e in r <==> e in rows && !e.isDeleted
    ensures |r| <= |rows|
  {
    Seqs.Filter(rows, Visible)
  }

  /** Position of the visible row with identifier `id`, if any. */
  function FindLive<T>(rows: seq<Entity<T>>, id: Id): (r: Option<nat>)
    ensures r.Some? ==> r.value < |rows| && rows[r.value].id == id && !rows[r.value].isDeleted
    ensures r.None? ==> forall i :: 0 <= i < |rows| ==> rows[i].id != id || rows[i].isDeleted
  {
    if rows == [] then None
    else if rows[0].id == id && !rows[0].isDeleted then Some(0)
    else
      match FindLive(rows[1..], id)
      case None => None
      case Some(j) => Some(j + 1)
  }

  /** Two tables with the same identifiers and deletion flags at every position answer lookups alike. */
  lemma {:induction false} FindLiveSameKeys<T, U>(a: seq<Entity<T>>, b: seq<Entity<U>>, id: Id)
    requires |a| == |b|
    requires forall i :: 0 <= i < |a| ==> a[i].id == b[i].id && a[i].isDeleted == b[i].isDeleted
    ensures FindLive(a, id) == FindLive(b, id)
  {
    if a != [] {
      FindLiveSameKeys(a[1..], b[1..], id);
    }
  }

  /** Identifiers are pairwise distinct. */
  ghost predicate UniqueIds<T>(rows: seq<Entity<T>>)
  {
    forall i, j :: 0 <= i < j < |rows| ==> rows[i].id != rows[j].id
  }

  /** A query over rows with distinct identifiers returns rows with distinct identifiers. */
  lemma {:induction false} FilterUniqueIds<T(!new)>(s: seq<Entity<T>>, p: Entity<T> -> bool)
    requires UniqueIds(s)
    ensures UniqueIds(Seqs.Filter(s, p))
  {
    if s != [] {
      assert forall i, j :: 0 <= i < j < |s| - 1 ==> s[1..][i] == s[i + 1] && s[1..][j] == s[j + 1];
      FilterUniqueIds(s[1..], p);
      var r := Seqs.Filter(s[1..], p);
      if p(s[0]) {
        forall x | x in r ensures x.id != s[0].id {
          var m :| 0 <= m < |s[1..]| && s[1..][m] == x;
          assert s[m + 1] == x;
        }
        var r' := [s[0]] + r;
        forall i, j | 0 <= i < j < |r'| ensures r'[i].id != r'[j].id {
          assert r'[j] == r[j - 1] && r[j - 1] in r;
          if i > 0 {
            assert r'[i] == r[i - 1];
          }
        }
      }
    }
  }

  /**
   * `after` is `before` where the visible row `id` now holds `data`, every
   * other row and the row's identity staying as they were.
   */
  ghost predicate Rewritten<T>(before: seq<Entity<T>>, after: seq<Entity<T>>, id: Id, data: T)
  {
    match FindLive(before, id)
    case None => false
    case Some(i) =>
      && |after| == |before| && after == before[i := after[i]]
      && after[i].id == id && !after[i].isDeleted && after[i].data == data
  }

  /** Two rewrites of the same row in a row compose into one. */
  lemma RewrittenTrans<T>(a: seq<Entity<T>>, b: seq<Entity<T>>, c: seq<Entity<T>>, id: Id, first: T, second: T)
    requires Rewritten(a, b, id, first) && Rewritten(b, c, id, second)
    requires FindLive(b, id) == FindLive(a, id)
    ensures Rewritten(a, c, id, second)
  {
  }

  /**
   * What `UpdateAsync` does to a table: KeyNotFound and no change when no
   * visible row has the identifier; otherwise that row's fields are
   * replaced, `UpdatedAt` is stamped, and the updated row is returned.
   */
  ghost predicate Updated<T>(before: seq<Entity<T>>, after: seq<Entity<T>>, kind: string, id: Id, data: T, now: Time,
                             r: Result<Entity<T>>)
  {
    match FindLive(before, id)
    case None => r == Fail(Missing(kind, id)) && after == before
    case Some(i) => r == Ok(before[i].(data := data, updatedAt := Some(now))) && after == before[i := r.value]
  }

  /** A successful update rewrites the row with the new fields. */
  lemma UpdatedRewrites<T>(before: seq<Entity<T>>, after: seq<Entity<T>>, kind: string, id: Id, data: T, now: Time,
                           r: Result<Entity<T>>)
    requires Updated(before, after, kind, id, data, now, r) && r.Ok?
    ensures Rewritten(before, after, id, data)
  {
  }

  /**
   * What `DeleteAsync` does to a table: KeyNotFound and no change when no
   * visible row has the identifier; otherwise that row is marked deleted
   * and `UpdatedAt` is stamped.
   */
  ghost predicate Deleted<T>(before: seq<Entity<T>>, after: seq<Entity<T>>, kind: string, id: Id, now: Time, r: Result<()>)
  {
    match FindLive(before, id)
    case None => r == Fail(Missing(kind, id)) && after == before
    case Some(i) => r == Ok(()) && after == before[i := before[i].(isDeleted := true, updatedAt := Some(now))]
  }

  /** The set of one entity type (a `DbSet<T>`). */
  class DbSet<T(!new)> {
    var rows: seq<Entity<T>>
    var nextId: Id
    /** The entity type's name, for error messages. */
    const kind: string

    ghost predicate Valid()
      reads this
    {
      && EmptyId < nextId
      && (forall i :: 0 <= i < |rows| ==> EmptyId < rows[i].id < nextId)
      && UniqueIds(rows)
    }

    constructor (kind: string)
      ensures Valid() && rows == [] && this.kind == kind
    {
      rows := [];
      nextId := EmptyId + 1;
      this.kind := kind;
    }

    /** `GetByIdAsync`: the visible row with this identifier, or null. */
    function GetById(id: Id): (r: Option<Entity<T>>)
      reads this
      ensures r.Some? ==> r.value in rows && r.value.id == id && !r.value.isDeleted
      ensures r.None? ==> forall e :: e in rows && e.id == id ==> e.isDeleted
    {
      match FindLive(rows, id)
      case None => None
      case Some(i) => Some(rows[i])
    }

    /** `GetAllAsync`: every visible row. */
    function GetAll(): (r: seq<Entity<T>>)
      reads this
      ensures forall e :: e in r <==> e in rows && !e.isDeleted
    {
      Live(rows)
    }

    /** `AddAsync`: stamps `CreatedAt` and stores the entity under a fresh identifier. */
    method Add(data: T, now: Time) returns (e: Entity<T>)
      requires Valid()
      modifies this
      ensures Valid()
      ensures e == Entity(old(nextId), now, None, false, data)
      ensures rows == old(rows) + [e] && nextId == old(nextId) + 1
      ensures GetById(e.id) == Some(e)
    {
      e := Entity(nextId, now, None, false, data);
      rows := rows + [e];
      nextId := nextId + 1;
      assert FindLive(rows, e.id) == Some(|rows| - 1) by {
        FindLiveAt(rows, |rows| - 1);
      }
    }

    /**
     * `UpdateAsync`: the entity must be stored and not deleted, otherwise
     * KeyNotFound and nothing changes; its fields are replaced and
     * `UpdatedAt` is stamped.
     */
    method Update(id: Id, data: T, now: Time) returns (r: Result<Entity<T>>)
      requires Valid()
      modifies this
      ensures Valid() && nextId == old(nextId) && |rows| == |old(rows)|
      ensures Updated(old(rows), rows, kind, id, data, now, r)
      ensures forall x :: FindLive(rows, x) == FindLive(old(rows), x)
    {
      match FindLive(rows, id)
      case None =>
        r := Fail(Missing(kind, id));
      case Some(i) =>
        var e := rows[i].(data := data, updatedAt := Some(now));
        rows := rows[i := e];
        r := Ok(e);
        forall x ensures FindLive(rows, x) == FindLive(old(rows), x) {
          FindLiveSameKeys(rows, old(rows), x);
        }
    }

    /**
     * `DeleteAsync`: the soft delete. The entity must be stored and not yet
     * deleted; it is marked deleted and `UpdatedAt` is stamped.
     */
    method Delete(id: Id, now: Time) returns (r: Result<()>)
      requires Valid()
      modifies this
      ensures Valid() && nextId == old(nextId) && |rows| == |old(rows)|
      ensures Deleted(old(rows), rows, kind, id, now, r)
      ensures GetById(id).None?
    {
      match FindLive(rows, id)
      case None =>
        r := Fail(Missing(kind, id));
      case Some(i) =>
        rows := rows[i := rows[i].(isDeleted := true, updatedAt := Some(now))];
        r := Ok(());
        assert forall k :: 0 <= k < |rows| ==> rows[k].id != id || rows[k].isDeleted;
    }

    /** `HardDeleteAsync`: removes a stored, not deleted entity from the table. */
    method HardDelete(id: Id) returns (r: Result<()>)
      requires Valid()
      modifies this
      ensures Valid() && nextId == old(nextId)
      ensures FindLive(old(rows), id).None? ==> r == Fail(Missing(kind, id)) && rows == old(rows)
      ensures FindLive(old(rows), id).Some? ==>
        var i := FindLive(old(rows), id).value;
        r == Ok(()) && rows == old(rows)[..i] + old(rows)[i + 1..]
      ensures r.Ok? ==> forall e :: e in rows ==> e.id != id
    {
      match FindLive(rows, id)
      case None =>
        r := Fail(Missing(kind, id));
      case Some(i) =>
        ghost var before := rows;
        rows := rows[..i] + rows[i + 1..];
        r := Ok(());
        assert forall k :: 0 <= k < |rows| ==> rows[k] == before[if k < i then k else k + 1];
        forall e | e in rows ensures e.id != id {
          var k :| 0 <= k < |rows| && rows[k] == e;
        }
    }
  }

  /** With unique identifiers, two rows with the same identifier are the same row. */
  lemma SameIdSameRow<T>(rows: seq<Entity<T>>, a: Entity<T>, b: Entity<T>)
    requires UniqueIds(rows) && a in rows && b in rows && a.id == b.id
    ensures a == b
  {
    var i :| 0 <= i < |rows| && rows[i] == a;
    var j :| 0 <= j < |rows| && rows[j] == b;
  }

  /** A row at position `i` with a unique identifier is what the lookup finds. */
  lemma {:induction false} FindLiveAt<T>(rows: seq<Entity<T>>, i: nat)
    requires i < |rows| && !rows[i].isDeleted && UniqueIds(rows)
    ensures FindLive(rows, rows[i].id) == Some(i)
  {
    if i > 0 {
      FindLiveAt(rows[1..], i - 1);
    }
  }
}

/** The store as the services see it. */
module Store {

  import opened Common
  import opened Entities
  import opened Data

  /**
   * The database context: one table per entity type, and the clock that
   * stamps what is written. Every stored result belongs to a record that was
   * added (`notificationId` is a foreign key) and was stamped in the past.
   * `AddAsync` and `UpdateAsync` read the clock themselves; the methods
   * below do the same for each table the services write.
   */
  class NewsletterContext {
    const subscribers: DbSet<Subscriber>
    const tags: DbSet<Tag>
    const events: DbSet<Event>
    const instances: DbSet<EventInstance>
    const records: DbSet<NotificationRecord>
    const results: DbSet<NotificationResult>
    var clock: Time

    ghost predicate Valid()
      reads this, subscribers, tags, events, instances, records, results
    {
      && subscribers.Valid() && tags.Valid() && events.Valid() && instances.Valid()
      && records.Valid() && results.Valid()
      && subscribers.kind == "Subscriber" && tags.kind == "Tag" && events.kind == "Event" && instances.kind == "EventInstance"
      && (forall x :: x in results.rows ==> x.data.notificationId < records.nextId && x.createdAt < clock)
    }

    constructor ()
      ensures Valid()
      ensures subscribers.rows == [] && tags.rows == [] && events.rows == [] && instances.rows == []
      ensures records.rows == [] && results.rows == []
    {
      subscribers := new DbSet("Subscriber");
      tags := new DbSet("Tag");
      events := new DbSet("Event");
      instances := new DbSet("EventInstance");
      records := new DbSet("NotificationRecord");
      results := new DbSet("NotificationResult");
      clock := 0;
    }

    /** `DateTime.UtcNow`: every reading is later than the one before. */
    method Now() returns (t: Time)
      requires Valid()
      modifies this
      ensures Valid() && t == old(clock) && clock == t + 1
    {
      t := clock;
      clock := clock + 1;
    }

    /** `AddAsync` of a result of an added record. */
    method AddResult(data: NotificationResult) returns (e: Entity<NotificationResult>)
      requires Valid() && data.notificationId < records.nextId
      modifies this, results
      ensures Valid() && clock == old(clock) + 1
      ensures e == Entity(old(results.nextId), old(clock), None, false, data)
      ensures results.rows == old(results.rows) + [e]
    {
      var now := Now();
      e := results.Add(data, now);
    }

    /** `AddAsync` of a notification record. */
    method AddRecord(data: NotificationRecord) returns (e: Entity<NotificationRecord>)
      requires Valid()
      modifies this, records
      ensures Valid() && clock == old(clock) + 1
      ensures e == Entity(old(records.nextId), old(clock), None, false, data)
      ensures records.rows == old(records.rows) + [e] && records.nextId == old(records.nextId) + 1
    {
      var now := Now();
      e := records.Add(data, now);
    }

    /** `AddAsync` of a tag. */
    method AddTag(data: Tag) returns (e: Entity<Tag>)
      requires Valid()
      modifies this, tags
      ensures Valid() && clock == old(clock) + 1
      ensures e == Entity(old(tags.nextId), old(clock), None, false, data)
      ensures tags.rows == old(tags.rows) + [e]
    {
      var now := Now();
      e := tags.Add(data, now);
    }

    /** `AddAsync` of a subscriber. */
    method AddSubscriber(data: Subscriber) returns (e: Entity<Subscriber>)
      requires Valid()
      modifies this, subscribers
      ensures Valid() && clock == old(clock) + 1
      ensures e == Entity(old(subscribers.nextId), old(clock), None, false, data)
      ensures subscribers.rows == old(subscribers.rows) + [e]
    {
      var now := Now();
      e := subscribers.Add(data, now);
    }

    /** `AddAsync` of an event. */
    method AddEvent(data: Event) returns (e: Entity<Event>)
      requires Valid()
      modifies this, events
      ensures Valid() && clock == old(clock) + 1
      ensures e == Entity(old(events.nextId), old(clock), None, false, data)
      ensures events.rows == old(events.rows) + [e]
    {
      var now := Now();
      e := events.Add(data, now);
    }

    /** `AddAsync` of an event instance. */
    method AddInstance(data: EventInstance) returns (e: Entity<EventInstance>)
      requires Valid()
      modifies this, instances
      ensures Valid() && clock == old(clock) + 1
      ensures e == Entity(old(instances.nextId), old(clock), None, false, data)
      ensures instances.rows == old(instances.rows) + [e]
    {
      var now := Now();
      e := instances.Add(data, now);
    }

    /** `UpdateAsync` of a subscriber. */
    method UpdateSubscriber(id: Id, data: Subscriber) returns (r: Result<Entity<Subscriber>>)
      requires Valid()
      modifies this, subscribers
      ensures Valid() && clock == old(clock) + (if r.Ok? then 1 else 0)
      ensures Updated(old(subscribers.rows), subscribers.rows, subscribers.kind, id, data, old(clock), r)
      ensures forall x :: FindLive(subscribers.rows, x) == FindLive(old(subscribers.rows), x)
    {
      if subscribers.GetById(id).None? {
        r := Fail(Missing(subscribers.kind, id));
        return;
      }
      var now := Now();
      r := subscribers.Update(id, data, now);
    }

    /** `UpdateAsync` of a tag. */
    method UpdateTag(id: Id, data: Tag) returns (r: Result<Entity<Tag>>)
      requires Valid()
      modifies this, tags
      ensures Valid() && clock == old(clock) + (if r.Ok? then 1 else 0)
      ensures Updated(old(tags.rows), tags.rows, tags.kind, id, data, old(clock), r)
    {
      if tags.GetById(id).None? {
        r := Fail(Missing(tags.kind, id));
        return;
      }
      var now := Now();
      r := tags.Update(id, data, now);
    }

    /** `UpdateAsync` of an event. */
    method UpdateEvent(id: Id, data: Event) returns (r: Result<Entity<Event>>)
      requires Valid()
      modifies this, events
      ensures Valid() && clock == old(clock) + (if r.Ok? then 1 else 0)
      ensures Updated(old(events.rows), events.rows, events.kind, id, data, old(clock), r)
    {
      if events.GetById(id).None? {
        r := Fail(Missing(events.kind, id));
        return;
      }
      var now := Now();
      r := events.Update(id, data, now);
    }

    /** `UpdateAsync` of an event instance. */
    method UpdateInstance(id: Id, data: EventInstance) returns (r: Result<Entity<EventInstance>>)
      requires Valid()
      modifies this, instances
      ensures Valid() && clock == old(clock) + (if r.Ok? then 1 else 0)
      ensures Updated(old(instances.rows), instances.rows, instances.kind, id, data, old(clock), r)
    {
      if instances.GetById(id).None? {
        r := Fail(Missing(instances.kind, id));
        return;
      }
      var now := Now();
      r := instances.Update(id, data, now);
    }
    /** `DeleteAsync` of a subscriber. */
    method DeleteSubscriber(id: Id) returns (r: Result<()>)
      requires Valid()
      modifies this, subscribers
      ensures Valid() && clock == old(clock) + (if r.Ok? then 1 else 0)
      ensures Deleted(old(subscribers.rows), subscribers.rows, subscribers.kind, id, old(clock), r)
    {
      if subscribers.GetById(id).None? {
        r := Fail(Missing(subscribers.kind, id));
        return;
      }
      var now := Now();
      r := subscribers.Delete(id, now);
    }

    /** `DeleteAsync` of a tag. */
    method DeleteTag(id: Id) returns (r: Result<()>)
      requires Valid()
      modifies this, tags
      ensures Valid() && clock == old(clock) + (if r.Ok? then 1 else 0)
      ensures Deleted(old(tags.rows), tags.rows, tags.kind, id, old(clock), r)
    {
      if tags.GetById(id).None? {
        r := Fail(Missing(tags.kind, id));
        return;
      }
      var now := Now();
      r := tags.Delete(id, now);
    }

    /** `DeleteAsync` of an event. */
    method DeleteEvent(id: Id) returns (r: Result<()>)
      requires Valid()
      modifies this, events
      ensures Valid() && clock == old(clock) + (if r.Ok? then 1 else 0)
      ensures Deleted(old(events.rows), events.rows, events.kind, id, old(clock), r)
    {
      if events.GetById(id).None? {
        r := Fail(Missing(events.kind, id));
        return;
      }
      var now := Now();
      r := events.Delete(id, now);
    }

    /** `DeleteAsync` of an event instance. */
    method DeleteInstance(id: Id) returns (r: Result<()>)
      requires Valid()
      modifies this, instances
      ensures Valid() && clock == old(clock) + (if r.Ok? then 1 else 0)
      ensures Deleted(old(instances.rows), instances.rows, instances.kind, id, old(clock), r)
    {
      if instances.GetById(id).None? {
        r := Fail(Missing(instances.kind, id));
        return;
      }
      var now := Now();
      r := instances.Delete(id, now);
    }
  }
}
