/**
 * `EventService`: events are unique by title, ignoring case and
 * surrounding whitespace, among those not deleted; titles and the other
 * text fields are stored trimmed. An event's occurrences (event instances)
 * must start before they end.
 */
module Events {

  import opened Common
  import opened Entities
  import opened Data
  import opened Store
  import opened Text
  import Seqs
  import opened Tags

  /** The lookup condition of `GetEventByTitleAsync`. */
  predicate HasTitle(e: Entity<Event>, title: string)
  {
    Lower(e.data.details.title) == Normalize(title)
  }

  /** `GetEventByTitleAsync`: the first visible event with that title. */
  function FindByTitle(rows: seq<Entity<Event>>, title: string): (r: Option<Entity<Event>>)
    ensures r.Some? ==> r.value in rows && !r.value.isDeleted && HasTitle(r.value, title)
    ensures r.None? <==> forall e :: e in rows && !e.isDeleted ==> !HasTitle(e, title)
  {
    if rows == [] then None
    else if !rows[0].isDeleted && HasTitle(rows[0], title) then Some(rows[0])
    else FindByTitle(rows[1..], title)
  }

  /** No two visible events share a title up to case. */
  ghost predicate UniqueTitles(rows: seq<Entity<Event>>)
  {
    forall a, b ::
      (a in rows && b in rows && !a.isDeleted && !b.isDeleted && Lower(a.data.details.title) == Lower(b.data.details.title)) ==> a == b
  }

  /** Every case or whitespace variant of `title` looks up `e`. */
  ghost predicate FoundByTitleVariants(rows: seq<Entity<Event>>, e: Entity<Event>, title: string)
  {
    forall v :: Normalize(v) == Normalize(title) ==> FindByTitle(rows, v) == Some(e)
  }

  /** An event stored under the trimmed title is found under every variant of it. */
  lemma StoredEventFound(rows: seq<Entity<Event>>, e: Entity<Event>, title: string)
    requires UniqueTitles(rows) && e in rows && !e.isDeleted && e.data.details.title == Trim(title)
    ensures FoundByTitleVariants(rows, e, title)
  {
    forall v | Normalize(v) == Normalize(title) ensures FindByTitle(rows, v) == Some(e) {
      assert HasTitle(e, v);
      FindByTitleUnique(rows, e, v);
    }
  }

  /** Under unique titles the lookup finds the one visible event with the title. */
  lemma FindByTitleUnique(rows: seq<Entity<Event>>, e: Entity<Event>, title: string)
    requires UniqueTitles(rows) && e in rows && !e.isDeleted && HasTitle(e, title)
    ensures FindByTitle(rows, title) == Some(e)
  {
    var r := FindByTitle(rows, title);
    assert r.Some?;
    assert Lower(r.value.data.details.title) == Lower(e.data.details.title);
  }

  /** Appending a visible event under a free title, trimmed, keeps titles unique. */
  lemma AppendKeepsTitlesUnique(rows: seq<Entity<Event>>, title: string, e: Entity<Event>)
    requires UniqueTitles(rows) && FindByTitle(rows, title).None? && e.data.details.title == Trim(title)
    ensures UniqueTitles(rows + [e])
  {
    LowerTrimCommute(title);
    forall x | x in rows && !x.isDeleted ensures Lower(x.data.details.title) != Lower(e.data.details.title) {
      assert !HasTitle(x, title);
    }
  }

  /** A visible event other than the one with identifier `id` holds the title. */
  ghost predicate TitleHeldByOther(rows: seq<Entity<Event>>, id: Id, title: string)
  {
    exists e :: e in rows && !e.isDeleted && e.id != id && HasTitle(e, title)
  }

  /** The update's test (the lookup by title finds an event with another identifier) is "another event holds the title". */
  lemma TitleConflictDecision(rows: seq<Entity<Event>>, id: Id, title: string)
    requires UniqueTitles(rows)
    ensures TitleHeldByOther(rows, id, title) <==> FindByTitle(rows, title).Some? && FindByTitle(rows, title).value.id != id
  {
    if TitleHeldByOther(rows, id, title) {
      var e :| e in rows && !e.isDeleted && e.id != id && HasTitle(e, title);
      assert FindByTitle(rows, title).Some?;
    }
  }

  /** Re-titling an event to a title no other visible event holds keeps titles unique. */
  lemma RetitleKeepsUnique(rows: seq<Entity<Event>>, i: nat, e: Entity<Event>, title: string)
    requires i < |rows| && UniqueTitles(rows) && UniqueIds(rows) && e.id == rows[i].id
    requires e.data.details.title == Trim(title) && !TitleHeldByOther(rows, e.id, title)
    ensures UniqueTitles(rows[i := e])
  {
    LowerTrimCommute(title);
    var s := rows[i := e];
    forall x | x in s && x != e ensures x in rows && x.id != e.id {
      var k :| 0 <= k < |s| && s[k] == x;
      assert k != i && rows[k] == x;
    }
    forall x | x in s && !x.isDeleted && x != e ensures Lower(x.data.details.title) != Lower(e.data.details.title) {
      assert !HasTitle(x, title);
    }
  }

  /** Replacing a row by one with the same identifier, deletion flag and title keeps titles unique. */
  lemma SameTitleKeepsUnique(rows: seq<Entity<Event>>, i: nat, e: Entity<Event>)
    requires i < |rows| && UniqueTitles(rows) && UniqueIds(rows)
    requires e.id == rows[i].id && e.isDeleted == rows[i].isDeleted && e.data.details.title == rows[i].data.details.title
    ensures UniqueTitles(rows[i := e])
  {
    var s := rows[i := e];
    forall a, b | a in s && b in s && !a.isDeleted && !b.isDeleted
      && Lower(a.data.details.title) == Lower(b.data.details.title)
      ensures a == b
    {
      var j :| 0 <= j < |s| && s[j] == a;
      var k :| 0 <= k < |s| && s[k] == b;
      assert rows[j] == rows[k];
      assert j == k;
    }
  }

  /** Marking a row deleted keeps titles unique: it only leaves fewer visible events. */
  lemma SoftDeleteKeepsTitlesUnique(rows: seq<Entity<Event>>, i: nat, now: Time)
    requires i < |rows| && UniqueTitles(rows)
    ensures UniqueTitles(rows[i := rows[i].(isDeleted := true, updatedAt := Some(now))])
  {
    var s := rows[i := rows[i].(isDeleted := true, updatedAt := Some(now))];
    forall x | x in s && !x.isDeleted ensures x in rows {
      var k :| 0 <= k < |s| && s[k] == x;
      assert k != i;
    }
  }

  function Title(e: Entity<Event>): string
  {
    e.data.details.title
  }

  /**
   * `GetAllEventsAsync`: the visible events ordered by title under the
   * database's `collation`. Its
   * `includeInactive` argument only drops a filter on the deletion flag
   * that the store's own filter already applies, so it changes nothing.
   */
  function AllEvents(rows: seq<Entity<Event>>, includeInactive: bool, collation: (string, string) -> bool)
    : (r: seq<Entity<Event>>)
    requires Seqs.TotalPreorder(collation)
    ensures Seqs.SortedBy(r, ByString(Title, collation))
    ensures forall e :: e in r <==> e in rows && !e.isDeleted
    ensures multiset(r) == multiset(Live(rows))
  {
    ByStringPreorder(Title, collation);
    var r := Seqs.SortBy(Live(rows), ByString(Title, collation));
    assert forall e :: e in r <==> e in multiset(Live(rows));
    r
  }

  function StartTime(i: Entity<EventInstance>): int
  {
    i.data.startTime
  }

  /** The occurrences `GetEventInstancesAsync` keeps: of the event, and not cancelled unless asked for. */
  function OfEvent(eventId: Id, includeCancelled: bool): Entity<EventInstance> -> bool
  {
    (i: Entity<EventInstance>) => i.data.eventId == eventId && (includeCancelled || !i.data.isCancelled)
  }

  /**
   * The event an occurrence is loaded with (`Include(i => i.Event)`): its
   * visible event, or none when that event is deleted or missing.
   */
  function LoadedEvent(events: seq<Entity<Event>>, i: EventInstance): (r: Option<Event>)
    ensures r.Some? <==> exists e :: e in events && e.id == i.eventId && !e.isDeleted
    ensures r.Some? ==> exists e :: e in events && e.id == i.eventId && !e.isDeleted && e.data == r.value
  {
    match FindLive(events, i.eventId)
    case None => None
    case Some(k) => Some(events[k].data)
  }

  /**
   * `GetEventInstanceByIdAsync`: the position of the first visible
   * occurrence with the identifier whose event is visible too. The event is
   * a required navigation, so loading it joins the events under their
   * soft-delete filter, and an occurrence of a deleted event is not found.
   */
  function FindInstance(instances: seq<Entity<EventInstance>>, events: seq<Entity<Event>>, id: Id): (r: Option<nat>)
    ensures r.Some? ==>
      && r.value < |instances| && instances[r.value].id == id && !instances[r.value].isDeleted
      && LoadedEvent(events, instances[r.value].data).Some?
    ensures r.None? ==>
      forall k :: 0 <= k < |instances| && instances[k].id == id && !instances[k].isDeleted ==>
        LoadedEvent(events, instances[k].data).None?
  {
    if instances == [] then None
    else if instances[0].id == id && !instances[0].isDeleted && LoadedEvent(events, instances[0].data).Some? then Some(0)
    else
      match FindInstance(instances[1..], events, id)
      case None => None
      case Some(j) => Some(j + 1)
  }

  /** With unique identifiers, a found occurrence is the row the store's own lookup finds. */
  lemma FoundInstanceIsLive(instances: seq<Entity<EventInstance>>, events: seq<Entity<Event>>, id: Id)
    requires UniqueIds(instances) && FindInstance(instances, events, id).Some?
    ensures FindLive(instances, id) == FindInstance(instances, events, id)
  {
    FindLiveAt(instances, FindInstance(instances, events, id).value);
  }

  /**
   * `GetEventInstancesAsync`: the visible occurrences of the event,
   * cancelled ones only when `includeCancelled`, ordered by start time;
   * none when the event itself is deleted or missing, since each
   * occurrence is joined with its event.
   */
  function Instances(rows: seq<Entity<EventInstance>>, events: seq<Entity<Event>>, eventId: Id, includeCancelled: bool)
    : (r: seq<Entity<EventInstance>>)
    ensures Seqs.SortedBy(r, Seqs.ByInt(StartTime))
    ensures forall i :: i in r <==>
      && i in rows && !i.isDeleted && i.data.eventId == eventId && (includeCancelled || !i.data.isCancelled)
      && LoadedEvent(events, i.data).Some?
    ensures FindLive(events, eventId).Some? ==> multiset(r) == multiset(Seqs.Filter(Live(rows), OfEvent(eventId, includeCancelled)))
    ensures FindLive(events, eventId).None? ==> r == []
  {
    if FindLive(events, eventId).None? then []
    else
      Seqs.ByIntPreorder(StartTime);
      var kept := Seqs.Filter(Live(rows), OfEvent(eventId, includeCancelled));
      var r := Seqs.SortBy(kept, Seqs.ByInt(StartTime));
      assert forall i :: i in r <==> i in multiset(kept);
      r
  }

  /** Every stored occurrence starts before it ends. */
  ghost predicate WellTimed(rows: seq<Entity<EventInstance>>)
  {
    forall k :: 0 <= k < |rows| ==> rows[k].data.startTime < rows[k].data.endTime
  }

  /** The event's text fields as stored: title and description trimmed, every optional one trimmed when given. */
  function Trimmed(d: EventDetails): EventDetails
  {
    EventDetails(Trim(d.title), Trim(d.description), TrimOpt(d.externalUrl), TrimOpt(d.imageUrl),
                 TrimOpt(d.organizerName), TrimOpt(d.organizerEmail), TrimOpt(d.organizerPhone), TrimOpt(d.category))
  }

  /** The occurrence's fields as stored: the text ones trimmed, the others as given. */
  function TrimmedInstance(d: InstanceDetails): InstanceDetails
  {
    InstanceDetails(Trim(d.location), TrimOpt(d.room), TrimOpt(d.address), TrimOpt(d.city), TrimOpt(d.state),
                    TrimOpt(d.country), TrimOpt(d.postalCode), d.isVirtual, TrimOpt(d.virtualMeetingUrl),
                    TrimOpt(d.virtualMeetingPlatform), d.maxAttendees, TrimOpt(d.currency), TrimOpt(d.notes))
  }

  /** The message of the title conflict. */
  function TitleTaken(title: string): Error
  {
    InvalidOperation("An event with title '" + title + "' already exists.")
  }

  /** The message of an occurrence that does not start before it ends. */
  const BadTimes: Error := Argument("Start time must be before end time.")

  class EventService {
    const ctx: NewsletterContext
    const tagService: TagService

    constructor (ctx: NewsletterContext, tagService: TagService)
      requires tagService.ctx == ctx
      ensures this.ctx == ctx && this.tagService == tagService
    {
      this.ctx := ctx;
      this.tagService := tagService;
    }

    /** The tag loop of creating and updating an event: the identifier of the tag under each name, in order. */
    method TagIdsForNames(names: seq<string>) returns (ids: seq<Id>)
      requires tagService.ctx == ctx
      requires ctx.Valid() && UniqueNames(ctx.tags.rows)
      modifies ctx, ctx.tags
      ensures ctx.Valid() && UniqueNames(ctx.tags.rows)
      ensures Resolves(ids, names, ctx.tags.rows)
      ensures LookupsKept(old(ctx.tags.rows), ctx.tags.rows)
      ensures GrownFor(old(ctx.tags.rows), ctx.tags.rows, names) && ctx.clock >= old(ctx.clock)
    {
      ids := [];
      GrownForNothing(ctx.tags.rows, names);
      for i := 0 to |names|
        invariant ctx.Valid() && UniqueNames(ctx.tags.rows)
        invariant Resolves(ids, names[..i], ctx.tags.rows)
        invariant LookupsKept(old(ctx.tags.rows), ctx.tags.rows)
        invariant GrownFor(old(ctx.tags.rows), ctx.tags.rows, names) && ctx.clock >= old(ctx.clock)
      {
        ghost var before := ctx.tags.rows;
        ids := tagService.AppendTagId(ids, names[..i], names[i]);
        ResolvesStep(old(ctx.tags.rows), before, ctx.tags.rows, ids, names, i);
      }
      assert names[..|names|] == names;
    }

    /** The tags of an updated event: the old ones when no names are given, otherwise the tags under the names. */
    method TagIdsForUpdate(current: seq<Id>, tagNames: Option<seq<string>>) returns (ids: seq<Id>)
      requires tagService.ctx == ctx
      requires ctx.Valid() && UniqueNames(ctx.tags.rows)
      modifies ctx, ctx.tags
      ensures ctx.Valid() && UniqueNames(ctx.tags.rows) && ctx.clock >= old(ctx.clock)
      ensures tagNames.None? ==> ids == current && ctx.tags.rows == old(ctx.tags.rows)
      ensures tagNames.Some? ==> Resolves(ids, tagNames.value, ctx.tags.rows)
      ensures LookupsKept(old(ctx.tags.rows), ctx.tags.rows)
      ensures GrownFor(old(ctx.tags.rows), ctx.tags.rows, NamesOf(tagNames))
    {
      if tagNames.Some? {
        ids := TagIdsForNames(tagNames.value);
      } else {
        ids := current;
        GrownForNothing(ctx.tags.rows, []);
      }
    }

    /** Adds an event under a free title; titles stay unique and it is found under every variant. */
    method StoreEvent(title: string, data: Event) returns (e: Entity<Event>)
      requires ctx.Valid() && UniqueTitles(ctx.events.rows)
      requires FindByTitle(ctx.events.rows, title).None? && data.details.title == Trim(title)
      modifies ctx, ctx.events
      ensures ctx.Valid() && UniqueTitles(ctx.events.rows) && ctx.tags.rows == old(ctx.tags.rows)
      ensures e.data == data && !e.isDeleted && ctx.events.rows == old(ctx.events.rows) + [e]
      ensures FoundByTitleVariants(ctx.events.rows, e, title)
    {
      ghost var before := ctx.events.rows;
      e := ctx.AddEvent(data);
      AppendKeepsTitlesUnique(before, title, e);
      StoredEventFound(ctx.events.rows, e, title);
    }

    /**
     * `CreateEventAsync`: refuses a title that is taken and adds nothing;
     * otherwise stores an unpublished event with the trimmed fields and the
     * tags under the given names (created when missing), after which it is
     * found under every variant of the title.
     */
    method CreateEvent(details: EventDetails, tagNames: Option<seq<string>>) returns (r: Result<Entity<Event>>)
      requires tagService.ctx == ctx
      requires ctx.Valid() && UniqueNames(ctx.tags.rows) && UniqueTitles(ctx.events.rows)
      modifies ctx, ctx.tags, ctx.events
      ensures ctx.Valid() && UniqueNames(ctx.tags.rows) && UniqueTitles(ctx.events.rows)
      ensures FindByTitle(old(ctx.events.rows), details.title).Some? ==>
        && r == Fail(TitleTaken(details.title))
        && ctx.events.rows == old(ctx.events.rows) && ctx.tags.rows == old(ctx.tags.rows)
      ensures FindByTitle(old(ctx.events.rows), details.title).None? ==>
        && r.Ok? && ctx.events.rows == old(ctx.events.rows) + [r.value]
        && r.value.data == Event(Trimmed(details), false, None, r.value.data.tagIds)
        && Resolves(r.value.data.tagIds, NamesOf(tagNames), ctx.tags.rows)
        && LookupsKept(old(ctx.tags.rows), ctx.tags.rows)
        && GrownFor(old(ctx.tags.rows), ctx.tags.rows, NamesOf(tagNames))
        && FoundByTitleVariants(ctx.events.rows, r.value, details.title)
    {
      if FindByTitle(ctx.events.rows, details.title).Some? {
        r := Fail(TitleTaken(details.title));
        return;
      }
      var ids := TagIdsForNames(NamesOf(tagNames));
      var e := StoreEvent(details.title, Event(Trimmed(details), false, None, ids));
      r := Ok(e);
    }

    /** Stores new fields for a visible event whose title is kept or free; titles stay unique. */
    method StoreUpdate(id: Id, title: string, data: Event) returns (e: Entity<Event>)
      requires ctx.Valid() && UniqueTitles(ctx.events.rows) && FindLive(ctx.events.rows, id).Some?
      requires data.details.title == Trim(title) && !TitleHeldByOther(ctx.events.rows, id, title)
      modifies ctx, ctx.events
      ensures ctx.Valid() && UniqueTitles(ctx.events.rows) && ctx.tags.rows == old(ctx.tags.rows)
      ensures ctx.clock == old(ctx.clock) + 1
      ensures var i := FindLive(old(ctx.events.rows), id).value;
        && e == old(ctx.events.rows)[i].(data := data, updatedAt := Some(old(ctx.clock)))
        && ctx.events.rows == old(ctx.events.rows)[i := e]
    {
      ghost var before := ctx.events.rows;
      var u := ctx.UpdateEvent(id, data);
      e := u.value;
      RetitleKeepsUnique(before, FindLive(before, id).value, e, title);
    }

    /**
     * `UpdateEventAsync`: KeyNotFound for a missing event; a conflict
     * exactly when another visible event holds the title; otherwise the
     * trimmed fields replace the old ones, and the tags are replaced by
     * those under the given names when names are given and kept otherwise.
     */
    method UpdateEvent(id: Id, details: EventDetails, tagNames: Option<seq<string>>) returns (r: Result<Entity<Event>>)
      requires tagService.ctx == ctx
      requires ctx.Valid() && UniqueNames(ctx.tags.rows) && UniqueTitles(ctx.events.rows)
      modifies ctx, ctx.tags, ctx.events
      ensures ctx.Valid() && UniqueNames(ctx.tags.rows) && UniqueTitles(ctx.events.rows)
      ensures FindLive(old(ctx.events.rows), id).None? ==>
        r == Fail(NotFound("Event", id)) && ctx.events.rows == old(ctx.events.rows) && ctx.tags.rows == old(ctx.tags.rows)
      ensures FindLive(old(ctx.events.rows), id).Some? && TitleHeldByOther(old(ctx.events.rows), id, details.title) ==>
        r == Fail(TitleTaken(details.title)) && ctx.events.rows == old(ctx.events.rows) && ctx.tags.rows == old(ctx.tags.rows)
      ensures r.Ok? <==> FindLive(old(ctx.events.rows), id).Some? && !TitleHeldByOther(old(ctx.events.rows), id, details.title)
      ensures r.Ok? ==>
        var i := FindLive(old(ctx.events.rows), id).value;
        var before := old(ctx.events.rows)[i].data;
        && ctx.events.rows == old(ctx.events.rows)[i := r.value]
        && r.value == old(ctx.events.rows)[i].(data := before.(details := Trimmed(details), tagIds := r.value.data.tagIds),
                                               updatedAt := r.value.updatedAt)
        && r.value.updatedAt.Some? && old(ctx.clock) <= r.value.updatedAt.value < ctx.clock
        && (tagNames.None? ==> r.value.data.tagIds == before.tagIds && ctx.tags.rows == old(ctx.tags.rows))
        && (tagNames.Some? ==> Resolves(r.value.data.tagIds, tagNames.value, ctx.tags.rows))
        && LookupsKept(old(ctx.tags.rows), ctx.tags.rows)
        && GrownFor(old(ctx.tags.rows), ctx.tags.rows, NamesOf(tagNames))
    {
      var found := ctx.events.GetById(id);
      if found.None? {
        r := Fail(NotFound("Event", id));
        return;
      }
      TitleConflictDecision(ctx.events.rows, id, details.title);
      var existing := FindByTitle(ctx.events.rows, details.title);
      if existing.Some? && existing.value.id != id {
        r := Fail(TitleTaken(details.title));
        return;
      }
      ghost var i := FindLive(ctx.events.rows, id).value;
      assert found.value == ctx.events.rows[i];
      var ids := TagIdsForUpdate(found.value.data.tagIds, tagNames);
      assert ctx.events.rows == old(ctx.events.rows);
      var e := StoreUpdate(id, details.title, found.value.data.(details := Trimmed(details), tagIds := ids));
      r := Ok(e);
    }

    /** `DeleteEventAsync`: the soft delete of the store; titles stay unique. */
    method DeleteEvent(id: Id) returns (r: Result<()>)
      requires ctx.Valid() && UniqueTitles(ctx.events.rows)
      modifies ctx, ctx.events
      ensures ctx.Valid() && UniqueTitles(ctx.events.rows)
      ensures Deleted(old(ctx.events.rows), ctx.events.rows, "Event", id, old(ctx.clock), r)
    {
      ghost var before := ctx.events.rows;
      r := ctx.DeleteEvent(id);
      if r.Ok? {
        SoftDeleteKeepsTitlesUnique(before, FindLive(before, id).value, old(ctx.clock));
      }
    }

    /** Sets the publication state of a visible event; nothing else changes and titles stay unique. */
    method SetPublished(id: Id, isPublished: bool, publishedAt: Option<Time>) returns (r: Result<()>)
      requires ctx.Valid() && UniqueTitles(ctx.events.rows)
      modifies ctx, ctx.events
      ensures ctx.Valid() && UniqueTitles(ctx.events.rows)
      ensures FindLive(old(ctx.events.rows), id).None? ==>
        r == Fail(NotFound("Event", id)) && ctx.events.rows == old(ctx.events.rows)
      ensures FindLive(old(ctx.events.rows), id).Some? ==>
        var i := FindLive(old(ctx.events.rows), id).value;
        var e := old(ctx.events.rows)[i];
        && r == Ok(())
        && ctx.events.rows == old(ctx.events.rows)[i := e.(data := e.data.(isPublished := isPublished, publishedAt := publishedAt),
                                                          updatedAt := Some(old(ctx.clock)))]
    {
      var found := ctx.events.GetById(id);
      if found.None? {
        r := Fail(NotFound("Event", id));
        return;
      }
      ghost var before := ctx.events.rows;
      var u := ctx.UpdateEvent(id, found.value.data.(isPublished := isPublished, publishedAt := publishedAt));
      r := Ok(());
      SameTitleKeepsUnique(before, FindLive(before, id).value, u.value);
    }

    /**
     * `PublishEventAsync`: KeyNotFound for a missing event; otherwise it is
     * published, stamped with the time of publication.
     */
    method Publish(id: Id) returns (r: Result<()>)
      requires ctx.Valid() && UniqueTitles(ctx.events.rows)
      modifies ctx, ctx.events
      ensures ctx.Valid() && UniqueTitles(ctx.events.rows)
      ensures FindLive(old(ctx.events.rows), id).None? ==>
        r == Fail(NotFound("Event", id)) && ctx.events.rows == old(ctx.events.rows)
      ensures FindLive(old(ctx.events.rows), id).Some? ==>
        var i := FindLive(old(ctx.events.rows), id).value;
        var e := old(ctx.events.rows)[i];
        && r == Ok(())
        && ctx.events.rows == old(ctx.events.rows)[i := e.(data := e.data.(isPublished := true, publishedAt := Some(old(ctx.clock))),
                                                          updatedAt := Some(old(ctx.clock) + 1))]
    {
      if FindLive(ctx.events.rows, id).None? {
        r := Fail(NotFound("Event", id));
        return;
      }
      var now := ctx.Now();
      r := SetPublished(id, true, Some(now));
    }

    /**
     * `UnpublishEventAsync`: KeyNotFound for a missing event; otherwise it
     * is no longer published and has no publication time.
     */
    method Unpublish(id: Id) returns (r: Result<()>)
      requires ctx.Valid() && UniqueTitles(ctx.events.rows)
      modifies ctx, ctx.events
      ensures ctx.Valid() && UniqueTitles(ctx.events.rows)
      ensures FindLive(old(ctx.events.rows), id).None? ==>
        r == Fail(NotFound("Event", id)) && ctx.events.rows == old(ctx.events.rows)
      ensures FindLive(old(ctx.events.rows), id).Some? ==>
        var i := FindLive(old(ctx.events.rows), id).value;
        var e := old(ctx.events.rows)[i];
        && r == Ok(())
        && ctx.events.rows == old(ctx.events.rows)[i := e.(data := e.data.(isPublished := false, publishedAt := None),
                                                          updatedAt := Some(old(ctx.clock)))]
    {
      r := SetPublished(id, false, None);
    }

    /**
     * `AddEventInstanceAsync`: KeyNotFound for a missing event, then an
     * argument error unless the start is before the end, both before
     * anything is stored; otherwise a new, not cancelled occurrence of the
     * event with the trimmed fields. Occurrences keep starting before they
     * end.
     */
    method AddInstance(eventId: Id, startTime: Time, endTime: Time, details: InstanceDetails)
      returns (r: Result<Entity<EventInstance>>)
      requires ctx.Valid()
      modifies ctx, ctx.instances
      ensures ctx.Valid() && ctx.events.rows == old(ctx.events.rows)
      ensures FindLive(ctx.events.rows, eventId).None? ==>
        r == Fail(NotFound("Event", eventId)) && ctx.instances.rows == old(ctx.instances.rows)
      ensures FindLive(ctx.events.rows, eventId).Some? && startTime >= endTime ==>
        r == Fail(BadTimes) && ctx.instances.rows == old(ctx.instances.rows)
      ensures r.Ok? <==> FindLive(ctx.events.rows, eventId).Some? && startTime < endTime
      ensures r.Ok? ==>
        && ctx.instances.rows == old(ctx.instances.rows) + [r.value] && !r.value.isDeleted
        && r.value.data == EventInstance(eventId, startTime, endTime, TrimmedInstance(details), false, None, None)
      ensures WellTimed(old(ctx.instances.rows)) ==> WellTimed(ctx.instances.rows)
    {
      if FindLive(ctx.events.rows, eventId).None? {
        r := Fail(NotFound("Event", eventId));
        return;
      }
      if startTime >= endTime {
        r := Fail(BadTimes);
        return;
      }
      var e := ctx.AddInstance(EventInstance(eventId, startTime, endTime, TrimmedInstance(details), false, None, None));
      r := Ok(e);
    }

    /**
     * `UpdateEventInstanceAsync`: KeyNotFound for an occurrence that is not
     * found (missing, deleted, or of a deleted event), then an argument
     * error unless the start is before the end; otherwise the times and the
     * trimmed fields replace the old ones and `UpdatedAt` is stamped, while
     * the event and the cancellation stay as they were.
     */
    method UpdateInstance(id: Id, startTime: Time, endTime: Time, details: InstanceDetails)
      returns (r: Result<Entity<EventInstance>>)
      requires ctx.Valid()
      modifies ctx, ctx.instances
      ensures ctx.Valid()
      ensures FindInstance(old(ctx.instances.rows), ctx.events.rows, id).None? ==>
        r == Fail(NotFound("Event instance", id)) && ctx.instances.rows == old(ctx.instances.rows)
      ensures FindInstance(old(ctx.instances.rows), ctx.events.rows, id).Some? && startTime >= endTime ==>
        r == Fail(BadTimes) && ctx.instances.rows == old(ctx.instances.rows)
      ensures r.Ok? <==> FindInstance(old(ctx.instances.rows), ctx.events.rows, id).Some? && startTime < endTime
      ensures r.Ok? ==>
        var i := FindInstance(old(ctx.instances.rows), ctx.events.rows, id).value;
        var before := old(ctx.instances.rows)[i];
        && r.value == before.(data := before.data.(startTime := startTime, endTime := endTime, details := TrimmedInstance(details)),
                              updatedAt := Some(old(ctx.clock)))
        && ctx.instances.rows == old(ctx.instances.rows)[i := r.value]
      ensures WellTimed(old(ctx.instances.rows)) ==> WellTimed(ctx.instances.rows)
    {
      var found := FindInstance(ctx.instances.rows, ctx.events.rows, id);
      if found.None? {
        r := Fail(NotFound("Event instance", id));
        return;
      }
      if startTime >= endTime {
        r := Fail(BadTimes);
        return;
      }
      ghost var before := ctx.instances.rows;
      var i := found.value;
      FoundInstanceIsLive(before, ctx.events.rows, id);
      var data := ctx.instances.rows[i].data.(startTime := startTime, endTime := endTime, details := TrimmedInstance(details));
      r := ctx.UpdateInstance(id, data);
      assert r.Ok? && r.value.data == data && ctx.instances.rows == before[i := r.value];
    }

    /**
     * `CancelEventInstanceAsync`: KeyNotFound for an occurrence that is not
     * found; otherwise it is cancelled with the trimmed reason and the time
     * of cancellation, `UpdatedAt` is stamped by a later reading, and
     * nothing else about it changes.
     */
    method CancelInstance(id: Id, reason: string) returns (r: Result<()>)
      requires ctx.Valid()
      modifies ctx, ctx.instances
      ensures ctx.Valid()
      ensures FindInstance(old(ctx.instances.rows), ctx.events.rows, id).None? ==>
        r == Fail(NotFound("Event instance", id)) && ctx.instances.rows == old(ctx.instances.rows)
      ensures FindInstance(old(ctx.instances.rows), ctx.events.rows, id).Some? ==>
        var i := FindInstance(old(ctx.instances.rows), ctx.events.rows, id).value;
        var before := old(ctx.instances.rows)[i];
        && r == Ok(())
        && ctx.instances.rows == old(ctx.instances.rows)[i := before.(
             data := before.data.(isCancelled := true, cancellationReason := Some(Trim(reason)), cancelledAt := Some(old(ctx.clock))),
             updatedAt := Some(old(ctx.clock) + 1))]
      ensures WellTimed(old(ctx.instances.rows)) ==> WellTimed(ctx.instances.rows)
    {
      var found := FindInstance(ctx.instances.rows, ctx.events.rows, id);
      if found.None? {
        r := Fail(NotFound("Event instance", id));
        return;
      }
      var i := found.value;
      FoundInstanceIsLive(ctx.instances.rows, ctx.events.rows, id);
      var now := ctx.Now();
      var data := ctx.instances.rows[i].data.(isCancelled := true, cancellationReason := Some(Trim(reason)), cancelledAt := Some(now));
      var u := ctx.UpdateInstance(id, data);
      r := Ok(());
    }

    /** `DeleteEventInstanceAsync`: the soft delete of the store. */
    method DeleteInstance(id: Id) returns (r: Result<()>)
      requires ctx.Valid()
      modifies ctx, ctx.instances
      ensures ctx.Valid()
      ensures Deleted(old(ctx.instances.rows), ctx.instances.rows, "EventInstance", id, old(ctx.clock), r)
      ensures WellTimed(old(ctx.instances.rows)) ==> WellTimed(ctx.instances.rows)
    {
      r := ctx.DeleteInstance(id);
    }
  }
}
