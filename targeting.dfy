/**
 * The read side of `NotificationService`: whom a notification goes to
 * (eligibility by tag preference, candidates by location), whether a
 * subscriber should be notified about an event or an occurrence, the
 * notification history queries, and the texts of the default messages.
 */
module Targeting {

  import opened Common
  import opened Entities
  import opened Data
  import opened Text
  import Seqs
  import opened RecordStatus
  import opened Tags

  type Records = seq<Entity<NotificationRecord>>

  /** What a notification is about: an event, or one occurrence of an event. */
  datatype Target = AboutEvent(eventId: Id) | AboutInstance(instanceId: Id)

  /** The record points at the target (`EventId` or `EventInstanceId`). */
  predicate Concerns(n: NotificationRecord, target: Target)
  {
    match target
    case AboutEvent(id) => n.eventId == Some(id)
    case AboutInstance(id) => n.eventInstanceId == Some(id)
  }

  /** The `EventId` a new record carries. */
  function EventIdOf(target: Option<Target>): Option<Id>
  {
    if target.Some? && target.value.AboutEvent? then Some(target.value.eventId) else None
  }

  /** The `EventInstanceId` a new record carries. */
  function InstanceIdOf(target: Option<Target>): Option<Id>
  {
    if target.Some? && target.value.AboutInstance? then Some(target.value.instanceId) else None
  }

  lemma RecordConcernsTarget(n: NotificationRecord, target: Target)
    requires n.eventId == EventIdOf(Some(target)) && n.eventInstanceId == InstanceIdOf(Some(target))
    ensures Concerns(n, target)
    ensures forall other :: Concerns(n, other) ==> other == target
  {
  }

  /**
   * `HasSubscriberBeenNotifiedAsync` and
   * `HasSubscriberBeenNotifiedAboutInstanceAsync`: some visible record of
   * the subscriber about the target, on that channel, whose latest result
   * succeeded.
   */
  predicate HasBeenNotified(records: Records, results: Results, subscriberId: Id, target: Target, t: NotificationType)
  {
    exists r :: r in records && !r.isDeleted && r.data.subscriberId == subscriberId && Concerns(r.data, target)
      && r.data.notificationType == t && WasSuccessful(ResultsOf(results, r.id))
  }

  /**
   * The tables grew only elsewhere: records were appended for subscribers
   * other than `subscriberId`, and results were appended only for records
   * numbered `bound` or later, while every earlier record is numbered
   * below `bound`.
   */
  ghost predicate GrewElsewhere(records0: Records, records1: Records, results0: Results, results1: Results,
                                bound: Id, subscriberId: Id)
  {
    && |records0| <= |records1| && records1[..|records0|] == records0
    && (forall j :: |records0| <= j < |records1| ==> records1[j].data.subscriberId != subscriberId)
    && |results0| <= |results1| && results1[..|results0|] == results0
    && (forall j :: |results0| <= j < |results1| ==> results1[j].data.notificationId >= bound)
    && (forall r :: r in records0 ==> r.id < bound)
  }

  lemma {:induction false} NoResultsFor(rows: Results, recordId: Id)
    requires forall x :: x in rows ==> x.data.notificationId != recordId
    ensures ResultsOf(rows, recordId) == []
  {
    if rows != [] {
      assert rows[0] in rows;
      assert forall x :: x in rows[1..] ==> x in rows;
      NoResultsFor(rows[1..], recordId);
    }
  }

  /** Notifying other subscribers does not change whether this one has been notified. */
  lemma NotifiedUnaffected(records0: Records, records1: Records, results0: Results, results1: Results,
                           bound: Id, subscriberId: Id, target: Target, t: NotificationType)
    requires GrewElsewhere(records0, records1, results0, results1, bound, subscriberId)
    ensures HasBeenNotified(records1, results1, subscriberId, target, t) == HasBeenNotified(records0, results0, subscriberId, target, t)
  {
    forall r | r in records0
      ensures ResultsOf(results1, r.id) == ResultsOf(results0, r.id)
    {
      OldResultsUnchanged(results0, results1, bound, r.id);
    }
    if HasBeenNotified(records1, results1, subscriberId, target, t) {
      NotifiedBefore(records0, records1, results0, results1, bound, subscriberId, target, t);
    }
    if HasBeenNotified(records0, results0, subscriberId, target, t) {
      NotifiedAfter(records0, records1, results0, results1, subscriberId, target, t);
    }
  }

  /** A successful record of the subscriber in the grown tables was already there, with the same results. */
  lemma NotifiedBefore(records0: Records, records1: Records, results0: Results, results1: Results,
                       bound: Id, subscriberId: Id, target: Target, t: NotificationType)
    requires GrewElsewhere(records0, records1, results0, results1, bound, subscriberId)
    requires forall r :: r in records0 ==> ResultsOf(results1, r.id) == ResultsOf(results0, r.id)
    requires HasBeenNotified(records1, results1, subscriberId, target, t)
    ensures HasBeenNotified(records0, results0, subscriberId, target, t)
  {
    var r :| r in records1 && !r.isDeleted && r.data.subscriberId == subscriberId && Concerns(r.data, target)
      && r.data.notificationType == t && WasSuccessful(ResultsOf(results1, r.id));
    var j :| 0 <= j < |records1| && records1[j] == r;
    assert j < |records0|;
    assert records0[j] == r;
  }

  /** A successful record of the subscriber stays in the grown tables, with the same results. */
  lemma NotifiedAfter(records0: Records, records1: Records, results0: Results, results1: Results,
                      subscriberId: Id, target: Target, t: NotificationType)
    requires |records0| <= |records1| && records1[..|records0|] == records0
    requires forall r :: r in records0 ==> ResultsOf(results1, r.id) == ResultsOf(results0, r.id)
    requires HasBeenNotified(records0, results0, subscriberId, target, t)
    ensures HasBeenNotified(records1, results1, subscriberId, target, t)
  {
    var r :| r in records0 && !r.isDeleted && r.data.subscriberId == subscriberId && Concerns(r.data, target)
      && r.data.notificationType == t && WasSuccessful(ResultsOf(results0, r.id));
    var j :| 0 <= j < |records0| && records0[j] == r;
    assert records1[j] == r;
  }

  /** Results appended for records numbered `bound` or later leave the results of an earlier record as they were. */
  lemma OldResultsUnchanged(results0: Results, results1: Results, bound: Id, recordId: Id)
    requires |results0| <= |results1| && results1[..|results0|] == results0
    requires forall j :: |results0| <= j < |results1| ==> results1[j].data.notificationId >= bound
    requires recordId < bound
    ensures ResultsOf(results1, recordId) == ResultsOf(results0, recordId)
  {
    var added := results1[|results0|..];
    assert results1 == results0 + added;
    ResultsOfAppend(results0, added, recordId);
    forall x | x in added
      ensures x.data.notificationId != recordId
    {
      var j :| 0 <= j < |added| && added[j] == x;
      assert results1[|results0| + j] == x;
    }
    NoResultsFor(added, recordId);
  }

  /** The channel switch of `ShouldNotifySubscriberAsync`: `All` asks for any of the three. */
  predicate ChannelPreferred(s: Subscriber, t: NotificationType)
  {
    match t
    case Email => s.prefersEmail
    case Sms => s.prefersSms
    case Push => s.prefersPush
    case All => s.prefersEmail || s.prefersSms || s.prefersPush
  }

  /** A subscriber prefers `All` exactly when it prefers one of the three channels. */
  lemma AllMeansAnyChannel(s: Subscriber)
    ensures ChannelPreferred(s, All) <==> exists t :: t != All && ChannelPreferred(s, t)
  {
    if ChannelPreferred(s, All) {
      var t := if s.prefersEmail then Email else if s.prefersSms then Sms else Push;
      assert t != All && ChannelPreferred(s, t);
    }
  }

  /**
   * `ShouldNotifySubscriberAsync` and
   * `ShouldNotifySubscriberAboutInstanceAsync`: an active, visible
   * subscriber who has not yet been notified successfully about the target
   * on the channel, and who prefers the channel.
   */
  predicate ShouldNotify(s: Entity<Subscriber>, records: Records, results: Results, target: Target, t: NotificationType)
  {
    if !s.data.isActive || s.isDeleted then false
    else if HasBeenNotified(records, results, s.id, target, t) then false
    else ChannelPreferred(s.data, t)
  }

  /** Once a notification about the target succeeded on the channel, the subscriber is not notified again. */
  lemma NotifiedOnce(s: Entity<Subscriber>, records: Records, results: Results, target: Target, t: NotificationType)
    requires HasBeenNotified(records, results, s.id, target, t)
    ensures !ShouldNotify(s, records, results, target, t)
  {
  }

  /** The identifiers of the tags found under the names, in order; names of no tag are skipped. */
  function ResolvedIds(tags: seq<Entity<Tag>>, names: seq<string>): seq<Id>
  {
    if names == [] then []
    else
      var found := FindByName(tags, names[|names| - 1]);
      ResolvedIds(tags, names[..|names| - 1]) + (if found.Some? then [found.value.id] else [])
  }

  /** An identifier is resolved exactly when one of the names finds the tag holding it. */
  lemma {:induction false} ResolvedIdsMembers(tags: seq<Entity<Tag>>, names: seq<string>, id: Id)
    ensures id in ResolvedIds(tags, names) <==> exists n :: n in names && NamesTag(tags, n, id)
  {
    if names != [] {
      var init := names[..|names| - 1];
      var last := names[|names| - 1];
      assert names == init + [last];
      ResolvedIdsMembers(tags, init, id);
      if NamesTag(tags, last, id) {
        assert last in names;
      }
      if exists n :: n in names && NamesTag(tags, n, id) {
        var n :| n in names && NamesTag(tags, n, id);
        if n != last {
          assert n in init;
        }
      }
    }
  }

  /** A query over the visible rows keeps identifiers distinct. */
  lemma LiveFilterUniqueIds<T(!new)>(rows: seq<Entity<T>>, p: Entity<T> -> bool)
    ensures UniqueIds(rows) ==> UniqueIds(Seqs.Filter(Live(rows), p))
  {
    if UniqueIds(rows) {
      FilterUniqueIds(rows, Visible);
      FilterUniqueIds(Live(rows), p);
    }
  }

  /** The subscriber keeps an active preference for one of the tags. */
  predicate WantsAnyOf(s: Subscriber, tagIds: seq<Id>)
  {
    exists p :: p in s.tagPreferences && p.tagId in tagIds && p.isActive
  }

  /** The test of `GetEligibleSubscribersAsync`: active when asked, and interested in a resolved tag when any was resolved. */
  function EligibleFor(tagIds: seq<Id>, onlyActive: bool): Entity<Subscriber> -> bool
  {
    (s: Entity<Subscriber>) => (!onlyActive || s.data.isActive) && (tagIds == [] || WantsAnyOf(s.data, tagIds))
  }

  /**
   * `GetEligibleSubscribersAsync`, once the tag names are resolved: the
   * visible subscribers, only the active ones when `onlyActive`, and, when
   * some tag was resolved, only those with an active preference for one of
   * them; in table order.
   */
  function Eligible(subscribers: seq<Entity<Subscriber>>, tagIds: seq<Id>, onlyActive: bool): (r: seq<Entity<Subscriber>>)
    ensures forall s :: s in r <==>
      && s in subscribers && !s.isDeleted
      && (onlyActive ==> s.data.isActive)
      && (tagIds != [] ==> WantsAnyOf(s.data, tagIds))
    ensures Seqs.IsSubsequence(r, Live(subscribers))
    ensures UniqueIds(subscribers) ==> UniqueIds(r)
  {
    var r := Seqs.Filter(Live(subscribers), EligibleFor(tagIds, onlyActive));
    Seqs.FilterIsSubsequence(Live(subscribers), EligibleFor(tagIds, onlyActive));
    LiveFilterUniqueIds(subscribers, EligibleFor(tagIds, onlyActive));
    r
  }

  /** A nullable column compared with SQL's `=` under `same`: NULL matches nothing. */
  predicate ColumnIs(column: Option<string>, value: string, same: (string, string) -> bool)
  {
    column.Some? && same(column.value, value)
  }

  /**
   * The test of `NotifySubscribersByLocationAsync`, with its active filter
   * as the source has it; `same` is the `=` of the database collation the
   * query runs under.
   */
  function AtLocation(city: string, state: Option<string>, country: Option<string>, onlyActive: bool,
                      same: (string, string) -> bool): Entity<Subscriber> -> bool
  {
    (s: Entity<Subscriber>) =>
      && (onlyActive || s.data.isActive)
      && ColumnIs(s.data.preferredCity, city, same)
      && (state.None? || ColumnIs(s.data.preferredState, state.value, same))
      && (country.None? || ColumnIs(s.data.preferredCountry, country.value, same))
  }

  /**
   * The subscribers `NotifySubscribersByLocationAsync` sends to: visible,
   * in the city, and in the state and country when those are given, each
   * compared with the collation's `same`. The active filter applies when
   * `onlyActive` is false, and not when it is true; the radius is not read.
   */
  function LocationCandidates(subscribers: seq<Entity<Subscriber>>, city: string, state: Option<string>,
                              country: Option<string>, onlyActive: bool, same: (string, string) -> bool)
    : (r: seq<Entity<Subscriber>>)
    ensures forall s :: s in r <==>
      && s in subscribers && !s.isDeleted
      && (!onlyActive ==> s.data.isActive)
      && s.data.preferredCity.Some? && same(s.data.preferredCity.value, city)
      && (state.Some? ==> s.data.preferredState.Some? && same(s.data.preferredState.value, state.value))
      && (country.Some? ==> s.data.preferredCountry.Some? && same(s.data.preferredCountry.value, country.value))
    ensures UniqueIds(subscribers) ==> UniqueIds(r)
  {
    LiveFilterUniqueIds(subscribers, AtLocation(city, state, country, onlyActive, same));
    Seqs.Filter(Live(subscribers), AtLocation(city, state, country, onlyActive, same))
  }

  /**
   * Under the default case-insensitive collation a subscriber stored in
   * "Seattle" is a candidate for the city "seattle ", which a binary
   * collation would not admit.
   */
  lemma LocationFollowsCollation(s: Entity<Subscriber>)
    requires !s.isDeleted && s.data.preferredCity == Some("Seattle")
    ensures s in LocationCandidates([s], "seattle ", None, None, true, SameIgnoringCase())
    ensures s !in LocationCandidates([s], "seattle ", None, None, true, SameBinary())
  {
    SameIgnoringCaseExample();
  }

  /** The date and channel filters of the history queries. */
  predicate InWindow(n: NotificationRecord, startDate: Option<Time>, endDate: Option<Time>, t: Option<NotificationType>)
  {
    && (startDate.Some? ==> n.sentAt >= startDate.value)
    && (endDate.Some? ==> n.sentAt <= endDate.value)
    && (t.Some? ==> n.notificationType == t.value)
  }

  function SentAt(r: Entity<NotificationRecord>): int
  {
    r.data.sentAt
  }

  function OfSubscriber(subscriberId: Id, startDate: Option<Time>, endDate: Option<Time>, t: Option<NotificationType>): Entity<NotificationRecord> -> bool
  {
    (r: Entity<NotificationRecord>) => r.data.subscriberId == subscriberId && InWindow(r.data, startDate, endDate, t)
  }

  function OfEvent(eventId: Id, startDate: Option<Time>, endDate: Option<Time>, t: Option<NotificationType>): Entity<NotificationRecord> -> bool
  {
    (r: Entity<NotificationRecord>) => r.data.eventId == Some(eventId) && InWindow(r.data, startDate, endDate, t)
  }

  /**
   * `GetSubscriberNotificationHistoryAsync`: the subscriber's visible
   * records within the bounds and on the channel when given, newest first.
   */
  function SubscriberHistory(records: Records, subscriberId: Id, startDate: Option<Time>, endDate: Option<Time>,
                             t: Option<NotificationType>): (r: Records)
    ensures Seqs.SortedBy(r, Seqs.ByIntDescending(SentAt))
    ensures forall n :: n in r <==> n in records && !n.isDeleted && n.data.subscriberId == subscriberId && InWindow(n.data, startDate, endDate, t)
    ensures multiset(r) == multiset(Seqs.Filter(Live(records), OfSubscriber(subscriberId, startDate, endDate, t)))
  {
    Seqs.ByIntPreorder(SentAt);
    var kept := Seqs.Filter(Live(records), OfSubscriber(subscriberId, startDate, endDate, t));
    var r := Seqs.SortBy(kept, Seqs.ByIntDescending(SentAt));
    assert forall n :: n in r <==> n in multiset(kept);
    r
  }

  /**
   * `GetEventNotificationHistoryAsync`: the visible records about the
   * event within the bounds and on the channel when given, newest first.
   */
  function EventHistory(records: Records, eventId: Id, startDate: Option<Time>, endDate: Option<Time>,
                        t: Option<NotificationType>): (r: Records)
    ensures Seqs.SortedBy(r, Seqs.ByIntDescending(SentAt))
    ensures forall n :: n in r <==> n in records && !n.isDeleted && n.data.eventId == Some(eventId) && InWindow(n.data, startDate, endDate, t)
    ensures multiset(r) == multiset(Seqs.Filter(Live(records), OfEvent(eventId, startDate, endDate, t)))
  {
    Seqs.ByIntPreorder(SentAt);
    var kept := Seqs.Filter(Live(records), OfEvent(eventId, startDate, endDate, t));
    var r := Seqs.SortBy(kept, Seqs.ByIntDescending(SentAt));
    assert forall n :: n in r <==> n in multiset(kept);
    r
  }

  /** A line of the message template that is empty when the value is absent. */
  function LineIf(caption: string, value: Option<string>): string
  {
    if value.Some? then caption + value.value else ""
  }

  /** The names of the visible tags among the identifiers, in order. */
  function TagNames(tags: seq<Entity<Tag>>, ids: seq<Id>): (r: seq<string>)
    ensures |r| <= |ids|
    ensures forall n :: n in r ==> exists t :: t in tags && !t.isDeleted && t.id in ids && t.data.name == n
  {
    if ids == [] then []
    else
      var rest := TagNames(tags, ids[1..]);
      match FindLive(tags, ids[0])
      case None => rest
      case Some(i) => [tags[i].data.name] + rest
  }

  /**
   * An event's stored tags hold each tag once, and tags have distinct
   * identifiers and names: the Tags line then names exactly the visible
   * tags among the identifiers, each once.
   */
  lemma {:induction false} TagNamesOnce(tags: seq<Entity<Tag>>, ids: seq<Id>)
    requires UniqueIds(tags) && UniqueNames(tags) && Seqs.Distinct(ids)
    ensures Seqs.Distinct(TagNames(tags, ids))
    ensures forall t :: t in tags && !t.isDeleted && t.id in ids ==> t.data.name in TagNames(tags, ids)
  {
    if ids != [] {
      var tail := ids[1..];
      assert Seqs.Distinct(tail) by {
        forall i, j | 0 <= i < j < |tail| ensures tail[i] != tail[j] {
          assert tail[i] == ids[i + 1] && tail[j] == ids[j + 1];
        }
      }
      assert ids[0] !in tail by {
        forall j | 0 <= j < |tail| ensures tail[j] != ids[0] {
          assert tail[j] == ids[j + 1];
        }
      }
      TagNamesOnce(tags, tail);
      var rest := TagNames(tags, tail);
      forall t | t in tags && !t.isDeleted && t.id in ids ensures t.data.name in TagNames(tags, ids) {
        if t.id == ids[0] {
          var i := FindLive(tags, ids[0]).value;
          SameIdSameRow(tags, tags[i], t);
        } else {
          assert t.id in tail;
        }
      }
      match FindLive(tags, ids[0])
      case None =>
      case Some(i) =>
        forall n | n in rest ensures n != tags[i].data.name {
          var t :| t in tags && !t.isDeleted && t.id in tail && t.data.name == n;
          assert t != tags[i];
        }
        assert TagNames(tags, ids) == [tags[i].data.name] + rest;
        forall a, b | 0 <= a < b < |[tags[i].data.name] + rest|
          ensures ([tags[i].data.name] + rest)[a] != ([tags[i].data.name] + rest)[b]
        {
          if a == 0 {
            assert ([tags[i].data.name] + rest)[b] == rest[b - 1] && rest[b - 1] in rest;
          } else {
            assert ([tags[i].data.name] + rest)[a] == rest[a - 1] && ([tags[i].data.name] + rest)[b] == rest[b - 1];
          }
        }
    }
  }

  function TagsLine(names: seq<string>): string
  {
    if names == [] then "" else "Tags: " + Join(names, ", ")
  }

  /** A text built by joining lines starts with its first line. */
  lemma {:induction false} JoinStartsWithFirst(parts: seq<string>, sep: string)
    requires parts != []
    ensures |parts[0]| <= |Join(parts, sep)| && Join(parts, sep)[..|parts[0]|] == parts[0]
  {
    if |parts| > 1 {
      assert Join(parts, sep) == parts[0] + (sep + Join(parts[1..], sep));
    }
  }

  /** The subject of a notification about an event. */
  function EventSubject(d: EventDetails): string
  {
    "New Event: " + d.title
  }

  /** The subject of a reminder about an occurrence; the title is empty when the event is not loaded. */
  function InstanceSubject(e: Option<Event>): string
  {
    "Event Reminder: " + (if e.Some? then e.value.details.title else "")
  }

  /**
   * `GenerateEventNotificationMessage`: the subject line, the description,
   * the link and the organizer's details when present, and the tag names
   * when there are any, one item per line.
   */
  function EventMessage(e: Event, tagNames: seq<string>): (r: string)
    ensures |EventSubject(e.details)| <= |r| && r[..|EventSubject(e.details)|] == EventSubject(e.details)
  {
    var d := e.details;
    var lines := [EventSubject(d), "", "Description: " + d.description, "",
                  LineIf("More information: ", d.externalUrl), "",
                  LineIf("Organizer: ", d.organizerName), LineIf("Contact: ", d.organizerEmail), LineIf("Phone: ", d.organizerPhone),
                  "", TagsLine(tagNames)];
    JoinStartsWithFirst(lines, "\n");
    Join(lines, "\n")
  }

  /**
   * The event message ends with its last template line, the tags line: a
   * line break and then nothing when the event has no tags, otherwise
   * "Tags: " and the names joined by ", ".
   */
  lemma EventMessageEndsWithTags(e: Event, tagNames: seq<string>)
    ensures var r := EventMessage(e, tagNames);
      var t := TagsLine(tagNames);
      |t| + 1 <= |r| && r[|r| - |t| - 1..] == "\n" + t
    ensures tagNames == [] ==> TagsLine(tagNames) == ""
    ensures tagNames != [] ==> TagsLine(tagNames) == "Tags: " + Join(tagNames, ", ")
  {
    var d := e.details;
    var lines := [EventSubject(d), "", "Description: " + d.description, "",
                  LineIf("More information: ", d.externalUrl), "",
                  LineIf("Organizer: ", d.organizerName), LineIf("Contact: ", d.organizerEmail), LineIf("Phone: ", d.organizerPhone),
                  ""];
    var t := TagsLine(tagNames);
    assert lines + [t] == [EventSubject(d), "", "Description: " + d.description, "",
                  LineIf("More information: ", d.externalUrl), "",
                  LineIf("Organizer: ", d.organizerName), LineIf("Contact: ", d.organizerEmail), LineIf("Phone: ", d.organizerPhone),
                  "", t];
    JoinSnoc(lines, t, "\n");
    var r := EventMessage(e, tagNames);
    assert r == Join(lines, "\n") + ("\n" + t);
  }

  /** The error of a reminder whose event is not loaded and that has no custom message. */
  const NoEvent: Error := InvalidOperation("Event instance has no associated event.")

  /**
   * `GenerateEventInstanceNotificationMessage`: InvalidOperation when the
   * occurrence's event is not loaded; otherwise the subject line, the
   * times (rendered by `format`), the place and room, and the event's link,
   * organizer and tags as in the event message.
   */
  function InstanceMessage(i: EventInstance, e: Option<Event>, tagNames: seq<string>, format: Time -> string): (r: Result<string>)
    ensures r.Fail? <==> e.None?
    ensures r.Fail? ==> r.error == NoEvent
    ensures r.Ok? ==> |InstanceSubject(e)| <= |r.value| && r.value[..|InstanceSubject(e)|] == InstanceSubject(e)
  {
    if e.None? then Fail(NoEvent)
    else
      var d := e.value.details;
      var room := if i.details.room.Some? && i.details.room.value != "" then "Room: " + i.details.room.value else "";
      var lines := [InstanceSubject(e), "", "When: " + format(i.startTime) + " - " + format(i.endTime),
                    "Where: " + i.details.location, room, "",
                    LineIf("More information: ", d.externalUrl), "",
                    LineIf("Organizer: ", d.organizerName), LineIf("Contact: ", d.organizerEmail), LineIf("Phone: ", d.organizerPhone),
                    "", TagsLine(tagNames)];
      JoinStartsWithFirst(lines, "\n");
      Ok(Join(lines, "\n"))
  }
}
