/**
 * `NotificationService`: sending one notification (a record, then one
 * attempt per matching handler, with the subscriber's bookkeeping on each
 * success), the four ways of picking recipients, and the channel
 * preferences. The transport each handler talks to is outside the model:
 * what it answers for a record and a handler is the parameter `transport`.
 */
module Notifications {

  import opened Common
  import opened Entities
  import opened Data
  import opened Store
  import Seqs
  import opened RecordStatus
  import opened Handlers
  import opened HandlerFactory
  import opened Tags
  import opened Targeting
  import Subscribers
  import Events

  /** What the outside world answers when `h` sends the record numbered `recordId`. */
  type Transport = (Id, Handler) -> Delivery

  /** The handler's attempt succeeds: it takes the channel, the transport delivered, the contact detail is there. */
  predicate Succeeds(h: Handler, t: NotificationType, s: Subscriber, d: Delivery)
  {
    CanHandle(h, t) && d.Delivered? && !MissingContact(h, s)
  }

  predicate AnySucceeds(hs: seq<Handler>, t: NotificationType, s: Subscriber, recordId: Id, transport: Transport)
  {
    exists h :: h in hs && Succeeds(h, t, s, transport(recordId, h))
  }

  /** The last handler's attempt succeeds; the record's status is that attempt's. */
  predicate LastSucceeds(hs: seq<Handler>, t: NotificationType, s: Subscriber, recordId: Id, transport: Transport)
  {
    hs != [] && Succeeds(hs[|hs| - 1], t, s, transport(recordId, hs[|hs| - 1]))
  }

  /** For a single channel, at most one of distinct registered handlers takes it, so that handler decides. */
  lemma SingleChannelOneHandler(registered: seq<Handler>, t: NotificationType)
    requires t != All
    requires forall i, j :: 0 <= i < j < |registered| ==> registered[i] != registered[j]
    ensures |Matching(registered, t)| <= 1
  {
    var m := Matching(registered, t);
    if |m| > 1 {
      assert CanHandle(m[0], t) && CanHandle(m[1], t);
      assert m[0] == HandlerOf(t) && m[1] == HandlerOf(t);
      assert m[0] in registered && m[1] in registered;
      SubsequenceDistinct(m, registered);
      assert false;
    }
  }

  /** A subsequence of a sequence without repetitions has none either. */
  lemma {:induction false} SubsequenceDistinct(a: seq<Handler>, b: seq<Handler>)
    requires Seqs.IsSubsequence(a, b)
    requires forall i, j :: 0 <= i < j < |b| ==> b[i] != b[j]
    ensures forall i, j :: 0 <= i < j < |a| ==> a[i] != a[j]
    decreases |b|
  {
    if a != [] && b != [] {
      assert forall i, j :: 0 <= i < j < |b[1..]| ==> b[1..][i] != b[1..][j] by {
        forall i, j | 0 <= i < j < |b[1..]| ensures b[1..][i] != b[1..][j] {
          assert b[1..][i] == b[i + 1] && b[1..][j] == b[j + 1];
        }
      }
      if a[0] == b[0] {
        SubsequenceDistinct(a[1..], b[1..]);
        SubsequenceMembers(a[1..], b[1..]);
        forall i, j | 0 <= i < j < |a| ensures a[i] != a[j] {
          if i == 0 {
            assert a[j] == a[1..][j - 1] && a[j] in b[1..];
            var m :| 0 <= m < |b[1..]| && b[1..][m] == a[j];
            assert b[m + 1] == a[j];
          } else {
            assert a[i] == a[1..][i - 1] && a[j] == a[1..][j - 1];
          }
        }
      } else {
        SubsequenceDistinct(a, b[1..]);
      }
    }
  }

  lemma {:induction false} SubsequenceMembers(a: seq<Handler>, b: seq<Handler>)
    requires Seqs.IsSubsequence(a, b)
    ensures forall x :: x in a ==> x in b
    decreases |b|
  {
    if a != [] && b != [] {
      if a[0] == b[0] {
        SubsequenceMembers(a[1..], b[1..]);
        assert forall x :: x in a ==> x == a[0] || x in a[1..];
      } else {
        SubsequenceMembers(a, b[1..]);
      }
    }
  }

  /**
   * With `All` the last handler decides the record's status: when the
   * e-mail handler runs before the SMS handler and the subscriber has no
   * phone number, the e-mail is delivered and the record still reads as
   * unsuccessful.
   */
  lemma AllReportsLastHandler(s: Subscriber, recordId: Id, transport: Transport)
    requires s.phoneNumber.None?
    requires transport(recordId, EmailHandler) == Delivered && transport(recordId, SmsHandler) == Delivered
    ensures AnySucceeds([EmailHandler, SmsHandler], All, s, recordId, transport)
    ensures !LastSucceeds([EmailHandler, SmsHandler], All, s, recordId, transport)
  {
    assert EmailHandler in [EmailHandler, SmsHandler];
  }

  /**
   * The subscriber after a successful attempt: `LastNotifiedAt` is stamped,
   * and `LastEmailSentAt` or `LastSmsSentAt` too (with a second reading of
   * the clock) when the channel is e-mail or SMS.
   */
  function Bookkeeping(s: Subscriber, t: NotificationType, notifiedAt: Time, sentAt: Time): (r: Subscriber)
    ensures Stamped(s, r, t)
    ensures r.lastNotifiedAt == Some(notifiedAt)
    ensures t == Email ==> r.lastEmailSentAt == Some(sentAt)
    ensures t == Sms ==> r.lastSmsSentAt == Some(sentAt)
  {
    var r := s.(lastNotifiedAt := Some(notifiedAt));
    if t == Email then r.(lastEmailSentAt := Some(sentAt))
    else if t == Sms then r.(lastSmsSentAt := Some(sentAt))
    else r
  }

  /**
   * `after` is `before` with the bookkeeping of a notification on channel
   * `t` done: only the three stamps may differ, `LastNotifiedAt` is set,
   * the e-mail stamp changes only for e-mail and the SMS stamp only for SMS.
   */
  ghost predicate Stamped(before: Subscriber, after: Subscriber, t: NotificationType)
  {
    && after == before.(lastNotifiedAt := after.lastNotifiedAt, lastEmailSentAt := after.lastEmailSentAt,
                        lastSmsSentAt := after.lastSmsSentAt)
    && after.lastNotifiedAt.Some?
    && (if t == Email then after.lastEmailSentAt.Some? else after.lastEmailSentAt == before.lastEmailSentAt)
    && (if t == Sms then after.lastSmsSentAt.Some? else after.lastSmsSentAt == before.lastSmsSentAt)
  }

  /** Stamping twice is stamping once, and it leaves the contact details alone. */
  lemma StampedTrans(a: Subscriber, b: Subscriber, c: Subscriber, t: NotificationType)
    requires Stamped(a, b, t) && Stamped(b, c, t)
    ensures Stamped(a, c, t)
    ensures c.email == a.email && c.phoneNumber == a.phoneNumber && c.pushToken == a.pushToken
  {
  }

  /** The last stored result is a visible failure of the record, with this message. */
  predicate LastStoredFailure(rows: Results, recordId: Id, message: string)
  {
    rows != [] && rows[|rows| - 1].data == Failed(recordId, message) && !rows[|rows| - 1].isDeleted
  }

  /** `after` is `before` with one failed result of the record, carrying this message, appended. */
  ghost predicate FailureStored(before: Results, after: Results, recordId: Id, message: string)
  {
    |after| == |before| + 1 && after[..|before|] == before && LastStoredFailure(after, recordId, message)
  }

  /** The record's latest result is a failure with this message. */
  predicate LatestFailure(rows: Results, recordId: Id, message: string)
  {
    Latest(ResultsOf(rows, recordId)).Some? && Latest(ResultsOf(rows, recordId)).value.data == Failed(recordId, message)
  }

  /** `after` extends `before` with results for the record `recordId` only. */
  ghost predicate ResultsAppendedFor(before: Results, after: Results, recordId: Id)
  {
    && |before| <= |after| && after[..|before|] == before
    && (forall j :: |before| <= j < |after| ==> after[j].data.notificationId == recordId && !after[j].isDeleted)
  }

  lemma AppendedForSnoc(before: Results, x: Entity<NotificationResult>, recordId: Id)
    requires x.data.notificationId == recordId && !x.isDeleted
    ensures ResultsAppendedFor(before, before + [x], recordId)
  {
    assert (before + [x])[..|before|] == before;
  }

  lemma AppendedForTrans(a: Results, b: Results, c: Results, recordId: Id)
    requires ResultsAppendedFor(a, b, recordId) && ResultsAppendedFor(b, c, recordId)
    ensures ResultsAppendedFor(a, c, recordId)
  {
    assert c[..|a|] == b[..|a|];
    forall j | |a| <= j < |c|
      ensures c[j].data.notificationId == recordId && !c[j].isDeleted
    {
      if j < |b| {
        assert c[j] == c[..|b|][j] == b[j];
      }
    }
  }

  /** Results appended for one record leave every other record's results as they were. */
  lemma ResultsKept(before: Results, after: Results, recordId: Id, other: Id)
    requires ResultsAppendedFor(before, after, recordId) && other != recordId
    ensures ResultsOf(after, other) == ResultsOf(before, other)
  {
    var added := after[|before|..];
    assert after == before + added;
    ResultsOfAppend(before, added, other);
    forall x | x in added
      ensures x.data.notificationId != other
    {
      var j :| 0 <= j < |added| && added[j] == x;
      assert after[|before| + j] == x;
    }
    NoResultsFor(added, other);
  }

  /** The identifiers of the rows, in order. */
  function IdsOf<T>(rows: seq<Entity<T>>): (r: seq<Id>)
    ensures |r| == |rows| && forall k :: 0 <= k < |rows| ==> r[k] == rows[k].id
  {
    if rows == [] then [] else [rows[0].id] + IdsOf(rows[1..])
  }

  /** The subscribers the records are addressed to, in order. */
  function Recipients(records: Records): (r: seq<Id>)
    ensures |r| == |records| && forall k :: 0 <= k < |records| ==> r[k] == records[k].data.subscriberId
  {
    if records == [] then [] else [records[0].data.subscriberId] + Recipients(records[1..])
  }

  /**
   * Who gets a notification from a loop over candidates: everyone when
   * there is no target, otherwise those `ShouldNotify` admits against the
   * tables as they were before the loop.
   */
  function Wants(records: Records, results: Results, target: Option<Target>, t: NotificationType): Entity<Subscriber> -> bool
  {
    (s: Entity<Subscriber>) => target.None? || ShouldNotify(s, records, results, target.value, t)
  }

  /** A record as `SendNotificationAsync` builds it for this message. */
  predicate Carries(n: Entity<NotificationRecord>, subject: string, message: string, t: NotificationType, target: Option<Target>)
  {
    && !n.isDeleted
    && n.data.subject == subject && n.data.message == message && n.data.notificationType == t
    && n.data.eventId == EventIdOf(target) && n.data.eventInstanceId == InstanceIdOf(target)
  }

  /** Each record's status is what the last handler made of its subscriber. */
  ghost predicate StatusesMatch(added: Records, sent: seq<Entity<Subscriber>>, results: Results, hs: seq<Handler>,
                                t: NotificationType, transport: Transport)
  {
    && |added| == |sent|
    && forall k :: 0 <= k < |added| ==>
         (WasSuccessful(ResultsOf(results, added[k].id)) <==> LastSucceeds(hs, t, sent[k].data, added[k].id, transport))
  }

  lemma StatusesKept(added: Records, sent: seq<Entity<Subscriber>>, before: Results, after: Results, recordId: Id,
                     hs: seq<Handler>, t: NotificationType, transport: Transport)
    requires StatusesMatch(added, sent, before, hs, t, transport)
    requires ResultsAppendedFor(before, after, recordId)
    requires forall k :: 0 <= k < |added| ==> added[k].id != recordId
    ensures StatusesMatch(added, sent, after, hs, t, transport)
  {
    forall k | 0 <= k < |added|
      ensures ResultsOf(after, added[k].id) == ResultsOf(before, added[k].id)
    {
      ResultsKept(before, after, recordId, added[k].id);
    }
  }

  lemma StatusesSnoc(added: Records, sent: seq<Entity<Subscriber>>, results: Results, hs: seq<Handler>,
                     t: NotificationType, transport: Transport, record: Entity<NotificationRecord>, s: Entity<Subscriber>)
    requires StatusesMatch(added, sent, results, hs, t, transport)
    requires WasSuccessful(ResultsOf(results, record.id)) <==> LastSucceeds(hs, t, s.data, record.id, transport)
    ensures StatusesMatch(added + [record], sent + [s], results, hs, t, transport)
  {
  }

  /**
   * Where the handler loop stands with the subscriber: untouched while no
   * attempt succeeded; after one did, the visible row was rewritten with
   * the stamped subscriber `cur`.
   */
  ghost predicate Progress(subs0: seq<Entity<Subscriber>>, subs: seq<Entity<Subscriber>>, s: Entity<Subscriber>,
                           cur: Subscriber, anySucceeded: bool, t: NotificationType)
  {
    if anySucceeded then FindLive(subs0, s.id).Some? && Rewritten(subs0, subs, s.id, cur) && Stamped(s.data, cur, t)
    else subs == subs0 && cur == s.data
  }

  /**
   * The outcome of one handler's attempt: nothing to write back after a
   * failure; after a success, KeyNotFound when the subscriber has no
   * visible row, otherwise the row rewritten with the stamped subscriber.
   * `status` is the record's status afterwards.
   */
  ghost predicate Attempted(subs0: seq<Entity<Subscriber>>, subs1: seq<Entity<Subscriber>>, s: Entity<Subscriber>,
                            cur: Subscriber, next: Subscriber, success: bool, r: Result<()>, status: bool, t: NotificationType)
  {
    if !success then r.Ok? && next == cur && subs1 == subs0 && !status
    else if FindLive(subs0, s.id).None? then r == Fail(Missing("Subscriber", s.id)) && subs1 == subs0 && !status
    else r.Ok? && status && Rewritten(subs0, subs1, s.id, next) && Stamped(cur, next, t)
  }

  lemma AnySucceedsSnoc(hs: seq<Handler>, k: nat, t: NotificationType, s: Subscriber, recordId: Id, transport: Transport)
    requires k < |hs|
    ensures AnySucceeds(hs[..k + 1], t, s, recordId, transport) ==
      (AnySucceeds(hs[..k], t, s, recordId, transport) || Succeeds(hs[k], t, s, transport(recordId, hs[k])))
  {
    assert hs[..k + 1] == hs[..k] + [hs[k]];
    if AnySucceeds(hs[..k + 1], t, s, recordId, transport) {
      var h :| h in hs[..k + 1] && Succeeds(h, t, s, transport(recordId, h));
      if h != hs[k] {
        assert h in hs[..k];
      }
    }
  }

  lemma ProgressStep(subs0: seq<Entity<Subscriber>>, subs: seq<Entity<Subscriber>>, subs1: seq<Entity<Subscriber>>,
                     s: Entity<Subscriber>, cur: Subscriber, next: Subscriber, anySucceeded: bool, success: bool,
                     t: NotificationType)
    requires Progress(subs0, subs, s, cur, anySucceeded, t)
    requires forall x :: FindLive(subs, x) == FindLive(subs0, x)
    requires !success ==> subs1 == subs && next == cur
    requires success ==> FindLive(subs, s.id).Some? && Rewritten(subs, subs1, s.id, next) && Stamped(cur, next, t)
    ensures Progress(subs0, subs1, s, next, anySucceeded || success, t)
  {
    if success && anySucceeded {
      RewrittenTrans(subs0, subs, subs1, s.id, cur, next);
      StampedTrans(s.data, cur, next, t);
    }
  }

  /**
   * The effect of a loop that sent `sent` one notification each: one record
   * per recipient, in order, appended to the records; each record carries
   * the message, channel and target and its status is what the last
   * matching handler made of its subscriber; results were only appended.
   */
  ghost predicate Notified(records0: Records, records: Records, results0: Results, results: Results,
                           sent: seq<Entity<Subscriber>>, subject: string, message: string, t: NotificationType,
                           target: Option<Target>, hs: seq<Handler>, transport: Transport)
  {
    && |records0| <= |records| && records[..|records0|] == records0
    && |results0| <= |results| && results[..|results0|] == results0
    && Recipients(records[|records0|..]) == IdsOf(sent)
    && (forall j :: |records0| <= j < |records| ==> Carries(records[j], subject, message, t, target))
    && StatusesMatch(records[|records0|..], sent, results, hs, t, transport)
  }

  lemma NotifiedStart(records: Records, results: Results, subject: string, message: string, t: NotificationType,
                      target: Option<Target>, hs: seq<Handler>, transport: Transport)
    ensures Notified(records, records, results, results, [], subject, message, t, target, hs, transport)
  {
    assert records[..|records|] == records && results[..|results|] == results;
  }

  lemma RecordsSnoc(records0: Records, records: Records, record: Entity<NotificationRecord>)
    requires |records0| <= |records| && records[..|records0|] == records0
    ensures (records + [record])[..|records0|] == records0
    ensures (records + [record])[|records0|..] == records[|records0|..] + [record]
  {
  }

  lemma RecipientsSnoc(added: Records, record: Entity<NotificationRecord>)
    ensures Recipients(added + [record]) == Recipients(added) + [record.data.subscriberId]
  {
  }

  lemma IdsOfSnoc(sent: seq<Entity<Subscriber>>, s: Entity<Subscriber>)
    ensures IdsOf(sent + [s]) == IdsOf(sent) + [s.id]
  {
  }

  lemma NotifiedSnoc(records0: Records, records: Records, results0: Results, results: Results, results1: Results,
                     sent: seq<Entity<Subscriber>>, record: Entity<NotificationRecord>, s: Entity<Subscriber>,
                     subject: string, message: string, t: NotificationType, target: Option<Target>,
                     hs: seq<Handler>, transport: Transport)
    requires Notified(records0, records, results0, results, sent, subject, message, t, target, hs, transport)
    requires ResultsAppendedFor(results, results1, record.id)
    requires forall j :: |records0| <= j < |records| ==> records[j].id < record.id
    requires record.data.subscriberId == s.id && Carries(record, subject, message, t, target)
    requires WasSuccessful(ResultsOf(results1, record.id)) <==> LastSucceeds(hs, t, s.data, record.id, transport)
    ensures Notified(records0, records + [record], results0, results1, sent + [s], subject, message, t, target, hs, transport)
  {
    var added := records[|records0|..];
    RecordsSnoc(records0, records, record);
    assert results1[..|results0|] == results[..|results0|];
    RecipientsSnoc(added, record);
    IdsOfSnoc(sent, s);
    StatusesKept(added, sent, results, results1, record.id, hs, t, transport);
    StatusesSnoc(added, sent, results1, hs, t, transport, record, s);
  }

  /**
   * What a loop has added so far: records numbered from `bound` on, each
   * for a subscriber in `done`, and results only for such records; every
   * earlier record is numbered below `bound`.
   */
  ghost predicate SentOnlyTo(records0: Records, records: Records, results0: Results, results: Results,
                             bound: Id, done: set<Id>)
  {
    && |records0| <= |records| && records[..|records0|] == records0
    && |results0| <= |results| && results[..|results0|] == results0
    && (forall e :: e in records0 ==> e.id < bound)
    && (forall j :: |records0| <= j < |records| ==> records[j].id >= bound && records[j].data.subscriberId in done)
    && (forall j :: |results0| <= j < |results| ==> results[j].data.notificationId >= bound)
  }

  lemma SentOnlyToElsewhere(records0: Records, records: Records, results0: Results, results: Results,
                            bound: Id, done: set<Id>, subscriberId: Id)
    requires SentOnlyTo(records0, records, results0, results, bound, done) && subscriberId !in done
    ensures GrewElsewhere(records0, records, results0, results, bound, subscriberId)
  {
  }

  lemma SentOnlyToSnoc(records0: Records, records: Records, results0: Results, results: Results, results1: Results,
                       bound: Id, done: set<Id>, record: Entity<NotificationRecord>)
    requires SentOnlyTo(records0, records, results0, results, bound, done)
    requires ResultsAppendedFor(results, results1, record.id) && record.id >= bound
    ensures SentOnlyTo(records0, records + [record], results0, results1, bound, done + {record.data.subscriberId})
  {
    var records1 := records + [record];
    assert records1[..|records0|] == records0;
    assert results1[..|results0|] == results[..|results0|];
    forall j | |results0| <= j < |results1|
      ensures results1[j].data.notificationId >= bound
    {
      if j < |results| {
        assert results1[j] == results1[..|results|][j];
      }
    }
  }

  /** A visible row is found by its identifier. */
  lemma LiveRowFound<T>(rows: seq<Entity<T>>, e: Entity<T>)
    requires e in rows && !e.isDeleted
    ensures FindLive(rows, e.id).Some?
  {
    var i :| 0 <= i < |rows| && rows[i] == e;
  }

  /** In a list with distinct identifiers, no later element shares the identifier of element `k`. */
  lemma UniqueIdsAt(list: seq<Entity<Subscriber>>, k: nat)
    requires UniqueIds(list) && k < |list|
    ensures forall m :: k < m < |list| ==> list[m].id != list[k].id
  {
  }

  /** Without a target nobody is skipped: the by-tags and by-location sends go to every candidate. */
  lemma {:induction false} NoTargetWantsAll(list: seq<Entity<Subscriber>>, records: Records, results: Results,
                                            t: NotificationType)
    ensures Seqs.Filter(list, Wants(records, results, None, t)) == list
  {
    if list != [] {
      NoTargetWantsAll(list[1..], records, results, t);
      assert [list[0]] + list[1..] == list;
    }
  }

  /** The names of the loaded event's tags, none when no event is loaded. */
  function LoadedTagNames(tags: seq<Entity<Tag>>, e: Option<Event>): seq<string>
  {
    if e.Some? then TagNames(tags, e.value.tagIds) else []
  }

  /** The message about an event: the caller's own, or the generated one. */
  function Announcement(e: Event, tags: seq<Entity<Tag>>, customMessage: Option<string>): (r: string)
    ensures customMessage.Some? ==> r == customMessage.value
    ensures customMessage.None? ==> |EventSubject(e.details)| <= |r| && r[..|EventSubject(e.details)|] == EventSubject(e.details)
  {
    if customMessage.Some? then customMessage.value else EventMessage(e, TagNames(tags, e.tagIds))
  }

  /** The reminder about an occurrence: the caller's own message, or the generated one, which fails without an event. */
  function Reminder(i: EventInstance, e: Option<Event>, tags: seq<Entity<Tag>>, customMessage: Option<string>,
                    format: Time -> string): (r: Result<string>)
    ensures r.Fail? <==> customMessage.None? && e.None?
    ensures r.Fail? ==> r.error == NoEvent
    ensures customMessage.Some? ==> r == Ok(customMessage.value)
    ensures customMessage.None? && r.Ok? ==> |InstanceSubject(e)| <= |r.value| && r.value[..|InstanceSubject(e)|] == InstanceSubject(e)
  {
    if customMessage.Some? then Ok(customMessage.value) else InstanceMessage(i, e, LoadedTagNames(tags, e), format)
  }

  class NotificationService {
    const ctx: NewsletterContext
    const factory: NotificationHandlerFactory

    constructor (ctx: NewsletterContext, factory: NotificationHandlerFactory)
      ensures this.ctx == ctx && this.factory == factory
    {
      this.ctx := ctx;
      this.factory := factory;
    }

    /**
     * `UpdateNotificationPreferencesAsync`: KeyNotFound when no visible
     * subscriber has the identifier; otherwise only its three channel flags
     * change (and `UpdatedAt` is stamped), so e-mail addresses stay unique.
     */
    method UpdateNotificationPreferences(id: Id, prefersEmail: bool, prefersSms: bool, prefersPush: bool)
      returns (r: Result<()>)
      requires ctx.Valid()
      modifies ctx, ctx.subscribers
      ensures ctx.Valid()
      ensures FindLive(old(ctx.subscribers.rows), id).None? ==>
        r == Fail(NotFound("Subscriber", id)) && ctx.subscribers.rows == old(ctx.subscribers.rows)
      ensures FindLive(old(ctx.subscribers.rows), id).Some? ==>
        r.Ok? &&
        var i := FindLive(old(ctx.subscribers.rows), id).value;
        var s := old(ctx.subscribers.rows)[i];
        ctx.subscribers.rows == old(ctx.subscribers.rows)[i := s.(
          data := s.data.(prefersEmail := prefersEmail, prefersSms := prefersSms, prefersPush := prefersPush),
          updatedAt := Some(old(ctx.clock)))]
      ensures Subscribers.UniqueEmails(old(ctx.subscribers.rows)) ==> Subscribers.UniqueEmails(ctx.subscribers.rows)
    {
      var found := ctx.subscribers.GetById(id);
      if found.None? {
        return Fail(NotFound("Subscriber", id));
      }
      var s := found.value;
      ghost var i := FindLive(ctx.subscribers.rows, id).value;
      var u := ctx.UpdateSubscriber(id, s.data.(prefersEmail := prefersEmail, prefersSms := prefersSms, prefersPush := prefersPush));
      if Subscribers.UniqueEmails(old(ctx.subscribers.rows)) {
        Subscribers.SameEmailKeepsUnique(old(ctx.subscribers.rows), i, ctx.subscribers.rows[i]);
      }
      r := Ok(());
    }

    /**
     * The lookups of `GetEligibleSubscribersAsync`: the identifiers of the
     * tags found under the names, one name at a time.
     */
    method ResolveTagIds(names: seq<string>) returns (ids: seq<Id>)
      ensures ids == ResolvedIds(ctx.tags.rows, names)
    {
      ids := [];
      for i := 0 to |names|
        invariant ids == ResolvedIds(ctx.tags.rows, names[..i])
      {
        assert names[..i + 1][..i] == names[..i];
        var tag := FindByName(ctx.tags.rows, names[i]);
        if tag.Some? {
          ids := ids + [tag.value.id];
        }
      }
      assert names[..|names|] == names;
    }

    /**
     * `GetEligibleSubscribersAsync`: tag names are resolved only when some
     * are given; the subscribers are then those `Eligible` selects.
     */
    method GetEligibleSubscribers(requiredTagNames: Option<seq<string>>, onlyActive: bool)
      returns (list: seq<Entity<Subscriber>>)
      requires ctx.Valid()
      ensures list == Eligible(ctx.subscribers.rows, ResolvedIds(ctx.tags.rows, NamesOf(requiredTagNames)), onlyActive)
      ensures forall s :: s in list ==> s in ctx.subscribers.rows && !s.isDeleted
      ensures UniqueIds(list)
    {
      var ids: seq<Id> := [];
      if requiredTagNames.Some? && requiredTagNames.value != [] {
        ids := ResolveTagIds(requiredTagNames.value);
      }
      list := Eligible(ctx.subscribers.rows, ids, onlyActive);
    }

    /**
     * The stamps after a successful attempt, each from a fresh reading of
     * the clock (the second only for e-mail and SMS).
     */
    method Bookkeep(cur: Subscriber, t: NotificationType) returns (next: Subscriber)
      requires ctx.Valid()
      modifies ctx
      ensures ctx.Valid() && ctx.clock == old(ctx.clock) + (if t == Email || t == Sms then 2 else 1)
      ensures next == Bookkeeping(cur, t, old(ctx.clock), old(ctx.clock) + 1)
    {
      var notifiedAt := ctx.Now();
      var sentAt := notifiedAt + 1;
      if t == Email || t == Sms {
        sentAt := ctx.Now();
      }
      next := Bookkeeping(cur, t, notifiedAt, sentAt);
    }

    /**
     * Stores a failed result for the record, with status "Failed" and the
     * message; stamped after every stored result, it becomes the record's
     * latest, so the record reads as unsuccessful.
     */
    method StoreFailure(record: Entity<NotificationRecord>, message: string)
      requires ctx.Valid() && record.id < ctx.records.nextId
      modifies ctx, ctx.results
      ensures ctx.Valid()
      ensures ResultsAppendedFor(old(ctx.results.rows), ctx.results.rows, record.id)
      ensures FailureStored(old(ctx.results.rows), ctx.results.rows, record.id, message)
      ensures ctx.subscribers.rows == old(ctx.subscribers.rows)
      ensures LatestFailure(ctx.results.rows, record.id, message)
      ensures !WasSuccessful(ResultsOf(ctx.results.rows, record.id))
    {
      ghost var before := ctx.results.rows;
      var failed := ctx.AddResult(Failed(record.id, message));
      AppendedResultIsLatest(before, failed, record.id);
      assert ctx.results.rows[..|before|] == before;
    }

    /**
     * What follows a successful attempt: the stamps are set and the
     * subscriber is written back with `UpdateAsync`. When no visible row has
     * its identifier that throws; the catch block of `SendNotificationAsync`
     * then stores a failed result with the exception's message, which
     * becomes the record's latest, and rethrows.
     */
    method AfterSuccess(record: Entity<NotificationRecord>, s: Entity<Subscriber>, cur: Subscriber)
      returns (r: Result<()>, next: Subscriber)
      requires ctx.Valid() && record.id < ctx.records.nextId
      modifies ctx, ctx.results, ctx.subscribers
      ensures ctx.Valid()
      ensures next == Bookkeeping(cur, record.data.notificationType, old(ctx.clock), old(ctx.clock) + 1)
      ensures ResultsAppendedFor(old(ctx.results.rows), ctx.results.rows, record.id)
      ensures forall x :: FindLive(ctx.subscribers.rows, x) == FindLive(old(ctx.subscribers.rows), x)
      ensures FindLive(old(ctx.subscribers.rows), s.id).None? ==>
        && r == Fail(Missing("Subscriber", s.id))
        && ctx.subscribers.rows == old(ctx.subscribers.rows)
        && FailureStored(old(ctx.results.rows), ctx.results.rows, record.id, Missing("Subscriber", s.id).message)
        && LatestFailure(ctx.results.rows, record.id, Missing("Subscriber", s.id).message)
        && !WasSuccessful(ResultsOf(ctx.results.rows, record.id))
      ensures FindLive(old(ctx.subscribers.rows), s.id).Some? ==>
        && r.Ok?
        && Rewritten(old(ctx.subscribers.rows), ctx.subscribers.rows, s.id, next)
        && ctx.results.rows == old(ctx.results.rows)
    {
      next := Bookkeep(cur, record.data.notificationType);
      var u := ctx.UpdateSubscriber(s.id, next);
      r := Ok(());
      if u.Fail? {
        StoreFailure(record, u.error.message);
        r := Fail(u.error);
      } else {
        UpdatedRewrites(old(ctx.subscribers.rows), ctx.subscribers.rows, "Subscriber", s.id, next, ctx.clock - 1, u);
      }
    }

    /**
     * The handler loop of `SendNotificationAsync`: every handler attempts
     * the record in turn; after each success the subscriber's stamps are
     * written back. When that write fails, a failed result carrying the
     * exception's message is stored and the loop stops with the exception.
     * The record's status is then the last handler's, or a failure.
     */
    method Deliver(record: Entity<NotificationRecord>, hs: seq<Handler>, s: Entity<Subscriber>, transport: Transport)
      returns (r: Result<()>, ghost stamped: Subscriber)
      requires ctx.Valid() && record.id < ctx.records.nextId && hs != []
      modifies ctx, ctx.results, ctx.subscribers
      ensures ctx.Valid()
      ensures ResultsAppendedFor(old(ctx.results.rows), ctx.results.rows, record.id)
      ensures r.Ok? ==> (WasSuccessful(ResultsOf(ctx.results.rows, record.id)) <==>
                         LastSucceeds(hs, record.data.notificationType, s.data, record.id, transport))
      ensures r.Fail? ==> r == Fail(Missing("Subscriber", s.id)) && !WasSuccessful(ResultsOf(ctx.results.rows, record.id))
      ensures r.Fail? ==>
        && LastStoredFailure(ctx.results.rows, record.id, Missing("Subscriber", s.id).message)
        && LatestFailure(ctx.results.rows, record.id, Missing("Subscriber", s.id).message)
      ensures r.Fail? <==>
        AnySucceeds(hs, record.data.notificationType, s.data, record.id, transport) && FindLive(old(ctx.subscribers.rows), s.id).None?
      ensures Progress(old(ctx.subscribers.rows), ctx.subscribers.rows, s, stamped,
                       r.Ok? && AnySucceeds(hs, record.data.notificationType, s.data, record.id, transport),
                       record.data.notificationType)
      ensures forall x :: FindLive(ctx.subscribers.rows, x) == FindLive(old(ctx.subscribers.rows), x)
    {
      var t := record.data.notificationType;
      var cur := s.data;
      stamped := s.data;
      ghost var subs0 := ctx.subscribers.rows;
      ghost var res0 := ctx.results.rows;
      ghost var any := false;
      for k := 0 to |hs|
        invariant ctx.Valid() && record.id < ctx.records.nextId
        invariant ResultsAppendedFor(res0, ctx.results.rows, record.id)
        invariant forall x :: FindLive(ctx.subscribers.rows, x) == FindLive(subs0, x)
        invariant any == AnySucceeds(hs[..k], t, s.data, record.id, transport)
        invariant Progress(subs0, ctx.subscribers.rows, s, cur, any, t)
        invariant k > 0 ==> (WasSuccessful(ResultsOf(ctx.results.rows, record.id)) <==>
                             Succeeds(hs[k - 1], t, s.data, transport(record.id, hs[k - 1])))
      {
        ghost var before := ctx.results.rows;
        ghost var subs := ctx.subscribers.rows;
        var d := transport(record.id, hs[k]);
        ghost var success := Succeeds(hs[k], t, s.data, d);
        var next;
        r, next := DeliverOne(record, hs[k], d, s, cur);
        AppendedForTrans(res0, before, ctx.results.rows, record.id);
        AnySucceedsSnoc(hs, k, t, s.data, record.id, transport);
        if r.Fail? {
          assert hs[k] in hs;
          stamped := s.data;
          return;
        }
        ProgressStep(subs0, subs, ctx.subscribers.rows, s, cur, next, any, success, t);
        any := any || success;
        cur := next;
      }
      assert hs[..|hs|] == hs;
      r := Ok(());
      stamped := cur;
    }

    /**
     * One handler's attempt and, when it succeeds, the bookkeeping. The
     * handler sees the subscriber as it is by now (`cur`), whose contact
     * details are those it had at the start.
     */
    method DeliverOne(record: Entity<NotificationRecord>, h: Handler, d: Delivery, s: Entity<Subscriber>, cur: Subscriber)
      returns (r: Result<()>, next: Subscriber)
      requires ctx.Valid() && record.id < ctx.records.nextId
      requires cur.phoneNumber == s.data.phoneNumber && cur.pushToken == s.data.pushToken
      modifies ctx, ctx.results, ctx.subscribers
      ensures ctx.Valid()
      ensures ResultsAppendedFor(old(ctx.results.rows), ctx.results.rows, record.id)
      ensures forall x :: FindLive(ctx.subscribers.rows, x) == FindLive(old(ctx.subscribers.rows), x)
      ensures Attempted(old(ctx.subscribers.rows), ctx.subscribers.rows, s, cur, next, Succeeds(h, record.data.notificationType, s.data, d),
                        r, WasSuccessful(ResultsOf(ctx.results.rows, record.id)), record.data.notificationType)
      ensures r.Fail? ==>
        && LastStoredFailure(ctx.results.rows, record.id, Missing("Subscriber", s.id).message)
        && LatestFailure(ctx.results.rows, record.id, Missing("Subscriber", s.id).message)
    {
      ghost var before := ctx.results.rows;
      var saved := Handle(ctx, h, record, cur, d);
      AppendedForSnoc(before, saved, record.id);
      assert saved.data.success == Succeeds(h, record.data.notificationType, s.data, d);
      assert WasSuccessful(ResultsOf(ctx.results.rows, record.id)) == saved.data.success;
      next := cur;
      r := Ok(());
      if saved.data.success {
        ghost var mid := ctx.results.rows;
        r, next := AfterSuccess(record, s, cur);
        AppendedForTrans(before, mid, ctx.results.rows, record.id);
      }
    }

    /**
     * `SendNotificationAsync`: stores a record for the subscriber (its
     * `SentAt` a reading of the clock) and hands it to the handlers that
     * take the channel; with none, a failed result saying so is stored and
     * nothing is thrown. The record's status is the last handler's; the
     * exception of a failed write-back is passed on.
     */
    method Send(s: Entity<Subscriber>, subject: string, message: string, t: NotificationType, target: Option<Target>,
                transport: Transport)
      returns (record: Entity<NotificationRecord>, r: Result<()>, ghost stamped: Subscriber)
      requires ctx.Valid()
      modifies ctx, ctx.records, ctx.results, ctx.subscribers
      ensures ctx.Valid()
      ensures record.id == old(ctx.records.nextId) && !record.isDeleted
      ensures record.data == NotificationRecord(s.id, EventIdOf(target), InstanceIdOf(target), t, subject, message, old(ctx.clock))
      ensures ctx.records.rows == old(ctx.records.rows) + [record]
      ensures ResultsAppendedFor(old(ctx.results.rows), ctx.results.rows, record.id)
      ensures WasSuccessful(ResultsOf(ctx.results.rows, record.id)) <==>
        r.Ok? && LastSucceeds(Matching(factory.handlers, t), t, s.data, record.id, transport)
      ensures r.Fail? <==>
        AnySucceeds(Matching(factory.handlers, t), t, s.data, record.id, transport) && FindLive(old(ctx.subscribers.rows), s.id).None?
      ensures r.Fail? ==> r.error == Missing("Subscriber", s.id)
      ensures r.Fail? ==>
        && LastStoredFailure(ctx.results.rows, record.id, Missing("Subscriber", s.id).message)
        && LatestFailure(ctx.results.rows, record.id, Missing("Subscriber", s.id).message)
      ensures Matching(factory.handlers, t) == [] ==>
        && r.Ok? && ctx.subscribers.rows == old(ctx.subscribers.rows)
        && FailureStored(old(ctx.results.rows), ctx.results.rows, record.id, "No handlers found for notification type: " + TypeName(t))
      ensures Progress(old(ctx.subscribers.rows), ctx.subscribers.rows, s, stamped,
                       r.Ok? && AnySucceeds(Matching(factory.handlers, t), t, s.data, record.id, transport), t)
      ensures forall x :: FindLive(ctx.subscribers.rows, x) == FindLive(old(ctx.subscribers.rows), x)
    {
      var sentAt := ctx.Now();
      record := ctx.AddRecord(NotificationRecord(s.id, EventIdOf(target), InstanceIdOf(target), t, subject, message, sentAt));
      r, stamped := Dispatch(record, s, transport);
    }

    /**
     * The `try` block of `SendNotificationAsync`, once the record is stored:
     * the handlers that take the record's channel, or a failed result when
     * there is none.
     */
    method Dispatch(record: Entity<NotificationRecord>, s: Entity<Subscriber>, transport: Transport)
      returns (r: Result<()>, ghost stamped: Subscriber)
      requires ctx.Valid() && record.id < ctx.records.nextId
      modifies ctx, ctx.results, ctx.subscribers
      ensures ctx.Valid()
      ensures ResultsAppendedFor(old(ctx.results.rows), ctx.results.rows, record.id)
      ensures var t := record.data.notificationType;
        WasSuccessful(ResultsOf(ctx.results.rows, record.id)) <==>
        r.Ok? && LastSucceeds(Matching(factory.handlers, t), t, s.data, record.id, transport)
      ensures var t := record.data.notificationType;
        r.Fail? <==>
        AnySucceeds(Matching(factory.handlers, t), t, s.data, record.id, transport) && FindLive(old(ctx.subscribers.rows), s.id).None?
      ensures r.Fail? ==> r.error == Missing("Subscriber", s.id)
      ensures r.Fail? ==>
        && LastStoredFailure(ctx.results.rows, record.id, Missing("Subscriber", s.id).message)
        && LatestFailure(ctx.results.rows, record.id, Missing("Subscriber", s.id).message)
      ensures var t := record.data.notificationType;
        Matching(factory.handlers, t) == [] ==>
        && r.Ok? && ctx.subscribers.rows == old(ctx.subscribers.rows)
        && FailureStored(old(ctx.results.rows), ctx.results.rows, record.id, "No handlers found for notification type: " + TypeName(t))
      ensures var t := record.data.notificationType;
        Progress(old(ctx.subscribers.rows), ctx.subscribers.rows, s, stamped,
                 r.Ok? && AnySucceeds(Matching(factory.handlers, t), t, s.data, record.id, transport), t)
      ensures forall x :: FindLive(ctx.subscribers.rows, x) == FindLive(old(ctx.subscribers.rows), x)
    {
      var t := record.data.notificationType;
      var hs := factory.GetHandlers(t);
      if hs == [] {
        StoreFailure(record, "No handlers found for notification type: " + TypeName(t));
        r := Ok(());
        stamped := s.data;
      } else {
        r, stamped := Deliver(record, hs, s, transport);
      }
    }

    /**
     * The `foreach` of the notify operations: each candidate in turn, when
     * `ShouldNotify` admits it (only when there is a target), is sent the
     * notification. Every candidate has a visible row, so no write-back
     * fails and the loop runs to the end.
     */
    method NotifyEach(list: seq<Entity<Subscriber>>, target: Option<Target>, subject: string, message: string,
                      t: NotificationType, transport: Transport)
      requires ctx.Valid()
      requires forall s :: s in list ==> s in ctx.subscribers.rows && !s.isDeleted
      requires UniqueIds(list)
      modifies ctx, ctx.records, ctx.results, ctx.subscribers
      ensures ctx.Valid()
      ensures Notified(old(ctx.records.rows), ctx.records.rows, old(ctx.results.rows), ctx.results.rows,
                       Seqs.Filter(list, Wants(old(ctx.records.rows), old(ctx.results.rows), target, t)),
                       subject, message, t, target, Matching(factory.handlers, t), transport)
      ensures forall x :: FindLive(ctx.subscribers.rows, x) == FindLive(old(ctx.subscribers.rows), x)
    {
      ghost var recs0 := ctx.records.rows;
      ghost var res0 := ctx.results.rows;
      ghost var subs0 := ctx.subscribers.rows;
      ghost var bound := ctx.records.nextId;
      ghost var wants := Wants(recs0, res0, target, t);
      ghost var done: set<Id> := {};
      assert list[..0] == [];
      NotifiedStart(recs0, res0, subject, message, t, target, Matching(factory.handlers, t), transport);
      assert ctx.records.rows[..|recs0|] == recs0 && ctx.results.rows[..|res0|] == res0;
      for k := 0 to |list|
        invariant ctx.Valid() && ctx.records.nextId >= bound
        invariant forall x :: FindLive(ctx.subscribers.rows, x) == FindLive(subs0, x)
        invariant Notified(recs0, ctx.records.rows, res0, ctx.results.rows, Seqs.Filter(list[..k], wants),
                           subject, message, t, target, Matching(factory.handlers, t), transport)
        invariant SentOnlyTo(recs0, ctx.records.rows, res0, ctx.results.rows, bound, done)
        invariant forall m :: k <= m < |list| ==> list[m].id !in done
      {
        var s := list[k];
        Seqs.FilterStep(list, k, wants);
        LiveRowFound(subs0, s);
        UniqueIdsAt(list, k);
        NotifyOne(s, target, subject, message, t, transport, recs0, res0, bound, Seqs.Filter(list[..k], wants), done);
        done := done + {s.id};
      }
      assert list[..|list|] == list;
    }

    /** One turn of the loop: `s` is sent the notification exactly when `Wants` admits it. */
    method NotifyOne(s: Entity<Subscriber>, target: Option<Target>, subject: string, message: string,
                     t: NotificationType, transport: Transport, ghost records0: Records, ghost results0: Results,
                     ghost bound: Id, ghost sent: seq<Entity<Subscriber>>, ghost done: set<Id>)
      requires ctx.Valid() && ctx.records.nextId >= bound
      requires FindLive(ctx.subscribers.rows, s.id).Some? && s.id !in done
      requires Notified(records0, ctx.records.rows, results0, ctx.results.rows, sent,
                        subject, message, t, target, Matching(factory.handlers, t), transport)
      requires SentOnlyTo(records0, ctx.records.rows, results0, ctx.results.rows, bound, done)
      modifies ctx, ctx.records, ctx.results, ctx.subscribers
      ensures ctx.Valid() && ctx.records.nextId >= bound
      ensures forall x :: FindLive(ctx.subscribers.rows, x) == FindLive(old(ctx.subscribers.rows), x)
      ensures Notified(records0, ctx.records.rows, results0, ctx.results.rows,
                       if Wants(records0, results0, target, t)(s) then sent + [s] else sent,
                       subject, message, t, target, Matching(factory.handlers, t), transport)
      ensures SentOnlyTo(records0, ctx.records.rows, results0, ctx.results.rows, bound, done + {s.id})
    {
      var go := target.None? || ShouldNotify(s, ctx.records.rows, ctx.results.rows, target.value, t);
      if target.Some? {
        SentOnlyToElsewhere(records0, ctx.records.rows, results0, ctx.results.rows, bound, done, s.id);
        NotifiedUnaffected(records0, ctx.records.rows, results0, ctx.results.rows, bound, s.id, target.value, t);
      }
      assert go == Wants(records0, results0, target, t)(s);
      if go {
        SendTo(s, target, subject, message, t, transport, records0, results0, bound, sent, done);
      }
    }

    /** One recipient the loop does notify: a record and its results are appended for `s` alone. */
    method SendTo(s: Entity<Subscriber>, target: Option<Target>, subject: string, message: string,
                  t: NotificationType, transport: Transport, ghost records0: Records, ghost results0: Results,
                  ghost bound: Id, ghost sent: seq<Entity<Subscriber>>, ghost done: set<Id>)
      requires ctx.Valid() && ctx.records.nextId >= bound
      requires FindLive(ctx.subscribers.rows, s.id).Some?
      requires Notified(records0, ctx.records.rows, results0, ctx.results.rows, sent,
                        subject, message, t, target, Matching(factory.handlers, t), transport)
      requires SentOnlyTo(records0, ctx.records.rows, results0, ctx.results.rows, bound, done)
      modifies ctx, ctx.records, ctx.results, ctx.subscribers
      ensures ctx.Valid() && ctx.records.nextId >= bound
      ensures forall x :: FindLive(ctx.subscribers.rows, x) == FindLive(old(ctx.subscribers.rows), x)
      ensures Notified(records0, ctx.records.rows, results0, ctx.results.rows, sent + [s],
                       subject, message, t, target, Matching(factory.handlers, t), transport)
      ensures SentOnlyTo(records0, ctx.records.rows, results0, ctx.results.rows, bound, done + {s.id})
    {
      ghost var recs := ctx.records.rows;
      ghost var res := ctx.results.rows;
      var record, r, stamped := Send(s, subject, message, t, target, transport);
      NotifiedSnoc(records0, recs, results0, res, ctx.results.rows, sent, record, s,
                   subject, message, t, target, Matching(factory.handlers, t), transport);
      SentOnlyToSnoc(records0, recs, results0, res, ctx.results.rows, bound, done, record);
    }

    /**
     * `NotifySubscribersAboutEventAsync`: KeyNotFound when the event is not
     * visible; otherwise every eligible subscriber not yet notified about it
     * receives the event's subject and message, in table order.
     */
    method NotifyAboutEvent(eventId: Id, t: NotificationType, customMessage: Option<string>,
                            requiredTagNames: Option<seq<string>>, onlyActive: bool, transport: Transport)
      returns (r: Result<()>)
      requires ctx.Valid()
      modifies ctx, ctx.records, ctx.results, ctx.subscribers
      ensures ctx.Valid()
      ensures r.Fail? <==> FindLive(ctx.events.rows, eventId).None?
      ensures r.Fail? ==>
        && r.error == NotFound("Event", eventId)
        && ctx.records.rows == old(ctx.records.rows) && ctx.results.rows == old(ctx.results.rows)
        && ctx.subscribers.rows == old(ctx.subscribers.rows)
      ensures r.Ok? ==>
        var e := ctx.events.rows[FindLive(ctx.events.rows, eventId).value].data;
        var eligible := Eligible(old(ctx.subscribers.rows), ResolvedIds(ctx.tags.rows, NamesOf(requiredTagNames)), onlyActive);
        Notified(old(ctx.records.rows), ctx.records.rows, old(ctx.results.rows), ctx.results.rows,
                 Seqs.Filter(eligible, Wants(old(ctx.records.rows), old(ctx.results.rows), Some(AboutEvent(eventId)), t)),
                 EventSubject(e.details), Announcement(e, ctx.tags.rows, customMessage),
                 t, Some(AboutEvent(eventId)), Matching(factory.handlers, t), transport)
      ensures forall x :: FindLive(ctx.subscribers.rows, x) == FindLive(old(ctx.subscribers.rows), x)
    {
      var found := ctx.events.GetById(eventId);
      if found.None? {
        return Fail(NotFound("Event", eventId));
      }
      var e := found.value.data;
      var list := GetEligibleSubscribers(requiredTagNames, onlyActive);
      NotifyEach(list, Some(AboutEvent(eventId)), EventSubject(e.details), Announcement(e, ctx.tags.rows, customMessage),
                 t, transport);
      r := Ok(());
    }

    /**
     * `NotifySubscribersAboutEventInstanceAsync`: KeyNotFound when the
     * occurrence is not visible, InvalidOperation (before anything is sent)
     * when the message must be generated and the occurrence's event is not
     * loaded; otherwise every eligible subscriber not yet notified about the
     * occurrence receives the reminder.
     */
    method NotifyAboutInstance(instanceId: Id, t: NotificationType, customMessage: Option<string>,
                               requiredTagNames: Option<seq<string>>, onlyActive: bool, transport: Transport,
                               format: Time -> string)
      returns (r: Result<()>)
      requires ctx.Valid()
      modifies ctx, ctx.records, ctx.results, ctx.subscribers
      ensures ctx.Valid()
      ensures Events.FindInstance(ctx.instances.rows, ctx.events.rows, instanceId).None? ==>
        && r == Fail(NotFound("Event instance", instanceId))
        && ctx.records.rows == old(ctx.records.rows) && ctx.results.rows == old(ctx.results.rows)
        && ctx.subscribers.rows == old(ctx.subscribers.rows)
      ensures Events.FindInstance(ctx.instances.rows, ctx.events.rows, instanceId).Some? ==>
        var i := ctx.instances.rows[Events.FindInstance(ctx.instances.rows, ctx.events.rows, instanceId).value].data;
        var e := Events.LoadedEvent(ctx.events.rows, i);
        var m := Reminder(i, e, ctx.tags.rows, customMessage, format);
        var eligible := Eligible(old(ctx.subscribers.rows), ResolvedIds(ctx.tags.rows, NamesOf(requiredTagNames)), onlyActive);
        && e.Some? && m.Ok? && r.Ok?
        && Notified(old(ctx.records.rows), ctx.records.rows, old(ctx.results.rows), ctx.results.rows,
                    Seqs.Filter(eligible, Wants(old(ctx.records.rows), old(ctx.results.rows), Some(AboutInstance(instanceId)), t)),
                    InstanceSubject(e), m.value, t, Some(AboutInstance(instanceId)), Matching(factory.handlers, t), transport)
      ensures forall x :: FindLive(ctx.subscribers.rows, x) == FindLive(old(ctx.subscribers.rows), x)
    {
      var found := Events.FindInstance(ctx.instances.rows, ctx.events.rows, instanceId);
      if found.None? {
        return Fail(NotFound("Event instance", instanceId));
      }
      var i := ctx.instances.rows[found.value].data;
      var e := Events.LoadedEvent(ctx.events.rows, i);
      var list := GetEligibleSubscribers(requiredTagNames, onlyActive);
      var m := Reminder(i, e, ctx.tags.rows, customMessage, format);
      assert e.Some? && m.Ok?;
      var target := Some(AboutInstance(instanceId));
      NotifyEach(list, target, InstanceSubject(e), m.value, t, transport);
      assert ctx.instances.rows == old(ctx.instances.rows) && ctx.events.rows == old(ctx.events.rows);
      assert ctx.tags.rows == old(ctx.tags.rows);
      r := Ok(());
    }

    /**
     * `NotifySubscribersByTagsAsync`: every eligible subscriber for these tag
     * names receives the message, without the already-notified check.
     */
    method NotifyByTags(tagNames: seq<string>, subject: string, message: string, t: NotificationType,
                        onlyActive: bool, transport: Transport)
      requires ctx.Valid()
      modifies ctx, ctx.records, ctx.results, ctx.subscribers
      ensures ctx.Valid()
      ensures Notified(old(ctx.records.rows), ctx.records.rows, old(ctx.results.rows), ctx.results.rows,
                       Eligible(old(ctx.subscribers.rows), ResolvedIds(ctx.tags.rows, tagNames), onlyActive),
                       subject, message, t, None, Matching(factory.handlers, t), transport)
      ensures forall x :: FindLive(ctx.subscribers.rows, x) == FindLive(old(ctx.subscribers.rows), x)
    {
      var list := GetEligibleSubscribers(Some(tagNames), onlyActive);
      NoTargetWantsAll(list, ctx.records.rows, ctx.results.rows, t);
      NotifyEach(list, None, subject, message, t, transport);
    }

    /**
     * `NotifySubscribersByLocationAsync`: every visible subscriber whose
     * preferred city (and state and country, when given) match receives the
     * message; the active filter is applied only when `onlyActive` is false.
     * The locations are compared with `same`, the `=` of the database collation.
     */
    method NotifyByLocation(subject: string, message: string, t: NotificationType, city: string,
                            state: Option<string>, country: Option<string>, onlyActive: bool,
                            same: (string, string) -> bool, transport: Transport)
      requires ctx.Valid()
      modifies ctx, ctx.records, ctx.results, ctx.subscribers
      ensures ctx.Valid()
      ensures Notified(old(ctx.records.rows), ctx.records.rows, old(ctx.results.rows), ctx.results.rows,
                       LocationCandidates(old(ctx.subscribers.rows), city, state, country, onlyActive, same),
                       subject, message, t, None, Matching(factory.handlers, t), transport)
      ensures forall x :: FindLive(ctx.subscribers.rows, x) == FindLive(old(ctx.subscribers.rows), x)
    {
      var list := LocationCandidates(ctx.subscribers.rows, city, state, country, onlyActive, same);
      NoTargetWantsAll(list, ctx.records.rows, ctx.results.rows, t);
      NotifyEach(list, None, subject, message, t, transport);
    }
  }
}
