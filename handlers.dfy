/**
 * The notification handlers: which channels each accepts, what each one's
 * processing produces, and the common `HandleAsync` of the base handler that
 * checks the channel, processes and stores exactly one result.
 *
 * The handlers' transports are stand-ins in the source; here what the
 * transport did is a parameter, `Delivery`: it delivered, or it raised an
 * exception with a message. The concrete handlers catch that exception
 * themselves, so their processing always returns a result.
 */
module Handlers {

  import opened Common
  import opened Entities
  import opened Data
  import opened Store
  import RecordStatus

  datatype Handler = EmailHandler | SmsHandler | PushHandler

  /** `CanHandleAsync`: every handler accepts its own channel and `All`. */
  predicate CanHandle(h: Handler, t: NotificationType)
  {
    match h
    case EmailHandler => t == Email || t == All
    case SmsHandler => t == Sms || t == All
    case PushHandler => t == Push || t == All
  }

  /** `CanHandle(_, t)` as a value, to filter a handler list with. */
  function Claims(t: NotificationType): Handler -> bool
  {
    h => CanHandle(h, t)
  }

  /** The handler whose own channel is `t`. */
  function HandlerOf(t: NotificationType): Handler
    requires t != All
  {
    match t
    case Email => EmailHandler
    case Sms => SmsHandler
    case Push => PushHandler
  }

  /** Each concrete channel is claimed by exactly one handler, and `All` by all three. */
  lemma ChannelsPartitioned(t: NotificationType)
    ensures t == All <==> forall h :: CanHandle(h, t)
    ensures t != All ==> forall h :: CanHandle(h, t) <==> h == HandlerOf(t)
  {
    if t != All {
      assert !CanHandle(if t == Email then SmsHandler else EmailHandler, t);
    }
  }

  /** What the transport did with the message. */
  datatype Delivery = Delivered | Faulted(message: string)

  /** A failed result with status "Failed", as every error path builds it. */
  function Failed(notificationId: Id, message: string): NotificationResult
  {
    NotificationResult(notificationId, false, Some(message), Some("Failed"), None, None)
  }

  /** The `try` around the send common to the three handlers. */
  function Attempt(d: Delivery, now: Time): NotificationResult
  {
    match d
    case Delivered => NotificationResult(EmptyId, true, None, Some("Delivered"), Some(now), None)
    case Faulted(m) => Failed(EmptyId, m)
  }

  /** `string.IsNullOrEmpty` */
  predicate IsNullOrEmpty(s: Option<string>)
  {
    s.None? || s.value == []
  }

  /** The contact field a handler cannot do without is missing (e-mail needs none). */
  predicate MissingContact(h: Handler, s: Subscriber)
  {
    match h
    case EmailHandler => false
    case SmsHandler => IsNullOrEmpty(s.phoneNumber)
    case PushHandler => IsNullOrEmpty(s.pushToken)
  }

  /**
   * `ProcessNotificationAsync` of the e-mail, SMS and push handlers. The
   * result has no record yet (`NotificationId` is the empty identifier).
   */
  function Process(h: Handler, s: Subscriber, d: Delivery, now: Time): (r: NotificationResult)
    ensures r.notificationId == EmptyId && r.readAt.None?
    ensures r.success <==> d.Delivered? && !MissingContact(h, s)
    ensures r.success ==> r.deliveryStatus == Some("Delivered") && r.deliveredAt == Some(now) && r.errorMessage.None?
    ensures !r.success ==> r.deliveryStatus == Some("Failed") && r.deliveredAt.None? && r.errorMessage.Some?
    ensures h == SmsHandler && MissingContact(h, s) ==> r.errorMessage == Some("Subscriber has no phone number")
    ensures h == PushHandler && MissingContact(h, s) ==> r.errorMessage == Some("Subscriber has no push token")
    ensures d.Faulted? && !MissingContact(h, s) ==> r.errorMessage == Some(d.message)
  {
    match h
    case EmailHandler => Attempt(d, now)
    case SmsHandler =>
      if IsNullOrEmpty(s.phoneNumber) then Failed(EmptyId, "Subscriber has no phone number") else Attempt(d, now)
    case PushHandler =>
      if IsNullOrEmpty(s.pushToken) then Failed(EmptyId, "Subscriber has no push token") else Attempt(d, now)
  }

  /** The e-mail handler's outcome does not depend on any field of the subscriber. */
  lemma EmailIgnoresSubscriber(s1: Subscriber, s2: Subscriber, d: Delivery, now: Time)
    ensures Process(EmailHandler, s1, d, now) == Process(EmailHandler, s2, d, now)
  {
  }

  /** Processing reads no field of the subscriber but the phone number and the push token. */
  lemma ProcessReadsContactOnly(h: Handler, s1: Subscriber, s2: Subscriber, d: Delivery, now: Time)
    requires s1.phoneNumber == s2.phoneNumber && s1.pushToken == s2.pushToken
    ensures Process(h, s1, d, now) == Process(h, s2, d, now)
  {
  }

  /** What `ProcessNotificationAsync` did: returned a result, or threw. */
  datatype ProcessOutcome = Returned(result: NotificationResult) | Threw(message: string)

  /**
   * The result `HandleAsync` stores and returns, for any handler: a failure
   * when the handler cannot take the channel, the processing's own result
   * when processing returns, a failure with the exception's message when it
   * throws; on every path it belongs to the record.
   */
  function BaseHandle(canHandle: bool, t: NotificationType, outcome: ProcessOutcome, recordId: Id): (r: NotificationResult)
    ensures r.notificationId == recordId
    ensures !canHandle ==>
      && !r.success && r.deliveryStatus == Some("Failed")
      && r.errorMessage == Some("Handler cannot process notification type: " + TypeName(t))
    ensures canHandle && outcome.Returned? ==>
      && r.success == outcome.result.success
      && r.errorMessage == outcome.result.errorMessage
      && r.deliveryStatus == outcome.result.deliveryStatus
      && r.deliveredAt == outcome.result.deliveredAt
    ensures canHandle && outcome.Threw? ==>
      !r.success && r.errorMessage == Some(outcome.message) && r.deliveryStatus == Some("Failed")
  {
    if !canHandle then Failed(recordId, "Handler cannot process notification type: " + TypeName(t))
    else match outcome
      case Returned(p) => p.(notificationId := recordId)
      case Threw(m) => Failed(recordId, m)
  }

  /** A handler that cannot take the channel never looks at the processing outcome. */
  lemma CannotHandleSkipsProcessing(t: NotificationType, o1: ProcessOutcome, o2: ProcessOutcome, recordId: Id)
    ensures BaseHandle(false, t, o1, recordId) == BaseHandle(false, t, o2, recordId)
  {
  }

  /** `HandleAsync` of one of the three concrete handlers. */
  function HandleResult(h: Handler, recordId: Id, t: NotificationType, s: Subscriber, d: Delivery, now: Time): (r: NotificationResult)
    ensures r.notificationId == recordId
    ensures r.success <==> CanHandle(h, t) && d.Delivered? && !MissingContact(h, s)
    ensures r.success ==> r.deliveredAt == Some(now) && r.deliveryStatus == Some("Delivered")
    ensures !r.success ==> r.deliveryStatus == Some("Failed") && r.errorMessage.Some?
  {
    BaseHandle(CanHandle(h, t), t, Returned(Process(h, s, d, now)), recordId)
  }

  /**
   * `HandleAsync` against the store: a delivered attempt reads the clock for
   * `DeliveredAt`, and storing the result reads it again for `CreatedAt`.
   * Exactly one result is stored for the record and returned; it becomes
   * the record's latest, so the record's derived status is now this result's.
   */
  method Handle(ctx: NewsletterContext, h: Handler, record: Entity<NotificationRecord>, s: Subscriber, d: Delivery)
    returns (saved: Entity<NotificationResult>)
    requires ctx.Valid() && record.id < ctx.records.nextId
    modifies ctx, ctx.results
    ensures ctx.Valid()
    ensures saved.data == HandleResult(h, record.id, record.data.notificationType, s, d, old(ctx.clock))
    ensures ctx.clock == old(ctx.clock) + (if saved.data.success then 2 else 1) && saved.createdAt == ctx.clock - 1
    ensures ctx.results.rows == old(ctx.results.rows) + [saved] && !saved.isDeleted
    ensures RecordStatus.Latest(RecordStatus.ResultsOf(ctx.results.rows, record.id)) == Some(saved)
  {
    var t := record.data.notificationType;
    var deliveredAt := DeliveryTime(ctx, CanHandle(h, t) && d.Delivered? && !MissingContact(h, s));
    var result := HandleResult(h, record.id, t, s, d, deliveredAt);
    ghost var before := ctx.results.rows;
    saved := ctx.AddResult(result);
    AppendedResultIsLatest(before, saved, record.id);
  }

  /** The `DeliveredAt` of an attempt: a reading of the clock, taken only when the attempt delivered. */
  method DeliveryTime(ctx: NewsletterContext, delivered: bool) returns (t: Time)
    requires ctx.Valid()
    modifies ctx
    ensures ctx.Valid() && t == old(ctx.clock) && ctx.clock == old(ctx.clock) + (if delivered then 1 else 0)
  {
    t := ctx.clock;
    if delivered {
      t := ctx.Now();
    }
  }

  /** A result for the record, stamped after every stored result, becomes the record's latest. */
  lemma AppendedResultIsLatest(rows: RecordStatus.Results, saved: Entity<NotificationResult>, recordId: Id)
    requires forall x :: x in rows ==> x.createdAt < saved.createdAt
    requires saved.data.notificationId == recordId && !saved.isDeleted
    ensures RecordStatus.Latest(RecordStatus.ResultsOf(rows + [saved], recordId)) == Some(saved)
  {
    StoredResultsOlder(rows, recordId, saved.createdAt);
    RecordStatus.ResultsOfAppend(rows, [saved], recordId);
    assert RecordStatus.ResultsOf([saved], recordId) == [saved];
    RecordStatus.AppendNewer(RecordStatus.ResultsOf(rows, recordId), saved);
  }

  /** Every stored result was stamped before the current reading of the clock. */
  lemma StoredResultsOlder(rows: RecordStatus.Results, recordId: Id, now: Time)
    requires forall x :: x in rows ==> x.createdAt < now
    ensures forall x :: x in RecordStatus.ResultsOf(rows, recordId) ==> x.createdAt < now
  {
  }
}
