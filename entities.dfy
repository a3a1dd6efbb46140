/**
 * The persistent entities of the newsletter (the entity classes of
 * Newsletter.Data.Entities). Every entity carries the bookkeeping of
 * `BaseEntity` (identifier, creation and update stamps, soft-delete flag);
 * here that part is the `Entity` wrapper and the entity's own fields are its
 * `data`. Fields the core never reads or writes (coordinates, prices,
 * verification tokens, provider metadata) are not part of the model.
 */
module Entities {

  import opened Common

  /** The channel a notification is sent on; `All` asks every channel. */
  datatype NotificationType = Email | Sms | Push | All

  /** The enum's name, as the source interpolates it into messages. */
  function TypeName(t: NotificationType): string {
    match t
    case Email => "Email"
    case Sms => "Sms"
    case Push => "Push"
    case All => "All"
  }

  /** A stored row: `BaseEntity`'s fields around the entity's own fields. */
  datatype Entity<+T> = Entity(id: Id, createdAt: Time, updatedAt: Option<Time>, isDeleted: bool, data: T)

  /** A subscriber's preference for one tag (the SubscriberTag join entity). */
  datatype SubscriberTag = SubscriberTag(tagId: Id, isActive: bool, addedAt: Time, preferenceLevel: int)

  /** A new preference row: active, at the default level 1. */
  function NewPreference(tagId: Id, addedAt: Time): (p: SubscriberTag)
    ensures p.tagId == tagId && p.isActive
  {
    SubscriberTag(tagId, true, addedAt, 1)
  }

  datatype Subscriber = Subscriber(
    email: string,
    firstName: Option<string>,
    lastName: Option<string>,
    phoneNumber: Option<string>,
    isActive: bool,
    lastNotifiedAt: Option<Time>,
    lastEmailSentAt: Option<Time>,
    lastSmsSentAt: Option<Time>,
    prefersEmail: bool,
    prefersSms: bool,
    prefersPush: bool,
    pushToken: Option<string>,
    preferredCity: Option<string>,
    preferredState: Option<string>,
    preferredCountry: Option<string>,
    tagPreferences: seq<SubscriberTag>,
    notes: Option<string>)

  /**
   * A subscriber as `new Subscriber { ... }` builds it: the given fields,
   * active unless told otherwise, e-mail preferred, nothing sent yet.
   */
  function NewSubscriber(email: string, firstName: Option<string>, lastName: Option<string>, isActive: bool,
                         phoneNumber: Option<string>, notes: Option<string>): (s: Subscriber)
    ensures s.prefersEmail && !s.prefersSms && !s.prefersPush
    ensures s.lastNotifiedAt.None? && s.lastEmailSentAt.None? && s.lastSmsSentAt.None?
    ensures s.tagPreferences == []
  {
    Subscriber(email, firstName, lastName, phoneNumber, isActive, None, None, None,
               true, false, false, None, None, None, None, [], notes)
  }

  datatype Tag = Tag(name: string, description: Option<string>)

  /** The descriptive fields of an event, as the event service receives them. */
  datatype EventDetails = EventDetails(
    title: string,
    description: string,
    externalUrl: Option<string>,
    imageUrl: Option<string>,
    organizerName: Option<string>,
    organizerEmail: Option<string>,
    organizerPhone: Option<string>,
    category: Option<string>)

  /** An event; `tagIds` is its many-to-many `Tags` collection. */
  datatype Event = Event(details: EventDetails, isPublished: bool, publishedAt: Option<Time>, tagIds: seq<Id>)

  /** The descriptive fields of an occurrence, as the event service receives them. */
  datatype InstanceDetails = InstanceDetails(
    location: string,
    room: Option<string>,
    address: Option<string>,
    city: Option<string>,
    state: Option<string>,
    country: Option<string>,
    postalCode: Option<string>,
    isVirtual: bool,
    virtualMeetingUrl: Option<string>,
    virtualMeetingPlatform: Option<string>,
    maxAttendees: Option<int>,
    currency: Option<string>,
    notes: Option<string>)

  /** One scheduled occurrence of an event. */
  datatype EventInstance = EventInstance(
    eventId: Id,
    startTime: Time,
    endTime: Time,
    details: InstanceDetails,
    isCancelled: bool,
    cancellationReason: Option<string>,
    cancelledAt: Option<Time>)

  /** One logical notification to one subscriber, optionally about one event or one occurrence. */
  datatype NotificationRecord = NotificationRecord(
    subscriberId: Id,
    eventId: Option<Id>,
    eventInstanceId: Option<Id>,
    notificationType: NotificationType,
    subject: string,
    message: string,
    sentAt: Time)

  /** The outcome of one delivery attempt for the record `notificationId`. */
  datatype NotificationResult = NotificationResult(
    notificationId: Id,
    success: bool,
    errorMessage: Option<string>,
    deliveryStatus: Option<string>,
    deliveredAt: Option<Time>,
    readAt: Option<Time>)
}
