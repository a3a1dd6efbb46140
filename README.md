# Newsletter notification core, modelled in Dafny

This project models the core of the Newsletter back end. It covers:

- the store (`NewsletterContext`) with its soft-delete query filter;
- the tag, subscriber and event services;
- the notification handlers and the factory that picks them;
- the derived status of a notification record;
- `NotificationService`, which chooses recipients and sends notifications.

## Model structure

The stored state is one `DbSet` per entity type. Each set is a class whose `rows` sequence the methods reassign. The services and the context are classes over that state: each method states its whole new state, and the invariants it keeps, such as unique tag names, unique e-mail addresses, unique event titles and distinct identifiers. Queries are pure functions, and lemmas prove their properties.

| file | module | what it models |
|---|---|---|
| `common.dfy` | `Common` | identifiers, instants, `Option` |
| `text.dfy` | `Text` | lower-casing, trimming, joining, and ordering by a string key under a given string order |
| `seqs.dfy` | `Seqs` | `Where` and `OrderBy` over sequences |
| `entities.dfy` | `Entities` | the entity types and `BaseEntity`'s fields |
| `context.dfy` | `Data`, `Store` | the generic get/add/update/delete operations, the soft-delete filter and the clock |
| `record_status.dfy` | `RecordStatus` | `WasSuccessful` and the other properties computed from a record's latest result |
| `handlers.dfy` | `Handlers` | the base handler's `HandleAsync` and the e-mail, SMS and push handlers |
| `factory.dfy` | `HandlerFactory` | `GetHandlersAsync` |
| `tag_service.dfy` | `Tags` | `TagService` |
| `subscriber_service.dfy` | `Subscribers` | `SubscriberService` |
| `event_service.dfy` | `Events` | `EventService` |
| `targeting.dfy` | `Targeting` | the pure part of `NotificationService`: eligibility, location, "already notified", history queries and message templates |
| `notification_service.dfy` | `Notifications` | `NotificationService` itself: sending, the handler loop, the subscriber's stamps and the four notify operations |

## Main results

- **Sending a notification.** `SendNotificationAsync` appends exactly one record. It carries the given subject, message, channel and event or occurrence. The results stored for it belong to that record alone.
- **Record status.** A record reads as successful exactly when the *last* matching handler succeeded.
  - For a single channel only one handler matches, so that handler decides (`SingleChannelOneHandler`).
  - With `All`, an earlier success can be masked by a later failure (`AllReportsLastHandler`).
- **Subscriber stamps.** Each success stamps `LastNotifiedAt`, plus `LastEmailSentAt` or `LastSmsSentAt` for e-mail or SMS. If the subscriber's row cannot be written back, a failed result carrying the exception's message is stored and the error propagates.
- **Notify loops.** A loop over candidates sends to exactly the candidates the "should notify" test admits, in order, one record each. Each record has the right contents and status. Sending to one subscriber never changes whether another one counts as already notified (`NotifiedUnaffected`).
- **Derived status.** All five computed properties of a record come from one result, the newest. That result does not depend on the order of the collection (`LatestOrderIndependent`). A newer failure overrides an earlier success.
- **Service invariants.** The services keep names, addresses and titles unique. They find a stored entity under every case or whitespace variant of its key. They refuse conflicts exactly as the source's tests decide.

## Behaviour of the code worth noting

- Eligible subscribers come out in table order. They are not sorted by e-mail address.
- No exception is caught per subscriber in the notify loops. In the model no exception can arise there either: every candidate has a visible row, so the write-back after a success never fails and each loop runs to the end (`NotifyEach`).
- `NotifySubscribersByLocationAsync` applies the active filter only when `notifyOnlyActiveSubscribers` is **false** (`Targeting.LocationCandidates`).
- `GetAllTagsAsync` and `GetAllEventsAsync` ignore `includeInactive`.
- An occurrence whose event is soft-deleted is not found: the occurrence is loaded together with its event, and the event's query filter drops the pair. `NotifySubscribersAboutEventInstanceAsync` then throws KeyNotFound, and `GetEventInstancesAsync` returns nothing for that event.
- An event's tags are a set: the EventTag join table's key is the pair of event and tag. Naming the same tag twice, even in different case, stores it once, and the "Tags:" line of the event and reminder messages names it once (`Targeting.TagNamesOnce`).
- With `All`, only the last handler's result decides `WasSuccessful`. `LastEmailSentAt` and `LastSmsSentAt` are not stamped for `All`.

## Model

| member | source | states |
|---|---|---|
| Data.Live | src/Newsletter.Data/NewsletterContext.cs:85-96 | every row a query reads is a stored row that is not marked deleted, and every such row is read |
| Data.FindLive | src/Newsletter.Data/NewsletterContext.cs:19-23 | the lookup by identifier finds a visible row with that identifier, and finds none only when every row with it is deleted |
| Data.FindLiveSameKeys | src/Newsletter.Data/NewsletterContext.cs:40-50 | rewriting row contents without touching identifiers or deletion flags leaves every lookup by identifier unchanged |
| Data.FilterUniqueIds | src/Newsletter.Data/NewsletterContext.cs:25-30 | a query over a table whose identifiers are distinct returns rows with distinct identifiers |
| Data.RewrittenTrans | src/Newsletter.Data/NewsletterContext.cs:40-50 | two updates of the same entity in a row leave the table as one update with the second fields would |
| Data.UpdatedRewrites | src/Newsletter.Data/NewsletterContext.cs:40-50 | a successful `UpdateAsync` rewrites exactly the entity's row with the new fields |
| Data.SameIdSameRow | src/Newsletter.Data/NewsletterContext.cs:19-23 | with distinct identifiers, two rows found under one identifier are the same row |
| Data.FindLiveAt | src/Newsletter.Data/NewsletterContext.cs:19-23 | a visible row of a table with distinct identifiers is what the lookup by its identifier finds |
| Data.DbSet.GetById | src/Newsletter.Data/NewsletterContext.cs:19-23 | `GetByIdAsync` returns a visible stored row with the identifier, or null only when every row with it is deleted |
| Data.DbSet.GetAll | src/Newsletter.Data/NewsletterContext.cs:25-30 | `GetAllAsync` returns exactly the stored rows that are not deleted |
| Data.DbSet.Add | src/Newsletter.Data/NewsletterContext.cs:32-38 | `AddAsync` appends the entity under a fresh identifier with `CreatedAt` stamped, not deleted, and it is then found by that identifier |
| Data.DbSet.Update | src/Newsletter.Data/NewsletterContext.cs:40-50 | `UpdateAsync` throws KeyNotFound with the store's message and changes nothing when no visible row has the identifier; otherwise it replaces that row's fields and stamps `UpdatedAt`; lookups by identifier are unchanged |
| Data.DbSet.Delete | src/Newsletter.Data/NewsletterContext.cs:52-61 | `DeleteAsync` throws KeyNotFound for a missing or deleted entity; otherwise marks it deleted with `UpdatedAt` stamped; afterwards no lookup finds it |
| Data.DbSet.HardDelete | src/Newsletter.Data/NewsletterContext.cs:63-71 | `HardDeleteAsync` throws KeyNotFound and changes nothing for a missing entity; otherwise no row with the identifier remains |
| Store.NewsletterContext.Now | src/Newsletter.Data/NewsletterContext.cs:34 | every reading of the clock is later than the one before |
| Store.NewsletterContext.AddResult | src/Newsletter.Data/NewsletterContext.cs:32-38 | a result is appended under a fresh identifier, stamped with the current time |
| Store.NewsletterContext.AddRecord | src/Newsletter.Data/NewsletterContext.cs:32-38 | a notification record is appended under a fresh identifier, stamped with the current time |
| Store.NewsletterContext.AddTag | src/Newsletter.Data/NewsletterContext.cs:32-38 | a tag is appended under a fresh identifier, stamped with the current time |
| Store.NewsletterContext.AddSubscriber | src/Newsletter.Data/NewsletterContext.cs:32-38 | a subscriber is appended under a fresh identifier, stamped with the current time |
| Store.NewsletterContext.AddEvent | src/Newsletter.Data/NewsletterContext.cs:32-38 | an event is appended under a fresh identifier, stamped with the current time |
| Store.NewsletterContext.AddInstance | src/Newsletter.Data/NewsletterContext.cs:32-38 | an occurrence is appended under a fresh identifier, stamped with the current time |
| Store.NewsletterContext.UpdateSubscriber | src/Newsletter.Data/NewsletterContext.cs:40-50 | the generic update on the subscribers table, reading the clock once, and only when the entity is found; lookups by identifier are unchanged |
| Store.NewsletterContext.UpdateTag | src/Newsletter.Data/NewsletterContext.cs:40-50 | the generic update on the tags table, reading the clock once, and only when the entity is found |
| Store.NewsletterContext.UpdateEvent | src/Newsletter.Data/NewsletterContext.cs:40-50 | the generic update on the events table, reading the clock once, and only when the entity is found |
| Store.NewsletterContext.UpdateInstance | src/Newsletter.Data/NewsletterContext.cs:40-50 | the generic update on the occurrences table, reading the clock once, and only when the entity is found |
| Store.NewsletterContext.DeleteSubscriber | src/Newsletter.Data/NewsletterContext.cs:52-61 | the soft delete on the subscribers table, reading the clock once, and only when the entity is found |
| Store.NewsletterContext.DeleteTag | src/Newsletter.Data/NewsletterContext.cs:52-61 | the soft delete on the tags table, reading the clock once, and only when the entity is found |
| Store.NewsletterContext.DeleteEvent | src/Newsletter.Data/NewsletterContext.cs:52-61 | the soft delete on the events table, reading the clock once, and only when the entity is found |
| Store.NewsletterContext.DeleteInstance | src/Newsletter.Data/NewsletterContext.cs:52-61 | the soft delete on the occurrences table, reading the clock once, and only when the entity is found |
| Entities.NewPreference | src/Newsletter.Data.Entities/SubscriberTag.cs:12-15 | a new preference row names the tag and is active |
| Entities.NewSubscriber | src/Newsletter.Data.Entities/Subscriber.cs:10-18 | a new subscriber prefers e-mail only, has no preferences and has never been notified |
| Text.Lower | src/Newsletter.Service/TagService.cs:39 | `ToLower` maps every character to its lower-case form and keeps the length |
| Text.TrimStartSpec | src/Newsletter.Service/TagService.cs:24 | what `Trim` drops at the front is whitespace in the sense of `Char.IsWhiteSpace`, what it keeps is a suffix of the input and starts with a non-blank |
| Text.TrimEndSpec | src/Newsletter.Service/TagService.cs:24 | what `Trim` drops at the back is whitespace in the sense of `Char.IsWhiteSpace`, what it keeps is a prefix of the input and ends with a non-blank |
| Text.TrimSpec | src/Newsletter.Service/TagService.cs:24 | a trimmed string is a slice of the input that starts and ends with a non-blank |
| Text.TrimOpt | src/Newsletter.Service/SubscriberService.cs:92-112 | `x?.Trim()` is null exactly when `x` is |
| Text.LowerIdempotent | src/Newsletter.Service/TagService.cs:39 | lower-casing twice is lower-casing once |
| Text.LowerTrimCommute | src/Newsletter.Service/TagService.cs:39 | `x.ToLower().Trim()` and `x.Trim().ToLower()` agree |
| Text.NormalizeProperties | src/Newsletter.Service/TagService.cs:70 | the lookup key of a name is its trimmed lower-cased form, and lower-casing leaves the key unchanged |
| Text.Join | src/Newsletter.Service/NotificationService.cs:403 | `string.Join` of no parts is empty and of one part is that part |
| Text.NatText | src/Newsletter.Data/NewsletterContext.cs:44 | an interpolated identifier is a non-empty string of digits |
| Text.JoinSnoc | src/Newsletter.Service/NotificationService.cs:403 | `string.Join` of one more part is the earlier join, the separator and the part |
| Text.ByStringPreorder | src/Newsletter.Service/TagService.cs:46 | ordering by a string key under any total string order (the database's collation, the current culture) is a total preorder, so sorting by it is well defined |
| Text.IgnoringCasePreorder | src/Newsletter.Service/SubscriberService.cs:140 | a case-insensitive string order is a total preorder, and it puts "apple" before "Banana", which the ordinal order does not |
| Seqs.Filter | src/Newsletter.Data/NewsletterContext.cs:28 | `Where` keeps exactly the elements satisfying the test, in order |
| Seqs.FilterIsSubsequence | src/Newsletter.Data/NewsletterContext.cs:28 | `Where` keeps the relative order of what it keeps |
| Seqs.FilterAppend | src/Newsletter.Data/NewsletterContext.cs:28 | `Where` over a concatenation is the concatenation of the two filtered parts |
| Seqs.FilterMultiset | src/Newsletter.Data/NewsletterContext.cs:28 | each element occurs in the filtered sequence as often as in the input when it passes, otherwise never |
| Seqs.Insert | src/Newsletter.Service/TagService.cs:46 | inserting into a sorted sequence keeps it sorted and adds exactly one element |
| Seqs.SortBy | src/Newsletter.Service/TagService.cs:46 | `OrderBy` returns a sorted permutation of its input |
| Seqs.ByIntPreorder | src/Newsletter.Service/NotificationService.cs:194 | ordering by an integer key, ascending or descending, is a total preorder |
| RecordStatus.ResultsOf | src/Newsletter.Data.Entities/NotificationRecord.cs:20 | a record's results are exactly the visible results pointing at it |
| RecordStatus.ResultsOfAppend | src/Newsletter.Data.Entities/NotificationRecord.cs:20 | results added later extend each record's collection by exactly those pointing at it |
| RecordStatus.LatestIndex | src/Newsletter.Data.Entities/NotificationRecord.cs:23-27 | the latest result has a greatest `CreatedAt`, and is the first one with it |
| RecordStatus.Latest | src/Newsletter.Data.Entities/NotificationRecord.cs:23-27 | a record without results has no latest result; otherwise the latest is one of its results with a greatest stamp |
| RecordStatus.NoResultsNoStatus | src/Newsletter.Data.Entities/NotificationRecord.cs:23-27 | a record without results is unsuccessful and all its derived fields are null |
| RecordStatus.LatestIndexUnique | src/Newsletter.Data.Entities/NotificationRecord.cs:23-27 | the two properties of the latest position determine it |
| RecordStatus.StatusFromOneResult | src/Newsletter.Data.Entities/NotificationRecord.cs:23-27 | all five derived properties come from one and the same result |
| RecordStatus.AppendNewer | src/Newsletter.Data.Entities/NotificationRecord.cs:23-27 | a result stamped after all others decides all five derived properties |
| RecordStatus.NewerFailureOverridesSuccess | src/Newsletter.Data.Entities/NotificationRecord.cs:23 | a newer failed attempt makes a successful record unsuccessful |
| RecordStatus.IncreasingStampsLastWins | src/Newsletter.Data.Entities/NotificationRecord.cs:23 | with increasing stamps the last stored result decides `WasSuccessful` |
| RecordStatus.LatestOrderIndependent | src/Newsletter.Data.Entities/NotificationRecord.cs:23-27 | with distinct stamps the derived status does not depend on the collection's order |
| Handlers.ChannelsPartitioned | src/Newsletter.Handler/EmailNotificationHandler.cs:17-20 | e-mail, SMS and push are each taken by exactly their own handler, and `All` by all three |
| Handlers.Process | src/Newsletter.Handler/SmsNotificationHandler.cs:22-66 | processing succeeds exactly when the transport delivers and the contact detail is present; a missing phone number or push token gives its own error message, a transport fault gives its message |
| Handlers.EmailIgnoresSubscriber | src/Newsletter.Handler/EmailNotificationHandler.cs:22-57 | the e-mail handler's outcome reads no field of the subscriber |
| Handlers.ProcessReadsContactOnly | src/Newsletter.Handler/PushNotificationHandler.cs:22-67 | processing reads only the phone number and the push token |
| Handlers.BaseHandle | src/Newsletter.Handler/BaseNotificationHandler.cs:23-93 | the stored result belongs to the record: a failure when the handler cannot take the channel, the processing's result when it returns, a failure with the exception's message when it throws |
| Handlers.CannotHandleSkipsProcessing | src/Newsletter.Handler/BaseNotificationHandler.cs:27-40 | a handler that cannot take the channel never processes |
| Handlers.HandleResult | src/Newsletter.Handler/BaseNotificationHandler.cs:23-93 | a concrete handler's result succeeds exactly when it takes the channel, the transport delivers and the contact detail is present |
| Handlers.Handle | src/Newsletter.Handler/BaseNotificationHandler.cs:48-71 | `HandleAsync` stores exactly one result for the record, which becomes the record's latest; a delivered attempt reads the clock for `DeliveredAt` before the store reads it for `CreatedAt` |
| Handlers.DeliveryTime | src/Newsletter.Handler/EmailNotificationHandler.cs:36-41 | `DeliveredAt` is a reading of the clock taken only when the attempt delivered |
| Handlers.AppendedResultIsLatest | src/Newsletter.Handler/BaseNotificationHandler.cs:48-71 | a result stamped after every stored result becomes the record's latest |
| Handlers.StoredResultsOlder | src/Newsletter.Handler/BaseNotificationHandler.cs:48-71 | every stored result of a record was stamped before the current reading of the clock |
| HandlerFactory.Matching | src/Newsletter.Handler/NotificationHandlerFactory.cs:25-43 | the handlers for a channel are exactly the registered ones that take it, in registration order |
| HandlerFactory.NoMatchIsEmpty | src/Newsletter.Handler/NotificationHandlerFactory.cs:25-43 | no matching handler gives an empty list, not an error |
| HandlerFactory.NotificationHandlerFactory.GetHandlers | src/Newsletter.Handler/NotificationHandlerFactory.cs:25-43 | `GetHandlersAsync` returns the registered handlers that take the channel, in order |
| Tags.FindByName | src/Newsletter.Service/TagService.cs:37-40 | `GetTagByNameAsync` finds a visible tag whose lower-cased name equals the trimmed lower-cased argument, and finds none only when no visible tag has such a name |
| Tags.FindByNameUnique | src/Newsletter.Service/TagService.cs:37-40 | under unique names the lookup finds the one tag with the name |
| Tags.AllTags | src/Newsletter.Service/TagService.cs:42-48 | `GetAllTagsAsync` returns the visible tags, sorted by name under the store's collation, as a permutation of the matching rows, whatever `includeInactive` says |
| Tags.StoredNameMatches | src/Newsletter.Service/TagService.cs:17-30 | a tag stored under the trimmed name matches every case or whitespace variant of it |
| Tags.StoredTagFound | src/Newsletter.Service/TagService.cs:17-30 | once names are unique, a stored tag is what every variant of its name looks up |
| Tags.ReplaceKeepsUnique | src/Newsletter.Service/TagService.cs:50-61 | replacing a tag by one under a name no other visible tag has keeps names unique |
| Tags.SoftDeleteKeepsNamesUnique | src/Newsletter.Service/TagService.cs:63-66 | a soft delete keeps names unique |
| Tags.AppendKeepsUnique | src/Newsletter.Service/TagService.cs:17-30 | adding a tag under a name nobody has keeps names unique |
| Tags.FreeNameStaysFree | src/Newsletter.Service/TagService.cs:68-71 | a name `TagExistsAsync` rejects is free for the trimmed stored name |
| Tags.ConflictDecision | src/Newsletter.Service/TagService.cs:55-56 | the update's test is exactly "another visible tag holds the name" |
| Tags.RenameKeepsUnique | src/Newsletter.Service/TagService.cs:50-61 | renaming a tag to a name no other tag holds keeps names unique |
| Tags.FindByNameAppend | src/Newsletter.Service/TagService.cs:37-40 | a name that finds a tag keeps finding it when other tags are added |
| Tags.ResolvesKept | src/Newsletter.Service/TagService.cs:37-40 | tags added later do not change the set of tags the names resolved to |
| Tags.ResolvesSnoc | src/Newsletter.Service/EventService.cs:47-53 | one more name adds the identifier of the tag under it, unless that tag is already among the event's tags; the identifiers stay distinct and are exactly those of the tags the names find |
| Tags.LookupsKeptTrans | src/Newsletter.Service/TagService.cs:37-40 | "earlier lookups still find the same tags" composes across steps |
| Tags.GrownByOne | src/Newsletter.Service/SubscriberService.cs:45-47 | creating the tag for a name that found none appends only that tag, visible, under the trimmed name, without description |
| Tags.GrownForTrans | src/Newsletter.Service/EventService.cs:47-53 | tags appended for names of a list, over several steps, are tags appended for that list |
| Tags.TagService.DeleteTag | src/Newsletter.Service/TagService.cs:63-66 | `DeleteTagAsync` is the store's soft delete, and names stay unique |
| Tags.TagService.CreateTag | src/Newsletter.Service/TagService.cs:17-30 | `CreateTagAsync` throws InvalidOperation and adds nothing when the name is taken; otherwise adds the tag with trimmed name and description, after which every variant of the name finds it |
| Tags.TagService.UpdateTag | src/Newsletter.Service/TagService.cs:50-61 | `UpdateTagAsync` throws KeyNotFound for a missing tag and InvalidOperation exactly when another tag holds the name; otherwise the row is the old one with name and description trimmed and `UpdatedAt` stamped; names stay unique |
| Tags.TagService.FindOrCreate | src/Newsletter.Service/SubscriberService.cs:45-47 | the tag under a name, created with the trimmed name when missing; earlier lookups are kept and no other tag is added |
| Tags.TagService.AppendTagId | src/Newsletter.Service/EventService.cs:47-53 | one more name in the event tag loop adds the tag found or created under it to the event's tags, which stay a set (an already present tag is not added again), and at most that tag to the table |
| Subscribers.FindByEmail | src/Newsletter.Service/SubscriberService.cs:71-77 | `GetSubscriberByEmailAsync` finds a visible subscriber whose address matches the normalised one, and finds none only when none matches |
| Subscribers.StoredSubscriberFound | src/Newsletter.Service/SubscriberService.cs:19-61 | a subscriber stored under the normalised address is found under every variant of it |
| Subscribers.AppendKeepsEmailsUnique | src/Newsletter.Service/SubscriberService.cs:19-61 | adding a subscriber under a free address keeps addresses unique |
| Subscribers.SoftDeleteKeepsEmailsUnique | src/Newsletter.Service/SubscriberService.cs:114-117 | a soft delete keeps addresses unique |
| Subscribers.SameEmailKeepsUnique | src/Newsletter.Service/SubscriberService.cs:92-112 | rewriting a subscriber without changing its address keeps addresses unique |
| Subscribers.AllSubscribers | src/Newsletter.Service/SubscriberService.cs:79-90 | `GetAllSubscribersAsync` returns the visible subscribers (only the active ones unless `includeInactive`), sorted by address under the store's collation, as a permutation of the matching rows |
| Subscribers.HasPreferredTag | src/Newsletter.Service/SubscriberService.cs:211-222 | KeyNotFound for a missing subscriber; true exactly when the tag exists and a preference row of the subscriber names it |
| Subscribers.PreferredOnceAdded | src/Newsletter.Service/SubscriberService.cs:143-164 | a subscriber with a preference row for the tag prefers it |
| Subscribers.TagsOf | src/Newsletter.Service/SubscriberService.cs:131-141 | the tags of the preference rows are visible tags the subscriber prefers, and every visible preferred tag is among them |
| Subscribers.PreferredTags | src/Newsletter.Service/SubscriberService.cs:131-141 | `GetSubscriberPreferredTagsAsync`: KeyNotFound for a missing subscriber; otherwise the tags of its preference rows, each as often as rows name it, sorted by name under the current culture |
| Subscribers.FirstPreference | src/Newsletter.Service/SubscriberService.cs:166-182 | the position of the first preference row for the tag, none exactly when no row names it |
| Subscribers.Without | src/Newsletter.Service/SubscriberService.cs:166-182 | removing a preference drops exactly one row for the tag when there is one and keeps every other row |
| Subscribers.UpdateChangesPreferences | src/Newsletter.Service/SubscriberService.cs:184-209 | an update that only sets the preferences leaves the row as it was apart from the preferences and the `UpdatedAt` stamp |
| Subscribers.PreferencesForKept | src/Newsletter.Service/SubscriberService.cs:184-209 | tags added later do not change the preferences built for earlier names |
| Subscribers.PreferencesForSnoc | src/Newsletter.Service/SubscriberService.cs:184-209 | one more name adds one active preference for the tag under it |
| Subscribers.SubscriberService.AppendPreference | src/Newsletter.Service/SubscriberService.cs:43-55 | one more name yields one more preference for the tag under it, created when missing; no other tag is added |
| Subscribers.SubscriberService.PreferencesForNames | src/Newsletter.Service/SubscriberService.cs:41-56 | one active preference per given name, in order, for the tags under the names; the only tags added are new visible tags under the trimmed names that found none |
| Subscribers.SubscriberService.StoreSubscriber | src/Newsletter.Service/SubscriberService.cs:31-60 | the new subscriber is appended, addresses stay unique, and every variant of the address finds it |
| Subscribers.SubscriberService.CreateSubscriber | src/Newsletter.Service/SubscriberService.cs:19-61 | `CreateSubscriberAsync` throws InvalidOperation and adds nothing for a taken address; otherwise stores the normalised address, trimmed fields and one preference per tag name, adding only the tags those names lacked |
| Subscribers.SubscriberService.UpdateSubscriber | src/Newsletter.Service/SubscriberService.cs:92-112 | `UpdateSubscriberAsync`: KeyNotFound for a missing subscriber; otherwise the row is the old one with exactly the names, active flag, phone and notes replaced and `UpdatedAt` stamped |
| Subscribers.SubscriberService.DeleteSubscriber | src/Newsletter.Service/SubscriberService.cs:114-117 | `DeleteSubscriberAsync` is the store's soft delete, and addresses stay unique |
| Subscribers.SubscriberService.SetPreferences | src/Newsletter.Service/SubscriberService.cs:184-209 | a preference write through `UpdateAsync` leaves the row as it was apart from the new preferences and `UpdatedAt`, which is the one reading of the clock it takes |
| Subscribers.SubscriberService.AddPreference | src/Newsletter.Service/SubscriberService.cs:143-164 | one active preference for the tag under the name is appended with `AddedAt` a reading of the clock, and `UpdatedAt` is the next reading; nothing else in the row changes; the subscriber then prefers the tag; at most that tag was added to the table |
| Subscribers.SubscriberService.AddPreferredTag | src/Newsletter.Service/SubscriberService.cs:143-164 | `AddPreferredTagAsync`: KeyNotFound for a missing subscriber; no change when the tag is already preferred; otherwise one active preference is appended with `AddedAt` a reading of the clock and `UpdatedAt` the next, nothing else in the row changes, the tag is then preferred, and at most that tag was added to the table |
| Subscribers.SubscriberService.RemovePreferredTag | src/Newsletter.Service/SubscriberService.cs:166-182 | `RemovePreferredTagAsync`: KeyNotFound for a missing subscriber; no change for an unknown or not preferred tag; otherwise the first preference row for it is removed, `UpdatedAt` is stamped, and nothing else in the row changes |
| Subscribers.SubscriberService.UpdatePreferredTags | src/Newsletter.Service/SubscriberService.cs:184-209 | `UpdatePreferredTagsAsync`: KeyNotFound for a missing subscriber; otherwise the preferences become one active row per given name, each with `AddedAt` a reading taken before the row's `UpdatedAt`, which is the last reading; nothing else in the row changes, and the only tags added are those the names lacked |
| Events.FindByTitle | src/Newsletter.Service/EventService.cs:69-75 | `GetEventByTitleAsync` finds a visible event whose title matches the normalised one, and finds none only when none matches |
| Events.StoredEventFound | src/Newsletter.Service/EventService.cs:19-59 | an event stored under the trimmed title is found under every variant of it |
| Events.AppendKeepsTitlesUnique | src/Newsletter.Service/EventService.cs:19-59 | adding an event under a free title keeps titles unique |
| Events.TitleConflictDecision | src/Newsletter.Service/EventService.cs:106-108 | the update's test is exactly "another visible event holds the title" |
| Events.RetitleKeepsUnique | src/Newsletter.Service/EventService.cs:90-133 | re-titling to a title no other event holds keeps titles unique |
| Events.SameTitleKeepsUnique | src/Newsletter.Service/EventService.cs:140-160 | rewriting an event without changing its title keeps titles unique |
| Events.SoftDeleteKeepsTitlesUnique | src/Newsletter.Service/EventService.cs:135-138 | a soft delete keeps titles unique |
| Events.LoadedEvent | src/Newsletter.Service/EventService.cs:218-223 | the event an occurrence is loaded with is its visible event, and none exactly when that event is deleted or missing |
| Events.FindInstance | src/Newsletter.Service/EventService.cs:218-224 | `GetEventInstanceByIdAsync` finds a visible occurrence with the identifier whose event is visible, and finds none exactly when every visible occurrence with it has a deleted or missing event |
| Events.FoundInstanceIsLive | src/Newsletter.Service/EventService.cs:218-224 | under distinct identifiers, an occurrence found with its event is the visible row with the identifier |
| Events.AllEvents | src/Newsletter.Service/EventService.cs:77-88 | `GetAllEventsAsync` returns the visible events, sorted by title under the store's collation, as a permutation of the matching rows, whatever `includeInactive` says |
| Events.Instances | src/Newsletter.Service/EventService.cs:226-237 | `GetEventInstancesAsync` returns the visible occurrences of a visible event (cancelled ones only when asked), sorted by start time, as a permutation of the matching rows; nothing when the event is deleted |
| Events.EventService.TagIdsForNames | src/Newsletter.Service/EventService.cs:45-54 | the event's tags are exactly the tags under the names, each once, creating missing tags and no others |
| Events.EventService.TagIdsForUpdate | src/Newsletter.Service/EventService.cs:119-129 | without tag names the event keeps its tags and the tags table is untouched; with names the tags become exactly those under the names, each once, creating only the missing ones |
| Events.EventService.StoreEvent | src/Newsletter.Service/EventService.cs:33-58 | the event is appended, titles stay unique, and every variant of the title finds it |
| Events.EventService.CreateEvent | src/Newsletter.Service/EventService.cs:19-59 | `CreateEventAsync`: InvalidOperation and nothing added for a taken title; otherwise an unpublished event with trimmed fields and exactly the tags under the names, each once, adding only the tags those names lacked |
| Events.EventService.StoreUpdate | src/Newsletter.Service/EventService.cs:110-132 | the row is the old one with the new fields and `UpdatedAt` stamped, and titles stay unique |
| Events.EventService.UpdateEvent | src/Newsletter.Service/EventService.cs:90-133 | `UpdateEventAsync`: KeyNotFound for a missing event, InvalidOperation exactly when another event holds the title; otherwise the row is the old one with trimmed fields, tags replaced by exactly those under the names, each once, when names are given (adding only the tags those names lacked) and `UpdatedAt` stamped |
| Events.EventService.DeleteEvent | src/Newsletter.Service/EventService.cs:135-138 | `DeleteEventAsync` is the store's soft delete, and titles stay unique |
| Events.EventService.SetPublished | src/Newsletter.Service/EventService.cs:140-160 | the row is the old one with only the publication state replaced and `UpdatedAt` stamped |
| Events.EventService.Publish | src/Newsletter.Service/EventService.cs:140-149 | `PublishEventAsync`: KeyNotFound for a missing event; otherwise the row is the old one, published, with `PublishedAt` one reading of the clock and `UpdatedAt` the next |
| Events.EventService.Unpublish | src/Newsletter.Service/EventService.cs:151-160 | `UnpublishEventAsync`: KeyNotFound for a missing event; otherwise the row is the old one, unpublished, with no publication time and `UpdatedAt` stamped |
| Events.EventService.AddInstance | src/Newsletter.Service/EventService.cs:162-216 | `AddEventInstanceAsync`: KeyNotFound for a missing event, then Argument unless start is before end, nothing stored on either; otherwise a new, not cancelled occurrence with trimmed fields |
| Events.EventService.UpdateInstance | src/Newsletter.Service/EventService.cs:239-288 | `UpdateEventInstanceAsync`: KeyNotFound for an occurrence not found with its event, then Argument unless start is before end; otherwise the row is the old one with times and trimmed fields replaced and `UpdatedAt` stamped |
| Events.EventService.CancelInstance | src/Newsletter.Service/EventService.cs:290-301 | `CancelEventInstanceAsync`: KeyNotFound for an occurrence not found with its event; otherwise the row is the old one, cancelled with trimmed reason, `CancelledAt` one reading of the clock and `UpdatedAt` the next |
| Events.EventService.DeleteInstance | src/Newsletter.Service/EventService.cs:303-306 | `DeleteEventInstanceAsync` is the store's soft delete |
| Targeting.RecordConcernsTarget | src/Newsletter.Service/NotificationService.cs:216-238 | a record concerns an event or occurrence exactly when its event or occurrence identifier is that one |
| Targeting.NotifiedUnaffected | src/Newsletter.Service/NotificationService.cs:216-238 | records and results added for other subscribers do not change whether a subscriber has been notified |
| Targeting.AllMeansAnyChannel | src/Newsletter.Service/NotificationService.cs:274-293 | a subscriber accepts `All` exactly when it prefers at least one channel |
| Targeting.NotifiedOnce | src/Newsletter.Service/NotificationService.cs:274-314 | once a notification about the target succeeded on the channel, the subscriber is not notified again |
| Targeting.ResolvedIdsMembers | src/Newsletter.Service/NotificationService.cs:256-262 | an identifier is resolved exactly when one of the names finds the tag holding it |
| Targeting.LiveFilterUniqueIds | src/Newsletter.Service/NotificationService.cs:264-268 | a query over visible rows keeps identifiers distinct |
| Targeting.Eligible | src/Newsletter.Service/NotificationService.cs:242-272 | the eligible subscribers are exactly the visible ones, active when asked, with an active preference for a resolved tag when any was resolved; in table order, each once |
| Targeting.LocationCandidates | src/Newsletter.Service/NotificationService.cs:133-157 | the location candidates are exactly the visible subscribers whose city (and state, country when given) is non-null and equal to the argument under the collation's `=`, filtered to active ones only when `notifyOnlyActiveSubscribers` is false |
| Targeting.LocationFollowsCollation | src/Newsletter.Service/NotificationService.cs:152-156 | under a case-insensitive collation a subscriber stored in "Seattle" is a candidate for "seattle ", which a binary collation does not admit |
| Text.SameIsEquivalence | src/Newsletter.Data/NewsletterContextFactory.cs:26 | the `=` of a case-insensitive collation and of a binary one are equivalences |
| Text.SameIgnoringCaseExample | src/Newsletter.Data/NewsletterContextFactory.cs:26 | SQL Server's default `=` ignores case and trailing spaces: "Seattle" equals "seattle ", which binary equality does not |
| Targeting.SubscriberHistory | src/Newsletter.Service/NotificationService.cs:178-195 | the subscriber's records within the bounds and on the channel when given: exactly those, newest first, as a permutation of the matching rows |
| Targeting.EventHistory | src/Newsletter.Service/NotificationService.cs:197-214 | the event's records within the bounds and on the channel when given: exactly those, newest first, as a permutation of the matching rows |
| Targeting.TagNames | src/Newsletter.Service/NotificationService.cs:403 | every name on the "Tags:" line is that of a visible tag of the event, and there are no more names than tags |
| Targeting.TagNamesOnce | src/Newsletter.Service/NotificationService.cs:403 | for an event whose tags are a set, the "Tags:" line names every visible tag of the event, each exactly once |
| Targeting.JoinStartsWithFirst | src/Newsletter.Service/NotificationService.cs:392-404 | a message joined from lines starts with its first line |
| Targeting.EventMessage | src/Newsletter.Service/NotificationService.cs:390-405 | the generated event message starts with the subject line |
| Targeting.EventMessageEndsWithTags | src/Newsletter.Service/NotificationService.cs:403-404 | the event message ends with a line break and the tags line, which is empty without tags and otherwise "Tags: " with the names joined by ", " |
| Targeting.InstanceMessage | src/Newsletter.Service/NotificationService.cs:407-428 | InvalidOperation exactly when the occurrence's event is not loaded; otherwise the message starts with the subject line |
| Notifications.SingleChannelOneHandler | src/Newsletter.Service/NotificationService.cs:355-373 | for a single channel at most one of the distinct registered handlers runs, so that handler alone decides the status |
| Notifications.SubsequenceDistinct | src/Newsletter.Handler/NotificationHandlerFactory.cs:25-43 | the handlers matched from distinct registrations are distinct |
| Notifications.AllReportsLastHandler | src/Newsletter.Service/NotificationService.cs:355-373 | with `All`, a delivered e-mail followed by an SMS without phone number leaves the record unsuccessful |
| Notifications.Bookkeeping | src/Newsletter.Service/NotificationService.cs:361-371 | after a success only the stamps change: `LastNotifiedAt` always, `LastEmailSentAt` only for e-mail, `LastSmsSentAt` only for SMS |
| Notifications.StampedTrans | src/Newsletter.Service/NotificationService.cs:361-371 | stamping after several successes is stamping once, and contact details never change |
| Notifications.ResultsKept | src/Newsletter.Service/NotificationService.cs:355-373 | results stored for one record leave every other record's results as they were |
| Notifications.StatusesKept | src/Newsletter.Service/NotificationService.cs:355-373 | results for a new record leave the statuses of earlier records unchanged |
| Notifications.StatusesSnoc | src/Newsletter.Service/NotificationService.cs:316-388 | the status of one more record is recorded alongside the earlier ones |
| Notifications.AnySucceedsSnoc | src/Newsletter.Service/NotificationService.cs:355-373 | some handler succeeded after one more exactly when it did before or the new one did |
| Notifications.ProgressStep | src/Newsletter.Service/NotificationService.cs:355-373 | one more handler attempt keeps the subscriber's row either untouched or stamped once |
| Notifications.NotifiedStart | src/Newsletter.Service/NotificationService.cs:64-76 | before the loop nothing has been sent |
| Notifications.NotifiedSnoc | src/Newsletter.Service/NotificationService.cs:64-76 | one more sent notification adds one record for the subscriber, with the right contents and status |
| Notifications.SentOnlyToElsewhere | src/Newsletter.Service/NotificationService.cs:64-76 | what the loop has sent so far concerns other subscribers only |
| Notifications.SentOnlyToSnoc | src/Newsletter.Service/NotificationService.cs:64-76 | after one more send the loop's records concern the subscribers handled so far |
| Notifications.NoTargetWantsAll | src/Newsletter.Service/NotificationService.cs:112-131 | without an event or occurrence, no candidate is skipped |
| Notifications.Announcement | src/Newsletter.Service/NotificationService.cs:63-64 | the event message is the caller's when given, otherwise the generated one, which starts with the subject |
| Notifications.Reminder | src/Newsletter.Service/NotificationService.cs:95-96 | the reminder is the caller's message when given; otherwise the generated one, which fails exactly when no event is loaded |
| Notifications.NotificationService.UpdateNotificationPreferences | src/Newsletter.Service/NotificationService.cs:31-46 | KeyNotFound and nothing changed for a missing subscriber; otherwise only the three channel flags and `UpdatedAt` change, and addresses stay unique |
| Notifications.NotificationService.ResolveTagIds | src/Newsletter.Service/NotificationService.cs:256-262 | the tag lookup loop returns the identifiers of the tags found under the names |
| Notifications.NotificationService.GetEligibleSubscribers | src/Newsletter.Service/NotificationService.cs:242-272 | the eligible subscribers, visible and with distinct identifiers |
| Notifications.NotificationService.Bookkeep | src/Newsletter.Service/NotificationService.cs:361-371 | the stamps are taken from fresh readings of the clock: two for e-mail and SMS, one otherwise |
| Notifications.NotificationService.StoreFailure | src/Newsletter.Service/NotificationService.cs:341-353 | exactly one visible failed result with status "Failed" and the message is appended for the record; it becomes its latest, and the record reads unsuccessful |
| Notifications.NotificationService.AfterSuccess | src/Newsletter.Service/NotificationService.cs:359-387 | after a success the subscriber is written back stamped; when the write fails exactly one failed result with the store's KeyNotFound message is appended, becomes the record's latest, and the error propagates |
| Notifications.NotificationService.Deliver | src/Newsletter.Service/NotificationService.cs:355-387 | every handler attempts the record; the record reads successful exactly when the last handler succeeded; it fails exactly when some handler succeeded and the subscriber's row is gone, and then the last stored result is the failure with the store's message; otherwise the row is stamped exactly when some handler succeeded |
| Notifications.NotificationService.DeliverOne | src/Newsletter.Service/NotificationService.cs:357-387 | one handler's attempt and, on success, the subscriber's bookkeeping; a failed write-back leaves the failure with the store's message as the last stored result |
| Notifications.NotificationService.Send | src/Newsletter.Service/NotificationService.cs:316-388 | one record with the given subject, message, channel and target is appended; its status is the last matching handler's; with no handler exactly one failure naming the channel is stored; it fails only when the subscriber's row is gone after a success, and then the failure with the store's message is the last stored result |
| Notifications.NotificationService.Dispatch | src/Newsletter.Service/NotificationService.cs:339-387 | with no matching handler exactly one failed result "No handlers found for notification type: …" is stored and nothing thrown; otherwise the handlers run, and a thrown error leaves the failure with its message as the last stored result |
| Notifications.NotificationService.NotifyEach | src/Newsletter.Service/NotificationService.cs:66-77 | exactly the candidates the should-notify test admits (judged on the state before the loop) receive one record each, in order, with the right status |
| Notifications.NotificationService.NotifyOne | src/Newsletter.Service/NotificationService.cs:68-76 | a candidate is sent the notification exactly when the should-notify test admits it |
| Notifications.NotificationService.SendTo | src/Newsletter.Service/NotificationService.cs:70-75 | one send appends one record, for that subscriber only |
| Notifications.NotificationService.NotifyAboutEvent | src/Newsletter.Service/NotificationService.cs:48-78 | KeyNotFound exactly when the event is not visible, with nothing sent; otherwise the eligible subscribers not yet notified receive "New Event: title" and the message |
| Notifications.NotificationService.NotifyAboutInstance | src/Newsletter.Service/NotificationService.cs:80-110 | KeyNotFound with nothing sent when no visible occurrence with a visible event has the identifier; otherwise the event is loaded, the reminder is generated or given, and the eligible subscribers not yet notified receive it |
| Notifications.NotificationService.NotifyByTags | src/Newsletter.Service/NotificationService.cs:112-131 | every eligible subscriber for the tag names receives the message |
| Notifications.NotificationService.NotifyByLocation | src/Newsletter.Service/NotificationService.cs:133-176 | every location candidate, matched under the collation's `=` given as `same`, receives the message |

## Left out

- Identifiers are natural numbers handed out per table, not GUIDs. `DateTime.UtcNow` is a counter that advances by one on every reading, so each reading is later than the one before; the real clock can return equal readings.
- Asynchrony, concurrency, dependency injection, logging, the simulated network delay of the handlers, and `SaveChangesAsync` failures are not modelled. The only exception modelled inside a send is the store's KeyNotFound when a subscriber's row is gone.
- The real e-mail, SMS and push transports are outside the model. What a transport answers for a record and a handler is the parameter `transport`.
- The `{:g}` time format of the reminder message is the parameter `format`.
- The string order of `OrderBy` over names, titles and addresses is a parameter: the database's collation for the queries the store sorts, the current culture for the preferred tags sorted in memory. Any total string order can be supplied; which one the deployment uses is not modelled. Likewise the `=` the location filter runs under is the parameter `same` of `NotifyByLocation`; `Text.SameIgnoringCase` models the default case-insensitive collation, which ignores case and trailing spaces.
- Events.EventService.CreateEvent, Events.EventService.UpdateEvent and Targeting.TagNames: the order of an event's tags is the order in which the names first found them. The source loads `Tags` without `OrderBy`, so the order of the "Tags:" line is whatever the store returns; the model fixes one such order.
- Text.Lower: lower-cases the ASCII letters A to Z only. Culture-specific and non-ASCII case mappings of `ToLower` are not modelled.
- Entity Framework navigation loading is modelled as lookups:
  - an event's `Tags` are its tag identifiers, a list without repeats, resolved against the tags table;
  - an occurrence's `Event` is `Events.LoadedEvent`, and an occurrence is only found together with its visible event (`Events.FindInstance`).
- Notifications.NotificationService.NotifyByLocation: the `radiusMiles` argument is not modelled. The source only writes a console line for it.
- The floating-point and decimal fields are not modelled: latitude, longitude, preferred radius and price.
- Fields the core never reads are not modelled: verification tokens, unsubscribe data, preferred categories, attendee count, `SubscriberTag.LastNotifiedAt` and its notes.
- Targeting.HasBeenNotified: `WasSuccessful` is evaluated as the property defines it. Whether a database provider can evaluate that computed property inside a query is not modelled.
- Notifications.NotificationService.NotifyEach: the contract states the records and results appended, and that lookups of subscribers are unchanged. It does not state the final stamps of each recipient; `Send` states those for each send.
- Notifications.NotificationService.NotifyAboutEvent: like `NotifyEach`, the recipients' final stamps are not stated.
- Notifications.NotificationService.NotifyAboutInstance: like `NotifyEach`, the recipients' final stamps are not stated.
- Notifications.NotificationService.NotifyByTags: like `NotifyEach`, the recipients' final stamps are not stated.
- Notifications.NotificationService.NotifyByLocation: like `NotifyEach`, the recipients' final stamps are not stated.
- The composition root, the Azure Functions host, the migrations and the interfaces are not part of this model.
