/**
 * `SubscriberService`: subscribers are unique by e-mail address, ignoring
 * case and surrounding whitespace, among those not deleted; the address is
 * stored trimmed and lower-cased. Tag preferences live in the subscriber's
 * `TagPreferences` collection and name tags by identifier.
 */
module Subscribers {

  import opened Common
  import opened Entities
  import opened Data
  import opened Store
  import opened Text
  import Seqs
  import opened Tags

  /** The lookup condition of `GetSubscriberByEmailAsync` and `SubscriberExistsAsync(email)`. */
  predicate HasEmail(s: Entity<Subscriber>, email: string)
  {
    Lower(s.data.email) == Normalize(email)
  }

  /** `GetSubscriberByEmailAsync`: the first visible subscriber with that address. */
  function FindByEmail(rows: seq<Entity<Subscriber>>, email: string): (r: Option<Entity<Subscriber>>)
    ensures r.Some? ==> r.value in rows && !r.value.isDeleted && HasEmail(r.value, email)
    ensures r.None? <==> forall s :: s in rows && !s.isDeleted ==> !HasEmail(s, email)
  {
    if rows == [] then None
    else if !rows[0].isDeleted && HasEmail(rows[0], email) then Some(rows[0])
    else FindByEmail(rows[1..], email)
  }

  /** `SubscriberExistsAsync(email)` */
  predicate SubscriberExists(rows: seq<Entity<Subscriber>>, email: string)
  {
    FindByEmail(rows, email).Some?
  }

  /** No two visible subscribers share an address up to case. */
  ghost predicate UniqueEmails(rows: seq<Entity<Subscriber>>)
  {
    forall a, b :: a in rows && b in rows && !a.isDeleted && !b.isDeleted && Lower(a.data.email) == Lower(b.data.email) ==> a == b
  }

  /** Every case or whitespace variant of `email` looks up `s`. */
  ghost predicate FoundByEmailVariants(rows: seq<Entity<Subscriber>>, s: Entity<Subscriber>, email: string)
  {
    forall v :: Normalize(v) == Normalize(email) ==> FindByEmail(rows, v) == Some(s)
  }

  /** A subscriber stored under the normalised address is found under every variant of it. */
  lemma StoredSubscriberFound(rows: seq<Entity<Subscriber>>, s: Entity<Subscriber>, email: string)
    requires UniqueEmails(rows) && s in rows && !s.isDeleted && s.data.email == Normalize(email)
    ensures FoundByEmailVariants(rows, s, email)
  {
    NormalizeProperties(email);
    forall v | Normalize(v) == Normalize(email) ensures FindByEmail(rows, v) == Some(s) {
      assert HasEmail(s, v);
    }
  }

  /** Appending a visible subscriber whose address is not taken keeps addresses unique. */
  lemma AppendKeepsEmailsUnique(rows: seq<Entity<Subscriber>>, email: string, e: Entity<Subscriber>)
    requires UniqueEmails(rows) && !SubscriberExists(rows, email) && e.data.email == Normalize(email)
    ensures UniqueEmails(rows + [e])
  {
    NormalizeProperties(email);
    forall s | s in rows && !s.isDeleted ensures Lower(s.data.email) != Lower(e.data.email) {
      assert !HasEmail(s, email);
    }
  }

  /** Marking a row deleted keeps addresses unique: it only leaves fewer visible subscribers. */
  lemma SoftDeleteKeepsEmailsUnique(rows: seq<Entity<Subscriber>>, i: nat, now: Time)
    requires i < |rows| && UniqueEmails(rows)
    ensures UniqueEmails(rows[i := rows[i].(isDeleted := true, updatedAt := Some(now))])
  {
    var s := rows[i := rows[i].(isDeleted := true, updatedAt := Some(now))];
    forall x | x in s && !x.isDeleted ensures x in rows {
      var k :| 0 <= k < |s| && s[k] == x;
      assert k != i;
    }
  }

  /** Replacing a row by one with the same identifier, deletion flag and address keeps addresses unique. */
  lemma SameEmailKeepsUnique(rows: seq<Entity<Subscriber>>, i: nat, e: Entity<Subscriber>)
    requires i < |rows| && UniqueEmails(rows) && UniqueIds(rows)
    requires e.id == rows[i].id && e.isDeleted == rows[i].isDeleted && e.data.email == rows[i].data.email
    ensures UniqueEmails(rows[i := e])
  {
    var s := rows[i := e];
    forall a, b | a in s && b in s && !a.isDeleted && !b.isDeleted && Lower(a.data.email) == Lower(b.data.email)
      ensures a == b
    {
      var j :| 0 <= j < |s| && s[j] == a;
      var k :| 0 <= k < |s| && s[k] == b;
      var a0 := if j == i then rows[i] else rows[j];
      var b0 := if k == i then rows[i] else rows[k];
      assert a0 in rows && b0 in rows;
      assert a0 == b0;
      assert rows[j] == rows[k];
      assert j == k;
    }
  }

  function Email(s: Entity<Subscriber>): string
  {
    s.data.email
  }

  /** The subscribers kept unless `includeInactive`: the active ones. */
  function ActiveUnless(includeInactive: bool): Entity<Subscriber> -> bool
  {
    (s: Entity<Subscriber>) => includeInactive || s.data.isActive
  }

  /**
   * `GetAllSubscribersAsync`: the visible subscribers, only the active ones
   * unless `includeInactive`, ordered by address under the database's
   * `collation`.
   */
  function AllSubscribers(rows: seq<Entity<Subscriber>>, includeInactive: bool, collation: (string, string) -> bool)
    : (r: seq<Entity<Subscriber>>)
    requires Seqs.TotalPreorder(collation)
    ensures Seqs.SortedBy(r, ByString(Email, collation))
    ensures forall s :: s in r <==> s in rows && !s.isDeleted && (includeInactive || s.data.isActive)
    ensures multiset(r) == multiset(Seqs.Filter(Live(rows), ActiveUnless(includeInactive)))
  {
    ByStringPreorder(Email, collation);
    var kept := Seqs.Filter(Live(rows), ActiveUnless(includeInactive));
    var r := Seqs.SortBy(kept, ByString(Email, collation));
    assert forall s :: s in r <==> s in multiset(kept);
    r
  }

  /** Whether some preference row names the tag `tagId`. */
  predicate Prefers(prefs: seq<SubscriberTag>, tagId: Id)
  {
    exists p :: p in prefs && p.tagId == tagId
  }

  /**
   * `HasPreferredTagAsync`: KeyNotFound for a missing subscriber; false for
   * an unknown tag name; otherwise whether a preference row, active or not,
   * names the tag.
   */
  function HasPreferredTag(subscribers: seq<Entity<Subscriber>>, tags: seq<Entity<Tag>>, id: Id, tagName: string): (r: Result<bool>)
    ensures r.Fail? <==> FindLive(subscribers, id).None?
    ensures r.Fail? ==> r == Fail(NotFound("Subscriber", id))
    ensures r == Ok(true) <==>
      FindLive(subscribers, id).Some? && FindByName(tags, tagName).Some?
      && Prefers(subscribers[FindLive(subscribers, id).value].data.tagPreferences, FindByName(tags, tagName).value.id)
  {
    match FindLive(subscribers, id)
    case None => Fail(NotFound("Subscriber", id))
    case Some(i) =>
      match FindByName(tags, tagName)
      case None => Ok(false)
      case Some(t) => Ok(Prefers(subscribers[i].data.tagPreferences, t.id))
  }

  /** A subscriber holding a preference row for the tag under a name prefers that name. */
  lemma PreferredOnceAdded(subscribers: seq<Entity<Subscriber>>, tags: seq<Entity<Tag>>, id: Id, tagName: string, p: SubscriberTag)
    requires FindLive(subscribers, id).Some? && FindByName(tags, tagName).Some?
    requires p.tagId == FindByName(tags, tagName).value.id && p in PreferencesOf(subscribers, id)
    ensures HasPreferredTag(subscribers, tags, id, tagName) == Ok(true)
  {
  }

  /** The visible tags the preference rows name, in the rows' order. */
  function TagsOf(prefs: seq<SubscriberTag>, tags: seq<Entity<Tag>>): (r: seq<Entity<Tag>>)
    ensures forall t :: t in r ==> t in tags && !t.isDeleted && Prefers(prefs, t.id)
    ensures forall p :: p in prefs && FindLive(tags, p.tagId).Some? ==> tags[FindLive(tags, p.tagId).value] in r
  {
    if prefs == [] then []
    else
      var rest := TagsOf(prefs[1..], tags);
      assert forall p :: p in prefs[1..] ==> p in prefs;
      match FindLive(tags, prefs[0].tagId)
      case None => rest
      case Some(i) => [tags[i]] + rest
  }

  function TagName(t: Entity<Tag>): string
  {
    t.data.name
  }

  /**
   * `GetSubscriberPreferredTagsAsync`: KeyNotFound for a missing subscriber;
   * otherwise the visible tags its preference rows name, one per row,
   * ordered by name under the current culture's string order `culture`.
   */
  function PreferredTags(subscribers: seq<Entity<Subscriber>>, tags: seq<Entity<Tag>>, id: Id,
                         culture: (string, string) -> bool): (r: Result<seq<Entity<Tag>>>)
    requires Seqs.TotalPreorder(culture)
    ensures r.Fail? <==> FindLive(subscribers, id).None?
    ensures r.Fail? ==> r == Fail(NotFound("Subscriber", id))
    ensures r.Ok? ==> Seqs.SortedBy(r.value, ByString(TagName, culture))
    ensures r.Ok? ==>
      var prefs := subscribers[FindLive(subscribers, id).value].data.tagPreferences;
      && multiset(r.value) == multiset(TagsOf(prefs, tags))
      && (forall t :: t in r.value ==> t in tags && !t.isDeleted && Prefers(prefs, t.id))
      && (forall p :: p in prefs && FindLive(tags, p.tagId).Some? ==> tags[FindLive(tags, p.tagId).value] in r.value)
  {
    match FindLive(subscribers, id)
    case None => Fail(NotFound("Subscriber", id))
    case Some(i) =>
      ByStringPreorder(TagName, culture);
      var found := TagsOf(subscribers[i].data.tagPreferences, tags);
      var sorted := Seqs.SortBy(found, ByString(TagName, culture));
      assert forall t :: t in sorted <==> t in multiset(found);
      Ok(sorted)
  }

  /** Position of the first preference row for the tag. */
  function FirstPreference(prefs: seq<SubscriberTag>, tagId: Id): (r: Option<nat>)
    ensures r.Some? ==> r.value < |prefs| && prefs[r.value].tagId == tagId
    ensures r.Some? ==> forall k :: 0 <= k < r.value ==> prefs[k].tagId != tagId
    ensures r.None? <==> !Prefers(prefs, tagId)
  {
    if prefs == [] then None
    else if prefs[0].tagId == tagId then Some(0)
    else
      match FirstPreference(prefs[1..], tagId)
      case None => None
      case Some(k) => Some(k + 1)
  }

  /**
   * The preferences without the first row for the tag: one row fewer when
   * the tag is preferred, the same rows otherwise, and every row for
   * another tag kept.
   */
  function Without(prefs: seq<SubscriberTag>, tagId: Id): (r: seq<SubscriberTag>)
    ensures !Prefers(prefs, tagId) ==> r == prefs
    ensures Prefers(prefs, tagId) ==> |r| + 1 == |prefs|
    ensures forall q :: q in prefs && q.tagId != tagId ==> q in r
    ensures forall q :: q in r ==> q in prefs
  {
    match FirstPreference(prefs, tagId)
    case None => prefs
    case Some(k) =>
      assert prefs == prefs[..k] + [prefs[k]] + prefs[k + 1..];
      prefs[..k] + prefs[k + 1..]
  }

  /** The preference rows of the visible subscriber `id`; none when it is missing. */
  function PreferencesOf(rows: seq<Entity<Subscriber>>, id: Id): seq<SubscriberTag>
  {
    match FindLive(rows, id)
    case None => []
    case Some(i) => rows[i].data.tagPreferences
  }

  /**
   * `after` is `before` where the visible subscriber `id` has the
   * preferences `prefs` and `UpdatedAt` stamped with `now`, as
   * `UpdateAsync` stores it; every other field and every other row is as
   * it was.
   */
  ghost predicate PreferencesChanged(before: seq<Entity<Subscriber>>, after: seq<Entity<Subscriber>>, id: Id,
                                     prefs: seq<SubscriberTag>, now: Time)
  {
    match FindLive(before, id)
    case None => false
    case Some(i) => after == before[i := before[i].(data := before[i].data.(tagPreferences := prefs), updatedAt := Some(now))]
  }

  /** A store update that only set the preferences changes nothing else. */
  lemma UpdateChangesPreferences(before: seq<Entity<Subscriber>>, after: seq<Entity<Subscriber>>, id: Id,
                                 data: Subscriber, now: Time, r: Result<Entity<Subscriber>>)
    requires FindLive(before, id).Some? && data == before[FindLive(before, id).value].data.(tagPreferences := data.tagPreferences)
    requires Updated(before, after, "Subscriber", id, data, now, r)
    ensures PreferencesChanged(before, after, id, data.tagPreferences, now)
    ensures PreferencesOf(after, id) == data.tagPreferences
  {
    var i := FindLive(before, id).value;
    FindLiveSameKeys(before, after, id);
  }

  /** The preference rows name, position by position, the tags found under the names. */
  ghost predicate PreferencesFor(prefs: seq<SubscriberTag>, names: seq<string>, tags: seq<Entity<Tag>>)
  {
    && |prefs| == |names|
    && forall k :: 0 <= k < |names| ==>
         && FindByName(tags, names[k]).Some?
         && prefs[k].tagId == FindByName(tags, names[k]).value.id
         && prefs[k].isActive && prefs[k].preferenceLevel == 1
  }

  /** Tags added later do not change what earlier names resolve to. */
  lemma PreferencesForKept(prefs: seq<SubscriberTag>, names: seq<string>, before: seq<Entity<Tag>>, after: seq<Entity<Tag>>)
    requires PreferencesFor(prefs, names, before) && LookupsKept(before, after)
    ensures PreferencesFor(prefs, names, after)
  {
    forall k | 0 <= k < |names| ensures FindByName(after, names[k]) == FindByName(before, names[k]) {
      assert FindByName(before, names[k]).Some?;
    }
  }

  /** One more name, one more preference for the tag under it. */
  lemma PreferencesForSnoc(prefs: seq<SubscriberTag>, names: seq<string>, tags: seq<Entity<Tag>>, name: string, t: Time)
    requires PreferencesFor(prefs, names, tags) && FindByName(tags, name).Some?
    ensures PreferencesFor(prefs + [NewPreference(FindByName(tags, name).value.id, t)], names + [name], tags)
  {
    var p' := prefs + [NewPreference(FindByName(tags, name).value.id, t)];
    var n' := names + [name];
    forall k | 0 <= k < |n'|
      ensures FindByName(tags, n'[k]).Some? && p'[k].tagId == FindByName(tags, n'[k]).value.id
      ensures p'[k].isActive && p'[k].preferenceLevel == 1
    {
      if k < |names| {
        assert n'[k] == names[k] && p'[k] == prefs[k];
      }
    }
  }

  /** One round of `PreferencesForNames`: lookups, growth and preferences extend to the next name. */
  lemma PreferencesStep(origin: seq<Entity<Tag>>, before: seq<Entity<Tag>>, after: seq<Entity<Tag>>,
                        prefs: seq<SubscriberTag>, names: seq<string>, i: nat)
    requires i < |names|
    requires LookupsKept(origin, before) && LookupsKept(before, after)
    requires GrownFor(origin, before, names) && GrownFor(before, after, [names[i]])
    requires PreferencesFor(prefs, names[..i] + [names[i]], after)
    ensures LookupsKept(origin, after) && GrownFor(origin, after, names)
    ensures PreferencesFor(prefs, names[..i + 1], after)
  {
    LookupsKeptTrans(origin, before, after);
    GrownForStep(origin, before, after, names, i);
    assert names[..i + 1] == names[..i] + [names[i]];
  }

  /** The fields `CreateSubscriberAsync` sets from its arguments. */
  function Created(email: string, firstName: string, lastName: string, isActive: bool,
                   phoneNumber: Option<string>, notes: Option<string>): Subscriber
  {
    NewSubscriber(Normalize(email), Some(Trim(firstName)), Some(Trim(lastName)), isActive, TrimOpt(phoneNumber), TrimOpt(notes))
  }

  class SubscriberService {
    const ctx: NewsletterContext
    const tagService: TagService

    constructor (ctx: NewsletterContext, tagService: TagService)
      requires tagService.ctx == ctx
      ensures this.ctx == ctx && this.tagService == tagService
    {
      this.ctx := ctx;
      this.tagService := tagService;
    }

    /**
     * The preference `CreateSubscriberAsync` and `UpdatePreferredTagsAsync`
     * add for one more name: for the tag under it (created when missing),
     * stamped with a fresh reading of the clock.
     */
    method AppendPreference(prefs: seq<SubscriberTag>, names: seq<string>, name: string) returns (prefs': seq<SubscriberTag>)
      requires tagService.ctx == ctx
      requires ctx.Valid() && UniqueNames(ctx.tags.rows) && PreferencesFor(prefs, names, ctx.tags.rows)
      modifies ctx, ctx.tags
      ensures ctx.Valid() && UniqueNames(ctx.tags.rows)
      ensures PreferencesFor(prefs', names + [name], ctx.tags.rows)
      ensures prefs'[..|prefs|] == prefs && old(ctx.clock) <= prefs'[|prefs|].addedAt < ctx.clock
      ensures LookupsKept(old(ctx.tags.rows), ctx.tags.rows)
      ensures GrownFor(old(ctx.tags.rows), ctx.tags.rows, [name])
    {
      ghost var before := ctx.tags.rows;
      var tag := tagService.FindOrCreate(name);
      var now := ctx.Now();
      PreferencesForKept(prefs, names, before, ctx.tags.rows);
      PreferencesForSnoc(prefs, names, ctx.tags.rows, name, now);
      prefs' := prefs + [NewPreference(tag.id, now)];
    }

    /** One preference per name, in order, for the tags under the names. */
    method PreferencesForNames(names: seq<string>) returns (prefs: seq<SubscriberTag>)
      requires tagService.ctx == ctx
      requires ctx.Valid() && UniqueNames(ctx.tags.rows)
      modifies ctx, ctx.tags
      ensures ctx.Valid() && UniqueNames(ctx.tags.rows)
      ensures PreferencesFor(prefs, names, ctx.tags.rows)
      ensures old(ctx.clock) <= ctx.clock && forall p :: p in prefs ==> old(ctx.clock) <= p.addedAt < ctx.clock
      ensures LookupsKept(old(ctx.tags.rows), ctx.tags.rows)
      ensures GrownFor(old(ctx.tags.rows), ctx.tags.rows, names)
    {
      prefs := [];
      GrownForNothing(ctx.tags.rows, names);
      for i := 0 to |names|
        invariant ctx.Valid() && UniqueNames(ctx.tags.rows)
        invariant PreferencesFor(prefs, names[..i], ctx.tags.rows)
        invariant old(ctx.clock) <= ctx.clock && forall p :: p in prefs ==> old(ctx.clock) <= p.addedAt < ctx.clock
        invariant LookupsKept(old(ctx.tags.rows), ctx.tags.rows)
        invariant GrownFor(old(ctx.tags.rows), ctx.tags.rows, names)
      {
        ghost var before := ctx.tags.rows;
        prefs := AppendPreference(prefs, names[..i], names[i]);
        PreferencesStep(old(ctx.tags.rows), before, ctx.tags.rows, prefs, names, i);
      }
      assert names[..|names|] == names;
    }

    /** Adds a subscriber under a free address; addresses stay unique and it is found under every variant. */
    method StoreSubscriber(email: string, data: Subscriber) returns (e: Entity<Subscriber>)
      requires ctx.Valid() && UniqueEmails(ctx.subscribers.rows)
      requires !SubscriberExists(ctx.subscribers.rows, email) && data.email == Normalize(email)
      modifies ctx, ctx.subscribers
      ensures ctx.Valid() && UniqueEmails(ctx.subscribers.rows) && ctx.tags.rows == old(ctx.tags.rows)
      ensures e.data == data && !e.isDeleted && ctx.subscribers.rows == old(ctx.subscribers.rows) + [e]
      ensures FoundByEmailVariants(ctx.subscribers.rows, e, email)
    {
      ghost var before := ctx.subscribers.rows;
      e := ctx.AddSubscriber(data);
      AppendKeepsEmailsUnique(before, email, e);
      StoredSubscriberFound(ctx.subscribers.rows, e, email);
    }

    /**
     * `CreateSubscriberAsync`: refuses an address that is taken and adds
     * nothing; otherwise stores the subscriber with the normalised address,
     * the trimmed names, phone and notes, and one active preference per
     * given tag name (creating missing tags), after which the subscriber is
     * found under every variant of the address.
     */
    method CreateSubscriber(email: string, firstName: string, lastName: string, isActive: bool,
                            phoneNumber: Option<string>, notes: Option<string>, preferredTagNames: Option<seq<string>>)
      returns (r: Result<Entity<Subscriber>>)
      requires tagService.ctx == ctx
      requires ctx.Valid() && UniqueNames(ctx.tags.rows) && UniqueEmails(ctx.subscribers.rows)
      modifies ctx, ctx.tags, ctx.subscribers
      ensures ctx.Valid() && UniqueNames(ctx.tags.rows) && UniqueEmails(ctx.subscribers.rows)
      ensures SubscriberExists(old(ctx.subscribers.rows), email) ==>
        && r == Fail(InvalidOperation("A subscriber with email '" + email + "' already exists."))
        && ctx.subscribers.rows == old(ctx.subscribers.rows) && ctx.tags.rows == old(ctx.tags.rows)
      ensures !SubscriberExists(old(ctx.subscribers.rows), email) ==>
        && r.Ok? && ctx.subscribers.rows == old(ctx.subscribers.rows) + [r.value]
        && r.value.data == Created(email, firstName, lastName, isActive, phoneNumber, notes).(tagPreferences := r.value.data.tagPreferences)
        && PreferencesFor(r.value.data.tagPreferences, NamesOf(preferredTagNames), ctx.tags.rows)
        && LookupsKept(old(ctx.tags.rows), ctx.tags.rows)
        && GrownFor(old(ctx.tags.rows), ctx.tags.rows, NamesOf(preferredTagNames))
        && FoundByEmailVariants(ctx.subscribers.rows, r.value, email)
    {
      if FindByEmail(ctx.subscribers.rows, email).Some? {
        r := Fail(InvalidOperation("A subscriber with email '" + email + "' already exists."));
        return;
      }
      var prefs := PreferencesForNames(NamesOf(preferredTagNames));
      var e := StoreSubscriber(email, Created(email, firstName, lastName, isActive, phoneNumber, notes).(tagPreferences := prefs));
      r := Ok(e);
    }

    /**
     * `UpdateSubscriberAsync`: KeyNotFound for a missing subscriber;
     * otherwise replaces exactly the first and last name, the active flag,
     * the phone number and the notes (trimmed); the address and the
     * preferences stay as they were.
     */
    method UpdateSubscriber(id: Id, firstName: string, lastName: string, isActive: bool,
                            phoneNumber: Option<string>, notes: Option<string>)
      returns (r: Result<Entity<Subscriber>>)
      requires ctx.Valid() && UniqueEmails(ctx.subscribers.rows)
      modifies ctx, ctx.subscribers
      ensures ctx.Valid() && UniqueEmails(ctx.subscribers.rows)
      ensures FindLive(old(ctx.subscribers.rows), id).None? ==>
        r == Fail(NotFound("Subscriber", id)) && ctx.subscribers.rows == old(ctx.subscribers.rows)
      ensures FindLive(old(ctx.subscribers.rows), id).Some? ==>
        var i := FindLive(old(ctx.subscribers.rows), id).value;
        var before := old(ctx.subscribers.rows)[i].data;
        && r.Ok? && ctx.subscribers.rows == old(ctx.subscribers.rows)[i := r.value]
        && r.value == old(ctx.subscribers.rows)[i].(
             data := before.(firstName := Some(Trim(firstName)), lastName := Some(Trim(lastName)), isActive := isActive,
                             phoneNumber := TrimOpt(phoneNumber), notes := TrimOpt(notes)),
             updatedAt := Some(old(ctx.clock)))
        && r.value.data.email == before.email && r.value.data.tagPreferences == before.tagPreferences
    {
      var found := ctx.subscribers.GetById(id);
      if found.None? {
        r := Fail(NotFound("Subscriber", id));
        return;
      }
      var data := found.value.data.(firstName := Some(Trim(firstName)), lastName := Some(Trim(lastName)), isActive := isActive,
                                    phoneNumber := TrimOpt(phoneNumber), notes := TrimOpt(notes));
      ghost var before := ctx.subscribers.rows;
      r := ctx.UpdateSubscriber(id, data);
      SameEmailKeepsUnique(before, FindLive(before, id).value, r.value);
    }

    /** `DeleteSubscriberAsync`: the soft delete of the store; addresses stay unique. */
    method DeleteSubscriber(id: Id) returns (r: Result<()>)
      requires ctx.Valid() && UniqueEmails(ctx.subscribers.rows)
      modifies ctx, ctx.subscribers
      ensures ctx.Valid() && UniqueEmails(ctx.subscribers.rows)
      ensures Deleted(old(ctx.subscribers.rows), ctx.subscribers.rows, "Subscriber", id, old(ctx.clock), r)
    {
      ghost var before := ctx.subscribers.rows;
      r := ctx.DeleteSubscriber(id);
      if r.Ok? {
        SoftDeleteKeepsEmailsUnique(before, FindLive(before, id).value, old(ctx.clock));
      }
    }

    /** A preference update of subscriber `id` keeps addresses unique and changes only its preferences. */
    method SetPreferences(id: Id, prefs: seq<SubscriberTag>)
      requires ctx.Valid() && UniqueEmails(ctx.subscribers.rows) && FindLive(ctx.subscribers.rows, id).Some?
      modifies ctx, ctx.subscribers
      ensures ctx.Valid() && UniqueEmails(ctx.subscribers.rows) && ctx.tags.rows == old(ctx.tags.rows)
      ensures PreferencesChanged(old(ctx.subscribers.rows), ctx.subscribers.rows, id, prefs, old(ctx.clock))
      ensures PreferencesOf(ctx.subscribers.rows, id) == prefs
      ensures FindLive(ctx.subscribers.rows, id).Some? && ctx.clock == old(ctx.clock) + 1
    {
      ghost var before := ctx.subscribers.rows;
      var i := FindLive(ctx.subscribers.rows, id).value;
      var data := ctx.subscribers.rows[i].data.(tagPreferences := prefs);
      var u := ctx.UpdateSubscriber(id, data);
      SameEmailKeepsUnique(before, i, u.value);
      UpdateChangesPreferences(before, ctx.subscribers.rows, id, data, old(ctx.clock), u);
    }

    /**
     * Appends a new preference for the tag under `tagName` (created when
     * missing) to subscriber `id`; `addedAt` is the reading it is stamped with.
     */
    method AddPreference(id: Id, tagName: string) returns (addedAt: Time)
      requires tagService.ctx == ctx
      requires ctx.Valid() && UniqueNames(ctx.tags.rows) && UniqueEmails(ctx.subscribers.rows)
      requires FindLive(ctx.subscribers.rows, id).Some?
      modifies ctx, ctx.tags, ctx.subscribers
      ensures ctx.Valid() && UniqueNames(ctx.tags.rows) && UniqueEmails(ctx.subscribers.rows)
      ensures FindByName(ctx.tags.rows, tagName).Some? && LookupsKept(old(ctx.tags.rows), ctx.tags.rows)
      ensures GrownFor(old(ctx.tags.rows), ctx.tags.rows, [tagName])
      ensures old(ctx.clock) <= addedAt && ctx.clock == addedAt + 2
      ensures PreferencesChanged(old(ctx.subscribers.rows), ctx.subscribers.rows, id,
                PreferencesOf(old(ctx.subscribers.rows), id) + [NewPreference(FindByName(ctx.tags.rows, tagName).value.id, addedAt)],
                addedAt + 1)
      ensures HasPreferredTag(ctx.subscribers.rows, ctx.tags.rows, id, tagName) == Ok(true)
    {
      var tag := tagService.FindOrCreate(tagName);
      var now := ctx.Now();
      var p := NewPreference(tag.id, now);
      var prefs := PreferencesOf(ctx.subscribers.rows, id) + [p];
      assert prefs == PreferencesOf(old(ctx.subscribers.rows), id) + [NewPreference(FindByName(ctx.tags.rows, tagName).value.id, now)];
      SetPreferences(id, prefs);
      addedAt := now;
      PreferredOnceAdded(ctx.subscribers.rows, ctx.tags.rows, id, tagName, p);
    }

    /**
     * `AddPreferredTagAsync`: KeyNotFound for a missing subscriber; nothing
     * changes when the tag is already preferred, so adding twice is adding
     * once; otherwise one active preference for the tag (created when
     * missing) is appended, after which the tag is preferred.
     */
    method AddPreferredTag(id: Id, tagName: string) returns (r: Result<()>)
      requires tagService.ctx == ctx
      requires ctx.Valid() && UniqueNames(ctx.tags.rows) && UniqueEmails(ctx.subscribers.rows)
      modifies ctx, ctx.tags, ctx.subscribers
      ensures ctx.Valid() && UniqueNames(ctx.tags.rows) && UniqueEmails(ctx.subscribers.rows)
      ensures FindLive(old(ctx.subscribers.rows), id).None? ==>
        r == Fail(NotFound("Subscriber", id)) && ctx.subscribers.rows == old(ctx.subscribers.rows) && ctx.tags.rows == old(ctx.tags.rows)
      ensures HasPreferredTag(old(ctx.subscribers.rows), old(ctx.tags.rows), id, tagName) == Ok(true) ==>
        r == Ok(()) && ctx.subscribers.rows == old(ctx.subscribers.rows) && ctx.tags.rows == old(ctx.tags.rows)
      ensures HasPreferredTag(old(ctx.subscribers.rows), old(ctx.tags.rows), id, tagName) == Ok(false) ==>
        && r == Ok(()) && FindByName(ctx.tags.rows, tagName).Some?
        && LookupsKept(old(ctx.tags.rows), ctx.tags.rows) && GrownFor(old(ctx.tags.rows), ctx.tags.rows, [tagName])
        && exists t: Time :: old(ctx.clock) <= t && ctx.clock == t + 2 &&
             PreferencesChanged(old(ctx.subscribers.rows), ctx.subscribers.rows, id,
               PreferencesOf(old(ctx.subscribers.rows), id) + [NewPreference(FindByName(ctx.tags.rows, tagName).value.id, t)], t + 1)
      ensures FindLive(old(ctx.subscribers.rows), id).Some? ==>
        HasPreferredTag(ctx.subscribers.rows, ctx.tags.rows, id, tagName) == Ok(true)
    {
      var has := HasPreferredTag(ctx.subscribers.rows, ctx.tags.rows, id, tagName);
      if has.Fail? {
        r := Fail(NotFound("Subscriber", id));
        return;
      }
      r := Ok(());
      if has == Ok(false) {
        var addedAt := AddPreference(id, tagName);
      }
    }

    /**
     * `RemovePreferredTagAsync`: KeyNotFound for a missing subscriber;
     * nothing changes for an unknown tag name or a tag that is not
     * preferred; otherwise the first preference row for the tag is removed.
     */
    method RemovePreferredTag(id: Id, tagName: string) returns (r: Result<()>)
      requires ctx.Valid() && UniqueEmails(ctx.subscribers.rows)
      modifies ctx, ctx.subscribers
      ensures ctx.Valid() && UniqueEmails(ctx.subscribers.rows) && ctx.tags.rows == old(ctx.tags.rows)
      ensures FindLive(old(ctx.subscribers.rows), id).None? ==>
        r == Fail(NotFound("Subscriber", id)) && ctx.subscribers.rows == old(ctx.subscribers.rows)
      ensures HasPreferredTag(old(ctx.subscribers.rows), ctx.tags.rows, id, tagName) == Ok(false) ==>
        r == Ok(()) && ctx.subscribers.rows == old(ctx.subscribers.rows)
      ensures HasPreferredTag(old(ctx.subscribers.rows), ctx.tags.rows, id, tagName) == Ok(true) ==>
        && r == Ok(())
        && PreferencesChanged(old(ctx.subscribers.rows), ctx.subscribers.rows, id,
             Without(PreferencesOf(old(ctx.subscribers.rows), id), FindByName(ctx.tags.rows, tagName).value.id), old(ctx.clock))
    {
      if FindLive(ctx.subscribers.rows, id).None? {
        r := Fail(NotFound("Subscriber", id));
        return;
      }
      r := Ok(());
      var tag := FindByName(ctx.tags.rows, tagName);
      if tag.None? {
        return;
      }
      var prefs := PreferencesOf(ctx.subscribers.rows, id);
      if !Prefers(prefs, tag.value.id) {
        return;
      }
      SetPreferences(id, Without(prefs, tag.value.id));
    }

    /**
     * `UpdatePreferredTagsAsync`: KeyNotFound for a missing subscriber;
     * otherwise the preference collection is replaced by one active row per
     * given name, for the tag under that name (created when missing).
     */
    method UpdatePreferredTags(id: Id, tagNames: seq<string>) returns (r: Result<()>)
      requires tagService.ctx == ctx
      requires ctx.Valid() && UniqueNames(ctx.tags.rows) && UniqueEmails(ctx.subscribers.rows)
      modifies ctx, ctx.tags, ctx.subscribers
      ensures ctx.Valid() && UniqueNames(ctx.tags.rows) && UniqueEmails(ctx.subscribers.rows)
      ensures FindLive(old(ctx.subscribers.rows), id).None? ==>
        r == Fail(NotFound("Subscriber", id)) && ctx.subscribers.rows == old(ctx.subscribers.rows) && ctx.tags.rows == old(ctx.tags.rows)
      ensures FindLive(old(ctx.subscribers.rows), id).Some? ==>
        && r == Ok(())
        && old(ctx.clock) < ctx.clock
        && PreferencesChanged(old(ctx.subscribers.rows), ctx.subscribers.rows, id, PreferencesOf(ctx.subscribers.rows, id), ctx.clock - 1)
        && PreferencesFor(PreferencesOf(ctx.subscribers.rows, id), tagNames, ctx.tags.rows)
        && LookupsKept(old(ctx.tags.rows), ctx.tags.rows) && GrownFor(old(ctx.tags.rows), ctx.tags.rows, tagNames)
        && (forall p :: p in PreferencesOf(ctx.subscribers.rows, id) ==> old(ctx.clock) <= p.addedAt < ctx.clock - 1)
    {
      if FindLive(ctx.subscribers.rows, id).None? {
        r := Fail(NotFound("Subscriber", id));
        return;
      }
      r := Ok(());
      var prefs := PreferencesForNames(tagNames);
      SetPreferences(id, prefs);
    }
  }
}
