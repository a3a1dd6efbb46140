/**
 * `TagService`: tags are unique by name, ignoring case and surrounding
 * whitespace, among the tags that are not deleted. A name is looked up by
 * comparing the stored name lower-cased with the argument lower-cased and
 * trimmed; names are stored trimmed.
 */
module Tags {

  import opened Common
  import opened Entities
  import opened Data
  import opened Store
  import opened Text
  import Seqs

  /** The lookup condition of `GetTagByNameAsync` and `TagExistsAsync(name)`. */
  predicate Named(t: Entity<Tag>, name: string)
  {
    Lower(t.data.name) == Normalize(name)
  }

  /** `GetTagByNameAsync`: the first visible tag under that name. */
  function FindByName(rows: seq<Entity<Tag>>, name: string): (r: Option<Entity<Tag>>)
    ensures r.Some? ==> r.value in rows && !r.value.isDeleted && Named(r.value, name)
    ensures r.None? <==> forall t :: t in rows && !t.isDeleted ==> !Named(t, name)
  {
    if rows == [] then None
    else if !rows[0].isDeleted && Named(rows[0], name) then Some(rows[0])
    else FindByName(rows[1..], name)
  }

  /** `TagExistsAsync(name)`: exactly when the lookup by name finds a tag. */
  predicate TagExists(rows: seq<Entity<Tag>>, name: string)
  {
    FindByName(rows, name).Some?
  }

  /** No two visible tags share a name up to case. */
  ghost predicate UniqueNames(rows: seq<Entity<Tag>>)
  {
    forall a, b :: a in rows && b in rows && !a.isDeleted && !b.isDeleted && Lower(a.data.name) == Lower(b.data.name) ==> a == b
  }

  /** Under unique names the lookup finds the one visible tag with the name. */
  lemma FindByNameUnique(rows: seq<Entity<Tag>>, t: Entity<Tag>, name: string)
    requires UniqueNames(rows) && t in rows && !t.isDeleted && Named(t, name)
    ensures FindByName(rows, name) == Some(t)
  {
  }

  function TagName(t: Entity<Tag>): string
  {
    t.data.name
  }

  /**
   * `GetAllTagsAsync`: the visible tags ordered by name under the
   * database's `collation`. Its `includeInactive` argument is not read, and
   * deleted tags are always left out.
   */
  function AllTags(rows: seq<Entity<Tag>>, collation: (string, string) -> bool): (r: seq<Entity<Tag>>)
    requires Seqs.TotalPreorder(collation)
    ensures Seqs.SortedBy(r, ByString(TagName, collation))
    ensures multiset(r) == multiset(Live(rows))
    ensures forall t :: t in r <==> t in rows && !t.isDeleted
  {
    ByStringPreorder(TagName, collation);
    var r := Seqs.SortBy(Live(rows), ByString(TagName, collation));
    assert forall t :: t in r <==> t in multiset(Live(rows));
    r
  }

  /** A tag stored under `Trim(name)` is found under every case or whitespace variant of `name`. */
  lemma StoredNameMatches(stored: Entity<Tag>, name: string, variant: string)
    requires stored.data.name == Trim(name) && Normalize(variant) == Normalize(name)
    ensures Named(stored, variant)
  {
    LowerTrimCommute(name);
  }

  /** Every case or whitespace variant of `name` looks up `e`. */
  ghost predicate FoundUnderVariants(rows: seq<Entity<Tag>>, e: Entity<Tag>, name: string)
  {
    forall v :: Normalize(v) == Normalize(name) ==> FindByName(rows, v) == Some(e)
  }

  /** A stored tag is what every variant of its name looks up, once names are unique. */
  lemma StoredTagFound(rows: seq<Entity<Tag>>, e: Entity<Tag>, name: string)
    requires UniqueNames(rows) && e in rows && !e.isDeleted && e.data.name == Trim(name)
    ensures FoundUnderVariants(rows, e, name)
  {
    forall v | Normalize(v) == Normalize(name) ensures FindByName(rows, v) == Some(e) {
      StoredNameMatches(e, name, v);
      FindByNameUnique(rows, e, v);
    }
  }

  /** Replacing the row at `i` by a row with the same identifier and a name no other visible tag has keeps names unique. */
  lemma ReplaceKeepsUnique(rows: seq<Entity<Tag>>, i: nat, e: Entity<Tag>)
    requires i < |rows| && UniqueNames(rows) && UniqueIds(rows) && e.id == rows[i].id
    requires forall t :: t in rows && !t.isDeleted && t.id != e.id ==> Lower(t.data.name) != Lower(e.data.name)
    ensures UniqueNames(rows[i := e])
  {
    var s := rows[i := e];
    forall x | x in s && x != e ensures x in rows && x.id != e.id {
      var k :| 0 <= k < |s| && s[k] == x;
      assert k != i && rows[k] == x;
    }
  }

  /** Marking a row deleted keeps names unique: it only leaves fewer visible tags. */
  lemma SoftDeleteKeepsNamesUnique(rows: seq<Entity<Tag>>, i: nat, now: Time)
    requires i < |rows| && UniqueNames(rows)
    ensures UniqueNames(rows[i := rows[i].(isDeleted := true, updatedAt := Some(now))])
  {
    var s := rows[i := rows[i].(isDeleted := true, updatedAt := Some(now))];
    forall x | x in s && !x.isDeleted ensures x in rows {
      var k :| 0 <= k < |s| && s[k] == x;
      assert k != i;
    }
  }

  /** Appending a visible tag whose name no visible tag has keeps names unique. */
  lemma AppendKeepsUnique(rows: seq<Entity<Tag>>, e: Entity<Tag>)
    requires UniqueNames(rows)
    requires forall t :: t in rows && !t.isDeleted ==> Lower(t.data.name) != Lower(e.data.name)
    ensures UniqueNames(rows + [e])
  {
  }

  /** A name that is not taken is free for a tag stored under the trimmed name. */
  lemma FreeNameStaysFree(rows: seq<Entity<Tag>>, name: string, e: Entity<Tag>)
    requires !TagExists(rows, name) && e.data.name == Trim(name)
    ensures forall t :: t in rows && !t.isDeleted ==> Lower(t.data.name) != Lower(e.data.name)
  {
    LowerTrimCommute(name);
  }

  /** A visible tag other than the one with identifier `id` holds the name. */
  ghost predicate HeldByOther(rows: seq<Entity<Tag>>, id: Id, name: string)
  {
    exists t :: t in rows && !t.isDeleted && t.id != id && Named(t, name)
  }

  /** The update's test (the name is taken, and not by this tag up to case) is "another tag holds the name". */
  lemma ConflictDecision(rows: seq<Entity<Tag>>, tag: Entity<Tag>, name: string)
    requires UniqueNames(rows) && UniqueIds(rows) && tag in rows && !tag.isDeleted
    ensures HeldByOther(rows, tag.id, name) <==> TagExists(rows, name) && Lower(tag.data.name) != Normalize(name)
  {
    var taken := FindByName(rows, name);
    if taken.Some? && Lower(tag.data.name) != Normalize(name) && taken.value.id == tag.id {
      SameIdSameRow(rows, taken.value, tag);
    }
  }

  /** Renaming a tag to a name no other visible tag holds keeps names unique. */
  lemma RenameKeepsUnique(rows: seq<Entity<Tag>>, i: nat, e: Entity<Tag>, name: string)
    requires i < |rows| && UniqueNames(rows) && UniqueIds(rows) && e.id == rows[i].id
    requires e.data.name == Trim(name) && !HeldByOther(rows, e.id, name)
    ensures UniqueNames(rows[i := e])
  {
    LowerTrimCommute(name);
    ReplaceKeepsUnique(rows, i, e);
  }

  /** A lookup that finds a tag keeps finding it after another tag is appended. */
  lemma FindByNameAppend(rows: seq<Entity<Tag>>, e: Entity<Tag>, name: string)
    requires FindByName(rows, name).Some?
    ensures FindByName(rows + [e], name) == FindByName(rows, name)
  {
    if rows != [] {
      assert (rows + [e])[1..] == rows[1..] + [e];
      if !(!rows[0].isDeleted && Named(rows[0], name)) {
        FindByNameAppend(rows[1..], e, name);
      }
    }
  }

  /** Every name `before` resolves is resolved by `after` to the same tag. */
  ghost predicate LookupsKept(before: seq<Entity<Tag>>, after: seq<Entity<Tag>>)
  {
    forall n :: FindByName(before, n).Some? ==> FindByName(after, n) == FindByName(before, n)
  }

  /** The tag names given, none when the list is absent. */
  function NamesOf(names: Option<seq<string>>): seq<string>
  {
    if names.Some? then names.value else []
  }

  /** The name finds the visible tag numbered `id`. */
  predicate NamesTag(tags: seq<Entity<Tag>>, name: string, id: Id)
  {
    var found := FindByName(tags, name);
    found.Some? && found.value.id == id
  }

  /**
   * The identifiers are the event's `Tags` as stored: every name finds a
   * tag, and the identifiers are those tags', each once, since EventTag
   * rows are keyed by the pair of event and tag.
   */
  ghost predicate Resolves(ids: seq<Id>, names: seq<string>, rows: seq<Entity<Tag>>)
  {
    && (forall n :: n in names ==> FindByName(rows, n).Some?)
    && Seqs.Distinct(ids)
    && forall id :: id in ids <==> SomeNameTags(rows, names, id)
  }

  /** Some name finds the tag numbered `id`. */
  ghost predicate SomeNameTags(rows: seq<Entity<Tag>>, names: seq<string>, id: Id)
  {
    exists n :: n in names && NamesTag(rows, n, id)
  }

  /** Tags added later do not change what resolved names resolve to. */
  lemma ResolvesKept(ids: seq<Id>, names: seq<string>, before: seq<Entity<Tag>>, after: seq<Entity<Tag>>)
    requires Resolves(ids, names, before) && LookupsKept(before, after)
    ensures Resolves(ids, names, after)
  {
    forall n | n in names ensures FindByName(after, n) == FindByName(before, n) {
      assert FindByName(before, n).Some?;
    }
    forall id ensures id in ids <==> SomeNameTags(after, names, id) {
      if id in ids {
        var n :| n in names && NamesTag(before, n, id);
        assert NamesTag(after, n, id);
      }
      if exists n :: n in names && NamesTag(after, n, id) {
        var n :| n in names && NamesTag(after, n, id);
        assert NamesTag(before, n, id);
      }
    }
  }

  /** One more name adds the identifier of its tag, unless that tag is already listed. */
  lemma ResolvesSnoc(ids: seq<Id>, names: seq<string>, rows: seq<Entity<Tag>>, name: string)
    requires Resolves(ids, names, rows) && FindByName(rows, name).Some?
    ensures var id := FindByName(rows, name).value.id;
      Resolves(if id in ids then ids else ids + [id], names + [name], rows)
  {
    var id := FindByName(rows, name).value.id;
    var ids' := if id in ids then ids else ids + [id];
    DistinctSnoc(ids, id);
    forall x ensures x in ids' <==> SomeNameTags(rows, names + [name], x) {
      ResolvesSnocMember(ids, names, rows, name, x);
    }
  }

  lemma DistinctSnoc(ids: seq<Id>, id: Id)
    requires Seqs.Distinct(ids)
    ensures Seqs.Distinct(if id in ids then ids else ids + [id])
  {
    if id !in ids {
      var ids' := ids + [id];
      forall i, j | 0 <= i < j < |ids'| ensures ids'[i] != ids'[j] {
        if j < |ids| {
          assert ids'[i] == ids[i] && ids'[j] == ids[j];
        } else {
          assert ids'[i] == ids[i] && ids[i] in ids;
        }
      }
    }
  }

  lemma ResolvesSnocMember(ids: seq<Id>, names: seq<string>, rows: seq<Entity<Tag>>, name: string, x: Id)
    requires Resolves(ids, names, rows) && FindByName(rows, name).Some?
    ensures var id := FindByName(rows, name).value.id;
      x in (if id in ids then ids else ids + [id]) <==> SomeNameTags(rows, names + [name], x)
  {
    var id := FindByName(rows, name).value.id;
    var names' := names + [name];
    assert x in ids <==> SomeNameTags(rows, names, x);
    if exists n :: n in names' && NamesTag(rows, n, x) {
      var n :| n in names' && NamesTag(rows, n, x);
      if n != name {
        assert n in names;
      }
    }
    if x == id {
      assert name in names' && NamesTag(rows, name, x);
    } else if x in ids {
      var n :| n in names && NamesTag(rows, n, x);
      assert n in names';
    }
  }

  lemma LookupsKeptTrans(a: seq<Entity<Tag>>, b: seq<Entity<Tag>>, c: seq<Entity<Tag>>)
    requires LookupsKept(a, b) && LookupsKept(b, c)
    ensures LookupsKept(a, c)
  {
    forall n | FindByName(a, n).Some? ensures FindByName(c, n) == FindByName(a, n) {
      assert FindByName(b, n) == FindByName(a, n);
    }
  }

  /** The tag was created for one of the names: one the lookup found nothing under in `before`. */
  ghost predicate CreatedFor(before: seq<Entity<Tag>>, t: Entity<Tag>, names: seq<string>)
  {
    exists n :: n in names && FindByName(before, n).None? && t.data == Tag(Trim(n), None)
  }

  /**
   * `after` is `before` with tags appended and nothing else: every new tag
   * is visible and stored, without a description, under the trimmed form
   * of a listed name that found no tag in `before`.
   */
  ghost predicate GrownFor(before: seq<Entity<Tag>>, after: seq<Entity<Tag>>, names: seq<string>)
  {
    && |before| <= |after| && after[..|before|] == before
    && forall j :: |before| <= j < |after| ==> !after[j].isDeleted && CreatedFor(before, after[j], names)
  }

  lemma GrownForNothing(rows: seq<Entity<Tag>>, names: seq<string>)
    ensures GrownFor(rows, rows, names)
  {
    assert rows[..|rows|] == rows;
  }

  /** A name that finds nothing after tags were appended found nothing before either. */
  lemma NotFoundBefore(before: seq<Entity<Tag>>, after: seq<Entity<Tag>>, name: string)
    requires |before| <= |after| && after[..|before|] == before && FindByName(after, name).None?
    ensures FindByName(before, name).None?
  {
  }

  /** Creating the tag for a name that found nothing is growth for that name. */
  lemma GrownByOne(before: seq<Entity<Tag>>, t: Entity<Tag>, name: string)
    requires FindByName(before, name).None? && t.data == Tag(Trim(name), None) && !t.isDeleted
    ensures GrownFor(before, before + [t], [name])
  {
    assert (before + [t])[..|before|] == before;
    assert name in [name];
  }

  /** Two rounds of growth for names from one list are one round for that list. */
  lemma GrownForTrans(a: seq<Entity<Tag>>, b: seq<Entity<Tag>>, c: seq<Entity<Tag>>,
                      first: seq<string>, second: seq<string>, names: seq<string>)
    requires GrownFor(a, b, first) && GrownFor(b, c, second)
    requires forall n :: n in first ==> n in names
    requires forall n :: n in second ==> n in names
    ensures GrownFor(a, c, names)
  {
    assert c[..|a|] == b[..|a|];
    forall j | |a| <= j < |c| ensures !c[j].isDeleted && CreatedFor(a, c[j], names) {
      if j < |b| {
        assert c[j] == c[..|b|][j] == b[j];
        assert CreatedFor(a, b[j], first);
        var n :| n in first && FindByName(a, n).None? && b[j].data == Tag(Trim(n), None);
      } else {
        assert CreatedFor(b, c[j], second);
        var n :| n in second && FindByName(b, n).None? && c[j].data == Tag(Trim(n), None);
        NotFoundBefore(a, b, n);
      }
    }
  }

  /** Growth for one more name of a list, after growth for the list, is growth for the list. */
  lemma GrownForStep(a: seq<Entity<Tag>>, b: seq<Entity<Tag>>, c: seq<Entity<Tag>>, names: seq<string>, i: nat)
    requires i < |names| && GrownFor(a, b, names) && GrownFor(b, c, [names[i]])
    ensures GrownFor(a, c, names)
  {
    GrownForTrans(a, b, c, names, [names[i]], names);
  }

  /** One round of the event tag loop: lookups, growth and resolved identifiers extend to the next name. */
  lemma ResolvesStep(origin: seq<Entity<Tag>>, before: seq<Entity<Tag>>, after: seq<Entity<Tag>>,
                     ids: seq<Id>, names: seq<string>, i: nat)
    requires i < |names|
    requires LookupsKept(origin, before) && LookupsKept(before, after)
    requires GrownFor(origin, before, names) && GrownFor(before, after, [names[i]])
    requires Resolves(ids, names[..i] + [names[i]], after)
    ensures LookupsKept(origin, after) && GrownFor(origin, after, names)
    ensures Resolves(ids, names[..i + 1], after)
  {
    LookupsKeptTrans(origin, before, after);
    GrownForStep(origin, before, after, names, i);
    assert names[..i + 1] == names[..i] + [names[i]];
  }

  class TagService {
    const ctx: NewsletterContext

    constructor (ctx: NewsletterContext)
      ensures this.ctx == ctx
    {
      this.ctx := ctx;
    }

    /** `DeleteTagAsync`: the soft delete of the store; names stay unique. */
    method DeleteTag(id: Id) returns (r: Result<()>)
      requires ctx.Valid() && UniqueNames(ctx.tags.rows)
      modifies ctx, ctx.tags
      ensures ctx.Valid() && UniqueNames(ctx.tags.rows)
      ensures Deleted(old(ctx.tags.rows), ctx.tags.rows, "Tag", id, old(ctx.clock), r)
    {
      ghost var before := ctx.tags.rows;
      r := ctx.DeleteTag(id);
      if r.Ok? {
        SoftDeleteKeepsNamesUnique(before, FindLive(before, id).value, old(ctx.clock));
      }
    }

    /**
     * `CreateTagAsync`: refuses a name that is taken and adds nothing;
     * otherwise stores the trimmed name and description, after which the
     * tag is found under every variant of the name.
     */
    method CreateTag(name: string, description: Option<string>) returns (r: Result<Entity<Tag>>)
      requires ctx.Valid() && UniqueNames(ctx.tags.rows)
      modifies ctx, ctx.tags
      ensures ctx.Valid() && UniqueNames(ctx.tags.rows) && ctx.clock >= old(ctx.clock)
      ensures TagExists(old(ctx.tags.rows), name) ==>
        r == Fail(InvalidOperation("A tag with name '" + name + "' already exists.")) && ctx.tags.rows == old(ctx.tags.rows)
      ensures !TagExists(old(ctx.tags.rows), name) ==>
        && r.Ok? && r.value.data == Tag(Trim(name), TrimOpt(description)) && !r.value.isDeleted
        && ctx.tags.rows == old(ctx.tags.rows) + [r.value]
      ensures r.Ok? ==> FoundUnderVariants(ctx.tags.rows, r.value, name)
    {
      if FindByName(ctx.tags.rows, name).Some? {
        r := Fail(InvalidOperation("A tag with name '" + name + "' already exists."));
        return;
      }
      ghost var before := ctx.tags.rows;
      var e := ctx.AddTag(Tag(Trim(name), TrimOpt(description)));
      r := Ok(e);
      FreeNameStaysFree(before, name, e);
      AppendKeepsUnique(before, e);
      StoredTagFound(ctx.tags.rows, e, name);
    }

    /**
     * `UpdateTagAsync`: KeyNotFound for a tag that is missing or deleted;
     * a conflict exactly when another visible tag holds the name (renaming
     * a tag to its own name in another case is allowed); otherwise the
     * trimmed name and description replace the old ones.
     */
    method UpdateTag(id: Id, name: string, description: Option<string>) returns (r: Result<Entity<Tag>>)
      requires ctx.Valid() && UniqueNames(ctx.tags.rows)
      modifies ctx, ctx.tags
      ensures ctx.Valid() && UniqueNames(ctx.tags.rows) && ctx.clock >= old(ctx.clock)
      ensures old(ctx.tags.GetById(id)).None? ==>
        r == Fail(NotFound("Tag", id)) && ctx.tags.rows == old(ctx.tags.rows)
      ensures old(ctx.tags.GetById(id)).Some? && HeldByOther(old(ctx.tags.rows), id, name) ==>
        r == Fail(InvalidOperation("A tag with name '" + name + "' already exists.")) && ctx.tags.rows == old(ctx.tags.rows)
      ensures r.Ok? <==> old(ctx.tags.GetById(id)).Some? && !HeldByOther(old(ctx.tags.rows), id, name)
      ensures r.Ok? ==>
        var i := FindLive(old(ctx.tags.rows), id).value;
        && r.value == old(ctx.tags.rows)[i].(data := Tag(Trim(name), TrimOpt(description)), updatedAt := Some(old(ctx.clock)))
        && ctx.tags.rows == old(ctx.tags.rows)[i := r.value]
    {
      var found := ctx.tags.GetById(id);
      if found.None? {
        r := Fail(NotFound("Tag", id));
        return;
      }
      var tag := found.value;
      ConflictDecision(ctx.tags.rows, tag, name);
      if TagExists(ctx.tags.rows, name) && Lower(tag.data.name) != Normalize(name) {
        r := Fail(InvalidOperation("A tag with name '" + name + "' already exists."));
        return;
      }
      ghost var before := ctx.tags.rows;
      var u := ctx.UpdateTag(id, Tag(Trim(name), TrimOpt(description)));
      r := u;
      RenameKeepsUnique(before, FindLive(before, id).value, u.value, name);
      assert UniqueNames(ctx.tags.rows);
      assert ctx.Valid();
    }

    /**
     * The step the subscriber and event services repeat for every tag name:
     * the tag under that name, created first when there is none. Tags that
     * were found before are still found afterwards.
     */
    method FindOrCreate(name: string) returns (t: Entity<Tag>)
      requires ctx.Valid() && UniqueNames(ctx.tags.rows)
      modifies ctx, ctx.tags
      ensures ctx.Valid() && UniqueNames(ctx.tags.rows)
      ensures FindByName(ctx.tags.rows, name) == Some(t)
      ensures FindByName(old(ctx.tags.rows), name).Some? ==> t == FindByName(old(ctx.tags.rows), name).value && ctx.tags.rows == old(ctx.tags.rows)
      ensures FindByName(old(ctx.tags.rows), name).None? ==> t.data == Tag(Trim(name), None) && ctx.tags.rows == old(ctx.tags.rows) + [t]
      ensures LookupsKept(old(ctx.tags.rows), ctx.tags.rows)
      ensures GrownFor(old(ctx.tags.rows), ctx.tags.rows, [name]) && ctx.clock >= old(ctx.clock)
    {
      var found := FindByName(ctx.tags.rows, name);
      if found.Some? {
        GrownForNothing(ctx.tags.rows, [name]);
        return found.value;
      }
      var r := CreateTag(name, None);
      t := r.value;
      StoredNameMatches(t, name, name);
      FindByNameUnique(ctx.tags.rows, t, name);
      forall n | FindByName(old(ctx.tags.rows), n).Some?
        ensures FindByName(ctx.tags.rows, n) == FindByName(old(ctx.tags.rows), n)
      {
        FindByNameAppend(old(ctx.tags.rows), t, n);
      }
      GrownByOne(old(ctx.tags.rows), t, name);
    }

    /**
     * One step of the event service's tag loop: the tag under one more name
     * joins the event's tags, which already hold it when an earlier name
     * found the same tag.
     */
    method AppendTagId(ids: seq<Id>, names: seq<string>, name: string) returns (ids': seq<Id>)
      requires ctx.Valid() && UniqueNames(ctx.tags.rows) && Resolves(ids, names, ctx.tags.rows)
      modifies ctx, ctx.tags
      ensures ctx.Valid() && UniqueNames(ctx.tags.rows)
      ensures Resolves(ids', names + [name], ctx.tags.rows)
      ensures FindByName(ctx.tags.rows, name).Some? &&
        var id := FindByName(ctx.tags.rows, name).value.id;
        ids' == if id in ids then ids else ids + [id]
      ensures LookupsKept(old(ctx.tags.rows), ctx.tags.rows)
      ensures GrownFor(old(ctx.tags.rows), ctx.tags.rows, [name]) && ctx.clock >= old(ctx.clock)
    {
      ghost var before := ctx.tags.rows;
      var tag := FindOrCreate(name);
      ResolvesKept(ids, names, before, ctx.tags.rows);
      ResolvesSnoc(ids, names, ctx.tags.rows, name);
      if tag.id in ids {
        ids' := ids;
      } else {
        ids' := ids + [tag.id];
      }
    }
  }
}
