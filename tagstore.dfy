/** The tags table and `saveTags`: it resolves a post's tag names to tag ids,
    creating a row for each tag whose slug is not stored yet. */
module TagStore {
  import opened Wrappers
  import opened Slugs
  import opened Lists

  /** A row of the `tags` table. */
  datatype TagRow = TagRow(id: nat, slug: string, name: string)

  /** `{name: tag, slug: ...}`, a tag before it is looked up or saved. */
  datatype TagObject = TagObject(name: string, slug: string)

  /** Why a save was rejected: the unique index on `tags.slug` already holds the slug. */
  datatype TagError = DuplicateSlug(slug: string)

  /** `tags.map(...)`: every name paired with its slug. */
  function TagObjects(tags: seq<string>): (r: seq<TagObject>)
    ensures |r| == |tags|
    ensures forall i :: 0 <= i < |tags| ==> r[i].name == tags[i] && r[i].slug == Slugify(tags[i])
  {
    seq(|tags|, i requires 0 <= i < |tags| => TagObject(tags[i], Slugify(tags[i])))
  }

  /** `_.pluck(tagObjects, 'slug')` */
  function SlugsOf(objects: seq<TagObject>): (r: seq<string>)
    ensures |r| == |objects|
    ensures forall i :: 0 <= i < |objects| ==> r[i] == objects[i].slug
  {
    seq(|objects|, i requires 0 <= i < |objects| => objects[i].slug)
  }

  /** `_.pluck(rows, 'slug')` */
  function RowSlugs(rows: seq<TagRow>): (r: seq<string>)
    ensures |r| == |rows|
    ensures forall i :: 0 <= i < |rows| ==> r[i] == rows[i].slug
  {
    seq(|rows|, i requires 0 <= i < |rows| => rows[i].slug)
  }

  /** `_.pluck(rows, 'id')` */
  function RowIds(rows: seq<TagRow>): (r: seq<nat>)
    ensures |r| == |rows|
    ensures forall i :: 0 <= i < |rows| ==> r[i] == rows[i].id
  {
    seq(|rows|, i requires 0 <= i < |rows| => rows[i].id)
  }

  /** The unique index on `tags.slug`. */
  predicate UniqueSlugs(rows: seq<TagRow>) {
    forall i, j :: 0 <= i < j < |rows| ==> rows[i].slug != rows[j].slug
  }

  /** Auto-increment ids: increasing in insertion order and below the next id to hand out. */
  predicate IdsIncreasing(rows: seq<TagRow>, nextId: nat) {
    (forall i, j :: 0 <= i < j < |rows| ==> rows[i].id < rows[j].id) &&
    (forall i :: 0 <= i < |rows| ==> rows[i].id < nextId)
  }

  predicate TableInvariant(rows: seq<TagRow>, nextId: nat) {
    UniqueSlugs(rows) && IdsIncreasing(rows, nextId)
  }

  /** `query('whereIn', 'slug', slugs).fetch()`: the stored rows whose slug is one of `slugs`, in table order. */
  function WhereIn(rows: seq<TagRow>, slugs: seq<string>): (r: seq<TagRow>)
    ensures |r| <= |rows|
    decreases |rows|
  {
    if rows == [] then []
    else (if rows[0].slug in slugs then [rows[0]] else []) + WhereIn(rows[1..], slugs)
  }

  /** The lookup returns exactly the stored rows whose slug was asked for. */
  lemma {:induction false} WhereInRows(rows: seq<TagRow>, slugs: seq<string>)
    ensures forall row :: row in WhereIn(rows, slugs) <==> row in rows && row.slug in slugs
    decreases |rows|
  {
    if rows != [] {
      WhereInRows(rows[1..], slugs);
      assert rows == [rows[0]] + rows[1..];
    }
  }

  /** The rows a lookup returns have ids above any bound the table's ids are above. */
  lemma {:induction false} WhereInAbove(rows: seq<TagRow>, slugs: seq<string>, bound: int)
    requires forall k :: 0 <= k < |rows| ==> bound < rows[k].id
    ensures forall k :: 0 <= k < |WhereIn(rows, slugs)| ==> bound < WhereIn(rows, slugs)[k].id
    decreases |rows|
  {
    if rows != [] {
      WhereInAbove(rows[1..], slugs, bound);
    }
  }

  /** The rows a lookup returns keep the table's increasing ids. */
  lemma {:induction false} WhereInIncreasing(rows: seq<TagRow>, nextId: nat, slugs: seq<string>)
    requires IdsIncreasing(rows, nextId)
    ensures IdsIncreasing(WhereIn(rows, slugs), nextId)
    decreases |rows|
  {
    if rows != [] {
      var rest := WhereIn(rows[1..], slugs);
      WhereInIncreasing(rows[1..], nextId, slugs);
      WhereInAbove(rows[1..], slugs, rows[0].id);
      var r := WhereIn(rows, slugs);
      if rows[0].slug in slugs {
        assert r == [rows[0]] + rest;
      } else {
        assert r == rest;
      }
    }
  }

  /** Increasing ids are distinct ids. */
  lemma IncreasingIdsDistinct(rows: seq<TagRow>, nextId: nat)
    requires IdsIncreasing(rows, nextId)
    ensures NoDuplicates(RowIds(rows))
    ensures forall id :: id in RowIds(rows) ==> id < nextId
  {
  }

  /** The lookup finds a slug exactly when it was asked for and is stored. */
  lemma {:induction false} WhereInSlugs(rows: seq<TagRow>, slugs: seq<string>)
    ensures forall s :: s in RowSlugs(WhereIn(rows, slugs)) <==> s in RowSlugs(rows) && s in slugs
    decreases |rows|
  {
    if rows != [] {
      WhereInSlugs(rows[1..], slugs);
      var rest := WhereIn(rows[1..], slugs);
      assert RowSlugs(rows) == [rows[0].slug] + RowSlugs(rows[1..]);
      if rows[0].slug in slugs {
        assert RowSlugs(WhereIn(rows, slugs)) == [rows[0].slug] + RowSlugs(rest);
      } else {
        assert WhereIn(rows, slugs) == rest;
      }
    }
  }

  /** `tagObjects.filter(t => existingSlugs.indexOf(t.slug) < 0)`: the tags whose slug is not among `existingSlugs`, in input order. */
  function Missing(objects: seq<TagObject>, existingSlugs: seq<string>): (r: seq<TagObject>)
    ensures |r| <= |objects|
    decreases |objects|
  {
    if objects == [] then []
    else (if objects[0].slug in existingSlugs then [] else [objects[0]]) + Missing(objects[1..], existingSlugs)
  }

  /** The filter keeps exactly the tags whose slug is not an existing one. */
  lemma {:induction false} MissingMembers(objects: seq<TagObject>, existingSlugs: seq<string>)
    ensures forall t :: t in Missing(objects, existingSlugs) <==> t in objects && t.slug !in existingSlugs
    decreases |objects|
  {
    if objects != [] {
      MissingMembers(objects[1..], existingSlugs);
      assert objects == [objects[0]] + objects[1..];
    }
  }

  /** The filter keeps input order and repeats: it distributes over concatenation. */
  lemma {:induction false} MissingAppend(a: seq<TagObject>, b: seq<TagObject>, existingSlugs: seq<string>)
    ensures Missing(a + b, existingSlugs) == Missing(a, existingSlugs) + Missing(b, existingSlugs)
    decreases |a|
  {
    if a != [] {
      MissingAppend(a[1..], b, existingSlugs);
      assert (a + b)[1..] == a[1..] + b;
    } else {
      assert a + b == b;
    }
  }

  /** With no existing slug the filter keeps every tag: the `else` branch of saveTags agrees with the filter. */
  lemma {:induction false} MissingNone(objects: seq<TagObject>)
    ensures Missing(objects, []) == objects
    decreases |objects|
  {
    if objects != [] {
      MissingNone(objects[1..]);
    }
  }

  /** The tags saveTags saves (`doNotExist`): those whose slug the lookup did not find. */
  function NewTags(rows: seq<TagRow>, tags: seq<string>): (r: seq<TagObject>)
    ensures forall t :: t in r <==> t in TagObjects(tags) && t.slug !in RowSlugs(rows)
  {
    var objects := TagObjects(tags);
    var existing := WhereIn(rows, SlugsOf(objects));
    WhereInSlugs(rows, SlugsOf(objects));
    MissingMembers(objects, RowSlugs(existing));
    assert forall t :: t in objects ==> t.slug in SlugsOf(objects) by {
      assert forall i :: 0 <= i < |objects| ==> SlugsOf(objects)[i] == objects[i].slug;
    }
    Missing(objects, RowSlugs(existing))
  }

  /** What the table holds after saving some tags one by one: its rows, the next
      id, the ids of the rows created, and the slugs whose save was rejected. */
  datatype SaveState = SaveState(rows: seq<TagRow>, nextId: nat, ids: seq<nat>, failed: seq<string>)

  /** `model.save()` for one tag: rejected when the slug is stored, otherwise a new row with the next id. */
  function SaveOne(st: SaveState, tag: TagObject): (r: SaveState)
    ensures r.rows == st.rows <==> tag.slug in RowSlugs(st.rows)
  {
    if tag.slug in RowSlugs(st.rows) then st.(failed := st.failed + [tag.slug])
    else SaveState(st.rows + [TagRow(st.nextId, tag.slug, tag.name)], st.nextId + 1, st.ids + [st.nextId], st.failed)
  }

  /** Saving every tag of `plan`, in order, each whatever became of the ones before. */
  function SaveAll(st: SaveState, plan: seq<TagObject>): SaveState
    decreases |plan|
  {
    if plan == [] then st else SaveOne(SaveAll(st, plan[..|plan| - 1]), plan[|plan| - 1])
  }

  lemma SaveAllSnoc(st: SaveState, plan: seq<TagObject>, i: nat)
    requires i < |plan|
    ensures SaveAll(st, plan[..i + 1]) == SaveOne(SaveAll(st, plan[..i]), plan[i])
  {
    assert plan[..i + 1][..i] == plan[..i];
  }

  /** Saving only appends: existing rows are untouched, and every save either
      creates one row with the next id or is rejected. */
  lemma {:induction false} SaveAllAppends(st: SaveState, plan: seq<TagObject>)
    ensures var r := SaveAll(st, plan);
      && st.rows <= r.rows && st.ids <= r.ids && st.failed <= r.failed
      && |r.ids| - |st.ids| + |r.failed| - |st.failed| == |plan|
      && |r.rows| - |st.rows| == |r.ids| - |st.ids|
      && r.nextId == st.nextId + |r.ids| - |st.ids|
    decreases |plan|
  {
    if plan != [] {
      SaveAllAppends(st, plan[..|plan| - 1]);
    }
  }

  /** The new rows and the new ids count up from the first free id. */
  lemma {:induction false} SaveAllIds(st: SaveState, plan: seq<TagObject>)
    ensures var r := SaveAll(st, plan);
      && (forall k :: |st.rows| <= k < |r.rows| ==> r.rows[k].id == st.nextId + (k - |st.rows|))
      && (forall k :: |st.ids| <= k < |r.ids| ==> r.ids[k] == st.nextId + (k - |st.ids|))
    decreases |plan|
  {
    if plan != [] {
      SaveAllIds(st, plan[..|plan| - 1]);
      SaveAllAppends(st, plan[..|plan| - 1]);
    }
  }

  /** The slugs stored afterwards are the ones stored before and those of the plan. */
  lemma {:induction false} SaveAllSlugs(st: SaveState, plan: seq<TagObject>)
    ensures forall s :: s in RowSlugs(SaveAll(st, plan).rows) <==> s in RowSlugs(st.rows) || s in SlugsOf(plan)
    decreases |plan|
  {
    if plan != [] {
      var init := plan[..|plan| - 1];
      var last := plan[|plan| - 1];
      SaveAllSlugs(st, init);
      var mid := SaveAll(st, init);
      assert forall s :: s in SlugsOf(plan) <==> s in SlugsOf(init) || s == last.slug by {
        assert SlugsOf(plan) == SlugsOf(init) + [last.slug];
      }
      if last.slug !in RowSlugs(mid.rows) {
        assert RowSlugs(SaveAll(st, plan).rows) == RowSlugs(mid.rows) + [last.slug];
      }
    }
  }

  /** Saving keeps the unique index and the auto-increment order. */
  lemma {:induction false} SaveAllInvariant(st: SaveState, plan: seq<TagObject>)
    requires TableInvariant(st.rows, st.nextId)
    ensures TableInvariant(SaveAll(st, plan).rows, SaveAll(st, plan).nextId)
    decreases |plan|
  {
    if plan != [] {
      SaveAllInvariant(st, plan[..|plan| - 1]);
    }
  }

  /** No save is rejected exactly when the plan repeats no slug and stores none that is already there. */
  lemma {:induction false} SaveAllSucceeds(st: SaveState, plan: seq<TagObject>)
    ensures SaveAll(st, plan).failed == st.failed <==>
              NoDuplicates(SlugsOf(plan)) && forall t :: t in plan ==> t.slug !in RowSlugs(st.rows)
    decreases |plan|
  {
    if plan != [] {
      var init := plan[..|plan| - 1];
      var last := plan[|plan| - 1];
      SaveAllSucceeds(st, init);
      SaveAllSlugs(st, init);
      SaveAllAppends(st, init);
      SaveAllAppends(st, plan);
      var slugs := SlugsOf(plan);
      assert slugs == SlugsOf(init) + [last.slug];
      assert forall t :: t in plan <==> t in init || t == last by {
        assert plan == init + [last];
      }
      if NoDuplicates(slugs) {
        assert NoDuplicates(SlugsOf(init));
        assert last.slug !in SlugsOf(init);
      }
    }
  }

  /** When no save is rejected, the plan's tags become new rows in order, with consecutive ids. */
  lemma {:induction false} SaveAllRows(st: SaveState, plan: seq<TagObject>)
    requires SaveAll(st, plan).failed == st.failed
    ensures SaveAll(st, plan).rows == st.rows + NewRows(st.nextId, plan)
    decreases |plan|
  {
    if plan != [] {
      var init := plan[..|plan| - 1];
      SaveAllAppends(st, init);
      SaveAllAppends(st, plan);
      SaveAllRows(st, init);
      assert NewRows(st.nextId, plan) == NewRows(st.nextId, init) + [NewRows(st.nextId, plan)[|init|]];
    }
  }

  /** The rows `plan` creates from the next id `nextId` on. */
  function NewRows(nextId: nat, plan: seq<TagObject>): (r: seq<TagRow>)
    ensures |r| == |plan|
    ensures forall k :: 0 <= k < |plan| ==> r[k] == TagRow(nextId + k, plan[k].slug, plan[k].name)
  {
    seq(|plan|, k requires 0 <= k < |plan| => TagRow(nextId + k, plan[k].slug, plan[k].name))
  }

  /** The table after `saveTags(tags)`, starting from `rows` with next id `nextId`. */
  function SaveRun(rows: seq<TagRow>, nextId: nat, tags: seq<string>): (r: SaveState)
    ensures rows <= r.rows && |r.rows| <= |rows| + |tags|
  {
    SaveAllAppends(SaveState(rows, nextId, [], []), NewTags(rows, tags));
    SaveAll(SaveState(rows, nextId, [], []), NewTags(rows, tags))
  }

  /** What `saveTags(tags)` resolves to: `_.union(newIds, existingIds)`, or the first rejected save. */
  function SaveTagsResult(rows: seq<TagRow>, nextId: nat, tags: seq<string>): (r: Result<seq<nat>, TagError>)
    ensures r.Ok? ==> NoDuplicates(r.value)
    ensures r.Ok? ==> forall id :: id in r.value <==>
              id in SaveRun(rows, nextId, tags).ids || id in RowIds(WhereIn(rows, SlugsOf(TagObjects(tags))))
    ensures r.Err? ==> r.error.slug in SaveRun(rows, nextId, tags).failed
  {
    var run := SaveRun(rows, nextId, tags);
    if run.failed == [] then Ok(Union(run.ids, RowIds(WhereIn(rows, SlugsOf(TagObjects(tags))))))
    else Err(DuplicateSlug(run.failed[0]))
  }

  /** saveTags never changes a stored row and keeps the unique index and the id order. */
  lemma SaveTagsKeepsRows(rows: seq<TagRow>, nextId: nat, tags: seq<string>)
    requires TableInvariant(rows, nextId)
    ensures rows <= SaveRun(rows, nextId, tags).rows
    ensures TableInvariant(SaveRun(rows, nextId, tags).rows, SaveRun(rows, nextId, tags).nextId)
  {
    SaveAllAppends(SaveState(rows, nextId, [], []), NewTags(rows, tags));
    SaveAllInvariant(SaveState(rows, nextId, [], []), NewTags(rows, tags));
  }

  /** Afterwards every tag's slug is stored, failure or not, and no other slug was added. */
  lemma SaveTagsStoresEverySlug(rows: seq<TagRow>, nextId: nat, tags: seq<string>)
    ensures forall i :: 0 <= i < |tags| ==> Slugify(tags[i]) in RowSlugs(SaveRun(rows, nextId, tags).rows)
    ensures forall s :: s in RowSlugs(SaveRun(rows, nextId, tags).rows) ==>
              s in RowSlugs(rows) || exists i :: 0 <= i < |tags| && s == Slugify(tags[i])
  {
    var plan := NewTags(rows, tags);
    var objects := TagObjects(tags);
    SaveAllSlugs(SaveState(rows, nextId, [], []), plan);
    forall i | 0 <= i < |tags|
      ensures Slugify(tags[i]) in RowSlugs(SaveRun(rows, nextId, tags).rows)
    {
      if Slugify(tags[i]) !in RowSlugs(rows) {
        assert objects[i] in objects;
        assert objects[i] in plan;
        var k :| 0 <= k < |plan| && plan[k] == objects[i];
        assert SlugsOf(plan)[k] == Slugify(tags[i]);
      }
    }
    forall s | s in SlugsOf(plan)
      ensures exists i :: 0 <= i < |tags| && s == Slugify(tags[i])
    {
      var k :| 0 <= k < |plan| && SlugsOf(plan)[k] == s;
      assert plan[k] in objects;
      var i :| 0 <= i < |objects| && objects[i] == plan[k];
      assert s == Slugify(tags[i]);
    }
  }

  /** saveTags fails exactly when two of the tags it has to create share a slug:
      the unique index refuses the second save. */
  lemma SaveTagsFailsOnRepeat(rows: seq<TagRow>, nextId: nat, tags: seq<string>)
    ensures SaveTagsResult(rows, nextId, tags).Err? <==> !NoDuplicates(SlugsOf(NewTags(rows, tags)))
  {
    SaveAllSucceeds(SaveState(rows, nextId, [], []), NewTags(rows, tags));
  }

  /** The created ids count up from the first free id; the ids found are below it. */
  lemma SaveTagsNewIds(rows: seq<TagRow>, nextId: nat, tags: seq<string>)
    requires TableInvariant(rows, nextId)
    ensures forall k :: 0 <= k < |SaveRun(rows, nextId, tags).ids| ==> SaveRun(rows, nextId, tags).ids[k] == nextId + k
    ensures SaveRun(rows, nextId, tags).failed == [] ==> |SaveRun(rows, nextId, tags).ids| == |NewTags(rows, tags)|
    ensures forall id :: id in RowIds(WhereIn(rows, SlugsOf(TagObjects(tags)))) ==> id < nextId
    ensures NoDuplicates(RowIds(WhereIn(rows, SlugsOf(TagObjects(tags)))))
  {
    var st := SaveState(rows, nextId, [], []);
    var plan := NewTags(rows, tags);
    SaveAllAppends(st, plan);
    SaveAllIds(st, plan);
    WhereInIncreasing(rows, nextId, SlugsOf(TagObjects(tags)));
    IncreasingIdsDistinct(WhereIn(rows, SlugsOf(TagObjects(tags))), nextId);
  }

  /** On success the result is the ids of the created rows, in input order,
      followed by the ids the lookup found, and no id appears twice. */
  lemma SaveTagsIds(rows: seq<TagRow>, nextId: nat, tags: seq<string>)
    requires TableInvariant(rows, nextId)
    requires SaveTagsResult(rows, nextId, tags).Ok?
    ensures SaveTagsResult(rows, nextId, tags).value ==
              SaveRun(rows, nextId, tags).ids + RowIds(WhereIn(rows, SlugsOf(TagObjects(tags))))
    ensures NoDuplicates(SaveTagsResult(rows, nextId, tags).value)
  {
    var ids := SaveRun(rows, nextId, tags).ids;
    var found := RowIds(WhereIn(rows, SlugsOf(TagObjects(tags))));
    SaveTagsNewIds(rows, nextId, tags);
    assert forall x :: x in ids ==> nextId <= x;
    UnionDisjoint(ids, found);
  }

  /** The created ids followed by the ids found are exactly the ids of the rows,
      old or new, whose slug was asked for. */
  lemma ResolvedIds(rows: seq<TagRow>, nextId: nat, plan: seq<TagObject>, slugs: seq<string>, ids: seq<nat>)
    requires forall t :: t in plan ==> t.slug in slugs
    requires |ids| == |plan| && forall k :: 0 <= k < |ids| ==> ids[k] == nextId + k
    ensures forall id :: id in ids + RowIds(WhereIn(rows, slugs)) <==>
              exists r :: r in rows + NewRows(nextId, plan) && r.id == id && r.slug in slugs
  {
    var found := WhereIn(rows, slugs);
    var all := rows + NewRows(nextId, plan);
    WhereInRows(rows, slugs);
    forall id | id in ids + RowIds(found)
      ensures exists r :: r in all && r.id == id && r.slug in slugs
    {
      if id in ids {
        var k :| 0 <= k < |ids| && ids[k] == id;
        assert plan[k] in plan;
        assert all[|rows| + k] == NewRows(nextId, plan)[k];
      } else {
        var k :| 0 <= k < |found| && RowIds(found)[k] == id;
        assert found[k] in found;
        assert found[k] in all;
      }
    }
    forall id | exists r :: r in all && r.id == id && r.slug in slugs
      ensures id in ids + RowIds(found)
    {
      var r :| r in all && r.id == id && r.slug in slugs;
      var m :| 0 <= m < |all| && all[m] == r;
      if m < |rows| {
        assert r in rows;
        var k :| 0 <= k < |found| && found[k] == r;
        assert RowIds(found)[k] == id;
      } else {
        assert r == NewRows(nextId, plan)[m - |rows|];
        assert ids[m - |rows|] == id;
      }
    }
  }

  /** On success the result holds exactly the ids of the rows that now carry one
      of the input's slugs: the rows created and the rows found. */
  lemma SaveTagsResolves(rows: seq<TagRow>, nextId: nat, tags: seq<string>)
    requires TableInvariant(rows, nextId)
    requires SaveTagsResult(rows, nextId, tags).Ok?
    ensures forall id :: id in SaveTagsResult(rows, nextId, tags).value <==>
              exists r :: r in SaveRun(rows, nextId, tags).rows && r.id == id && r.slug in SlugsOf(TagObjects(tags))
  {
    var objects := TagObjects(tags);
    var plan := NewTags(rows, tags);
    var run := SaveRun(rows, nextId, tags);
    SaveTagsIds(rows, nextId, tags);
    SaveTagsNewIds(rows, nextId, tags);
    SaveAllRows(SaveState(rows, nextId, [], []), plan);
    forall t | t in plan
      ensures t.slug in SlugsOf(objects)
    {
      var i :| 0 <= i < |objects| && objects[i] == t;
      assert SlugsOf(objects)[i] == t.slug;
    }
    ResolvedIds(rows, nextId, plan, SlugsOf(objects), run.ids);
  }

  /** On an empty table, two new tags with one slug: the first is saved, the second refused. */
  lemma SaveTwoSameSlug(a: TagObject, b: TagObject)
    requires a.slug == b.slug
    ensures SaveAll(SaveState([], 1, [], []), [a, b]) == SaveState([TagRow(1, a.slug, a.name)], 2, [1], [b.slug])
  {
    var st := SaveState([], 1, [], []);
    assert [a, b][..1] == [a];
    assert [a][..0] == [];
    assert SaveAll(st, [a]) == SaveState([TagRow(1, a.slug, a.name)], 2, [1], []);
    assert RowSlugs([TagRow(1, a.slug, a.name)]) == [a.slug];
  }

  /** The lookup on an empty table finds nothing, so every tag is to be created. */
  lemma NewTagsEmptyTable(tags: seq<string>)
    ensures NewTags([], tags) == TagObjects(tags)
  {
    assert WhereIn([], SlugsOf(TagObjects(tags))) == [];
    assert RowSlugs([]) == [];
    MissingNone(TagObjects(tags));
  }

  /** Two tags that differ only in case or in spaces against hyphens, on an empty
      table: the first is saved, the second is refused, and saveTags fails. */
  lemma RepeatedNewTagFails()
    ensures SaveTagsResult([], 1, ["Node JS", "node-js"]) == Err(DuplicateSlug("node-js"))
    ensures SaveRun([], 1, ["Node JS", "node-js"]).rows == [TagRow(1, "node-js", "Node JS")]
  {
    var tags := ["Node JS", "node-js"];
    SlugExample();
    NewTagsEmptyTable(tags);
    assert TagObjects(tags) == [TagObject("Node JS", "node-js"), TagObject("node-js", "node-js")];
    SaveTwoSameSlug(TagObject("Node JS", "node-js"), TagObject("node-js", "node-js"));
  }

  /** The tags table. */
  class TagTable {
    var rows: seq<TagRow>
    var nextId: nat

    ghost predicate Valid()
      reads this
    {
      TableInvariant(rows, nextId)
    }

    /** An empty table whose first id is 1. */
    constructor ()
      ensures Valid() && rows == [] && nextId == 1
    {
      rows := [];
      nextId := 1;
    }

    /** `model.save()`: insert one tag, refused by the unique index when its slug is stored. */
    method Save(tag: TagObject) returns (r: Result<nat, TagError>)
      requires Valid()
      modifies this
      ensures Valid()
      ensures var st := SaveOne(SaveState(old(rows), old(nextId), [], []), tag);
              && rows == st.rows && nextId == st.nextId
              && (st.failed == [] ==> r == Ok(old(nextId)))
              && (st.failed != [] ==> r == Err(DuplicateSlug(tag.slug)))
    {
      if tag.slug in RowSlugs(rows) {
        return Err(DuplicateSlug(tag.slug));
      }
      rows := rows + [TagRow(nextId, tag.slug, tag.name)];
      r := Ok(nextId);
      nextId := nextId + 1;
    }

    /** `new Tags(plan).mapThen(model => model.save().then(() => model.get('id')))`:
        one save per tag of `plan`, in order, collecting the new ids and the
        slugs of the saves the unique index refused. */
    method SaveEach(plan: seq<TagObject>) returns (ids: seq<nat>, failed: seq<string>)
      requires Valid()
      modifies this
      ensures Valid()
      ensures SaveState(rows, nextId, ids, failed) == SaveAll(SaveState(old(rows), old(nextId), [], []), plan)
    {
      ghost var start := SaveState(rows, nextId, [], []);
      ids := [];
      failed := [];
      for i := 0 to |plan|
        invariant Valid()
        invariant SaveState(rows, nextId, ids, failed) == SaveAll(start, plan[..i])
      {
        ghost var before := SaveState(rows, nextId, ids, failed);
        var saved := Save(plan[i]);
        if saved.Ok? {
          ids := ids + [saved.value];
        } else {
          failed := failed + [saved.error.slug];
        }
        SaveAllSnoc(start, plan, i);
        assert SaveState(rows, nextId, ids, failed) == SaveOne(before, plan[i]);
      }
      assert plan[..|plan|] == plan;
    }

    /** `saveTags(tags)`: one batched lookup of the derived slugs, one save per
        tag that was not found (repeats included), then the new ids followed by
        the ids found. */
    method SaveTags(tags: seq<string>) returns (r: Result<seq<nat>, TagError>)
      requires Valid()
      modifies this
      ensures Valid()
      ensures rows == SaveRun(old(rows), old(nextId), tags).rows
      ensures nextId == SaveRun(old(rows), old(nextId), tags).nextId
      ensures r == SaveTagsResult(old(rows), old(nextId), tags)
    {
      var tagObjects := TagObjects(tags);
      var existingTags := WhereIn(rows, SlugsOf(tagObjects));
      var doNotExist: seq<TagObject>;
      if |existingTags| > 0 {
        var existingSlugs := RowSlugs(existingTags);
        doNotExist := Missing(tagObjects, existingSlugs);
      } else {
        doNotExist := tagObjects;
        assert RowSlugs(existingTags) == [];
        MissingNone(tagObjects);
      }
      assert doNotExist == NewTags(rows, tags);
      var ids, failed := SaveEach(doNotExist);
      if failed != [] {
        return Err(DuplicateSlug(failed[0]));
      }
      r := Ok(Union(ids, RowIds(existingTags)));
    }
  }
}
