# node-mysql blog API: migration engine and tag resolution in Dafny

This project models the two parts of the node-mysql blog API that carry real logic.

**The schema migration** (`schema.js`, `migrate.js`):
- The `Schema` catalog is constant data: five tables, each with its columns in declaration order.
- `createTable` walks a table's columns in key order. For each column it makes a base builder call (`table.string(key, 254)`, `table.text(key, 'medium')`, `table.increments(key)`, ...). It then appends the modifiers in a fixed order: null-ness, primary, unique, unsigned, references, defaultTo.
- `createTables` runs one `createTable` per catalog table, one after another, against a database that refuses to create a table it already has.

**Tag resolution** (`app.js`):
- The route handler parses the tag string.
- The slug expression turns a name into a slug.
- `saveTags` looks up the derived slugs in one batched query. It saves a row for every tag not found, with the unique index on `tags.slug` guarding the table. It resolves to `_.union(newIds, existingIds)`.
- The PUT handlers use a `||` fallback: a request field replaces the stored value only when it is truthy.

Modules:
- `Wrappers`: `Option`, `Result`, `Outcome`.
- `SchemaCatalog`: the catalog and the facts proved about it.
- `Migrate`:
  - the builder-call specification `ColumnDdl`;
  - the imperative `DefineColumn` and `BuildTable`;
  - the class `SchemaStore`, a database seen as its set of tables plus the log of statements run.
- `Slugs`: slug derivation.
- `TagParsing`: `split`, `trim` and the tag-list rule.
- `Lists`: lodash `_.union`.
- `TagStore`: the class `TagTable` with `SaveTags`, and the specification functions `NewTags`, `SaveAll` and `SaveTagsResult`.
- `Updates`: the PUT merge rule.

Each JavaScript flag check is modelled separately:
- `spec.hasOwnProperty(k) && spec[k] === true` is `IsTrue`. It applies to `nullable` and `primary`.
- `spec.hasOwnProperty(k) && spec[k]` is `IsTruthy`. It applies to `unique` and `unsigned`.

## Model

| member | source | states |
|---|---|---|
| SchemaCatalog.CatalogTables | schema.js:1-35 | The catalog has exactly five tables: users, categories, posts, tags, posts_tags, in that order. No table name or column name repeats. |
| SchemaCatalog.IdColumnsFirst | schema.js:3-31 | Every table's first column is `id`. It is `increments`, `nullable: false` and `primary: true`. |
| SchemaCatalog.IdColumnsArePrimaryKeys | schema.js:3-33 | A column is declared primary exactly when it is an `id` column. |
| SchemaCatalog.StringColumnsBounded | schema.js:4-27 | Every `string` column declares a `maxlength`, and none exceeds 254. |
| SchemaCatalog.IntegerColumnsAreForeignKeys | schema.js:15-33 | A column is `integer` exactly when it is posts.user_id, posts.category_id, posts_tags.post_id or posts_tags.tag_id. |
| SchemaCatalog.ForeignKeyColumnsDeclared | schema.js:15-33 | Those four id-holding columns are all declared in the catalog. |
| SchemaCatalog.IntegerColumnsUnsignedNotNull | schema.js:15-33 | Every `integer` column is unsigned and not nullable. |
| SchemaCatalog.UniqueColumnsExactly | schema.js:4-26 | A column is unique exactly when it is users.email, posts.slug or tags.slug. |
| SchemaCatalog.UniqueColumnsDeclared | schema.js:4-26 | Those three unique columns are all declared in the catalog. |
| SchemaCatalog.OnlyUpdatedAtNullable | schema.js:3-33 | posts.updated_at is declared, and it is the only column whose `nullable` is `true`. |
| SchemaCatalog.NoReferencesOrDefaults | schema.js:1-35 | No column declares `references` or `defaultTo`. |
| SchemaCatalog.ColumnsOf | migrate.js:23 | `Schema[tableName]` is the first table of that name. A name that is not a key gives no columns (`_.keys(undefined)` is empty). |
| Migrate.SizeArgOf | migrate.js:27-35 | The size argument is `fieldtype` exactly for a `text` column that has `fieldtype`, and `maxlength` exactly for a `string` column that has `maxlength`. Any other column gets none; for example, `maxlength` on a `text` column is ignored. |
| Migrate.Steps | migrate.js:27-63 | A column has seven steps, in the fixed order base, null-ness, primary, unique, unsigned, references, defaultTo. The call a step makes always has that step's rank. `ColumnDdlModifiers` and `ColumnDdlReferencesAndDefaults` state when each step is taken. |
| Migrate.ColumnDdl | migrate.js:27-63 | The calls for one column. First comes one base call for this key and type. It gets `fieldtype` as its argument exactly for a `text` column with `fieldtype`, and `maxlength` exactly for a `string` column with `maxlength`. Then comes exactly one of nullable/notNullable, nullable exactly when `nullable === true`. Every call's rank in the fixed modifier order is strictly above the ones before it. |
| Migrate.ColumnDdlModifiers | migrate.js:44-54 | `primary()` is called exactly when `primary === true`. `unique()` and `unsigned()` are called exactly when the flag is present and truthy. |
| Migrate.ColumnDdlReferencesAndDefaults | migrate.js:56-63 | `references(t)` is called exactly when the column declares `references: t`, whatever table `t` names. `defaultTo(v)` is called exactly when it declares `defaultTo: v`. |
| Migrate.NoReferenceOrDefaultCalls | migrate.js:56-63 | A column without `references` and `defaultTo` gets neither call. |
| Migrate.BaseColumn | migrate.js:27-35 | The three-way dispatch gives the base call with the size argument `SizeArgOf` picks: text with fieldtype, string with maxlength, otherwise none. |
| Migrate.DefineColumn | migrate.js:25-63 | The imperative chain of appends gives the column's seven steps taken in order. `BuildTable` connects this to `ColumnDdl`. |
| Migrate.TableDefinition | migrate.js:20-25 | The statement for a table. It names that table and has one column definition per key, in key order. Each definition starts with that column's own base call. |
| Migrate.BuildTable | migrate.js:20-65 | The `_.each` loop over the column keys builds exactly `TableDefinition`: one `ColumnDdl` per key, in key order. |
| Migrate.FirstClash | migrate.js:69-81 | The position where a sequential run of creations first fails. Every earlier name is neither in the database nor repeated. The name at that position is one of the two. |
| Migrate.FirstClashNone | migrate.js:69-81 | Every table can be created exactly when the names are distinct and none is in the database yet. |
| Migrate.Plan | migrate.js:69-81 | The statements `createTables` issues for a sequence of table names. `PlanTables` states their shape, and `CreateTables` logs exactly the plan's prefix up to the first clash. |
| Migrate.PlanTables | migrate.js:69-81 | The plan has one statement per name, in the same order, each creating the table of that name. |
| Migrate.SchemaStore.CreateTable | migrate.js:18-20 | If the database already has the table, the result is `TableExists` and nothing changes. Otherwise the table is added and its statement is appended to the log. The store invariant is kept: every logged table exists, and none was created twice. |
| Migrate.SchemaStore.CreateTables | migrate.js:69-81 | The tables are created in key order up to the first clash. The database gains exactly those tables, and the log gains their statements in order. The result is `Pass`, or `TableExists` naming the first table refused. No table after it is created. |
| Migrate.MigrateTwice | migrate.js:69-81 | On an empty database the first migration passes: the database then holds exactly the catalog's tables, with one logged statement per table. A second migration fails on `users`, because a plain `createTable` refuses an existing table, and leaves the tables and the log exactly as they were. |
| Migrate.PlanWithoutReferences | migrate.js:56-63 | In a well-formed catalog where no column declares `references` or `defaultTo`, no statement of the migration calls either. |
| Migrate.SchemaHasNoReferenceCalls | migrate.js:56-63 | For the blog's catalog, no column's call list contains `references` or `defaultTo`: those branches never run for this catalog. |
| Migrate.SchemaSizeArguments | migrate.js:27-31 | `posts.html` becomes `text('html', 'medium')` and its `maxlength` is ignored. `users.email` becomes `string('email', 254)`. |
| Slugs.ReplaceSpaces | app.js:320 | `replace(/ /g, '-')` keeps the length and leaves no space. |
| Slugs.LowerCase | app.js:320 | `toLowerCase` keeps the length and leaves no upper-case letter. `SlugifyChars` gives the rule character by character. The mapping is ASCII only. |
| Slugs.Slugify | app.js:320 | A slug has the name's length, no space and no upper-case letter. |
| Slugs.SlugifyChars | app.js:409 | Character by character, a slug is `-` where the input has a space, and the lower-cased input character elsewhere. |
| Slugs.SlugifyIdempotent | app.js:320 | The slug of a slug is itself. |
| Slugs.SlugExample | app.js:320 | "Node JS" and "node-js" both have the slug "node-js". |
| TagParsing.Split | app.js:396 | `split(',')` gives one more piece than there are commas, and no piece holds a comma. |
| TagParsing.JoinSplit | app.js:396 | Joining the pieces with the separator gives the string back. |
| TagParsing.SplitJoin | app.js:396 | Splitting the join of separator-free pieces gives the pieces back. |
| TagParsing.Trim | app.js:397 | `trim()` gives a slice of the input that neither starts nor ends with white space. Only white space is cut away, on both sides. |
| TagParsing.TrimIdempotent | app.js:397 | Trimming twice is trimming once. |
| TagParsing.TrimExample | app.js:397 | " node js " trims to "node js". The inner space is kept. |
| TagParsing.ParseTags | app.js:392-402 | An absent or empty tag string gives exactly `["uncategorised"]`. Otherwise the result has (commas + 1) entries, each the trimmed piece at its position. |
| TagParsing.ParsedTagsClean | app.js:395-398 | Every parsed tag is trimmed and has no comma. |
| TagParsing.ParseJoinedTags | app.js:395-398 | Trimmed, comma-free names joined with commas parse back to exactly those names. |
| TagParsing.ParseExamples | app.js:392-402 | No tags and "" both give `["uncategorised"]`. "a,,b" keeps its empty middle piece. |
| Lists.Union | app.js:350 | `_.union` has no repeats and holds exactly the values of both lists. |
| Lists.UnionKeepsFirst | app.js:350 | The union of a repeat-free first list starts with that list unchanged. |
| Lists.UnionDisjoint | app.js:349-351 | The union of two repeat-free lists with no common value is their concatenation. |
| TagStore.TagObjects | app.js:317-322 | Every name is paired with its own slug, in input order. |
| TagStore.WhereIn | app.js:324-326 | The batched lookup never returns more rows than are stored. `WhereInRows` says which rows: exactly the stored rows whose slug was asked for. |
| TagStore.WhereInRows | app.js:324-326 | The batched lookup returns exactly the stored rows whose slug is among the derived slugs. |
| TagStore.WhereInSlugs | app.js:324-330 | A slug is among the existing slugs exactly when it is stored and was asked for. |
| TagStore.Missing | app.js:335-337 | The filter never lengthens the list. `MissingMembers` says what it keeps and `MissingAppend` that it keeps order and repeats. |
| TagStore.MissingMembers | app.js:333-337 | The filter keeps exactly the tag objects whose slug is not an existing slug. |
| TagStore.MissingAppend | app.js:335-337 | The filter keeps input order and repeats: it distributes over concatenation. |
| TagStore.MissingNone | app.js:339-341 | With no existing tags, the `else` branch (all tag objects) agrees with the filter. |
| TagStore.NewTags | app.js:328-341 | `doNotExist` holds exactly the input's tag objects whose slug is not stored. |
| TagStore.SaveOne | app.js:344-347 | One `model.save()`: the table is left as it was exactly when the slug is already stored. Otherwise one row is added. |
| TagStore.SaveAll | app.js:343-348 | The saves of a list of tags, in order. `SaveAllAppends` states that it only appends, `SaveAllInvariant` that it keeps the unique index, `SaveAllSucceeds` when no save is refused, and `SaveAllRows` which rows it adds. |
| TagStore.SaveAllInvariant | app.js:343-348 | Saving keeps the unique index on `tags.slug` and increasing auto-increment ids. |
| TagStore.SaveAllSucceeds | app.js:343-348 | No save is refused exactly when the tags to save repeat no slug and none of their slugs is already stored. |
| TagStore.SaveAllRows | app.js:343-348 | When no save is refused, the tags become new rows in order, with consecutive ids from the next free id. |
| TagStore.SaveRun | app.js:332-348 | The table after saveTags: the stored rows stay a prefix, and at most one row is added per input tag. |
| TagStore.SaveTagsResult | app.js:343-351 | On success the result has no repeated id and holds exactly the created ids and the ids found. On failure it names a slug whose save was refused. |
| TagStore.SaveTagsKeepsRows | app.js:332-348 | saveTags never changes or removes a stored row. It keeps the unique index and the id order. |
| TagStore.SaveTagsStoresEverySlug | app.js:343-348 | Afterwards, failure or not, every input tag's slug has a row. No slug other than those and the stored ones was added. |
| TagStore.SaveTagsFailsOnRepeat | app.js:343-348 | saveTags fails exactly when two of the tags it has to create share a slug. The input is not deduplicated, so the unique index refuses the second save. |
| TagStore.SaveTagsNewIds | app.js:343-351 | The created ids count up from the next free id, one per tag created on success. The ids found are distinct and below the next free id. |
| TagStore.SaveTagsIds | app.js:349-351 | On success the result is the created ids, in input order, followed by the ids found. No id appears twice. |
| TagStore.ResolvedIds | app.js:349-351 | The created ids followed by the ids found are exactly the ids of the rows, old or new, whose slug was asked for. |
| TagStore.SaveTagsResolves | app.js:316-353 | On success an id is in the result exactly when it belongs to a row of the table afterwards whose slug is one of the input tags' slugs. |
| TagStore.NewTagsEmptyTable | app.js:339-341 | On an empty table every tag is to be created. |
| TagStore.SaveTwoSameSlug | app.js:343-348 | Two new tags with one slug on an empty table: the first is saved with id 1, the second is refused. |
| TagStore.RepeatedNewTagFails | app.js:316-353 | `saveTags(["Node JS", "node-js"])` on an empty table saves the row (1, "node-js", "Node JS"), then fails with a duplicate slug. |
| TagStore.TagTable.Save | app.js:344-347 | `model.save()` is refused when the slug is stored. Otherwise it appends one row with the next id and returns that id. |
| TagStore.TagTable.SaveEach | app.js:343-348 | One save per tag, in order. The new ids, the refused slugs and the new table state are those of `SaveAll`. |
| TagStore.TagTable.SaveTags | app.js:316-353 | The table after the call and the result are those of `SaveRun`/`SaveTagsResult`: the rows of `doNotExist` appended, then `_.union(newIds, existingIds)`, or the first refusal. The table invariant is kept. |
| Updates.Fallback | app.js:202 | `requested \|\| stored`: the request value when it is truthy, the stored value otherwise. |
| Updates.UpdateUser | app.js:201-204 | The saved user keeps its id. Each of name and email is the request value when that is truthy and the stored value otherwise. |
| Updates.UpdateCategory | app.js:284 | The saved category keeps its id. Its name is the request value when that is truthy, the stored one otherwise. |
| Updates.UpdateWithoutFieldsKeepsRow | app.js:201-204 | A request without truthy fields leaves the user and the category unchanged. |
| Updates.UpdateUserFields | app.js:202-203 | For name and for email alike, a truthy request value wins and a falsy one keeps the stored value. A non-empty stored field never becomes empty. |
| Updates.UpdateIdempotent | app.js:201-204 | Sending the same update twice is sending it once. |
| Updates.UpdatesCompose | app.js:201-204 | Two updates in a row equal one update carrying, per field, the last truthy value sent. |

## Left out

- Express routing, body parsing, response formatting and `app.listen`: HTTP plumbing with no logic of its own.
- The Bookshelf model and relation declarations, `post.load` and `tags().attach(ids)`: their insert semantics live in a library that is not part of this model. The ids `saveTags` resolves to are what it would hand on.
- The knex connection settings, `console.log` and `process.exit`: I/O and process control.
- The database engine itself: `SchemaStore` keeps only the set of table names and the log of `create table` statements. `TagTable` keeps only the rows, the next auto-increment id and the unique check on `slug`.
- TagStore.TagTable.SaveEach: `mapThen` starts the saves in parallel. The model runs them one after another in input order: every save is attempted, and the first refused slug in input order is reported. Races between concurrent requests are not modelled.
- TagStore.TagTable.Save: a refused insert does not consume an auto-increment id here. MySQL may skip an id after a failed insert, which would only raise later ids.
- `hasTimestamps` and the datetime values it writes.
- Slugs.LowerCase: lowercases ASCII letters only; full Unicode `toLowerCase` (multi-character and non-Latin mappings) is not modelled.
- TagParsing.ParseTags: `req.body.tags` is modelled as an optional string. A JSON or extended-urlencoded body can make it an array or a number, and then `tags.split` throws a TypeError. That error path is not modelled.
- Updates.Truthy: request fields are modelled as optional strings. Other JSON values a client might send (numbers, booleans, `null`) are not modelled.
- TagStore.WhereIn: the rows the lookup returns are in table order. SQL gives no order without `ORDER BY`, so this only fixes the order of the existing ids in the union.
- Post creation itself (`Post.forge(...).save()`), apart from the slug expression it shares with tags: a plain insert with no logic of its own.
