/** The schema catalog of schema.js: for every table, its columns in the order
    they are declared, each with a type and optional flags. It is constant data
    that the migration engine (module Migrate) reads; nothing changes it. */
module SchemaCatalog {
  import opened Wrappers

  /** The column types the catalog uses; each names a knex table-builder method. */
  datatype ColumnType = Increments | String | Integer | Text | DateTime

  /** A JavaScript value as it can stand in a column description. */
  datatype JsValue = JsBool(b: bool) | JsNumber(n: int) | JsString(s: string)

  /** `spec.hasOwnProperty(k) && spec[k] === true` */
  predicate IsTrue(flag: Option<JsValue>) {
    flag == Some(JsBool(true))
  }

  /** `spec.hasOwnProperty(k) && spec[k]`: present and truthy. */
  predicate IsTruthy(flag: Option<JsValue>) {
    flag.Some? &&
    match flag.value
    case JsBool(b) => b
    case JsNumber(n) => n != 0
    case JsString(s) => s != ""
  }

  /** One column description; `None` is a property the object literal leaves out. */
  datatype ColumnSpec = ColumnSpec(
    kind: ColumnType,
    maxlength: Option<nat> := None,
    fieldtype: Option<string> := None,
    nullable: Option<JsValue> := None,
    primary: Option<JsValue> := None,
    unique: Option<JsValue> := None,
    unsigned: Option<JsValue> := None,
    references: Option<string> := None,
    defaultTo: Option<JsValue> := None)

  /** A table's columns, in the insertion order of the object literal (the order `_.keys` gives). */
  type TableSpec = seq<(string, ColumnSpec)>

  /** Tables by name, in the order of the object literal. */
  type Catalog = seq<(string, TableSpec)>

  const True := Some(JsBool(true))
  const False := Some(JsBool(false))

  /** The surrogate key every table starts with. */
  const IdColumn := ColumnSpec(Increments, nullable := False, primary := True)

  const Users: TableSpec := [
    ("id", IdColumn),
    ("email", ColumnSpec(String, maxlength := Some(254), nullable := False, unique := True)),
    ("name", ColumnSpec(String, maxlength := Some(150), nullable := False))
  ]

  const Categories: TableSpec := [
    ("id", IdColumn),
    ("name", ColumnSpec(String, maxlength := Some(150), nullable := False))
  ]

  const Posts: TableSpec := [
    ("id", IdColumn),
    ("user_id", ColumnSpec(Integer, nullable := False, unsigned := True)),
    ("category_id", ColumnSpec(Integer, nullable := False, unsigned := True)),
    ("title", ColumnSpec(String, maxlength := Some(150), nullable := False)),
    ("slug", ColumnSpec(String, maxlength := Some(150), nullable := False, unique := True)),
    ("html", ColumnSpec(Text, maxlength := Some(16777215), fieldtype := Some("medium"), nullable := False)),
    ("created_at", ColumnSpec(DateTime, nullable := False)),
    ("updated_at", ColumnSpec(DateTime, nullable := True))
  ]

  const Tags: TableSpec := [
    ("id", IdColumn),
    ("slug", ColumnSpec(String, maxlength := Some(150), nullable := False, unique := True)),
    ("name", ColumnSpec(String, maxlength := Some(150), nullable := False))
  ]

  const PostsTags: TableSpec := [
    ("id", IdColumn),
    ("post_id", ColumnSpec(Integer, nullable := False, unsigned := True)),
    ("tag_id", ColumnSpec(Integer, nullable := False, unsigned := True))
  ]

  /** The catalog itself. */
  const Schema: Catalog := [
    ("users", Users),
    ("categories", Categories),
    ("posts", Posts),
    ("tags", Tags),
    ("posts_tags", PostsTags)
  ]

  /** The keys of an ordered object, in order (`_.keys`). */
  function Keys<V>(entries: seq<(string, V)>): (r: seq<string>)
    ensures |r| == |entries|
    ensures forall i :: 0 <= i < |entries| ==> r[i] == entries[i].0
  {
    seq(|entries|, i requires 0 <= i < |entries| => entries[i].0)
  }

  predicate Distinct<T(==)>(s: seq<T>) {
    forall i, j :: 0 <= i < j < |s| ==> s[i] != s[j]
  }

  /** An object literal cannot repeat a key: table names and, per table, column names are distinct. */
  predicate WellFormed(catalog: Catalog) {
    Distinct(Keys(catalog)) &&
    forall i :: 0 <= i < |catalog| ==> Distinct(Keys(catalog[i].1))
  }

  /** `Schema[tableName]`, or no columns when the name is not a key (`_.keys(undefined)` is `[]`). */
  function ColumnsOf(catalog: Catalog, tableName: string): (r: TableSpec)
    ensures tableName !in Keys(catalog) ==> r == []
    ensures forall i :: 0 <= i < |catalog| && catalog[i].0 == tableName && tableName !in Keys(catalog)[..i] ==>
              r == catalog[i].1
  {
    if catalog == [] then []
    else if catalog[0].0 == tableName then catalog[0].1
    else ColumnsOf(catalog[1..], tableName)
  }

  /** A column together with the table it belongs to. */
  datatype ColumnRef = ColumnRef(table: string, column: string, spec: ColumnSpec)

  /** Every column of the catalog, table by table, each table's in key order. */
  function AllColumns(catalog: Catalog): (r: seq<ColumnRef>)
    ensures forall i, j :: 0 <= i < |catalog| && 0 <= j < |catalog[i].1| ==>
              ColumnRef(catalog[i].0, catalog[i].1[j].0, catalog[i].1[j].1) in r
  {
    if catalog == [] then []
    else TableColumns(catalog[0].0, catalog[0].1) + AllColumns(catalog[1..])
  }

  function TableColumns(table: string, columns: TableSpec): (r: seq<ColumnRef>)
    ensures |r| == |columns|
    ensures forall j :: 0 <= j < |columns| ==> r[j] == ColumnRef(table, columns[j].0, columns[j].1)
  {
    seq(|columns|, j requires 0 <= j < |columns| => ColumnRef(table, columns[j].0, columns[j].1))
  }

  /** The (table, column) name of every column of the catalog, in catalog order. */
  function ColumnNames(catalog: Catalog): (r: seq<(string, string)>)
    ensures forall c :: c in AllColumns(catalog) ==> (c.table, c.column) in r
  {
    var all := AllColumns(catalog);
    var r := seq(|all|, i requires 0 <= i < |all| => (all[i].table, all[i].column));
    assert forall i :: 0 <= i < |all| ==> r[i] == (all[i].table, all[i].column);
    r
  }

  /** AllColumns of the catalog, unfolded table by table. */
  lemma SchemaColumns()
    ensures AllColumns(Schema) == TableColumns("users", Users) + TableColumns("categories", Categories) +
              TableColumns("posts", Posts) + TableColumns("tags", Tags) + TableColumns("posts_tags", PostsTags)
  {
    var s := Schema;
    assert AllColumns(s[4..]) == TableColumns("posts_tags", PostsTags) + AllColumns(s[5..]);
    assert AllColumns(s[3..]) == TableColumns("tags", Tags) + AllColumns(s[3..][1..]);
    assert s[3..][1..] == s[4..];
    assert AllColumns(s[2..]) == TableColumns("posts", Posts) + AllColumns(s[2..][1..]);
    assert s[2..][1..] == s[3..];
    assert AllColumns(s[1..]) == TableColumns("categories", Categories) + AllColumns(s[1..][1..]);
    assert s[1..][1..] == s[2..];
  }

  /** The catalog declares five tables, in this order, and repeats no key. */
  lemma CatalogTables()
    ensures WellFormed(Schema)
    ensures Keys(Schema) == ["users", "categories", "posts", "tags", "posts_tags"]
  {
  }

  /** Every table starts with the auto-increment, not-null, primary `id` column. */
  lemma IdColumnsFirst()
    ensures forall i :: 0 <= i < |Schema| ==> |Schema[i].1| > 0 && Schema[i].1[0] == ("id", IdColumn)
    ensures IdColumn.kind == Increments && IdColumn.nullable == False && IsTrue(IdColumn.primary)
  {
  }

  /** The `id` columns are the primary keys, and no other column is primary. */
  lemma IdColumnsArePrimaryKeys()
    ensures forall c :: c in AllColumns(Schema) ==> (IsTrue(c.spec.primary) <==> c.column == "id")
  {
    SchemaColumns();
  }

  /** Every `string` column declares a maximum length, and none exceeds 254. */
  lemma StringColumnsBounded()
    ensures forall c :: c in AllColumns(Schema) && c.spec.kind == String ==>
              c.spec.maxlength.Some? && c.spec.maxlength.value <= 254
  {
    SchemaColumns();
  }

  /** The columns that hold another table's id, as (table, column). */
  const ForeignKeyColumns := [("posts", "user_id"), ("posts", "category_id"), ("posts_tags", "post_id"), ("posts_tags", "tag_id")]

  /** The integer columns are exactly the four that hold another table's id. */
  lemma IntegerColumnsAreForeignKeys()
    ensures forall c :: c in AllColumns(Schema) ==>
              (c.spec.kind == Integer <==> (c.table, c.column) in ForeignKeyColumns)
  {
    SchemaColumns();
  }

  /** The four id-holding columns are declared: posts.user_id, posts.category_id, posts_tags.post_id, posts_tags.tag_id. */
  lemma ForeignKeyColumnsDeclared()
    ensures forall p :: p in ForeignKeyColumns ==> p in ColumnNames(Schema)
  {
    SchemaColumns();
    assert TableColumns("posts", Posts)[1] in AllColumns(Schema);
    assert TableColumns("posts", Posts)[2] in AllColumns(Schema);
    assert TableColumns("posts_tags", PostsTags)[1] in AllColumns(Schema);
    assert TableColumns("posts_tags", PostsTags)[2] in AllColumns(Schema);
  }

  /** Every integer column is unsigned and not nullable. */
  lemma IntegerColumnsUnsignedNotNull()
    ensures forall c :: c in AllColumns(Schema) && c.spec.kind == Integer ==>
              IsTruthy(c.spec.unsigned) && !IsTrue(c.spec.nullable)
  {
    SchemaColumns();
  }

  /** The columns declared unique, as (table, column). */
  const UniqueColumns := [("users", "email"), ("posts", "slug"), ("tags", "slug")]

  /** A column is unique exactly when it is users.email, posts.slug or tags.slug. */
  lemma UniqueColumnsExactly()
    ensures forall c :: c in AllColumns(Schema) ==> (IsTruthy(c.spec.unique) <==> (c.table, c.column) in UniqueColumns)
  {
    SchemaColumns();
  }

  /** users.email, posts.slug and tags.slug are declared. */
  lemma UniqueColumnsDeclared()
    ensures forall p :: p in UniqueColumns ==> p in ColumnNames(Schema)
  {
    SchemaColumns();
    assert TableColumns("users", Users)[1] in AllColumns(Schema);
    assert TableColumns("posts", Posts)[4] in AllColumns(Schema);
    assert TableColumns("tags", Tags)[1] in AllColumns(Schema);
  }

  /** posts.updated_at is the one column declared nullable. */
  lemma OnlyUpdatedAtNullable()
    ensures forall c :: c in AllColumns(Schema) ==> (IsTrue(c.spec.nullable) <==> (c.table, c.column) == ("posts", "updated_at"))
    ensures ColumnRef("posts", "updated_at", ColumnSpec(DateTime, nullable := True)) in AllColumns(Schema)
  {
    SchemaColumns();
    assert TableColumns("posts", Posts)[7] == ColumnRef("posts", "updated_at", ColumnSpec(DateTime, nullable := True));
  }

  /** No column declares a foreign-key reference or a default value. */
  lemma NoReferencesOrDefaults()
    ensures forall c :: c in AllColumns(Schema) ==> c.spec.references.None? && c.spec.defaultTo.None?
  {
    SchemaColumns();
  }
}
