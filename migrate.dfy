/** The migration engine of migrate.js: it turns each table of the catalog into
    one `create table` statement, built column by column through the knex table
    builder, and runs the statements one after another against the database. */
module Migrate {
  import opened Wrappers
  import opened SchemaCatalog

  /** The size argument of the base column call: `table.text(key, fieldtype)`,
      `table.string(key, maxlength)`, or none. */
  datatype SizeArg = NoSize | FieldType(size: string) | MaxLength(length: nat)

  /** One call on the knex table builder for a column. */
  datatype Op =
    | Column(name: string, kind: ColumnType, size: SizeArg)
    | Nullable
    | NotNullable
    | Primary
    | Unique
    | Unsigned
    | References(target: string)
    | DefaultTo(value: JsValue)

  /** The calls made for one column, in the order they were made. */
  datatype ColumnDef = ColumnDef(name: string, ops: seq<Op>)

  /** A `create table` statement: the table's name and its column definitions. */
  datatype CreateStatement = CreateStatement(table: string, columns: seq<ColumnDef>)

  /** Why a statement failed: the database already has a table of that name. */
  datatype MigrationError = TableExists(table: string)

  /** The position of each kind of call in migrate.js's fixed modifier order. */
  function Rank(op: Op): (r: nat)
    ensures r < 7
  {
    match op
    case Column(_, _, _) => 0
    case Nullable => 1
    case NotNullable => 1
    case Primary => 2
    case Unique => 3
    case Unsigned => 4
    case References(_) => 5
    case DefaultTo(_) => 6
  }

  /** Only a `text` column with `fieldtype` and a `string` column with `maxlength` get a size argument. */
  function SizeArgOf(spec: ColumnSpec): (r: SizeArg)
    ensures r.FieldType? <==> spec.kind == Text && spec.fieldtype.Some?
    ensures r.FieldType? ==> Some(r.size) == spec.fieldtype
    ensures r.MaxLength? <==> spec.kind == String && spec.maxlength.Some?
    ensures r.MaxLength? ==> Some(r.length) == spec.maxlength
  {
    if spec.kind == Text && spec.fieldtype.Some? then FieldType(spec.fieldtype.value)
    else if spec.kind == String && spec.maxlength.Some? then MaxLength(spec.maxlength.value)
    else NoSize
  }

  /** The seven steps of a column in migrate.js's fixed order: base call, null-ness,
      primary, unique, unsigned, references, defaultTo. A step the column's flags
      do not ask for is `None`. */
  function Steps(key: string, spec: ColumnSpec): (steps: seq<Option<Op>>)
    ensures |steps| == 7
    ensures forall i :: 0 <= i < 7 && steps[i].Some? ==> Rank(steps[i].value) == i
  {
    [ Some(Column(key, spec.kind, SizeArgOf(spec))),
      Some(if IsTrue(spec.nullable) then Nullable else NotNullable),
      if IsTrue(spec.primary) then Some(Primary) else None,
      if IsTruthy(spec.unique) then Some(Unique) else None,
      if IsTruthy(spec.unsigned) then Some(Unsigned) else None,
      if spec.references.Some? then Some(References(spec.references.value)) else None,
      if spec.defaultTo.Some? then Some(DefaultTo(spec.defaultTo.value)) else None ]
  }

  /** `column.modifier()` when the step is taken: the call is appended to the column's calls. */
  function Append(ops: seq<Op>, step: Option<Op>): seq<Op> {
    if step.Some? then ops + [step.value] else ops
  }

  /** The calls made by taking the steps one after another. */
  function Fold(steps: seq<Option<Op>>): (ops: seq<Op>)
    ensures |ops| <= |steps|
    decreases |steps|
  {
    if steps == [] then []
    else
      var init := steps[..|steps| - 1];
      assert steps == init + [steps[|steps| - 1]];
      Append(Fold(init), steps[|steps| - 1])
  }

  /** A call is made exactly when one of the steps takes it. */
  lemma {:induction false} FoldMember(steps: seq<Option<Op>>, op: Op)
    ensures op in Fold(steps) <==> Some(op) in steps
    decreases |steps|
  {
    if steps != [] {
      var init := steps[..|steps| - 1];
      assert steps == init + [steps[|steps| - 1]];
      FoldMember(init, op);
    }
  }

  /** A column's steps hold a call only at the position of its rank. */
  lemma StepsMember(key: string, spec: ColumnSpec, op: Op)
    ensures Some(op) in Steps(key, spec) <==> Steps(key, spec)[Rank(op)] == Some(op)
  {
    var steps := Steps(key, spec);
    if Some(op) in steps {
      var i :| 0 <= i < |steps| && steps[i] == Some(op);
      assert Rank(op) == i;
    }
  }

  /** Taking one more step appends that step's call, if any. */
  lemma FoldSnoc(steps: seq<Option<Op>>, k: nat)
    requires k < |steps|
    ensures Fold(steps[..k + 1]) == Append(Fold(steps[..k]), steps[k])
  {
    assert steps[..k + 1][..k] == steps[..k];
  }

  /** The calls after each step, when each is the one before with that step's call appended. */
  lemma {:induction false} FoldChain(steps: seq<Option<Op>>, c: seq<seq<Op>>)
    requires |c| == |steps| > 0
    requires c[0] == Append([], steps[0])
    requires forall k :: 0 < k < |steps| ==> c[k] == Append(c[k - 1], steps[k])
    ensures c[|c| - 1] == Fold(steps)
    decreases |steps|
  {
    var n := |steps|;
    if n > 1 {
      FoldChain(steps[..n - 1], c[..n - 1]);
      assert steps[..n - 1] == steps[..|steps| - 1];
    } else {
      assert steps[..0] == [];
    }
  }

  /** Seven steps taken one after another. */
  lemma FoldSeven(steps: seq<Option<Op>>)
    requires |steps| == 7
    ensures Fold(steps) == Append(Append(Append(Append(Append(Append(Append([],
              steps[0]), steps[1]), steps[2]), steps[3]), steps[4]), steps[5]), steps[6])
  {
    FoldChain(steps, [Append([], steps[0]),
                      Append(Append([], steps[0]), steps[1]),
                      Append(Append(Append([], steps[0]), steps[1]), steps[2]),
                      Append(Append(Append(Append([], steps[0]), steps[1]), steps[2]), steps[3]),
                      Append(Append(Append(Append(Append([], steps[0]), steps[1]), steps[2]), steps[3]), steps[4]),
                      Append(Append(Append(Append(Append(Append([], steps[0]), steps[1]), steps[2]), steps[3]), steps[4]), steps[5]),
                      Append(Append(Append(Append(Append(Append(Append([], steps[0]), steps[1]), steps[2]), steps[3]), steps[4]), steps[5]), steps[6])]);
  }

  /** Each call ranks strictly after the ones before it. */
  predicate Ascending(ops: seq<Op>) {
    forall i, j :: 0 <= i < j < |ops| ==> Rank(ops[i]) < Rank(ops[j])
  }

  /** Steps ranked by their position are folded into calls of strictly increasing rank. */
  lemma {:induction false} FoldAscending(steps: seq<Option<Op>>)
    requires forall i :: 0 <= i < |steps| && steps[i].Some? ==> Rank(steps[i].value) == i
    ensures Ascending(Fold(steps))
    ensures forall op :: op in Fold(steps) ==> Rank(op) < |steps|
  {
    if steps != [] {
      var init := steps[..|steps| - 1];
      assert forall i :: 0 <= i < |init| ==> init[i] == steps[i];
      FoldAscending(init);
    }
  }

  /** Taking more steps only appends calls. */
  lemma {:induction false} FoldPrefix(steps: seq<Option<Op>>, k: nat)
    requires k <= |steps|
    ensures Fold(steps[..k]) <= Fold(steps)
    decreases |steps|
  {
    if k < |steps| {
      var init := steps[..|steps| - 1];
      assert init[..k] == steps[..k];
      FoldPrefix(init, k);
    } else {
      assert steps[..k] == steps;
    }
  }

  /** The builder calls migrate.js makes for column `key` described by `spec`. */
  function ColumnDdl(key: string, spec: ColumnSpec): (ops: seq<Op>)
    // one base call first, for this column, with the type's own size argument
    ensures |ops| >= 2 && ops[0].Column? && ops[0].name == key && ops[0].kind == spec.kind
    ensures ops[0].size.FieldType? <==> spec.kind == Text && spec.fieldtype.Some?
    ensures ops[0].size.FieldType? ==> Some(ops[0].size.size) == spec.fieldtype
    ensures ops[0].size.MaxLength? <==> spec.kind == String && spec.maxlength.Some?
    ensures ops[0].size.MaxLength? ==> Some(ops[0].size.length) == spec.maxlength
    // then exactly one of nullable / notNullable; nullable only for `nullable === true`
    ensures ops[1] == Nullable <==> IsTrue(spec.nullable)
    ensures ops[1] == NotNullable <==> !IsTrue(spec.nullable)
    // then each modifier at most once, in the fixed order
    ensures Ascending(ops)
  {
    var steps := Steps(key, spec);
    FoldAscending(steps);
    FoldHead(steps);
    Fold(steps)
  }

  /** `primary` is applied exactly when the flag is `=== true`; `unique` and
      `unsigned` exactly when present and truthy. */
  lemma ColumnDdlModifiers(key: string, spec: ColumnSpec)
    ensures Primary in ColumnDdl(key, spec) <==> IsTrue(spec.primary)
    ensures Unique in ColumnDdl(key, spec) <==> IsTruthy(spec.unique)
    ensures Unsigned in ColumnDdl(key, spec) <==> IsTruthy(spec.unsigned)
  {
    var steps := Steps(key, spec);
    assert ColumnDdl(key, spec) == Fold(steps);
    FoldMember(steps, Primary);
    StepsMember(key, spec, Primary);
    FoldMember(steps, Unique);
    StepsMember(key, spec, Unique);
    FoldMember(steps, Unsigned);
    StepsMember(key, spec, Unsigned);
  }

  /** `references` and `defaultTo` are applied whenever the key is present,
      with exactly the value given, whatever it names. */
  lemma ColumnDdlReferencesAndDefaults(key: string, spec: ColumnSpec)
    ensures forall t :: References(t) in ColumnDdl(key, spec) <==> spec.references == Some(t)
    ensures forall v :: DefaultTo(v) in ColumnDdl(key, spec) <==> spec.defaultTo == Some(v)
  {
    var steps := Steps(key, spec);
    assert ColumnDdl(key, spec) == Fold(steps);
    forall t
      ensures References(t) in ColumnDdl(key, spec) <==> spec.references == Some(t)
    {
      FoldMember(steps, References(t));
      StepsMember(key, spec, References(t));
    }
    forall v
      ensures DefaultTo(v) in ColumnDdl(key, spec) <==> spec.defaultTo == Some(v)
    {
      FoldMember(steps, DefaultTo(v));
      StepsMember(key, spec, DefaultTo(v));
    }
  }

  /** The first two calls are the first two steps when both are taken. */
  lemma FoldHead(steps: seq<Option<Op>>)
    requires |steps| >= 2 && steps[0].Some? && steps[1].Some?
    ensures |Fold(steps)| >= 2 && Fold(steps)[0] == steps[0].value && Fold(steps)[1] == steps[1].value
  {
    FoldPrefix(steps, 2);
    assert steps[..2][..1] == steps[..1];
    assert steps[..1][..0] == [];
  }

  /** The statement `createTable(tableName)` issues for the given columns. */
  function TableDefinition(tableName: string, columns: TableSpec): (r: CreateStatement)
    ensures r.table == tableName && |r.columns| == |columns|
    ensures forall i :: 0 <= i < |columns| ==>
              r.columns[i].name == columns[i].0 &&
              |r.columns[i].ops| >= 2 && r.columns[i].ops[0] == Column(columns[i].0, columns[i].1.kind, SizeArgOf(columns[i].1))
  {
    CreateStatement(tableName, seq(|columns|, i requires 0 <= i < |columns| =>
      ColumnDef(columns[i].0, ColumnDdl(columns[i].0, columns[i].1))))
  }

  /** The base call of a column: `table.text(key, fieldtype)` for a text column
      with `fieldtype`, `table.string(key, maxlength)` for a string column with
      `maxlength`, otherwise `table[type](key)`. */
  method BaseColumn(key: string, spec: ColumnSpec) returns (op: Op)
    ensures op == Column(key, spec.kind, SizeArgOf(spec))
  {
    if spec.kind == Text && spec.fieldtype.Some? {
      op := Column(key, spec.kind, FieldType(spec.fieldtype.value));
    } else if spec.kind == String && spec.maxlength.Some? {
      op := Column(key, spec.kind, MaxLength(spec.maxlength.value));
    } else {
      op := Column(key, spec.kind, NoSize);
    }
  }

  /** One pass of the `_.each` callback: the base call, then each modifier the
      column's flags ask for, appended in order. */
  method DefineColumn(key: string, spec: ColumnSpec) returns (column: seq<Op>)
    ensures column == Fold(Steps(key, spec))
  {
    ghost var steps := Steps(key, spec);
    var base := BaseColumn(key, spec);
    column := [base];
    ghost var c0 := column;
    assert c0 == Append([], steps[0]);
    if IsTrue(spec.nullable) {
      column := column + [Nullable];
    } else {
      column := column + [NotNullable];
    }
    ghost var c1 := column;
    assert c1 == Append(c0, steps[1]);
    if IsTrue(spec.primary) {
      column := column + [Primary];
    }
    ghost var c2 := column;
    assert c2 == Append(c1, steps[2]);
    if IsTruthy(spec.unique) {
      column := column + [Unique];
    }
    ghost var c3 := column;
    assert c3 == Append(c2, steps[3]);
    if IsTruthy(spec.unsigned) {
      column := column + [Unsigned];
    }
    ghost var c4 := column;
    assert c4 == Append(c3, steps[4]);
    if spec.references.Some? {
      column := column + [References(spec.references.value)];
    }
    ghost var c5 := column;
    assert c5 == Append(c4, steps[5]);
    if spec.defaultTo.Some? {
      column := column + [DefaultTo(spec.defaultTo.value)];
    }
    assert column == Append(c5, steps[6]);
    FoldSeven(steps);
  }

  /** The builder callback of `createTable`: walks the columns in key order and
      defines each one. */
  method BuildTable(tableName: string, columns: TableSpec) returns (stmt: CreateStatement)
    ensures stmt == TableDefinition(tableName, columns)
  {
    var defs: seq<ColumnDef> := [];
    for i := 0 to |columns|
      invariant |defs| == i
      invariant forall k :: 0 <= k < i ==> defs[k] == ColumnDef(columns[k].0, ColumnDdl(columns[k].0, columns[k].1))
    {
      var key := columns[i].0;
      var column := DefineColumn(key, columns[i].1);
      assert column == ColumnDdl(key, columns[i].1);
      defs := defs + [ColumnDef(key, column)];
    }
    stmt := CreateStatement(tableName, defs);
    assert stmt.columns == TableDefinition(tableName, columns).columns;
  }

  /** The index of the first name in `names` that cannot be created: it is
      already in `existing` or repeats an earlier name. `|names|` if there is none. */
  function FirstClash(existing: set<string>, names: seq<string>): (k: nat)
    ensures k <= |names|
    ensures forall i :: 0 <= i < k ==> names[i] !in existing && names[i] !in names[..i]
    ensures k < |names| ==> names[k] in existing || names[k] in names[..k]
    decreases |names|
  {
    if names == [] then 0
    else if names[0] in existing then 0
    else
      var k := FirstClash(existing + {names[0]}, names[1..]);
      assert forall i :: 0 <= i < k ==> names[1..][..i] == names[1..i + 1];
      assert k < |names| - 1 ==> names[1..][..k] == names[1..k + 1];
      1 + k
  }

  /** The statements `createTables` issues for the tables named `names`, in that order. */
  function Plan(catalog: Catalog, names: seq<string>): seq<CreateStatement> {
    seq(|names|, i requires 0 <= i < |names| => TableDefinition(names[i], ColumnsOf(catalog, names[i])))
  }

  /** One statement per name, in the same order, each creating the table of that name. */
  lemma PlanTables(catalog: Catalog, names: seq<string>)
    ensures |Plan(catalog, names)| == |names|
    ensures forall i :: 0 <= i < |names| ==> Plan(catalog, names)[i].table == names[i]
  {
  }

  /** One more table name adds its statement at the end. */
  lemma PlanSnoc(catalog: Catalog, names: seq<string>, i: nat)
    requires i < |names|
    ensures Plan(catalog, names[..i + 1]) == Plan(catalog, names[..i]) + [TableDefinition(names[i], ColumnsOf(catalog, names[i]))]
  {
  }

  /** The names a sequence holds. */
  function Elements(names: seq<string>): (r: set<string>)
    ensures forall x :: x in r <==> x in names
  {
    set x | x in names
  }

  /** One more name adds that name. */
  lemma ElementsSnoc(names: seq<string>, i: nat)
    requires i < |names|
    ensures Elements(names[..i + 1]) == Elements(names[..i]) + {names[i]}
  {
    assert names[..i + 1] == names[..i] + [names[i]];
  }

  /** Before the first clash, the next name is neither in the database nor
      created already; at the first clash, it is one of the two. */
  lemma ClashAt(existing: set<string>, names: seq<string>, i: nat)
    requires i <= FirstClash(existing, names) && i < |names|
    ensures names[i] in existing + Elements(names[..i]) <==> i == FirstClash(existing, names)
  {
  }

  /** Every name can be created exactly when none is there yet and none repeats. */
  lemma {:induction false} FirstClashNone(existing: set<string>, names: seq<string>)
    ensures FirstClash(existing, names) == |names| <==>
              Distinct(names) && forall i :: 0 <= i < |names| ==> names[i] !in existing
    decreases |names|
  {
    if names != [] && names[0] !in existing {
      var rest := names[1..];
      FirstClashNone(existing + {names[0]}, rest);
      if Distinct(names) && forall i :: 0 <= i < |names| ==> names[i] !in existing {
        assert forall i :: 0 <= i < |rest| ==> rest[i] != names[0];
        assert Distinct(rest);
      }
      if FirstClash(existing, names) == |names| {
        assert forall i :: 0 <= i < |names| ==> names[i] !in names[..i];
      }
    }
  }

  /** The first name is refused when the database already has it. */
  lemma FirstClashAtStart(existing: set<string>, names: seq<string>)
    requires names != [] && names[0] in existing
    ensures FirstClash(existing, names) == 0
  {
  }

  /** A column description without `references` or `defaultTo` gives neither call. */
  lemma NoReferenceOrDefaultCalls(key: string, spec: ColumnSpec)
    requires spec.references.None? && spec.defaultTo.None?
    ensures forall op :: op in ColumnDdl(key, spec) ==> !op.References? && !op.DefaultTo?
  {
    ColumnDdlReferencesAndDefaults(key, spec);
  }

  /** In a well-formed catalog each table name looks up that table's own columns. */
  lemma ColumnsOfOwnTable(catalog: Catalog, i: nat)
    requires WellFormed(catalog) && i < |catalog|
    ensures ColumnsOf(catalog, catalog[i].0) == catalog[i].1
  {
    assert catalog[i].0 !in Keys(catalog)[..i];
  }

  /** When no column of a well-formed catalog declares `references` or
      `defaultTo`, no statement of the migration makes either call. */
  lemma PlanWithoutReferences(catalog: Catalog)
    requires WellFormed(catalog)
    requires forall c :: c in AllColumns(catalog) ==> c.spec.references.None? && c.spec.defaultTo.None?
    ensures forall i, j, op ::
              (0 <= i < |catalog| && 0 <= j < |Plan(catalog, Keys(catalog))[i].columns| &&
               op in Plan(catalog, Keys(catalog))[i].columns[j].ops)
              ==> !op.References? && !op.DefaultTo?
  {
    var plan := Plan(catalog, Keys(catalog));
    forall i, j | 0 <= i < |catalog| && 0 <= j < |plan[i].columns|
      ensures forall op :: op in plan[i].columns[j].ops ==> !op.References? && !op.DefaultTo?
    {
      var columns := catalog[i].1;
      ColumnsOfOwnTable(catalog, i);
      assert plan[i] == TableDefinition(catalog[i].0, columns);
      assert ColumnRef(catalog[i].0, columns[j].0, columns[j].1) in AllColumns(catalog);
      NoReferenceOrDefaultCalls(columns[j].0, columns[j].1);
    }
  }

  /** For the blog's catalog no column's calls include `references` or
      `defaultTo`, so those branches of the column builder never run. */
  lemma SchemaHasNoReferenceCalls()
    ensures forall c, op :: c in AllColumns(Schema) && op in ColumnDdl(c.column, c.spec) ==>
              !op.References? && !op.DefaultTo?
  {
    NoReferencesOrDefaults();
    forall c | c in AllColumns(Schema)
      ensures forall op :: op in ColumnDdl(c.column, c.spec) ==> !op.References? && !op.DefaultTo?
    {
      NoReferenceOrDefaultCalls(c.column, c.spec);
    }
  }

  /** `posts.html` is created as a medium text column (its `maxlength` is not
      used), and `users.email` as a string of at most 254 characters. */
  lemma SchemaSizeArguments()
    ensures ColumnDdl("html", Posts[5].1)[0] == Column("html", Text, FieldType("medium"))
    ensures ColumnDdl("email", Users[1].1)[0] == Column("email", String, MaxLength(254))
  {
  }

  /** A database seen through its schema: the tables it has and the `create table`
      statements this migration has run against it, oldest first. */
  class SchemaStore {
    var tables: set<string>
    var log: seq<CreateStatement>

    /** Every statement that ran created a table the database now has, and no table was created twice. */
    ghost predicate Valid()
      reads this
    {
      (forall i :: 0 <= i < |log| ==> log[i].table in tables) &&
      (forall i, j :: 0 <= i < j < |log| ==> log[i].table != log[j].table)
    }

    /** A database that already has the tables `existing`. */
    constructor (existing: set<string>)
      ensures Valid() && tables == existing && log == []
    {
      tables := existing;
      log := [];
    }

    /** `createTable(tableName)`: a plain `create table` (no "if not exists"),
        so a table that is already there makes it fail and changes nothing. */
    method CreateTable(catalog: Catalog, tableName: string) returns (out: Outcome<MigrationError>)
      requires Valid()
      modifies this
      ensures Valid()
      ensures tableName in old(tables) ==>
                out == Fail(TableExists(tableName)) && tables == old(tables) && log == old(log)
      ensures tableName !in old(tables) ==>
                && out == Pass
                && tables == old(tables) + {tableName}
                && log == old(log) + [TableDefinition(tableName, ColumnsOf(catalog, tableName))]
    {
      var stmt := BuildTable(tableName, ColumnsOf(catalog, tableName));
      if tableName in tables {
        return Fail(TableExists(tableName));
      }
      tables := tables + {tableName};
      log := log + [stmt];
      out := Pass;
    }

    /** `createTables()`: one `createTable` per catalog key, in key order, each
        after the previous one has finished; the first failure ends the run. */
    method CreateTables(catalog: Catalog) returns (out: Outcome<MigrationError>)
      requires Valid()
      modifies this
      ensures Valid()
      ensures var names := Keys(catalog);
              var k := FirstClash(old(tables), names);
              && tables == old(tables) + Elements(names[..k])
              && log == old(log) + Plan(catalog, names[..k])
              && (k == |names| ==> out == Pass)
              && (k < |names| ==> out == Fail(TableExists(names[k])))
    {
      var names := Keys(catalog);
      ghost var k := FirstClash(tables, names);
      var i := 0;
      while i < |names|
        invariant 0 <= i <= k
        invariant tables == old(tables) + Elements(names[..i])
        invariant log == old(log) + Plan(catalog, names[..i])
        invariant Valid()
      {
        ClashAt(old(tables), names, i);
        out := CreateTable(catalog, names[i]);
        if out.Fail? {
          return;
        }
        PlanSnoc(catalog, names, i);
        ElementsSnoc(names, i);
        assert log == old(log) + (Plan(catalog, names[..i]) + [TableDefinition(names[i], ColumnsOf(catalog, names[i]))]);
        i := i + 1;
      }
      assert names[..i] == names;
      out := Pass;
    }
  }

  /** Migrating an empty database creates every table; migrating it again fails
      on the first table, `users`, and leaves the tables and the log as they were. */
  method MigrateTwice() returns (first: Outcome<MigrationError>, second: Outcome<MigrationError>,
                                 tablesAfterFirst: set<string>, logAfterFirst: seq<CreateStatement>,
                                 tablesAfterSecond: set<string>, logAfterSecond: seq<CreateStatement>)
    ensures first == Pass
    ensures second == Fail(TableExists("users"))
    ensures tablesAfterFirst == Elements(Keys(Schema))
    ensures |logAfterFirst| == |Schema|
    ensures tablesAfterSecond == tablesAfterFirst && logAfterSecond == logAfterFirst
  {
    var db := new SchemaStore({});
    CatalogTables();
    FirstClashNone({}, Keys(Schema));
    first := db.CreateTables(Schema);
    assert Keys(Schema)[..|Schema|] == Keys(Schema);
    tablesAfterFirst, logAfterFirst := db.tables, db.log;
    FirstClashAtStart(db.tables, Keys(Schema));
    second := db.CreateTables(Schema);
    assert Keys(Schema)[..0] == [];
    tablesAfterSecond, logAfterSecond := db.tables, db.log;
  }
}
