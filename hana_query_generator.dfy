/**
 * The HANA query generator (packages/hana/src/query-generator-typescript.internal.ts):
 * each method is a pure function from a table reference and options to SQL text.
 *
 * The collaborators the generator calls but whose bodies live in the core package
 * (escaping, quoting, index-name generation, JSON path building, the technical schema
 * names, the dialect's cascade flag and the inherited commit query) are fields of the
 * `Generator` value, so the model assumes nothing about them beyond what a lemma requires.
 *
 * Each statement's leading fixed fragments are written as one constant: the source's
 * fragments, in order, joined by the single space `joinSQLFragments` puts between them.
 */
module HanaQueryGenerator {
  import opened Wrappers
  import opened Text
  import opened Fragments

  /** The result of `extractTableDetails`: a table name and an optional schema. */
  datatype TableRef = TableRef(tableName: string, schema: Option<string>)

  /** One step of a JSON path: an array index or an object key. */
  datatype JsonPathSegment = Index(index: int) | Key(key: string)

  datatype Generator = Generator(
    escape: string -> string,                           // this.escape, for string values
    quoteTable: TableRef -> string,                     // this.quoteTable
    quoteIdentifier: (string, bool) -> string,          // this.quoteIdentifier(name, force)
    generateIndexName: (TableRef, seq<string>) -> string,
    buildJsonPath: seq<JsonPathSegment> -> string,
    technicalSchemaNames: seq<string>,                  // internals.getTechnicalSchemaNames()
    supportsDropTableCascade: bool,                     // dialect.supports.dropTable.cascade
    commitTransactionQuery: string)                     // inherited, not overridden for HANA

  /** The error `rejectInvalidOptions` throws: the method and the options it refuses. */
  datatype GeneratorError = InvalidOptions(methodName: string, rejected: set<string>)

  datatype ListSchemasOptions = ListSchemasOptions(skip: Option<seq<string>>)
  datatype ListTablesOptions = ListTablesOptions(schema: Option<string>)
  datatype DropTableOptions = DropTableOptions(cascade: Option<bool>)
  datatype ShowConstraintsOptions = ShowConstraintsOptions(
    constraintType: Option<string>, columnName: Option<string>, constraintName: Option<string>)
  /** The second argument of `removeIndexQuery`: an index name or the indexed attributes. */
  datatype IndexTarget = IndexName(name: string) | IndexAttributes(fields: seq<string>)

  /** A string option is used only when it is truthy: given and not empty. */
  predicate Present(s: Option<string>) {
    s.Some? && s.value != ""
  }

  /** `escape` yields quoted string literals: what lets an escaped value be told apart from a keyword. */
  ghost predicate EscapesToLiterals(g: Generator) {
    forall s :: StartsWith(g.escape(s), "'")
  }

  /** `rejectInvalidOptions`: refuses the received options that are not in the supported set. */
  function RejectInvalidOptions(methodName: string, supported: set<string>, received: set<string>): (r: Outcome<GeneratorError>)
    ensures r.Pass? <==> received <= supported
    ensures r.Fail? ==> r.error.methodName == methodName && r.error.rejected != {}
    ensures r.Fail? ==> r.error.rejected <= received && r.error.rejected !! supported
    ensures r.Fail? ==> r.error.rejected == received - supported
  {
    if received <= supported then Pass
    else
      SomeOptionRejected(received, supported);
      Fail(InvalidOptions(methodName, received - supported))
  }

  lemma SomeOptionRejected(received: set<string>, supported: set<string>)
    requires !(received <= supported)
    ensures received - supported != {}
  {
    var name :| name in received && name !in supported;
    assert name in received - supported;
  }

  /** The value compared with SCHEMA_NAME: the escaped schema, or the keyword CURRENT_SCHEMA. */
  function SchemaValue(g: Generator, table: TableRef): string
  {
    if Present(table.schema) then g.escape(table.schema.value) else "CURRENT_SCHEMA"
  }

  /** The schema predicate is the bare keyword exactly when no schema is given, and the escaped schema otherwise. */
  lemma SchemaValueCases(g: Generator, table: TableRef)
    requires EscapesToLiterals(g)
    ensures SchemaValue(g, table) == "CURRENT_SCHEMA" <==> !Present(table.schema)
    ensures Present(table.schema) ==> SchemaValue(g, table) == g.escape(table.schema.value)
  {
    if Present(table.schema) {
      var e := g.escape(table.schema.value);
      assert StartsWith(e, "'");
      assert e[0] != "CURRENT_SCHEMA"[0];
    }
  }

  /** The names joined inside `NOT IN (…)`: each escaped, separated by ", ". */
  function EscapedList(g: Generator, names: seq<string>): string
  {
    Separated(MapStrings(g.escape, names), ", ")
  }

  lemma EscapedListAppend(g: Generator, a: seq<string>, b: seq<string>)
    requires a != [] && b != []
    ensures EscapedList(g, a + b) == EscapedList(g, a) + ", " + EscapedList(g, b)
  {
    MapStringsAppend(g.escape, a, b);
    SeparatedAppend(MapStrings(g.escape, a), MapStrings(g.escape, b), ", ");
  }

  // ---------------------------------------------------------------- listSchemasQuery

  /** The caller's `skip` list, used only when it is an array. */
  function SkippedByCaller(options: Option<ListSchemasOptions>): seq<string>
  {
    if options.Some? && options.value.skip.Some? then options.value.skip.value else []
  }

  function SchemasToSkip(g: Generator, options: Option<ListSchemasOptions>): seq<string>
  {
    var schemasToSkip := g.technicalSchemaNames;
    if options.Some? && options.value.skip.Some? then schemasToSkip + options.value.skip.value
    else schemasToSkip
  }

  const ListSchemasSelect :=
    "SELECT SCHEMA_NAME AS \"schema\""
    + " " + "FROM SYS.SCHEMAS"
    + " " + "WHERE SCHEMA_NAME != 'SYS' AND SCHEMA_NAME != 'PUBLIC' AND SCHEMA_NAME NOT LIKE '_SYS%'"

  /** The filter that leaves out the given schemas. */
  function NotInFilter(g: Generator, names: seq<string>): string
  {
    "AND SCHEMA_NAME NOT IN (" + EscapedList(g, names) + ")"
  }

  /** The schemas left out are the technical ones followed by the caller's `skip` array, each escaped. */
  function ListSchemasQuery(g: Generator, options: Option<ListSchemasOptions>): (r: string)
    ensures r == ListSchemasSelect + " " + NotInFilter(g, g.technicalSchemaNames + SkippedByCaller(options))
  {
    var schemasToSkip := SchemasToSkip(g, options);
    assert schemasToSkip == g.technicalSchemaNames + SkippedByCaller(options);
    JoinSql2(ListSchemasSelect, NotInFilter(g, schemasToSkip));
    JoinSql([ListSchemasSelect, NotInFilter(g, schemasToSkip)])
  }

  /** With both lists non-empty, the technical names come first and the caller's follow after ", ". */
  lemma ListSchemasSkipOrder(g: Generator, skip: seq<string>)
    requires g.technicalSchemaNames != [] && skip != []
    ensures ListSchemasQuery(g, Some(ListSchemasOptions(Some(skip))))
         == ListSchemasSelect + " " + ("AND SCHEMA_NAME NOT IN ("
            + (EscapedList(g, g.technicalSchemaNames) + ", " + EscapedList(g, skip)) + ")")
  {
    EscapedListAppend(g, g.technicalSchemaNames, skip);
    var filter := NotInFilter(g, g.technicalSchemaNames + skip);
    assert filter == "AND SCHEMA_NAME NOT IN ("
      + (EscapedList(g, g.technicalSchemaNames) + ", " + EscapedList(g, skip)) + ")";
  }

  /** Without a `skip` array exactly the technical schemas are excluded, with the filter listTablesQuery uses. */
  lemma ListSchemasWithoutSkip(g: Generator, options: Option<ListSchemasOptions>)
    requires options.None? || options.value.skip.None?
    ensures ListSchemasQuery(g, options) == ListSchemasSelect + " " + NotInFilter(g, g.technicalSchemaNames)
    ensures ListTablesQuery(g, None) == ListTablesSelect + " " + NotInFilter(g, g.technicalSchemaNames)
                                        + " " + "ORDER BY SCHEMA_NAME, TABLE_NAME"
  {
    assert g.technicalSchemaNames + SkippedByCaller(options) == g.technicalSchemaNames;
  }

  // ---------------------------------------------------------------- describeTableQuery

  const DescribeTableSelect :=
    "SELECT"
    + " " + "SYS.TABLE_COLUMNS.COLUMN_NAME AS \"ColumnName\","
    + " " + "SYS.TABLE_COLUMNS.TABLE_NAME AS \"TableName\","
    + " " + "SYS.TABLE_COLUMNS.SCHEMA_NAME AS \"SchemaName\","
    + " " + "SYS.TABLE_COLUMNS.DATA_TYPE_NAME AS \"DataTypeName\","
    + " " + "SYS.TABLE_COLUMNS.LENGTH AS \"Length\","
    + " " + "SYS.TABLE_COLUMNS.SCALE AS \"Scale\","
    + " " + "SYS.TABLE_COLUMNS.IS_NULLABLE AS \"IsNullable\","
    + " " + "SYS.TABLE_COLUMNS.DEFAULT_VALUE AS \"DefaultValue\","
    + " " + "SYS.TABLE_COLUMNS.GENERATION_TYPE AS \"GenerationType\","
    + " " + "pk.IS_PRIMARY_KEY AS \"IsPrimaryKey\","
    + " " + "SYS.TABLE_COLUMNS.COMMENTS AS \"Comments\""
    + " " + "FROM SYS.TABLE_COLUMNS"
    + " " + "LEFT JOIN"
    + " " + "(SELECT SCHEMA_NAME, TABLE_NAME, COLUMN_NAME, IS_PRIMARY_KEY"
    + " " + "FROM SYS.CONSTRAINTS WHERE IS_PRIMARY_KEY = 'TRUE') pk"
    + " " + "ON SYS.TABLE_COLUMNS.SCHEMA_NAME = pk.SCHEMA_NAME"
    + " " + "AND SYS.TABLE_COLUMNS.TABLE_NAME = pk.TABLE_NAME"
    + " " + "AND SYS.TABLE_COLUMNS.COLUMN_NAME = pk.COLUMN_NAME"

  /** The column catalog of one table: filtered by its escaped name, then by its schema predicate. */
  function DescribeTableQuery(g: Generator, table: TableRef): (r: string)
    ensures r == DescribeTableSelect
                 + " " + ("WHERE SYS.TABLE_COLUMNS.TABLE_NAME = " + g.escape(table.tableName))
                 + " " + ("AND SYS.TABLE_COLUMNS.SCHEMA_NAME = " + SchemaValue(g, table))
  {
    var byName := "WHERE SYS.TABLE_COLUMNS.TABLE_NAME = " + g.escape(table.tableName);
    var bySchema := "AND SYS.TABLE_COLUMNS.SCHEMA_NAME = " + SchemaValue(g, table);
    JoinSql3(DescribeTableSelect, byName, bySchema);
    JoinSql([DescribeTableSelect, byName, bySchema])
  }

  // ---------------------------------------------------------------- listTablesQuery

  const ListTablesSelect :=
    "SELECT TABLE_NAME AS \"tableName\","
    + " " + "SCHEMA_NAME AS \"schema\""
    + " " + "FROM SYS.TABLES"
    + " " + "WHERE SCHEMA_NAME != 'SYS' AND SCHEMA_NAME NOT LIKE '_SYS%'"

  function WantsSchema(options: Option<ListTablesOptions>): bool
  {
    options.Some? && Present(options.value.schema)
  }

  /**
   * Tables of exactly the requested schema when one is given, otherwise of every
   * non-technical schema; always ordered by schema, then table name.
   */
  function ListTablesQuery(g: Generator, options: Option<ListTablesOptions>): (r: string)
    ensures WantsSchema(options) ==>
      r == ListTablesSelect + " " + ("AND SCHEMA_NAME = " + g.escape(options.value.schema.value))
           + " " + "ORDER BY SCHEMA_NAME, TABLE_NAME"
    ensures !WantsSchema(options) ==>
      r == ListTablesSelect + " " + NotInFilter(g, g.technicalSchemaNames) + " " + "ORDER BY SCHEMA_NAME, TABLE_NAME"
    ensures EndsWith(r, "ORDER BY SCHEMA_NAME, TABLE_NAME")
  {
    var schemaFilter := if WantsSchema(options)
      then "AND SCHEMA_NAME = " + g.escape(options.value.schema.value)
      else NotInFilter(g, g.technicalSchemaNames);
    JoinSql3(ListTablesSelect, schemaFilter, "ORDER BY SCHEMA_NAME, TABLE_NAME");
    EndsWithAppend(ListTablesSelect + " " + schemaFilter + " ", "ORDER BY SCHEMA_NAME, TABLE_NAME");
    JoinSql([ListTablesSelect, schemaFilter, "ORDER BY SCHEMA_NAME, TABLE_NAME"])
  }

  // ---------------------------------------------------------------- dropTableQuery

  /** The options `dropTableQuery` accepts on this dialect: `cascade` exactly when the dialect supports it. */
  function DropTableSupportedOptions(g: Generator): (r: set<string>)
    ensures "cascade" in r <==> g.supportsDropTableCascade
    ensures r <= {"cascade"}
  {
    var supported: set<string> := {};
    if g.supportsDropTableCascade then supported + {"cascade"} else supported
  }

  /** The option names a caller set. */
  function DropTableReceived(options: DropTableOptions): set<string>
  {
    if options.cascade.Some? then {"cascade"} else {}
  }

  function Cascades(options: Option<DropTableOptions>): bool
  {
    options.Some? && options.value.cascade == Some(true)
  }

  /** The inner statement: DROP TABLE of the quoted table, with CASCADE exactly when requested. */
  function DropStatement(g: Generator, table: TableRef, cascade: bool): (r: string)
    ensures g.quoteTable(table) != "" ==>
      r == "DROP TABLE" + " " + g.quoteTable(table) + (if cascade then " CASCADE" else "")
  {
    var fragments := ["DROP TABLE", g.quoteTable(table), if cascade then "CASCADE" else ""];
    JoinSqlSnoc(["DROP TABLE", g.quoteTable(table)], fragments[2]);
    assert ["DROP TABLE", g.quoteTable(table)] + [fragments[2]] == fragments;
    if g.quoteTable(table) != "" then
      JoinSql2("DROP TABLE", g.quoteTable(table));
      GlueSpaced("DROP TABLE" + " " + g.quoteTable(table), fragments[2]);
      JoinSql(fragments)
    else
      JoinSql(fragments)
  }

  /** CASCADE is appended exactly when asked for: the two inner statements always differ. */
  lemma DropStatementCascade(g: Generator, table: TableRef, cascade: bool, other: bool)
    requires g.quoteTable(table) != ""
    ensures DropStatement(g, table, cascade) == DropStatement(g, table, other) <==> cascade == other
  {
    if cascade != other {
      assert |DropStatement(g, table, true)| == |DropStatement(g, table, false)| + 8;
    }
  }

  const DropTableDeclare :=
    "DO BEGIN"
    + " " + "DECLARE table_count INTEGER;"
    + " " + "SELECT COUNT(*) INTO table_count FROM TABLES"

  /**
   * The anonymous block: count the table in the catalog, then execute the DROP only
   * inside `IF :table_count > 0 THEN … END IF;`.
   */
  function DropTableBlock(g: Generator, table: TableRef, cascade: bool): (r: string)
    ensures r == DropTableDeclare
                 + " " + ("WHERE TABLE_NAME = " + g.escape(table.tableName) + " AND SCHEMA_NAME = " + SchemaValue(g, table) + ";")
                 + " " + "IF :table_count > 0 THEN"
                 + " " + ("  EXEC '" + DropStatement(g, table, cascade) + "';")
                 + " " + "END IF;"
                 + " " + "END;"
  {
    var count := "WHERE TABLE_NAME = " + g.escape(table.tableName) + " AND SCHEMA_NAME = " + SchemaValue(g, table) + ";";
    var exec := "  EXEC '" + DropStatement(g, table, cascade) + "';";
    JoinSql6(DropTableDeclare, count, "IF :table_count > 0 THEN", exec, "END IF;", "END;");
    JoinSql([DropTableDeclare, count, "IF :table_count > 0 THEN", exec, "END IF;", "END;"])
  }

  /**
   * Options are checked first: `cascade` is refused unless the dialect supports it; then the
   * guarded block, with CASCADE exactly when `cascade: true` was passed.
   */
  function DropTableQuery(g: Generator, table: TableRef, options: Option<DropTableOptions>): (r: Result<string, GeneratorError>)
    ensures r.Failure? <==> options.Some? && options.value.cascade.Some? && !g.supportsDropTableCascade
    ensures r.Failure? ==> r.error == InvalidOptions("dropTableQuery", {"cascade"})
    ensures r.Success? ==> r.value == DropTableBlock(g, table, Cascades(options))
  {
    var check := if options.Some?
      then RejectInvalidOptions("dropTableQuery", DropTableSupportedOptions(g), DropTableReceived(options.value))
      else Pass;
    if check.Fail? then
      assert check.error.rejected == {"cascade"};
      Failure(check.error)
    else
      Success(DropTableBlock(g, table, Cascades(options)))
  }

  /** Validation comes before any SQL: whether the call is refused does not depend on the table. */
  lemma DropTableValidatesFirst(g: Generator, table: TableRef, other: TableRef, options: Option<DropTableOptions>)
    ensures DropTableQuery(g, table, options).Failure? <==> DropTableQuery(g, other, options).Failure?
    ensures DropTableQuery(g, table, options).Failure? ==> DropTableQuery(g, table, options) == DropTableQuery(g, other, options)
  {
  }

  // ---------------------------------------------------------------- showConstraintsQuery

  const UnsupportedConstraints := "unsupported method showConstraintsQuery, type not FOREIGN KEY"

  const ForeignKeysSelect :=
    "SELECT SCHEMA_NAME AS \"constraintSchema\","
    + " " + "CONSTRAINT_NAME AS \"constraintName\","
    + " " + "'FOREIGN KEY' AS \"constraintType\","
    + " " + "SCHEMA_NAME AS \"tableSchema\","
    + " " + "TABLE_NAME AS \"tableName\","
    + " " + "COLUMN_NAME AS \"columnNames\","
    + " " + "REFERENCED_SCHEMA_NAME AS \"referencedTableSchema\","
    + " " + "REFERENCED_TABLE_NAME AS \"referencedTableName\","
    + " " + "REFERENCED_COLUMN_NAME AS \"referencedColumnNames\","
    + " " + "DELETE_RULE AS \"deleteAction\","
    + " " + "UPDATE_RULE AS \"updateAction\""
    + " " + "FROM SYS.REFERENTIAL_CONSTRAINTS"

  function AsksForeignKeys(options: Option<ShowConstraintsOptions>): bool
  {
    options.Some? && options.value.constraintType == Some("FOREIGN KEY")
  }

  /** An optional equality filter: empty unless the option is given. */
  function OptionalFilter(g: Generator, column: string, value: Option<string>): string
  {
    if Present(value) then "AND " + column + " = " + g.escape(value.value) else ""
  }

  /**
   * Only foreign keys are supported; any other request gets a fixed message instead of SQL.
   * The column and constraint-name filters appear only when those options are given.
   */
  function ShowConstraintsQuery(g: Generator, table: TableRef, options: Option<ShowConstraintsOptions>): (r: string)
    ensures !AsksForeignKeys(options) ==> r == UnsupportedConstraints
    ensures AsksForeignKeys(options) ==>
      r == ForeignKeysSelect
           + " " + ("WHERE TABLE_NAME = " + g.escape(table.tableName))
           + " " + ("AND SCHEMA_NAME = " + SchemaValue(g, table))
           + Spaced(OptionalFilter(g, "COLUMN_NAME", options.value.columnName))
           + Spaced(OptionalFilter(g, "CONSTRAINT_NAME", options.value.constraintName))
           + " " + "ORDER BY CONSTRAINT_NAME, POSITION"
  {
    if AsksForeignKeys(options) then
      var byName := "WHERE TABLE_NAME = " + g.escape(table.tableName);
      var bySchema := "AND SCHEMA_NAME = " + SchemaValue(g, table);
      var byColumn := OptionalFilter(g, "COLUMN_NAME", options.value.columnName);
      var byConstraint := OptionalFilter(g, "CONSTRAINT_NAME", options.value.constraintName);
      JoinSqlWithOptional(ForeignKeysSelect, byName, bySchema, byColumn, byConstraint, "ORDER BY CONSTRAINT_NAME, POSITION");
      JoinSql([ForeignKeysSelect, byName, bySchema, byColumn, byConstraint, "ORDER BY CONSTRAINT_NAME, POSITION"])
    else
      UnsupportedConstraints
  }

  /** SQL comes back exactly when foreign keys are asked for: the fixed message is never a query. */
  lemma ShowConstraintsSupportedIff(g: Generator, table: TableRef, options: Option<ShowConstraintsOptions>)
    ensures ShowConstraintsQuery(g, table, options) == UnsupportedConstraints <==> !AsksForeignKeys(options)
  {
    if AsksForeignKeys(options) {
      assert |ShowConstraintsQuery(g, table, options)| > |ForeignKeysSelect| > |UnsupportedConstraints|;
    }
  }

  // ---------------------------------------------------------------- showIndexesQuery

  const IndexesSelect :=
    "SELECT"
    + " " + "SYS.INDEXES.SCHEMA_NAME AS \"schemaName\","
    + " " + "SYS.INDEXES.TABLE_NAME AS \"tableName\","
    + " " + "SYS.INDEXES.INDEX_NAME AS \"name\","
    + " " + "SYS.INDEXES.INDEX_TYPE AS \"type\","
    + " " + "SYS.INDEXES.CONSTRAINT AS \"constraint\","
    + " " + "SYS.INDEX_COLUMNS.COLUMN_NAME AS \"columnName\","
    + " " + "SYS.INDEX_COLUMNS.POSITION AS \"position\","
    + " " + "SYS.INDEX_COLUMNS.ASCENDING_ORDER AS \"ascendingOrder\""
    + " " + "FROM SYS.INDEXES"
    + " " + "INNER JOIN SYS.INDEX_COLUMNS"
    + " " + "ON SYS.INDEXES.SCHEMA_NAME = SYS.INDEX_COLUMNS.SCHEMA_NAME"
    + " " + "AND SYS.INDEXES.TABLE_NAME = SYS.INDEX_COLUMNS.TABLE_NAME"
    + " " + "AND SYS.INDEXES.INDEX_NAME = SYS.INDEX_COLUMNS.INDEX_NAME"

  /** The indexes of one table: filtered by its schema predicate, then by its escaped name. */
  function ShowIndexesQuery(g: Generator, table: TableRef): (r: string)
    ensures r == IndexesSelect
                 + " " + ("WHERE SYS.INDEXES.SCHEMA_NAME = " + SchemaValue(g, table))
                 + " " + ("AND SYS.INDEXES.TABLE_NAME = " + g.escape(table.tableName))
  {
    var bySchema := "WHERE SYS.INDEXES.SCHEMA_NAME = " + SchemaValue(g, table);
    var byName := "AND SYS.INDEXES.TABLE_NAME = " + g.escape(table.tableName);
    JoinSql3(IndexesSelect, bySchema, byName);
    JoinSql([IndexesSelect, bySchema, byName])
  }

  // ---------------------------------------------------------------- the remaining methods

  /** `SET FOREIGN_KEY_CHECKS=1` to enable, `=0` to disable. */
  function ToggleForeignKeyChecksQuery(enable: bool): (r: string)
    ensures StartsWith(r, "SET FOREIGN_KEY_CHECKS=") && |r| == |"SET FOREIGN_KEY_CHECKS="| + 1
    ensures r[|r| - 1] == '1' <==> enable
    ensures r[|r| - 1] == '0' <==> !enable
  {
    var r := "SET FOREIGN_KEY_CHECKS=" + (if enable then "1" else "0");
    StartsWithAppend("SET FOREIGN_KEY_CHECKS=", if enable then "1" else "0");
    r
  }

  /** The options `removeIndexQuery` supports: none. */
  const RemoveIndexSupportedOptions: set<string> := {}

  /** The index to drop: the name as given, or the one derived from the table and the attributes. */
  function IndexNameOf(g: Generator, table: TableRef, target: IndexTarget): string
  {
    match target
    case IndexAttributes(fields) => g.generateIndexName(table, fields)
    case IndexName(name) => name
  }

  /** Any supplied option is refused; otherwise DROP INDEX of the quoted index name. */
  function RemoveIndexQuery(g: Generator, table: TableRef, target: IndexTarget, options: Option<set<string>>): (r: Result<string, GeneratorError>)
    ensures r.Failure? <==> options.Some? && options.value != {}
    ensures r.Failure? ==> r.error == InvalidOptions("removeIndexQuery", options.value)
    ensures r.Success? ==> r.value == "DROP INDEX " + g.quoteIdentifier(IndexNameOf(g, table, target), false)
    ensures r.Success? && target.IndexName? ==> r.value == "DROP INDEX " + g.quoteIdentifier(target.name, false)
  {
    var check := if options.Some?
      then RejectInvalidOptions("removeIndexQuery", RemoveIndexSupportedOptions, options.value)
      else Pass;
    if check.Fail? then Failure(check.error)
    else Success("DROP INDEX " + g.quoteIdentifier(IndexNameOf(g, table, target), false))
  }

  /** Removing by attributes drops the same index as removing by the name generated from them. */
  lemma RemoveIndexByAttributes(g: Generator, table: TableRef, fields: seq<string>, options: Option<set<string>>)
    ensures RemoveIndexQuery(g, table, IndexAttributes(fields), options)
         == RemoveIndexQuery(g, table, IndexName(g.generateIndexName(table, fields)), options)
  {
  }

  /** `json_extract(expr,<escaped path>)`, wrapped in `json_unquote(…)` when asked to unquote. */
  function JsonPathExtractionQuery(g: Generator, sqlExpression: string, path: seq<JsonPathSegment>, unquote: bool): (r: string)
    ensures unquote ==> r == "json_unquote(" + JsonExtract(g, sqlExpression, path) + ")"
    ensures !unquote ==> r == JsonExtract(g, sqlExpression, path)
  {
    var extractQuery := JsonExtract(g, sqlExpression, path);
    if unquote then "json_unquote(" + extractQuery + ")" else extractQuery
  }

  function JsonExtract(g: Generator, sqlExpression: string, path: seq<JsonPathSegment>): string
  {
    "json_extract(" + sqlExpression + "," + g.escape(g.buildJsonPath(path)) + ")"
  }

  /** The result is wrapped in `json_unquote(` exactly when unquoting was asked for. */
  lemma JsonUnquoteIff(g: Generator, sqlExpression: string, path: seq<JsonPathSegment>, unquote: bool)
    ensures StartsWith(JsonPathExtractionQuery(g, sqlExpression, path, unquote), "json_unquote(") <==> unquote
  {
    var e := JsonExtract(g, sqlExpression, path);
    var r := JsonPathExtractionQuery(g, sqlExpression, path, unquote);
    if unquote {
      StartsWithAppend("json_unquote(", e + ")");
      assert r == "json_unquote(" + (e + ")");
    } else {
      assert e == "json_extract(" + (sqlExpression + "," + g.escape(g.buildJsonPath(path)) + ")");
      assert r[5] == 'e';
    }
  }

  const TableExistsSelect := "SELECT TABLE_NAME FROM \"SYS\".\"TABLES\" WHERE SCHEMA_NAME = "

  /** Whether the table exists in the requested schema (or the current one). */
  function TableExistsQuery(g: Generator, table: TableRef): (r: string)
    ensures !Present(table.schema)
            ==> r == TableExistsSelect + "CURRENT_SCHEMA" + " AND TABLE_NAME = " + g.escape(table.tableName)
    ensures Present(table.schema)
            ==> r == TableExistsSelect + g.escape(table.schema.value) + " AND TABLE_NAME = " + g.escape(table.tableName)
  {
    TableExistsSelect + SchemaValue(g, table) + " AND TABLE_NAME = " + g.escape(table.tableName)
  }

  /** The savepoint every transaction query of this generator names, whatever the options. */
  const TransactionId := "test_transaction"

  function Savepoint(g: Generator): string
  {
    g.quoteIdentifier(TransactionId, true)
  }

  /** Starting always creates the savepoint "test_transaction"; the options are ignored. */
  function StartTransactionQuery<O>(g: Generator, options: O): (r: string)
    ensures r == "SAVEPOINT " + g.quoteIdentifier("test_transaction", true) + ";"
  {
    "SAVEPOINT " + Savepoint(g) + ";"
  }

  /** The options passed to startTransactionQuery never change the text. */
  lemma StartTransactionIgnoresOptions<O>(g: Generator, options: O, other: O)
    ensures StartTransactionQuery(g, options) == StartTransactionQuery(g, other)
  {
  }

  /** Rolling back always targets the savepoint "test_transaction"; the text is never empty. */
  function RollbackTransactionQuery(g: Generator): (r: string)
    ensures r == "ROLLBACK TO SAVEPOINT " + g.quoteIdentifier("test_transaction", true) + ";"
    ensures r != ""
  {
    "ROLLBACK TO SAVEPOINT " + Savepoint(g) + ";"
  }

  /** The rollback targets exactly the savepoint the start query creates. */
  lemma RollbackMatchesStart<O>(g: Generator, options: O)
    ensures RollbackTransactionQuery(g) == "ROLLBACK TO " + StartTransactionQuery(g, options)
  {
  }
}
