# Sequelize HANA dialect: query generator, insert binds and transaction controller

This project models three parts of the SAP HANA dialect of Sequelize in Dafny and proves
properties of them.

- **Query generator** (`hana_query_generator.dfy`, module `HanaQueryGenerator`). The
  introspection and DDL queries are pure functions from a table reference and options to
  SQL text. Covered: listing schemas and tables, describing a table, dropping a table,
  showing constraints and indexes, removing an index, toggling foreign-key checks, JSON
  path extraction, table existence, and the savepoint start and rollback queries.
  `joinSQLFragments` is `Fragments.JoinSql` (`fragments.dfy`): it drops empty fragments and
  joins the rest with one space. The collaborators whose bodies live in the core package
  are fields of a `Generator` value, so the proofs rely on nothing about them beyond what
  each lemma states. These are escaping, quoting, index-name generation, JSON-path
  building, the technical schema names, the dialect's `dropTable.cascade` flag and the
  inherited commit query.
- **Insert and bind merging** (`insert_query.dfy`, `insert_scenarios.dfy`). This part is
  defined only by the expectations in `insert.test.ts`. A row is an ordered list of
  columns. Each bound value gets the next `$sequelize_N` placeholder and raw SQL is copied
  as written. Caller binds using the reserved `sequelize_` prefix are refused. An array
  bind becomes the keys `1`, `2`, …, and the caller's binds are merged with the generated
  ones. The model covers the default statement, a statement with a RETURNING clause and
  the HANA anonymous procedure that returns the identity value. Each of the four test cases
  is proved as concrete lemmas: its bind map, its default SQL and its HANA procedure, or
  its refusal.
- **Transaction controller** (`hana_transactions.dfy`). Class `HanaQueryInterface` holds the
  log of statements sent to `queryRaw`, and class `Connection` holds the autocommit flag.
  Start, commit and rollback are methods. Each is proved to follow the value-level step
  function `TransactionSteps.Step`, and properties of whole call sequences are proved about
  `TransactionSteps.Run`.

The transaction model follows the code as written:

- start sends no SQL, because the `queryRaw` call is commented out;
- rollback always sends the literal `ROLLBACK`, also for a savepoint;
- no transaction state is marked;
- a failed commit or rollback leaves autocommit as it was (off after a start).

Scenario lemmas state expected SQL as concatenations of their pieces. For example,
`"INSERT INTO " + Brackets("Users") + …` is the test's
`INSERT INTO [Users] ([firstName]) VALUES ($sequelize_1);`.

## Model

| member | source | states |
|---|---|---|
| HanaQueryGenerator.RejectInvalidOptions | packages/hana/src/query-generator-typescript.internal.ts:117-125 | passes iff every supplied option is supported; a failure names the method and exactly the supplied options that are not supported, a non-empty set |
| HanaQueryGenerator.SchemaValueCases | packages/hana/src/query-generator-typescript.internal.ts:91-92 | the schema predicate is the bare CURRENT_SCHEMA exactly when no (truthy) schema is given, and otherwise the escaped schema |
| HanaQueryGenerator.EscapedListAppend | packages/hana/src/query-generator-typescript.internal.ts:64 | escaping and joining with ", " distributes over concatenating the name lists |
| HanaQueryGenerator.ListSchemasQuery | packages/hana/src/query-generator-typescript.internal.ts:53-66 | the excluded schemas are the technical names followed by the caller's skip array (nothing added without one), inside the fixed SYS/PUBLIC/_SYS filter |
| HanaQueryGenerator.ListSchemasSkipOrder | packages/hana/src/query-generator-typescript.internal.ts:54-64 | with both lists non-empty, NOT IN lists the escaped technical names, then ", ", then the escaped skip names |
| HanaQueryGenerator.ListSchemasWithoutSkip | packages/hana/src/query-generator-typescript.internal.ts:54-64 | without a skip array exactly the technical schemas are excluded, with the same filter listTablesQuery uses without a schema |
| HanaQueryGenerator.DescribeTableQuery | packages/hana/src/query-generator-typescript.internal.ts:68-94 | the column catalog joined with primary keys, filtered by the escaped table name and then the schema predicate |
| HanaQueryGenerator.ListTablesQuery | packages/hana/src/query-generator-typescript.internal.ts:96-108 | filters to exactly the escaped schema when one is given, otherwise excludes the technical schemas; always ends with ORDER BY SCHEMA_NAME, TABLE_NAME |
| HanaQueryGenerator.DropTableSupportedOptions | packages/hana/src/query-generator-typescript.internal.ts:111-115 | cascade is a supported option iff the dialect supports dropping with cascade, and nothing else is |
| HanaQueryGenerator.DropStatement | packages/hana/src/query-generator-typescript.internal.ts:127-131 | DROP TABLE, the quoted table, then CASCADE exactly when requested |
| HanaQueryGenerator.DropStatementCascade | packages/hana/src/query-generator-typescript.internal.ts:130 | two inner statements for the same table are equal iff their cascade flags are |
| HanaQueryGenerator.DropTableBlock | packages/hana/src/query-generator-typescript.internal.ts:135-144 | a DO BEGIN block counts the table in the catalog (escaped name, schema predicate) and executes the drop only inside IF :table_count > 0 THEN … END IF; END; |
| HanaQueryGenerator.DropTableQuery | packages/hana/src/query-generator-typescript.internal.ts:110-145 | refused (naming cascade) iff cascade is given on a dialect without support; otherwise the guarded block, with CASCADE iff cascade: true |
| HanaQueryGenerator.DropTableValidatesFirst | packages/hana/src/query-generator-typescript.internal.ts:117-125 | whether options are refused, and the error, do not depend on the table |
| HanaQueryGenerator.ShowConstraintsQuery | packages/hana/src/query-generator-typescript.internal.ts:147-173 | the fixed unsupported text unless the type is FOREIGN KEY; otherwise the referential-constraint query whose COLUMN_NAME and CONSTRAINT_NAME filters appear only when those options are given |
| HanaQueryGenerator.ShowConstraintsSupportedIff | packages/hana/src/query-generator-typescript.internal.ts:150-172 | the result is the unsupported text iff foreign keys were not asked for |
| HanaQueryGenerator.ShowIndexesQuery | packages/hana/src/query-generator-typescript.internal.ts:175-199 | the index catalog joined with its columns, filtered by the schema predicate and then the escaped table name |
| HanaQueryGenerator.ToggleForeignKeyChecksQuery | packages/hana/src/query-generator-typescript.internal.ts:201-203 | SET FOREIGN_KEY_CHECKS= followed by one character, which is 1 iff enabling and 0 iff disabling |
| HanaQueryGenerator.RemoveIndexQuery | packages/hana/src/query-generator-typescript.internal.ts:205-229 | refused iff any option is supplied (none is supported); otherwise DROP INDEX of the quoted index name, the given name verbatim when a name is passed |
| HanaQueryGenerator.RemoveIndexByAttributes | packages/hana/src/query-generator-typescript.internal.ts:220-226 | removing by attributes is removing by the name generated from the table and those attributes |
| HanaQueryGenerator.JsonPathExtractionQuery | packages/hana/src/query-generator-typescript.internal.ts:231-238 | json_extract of the expression and the escaped path, wrapped in json_unquote(…) when unquoting |
| HanaQueryGenerator.JsonUnquoteIff | packages/hana/src/query-generator-typescript.internal.ts:233-235 | the result starts with json_unquote( iff unquote is set |
| HanaQueryGenerator.TableExistsQuery | packages/hana/src/query-generator-typescript.internal.ts:249-253 | selects from SYS.TABLES where SCHEMA_NAME is CURRENT_SCHEMA when no (truthy) schema is given and the escaped schema otherwise, and TABLE_NAME is the escaped table name |
| HanaQueryGenerator.StartTransactionQuery | packages/hana/src/query-generator-typescript.internal.ts:255-259 | SAVEPOINT of the force-quoted identifier test_transaction |
| HanaQueryGenerator.StartTransactionIgnoresOptions | packages/hana/src/query-generator-typescript.internal.ts:255-258 | the start query is the same whatever options are passed |
| HanaQueryGenerator.RollbackTransactionQuery | packages/hana/src/query-generator-typescript.internal.ts:283-287 | ROLLBACK TO SAVEPOINT of the force-quoted test_transaction; never empty |
| HanaQueryGenerator.RollbackMatchesStart | packages/hana/src/query-generator-typescript.internal.ts:283-287 | the rollback text is ROLLBACK TO followed by the start text: both name the same savepoint |
| InsertQuery.GeneratedName | packages/core/test/unit/query-interface/insert.test.ts:61 | every generated bind name starts with the reserved prefix sequelize_ |
| InsertQuery.GeneratedNameInjective | packages/core/test/unit/query-interface/insert.test.ts:72-74 | different counters give different bind names |
| InsertQuery.PlaceholdersDistinct | packages/core/test/unit/query-interface/insert.test.ts:119-120 | two different bound columns never share a placeholder |
| InsertQuery.Bindify | packages/core/test/unit/query-interface/insert.test.ts:106-120 | walking the columns in order gives each column its placeholder (raw SQL verbatim, otherwise $sequelize_N counted from 1 over bound columns only) and generates exactly sequelize_1 … sequelize_count |
| InsertQuery.BindifyValue | packages/core/test/unit/query-interface/insert.test.ts:129-132 | each bound column's value is stored under its own generated name |
| InsertQuery.PositionalLookup | packages/core/test/unit/query-interface/insert.test.ts:147-166 | the i-th array bind is found under the decimal key i + 1 |
| InsertQuery.PositionalKeys | packages/core/test/unit/query-interface/insert.test.ts:163-166 | the keys of an array bind are exactly 1 … n |
| InsertQuery.PositionalNeverReserved | packages/core/test/unit/query-interface/insert.test.ts:135-167 | an array bind never trips the reserved-prefix check |
| InsertQuery.CastFor | packages/core/test/unit/query-interface/insert.test.ts:29-35 | TO_INTEGER iff the identity value lies in [-2^31, 2^31), TO_BIGINT otherwise |
| InsertQuery.RangeConditionInjective | packages/core/test/unit/query-interface/insert.test.ts:29 | the text of a range test determines both of its spelled bounds |
| InsertQuery.BoundsAreInt32 | packages/core/test/unit/query-interface/insert.test.ts:29 | the bounds the procedure spells, -2147483648 and 2147483647, read as decimal integers are the signed 32-bit minimum and maximum |
| InsertQuery.SelectedBranchCast | packages/core/test/unit/query-interface/insert.test.ts:28-35 | the branch the procedure's IF takes, with its bounds read off the condition's text, converts as CastFor says (TO_INTEGER iff the value lies in [-2^31, 2^31)) and aliases the value as the primary key |
| InsertQuery.Insert | packages/core/test/unit/query-interface/insert.test.ts:40-167 | refused with the exact reserved-prefix message iff a caller bind starts with sequelize_; otherwise the statement over the columns in order with their placeholders, and binds holding exactly the caller's entries (unchanged) and the generated ones (each column's value) |
| InsertQuery.HanaForm | packages/core/test/unit/query-interface/insert.test.ts:23-37 | the HANA statement is the procedure whose parameters are IN <column> NVARCHAR(5000) => <placeholder> in column order, around an insert that reads :<column> |
| InsertQuery.ReplacementsIgnored | packages/core/test/unit/query-interface/insert.test.ts:51-56 | outside raw SQL no replacement is substituted: the result does not depend on replacements (substitution inside raw SQL is not modelled) |
| InsertQuery.ReturningVerbatim | packages/core/test/unit/query-interface/insert.test.ts:51-63 | a returning entry is emitted as a quoted identifier, as written |
| InsertScenarios.ZoePlaceholders | packages/core/test/unit/query-interface/insert.test.ts:47-49 | the single bound column gets $sequelize_1 |
| InsertScenarios.GeneratedPlaceholderBinds | packages/core/test/unit/query-interface/insert.test.ts:72-74 | the bind map is exactly {sequelize_1: 'Zoe'} |
| InsertScenarios.GeneratedPlaceholderSql | packages/core/test/unit/query-interface/insert.test.ts:61 | INSERT INTO [Users] ([firstName]) VALUES ($sequelize_1); |
| InsertScenarios.ReturningNotReplaced | packages/core/test/unit/query-interface/insert.test.ts:63 | INSERT INTO "Users" ("firstName") VALUES ($sequelize_1) RETURNING ":data"; although replacement data exists |
| InsertScenarios.GeneratedPlaceholderHana | packages/core/test/unit/query-interface/insert.test.ts:67-70 | the HANA form of the first case is the procedure over its insert and parameter list with primary key id |
| InsertScenarios.GeneratedPlaceholderHanaParts | packages/core/test/unit/query-interface/insert.test.ts:68-69 | the procedure's insert reads :firstName and its one parameter is bound to $sequelize_1 |
| InsertScenarios.ReservedPrefixRejected | packages/core/test/unit/query-interface/insert.test.ts:77-97 | bind sequelize_test makes the insert fail with the reserved-prefix message |
| InsertScenarios.JohnDoePlaceholders | packages/core/test/unit/query-interface/insert.test.ts:106-108 | the raw $firstName is kept and only lastName takes a generated name, $sequelize_1 |
| InsertScenarios.ObjectBindsMerged | packages/core/test/unit/query-interface/insert.test.ts:129-132 | the merged map is exactly {firstName: 'John', sequelize_1: 'Doe'} |
| InsertScenarios.ObjectBindsSql | packages/core/test/unit/query-interface/insert.test.ts:120 | INSERT INTO [Users] ([firstName],[lastName]) VALUES ($firstName,$sequelize_1); |
| InsertScenarios.ObjectBindsHana | packages/core/test/unit/query-interface/insert.test.ts:123-126 | the HANA form of the object-bind case is the procedure over its insert and parameters |
| InsertScenarios.ObjectBindsHanaParts | packages/core/test/unit/query-interface/insert.test.ts:124-125 | the insert reads :firstName,:lastName and the parameters bind them to $firstName and $sequelize_1 in column order |
| InsertScenarios.ArrayColumnsBinding | packages/core/test/unit/query-interface/insert.test.ts:142-147 | one bound column, and ['John'] becomes {1: 'John'} |
| InsertScenarios.ArrayBindsMerged | packages/core/test/unit/query-interface/insert.test.ts:163-166 | the merged map is exactly {1: 'John', sequelize_1: 'Doe'} |
| InsertScenarios.ArrayPlaceholders | packages/core/test/unit/query-interface/insert.test.ts:142-145 | the raw $1 is kept and only lastName takes a generated name, $sequelize_1 |
| InsertScenarios.ArrayBindsSql | packages/core/test/unit/query-interface/insert.test.ts:154 | INSERT INTO [Users] ([firstName],[lastName]) VALUES ($1,$sequelize_1); |
| InsertScenarios.ArrayBindsHana | packages/core/test/unit/query-interface/insert.test.ts:157-160 | the HANA form of the array-bind case is the procedure over the object-bind case's insert and parameters bound to $1 and $sequelize_1 |
| InsertScenarios.ArrayBindsHanaParts | packages/core/test/unit/query-interface/insert.test.ts:159 | the parameters read IN firstName NVARCHAR(5000) => $1, IN lastName NVARCHAR(5000) => $sequelize_1 |
| TransactionSteps.RollbackStatement | packages/hana/src/query-interface-typescript.internal.ts:86-89 | the statement sent on rollback is always the literal ROLLBACK |
| TransactionSteps.StepWithoutTransaction | packages/hana/src/query-interface-typescript.internal.ts:22-77 | without a transaction object a call fails with its own message and changes neither autocommit nor the log |
| TransactionSteps.MissingTransactionMessagesDistinct | packages/hana/src/query-interface-typescript.internal.ts:22-77 | start, commit and rollback report different messages |
| TransactionSteps.StartTurnsAutoCommitOff | packages/hana/src/query-interface-typescript.internal.ts:32-35 | start issues nothing and leaves autocommit off |
| TransactionSteps.NestedCommitIsInert | packages/hana/src/query-interface-typescript.internal.ts:46-49 | committing a transaction with a parent changes nothing and succeeds |
| TransactionSteps.CompletionIssuesOneStatement | packages/hana/src/query-interface-typescript.internal.ts:58-96 | a root commit sends exactly the commit query, a rollback exactly ROLLBACK; autocommit is on afterwards iff the statement succeeded or it already was; the database's reply is returned |
| TransactionSteps.StepIssued | packages/hana/src/query-interface-typescript.internal.ts:58-89 | a call adds to the log exactly the statement it sends, if any |
| TransactionSteps.RunIssuesOnlyCompletions | packages/hana/src/query-interface-typescript.internal.ts:58-96 | over any call sequence the log only grows, by one statement per sending call, each the commit query or ROLLBACK |
| TransactionSteps.InertCallsChangeNothing | packages/hana/src/query-interface-typescript.internal.ts:42-49 | calls without a transaction or committing savepoints leave autocommit and the log unchanged |
| TransactionSteps.InertSuffix | packages/hana/src/query-interface-typescript.internal.ts:46-49 | savepoint commits after a prefix of calls do not change its outcome |
| TransactionSteps.StartThenCommit | packages/hana/src/query-interface-typescript.internal.ts:18-69 | start then a successful root commit, with any savepoint commits between, leaves autocommit on and has sent only the commit query |
| HanaTransactions.Connection.SetAutoCommit | packages/hana/src/query-interface-typescript.internal.ts:33 | the connection's autocommit flag becomes the given value |
| HanaTransactions.HanaQueryInterface.QueryRaw | packages/hana/src/query-interface-typescript.internal.ts:59 | the statement is appended to the log and the database's reply returned |
| HanaTransactions.HanaQueryInterface.StartTransaction | packages/hana/src/query-interface-typescript.internal.ts:18-36 | fails with the start message when no transaction is given; otherwise sets the connection's autocommit off and sends nothing, as Step says |
| HanaTransactions.HanaQueryInterface.CommitTransaction | packages/hana/src/query-interface-typescript.internal.ts:38-69 | fails with the commit message without a transaction; returns at once for a savepoint; for a root sends the commit query and turns autocommit on only after it succeeds, as Step says |
| HanaTransactions.HanaQueryInterface.RollbackTransaction | packages/hana/src/query-interface-typescript.internal.ts:71-99 | fails with the rollback message without a transaction; otherwise sends ROLLBACK, nested or not, and turns autocommit on only after it succeeds, as Step says |

## Left out

- `extractTableDetails` is not modelled: the generator functions take the table reference it
  would produce (`TableRef`), and `quoteTable` is applied to that reference.
- `escape`, `quoteTable`, `quoteIdentifier`, `generateIndexName`, `buildJsonPath`,
  `getTechnicalSchemaNames` and the inherited `commitTransactionQuery` are fields of
  `Generator` with no body. Their output formats are not modelled.
- `joinSQLFragments` is modelled as dropping empty fragments and joining the rest with one
  space. Any trimming or semicolon handling in the core's implementation is not modelled.
- The fixed leading fragments of each statement are written as one constant. The constant
  is the source's fragments in order, each pair joined by one space.
- HanaQueryGenerator.RejectInvalidOptions: the thrown error is modelled as the method name
  and the rejected option names, not the core's message text. The distinction between
  supportable and supported options is not modelled.
- HanaQueryGenerator.ListSchemasQuery: a `skip` that is not an array cannot be expressed,
  because the option is typed as a list.
- HanaQueryGenerator.RemoveIndexQuery: `quoteIdentifier` is called with an explicit
  `false` where the source passes no second argument.
- HanaQueryGenerator.RemoveIndexQuery: its options are an arbitrary set of names, so every
  supplied key is refused. Keys outside the core's supportable set, which the core passes
  through, are refused too, because that set is not part of this model.
- `versionQuery` and `formatUnquoteJson` are left out: each returns a fixed text or one
  wrapped escape.
- `console.log` calls are left out because they only log.
- InsertQuery.Insert: the behaviour is the one the test file expects, not a model of the
  core's insert implementation, which is not part of this model. Only the default
  (bracket-quoted), RETURNING and HANA forms are modelled. The other dialects' expected
  texts are left out, and so is substitution of replacements inside raw SQL.
- InsertQuery.HanaReturnIdWrapper: the template's lines are joined with single newlines,
  without its indentation or its leading and trailing blank lines.
- InsertQuery.CastFor: only the choice of conversion is modelled. The database's
  `CURRENT_IDENTITY_VALUE()` and the validity of the SQL are not.
- The transaction methods' `options` argument is not modelled: it is only logged or passed
  to `queryRaw`. Promises are not modelled either; the database's reply is an input.
- Transaction state (`finished`, savepoint names) is not modelled, because the code that
  would set it is commented out.
- The value model `TransactionSteps` follows one connection's autocommit flag.
- Concurrent calls on one connection are not modelled.
