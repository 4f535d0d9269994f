# Hibernate: optional-table upserts and reverse-engineering helpers in Dafny

This project models five pieces of Hibernate and Hibernate Tools and proves
what each of them promises.

- **`OptionalTableUpdateOperation`** (`OptionalTableUpdates.dfy`) is the
  legacy "upsert" for an optional secondary table. Which tables the values
  analysis lists decides whether it does nothing, deletes the row, updates
  it, or updates it and falls back to an INSERT. A UNIQUE violation on that
  INSERT becomes a stale-state error. `afterStatement` runs once whenever a
  statement was considered. The DELETE binds its key values through a scan
  that shares one cursor over the key bindings. The database is an oracle:
  the model takes the outcome of each statement as input.
- **`SubQuery`** (`SubQueries.dfy`) is the HQL code-completion helper that
  pulls the entity names and aliases out of a query's from clause and joins.
  Its scan is a loop over the token types, proved against a step function.
  The segments are split as `java.util.StringTokenizer` and `String.trim`
  do it.
- **`TableIdentifier`** (`TableIdentifiers.dfy`) is a catalog / schema /
  name triple. The model covers null-safe equality, a hash consistent with
  it in Java `int` arithmetic, and the `toString` format.
- **`DatabaseReader`** (`DatabaseReaders.dfy`) holds:
  - the strategy check of the constructor;
  - the in-place merge of multimaps;
  - its fold over the per-table foreign-key maps;
  - the default schema selection.
- **`RevengMetadataDescriptor`** (`RevengMetadata.dfy`):
  - layers the environment's settings under the supplied ones;
  - defaults `PREFER_BASIC_COMPOSITE_IDS` and the strategy;
  - hands out a defensive copy.

`JavaLang.dfy` holds the Java semantics these rely on:
- `null` as `Option`;
- `int` wrap-around;
- `Properties.getProperty`.

Imperative code stays imperative:
- `getEntityNames`, `addEntityReferences`, `bindKeyValues`,
  `findValueDescriptor`, the descriptor loop of the constructor, the insert
  binding loop, `mergeMultiMap` and `resolveForeignKeys` are methods with
  loops. `findValueDescriptor` and the descriptor loop state their
  results directly in their postconditions. Each of the others is proved
  equal to a specification function, and the promised properties are
  proved about that function.
- `MultiMap`, `Properties` and the descriptor are classes whose methods
  update their fields.

## Model

| member | source | states |
|---|---|---|
| JavaLang.Wrap32 | tooling/hibernate-reveng/src/main/java/org/hibernate/tool/reveng/ide/completion/SubQuery.java:17 | Java `int` arithmetic: the result is congruent to the exact value modulo 2^32 and equals it when it is in range |
| JavaLang.WrapLinearStep | tooling/hibernate-reveng/src/main/java/org/hibernate/tool/reveng/api/core/TableIdentifier.java:62-67 | wrapping each step of a `37 * h + x` fold gives the same `int` as wrapping once at the end |
| JavaLang.GetProperty | tooling/hibernate-reveng/src/main/java/org/hibernate/tool/reveng/internal/core/reader/DatabaseReader.java:153-159 | `Properties.getProperty` yields a value exactly when the key holds a `String`, and then that string |
| TableIdentifiers.Create | tooling/hibernate-reveng/src/main/java/org/hibernate/tool/reveng/api/core/TableIdentifier.java:20-42 | the getters of a created identifier return exactly the supplied catalog, schema and name, null included |
| TableIdentifiers.ComponentEquals | tooling/hibernate-reveng/src/main/java/org/hibernate/tool/reveng/api/core/TableIdentifier.java:70-74 | the null-safe string comparison holds iff both are null or both are equal strings |
| TableIdentifiers.Equals | tooling/hibernate-reveng/src/main/java/org/hibernate/tool/reveng/api/core/TableIdentifier.java:48-59 | `equals(TableIdentifier)` is false for null and otherwise holds iff name, schema and catalog are pairwise equal |
| TableIdentifiers.EqualsObject | tooling/hibernate-reveng/src/main/java/org/hibernate/tool/reveng/api/core/TableIdentifier.java:44-46 | `equals(Object)` is false for null and for non-identifiers, and holds iff the object is an equal identifier |
| TableIdentifiers.EqualsIsEquivalence | tooling/hibernate-reveng/src/main/java/org/hibernate/tool/reveng/api/core/TableIdentifier.java:48-59 | `equals` is reflexive, symmetric and transitive |
| TableIdentifiers.HashCodeIsPolynomial | tooling/hibernate-reveng/src/main/java/org/hibernate/tool/reveng/api/core/TableIdentifier.java:61-68 | the step-by-step fold from 13 with factor 37 over name, schema and catalog (null as 0) is the wrapped polynomial 13·37³ + 37²·h(name) + 37·h(schema) + h(catalog) |
| TableIdentifiers.EqualIdentifiersHashEqually | tooling/hibernate-reveng/src/main/java/org/hibernate/tool/reveng/api/core/TableIdentifier.java:44-68 | equal identifiers have equal hash codes, for any string hash function |
| TableIdentifiers.ToString | tooling/hibernate-reveng/src/main/java/org/hibernate/tool/reveng/api/core/TableIdentifier.java:76-84 | the text starts with `TableIdentifier(` and ends with `)`; the catalog with a dot comes first when present, the schema with a dot right after it, and the name last, just before the `)`; the length adds up to the parts |
| TableIdentifiers.ToStringIsNotInjective | tooling/hibernate-reveng/src/main/java/org/hibernate/tool/reveng/api/core/TableIdentifier.java:76-84 | a catalog-qualified and a schema-qualified identifier can print alike while not being equal |
| SubQueries.Word | tooling/hibernate-reveng/src/main/java/org/hibernate/tool/reveng/ide/completion/SubQuery.java:130 | a token of `StringTokenizer` is the longest delimiter-free prefix, ending at a delimiter or the end |
| SubQueries.Tokenize | tooling/hibernate-reveng/src/main/java/org/hibernate/tool/reveng/ide/completion/SubQuery.java:130-137 | `StringTokenizer` tokens are non-empty and free of the delimiter |
| SubQueries.TokenizeJoinWith | tooling/hibernate-reveng/src/main/java/org/hibernate/tool/reveng/ide/completion/SubQuery.java:130-137 | tokenizing pieces glued by the delimiter gives back the pieces |
| SubQueries.TokenizeWord | tooling/hibernate-reveng/src/main/java/org/hibernate/tool/reveng/ide/completion/SubQuery.java:130-137 | a non-empty run without the delimiter is exactly one token |
| SubQueries.TokenizeSplit | tooling/hibernate-reveng/src/main/java/org/hibernate/tool/reveng/ide/completion/SubQuery.java:130-137 | a delimiter splits the input: the tokens before it, then the tokens after it, so leading, trailing and repeated delimiters (the `,` a JOIN leaves, the `,,` of `LEFT JOIN`) yield no empty token |
| SubQueries.Trim | tooling/hibernate-reveng/src/main/java/org/hibernate/tool/reveng/ide/completion/SubQuery.java:132 | `String.trim` leaves no character up to U+0020 at either end; the result is the slice of the input after its leading characters up to U+0020, and only such characters follow it |
| SubQueries.AddEntityReferences | tooling/hibernate-reveng/src/main/java/org/hibernate/tool/reveng/ide/completion/SubQuery.java:129-147 | the list grows by the references of the comma-separated segments of the buffer, in order, and keeps what it held |
| SubQueries.SegmentOfWords | tooling/hibernate-reveng/src/main/java/org/hibernate/tool/reveng/ide/completion/SubQuery.java:129-147 | an empty segment yields nothing; one word yields (word, word); two or more yield (first, second) and later words are dropped |
| SubQueries.SubQuery.CompareTo | tooling/hibernate-reveng/src/main/java/org/hibernate/tool/reveng/ide/completion/SubQuery.java:16-18 | zero iff the start offsets are equal; negative / positive iff this offset is smaller / larger, for non-negative offsets |
| SubQueries.SubQuery.TokenCount | tooling/hibernate-reveng/src/main/java/org/hibernate/tool/reveng/ide/completion/SubQuery.java:30-32 | the count is the number of token ids |
| SubQueries.SubQuery.Token | tooling/hibernate-reveng/src/main/java/org/hibernate/tool/reveng/ide/completion/SubQuery.java:34-36 | the i-th token id |
| SubQueries.SubQuery.TokenText | tooling/hibernate-reveng/src/main/java/org/hibernate/tool/reveng/ide/completion/SubQuery.java:38-40 | the i-th token text |
| SubQueries.SubQuery.GetEntityNames | tooling/hibernate-reveng/src/main/java/org/hibernate/tool/reveng/ide/completion/SubQuery.java:42-127 | the loop computes the from references followed by the join references of the state the step function reaches over the tokens |
| SubQueries.StoppedScanIsFinal | tooling/hibernate-reveng/src/main/java/org/hibernate/tool/reveng/ide/completion/SubQuery.java:53-55 | once `cont` is false, no further token changes the scan |
| SubQueries.PreludeOnlyMovesLastToken | tooling/hibernate-reveng/src/main/java/org/hibernate/tool/reveng/ide/completion/SubQuery.java:56-61 | tokens before the first FROM, UPDATE or DELETE change nothing but the last token type |
| SubQueries.PreludeContributesNothing | tooling/hibernate-reveng/src/main/java/org/hibernate/tool/reveng/ide/completion/SubQuery.java:56-61 | tokens before the first FROM, UPDATE or DELETE contribute nothing to the entity names |
| SubQueries.FromTerminatorEndsScan | tooling/hibernate-reveng/src/main/java/org/hibernate/tool/reveng/ide/completion/SubQuery.java:92-99 | ORDER, WHERE, GROUP, HAVING or SET in the from part stops the scan for good |
| SubQueries.JoinTerminatorEndsScan | tooling/hibernate-reveng/src/main/java/org/hibernate/tool/reveng/ide/completion/SubQuery.java:63-69 | ORDER, WHERE, GROUP or HAVING in the join part stops the scan for good |
| SubQueries.SetInJoinPartIsSkipped | tooling/hibernate-reveng/src/main/java/org/hibernate/tool/reveng/ide/completion/SubQuery.java:62-90 | SET in the join part is skipped and the scan goes on |
| SubQueries.SegmentBoundaries | tooling/hibernate-reveng/src/main/java/org/hibernate/tool/reveng/ide/completion/SubQuery.java:70-115 | COMMA opens a from segment; JOIN opens one and switches to the join part; INNER, OUTER, LEFT, RIGHT, JOIN and COMMA open a join segment |
| SubQueries.NameTokenSteps | tooling/hibernate-reveng/src/main/java/org/hibernate/tool/reveng/ide/completion/SubQuery.java:80-110 | in either part an IDENTIFIER is appended to the active buffer (joins after a JOIN, table names before), preceded by a space exactly when the previous token is not a DOT; a DOT appends `.` |
| SubQueries.DottedNameIsOneWord | tooling/hibernate-reveng/src/main/java/org/hibernate/tool/reveng/ide/completion/SubQuery.java:103-110 | an IDENTIFIER after a DOT is appended without a space, so a dotted name stays one word |
| SubQueries.FromReferencesPrecedeJoinReferences | tooling/hibernate-reveng/src/main/java/org/hibernate/tool/reveng/ide/completion/SubQuery.java:123-126 | the result is the from references followed by the join references |
| SubQueries.PlainFromClause | tooling/hibernate-reveng/src/main/java/org/hibernate/tool/reveng/ide/completion/SubQuery.java:42-147 | for `FROM e1 a1, e2 a2, ...`, optionally ended by a terminator, the entity names are exactly the (entity, alias) pairs in order |
| DatabaseReaders.Merged | tooling/hibernate-reveng/src/main/java/org/hibernate/tool/reveng/internal/core/reader/DatabaseReader.java:114-129 | after a merge, every key of either map is present; a new key takes src's list; an existing key gets src's list appended; keys only in dest are unchanged |
| DatabaseReaders.MergeIntoEmpty | tooling/hibernate-reveng/src/main/java/org/hibernate/tool/reveng/internal/core/reader/DatabaseReader.java:120-122 | merging into an empty map copies the source |
| DatabaseReaders.MultiMap.Get | tooling/hibernate-reveng/src/main/java/org/hibernate/tool/reveng/internal/core/reader/DatabaseReader.java:120 | `get` is null exactly for an absent key and otherwise the key's list |
| DatabaseReaders.MultiMap.Put | tooling/hibernate-reveng/src/main/java/org/hibernate/tool/reveng/internal/core/reader/DatabaseReader.java:122 | `put` maps the key to the list and leaves other keys alone |
| DatabaseReaders.MultiMap.AddAll | tooling/hibernate-reveng/src/main/java/org/hibernate/tool/reveng/internal/core/reader/DatabaseReader.java:125 | `addAll` appends to the key's list and leaves other keys alone |
| DatabaseReaders.MergeMultiMap | tooling/hibernate-reveng/src/main/java/org/hibernate/tool/reveng/internal/core/reader/DatabaseReader.java:114-129 | the loop leaves dest holding the merge of its old contents and src |
| DatabaseReaders.FoldMergeCollects | tooling/hibernate-reveng/src/main/java/org/hibernate/tool/reveng/internal/core/reader/DatabaseReader.java:104-111 | folding the merge over the tables keeps exactly the keys some table has, each mapped to the tables' lists concatenated in table order |
| DatabaseReaders.ResolveForeignKeys | tooling/hibernate-reveng/src/main/java/org/hibernate/tool/reveng/internal/core/reader/DatabaseReader.java:104-111 | starting from an empty map and merging the per-table maps in order yields those keys and, per key, the lists in table order |
| DatabaseReaders.DatabaseReader.Create | tooling/hibernate-reveng/src/main/java/org/hibernate/tool/reveng/internal/core/reader/DatabaseReader.java:44-56 | creation fails with `IllegalStateException("Strategy cannot be null")` iff the strategy is null, and otherwise keeps the strategy and properties |
| DatabaseReaders.DatabaseReader.GetSchemaSelections | tooling/hibernate-reveng/src/main/java/org/hibernate/tool/reveng/internal/core/reader/DatabaseReader.java:131-159 | the strategy's list when it is non-null, else exactly one selection of the default catalog and schema properties and a null table pattern |
| RevengMetadata.Properties.Get | tooling/hibernate-reveng/src/main/java/org/hibernate/tool/reveng/internal/metadata/RevengMetadataDescriptor.java:47 | `get` is null exactly for an absent key |
| RevengMetadata.Properties.Put | tooling/hibernate-reveng/src/main/java/org/hibernate/tool/reveng/internal/metadata/RevengMetadataDescriptor.java:48 | `put` sets one key and nothing else |
| RevengMetadata.Properties.PutAll | tooling/hibernate-reveng/src/main/java/org/hibernate/tool/reveng/internal/metadata/RevengMetadataDescriptor.java:38-41 | `putAll` overrides key by key with the other table |
| RevengMetadata.Overridden | tooling/hibernate-reveng/src/main/java/org/hibernate/tool/reveng/internal/metadata/RevengMetadataDescriptor.java:38-41 | environment settings overridden key by key by the supplied ones; without supplied properties, the environment as is |
| RevengMetadata.WithCompositeIdDefault | tooling/hibernate-reveng/src/main/java/org/hibernate/tool/reveng/internal/metadata/RevengMetadataDescriptor.java:47-49 | `PREFER_BASIC_COMPOSITE_IDS` is present afterwards; an explicit value is kept, an absent one becomes true; nothing else changes |
| RevengMetadata.SuppliedSettingWins | tooling/hibernate-reveng/src/main/java/org/hibernate/tool/reveng/internal/metadata/RevengMetadataDescriptor.java:38-49 | a supplied setting is what the descriptor stores for its key |
| RevengMetadata.NoSuppliedSettings | tooling/hibernate-reveng/src/main/java/org/hibernate/tool/reveng/internal/metadata/RevengMetadataDescriptor.java:38-49 | with null supplied properties the stored table is the environment, apart from the composite-id default |
| RevengMetadata.RevengMetadataDescriptor.constructor | tooling/hibernate-reveng/src/main/java/org/hibernate/tool/reveng/internal/metadata/RevengMetadataDescriptor.java:35-50 | the stored table is the layered table in a fresh object; a null strategy becomes the factory's, a given one is kept |
| RevengMetadata.RevengMetadataDescriptor.GetProperties | tooling/hibernate-reveng/src/main/java/org/hibernate/tool/reveng/internal/metadata/RevengMetadataDescriptor.java:52-56 | a fresh object with the same contents |
| RevengMetadata.WriteToCopy | tooling/hibernate-reveng/src/main/java/org/hibernate/tool/reveng/internal/metadata/RevengMetadataDescriptor.java:52-56 | writing to the returned copy leaves the descriptor's table unchanged |
| OptionalTableUpdates.SearchKey | hibernate-core/src/main/java/org/hibernate/sql/model/jdbc/OptionalTableUpdateOperation.java:215-237 | the key cursor stops just past the first key matching the column; it is beyond the key run iff keys were found and the next key does not match; otherwise it runs out with no match |
| OptionalTableUpdates.KeyScanSound | hibernate-core/src/main/java/org/hibernate/sql/model/jdbc/OptionalTableUpdateOperation.java:206-237 | the bound values get positions 1, 2, ...; each is a RESTRICT binding of the group whose column is a key column; the scan fails only on a position outside the descriptor table |
| OptionalTableUpdates.AlignedKeysAllBound | hibernate-core/src/main/java/org/hibernate/sql/model/jdbc/OptionalTableUpdateOperation.java:206-237 | when the RESTRICT bindings name exactly the key columns in key order, all of them are bound at positions 1, 2, ... |
| OptionalTableUpdates.NonKeyRestrictEndsKeyRun | hibernate-core/src/main/java/org/hibernate/sql/model/jdbc/OptionalTableUpdateOperation.java:208-236 | a RESTRICT binding that is not the next key ends the scan after keys were found, even when a key follows it |
| OptionalTableUpdates.NonKeyRestrictFirstBindsNoKey | hibernate-core/src/main/java/org/hibernate/sql/model/jdbc/OptionalTableUpdateOperation.java:208-236 | a RESTRICT binding ahead of the keys whose column is no key column runs the shared cursor to the end, and then no key is bound at all |
| OptionalTableUpdates.Bindable | hibernate-core/src/main/java/org/hibernate/sql/model/jdbc/OptionalTableUpdateOperation.java:381-405 | the INSERT binds exactly the bindings whose position is within the parameter binders |
| OptionalTableUpdates.OptionalTableUpdateOperation.constructor | hibernate-core/src/main/java/org/hibernate/sql/model/jdbc/OptionalTableUpdateOperation.java:74-90 | keeps the upsert's parts and builds one descriptor per parameter, the i-th at JDBC position i + 1 |
| OptionalTableUpdates.OptionalTableUpdateOperation.DescribeParameters | hibernate-core/src/main/java/org/hibernate/sql/model/jdbc/OptionalTableUpdateOperation.java:86-89 | one descriptor per parameter, the i-th (0-based) with the parameter's column and usage at JDBC position i + 1 |
| OptionalTableUpdates.OptionalTableUpdateOperation.FindValueDescriptor | hibernate-core/src/main/java/org/hibernate/sql/model/jdbc/OptionalTableUpdateOperation.java:109-118 | the first descriptor whose column and usage both match, and null iff none does |
| OptionalTableUpdates.OptionalTableUpdateOperation.BindKeyValues | hibernate-core/src/main/java/org/hibernate/sql/model/jdbc/OptionalTableUpdateOperation.java:190-240 | `IllegalStateException("No value bindings for table on insert : <table>")` without a binding group; otherwise the loop binds what the key scan defines |
| OptionalTableUpdates.OptionalTableUpdateOperation.InsertValues | hibernate-core/src/main/java/org/hibernate/sql/model/jdbc/OptionalTableUpdateOperation.java:381-405 | nothing without a binding group; otherwise exactly the group's bindings within the INSERT's parameter binders |
| OptionalTableUpdates.OptionalTableUpdateOperation.BindInsertValues | hibernate-core/src/main/java/org/hibernate/sql/model/jdbc/OptionalTableUpdateOperation.java:381-405 | the binding loop binds the filtered bindings in group order |
| OptionalTableUpdates.OptionalTableUpdateOperation.SourceOf | hibernate-core/src/main/java/org/hibernate/sql/model/jdbc/OptionalTableUpdateOperation.java:345-346 | custom SQL is used iff the details and their custom SQL are both non-null |
| OptionalTableUpdates.OptionalTableUpdateOperation.CreateTableDelete | hibernate-core/src/main/java/org/hibernate/sql/model/jdbc/OptionalTableUpdateOperation.java:270-298 | the DELETE is custom or standard by the delete details and restricts on the key and optimistic-lock bindings; `PerformMutation` runs its DELETE with this mutation |
| OptionalTableUpdates.OptionalTableUpdateOperation.CreateTableUpdate | hibernate-core/src/main/java/org/hibernate/sql/model/jdbc/OptionalTableUpdateOperation.java:343-372 | the UPDATE is custom or standard by the update details, sets the value bindings and restricts on key and optimistic-lock bindings; `PerformMutation` runs its UPDATE with this mutation |
| OptionalTableUpdates.OptionalTableUpdateOperation.CreateTableInsert | hibernate-core/src/main/java/org/hibernate/sql/model/jdbc/OptionalTableUpdateOperation.java:416-441 | the INSERT is custom or standard by the insert details; its columns are the value bindings followed by the key bindings; `PerformMutation` runs its INSERT with this mutation |
| OptionalTableUpdates.OptionalTableUpdateOperation.InsertColumnsAreUpdateColumns | hibernate-core/src/main/java/org/hibernate/sql/model/jdbc/OptionalTableUpdateOperation.java:343-441 | the INSERT's columns are the UPDATE's SET columns followed by its key columns |
| OptionalTableUpdates.OptionalTableUpdateOperation.WasUpdated | hibernate-core/src/main/java/org/hibernate/sql/model/jdbc/OptionalTableUpdateOperation.java:300-338 | the UPDATE counts as done iff it returned a non-zero row count the expectation accepted; 0 rows means not updated and no exception |
| OptionalTableUpdates.OptionalTableUpdateOperation.TranslateInsertFailure | hibernate-core/src/main/java/org/hibernate/sql/model/jdbc/OptionalTableUpdateOperation.java:155-164 | a UNIQUE constraint violation becomes a stale-state error for the role; any other exception passes unchanged |
| OptionalTableUpdates.OptionalTableUpdateOperation.PerformMutation | hibernate-core/src/main/java/org/hibernate/sql/model/jdbc/OptionalTableUpdateOperation.java:121-172 | nothing runs and no `afterStatement` unless the table needs an update; otherwise `afterStatement` runs once whatever is thrown; all-null values give a DELETE iff the row had values and its keys were bound; otherwise UPDATE iff the row had values, then INSERT iff the UPDATE was skipped or touched 0 rows; the INSERT's exception is translated; the all-null path on a row without values throws nothing; each statement that runs carries the mutation its create method builds |
| OptionalTableUpdates.OptionalTableUpdateOperation.ExecutedMutations | hibernate-core/src/main/java/org/hibernate/sql/model/jdbc/OptionalTableUpdateOperation.java:121-172 | each DELETE, UPDATE and INSERT that runs uses the custom SQL of its kind's details when there is some, and the bindings its create method gives it |
| OptionalTableUpdates.OptionalTableUpdateOperation.DeleteBindsKeyValues | hibernate-core/src/main/java/org/hibernate/sql/model/jdbc/OptionalTableUpdateOperation.java:174-188 | the DELETE carries what `bindKeyValues` bound, at consecutive positions, only RESTRICT key columns |
| OptionalTableUpdates.OptionalTableUpdateOperation.InsertBindsBindable | hibernate-core/src/main/java/org/hibernate/sql/model/jdbc/OptionalTableUpdateOperation.java:374-411 | the fallback INSERT carries exactly the bindings within its parameter binders |

## Left out

- JDBC work is replaced by the `Database` oracle:
  - statement preparation, logging, the resource registry and `afterStatementExecution`;
  - `executeUpdate`, given as a row count or an exception;
  - `Expectation.verifyOutcome`, given as a verdict;
  - the conversion of `SQLException`s, folded into the oracle's exceptions.
- The SQL AST translation of the DELETE, UPDATE and INSERT is left out. Only the choice between custom and standard SQL and the column lists are modelled. The number of parameter binders of the translated INSERT is an input.
- `getMutationType`, `getMutationTarget`, `getTableDetails` and `toString` of `OptionalTableUpdateOperation` are left out. They are constant accessors.
- The constraint kinds (UNIQUE, NOT_NULL, FOREIGN_KEY, CHECK, OTHER) come from `ConstraintViolationException`. That class is not part of this model, and only UNIQUE matters to the operation.
- OptionalTableUpdates.OptionalTableUpdateOperation.PerformMutation: exceptions raised by `bindKeyValue` or by the insert binder are part of the oracle's DELETE and INSERT outcomes. They are not separate cases.
- The HQL lexer is generated code. Its token types are a datatype, and the token stream is the input.
- SubQueries.SubQuery.GetEntityNames: requires the two token lists to have the same length. The source fills them in parallel. It would throw `IndexOutOfBoundsException` on an IDENTIFIER with no text.
- SubQueries.SubQuery.Token: requires an index in range, where `List.get` would throw.
- SubQueries.SubQuery.TokenText: requires an index in range, where `List.get` would throw.
- SubQueries.SubQuery.CompareTo: the sign is proved only for non-negative start offsets. Character offsets are non-negative. For offsets of opposite sign far apart, the Java subtraction wraps around, and the model wraps the same way.
- `SubQuery` fields are package-private and filled by the code-completion parser. That parser is not part of this model, so the model has no setters.
- `TableIdentifier.create(Table)` reads a Hibernate mapping `Table`, which is not part of this model. `String.intern` is left out because it does not change a string's value.
- TableIdentifiers.HashCodeIsPolynomial: `String.hashCode` is a parameter, so the hash is proved for any string hash.
- `DatabaseReader.readDatabaseSchema`, `TableCollector`, `ForeignKeyProcessor` and `ForeignKeysInfo.process` are JDBC metadata traversal and are not part of this model. The per-table foreign-key maps they produce are the input of `ResolveForeignKeys`.
- DatabaseReaders.MergeMultiMap: lists are values. In the source, the list `put` into dest is the same object as src's list, so a later `addAll` also grows src's list. The model does not capture that sharing.
- DatabaseReaders.DatabaseReader.GetSchemaSelections: the default selection reads the default catalog and schema when the list is built. The source's anonymous selection reads them each time its getters are called. The two differ only if the properties change in between.
- DatabaseReaders.DatabaseReader.Create: the properties object is taken as non-null, and the dialect and connection provider are left out. The source only stores them.
- `Properties` defaults chains and the global `Environment` are left out. The environment's settings are a parameter of the descriptor's constructor, and so is the strategy `RevengStrategyFactory` would create.
- `RevengMetadataDescriptor.createMetadata` is left out. It builds Hibernate metadata, which is not part of this model.
