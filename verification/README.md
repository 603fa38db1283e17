# Achilles statement generation and composite-column decoding, in Dafny

This project models two pure translation components of the Achilles
object mapper for Cassandra:

- the **prepared statement generator**: from an entity's metadata (table
  name, an id that is either a simple key or an embedded compound key with
  ordered component names, the regular properties, the counter properties
  and the columns to load) it builds the parameterised CQL statements the
  entity needs. These are the insert, the single-field and whole-entity
  selects, the update of chosen fields and the delete. It also builds the
  four simple-counter statements on the shared counter table and the
  per-counter statement maps for clustered counters;
- the **composite transformer**: from a wide-row column (the ordered
  components of its composite name, a raw value and a ttl) and a property
  descriptor it rebuilds the key, the value, the ttl or the
  `(key, value, ttl)` triple. It also provides the five transformer
  functions applied lazily over a row's columns.

Statements are abstract syntax (module `Cql`): ordered column lists, a WHERE
clause as an ordered list of `column = :marker` equalities, the assignments
of an update, and an optional TTL marker. Preparing a statement on the
session is a driver round-trip; it is modelled as the identity, so each
operation returns the statement it would prepare. The four simple-counter
statements are hand-built strings and are modelled as text. The counter
table and column names they use are constants defined outside this model,
kept abstract in `SimpleCounter.CounterSchema`. The key and value
deserialisers and the compound-key builder are foreign code. They are
function-valued fields of the decoder's property descriptor. They return a
`Result`, so a decode error propagates unchanged.

The simple-counter statements come from a method of the same generator
class. They live in their own module, `SimpleCounter`, because they are
modelled as text rather than as statement syntax and need text-level helpers
(suffixes, counting markers) that nothing else uses.

Files: `results.dfy` (Option/Result), `metadata.dfy` (entity and property
descriptors, well-formedness), `cql.dfy` (statement syntax, the clause
builder), `statement_generator.dfy`, `simple_counter.dfy`,
`composite_transformer.dfy`.

Edge cases of the code and how the model treats them:

- The WHERE and SET builders start as null. An embedded id with no
  component, or an update with no property, leaves a builder null and the
  call fails with a null dereference. `Cql.Chain` and
  `StatementGenerator.WhereClause` model this as `None`. The public
  operations instead require the inputs that avoid it, as listed under
  "## Left out".
- The insert never builds a WHERE clause. An embedded id without
  components therefore just contributes no column, and the insert has no
  such requirement.
- In the clustered-counter SELECT map, the `SELECT_ALL` entry is put after
  the per-counter entries. A counter literally named `SELECT_ALL` is
  therefore replaced, and the model keeps that behaviour.
- A single key is read with `get(0, …)` on the composite. A name with no
  component fails, and the model reports `MissingComponent(0)`.

## Model

| member | source | states |
|---|---|---|
| `Cql.Chain` | achilles-core/src/main/java/info/archinnov/achilles/internal/statement/prepared/PreparedStatementGenerator.java:218-228 | a builder that starts null and chains every element after the first with `and` holds all the elements in order, and stays null exactly when it started null and received nothing |
| `StatementGenerator.WhereClause` | achilles-core/src/main/java/info/archinnov/achilles/internal/statement/prepared/PreparedStatementGenerator.java:215-234 | the WHERE clause is one equality on the id name for a simple id, and one equality per component in declared order (never reordered) for an embedded id, each bound to the marker of the same name; it is missing exactly for an embedded id without components |
| `StatementGenerator.WhereForUpdate` | achilles-core/src/main/java/info/archinnov/achilles/internal/statement/prepared/PreparedStatementGenerator.java:236-258 | an update gets the id's WHERE clause and keeps its assignments; the `ttl` marker is attached exactly when requested; no statement results when the assignment or WHERE builder was left null |
| `StatementGenerator.PrepareInsert` | achilles-core/src/main/java/info/archinnov/achilles/internal/statement/prepared/PreparedStatementGenerator.java:48-61 | insert columns are the id columns first (all components in declared order for an embedded id, else the id name), then every non-id, non-counter property in order; each column is bound to a marker of its own name; the `ttl` marker is attached |
| `StatementGenerator.CounterIsNotRegular` | achilles-core/src/main/java/info/archinnov/achilles/internal/statement/prepared/PreparedStatementGenerator.java:54-57 | in a well-formed entity no counter's name is an id column or a regular property, so no insert column is a counter, and neither does an update of regular properties (`UpdateWritesInsertColumns`) write a counter's column |
| `StatementGenerator.PrepareSelectField` | achilles-core/src/main/java/info/archinnov/achilles/internal/statement/prepared/PreparedStatementGenerator.java:63-77 | selecting a counter fails with an illegal-argument error naming the property and the entity, and yields no statement; any other property selects exactly its columns (all components of an embedded id, else its name) from the entity's table, filtered on the id |
| `StatementGenerator.SelectField` | achilles-core/src/main/java/info/archinnov/achilles/internal/statement/prepared/PreparedStatementGenerator.java:193-202 | selecting a property appends its columns after the selection: every component of an embedded id in declared order, otherwise the property's own name |
| `StatementGenerator.SelectFields` | achilles-core/src/main/java/info/archinnov/achilles/internal/statement/prepared/PreparedStatementGenerator.java:105-109 | applying the field selection to each property in turn appends the concatenation of their columns, in order, to the selection |
| `StatementGenerator.PrepareSelect` | achilles-core/src/main/java/info/archinnov/achilles/internal/statement/prepared/PreparedStatementGenerator.java:100-114 | the whole-entity select reads the concatenation of the columns of every property to load, in order, from the entity's table, filtered on the id |
| `StatementGenerator.ExpandMembership` | achilles-core/src/main/java/info/archinnov/achilles/internal/statement/prepared/PreparedStatementGenerator.java:193-202 | a column is in the whole-entity selection exactly when it is a column of one of the properties to load |
| `StatementGenerator.SelectIsConcatenationOfFieldSelects` | achilles-core/src/main/java/info/archinnov/achilles/internal/statement/prepared/PreparedStatementGenerator.java:100-114 | the columns of the single-field select of the i-th property to load appear unchanged and contiguous in the whole-entity select, after those of the properties before it, and both use the same WHERE clause |
| `StatementGenerator.SelectLoadsNoCounter` | achilles-core/src/main/java/info/archinnov/achilles/internal/statement/prepared/PreparedStatementGenerator.java:107-109 | for a well-formed entity, whose columns to load are drawn from the id and the regular properties, no counter property's column appears in the whole-entity select |
| `StatementGenerator.PrepareUpdateFields` | achilles-core/src/main/java/info/archinnov/achilles/internal/statement/prepared/PreparedStatementGenerator.java:79-98 | the SET list holds exactly the given properties in the given order, each `prop = :prop`; the WHERE clause is the id's; the `ttl` marker is attached; a non-empty property list is required |
| `StatementGenerator.UpdateWritesInsertColumns` | achilles-core/src/main/java/info/archinnov/achilles/internal/statement/prepared/PreparedStatementGenerator.java:79-98 | updating regular properties of a well-formed entity writes only columns the insert writes, and filters on exactly the id columns the insert starts with, in the same order |
| `StatementGenerator.PrepareRemovePSs` | achilles-core/src/main/java/info/archinnov/achilles/internal/statement/prepared/PreparedStatementGenerator.java:260-273 | the delete map has the single key table name, mapped to a delete of the entity's table filtered on the id, on the same WHERE clause as the whole-entity select |
| `StatementGenerator.PreparePerCounterStatements` | achilles-core/src/main/java/info/archinnov/achilles/internal/statement/prepared/PreparedStatementGenerator.java:166-179 | for every counter, keyed by its name, the increment `c = c + :c` and decrement `c = c - :c` without ttl and the single-column select of `c`, all filtered on the id; the keys are exactly the counter names |
| `StatementGenerator.PrepareClusteredCounterQueryMap` | achilles-core/src/main/java/info/archinnov/achilles/internal/statement/prepared/PreparedStatementGenerator.java:156-191 | the map has keys INCR, DECR, SELECT and DELETE; INCR and DECR are keyed exactly by the counter names, SELECT by the counter names plus `SELECT_ALL` (a select of the whole row), DELETE only by `DELETE_ALL` (a delete of the whole row) |
| `SimpleCounter.PrepareSimpleCounterQueryMap` | achilles-core/src/main/java/info/archinnov/achilles/internal/statement/prepared/PreparedStatementGenerator.java:116-154 | the simple-counter map has exactly the keys INCR, DECR, SELECT and DELETE; INCR is `UPDATE table SET value = value + ?`, DECR the same with `-`, SELECT is `SELECT value FROM table`, DELETE is `DELETE FROM table`, each followed by the same filter on class name, primary key and property name, in that order |
| `SimpleCounter.IncrementAndDecrementDifferOnlyInOperator` | achilles-core/src/main/java/info/archinnov/achilles/internal/statement/prepared/PreparedStatementGenerator.java:118-132 | the increment and decrement texts have the same length and differ at exactly one position, `+` in the increment (`value + ?`) and `-` in the decrement (`value - ?`) |
| `SimpleCounter.FilterMarkers` | achilles-core/src/main/java/info/archinnov/achilles/internal/statement/prepared/PreparedStatementGenerator.java:122-124 | with marker-free names, the shared filter has three positional markers |
| `SimpleCounter.PositionalMarkerCounts` | achilles-core/src/main/java/info/archinnov/achilles/internal/statement/prepared/PreparedStatementGenerator.java:118-145 | with marker-free names, the increment and decrement take four positional values and the select and delete take three |
| `CompositeTransformer.BuildKeyFromComposite` | src/main/java/fr/doan/achilles/holder/factory/CompositeTransformer.java:98-111 | a single key is component 0 of the name through the key deserialiser, and a name without components gives `MissingComponent(0)`; any other key is the compound-key builder applied to the whole component list |
| `CompositeTransformer.SingleKeyReadsOnlyFirstComponent` | src/main/java/fr/doan/achilles/holder/factory/CompositeTransformer.java:102-104 | a single key is component 0 deserialised with the key deserialiser; columns agreeing on component 0 give the same key whatever their other components, value and ttl; a name without components gives no key |
| `CompositeTransformer.MultiKeyReceivesWholeOrderedName` | src/main/java/fr/doan/achilles/holder/factory/CompositeTransformer.java:105-109 | a compound key is built from the whole component list in its order: with a builder that returns its input, the key is exactly the column's name |
| `CompositeTransformer.BuildKeyValueFromComposite` | src/main/java/fr/doan/achilles/holder/factory/CompositeTransformer.java:88-96 | the triple exists exactly when the key and the value decode; its key is the composite key, its value the decoded column value, its ttl the column's ttl; a key error is reported first, then a value error, and no partial record is returned |
| `CompositeTransformer.BuildKeyTransformer` | src/main/java/fr/doan/achilles/holder/factory/CompositeTransformer.java:23-34 | the key transformer is pointwise the key decoding of the column, whatever its value; it agrees with the key of the decoded triple, and its failure is the triple's failure |
| `CompositeTransformer.BuildValueTransformer` | src/main/java/fr/doan/achilles/holder/factory/CompositeTransformer.java:36-47 | the value transformer is pointwise the value decoder applied to the column value, whatever the key; it agrees with the value of the decoded triple, and its failure makes the triple fail |
| `CompositeTransformer.BuildRawValueTransformer` | src/main/java/fr/doan/achilles/holder/factory/CompositeTransformer.java:49-60 | the raw transformer returns the column value unchanged, and decoding it gives what the value transformer gives |
| `CompositeTransformer.BuildTtlTransformer` | src/main/java/fr/doan/achilles/holder/factory/CompositeTransformer.java:62-73 | the ttl transformer returns the column's ttl unchanged, the ttl of the decoded triple |
| `CompositeTransformer.BuildKeyValueTransformer` | src/main/java/fr/doan/achilles/holder/factory/CompositeTransformer.java:75-86 | the key-value transformer succeeds exactly when the key and value transformers both do, and then carries their results and the ttl transformer's; otherwise its error is the key transformer's if the key fails, else the value transformer's |
| `CompositeTransformer.CompoundKeyExample` | src/main/java/fr/doan/achilles/holder/factory/CompositeTransformer.java:88-111 | a column with key components (5, "x"), value 42 and ttl 300 decodes to key (5, "x"), value 42, ttl 300, by the triple and by the separate transformers alike; a value that is not an integer yields a decode error |

## Left out

- Preparing statements on the session (`session.prepare`) and the returned `PreparedStatement` objects: driver and network calls, modelled as the identity on the statement.
- The text rendering of statements by the driver's `QueryBuilder`: a foreign library; statements are abstract syntax instead. Only the hand-built simple-counter strings are modelled as text.
- The values of the counter table and column constants: defined outside this model, kept abstract.
- Logging calls: no behaviour.
- The internals of Hector's `Composite` and `HColumn`, the serialisers and `PropertyHelper.buildMultiKeyForComposite`: foreign code, given as function parameters of the property descriptor.
- `EmbeddedId.java`: an annotation declaration with no behaviour.
- How the metadata layer derives the property lists of an entity: not part of this model; the lists are inputs, and `Metadata.WellFormed` states the invariants the generator relies on.
- Caching of the prepared statements and thread safety: owned by the callers.
- A missing (null) id descriptor: every operation dereferences it and fails; the model's `EntityMeta` always carries one.
- StatementGenerator.PrepareSelect: an embedded id without components makes the code fail with a null dereference; the model requires a buildable WHERE clause instead of returning an error.
- StatementGenerator.PrepareSelectField: the same requirement, on the non-counter path only (the counter check comes first).
- StatementGenerator.PrepareUpdateFields: the same requirement, plus a non-empty property list, whose absence also ends in a null dereference.
- StatementGenerator.PrepareRemovePSs: the same requirement on the WHERE clause.
- StatementGenerator.PrepareClusteredCounterQueryMap: the same requirement on the WHERE clause.
- StatementGenerator.PreparePerCounterStatements: the same requirement on the WHERE clause.
