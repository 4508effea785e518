# sql2diagram, modelled in Dafny

sql2diagram turns a PostgreSQL schema script into an entity-relationship
diagram. The pg_query parser turns the script into a statement tree.
The program then works in two stages:

1. **Schema extraction.** It walks the tree and builds a schema of tables
   and columns, in place:
   - every `CREATE TABLE` appends a table, with one column per column
     definition;
   - every later `ALTER TABLE … ADD CONSTRAINT` mutates the columns of
     the first table with its name.
2. **Diagram synthesis.** It hands the schema, table by table, to the d2
   diagram engine:
   - a node per table, with the shape `sql_table`;
   - one row per column, with a formatted label;
   - one edge per foreign reference.

The repository holds two copies of the program:
- the current CLI, `cmd/sql2diagram/main.go`;
- an older `main.go` with different ALTER TABLE and label behaviour.

Both are modelled.

Modules:

- `PgQuery` — the parser's output: the node variants the program matches,
  plus `OtherNode` for everything else.
- `SchemaModel` — the schema as values (`RefV`, `ColumnV`, `TableV`):
  - what a column definition, a CREATE TABLE and an ALTER TABLE command
    produce;
  - the statement loop, generic in the ALTER TABLE effect, because the
    two copies differ only there.
- `Decimal` — Go's `%d` for the positive lengths the labels print.
- `Footprint` — a generic "no object appears in two places" predicate,
  used to frame the in-place updates.
- `Diagram` — the engine as a fallible operation log (`Engine`):
  - `Run` issues a plan of operations until the engine first rejects one;
  - `Plan` is the plan for a schema.
- `Sql2Diagram` — `cmd/sql2diagram/main.go`:
  - `Column`, `Table` and `Schema` are classes mutated in place;
  - a foreign reference is a value, because this copy never changes one
    after appending it.
- `LegacyMain` — `main.go`:
  - the foreign reference is a class, because the ALTER TABLE handler
    appends one object to several columns and keeps rewriting its
    column afterwards.

Every method that changes state is proved against a value-level
specification:
- `ExtractColumn`, `ToTableV` and `BuildWith` for extraction;
- `Run(…, Plan(…))` for synthesis.

The properties the program promises are then lemmas about those
functions.

## Model

| member | source | states |
|---|---|---|
| PgQuery.StringVals | cmd/sql2diagram/main.go:291-297 | The String values among a list of nodes, in order, never more than there are nodes; every other node kind is skipped. |
| SchemaModel.Count | cmd/sql2diagram/main.go:405-413 | A measure for the NOT NULL lemmas: how often a tag occurs in the tag list that the dedup loop scans; never more than the list's length. |
| SchemaModel.CountPositive | cmd/sql2diagram/main.go:405-413 | A helper linking the measure to the dedup loop's test: the tag list counts a tag at least once exactly when the tag is in it. |
| SchemaModel.LastInt | cmd/sql2diagram/main.go:356-368 | The length the type-modifier loop leaves: the value of the last integer constant among the modifiers, or none, in which case the length is kept. |
| SchemaModel.ForeignStep | cmd/sql2diagram/main.go:380-403 | An inline FOREIGN KEY: the column is unchanged when some (Pktable, String PkAttr) pair is already one of its references; otherwise it gains one reference to Pktable and the last String PkAttr ("" without one). |
| SchemaModel.ApplyConstraint | cmd/sql2diagram/main.go:371-415 | One node of the constraint loop. PRIMARY KEY appends "primary", FOREIGN KEY is `ForeignStep`, and NOT NULL appends "not null" only when it is absent. Other constraints and non-constraint nodes change nothing. |
| SchemaModel.ApplyConstraints | cmd/sql2diagram/main.go:371-416 | One pass of the constraint loop: `ApplyConstraint` for each node, in order. |
| SchemaModel.NameStep | cmd/sql2diagram/main.go:352-416 | One String name node: the type is set, the length is taken from `LastInt` (kept without one), and a whole pass of the constraint loop reruns. |
| SchemaModel.ApplyNames | cmd/sql2diagram/main.go:346-417 | The name loop: `NameStep` for each String name node, in order; other nodes are skipped. |
| SchemaModel.ExtractColumn | cmd/sql2diagram/main.go:341-420 | The column a definition yields: named after Colname, with no type, tags, references or length, then run through the name loop. |
| SchemaModel.TableColumns | cmd/sql2diagram/main.go:329-336 | One `ExtractColumn` per ColumnDef element, in order; other elements are skipped. |
| SchemaModel.ToTableV | cmd/sql2diagram/main.go:324-339 | A CREATE TABLE statement's table: the relation name and its `TableColumns`. |
| SchemaModel.ConstraintsKeepIdentity | cmd/sql2diagram/main.go:371-416 | The constraint loop never changes a column's name, type or length. |
| SchemaModel.NamesShape | cmd/sql2diagram/main.go:346-368 | Over the type's name nodes: the name is kept; the type is the last String name; the length is the last integer modifier once a String name was seen. With no String name the column is untouched. |
| SchemaModel.ExtractColumnShape | cmd/sql2diagram/main.go:341-368 | An extracted column is named after Colname and typed by the last String name. Its length is the last integer type modifier, or 0 without one. A type with no String name gives an empty type, no tags and no references. |
| SchemaModel.ConstraintsNotNullOnce | cmd/sql2diagram/main.go:404-414 | One pass of the constraint loop keeps "not null" at most once, however many NOT NULL constraints there are. |
| SchemaModel.NamesNotNullOnce | cmd/sql2diagram/main.go:346-417 | Rerunning the constraint loop once per String name keeps "not null" at most once. |
| SchemaModel.NotNullAtMostOnce | cmd/sql2diagram/main.go:341-420 | An extracted column has "not null" at most once. |
| SchemaModel.ConstraintNotNullPresent | cmd/sql2diagram/main.go:404-414 | After one constraint node the column has "not null" exactly when it had it already or the node is a NOT NULL constraint. |
| SchemaModel.ConstraintsNotNullPresent | cmd/sql2diagram/main.go:371-416 | After one pass of the constraint loop the column has "not null" exactly when it had it already or some node is a NOT NULL constraint. |
| SchemaModel.NamesNotNullPresent | cmd/sql2diagram/main.go:346-417 | After the name loop the column has "not null" exactly when it had it already, or the type has a String name and some constraint is NOT NULL. |
| SchemaModel.NotNullExactlyOnce | cmd/sql2diagram/main.go:341-420 | An extracted column carries "not null" exactly once when its type has a String name and it has an inline NOT NULL constraint, and not at all otherwise. |
| SchemaModel.ConstraintsAddPrimary | cmd/sql2diagram/main.go:378-379 | One pass of the constraint loop adds "primary" exactly once per PRIMARY KEY constraint, with no guard. |
| SchemaModel.NamesAddPrimary | cmd/sql2diagram/main.go:346-417 | Over the name nodes, "primary" is added (number of String names) × (number of PRIMARY KEY constraints) times. |
| SchemaModel.PrimaryPerNamePass | cmd/sql2diagram/main.go:341-420 | An extracted column has "primary" exactly (String names) × (PRIMARY KEY constraints) times, so `pg_catalog.int4 PRIMARY KEY` tags it twice. |
| SchemaModel.ForeignStepDedups | cmd/sql2diagram/main.go:380-403 | An inline foreign key never appends a reference equal to an existing one, unless the new one has no column. |
| SchemaModel.ConstraintsDedup | cmd/sql2diagram/main.go:371-416 | The constraint loop keeps the references free of duplicates with a column. |
| SchemaModel.NamesDedup | cmd/sql2diagram/main.go:346-417 | So does rerunning it once per String name. |
| SchemaModel.InlineReferencesDeduped | cmd/sql2diagram/main.go:341-420 | An extracted column's references repeat only when they have no column. |
| SchemaModel.ForeignStepIdempotent | cmd/sql2diagram/main.go:380-403 | Rerunning an inline foreign key with some String PkAttr changes nothing. |
| SchemaModel.ColumnDefs | cmd/sql2diagram/main.go:329-333 | The ColumnDef elements of a CREATE TABLE, never more than there are elements. |
| SchemaModel.ToTableKeepsColumnDefs | cmd/sql2diagram/main.go:324-339 | A table's columns are exactly its ColumnDef elements, extracted one by one in declaration order; table constraints are skipped. |
| SchemaModel.TableNames | cmd/sql2diagram/main.go:236-241 | A helper: the table names, position by position, that the table lookup compares. |
| SchemaModel.FirstTable | cmd/sql2diagram/main.go:236-241 | The first table with the name, none before it has that name; there is none exactly when no table has the name. |
| SchemaModel.FirstColumn | cmd/sql2diagram/main.go:272-277 | The first column with the name; no column before it has that name. When there is none, no column has the name. |
| SchemaModel.TagColumn | cmd/sql2diagram/main.go:272-277 | Appends a tag to the first column of the name; nothing changes when no column has it. |
| SchemaModel.AddPrimaryKeys | cmd/sql2diagram/main.go:265-278 | `TagColumn` with "primary" for each key name, in order. |
| SchemaModel.RefColumn | cmd/sql2diagram/main.go:306-317 | Appends a reference to the first column of the name; nothing changes when there is none. |
| SchemaModel.AddForeignKeys | cmd/sql2diagram/main.go:300-318 | `RefColumn` with the same reference for each name, in order. |
| SchemaModel.PrimaryKeysEffect | cmd/sql2diagram/main.go:263-280 | ADD PRIMARY KEY adds "primary" to each column once per String key name that finds it first. Names that find no column are dropped. No column is added, removed, renamed or retyped. |
| SchemaModel.ForeignKeysEffect | cmd/sql2diagram/main.go:300-318 | The reference is appended, without dedup, once per name that finds a column, to that column. Nothing else changes. |
| SchemaModel.ApplyCommands | cmd/sql2diagram/main.go:247-319 | The command loop: a command effect applied to each command node, in order. |
| SchemaModel.AlterWith | cmd/sql2diagram/main.go:233-245 | ALTER TABLE on values: UnknownTable when no table has the relation name; otherwise the first such table's columns go through the command loop. |
| SchemaModel.BuildStep | cmd/sql2diagram/main.go:220-227 | One statement: CREATE TABLE appends `ToTableV`, ALTER TABLE is `AlterWith`, and anything else changes nothing. |
| SchemaModel.BuildWith | cmd/sql2diagram/main.go:214-231 | The statement loop: `BuildStep` for each statement in order; the first error ends the build. |
| SchemaModel.BuildErrSticky | cmd/sql2diagram/main.go:219-228 | The first failing ALTER TABLE ends the build with its error, whatever follows. |
| SchemaModel.BuildTableNames | cmd/sql2diagram/main.go:219-228 | A successful build has one table per CREATE TABLE, in statement order, named by its relation. |
| SchemaModel.BuildFailsIffUnknownTable | cmd/sql2diagram/main.go:219-245 | The build fails exactly when some ALTER TABLE names a relation that no earlier CREATE TABLE created, and then with UnknownTable. |
| SchemaModel.BuildCreatesOnly | cmd/sql2diagram/main.go:214-231 | Without ALTER TABLE the schema is the CREATE TABLE statements' tables, in order; other statements are ignored. |
| Decimal.NatToDecimal | cmd/sql2diagram/main.go:157 | The numeral of a length is nonempty and all digits. |
| Decimal.DecimalRoundTrip | cmd/sql2diagram/main.go:157 | The numeral reads back as the number, with no leading zero. |
| Diagram.Engine.Create | cmd/sql2diagram/main.go:142-145 | A create call is logged; it succeeds as the engine decides, and returns the engine's key for the new node. |
| Diagram.Engine.Set | cmd/sql2diagram/main.go:149-151 | A set call is logged and succeeds as the engine decides. |
| Diagram.Engine.CreateEdge | cmd/sql2diagram/main.go:202-204 | An edge create call is logged and succeeds as the engine decides. |
| Diagram.Run | cmd/sql2diagram/main.go:139-212 | What a run emits is a prefix of the plan: all of it on success, and never nothing on failure. |
| Diagram.RunAccepted | cmd/sql2diagram/main.go:139-212 | A plan the engine accepts throughout is emitted in full. |
| Diagram.RunOkAccepted | cmd/sql2diagram/main.go:139-212 | A successful run had every operation accepted. |
| Diagram.RunFailureLast | cmd/sql2diagram/main.go:143-145 | A failed run ends with the rejected operation, after accepted ones only. |
| Diagram.RunStopsAtFirstRejection | cmd/sql2diagram/main.go:139-212 | A run succeeds exactly when every operation is accepted. Otherwise it emits the accepted prefix and then the first rejected operation, and nothing after it. |
| Diagram.RunAppend | cmd/sql2diagram/main.go:139-212 | Running a + b runs a, then b only if all of a was accepted. |
| Diagram.EdgeOps | cmd/sql2diagram/main.go:177-206 | One edge create per reference, in order, from the column's path to the reference's table and column. |
| Diagram.RowOps | cmd/sql2diagram/main.go:153-206 | A column's row: the Set of `table.column` to its label, then its edges. |
| Diagram.ColumnsOps | cmd/sql2diagram/main.go:153-208 | `RowOps` for each column of a table, in order. |
| Diagram.Block | cmd/sql2diagram/main.go:140-208 | One table: the create of its name, the Set of the shape on the key the create returned, then its columns' operations. |
| Diagram.Plan | cmd/sql2diagram/main.go:139-212 | The `Block`s of all tables in order; each create's key is given by the engine from the log so far. |
| Diagram.EdgeOpsCounts | cmd/sql2diagram/main.go:177-206 | A column's edges create no node and are one edge per reference. |
| Diagram.ColumnsOpsCounts | cmd/sql2diagram/main.go:153-208 | A table's rows create no node and have one edge per reference of its columns. |
| Diagram.PlanNodesAndEdges | cmd/sql2diagram/main.go:139-212 | For any labels and keys, the plan creates one node per table, named after it, in schema order, and one edge per foreign reference. |
| Sql2Diagram.Column.constructor | cmd/sql2diagram/main.go:342-344 | A new column named after Colname, with no type, tags, references or length. |
| Sql2Diagram.Column.AddNotNull | cmd/sql2diagram/main.go:404-414 | "not null" is appended only when absent; otherwise the column is unchanged. |
| Sql2Diagram.Column.AddInlineForeignKey | cmd/sql2diagram/main.go:380-403 | The column becomes `ForeignStep` of itself: the (Pktable, String PkAttr) dedup, then the append of the reference to the last String PkAttr. |
| Sql2Diagram.Column.HasReference | cmd/sql2diagram/main.go:392-396 | True exactly when the (table, column) pair is among the column's references. |
| Sql2Diagram.Column.SetType | cmd/sql2diagram/main.go:353-368 | The type becomes the name; the length becomes the last integer modifier, or stays. |
| Sql2Diagram.Column.AddConstraints | cmd/sql2diagram/main.go:371-416 | The constraint loop as `ApplyConstraints`. |
| Sql2Diagram.Table.constructor | cmd/sql2diagram/main.go:325-327 | A new table named after the relation, with no columns. |
| Sql2Diagram.Table.AppendColumn | cmd/sql2diagram/main.go:335 | Appends the column object and its value; the column objects stay distinct. |
| Sql2Diagram.Table.FindColumn | cmd/sql2diagram/main.go:272-277 | Finds the first column of the name, or none exactly when no column has it. |
| Sql2Diagram.Table.TagAt | cmd/sql2diagram/main.go:274 | The write step of `TagNamed`: appending the tag to the column object found first changes exactly that position of the column values, as `TagColumn`. |
| Sql2Diagram.Table.ReferenceAt | cmd/sql2diagram/main.go:316 | The write step of `ReferenceNamed`: appending the reference to the column object found first changes exactly that position, as `RefColumn`. |
| Sql2Diagram.Table.TagNamed | cmd/sql2diagram/main.go:272-277 | Appends the tag to the first column of the name; with no such column nothing changes. |
| Sql2Diagram.Table.ReferenceNamed | cmd/sql2diagram/main.go:306-317 | Appends the reference to the first column of the name; a missing column is skipped. |
| Sql2Diagram.Table.AddPrimaryKey | cmd/sql2diagram/main.go:263-280 | The columns become `AddPrimaryKeys` of the String key names. |
| Sql2Diagram.Table.AddForeignKey | cmd/sql2diagram/main.go:286-318 | The columns become `AddForeignKeys`: keyed by the String FkAttrs; the reference is the Pktable and the last String PkAttr. |
| Sql2Diagram.Table.ApplyCommand | cmd/sql2diagram/main.go:247-319 | One command acts as `CommandEffect`. |
| Sql2Diagram.Table.ApplyCommands | cmd/sql2diagram/main.go:247-319 | The commands act in order, as `ApplyCommands(…, CommandEffect)`. |
| Sql2Diagram.ForeignReferenceOf | cmd/sql2diagram/main.go:286-297 | The reference of a foreign key: Pktable and the last String PkAttr, or "" without one. |
| Sql2Diagram.Schema.constructor | cmd/sql2diagram/main.go:215-217 | A new schema with no tables. |
| Sql2Diagram.Schema.AppendTable | cmd/sql2diagram/main.go:222 | Appends the table; the schema value grows by it, and no column object is shared. |
| Sql2Diagram.Schema.ApplyCommandsAt | cmd/sql2diagram/main.go:247-319 | The commands change the one table at the index; every other table keeps its value. |
| Sql2Diagram.Schema.FindTable | cmd/sql2diagram/main.go:234-241 | The linear search agrees with `FirstTable`. |
| Sql2Diagram.GenerateColumnProperties | cmd/sql2diagram/main.go:341-420 | The new column's value is `ExtractColumn` of the definition. |
| Sql2Diagram.ToTable | cmd/sql2diagram/main.go:324-339 | The new table's value is `ToTableV`; its column objects are fresh and distinct. |
| Sql2Diagram.CommandEffect | cmd/sql2diagram/main.go:247-319 | One ALTER TABLE command of the current handler. ADD CONSTRAINT PRIMARY KEY is `AddPrimaryKeys` by the String Keys. ADD CONSTRAINT FOREIGN KEY is `AddForeignKeys` by the String FkAttrs, with the reference (Pktable, last String PkAttr or ""). Any other command changes nothing. |
| Sql2Diagram.AlterSpec | cmd/sql2diagram/main.go:233-322 | The current ALTER TABLE handler on values: `AlterWith` with `CommandEffect`. |
| Sql2Diagram.BuildSpec | cmd/sql2diagram/main.go:214-231 | The current schema build on values: `BuildWith` with `CommandEffect`. |
| Sql2Diagram.CommandEffectCases | cmd/sql2diagram/main.go:247-319 | PRIMARY KEY tags the columns its Keys name, once per name. FOREIGN KEY gives the columns its FkAttrs name the reference (Pktable, last String PkAttr), once per name. Every other command, subtype or constraint type changes nothing. |
| Sql2Diagram.AlterTable | cmd/sql2diagram/main.go:233-322 | No table of the name: UnknownTable, and the schema is unchanged. Otherwise the first such table becomes `AlterSpec`'s result and nothing else changes. |
| Sql2Diagram.HandleStatement | cmd/sql2diagram/main.go:220-227 | One statement acts as `BuildStep`: CREATE appends, ALTER changes or fails, anything else is skipped. |
| Sql2Diagram.AstTreeToSchema | cmd/sql2diagram/main.go:214-231 | The schema is `BuildSpec` of the statements, or its first error. |
| Sql2Diagram.Contains | cmd/sql2diagram/main.go:423-430 | True exactly when the item occurs in the slice. |
| Sql2Diagram.Base | cmd/sql2diagram/main.go:155-158 | The printed type: the type, followed by the length in parentheses when the length is positive. |
| Sql2Diagram.Label | cmd/sql2diagram/main.go:155-171 | A row's label: `Base`, then " NULL" without "not null", " (PK)" with "primary", and " (FK)" with some reference. |
| Sql2Diagram.Markers | cmd/sql2diagram/main.go:160-171 | The marker suffix for the three flags, in the label's order. |
| Sql2Diagram.LabelIsBaseAndMarkers | cmd/sql2diagram/main.go:155-171 | A label is the printed type followed by the markers " NULL" (no "not null"), " (PK)" ("primary" present) and " (FK)" (some reference), in that order. |
| Sql2Diagram.MarkersRoundTrip | cmd/sql2diagram/main.go:160-171 | The three markers can be read back from the end of the label. |
| Sql2Diagram.LabelShowsFlags | cmd/sql2diagram/main.go:155-171 | Two columns of the same printed type get the same label only when they agree on NOT NULL, primary key and having a reference. |
| Sql2Diagram.ColumnLabel | cmd/sql2diagram/main.go:155-171 | The label built step by step is `Label` of the column. |
| Sql2Diagram.ResolveReferencedColumn | cmd/sql2diagram/main.go:178-193 | The resolved target column is always the reference's own column. |
| Sql2Diagram.EmitReferences | cmd/sql2diagram/main.go:177-206 | The engine is given the column's edges `T.c -> RT.RC` in reference order, up to the first rejection. |
| Sql2Diagram.EmitColumn | cmd/sql2diagram/main.go:153-206 | The engine is given the row's set, then its edges, up to the first rejection. |
| Sql2Diagram.EmitColumns | cmd/sql2diagram/main.go:153-208 | The engine is given every row in column order, up to the first rejection. |
| Sql2Diagram.EmitTable | cmd/sql2diagram/main.go:140-208 | The engine is given the node, then its `sql_table` shape under the key it returned, then the rows. |
| Sql2Diagram.TransformGraph | cmd/sql2diagram/main.go:139-212 | The log grows by exactly what running the schema's plan emits. The result is an error exactly when the engine rejected an operation. |
| LegacyMain.ForeignReference.constructor | main.go:221-223 | A new reference names the Pktable and no column yet. |
| LegacyMain.RefValuesShared | main.go:221-242 | A list ending in one shared object, k times, reads as that object's value k times. |
| LegacyMain.Column.constructor | main.go:266-268 | A new column named after Colname, with no type, tags, references or length. |
| LegacyMain.Column.AddNotNull | main.go:328-338 | As in the current program. |
| LegacyMain.Column.AddInlineForeignKey | main.go:304-327 | The reference object is created, rewritten per String PkAttr and appended when no pair matched. The column then reads as `ForeignStep` of its old value. |
| LegacyMain.Column.RewriteReference | main.go:308-321 | The PkAttr loop leaves the column as it was, rewrites the object to the last String PkAttr, and reports true exactly when some (Pktable, String PkAttr) pair is already a reference of the column. |
| LegacyMain.Column.HasReference | main.go:315-319 | True exactly when a reference of the column reads as the (table, column) pair. |
| LegacyMain.Column.Attach | main.go:325-327 | Appends a reference object; the column reads one more reference. |
| LegacyMain.Column.SetType | main.go:277-292 | As in the current program. |
| LegacyMain.Column.AddConstraints | main.go:295-340 | The constraint loop as `ApplyConstraints`, the same as in the current program. |
| LegacyMain.Table.constructor | main.go:249-251 | A new table named after the relation, with no columns. |
| LegacyMain.Table.AppendColumn | main.go:259 | Appends the column object and its value. |
| LegacyMain.Table.AddColumnDef | main.go:254-259 | One column definition: the columns read one more column, `ExtractColumn` of the definition, and the column objects stay distinct. |
| LegacyMain.Table.FindColumn | main.go:231-237 | Finds the first column of the name, or none exactly when no column has it. |
| LegacyMain.Table.SharedValues | main.go:221-242 | Once the shared object has reached the columns, the columns read as `AddForeignKeys` with that object's current value. |
| LegacyMain.Table.AddForeignKey | main.go:221-242 | The columns become `AddForeignKeys`, keyed by the String PkAttrs. Every appended entry reads (Pktable, last String PkAttr). |
| LegacyMain.Table.AppendShared | main.go:225-241 | One PkAttr: the object is renamed and appended to that column, once more. |
| LegacyMain.Table.ShareAll | main.go:225-241 | The loop over the PkAttrs: every column holds the shared object once per String PkAttr that finds it, nothing else about the columns changes, and the object then reads the last String PkAttr. |
| LegacyMain.Table.AttachAt | main.go:240 | The object is appended to the one column found, and no other column changes. |
| LegacyMain.Table.ApplyCommand | main.go:202-243 | One command acts as `LegacyEffect`. |
| LegacyMain.Table.ApplyCommands | main.go:202-243 | The commands act in order, as `ApplyCommands(…, LegacyEffect)`. |
| LegacyMain.LegacyEffect | main.go:202-243 | One ALTER TABLE command of the legacy handler. Only ADD CONSTRAINT FOREIGN KEY acts: `AddForeignKeys` by the String PkAttrs, with the reference (Pktable, last String PkAttr or ""). |
| LegacyMain.PkColumnsExist | main.go:231-241 | Every String PkAttr names a column of the table, so the column the handler appends to is never nil. |
| LegacyMain.CommandSafe | main.go:217-241 | A command that does not dereference nil: an ADD FOREIGN KEY whose PkAttrs all name columns, or any other command. |
| LegacyMain.CommandsSafe | main.go:202-243 | Every command of the statement is safe. |
| LegacyMain.LegacyEffectCases | main.go:202-243 | Only ADD CONSTRAINT FOREIGN KEY acts. It gives the columns its PkAttrs name, once per name, the reference (Pktable, last String PkAttr). PRIMARY KEY and everything else change nothing. |
| LegacyMain.LegacyEffectKeepsNames | main.go:202-243 | A command keeps the columns' names, so a later command finds the same columns. |
| LegacyMain.LegacyCommandsKeepNames | main.go:202-243 | So do the commands of a statement. |
| LegacyMain.CommandSafeSameNames | main.go:225-241 | Whether a command dereferences nil depends on the column names only. |
| LegacyMain.Schema.constructor | main.go:170-172 | A new schema with no tables. |
| LegacyMain.Schema.AppendTable | main.go:176 | Appends the table; the schema value grows by it. |
| LegacyMain.Schema.ApplyCommandsAt | main.go:202-243 | The commands change the one table at the index; every other table keeps its value. |
| LegacyMain.Schema.FindTable | main.go:191-196 | The linear search agrees with `FirstTable`, and changes nothing. |
| LegacyMain.AlterSpec | main.go:188-245 | The legacy ALTER TABLE handler on values: `AlterWith` with `LegacyEffect`. |
| LegacyMain.BuildSpec | main.go:169-186 | The legacy schema build on values: `BuildWith` with `LegacyEffect`. |
| LegacyMain.BuildSafe | main.go:174-183 | Every ALTER TABLE statement of the script is safe on the schema built before it. |
| LegacyMain.GenerateColumnProperties | main.go:265-344 | The new column's value is `ExtractColumn`, the same as in the current program. |
| LegacyMain.ToTable | main.go:248-263 | The new table's value is `ToTableV`. |
| LegacyMain.AlterTable | main.go:188-246 | UnknownTable without a table of the name. Otherwise the first one becomes `AlterSpec`'s result. Requires that the PkAttrs name existing columns. |
| LegacyMain.CreateTable | main.go:175-176 | The schema value grows by `ToTableV` of the statement. |
| LegacyMain.HandleStatement | main.go:174-182 | One statement acts as `BuildStep` with `LegacyEffect`. |
| LegacyMain.AstTreeToSchema | main.go:169-186 | The schema is `BuildSpec` of the statements, or its first error, for scripts that do not make the handler dereference nil. |
| LegacyMain.TypeLabel | main.go:145 | The legacy row label: the raw type. |
| LegacyMain.EmitReferences | main.go:148-160 | The engine is given `T.c -> RT.RC` per reference object: the raw table and column it reads, no lookup. |
| LegacyMain.EmitColumn | main.go:144-160 | The row is set to the raw type, then the edges follow. |
| LegacyMain.EmitColumns | main.go:144-162 | Every row in column order, up to the first rejection. |
| LegacyMain.EmitTable | main.go:131-162 | The node, its `sql_table` shape, then the rows. |
| LegacyMain.TransformGraph | main.go:130-167 | The log grows by exactly what running the schema's plan with raw-type rows emits. The result is an error exactly when the engine rejected an operation. |
| LegacyMain.LegacyForeignKeyMisplaced | main.go:225-241 | On `posts(id, user_id)` with `FOREIGN KEY (user_id) REFERENCES users(id)`, the reference lands on `posts.id` and `posts.user_id` gets none. |
| LegacyMain.CurrentForeignKeyPlaced | cmd/sql2diagram/main.go:300-318 | On the same script the current program puts the reference on `posts.user_id`. |

## Left out

- Sql2Diagram.GenerateColumnProperties: the program reads `TypeName.Names` without a nil test (cmd/sql2diagram/main.go:346). PostgreSQL leaves the type name unset in a column-options entry, as in `CREATE TABLE p1 PARTITION OF p (id NOT NULL) FOR VALUES IN (1);` or `CREATE TABLE t OF ty (id WITH OPTIONS NOT NULL);`, and the program then dereferences nil and panics. The model's `ColumnDef` always carries a type name, so extraction is total on inputs where the program crashes.
- LegacyMain.GenerateColumnProperties: the same nil dereference of `TypeName` (main.go:270), with the same inputs; it is not modelled either.
- `main` and `generateDiagram`: argument and flag parsing, file and stdin reads, the signal context, the empty-input check, SVG output and `log.Fatal`. These are process plumbing and I/O.
- `pgQuery.Parse`: the statement tree is an input value.
- d2 compile, layout, text measurement and SVG rendering: foreign libraries.
- The d2 engine itself: `Acceptor` decides which calls succeed and `Namer` gives the key a create call returns. Its key-renaming rules are not modelled.
- The edge create call: it is logged as `Edge(src, dst)`, equivalent to a create with key `src -> dst`.
- The `Printf` for a non-String type name node: console output only.
- Error message texts: only the variants `UnknownTable` and `EngineFailure` are kept.
- `Column.Length` holds a converted `int32`, so it can be negative. The model keeps it as an unbounded `int`; the label prints it only when it is positive, as the program does.
- LegacyMain.AstTreeToSchema: the legacy ALTER TABLE handler dereferences nil when a String PkAttr names no column of the table. That case is excluded by `BuildSafe` rather than modelled as a crash.

The model follows the code literally; in particular:
- the type is the LAST String name node;
- the NOT NULL tag is `"not null"` with a space;
- "primary" is not deduplicated, and is added once per pass of the constraint loop, that is once per String type name;
- table-level constraints inside CREATE TABLE are skipped, so `CREATE TABLE t (…, FOREIGN KEY (a) REFERENCES u(b))` yields no edge;
- in the current program the edge target lookup always yields the reference's own column.

## Findings

| source | as written | input that shows it | evidently intended | confidence | as-written member | corrected member |
|---|---|---|---|---|---|---|
| main.go:225-241 | the local column of ADD FOREIGN KEY is looked up by each PkAttr (the referenced table's column names) | `CREATE TABLE users (id int); CREATE TABLE posts (id int, user_id int); ALTER TABLE posts ADD FOREIGN KEY (user_id) REFERENCES users (id);` puts the reference on `posts.id` | the reference belongs on the FkAttr column `posts.user_id`, as the current program does | not executed | LegacyMain.LegacyForeignKeyMisplaced | Sql2Diagram.CommandEffectCases |
