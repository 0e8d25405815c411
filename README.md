# Snapshot-id virtual column and row deserialisation for the Iceberg Hive adapter

This project models two small pieces of the Iceberg adapter for Hive's MapReduce input path and proves
properties of them in Dafny.

- `SystemTableUtil` adds a synthetic "snapshot id" column to a table schema. The new column is optional,
  long-typed and has the reserved identifier `Integer.MAX_VALUE`. It copies each record into a new record
  bound to the extended schema. Base values are copied by position, and the snapshot id is set by the
  column's name. It also resolves that column's name from a Hadoop `Configuration` or from `Properties`
  under the key `iceberg.hive.snapshot.virtual.column.name`. When the key is unset, the name defaults to
  `snapshot__id`.
- `IcebergSerDe.deserialize` flattens a record into a Hive row. It produces one value per column of the
  writable's schema, in declaration order, and looks each value up in the record by the column's name.

Modules:

- `IcebergTypes` (`iceberg_types.dfy`): Java `int`/`long` as newtypes, column types, `NestedField`,
  schemas as field sequences, values, and `IndexOf`. `IndexOf` is the position a field name resolves to.
- `GenericRecords` (`generic_record.dfy`): Iceberg's `GenericRecord` as a class. It has a fixed schema and
  an array of value slots, with `Get`/`Set` by position and `GetField`/`SetField` by name. The
  materialiser fills a fresh record in place through these methods.
- `SystemTableUtil` (`system_table_util.dfy`): the constants, schema extension, record materialisation
  (a method with the source's copy loop) and both name-resolution overloads.
- `IcebergSerDe` (`iceberg_serde.dfy`): `Project`, the specification of a row, and `Deserialize`, the
  method with the source's loop that builds the row. Also lemmas on column order and on projecting a
  record against its own schema.
- `VirtualColumnRows` (`virtual_column_rows.dfy`): lemmas connecting the two pieces. Flattening a
  materialised record against the extended schema gives the base row followed by the snapshot id. It
  also holds a worked example built on the test table's schema and its row `{3, "Berta"}`. Read at an
  illustrative snapshot 7, that row becomes `[3, "Berta", 7]`.

Two behaviours of the code worth noting:

- A configured empty string is returned as the name verbatim. Only an unset key (Java `null`) selects the
  default.
- Deserialisation does not fail on a column the record lacks. The code asks `GenericRecord.getField`,
  whose behaviour is library code. The model excludes that case with a precondition instead of claiming
  an error.

## Model

| member | source | states |
|---|---|---|
| SystemTableUtil.SchemaWithSnapshotIdVirtualColumn | mr/src/main/java/org/apache/iceberg/mr/mapred/SystemTableUtil.java:39-43 | the result has one more column than the input; its first columns are the input's, unchanged and in order; the last is optional, long-typed, named `columnName` and has id `Integer.MAX_VALUE`; names and ids grow by exactly that column; unique names stay unique; the new name resolves to the last position |
| SystemTableUtil.RecordWithSnapshotIdVirtualColumn | mr/src/main/java/org/apache/iceberg/mr/mapred/SystemTableUtil.java:45-54 | returns a fresh record bound to the extended schema whose slots are the old record's first `\|oldSchema\|` slots, by position, followed by the snapshot id; the loop keeps "positions before i already copied, the rest still null"; the old record is only read |
| SystemTableUtil.SnapshotIdVirtualColumnName | mr/src/main/java/org/apache/iceberg/mr/mapred/SystemTableUtil.java:56-63 | unset key gives `snapshot__id`; a set key gives its value verbatim |
| SystemTableUtil.SnapshotIdVirtualColumnNameOfProperties | mr/src/main/java/org/apache/iceberg/mr/mapred/SystemTableUtil.java:65-72 | the same rule over `Properties`: unset gives `snapshot__id`, set gives the value verbatim |
| SystemTableUtil.NameResolutionIsCarrierAgnostic | mr/src/main/java/org/apache/iceberg/mr/mapred/SystemTableUtil.java:56-72 | a `Configuration` and a `Properties` with the same entries resolve the same name |
| SystemTableUtil.ResolvedNameEmptyIff | mr/src/main/java/org/apache/iceberg/mr/mapred/SystemTableUtil.java:57-62 | the name is empty if and only if the key is set to the empty string (no fallback for an empty value) |
| SystemTableUtil.ResolvedNameIsDefaultIff | mr/src/main/java/org/apache/iceberg/mr/mapred/SystemTableUtil.java:57-62 | the name is `snapshot__id` if and only if the key is unset or set to `snapshot__id` |
| GenericRecords.GenericRecord.Create | mr/src/main/java/org/apache/iceberg/mr/mapred/SystemTableUtil.java:48 | a fresh record bound to the given schema, one null slot per column |
| GenericRecords.GenericRecord.Set | mr/src/main/java/org/apache/iceberg/mr/mapred/SystemTableUtil.java:50 | overwrites exactly the slot at the position, nothing else |
| GenericRecords.GenericRecord.SetField | mr/src/main/java/org/apache/iceberg/mr/mapred/SystemTableUtil.java:52 | overwrites exactly the slot the name resolves to, nothing else |
| GenericRecords.GenericRecord.GetField | mr/src/main/java/org/iceberg/mr/mapred/IcebergSerDe.java:83 | reads the slot the name resolves to in the record's own schema |
| GenericRecords.FieldValue | mr/src/main/java/org/iceberg/mr/mapred/IcebergSerDe.java:83 | the value read for a name is the slot of some column carrying that name |
| IcebergTypes.IndexOf | mr/src/main/java/org/iceberg/mr/mapred/IcebergSerDe.java:83 | a declared name resolves to the first column carrying it: that column has the name and no earlier one does |
| IcebergTypes.IndexOfUnique | mr/src/main/java/org/iceberg/mr/mapred/IcebergSerDe.java:83 | with unique names, column i's name resolves back to position i |
| IcebergSerDe.Project | mr/src/main/java/org/iceberg/mr/mapred/IcebergSerDe.java:80-86 | the row has one value per column of the schema, and value i is the record's value for the name of column i |
| IcebergSerDe.Deserialize | mr/src/main/java/org/iceberg/mr/mapred/IcebergSerDe.java:77-87 | the loop builds exactly the row `Project` specifies, reading the record without changing it |
| IcebergSerDe.ProjectOwnSchema | mr/src/main/java/org/iceberg/mr/mapred/IcebergSerDe.java:79-85 | projecting a record against its own schema, when that schema's names are unique, gives the record's slots in order |
| IcebergSerDe.ProjectFollowsColumnOrder | mr/src/main/java/org/iceberg/mr/mapred/IcebergSerDe.java:80-82 | reordering the schema's columns reorders the row the same way |
| IcebergSerDe.ProjectAppendColumn | mr/src/main/java/org/iceberg/mr/mapred/IcebergSerDe.java:82-84 | one more column at the end of the schema adds the record's value for that column's name at the end of the row |
| IcebergSerDe.ProjectDependsOnlyOnNamedValues | mr/src/main/java/org/iceberg/mr/mapred/IcebergSerDe.java:82-85 | two records that read the same value for every projected name give the same row, whatever their positional layout |
| VirtualColumnRows.IndexOfAfterAppend | mr/src/main/java/org/apache/iceberg/mr/mapred/SystemTableUtil.java:40-42 | appending a column does not change where an existing name resolves |
| VirtualColumnRows.IndexOfAppended | mr/src/main/java/org/apache/iceberg/mr/mapred/SystemTableUtil.java:41-42 | a name new to the schema, once appended, resolves to the last position |
| VirtualColumnRows.RowAfterAppend | mr/src/main/java/org/apache/iceberg/mr/mapred/SystemTableUtil.java:49-52 | a record with one slot appended, projected against its schema with one new-named column appended, gives the old row followed by that slot |
| VirtualColumnRows.VirtualColumnReadsSnapshotId | mr/src/main/java/org/apache/iceberg/mr/mapred/SystemTableUtil.java:52 | in the materialised record the virtual name reads the snapshot id |
| VirtualColumnRows.BaseColumnReadsBaseValue | mr/src/main/java/org/apache/iceberg/mr/mapred/SystemTableUtil.java:49-51 | in the materialised record every base name reads what it read in the base record |
| VirtualColumnRows.ExtendedRowIsBaseRowPlusSnapshotId | mr/src/main/java/org/apache/iceberg/mr/mapred/SystemTableUtil.java:47-53 | projecting the materialised record against the extended schema gives the base record's row against the base schema, followed by the snapshot id |
| VirtualColumnRows.ExtendedRowOfUniqueSchema | mr/src/main/java/org/apache/iceberg/mr/mapred/SystemTableUtil.java:47-53 | with unique base names, that row is the base slots followed by the snapshot id |
| VirtualColumnRows.ReadWithSnapshotId | mr/src/main/java/org/apache/iceberg/mr/mapred/SystemTableUtil.java:45-54 | materialising a record and deserialising it gives the record's row followed by the snapshot id |
| VirtualColumnRows.BertaAtSnapshotSeven | mr/src/test/java/org/apache/iceberg/mr/mapred/TestInputFormatWithHadoopTables.java:69-79 | the schema (required long `id`, optional string `data`) and the record `{3, "Berta"}` come from the test table; the test itself never reads the virtual column, so snapshot 7 is an illustrative value; with the default name the row is `[3, "Berta", 7]` |

## Left out

- `IcebergSerDe.initialize` reads table metadata from a file system path. That is I/O and is not modelled.
- `IcebergSerDe.getObjectInspector` is not modelled. It returns the object inspector made at
  initialisation, and the inspector generator is not part of this model.
- `serialize`, `getSerializedClass` and `getSerDeStats` are not modelled. They are stubs that return `null`.
- `IcebergWritable` is not part of this model. `Deserialize` takes the writable's schema and record
  directly, so the failing cast of a foreign `Writable` is not modelled.
- `Collections.unmodifiableList` is captured by the row being an immutable sequence.
- Schemas are immutable values, so "the input schema is not modified" holds by construction.
- IcebergSerDe.Project: requires every column name to be declared by the record's schema. What
  `GenericRecord.getField` returns for an unknown name is library code not shown, so that case is excluded
  rather than modelled as `null` or as an error.
- IcebergSerDe.Deserialize: carries the same precondition as `Project`, for the same reason.
- SystemTableUtil.SchemaWithSnapshotIdVirtualColumn: requires that the virtual name and the reserved id are
  new to the schema. The code does not guard a name collision or a second extension, and their outcome is
  undefined there.
- SystemTableUtil.RecordWithSnapshotIdVirtualColumn: requires the same as above. It also requires the
  record to have at least `|oldSchema|` slots, because `record.get(i)` fails on a shorter record.
- IcebergTypes.IndexOf: a duplicated name resolves to its first column. The real `GenericRecord` builds
  its name index in library code not shown. Every lemma that depends on the choice assumes unique names
  or a virtual name new to the schema.
- `Configuration` and `Properties` are modelled as plain string maps. Hadoop's variable expansion and
  deprecated-key handling are left out, and so is the defaults chain of `Properties`.
- Only boolean, int, long and string column types and values are modelled. The modelled code never looks
  inside a column's type or a value: schema extension copies columns of any type, and deserialisation
  passes every value through unchanged. These four types therefore stand in for all others without
  losing any behaviour.
