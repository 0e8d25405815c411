/** How the virtual column reaches Hive: a record extended with the
    snapshot id, flattened against the extended schema, is the row of the
    original record followed by the snapshot id. */
module VirtualColumnRows {
  import opened IcebergTypes
  import opened GenericRecords
  import opened SystemTableUtil
  import opened IcebergSerDe

  /** Appending a column does not move the position an existing name resolves to. */
  lemma IndexOfAfterAppend(schema: Schema, field: NestedField, name: string)
    requires name in Names(schema)
    ensures name in Names(schema + [field])
    ensures IndexOf(schema + [field], name) == IndexOf(schema, name)
  {
    var s := schema + [field];
    assert s[IndexOf(schema, name)] == schema[IndexOf(schema, name)];
  }

  /** A name new to the schema, appended, resolves to the last position. */
  lemma IndexOfAppended(schema: Schema, field: NestedField)
    requires field.name !in Names(schema)
    ensures field.name in Names(schema + [field])
    ensures IndexOf(schema + [field], field.name) == |schema|
  {
    var s := schema + [field];
    assert s[|schema|] == field;
  }

  /** Every column of a schema is named in it. */
  lemma SchemaCoversItself(schema: Schema)
    ensures Covers(schema, schema)
  {
    forall i | 0 <= i < |schema| ensures schema[i].name in Names(schema) {
      assert schema[i].name == schema[i].name;
    }
  }

  /** In the extended record, the virtual column's name reads the snapshot id. */
  lemma VirtualColumnReadsSnapshotId(schema: Schema, columnName: string, values: seq<Value>, snapshotId: int64)
    requires CanAugment(schema, columnName) && |values| == |schema|
    ensures FieldValue(SchemaWithSnapshotIdVirtualColumn(schema, columnName), values + [LongValue(snapshotId)],
                       columnName) == LongValue(snapshotId)
  {
    var augmented := SchemaWithSnapshotIdVirtualColumn(schema, columnName);
    assert IndexOf(augmented, columnName) == |schema|;
  }

  /** In the extended record, a base column's name reads the value it read before. */
  lemma BaseColumnReadsBaseValue(schema: Schema, columnName: string, values: seq<Value>, snapshotId: int64,
                                 name: string)
    requires CanAugment(schema, columnName) && |values| == |schema| && name in Names(schema)
    ensures name in Names(SchemaWithSnapshotIdVirtualColumn(schema, columnName))
    ensures FieldValue(SchemaWithSnapshotIdVirtualColumn(schema, columnName), values + [LongValue(snapshotId)], name)
         == FieldValue(schema, values, name)
  {
    var augmented := SchemaWithSnapshotIdVirtualColumn(schema, columnName);
    IndexOfAfterAppend(schema, augmented[|schema|], name);
    assert augmented == schema + [augmented[|schema|]];
  }

  /** Flattening a record with one slot appended, against its schema with
      one new-named column appended, gives the old row plus that slot. */
  lemma RowAfterAppend(schema: Schema, field: NestedField, values: seq<Value>, value: Value)
    requires field.name !in Names(schema) && |values| == |schema|
    ensures Covers(schema, schema) && Covers(schema + [field], schema + [field])
    ensures Project(schema + [field], schema + [field], values + [value]) == Project(schema, schema, values) + [value]
  {
    var extendedSchema, extendedValues := schema + [field], values + [value];
    SchemaCoversItself(schema);
    SchemaCoversItself(extendedSchema);
    forall i | 0 <= i < |schema|
      ensures schema[i].name in Names(extendedSchema)
      ensures FieldValue(extendedSchema, extendedValues, schema[i].name) == FieldValue(schema, values, schema[i].name)
    {
      assert schema[i].name in Names(schema);
      IndexOfAfterAppend(schema, field, schema[i].name);
    }
    ProjectDependsOnlyOnNamedValues(schema, extendedSchema, extendedValues, schema, values);
    IndexOfAppended(schema, field);
    ProjectAppendColumn(schema, field, extendedSchema, extendedValues);
  }

  /** Flattening the extended record against the extended schema gives the
      row of the base record against the base schema, then the snapshot id. */
  lemma ExtendedRowIsBaseRowPlusSnapshotId(schema: Schema, columnName: string,
                                           values: seq<Value>, snapshotId: int64)
    requires CanAugment(schema, columnName) && |values| == |schema|
    ensures Covers(schema, schema)
    ensures Covers(SchemaWithSnapshotIdVirtualColumn(schema, columnName),
                   SchemaWithSnapshotIdVirtualColumn(schema, columnName))
    ensures Project(SchemaWithSnapshotIdVirtualColumn(schema, columnName),
                    SchemaWithSnapshotIdVirtualColumn(schema, columnName), values + [LongValue(snapshotId)])
         == Project(schema, schema, values) + [LongValue(snapshotId)]
  {
    var augmented := SchemaWithSnapshotIdVirtualColumn(schema, columnName);
    assert augmented == schema + [augmented[|schema|]];
    RowAfterAppend(schema, augmented[|schema|], values, LongValue(snapshotId));
  }

  /** With unique base names, the row of the extended record is exactly its
      base slots followed by the snapshot id. */
  lemma ExtendedRowOfUniqueSchema(schema: Schema, columnName: string, values: seq<Value>, snapshotId: int64)
    requires CanAugment(schema, columnName) && |values| == |schema| && UniqueNames(schema)
    ensures Covers(SchemaWithSnapshotIdVirtualColumn(schema, columnName),
                   SchemaWithSnapshotIdVirtualColumn(schema, columnName))
    ensures Project(SchemaWithSnapshotIdVirtualColumn(schema, columnName),
                    SchemaWithSnapshotIdVirtualColumn(schema, columnName), values + [LongValue(snapshotId)])
         == values + [LongValue(snapshotId)]
  {
    ExtendedRowIsBaseRowPlusSnapshotId(schema, columnName, values, snapshotId);
    ProjectOwnSchema(schema, values);
  }

  /** Materialise a record and hand it to the SerDe: the row is the base
      record's row followed by the snapshot id. */
  method ReadWithSnapshotId(record: GenericRecord, snapshotId: int64, virtualColumnName: string)
    returns (row: Row)
    requires record.Valid() && CanAugment(record.schema, virtualColumnName)
    ensures Covers(record.schema, record.schema)
    ensures row == Project(record.schema, record.schema, record.values[..]) + [LongValue(snapshotId)]
  {
    var extended := RecordWithSnapshotIdVirtualColumn(record, snapshotId, record.schema, virtualColumnName);
    assert record.values[..|record.schema|] == record.values[..];
    SchemaCoversItself(extended.schema);
    row := Deserialize(extended.schema, extended);
    ExtendedRowIsBaseRowPlusSnapshotId(record.schema, virtualColumnName, record.values[..], snapshotId);
  }

  /** The test table's schema: a required long `id` and an optional string `data`. */
  function TestSchema(): Schema {
    [NestedField(1, "id", false, LongType), NestedField(2, "data", true, StringType)]
  }

  /** The test table's row `{3, "Berta"}`, read at an illustrative
      snapshot 7 under the default column name, becomes `[3, "Berta", 7]`. */
  method BertaAtSnapshotSeven() returns (row: Row)
    ensures row == [LongValue(3), StringValue("Berta"), LongValue(7)]
  {
    var record := new GenericRecord.Create(TestSchema());
    record.Set(0, LongValue(3));
    record.Set(1, StringValue("Berta"));
    var name := SnapshotIdVirtualColumnName(Configuration(map[]));
    assert name == "snapshot__id";
    assert Names(TestSchema()) == {"id", "data"} by {
      assert TestSchema()[0].name == "id" && TestSchema()[1].name == "data";
    }
    assert |"snapshot__id"| == 12;
    assert Ids(TestSchema()) == {1, 2} by {
      assert TestSchema()[0].id == 1 && TestSchema()[1].id == 2;
    }
    assert UniqueNames(TestSchema());
    row := ReadWithSnapshotId(record, 7, name);
    ProjectOwnSchema(record.schema, record.values[..]);
  }
}
