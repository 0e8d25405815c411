/** `IcebergSerDe.deserialize`: flattens the record an `IcebergWritable`
    carries into a Hive row, one value per column of the writable's schema,
    in the schema's declaration order, each looked up in the record by the
    column's name. */
module IcebergSerDe {
  import opened IcebergTypes
  import opened GenericRecords

  /** Every column `fields` names is a field of the record's schema. */
  predicate Covers(recordSchema: Schema, fields: Schema) {
    forall i :: 0 <= i < |fields| ==> fields[i].name in Names(recordSchema)
  }

  /** The row a record (bound to `recordSchema`, with slots `values`)
      flattens to against the columns `fields`: position i holds the
      record's value for the name of column i. */
  function Project(fields: Schema, recordSchema: Schema, values: seq<Value>): (row: Row)
    requires |values| == |recordSchema| && Covers(recordSchema, fields)
    ensures |row| == |fields|
    ensures forall i :: 0 <= i < |fields| ==> row[i] == FieldValue(recordSchema, values, fields[i].name)
    decreases |fields|
  {
    if fields == [] then []
    else [FieldValue(recordSchema, values, fields[0].name)] + Project(fields[1..], recordSchema, values)
  }

  /** `deserialize(writable)`, with the writable given by its schema and its
      record: the record is only read and the row is a new value. */
  method Deserialize(schema: Schema, record: GenericRecord) returns (row: Row)
    requires record.Valid() && Covers(record.schema, schema)
    ensures row == Project(schema, record.schema, record.values[..])
  {
    var fields := schema;
    row := [];
    for i := 0 to |fields|
      invariant |row| == i
      invariant forall k :: 0 <= k < i ==> row[k] == record.GetField(fields[k].name)
    {
      var obj := record.GetField(fields[i].name);
      row := row + [obj];
    }
  }

  /** Projecting a record against its own schema, when that schema's names
      are unique, gives back its slots in order. */
  lemma ProjectOwnSchema(schema: Schema, values: seq<Value>)
    requires |values| == |schema| && UniqueNames(schema)
    ensures Covers(schema, schema)
    ensures Project(schema, schema, values) == values
  {
    forall i | 0 <= i < |schema|
      ensures schema[i].name in Names(schema) && FieldValue(schema, values, schema[i].name) == values[i]
    {
      IndexOfUnique(schema, i);
    }
  }

  /** The row follows the order of the columns: listing the columns as
      `reordered[i] == fields[perm[i]]` lists the row's values the same way. */
  lemma ProjectFollowsColumnOrder(fields: Schema, reordered: Schema, perm: seq<nat>,
                                  recordSchema: Schema, values: seq<Value>)
    requires |values| == |recordSchema| && Covers(recordSchema, fields)
    requires |perm| == |reordered|
    requires forall i :: 0 <= i < |perm| ==> perm[i] < |fields| && reordered[i] == fields[perm[i]]
    ensures Covers(recordSchema, reordered)
    ensures forall i :: 0 <= i < |perm| ==>
      Project(reordered, recordSchema, values)[i] == Project(fields, recordSchema, values)[perm[i]]
  {
  }

  /** A column appended to the schema appends the record's value for its name to the row. */
  lemma ProjectAppendColumn(fields: Schema, field: NestedField, recordSchema: Schema, values: seq<Value>)
    requires |values| == |recordSchema| && Covers(recordSchema, fields) && field.name in Names(recordSchema)
    ensures Covers(recordSchema, fields + [field])
    ensures Project(fields + [field], recordSchema, values)
         == Project(fields, recordSchema, values) + [FieldValue(recordSchema, values, field.name)]
  {
  }

  /** The row depends on the record only through its values for the named
      columns: two records that agree on every projected name give the same row. */
  lemma ProjectDependsOnlyOnNamedValues(fields: Schema, schema1: Schema, values1: seq<Value>,
                                        schema2: Schema, values2: seq<Value>)
    requires |values1| == |schema1| && Covers(schema1, fields)
    requires |values2| == |schema2| && Covers(schema2, fields)
    requires forall i :: 0 <= i < |fields| ==>
      FieldValue(schema1, values1, fields[i].name) == FieldValue(schema2, values2, fields[i].name)
    ensures Project(fields, schema1, values1) == Project(fields, schema2, values2)
  {
  }
}
