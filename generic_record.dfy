/** Iceberg's `GenericRecord`: a record bound at creation to one schema,
    holding one value slot per column, readable and writable both by
    position and by field name. */
module GenericRecords {
  import opened IcebergTypes

  /** The value a record bound to `schema` with slots `values` gives for
      field `name`: the slot of the column that name resolves to. */
  function FieldValue(schema: Schema, values: seq<Value>, name: string): (v: Value)
    requires |values| == |schema| && name in Names(schema)
    ensures exists i :: 0 <= i < |schema| && schema[i].name == name && v == values[i]
  {
    values[IndexOf(schema, name)]
  }

  class GenericRecord {
    /** The schema the record is bound to; it never changes. */
    const schema: Schema
    /** One slot per column of `schema`, in column order. */
    const values: array<Value>

    predicate Valid() {
      values.Length == |schema|
    }

    /** `GenericRecord.create(schema)`: every slot starts out `null`. */
    constructor Create(schema: Schema)
      ensures this.schema == schema && Valid() && fresh(values)
      ensures forall i :: 0 <= i < values.Length ==> values[i] == Null
    {
      this.schema := schema;
      values := new Value[|schema|](_ => Null);
    }

    /** `get(pos)`. */
    function Get(pos: nat): Value
      requires pos < values.Length
      reads values
    {
      values[pos]
    }

    /** `getField(name)`, for a name the bound schema declares. */
    function GetField(name: string): (v: Value)
      requires Valid() && name in Names(schema)
      reads values
      ensures v == FieldValue(schema, values[..], name)
    {
      values[IndexOf(schema, name)]
    }

    /** `set(pos, value)`: overwrites one slot, by position. */
    method Set(pos: nat, value: Value)
      requires pos < values.Length
      modifies values
      ensures values[..] == old(values[..])[pos := value]
    {
      values[pos] := value;
    }

    /** `setField(name, value)`: overwrites the slot of the column the name resolves to. */
    method SetField(name: string, value: Value)
      requires Valid() && name in Names(schema)
      modifies values
      ensures values[..] == old(values[..])[IndexOf(schema, name) := value]
    {
      values[IndexOf(schema, name)] := value;
    }
  }
}
