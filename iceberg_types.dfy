/** The parts of Iceberg's type system that the Hive adapter relies on:
    Java's fixed-width integers, column types, nested fields, schemas as
    ordered field lists, and the values a record holds. */
module IcebergTypes {

  /** Java `int`. */
  newtype int32 = x: int | -0x8000_0000 <= x < 0x8000_0000

  /** Java `long`. */
  newtype int64 = x: int | -0x8000_0000_0000_0000 <= x < 0x8000_0000_0000_0000

  /** `Integer.MAX_VALUE`. */
  const IntegerMaxValue: int32 := 0x7fff_ffff

  datatype Option<T> = None | Some(value: T)

  /** The primitive column types the model distinguishes. */
  datatype Type = BooleanType | IntegerType | LongType | StringType

  /** `Types.NestedField`: an identifier, a name, a nullability flag and a type. */
  datatype NestedField = NestedField(id: int32, name: string, isOptional: bool, ty: Type)

  /** The columns of a `Schema`, in declaration order. */
  type Schema = seq<NestedField>

  /** A value held by a record; `Null` is Java's `null`. */
  datatype Value = Null | BooleanValue(b: bool) | IntegerValue(i: int32) | LongValue(l: int64) | StringValue(s: string)

  /** A row handed to Hive: values only, position i belongs to column i. */
  type Row = seq<Value>

  function Names(schema: Schema): set<string> {
    set i | 0 <= i < |schema| :: schema[i].name
  }

  function Ids(schema: Schema): set<int32> {
    set i | 0 <= i < |schema| :: schema[i].id
  }

  /** No two columns share a name. */
  predicate UniqueNames(schema: Schema) {
    forall i, j :: 0 <= i < j < |schema| ==> schema[i].name != schema[j].name
  }

  /** The position a record resolves a field name to: the first column carrying it. */
  function IndexOf(schema: Schema, name: string): (i: nat)
    requires name in Names(schema)
    ensures i < |schema| && schema[i].name == name
    ensures forall j :: 0 <= j < i ==> schema[j].name != name
  {
    if schema[0].name == name then 0
    else
      assert exists k :: 1 <= k < |schema| && schema[k].name == name;
      var k :| 1 <= k < |schema| && schema[k].name == name;
      assert schema[1..][k - 1].name == name;
      1 + IndexOf(schema[1..], name)
  }

  /** With unique names, a column's name leads back to that column's position. */
  lemma IndexOfUnique(schema: Schema, i: nat)
    requires UniqueNames(schema) && i < |schema|
    ensures schema[i].name in Names(schema)
    ensures IndexOf(schema, schema[i].name) == i
  {
  }
}
