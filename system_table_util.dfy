/** `SystemTableUtil`: the snapshot-id virtual column. A schema is
    extended with one synthetic optional long column, records are copied
    into the extended shape with the snapshot id in that column, and the
    column's name comes from the configuration or a fixed default. */
module SystemTableUtil {
  import opened IcebergTypes
  import opened GenericRecords

  /** The configuration key that names the virtual column. */
  const VirtualColumnName: string := "iceberg.hive.snapshot.virtual.column.name"

  /** The name used when the key is not set. */
  const DefaultSnapshotIdColumnName: string := "snapshot__id"

  /** The identifier reserved for the virtual column. */
  const VirtualColumnId: int32 := IntegerMaxValue

  /** Hadoop's `Configuration`, as the key/value settings it holds. */
  datatype Configuration = Configuration(settings: map<string, string>) {
    /** `conf.get(key)`: the value set for `key`, or `None` for Java's `null`. */
    function Get(key: string): (v: Option<string>)
      ensures v.Some? <==> key in settings
      ensures v.Some? ==> v.value == settings[key]
    {
      if key in settings then Some(settings[key]) else None
    }
  }

  /** `java.util.Properties`, as the string properties it holds. */
  datatype Properties = Properties(entries: map<string, string>) {
    /** `properties.getProperty(key)`: the value set for `key`, or `None` for Java's `null`. */
    function GetProperty(key: string): (v: Option<string>)
      ensures v.Some? <==> key in entries
      ensures v.Some? ==> v.value == entries[key]
    {
      if key in entries then Some(entries[key]) else None
    }
  }

  /** The case the code leaves undefined is excluded: the virtual column's
      name and identifier must both be new to the schema, which also rules
      out extending a schema that already carries the virtual column. */
  predicate CanAugment(schema: Schema, columnName: string) {
    columnName !in Names(schema) && VirtualColumnId !in Ids(schema)
  }

  /** The schema whose columns are those of `schema`, unchanged and in
      order, followed by the optional long column `columnName` with the
      reserved identifier. */
  function SchemaWithSnapshotIdVirtualColumn(schema: Schema, columnName: string): (r: Schema)
    requires CanAugment(schema, columnName)
    ensures |r| == |schema| + 1
    ensures r[..|schema|] == schema
    ensures r[|schema|].id == IntegerMaxValue && r[|schema|].name == columnName
    ensures r[|schema|].isOptional && r[|schema|].ty == LongType
    ensures Names(r) == Names(schema) + {columnName}
    ensures Ids(r) == Ids(schema) + {IntegerMaxValue}
    ensures UniqueNames(schema) ==> UniqueNames(r)
    ensures IndexOf(r, columnName) == |schema|
  {
    var r := schema + [NestedField(VirtualColumnId, columnName, true, LongType)];
    assert r[|schema|].name == columnName;
    assert r[|schema|].id == VirtualColumnId;
    r
  }

  /** The record bound to the extended schema whose first slots are the
      first `|oldSchema|` slots of `record`, copied by position, and whose
      last slot holds `snapshotId`. `record` itself is only read. */
  method RecordWithSnapshotIdVirtualColumn(record: GenericRecord, snapshotId: int64, oldSchema: Schema,
                                           virtualColumnName: string)
    returns (newRecord: GenericRecord)
    requires |oldSchema| <= record.values.Length
    requires CanAugment(oldSchema, virtualColumnName)
    ensures fresh(newRecord) && fresh(newRecord.values) && newRecord.Valid()
    ensures newRecord.schema == SchemaWithSnapshotIdVirtualColumn(oldSchema, virtualColumnName)
    ensures newRecord.values[..] == record.values[..|oldSchema|] + [LongValue(snapshotId)]
  {
    var newSchema := SchemaWithSnapshotIdVirtualColumn(oldSchema, virtualColumnName);
    newRecord := new GenericRecord.Create(newSchema);
    for i := 0 to |oldSchema|
      invariant newRecord.values[..i] == record.values[..i]
      invariant forall k :: i <= k < newRecord.values.Length ==> newRecord.values[k] == Null
    {
      newRecord.Set(i, record.Get(i));
    }
    newRecord.SetField(virtualColumnName, LongValue(snapshotId));
  }

  /** `snapshotIdVirtualColumnName(Configuration)`: the configured value,
      whatever it is (the empty string included), else the default. */
  function SnapshotIdVirtualColumnName(conf: Configuration): (name: string)
    ensures VirtualColumnName !in conf.settings ==> name == DefaultSnapshotIdColumnName
    ensures VirtualColumnName in conf.settings ==> name == conf.settings[VirtualColumnName]
  {
    match conf.Get(VirtualColumnName)
    case None => DefaultSnapshotIdColumnName
    case Some(virtualColumnName) => virtualColumnName
  }

  /** `snapshotIdVirtualColumnName(Properties)`: the same rule over a properties map. */
  function SnapshotIdVirtualColumnNameOfProperties(properties: Properties): (name: string)
    ensures VirtualColumnName !in properties.entries ==> name == DefaultSnapshotIdColumnName
    ensures VirtualColumnName in properties.entries ==> name == properties.entries[VirtualColumnName]
  {
    match properties.GetProperty(VirtualColumnName)
    case None => DefaultSnapshotIdColumnName
    case Some(virtualColumnName) => virtualColumnName
  }

  /** Both carriers resolve the same name from the same settings. */
  lemma NameResolutionIsCarrierAgnostic(conf: Configuration, properties: Properties)
    requires conf.settings == properties.entries
    ensures SnapshotIdVirtualColumnName(conf) == SnapshotIdVirtualColumnNameOfProperties(properties)
  {
  }

  /** The resolved name is empty exactly when the key is set to the empty
      string: the default is never empty and a configured value is kept verbatim. */
  lemma ResolvedNameEmptyIff(conf: Configuration)
    ensures SnapshotIdVirtualColumnName(conf) == ""
        <==> VirtualColumnName in conf.settings && conf.settings[VirtualColumnName] == ""
  {
    if VirtualColumnName !in conf.settings {
      assert DefaultSnapshotIdColumnName[0] == 's';
    }
  }

  /** The resolved name is the default exactly when the key is unset or set to the default itself. */
  lemma ResolvedNameIsDefaultIff(conf: Configuration)
    ensures SnapshotIdVirtualColumnName(conf) == DefaultSnapshotIdColumnName
        <==> VirtualColumnName !in conf.settings || conf.settings[VirtualColumnName] == DefaultSnapshotIdColumnName
  {
  }
}
