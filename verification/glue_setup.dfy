/**
 * The catalog setup (`glue/setup_catalog.py`): create the database unless it exists,
 * drop the events table if present, create it afresh with a fixed definition over the
 * ingestion prefix, then ask the query service to discover the partitions.
 */
module GlueSetup {
  import opened Wrappers
  import opened Strings
  import opened Timestamp
  import opened ParkingEvents
  import opened Ingestion
  import opened QueryRunner
  import opened Config

  datatype Column = Column(name: string, typ: string)

  /** The parts of a table definition the setup fills in. */
  datatype TableDef = TableDef(
    name: string, description: string, tableType: string, parameters: map<string, string>,
    columns: seq<Column>, location: string, inputFormat: string, outputFormat: string,
    serializationLibrary: string, serdeParameters: map<string, string>, compressed: bool,
    partitionKeys: seq<Column>)

  const TableName := "parking_events"

  /** The definition `create_table` submits. */
  const ParkingEventsTable := TableDef(
    TableName, "Parking events data", "EXTERNAL_TABLE",
    map["classification" := "json", "typeOfData" := "file", "EXTERNAL" := "TRUE"],
    [Column("spot_id", "string"), Column("status", "string"), Column("timestamp", "string")],
    "s3://parking-monitoring-data/parking-data",
    "org.apache.hadoop.mapred.TextInputFormat",
    "org.apache.hadoop.hive.ql.io.HiveIgnoreKeyTextOutputFormat",
    "org.openx.data.jsonserde.JsonSerDe",
    map["serialization.format" := "1", "paths" := "spot_id,status,timestamp"],
    false,
    [Column("year", "string"), Column("month", "string"), Column("day", "string"), Column("hour", "string")])

  /** The table's columns are exactly the fields of a parking event, all strings. */
  lemma TableColumnsMatchEvents(e: Event)
    ensures |ParkingEventsTable.columns| == 3
    ensures forall c :: c in ParkingEventsTable.columns ==> c.typ == "string"
    ensures (set c | c in ParkingEventsTable.columns :: c.name) == ToObject(e).Keys
  {
    var cs := ParkingEventsTable.columns;
    assert forall c :: c in cs <==> c == cs[0] || c == cs[1] || c == cs[2];
    assert (set c | c in cs :: c.name) == {"spot_id", "status", "timestamp"};
  }

  /** The serde reads the fields in column order. */
  lemma SerdePathsFollowColumns()
    ensures var cs := ParkingEventsTable.columns;
      |cs| == 3 && ParkingEventsTable.serdeParameters["paths"] == cs[0].name + "," + cs[1].name + "," + cs[2].name
  {
    SerdePathsText();
  }

  lemma SerdePathsText()
    ensures "spot_id" + "," + "status" + "," + "timestamp" == "spot_id,status,timestamp"
  {
  }

  /** The table location is the bucket's ingestion prefix. */
  lemma LocationIsKeyPrefix()
    ensures ParkingEventsTable.location == "s3://" + S3Bucket + "/" + KeyPrefix
  {
    BucketUrl();
  }

  lemma BucketUrl()
    ensures "s3://" + S3Bucket + "/" == "s3://parking-monitoring-data/"
  {
  }

  /** The partition keys, in order. */
  lemma PartitionKeyNames()
    ensures |ParkingEventsTable.partitionKeys| == 4
    ensures ParkingEventsTable.partitionKeys[0].name == "year" && ParkingEventsTable.partitionKeys[1].name == "month"
    ensures ParkingEventsTable.partitionKeys[2].name == "day" && ParkingEventsTable.partitionKeys[3].name == "hour"
    ensures forall c :: c in ParkingEventsTable.partitionKeys ==> c.typ == "string"
  {
  }

  /** Every object the handler writes lies in a partition directory under the table location. */
  lemma StoredObjectsUnderTable(t: DateTime, topic: string, partition: nat, offset: nat)
    requires Valid(t)
    ensures "s3://" + S3Bucket + "/" + S3Key(t, topic, partition, offset)
      == ParkingEventsTable.location + "/" + PartitionPath(t) + "/" + ObjectName(topic, partition, offset)
  {
    LocationIsKeyPrefix();
  }

  /** The partition directory spells the table's partition keys in order: `year=../month=../day=../hour=..`. */
  lemma PartitionPathSpellsKeys(t: DateTime)
    requires Valid(t)
    ensures var k := ParkingEventsTable.partitionKeys;
      |k| == 4 &&
      PartitionPath(t) == k[0].name + "=" + NatToString(t.year)
        + ("/" + k[1].name + "=" + Pad2(t.month) + ("/" + k[2].name + "=") + Pad2(t.day)
           + ("/" + k[3].name + "=") + Pad2(t.hour))
  {
    PartitionKeyLabels();
  }

  lemma PartitionKeyLabels()
    ensures var k := ParkingEventsTable.partitionKeys;
      && |k| == 4 && k[0].name + "=" == "year=" && "/" + k[1].name + "=" == "/month="
      && "/" + k[2].name + "=" == "/day=" && "/" + k[3].name + "=" == "/hour="
  {
    PartitionKeyNames();
  }

  /** The table's key in the catalog. */
  const TableKey := (CatalogDatabase, TableName)

  /** The catalog: its databases and its tables, keyed by database and table name. */
  class Catalog {
    var databases: set<string>
    var tables: map<(string, string), TableDef>

    /** Every table belongs to a database. */
    predicate Valid()
      reads this
    {
      forall k :: k in tables ==> k.0 in databases
    }

    constructor (databases: set<string>, tables: map<(string, string), TableDef>)
      requires forall k :: k in tables ==> k.0 in databases
      ensures this.databases == databases && this.tables == tables
      ensures Valid()
    {
      this.databases := databases;
      this.tables := tables;
    }

    /** `create_database()`: creates the database; if it already exists, that is reported and nothing changes. */
    method CreateDatabase() returns (created: bool)
      requires Valid()
      modifies this
      ensures Valid()
      ensures created == (CatalogDatabase !in old(databases))
      ensures databases == old(databases) + {CatalogDatabase} && tables == old(tables)
    {
      created := CatalogDatabase !in databases;
      if created {
        databases := databases + {CatalogDatabase};
      }
    }

    /** `delete_table_if_exists()`: drops the table; if it is not there, that is reported and nothing changes. */
    method DeleteTableIfExists() returns (deleted: bool)
      requires Valid()
      modifies this
      ensures Valid()
      ensures deleted == (TableKey in old(tables))
      ensures tables == old(tables) - {TableKey} && databases == old(databases)
    {
      deleted := TableKey in tables;
      if deleted {
        tables := tables - {TableKey};
      }
    }

    /**
     * `create_table()`: adds the definition when its database exists and the table does
     * not; otherwise the service's error is printed and swallowed, and nothing changes.
     */
    method CreateTable() returns (created: bool)
      requires Valid()
      modifies this
      ensures Valid()
      ensures created == (CatalogDatabase in old(databases) && TableKey !in old(tables))
      ensures tables == if created then old(tables)[TableKey := ParkingEventsTable] else old(tables)
      ensures databases == old(databases)
    {
      created := CatalogDatabase in databases && TableKey !in tables;
      if created {
        tables := tables[TableKey := ParkingEventsTable];
      }
    }

    /**
     * `main()`: database, delete, create, then the partition update. Whatever the catalog
     * held before, the database exists and the table has exactly the fixed definition;
     * other tables are untouched.
     */
    method SetupCatalog(engine: Engine) returns (outcome: Outcome, request: StartRequest, slept: nat)
      requires Valid()
      requires engine.start.Ok? ==> HasExit(engine.polls)
      modifies this
      ensures Valid()
      ensures databases == old(databases) + {CatalogDatabase}
      ensures tables == old(tables)[TableKey := ParkingEventsTable]
      ensures outcome == Expected(engine, UpdateConfig)
      ensures request.queryString == RepairStatement && request.database == CatalogDatabase
      ensures request.outputLocation == ResultsLocation && request.workGroup == None
      ensures slept == if engine.start.Ok? then 2 * FirstExit(engine.polls) else 0
    {
      var _ := CreateDatabase();
      var _ := DeleteTableIfExists();
      var created := CreateTable();
      assert created;
      assert tables == old(tables)[TableKey := ParkingEventsTable];
      outcome, request, slept := UpdatePartitions(engine);
    }
  }

  const RepairStatement := "MSCK REPAIR TABLE parking_analytics.parking_events"

  /** The partition update waits for the statement, two seconds between polls, and fetches nothing. */
  const UpdateConfig := RunnerConfig(2, StatusOnly)

  /**
   * `update_partitions()`: submits the repair in the catalog database (no workgroup given)
   * and waits for it, sleeping two seconds after each non-terminal observation; a failure
   * is reported with the state it ended in.
   */
  method UpdatePartitions(engine: Engine) returns (outcome: Outcome, request: StartRequest, slept: nat)
    requires engine.start.Ok? ==> HasExit(engine.polls)
    ensures request.queryString == RepairStatement && request.database == CatalogDatabase
    ensures request.outputLocation == ResultsLocation && request.workGroup == None
    ensures outcome == Expected(engine, UpdateConfig)
    ensures outcome.Completed? || outcome.Unsuccessful? || outcome.Raised?
    ensures slept == if engine.start.Ok? then 2 * FirstExit(engine.polls) else 0
  {
    request := StartRequest(RepairStatement, CatalogDatabase, ResultsLocation, None);
    outcome, slept := RunQuery(engine, UpdateConfig);
  }
}
