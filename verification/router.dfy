/** The database router: reads go to the one database, writes and
    migrations of the application's own tables are refused. */
module Router {
  import opened Text

  /** The `_meta` of a model class: its application and table. */
  datatype ModelMeta = ModelMeta(appLabel: string, dbTable: string)

  const AppLabel: string := "transactions"
  const DefaultDb: string := "default"

  /** The application's three models. */
  const TransactionModel := ModelMeta(AppLabel, "TRANSACTION")
  const ExemptListModel := ModelMeta(AppLabel, "EXEMT_LIST")
  const UsersModel := ModelMeta(AppLabel, "USERS")

  /** Where a write goes, or the `PermissionDenied` message refusing it. */
  datatype WriteRoute = WriteDenied(message: string) | WriteTo(db: string)

  /** `db_for_read` */
  function DbForRead(m: ModelMeta): (db: string)
    ensures db == DefaultDb
  {
    DefaultDb
  }

  const DeniedPrefix: string := "Write operations are not allowed on "
  const DeniedSuffix: string := ". This application operates in read-only mode on the ZAKTOLL database."

  /** `db_for_write`: refused for the application's own models, with a
      message naming the table; every other model writes to the default
      database. */
  function DbForWrite(m: ModelMeta): (r: WriteRoute)
    ensures r.WriteDenied? <==> m.appLabel == AppLabel
    ensures r.WriteDenied? ==> OccursAt(r.message, m.dbTable, |DeniedPrefix|)
    ensures r.WriteTo? ==> r.db == DefaultDb
  {
    if m.appLabel == AppLabel then
      var msg := DeniedPrefix + m.dbTable + DeniedSuffix;
      assert msg[|DeniedPrefix|..|DeniedPrefix| + |m.dbTable|] == m.dbTable;
      WriteDenied(msg)
    else WriteTo(DefaultDb)
  }

  /** `allow_migrate`: never for the application's own tables; otherwise
      only on the default database. */
  function AllowMigrate(db: string, appLabel: string): (r: bool)
    ensures appLabel == AppLabel ==> !r
    ensures appLabel != AppLabel ==> (r <==> db == DefaultDb)
  {
    if appLabel == AppLabel then false else db == DefaultDb
  }

  /** `allow_relation` */
  function AllowRelation<A, B>(a: A, b: B): (r: bool)
    ensures r
  {
    true
  }

  /** Every table of the application is read from the default database,
      refuses writes with its own name in the message, and is never
      migrated, on any database. */
  lemma AppTablesAreReadOnly(m: ModelMeta, db: string)
    requires m in {TransactionModel, ExemptListModel, UsersModel}
    ensures DbForRead(m) == DefaultDb
    ensures DbForWrite(m).WriteDenied?
    ensures Contains(DbForWrite(m).message, m.dbTable)
    ensures !AllowMigrate(db, m.appLabel)
  {
    assert OccursAt(DbForWrite(m).message, m.dbTable, |DeniedPrefix|);
  }

  /** Whenever a write is routed at all, it goes where reads go. */
  lemma WritesThatPassGoWhereReadsGo(m: ModelMeta)
    ensures DbForWrite(m).WriteTo? <==> m.appLabel != AppLabel
    ensures DbForWrite(m).WriteTo? ==> DbForWrite(m).db == DbForRead(m)
  {
  }
}
