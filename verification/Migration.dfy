/** Opening the database: creating what is missing, adding columns, and rebuilding
    backup_status from one row per guest to one row per guest and storage. */
module Migration {
  import opened Wrappers

  datatype TableName =
    | Guests | Schedules | Runs | Users | SecurityChecks | BackupStatus | BackupRuns
    | BackupStatusNew       // only during the rebuild
    | Other(name: string)   // not this program's

  datatype Column =
    | Vmid | Node | Name | Type | AppType | Tags | MaxMem | MaxCpu | Ip | OsFamily | OsId | UpdateSupported
    | LastSeen | Cron | Enabled | Id | StartedAt | FinishedAt | Status | Summary | Detail | Phase
    | Username | PasswordHash | CreatedAt | CheckedAt | SshActive | PasswordAuth | PermitRootLogin
    | AuthorizedKeysFiles | Fail2ban | SudoNopasswdLines | ListeningPorts | Raw
    | Storage | LastBackupAt | LastBackupSize | Verification

  datatype Value = Null | Int(n: int) | Text(s: string)

  type Row = map<Column, Value>

  datatype Table = Table(columns: set<Column>, key: set<Column>, rows: seq<Row>)

  type Tables = map<TableName, Table>

  datatype Error = TableExists | ConstraintFailed

  // The tables of SCHEMA.
  const CURRENT := [Guests, Schedules, Runs, Users, SecurityChecks, BackupStatus, BackupRuns]

  function Columns(name: TableName): set<Column> {
    match name
    case Guests => {Vmid, Node, Name, Type, AppType, Tags, MaxMem, MaxCpu, Ip, OsFamily, OsId, UpdateSupported,
                    LastSeen}
    case Schedules => {Vmid, Cron, Enabled}
    case Runs => {Id, Vmid, StartedAt, FinishedAt, Status, Summary, Detail, Phase}
    case Users => {Id, Username, PasswordHash, CreatedAt}
    case SecurityChecks => {Vmid, CheckedAt, SshActive, PasswordAuth, PermitRootLogin, AuthorizedKeysFiles, Fail2ban,
                            SudoNopasswdLines, ListeningPorts, Raw}
    case BackupRuns => {Id, Vmid, StartedAt, FinishedAt, Status, Summary, Detail}
    case BackupStatus => {Vmid, Storage, CheckedAt, LastBackupAt, LastBackupSize, Verification}
    case BackupStatusNew => {Vmid, Storage, CheckedAt, LastBackupAt, LastBackupSize, Verification}
    case Other(_) => {}
  }

  function Key(name: TableName): set<Column> {
    match name
    case Guests => {Vmid}
    case Schedules => {Vmid}
    case SecurityChecks => {Vmid}
    case BackupStatus => {Vmid, Storage}
    case BackupStatusNew => {Vmid, Storage}
    case _ => {Id}
  }

  function Fresh(name: TableName): Table {
    Table(Columns(name), Key(name), [])
  }

  // ALTER TABLE table ADD COLUMN column DEFAULT default
  datatype Alter = Alter(table: TableName, column: Column, default: Value)

  const MIGRATIONS := [
    Alter(Guests, MaxMem, Int(0)),
    Alter(Guests, MaxCpu, Int(0)),
    Alter(Guests, Ip, Text("")),
    Alter(Guests, OsFamily, Text("unknown")),
    Alter(Guests, OsId, Text("unknown")),
    Alter(Guests, UpdateSupported, Int(0)),
    Alter(Runs, Phase, Null)
  ]

  // ---------- the steps ----------

  // CREATE TABLE IF NOT EXISTS, for the first n tables
  function Created(db: Tables, n: nat): Tables
    requires n <= |CURRENT|
  {
    if n == 0 then db
    else
      var before := Created(db, n - 1);
      if CURRENT[n - 1] in before then before else before[CURRENT[n - 1] := Fresh(CURRENT[n - 1])]
  }

  function WithColumn(row: Row, c: Column, v: Value): Row {
    row[c := v]
  }

  function AddColumn(t: Table, c: Column, v: Value): Table {
    Table(t.columns + {c}, t.key, seq(|t.rows|, i requires 0 <= i < |t.rows| => WithColumn(t.rows[i], c, v)))
  }

  // "duplicate column" is swallowed
  function Altered(db: Tables, a: Alter): Tables
    requires a.table in db
  {
    if a.column in db[a.table].columns then db
    else db[a.table := AddColumn(db[a.table], a.column, a.default)]
  }

  function Migrated(db: Tables, alters: seq<Alter>): (r: Tables)
    requires forall a | a in alters :: a.table in db
    ensures r.Keys == db.Keys
  {
    if alters == [] then db
    else Altered(Migrated(db, alters[..|alters| - 1]), alters[|alters| - 1])
  }

  predicate Differ(a: Row, b: Row, key: set<Column>) {
    exists k :: k in key && k in a && k in b && a[k] != b[k]
  }

  // No two rows agree on all key columns.
  predicate KeyUnique(t: Table) {
    forall i, j | 0 <= i < j < |t.rows| :: Differ(t.rows[i], t.rows[j], t.key)
  }

  predicate ReferencesGuests(t: Table, guests: Table) {
    forall row | row in t.rows && Vmid in row ::
      exists g :: g in guests.rows && Vmid in g && g[Vmid] == row[Vmid]
  }

  // INSERT INTO backup_status_new SELECT vmid, ?, … FROM backup_status
  function Attributed(t: Table, storage: string): Table {
    Table(Columns(BackupStatusNew), Key(BackupStatusNew),
          seq(|t.rows|, i requires 0 <= i < |t.rows| => WithColumn(t.rows[i], Storage, Text(storage))))
  }

  predicate Insertable(t: Table, guests: Table) {
    KeyUnique(t) && ReferencesGuests(t, guests)
  }

  // CREATE is already committed when the INSERT opens a transaction; what fails after it is
  // rolled back to the empty new table.
  function Rebuilt(db: Tables, storage: string): (Tables, Option<Error>)
    requires BackupStatus in db && Guests in db
  {
    if Storage in db[BackupStatus].columns then (db, None)
    else if BackupStatusNew in db then (db, Some(TableExists))
    else
      var filled := Attributed(db[BackupStatus], storage);
      if !Insertable(filled, db[Guests]) then (db[BackupStatusNew := Fresh(BackupStatusNew)], Some(ConstraintFailed))
      else (db[BackupStatus := filled], None)
  }

  lemma {:induction false} CreatedTable(db: Tables, n: nat, t: TableName)
    requires n <= |CURRENT|
    ensures t in Created(db, n) <==> t in db || t in CURRENT[..n]
    ensures t in Created(db, n) ==> Created(db, n)[t] == if t in db then db[t] else Fresh(t)
  {
    if n > 0 {
      CreatedTable(db, n - 1, t);
      assert CURRENT[..n] == CURRENT[..n - 1] + [CURRENT[n - 1]];
    }
  }

  lemma AllCreated(db: Tables)
    ensures var c := Created(db, |CURRENT|);
            && (forall t | t in CURRENT :: t in c)
            && (forall t | t in c :: c[t] == if t in db then db[t] else Fresh(t))
            && (forall t | t in c && t !in CURRENT :: t in db)
            && (forall t | t in db :: t in c)
            && Guests in c && Runs in c && BackupStatus in c
  {
    assert CURRENT[..|CURRENT|] == CURRENT;
    forall t: TableName
      ensures t in Created(db, |CURRENT|) <==> t in db || t in CURRENT
      ensures t in Created(db, |CURRENT|) ==> Created(db, |CURRENT|)[t] == if t in db then db[t] else Fresh(t)
    {
      CreatedTable(db, |CURRENT|, t);
    }
    assert CURRENT[0] == Guests && CURRENT[2] == Runs && CURRENT[5] == BackupStatus;
  }

  // After SCHEMA and the column migrations.
  function Prepared(db: Tables): (r: Tables)
    ensures forall t | t in CURRENT :: t in r
    ensures Guests in r && BackupStatus in r
  {
    AllCreated(db);
    Migrated(Created(db, |CURRENT|), MIGRATIONS)
  }

  function InitDb(db: Tables, storage: string): (Tables, Option<Error>) {
    Rebuilt(Prepared(db), storage)
  }

  // ---------- what is committed on the way ----------

  // CREATE and ALTER are committed one by one; INSERT opens a transaction, which the DROP and the
  // renaming join and which ends with the connection.
  function CreateTrail(db: Tables, n: nat): (trail: seq<Tables>)
    requires n <= |CURRENT|
    ensures |trail| == n && forall k | 0 <= k < n :: trail[k] == Created(db, k + 1)
  {
    if n == 0 then [] else CreateTrail(db, n - 1) + [Created(db, n)]
  }

  function AlterTrail(db: Tables, n: nat): (trail: seq<Tables>)
    requires Guests in db && Runs in db && n <= |MIGRATIONS|
    ensures |trail| == n && forall k | 0 <= k < n :: trail[k] == Migrated(db, MIGRATIONS[..k + 1])
  {
    if n == 0 then [] else AlterTrail(db, n - 1) + [Migrated(db, MIGRATIONS[..n])]
  }

  // The new table beside the old one.
  predicate Rebuilds(db: Tables) {
    BackupStatus in db && Storage !in db[BackupStatus].columns && BackupStatusNew !in db
  }

  function RebuildTrail(db: Tables): seq<Tables> {
    if Rebuilds(db) then [db[BackupStatusNew := Fresh(BackupStatusNew)]] else []
  }

  /** Every state of the database that a process which dies while opening it can leave. */
  function Durable(db: Tables, storage: string): seq<Tables> {
    AllCreated(db);
    [db] + CreateTrail(db, |CURRENT|) + AlterTrail(Created(db, |CURRENT|), |MIGRATIONS|)
    + RebuildTrail(Prepared(db))
    + if InitDb(db, storage).1.None? then [InitDb(db, storage).0] else []
  }

  // ---------- the database being opened ----------

  class Store {
    var tables: Tables
    ghost var trail: seq<Tables>  // what has been committed since the opening began

    method CreateTables()
      modifies this
      ensures tables == Created(old(tables), |CURRENT|)
      ensures trail == old(trail) + CreateTrail(old(tables), |CURRENT|)
    {
      for n := 0 to |CURRENT|
        invariant tables == Created(old(tables), n)
        invariant trail == old(trail) + CreateTrail(old(tables), n)
      {
        if CURRENT[n] !in tables {
          tables := tables[CURRENT[n] := Fresh(CURRENT[n])];
        }
        trail := trail + [tables];
      }
    }

    method RunMigrations()
      requires Guests in tables && Runs in tables
      modifies this
      ensures tables == Migrated(old(tables), MIGRATIONS)
      ensures trail == old(trail) + AlterTrail(old(tables), |MIGRATIONS|)
    {
      for n := 0 to |MIGRATIONS|
        invariant tables == Migrated(old(tables), MIGRATIONS[..n])
        invariant trail == old(trail) + AlterTrail(old(tables), n)
      {
        var a := MIGRATIONS[n];
        assert MIGRATIONS[..n + 1][..n] == MIGRATIONS[..n];
        if a.column !in tables[a.table].columns {
          tables := tables[a.table := AddColumn(tables[a.table], a.column, a.default)];
        }
        trail := trail + [tables];
      }
      assert MIGRATIONS[..|MIGRATIONS|] == MIGRATIONS;
    }

    method MigrateBackupStatusPerStorage(storage: string) returns (e: Option<Error>)
      requires BackupStatus in tables && Guests in tables
      modifies this
      ensures (tables, e) == Rebuilt(old(tables), storage)
      ensures trail == old(trail) + RebuildTrail(old(tables))
    {
      if Storage in tables[BackupStatus].columns {
        return None;
      }
      if BackupStatusNew in tables {
        return Some(TableExists);
      }
      tables := tables[BackupStatusNew := Fresh(BackupStatusNew)];
      trail := trail + [tables];
      var filled := Attributed(tables[BackupStatus], storage);
      if !Insertable(filled, tables[Guests]) {
        return Some(ConstraintFailed);
      }
      tables := tables[BackupStatusNew := filled];
      tables := tables - {BackupStatus};
      tables := tables[BackupStatus := tables[BackupStatusNew]] - {BackupStatusNew};
      assert tables == old(tables)[BackupStatus := filled];
      return None;
    }

    method Init(storage: string) returns (e: Option<Error>)
      modifies this
      ensures (tables, e) == InitDb(old(tables), storage)
      ensures trail == Durable(old(tables), storage)
    {
      ghost var db := tables;
      AllCreated(db);
      trail := [db];
      CreateTables();
      RunMigrations();
      assert tables == Prepared(db);
      e := MigrateBackupStatusPerStorage(storage);
      if e.None? {
        trail := trail + [tables];
      }
    }
  }

  // ---------- earlier schemas ----------

  // Columns that an earlier version of a table may lack.
  function Addable(name: TableName): set<Column> {
    match name
    case Guests => {MaxMem, MaxCpu, Ip, OsFamily, OsId, UpdateSupported}
    case Runs => {Phase}
    case BackupStatus => {Storage}
    case _ => {}
  }

  predicate WellFormed(t: Table) {
    (forall row | row in t.rows :: row.Keys == t.columns) && KeyUnique(t)
  }

  predicate EarlierTable(name: TableName, t: Table) {
    && t.columns <= Columns(name) && Columns(name) - t.columns <= Addable(name)
    && t.key == (if name.BackupStatus? && Storage !in t.columns then {Vmid} else Key(name))
    && WellFormed(t)
  }

  function GuestsOf(db: Tables): Table {
    if Guests in db then db[Guests] else Fresh(Guests)
  }

  predicate EarlierTables(db: Tables) {
    forall name | name in CURRENT && name in db :: EarlierTable(name, db[name])
  }

  /** Any database that an earlier version, or this one, can have left behind. */
  predicate Earlier(db: Tables) {
    && EarlierTables(db)
    && (BackupStatus in db ==> ReferencesGuests(db[BackupStatus], GuestsOf(db)))
  }

  predicate HalfRebuilt(db: Tables) {
    BackupStatusNew in db && BackupStatus in db && Storage !in db[BackupStatus].columns
  }

  // The value that a row without the column gets.
  function Default(c: Column, storage: string): Value {
    match c
    case Storage => Text(storage)
    case MaxMem => Int(0)
    case MaxCpu => Int(0)
    case UpdateSupported => Int(0)
    case Ip => Text("")
    case OsFamily => Text("unknown")
    case OsId => Text("unknown")
    case _ => Null
  }

  /** The upgraded table has the old rows in their order, with every old value, and the default
      in every column they did not have. */
  predicate Extends(t: Table, t': Table, storage: string) {
    && t.columns <= t'.columns && |t'.rows| == |t.rows|
    && forall i | 0 <= i < |t.rows| ::
         && t.rows[i].Keys == t.columns && t'.rows[i].Keys == t'.columns
         && forall c | c in t'.columns ::
              t'.rows[i][c] == if c in t.columns then t.rows[i][c] else Default(c, storage)
  }

  lemma ExtendsTransitive(a: Table, b: Table, c: Table, storage: string)
    requires Extends(a, b, storage) && Extends(b, c, storage)
    ensures Extends(a, c, storage)
  {
  }

  lemma AddColumnExtends(t: Table, c: Column, storage: string)
    requires WellFormed(t) && c !in t.columns && c !in t.key
    ensures Extends(t, AddColumn(t, c, Default(c, storage)), storage)
    ensures WellFormed(AddColumn(t, c, Default(c, storage)))
  {
    var t' := AddColumn(t, c, Default(c, storage));
    forall i, j | 0 <= i < j < |t'.rows|
      ensures Differ(t'.rows[i], t'.rows[j], t'.key)
    {
      StillDiffer(t.rows[i], t.rows[j], t.key, c, Default(c, storage), t'.key);
    }
  }

  lemma StillDiffer(a: Row, b: Row, key: set<Column>, c: Column, v: Value, key': set<Column>)
    requires Differ(a, b, key) && c !in key && key <= key'
    ensures Differ(WithColumn(a, c, v), WithColumn(b, c, v), key')
  {
    var k :| k in key && k in a && k in b && a[k] != b[k];
    assert WithColumn(a, c, v)[k] == a[k];
  }

  // Each alteration gives the column's default, and adds no key column.
  predicate Harmless(alters: seq<Alter>, storage: string) {
    forall a | a in alters :: a.default == Default(a.column, storage) && a.column !in Key(a.table)
  }

  function Added(alters: seq<Alter>, name: TableName): set<Column> {
    set a | a in alters && a.table == name :: a.column
  }

  lemma {:induction false} MigratedExtends(db: Tables, alters: seq<Alter>, name: TableName, storage: string)
    requires Harmless(alters, storage) && name in db && WellFormed(db[name])
    requires forall a | a in alters :: a.table in db
    requires Added(alters, name) == {} || db[name].key == Key(name)
    ensures var t := Migrated(db, alters)[name];
            && t.columns == db[name].columns + Added(alters, name) && t.key == db[name].key
            && Extends(db[name], t, storage) && WellFormed(t)
  {
    if alters == [] {
      assert Extends(db[name], db[name], storage);
    } else {
      var rest, a := alters[..|alters| - 1], alters[|alters| - 1];
      assert alters == rest + [a];
      assert a.table == name ==> a.column in Added(alters, name);
      MigratedExtends(db, rest, name, storage);
      var before := Migrated(db, rest);
      AlteredExtends(before, a, name, storage);
      ExtendsTransitive(db[name], before[name], Migrated(db, alters)[name], storage);
      assert Added(alters, name) == Added(rest, name) + if a.table == name then {a.column} else {};
    }
  }

  lemma AlteredExtends(db: Tables, a: Alter, name: TableName, storage: string)
    requires a.table in db && name in db && WellFormed(db[name])
    requires a.default == Default(a.column, storage)
    requires a.table == name ==> a.column !in db[name].key
    ensures var t := Altered(db, a)[name];
            && t.columns == db[name].columns + (if a.table == name then {a.column} else {})
            && t.key == db[name].key && Extends(db[name], t, storage) && WellFormed(t)
  {
    if a.table == name && a.column !in db[name].columns {
      AddColumnExtends(db[name], a.column, storage);
    } else {
      assert Extends(db[name], db[name], storage);
    }
  }

  lemma MigrationsAreHarmless(storage: string)
    ensures Harmless(MIGRATIONS, storage)
    ensures forall a | a in MIGRATIONS :: a.table in {Guests, Runs} && a.column in Addable(a.table)
  {
    forall a | a in MIGRATIONS
      ensures a.default == Default(a.column, storage) && a.column !in Key(a.table)
      ensures a.table in {Guests, Runs} && a.column in Addable(a.table)
    {
      var i :| 0 <= i < |MIGRATIONS| && MIGRATIONS[i] == a;
    }
  }

  lemma MigrationsAdd(name: TableName)
    ensures Added(MIGRATIONS, name) == if name.BackupStatus? then {} else Addable(name)
  {
    MigrationsAreHarmless("");
    match name
    case Guests =>
      assert MIGRATIONS[0] in MIGRATIONS && MIGRATIONS[1] in MIGRATIONS && MIGRATIONS[2] in MIGRATIONS;
      assert MIGRATIONS[3] in MIGRATIONS && MIGRATIONS[4] in MIGRATIONS && MIGRATIONS[5] in MIGRATIONS;
    case Runs => assert MIGRATIONS[6] in MIGRATIONS;
    case _ =>
  }

  // ---------- upgrading ----------

  predicate OldShape(db: Tables, name: TableName) {
    name.BackupStatus? && BackupStatus in db && Storage !in db[BackupStatus].columns
  }

  lemma ColumnsComplete(name: TableName, t: Table)
    requires name in CURRENT && EarlierTable(name, t)
    ensures t.columns + (if name.BackupStatus? then {} else Addable(name))
         == Columns(name) - (if name.BackupStatus? && Storage !in t.columns then {Storage} else {})
  {
    assert Addable(name) <= Columns(name);
    assert forall c | c in Columns(name) && c !in t.columns :: c in Columns(name) - t.columns;
  }

  lemma FreshIsEarlier(name: TableName)
    ensures EarlierTable(name, Fresh(name))
  {
  }

  lemma EarlierMigrated(db: Tables, name: TableName, storage: string)
    requires Guests in db && Runs in db && name in db
    requires name in CURRENT && EarlierTable(name, db[name])
    ensures forall a | a in MIGRATIONS :: a.table in db
    ensures var t := Migrated(db, MIGRATIONS)[name];
            && WellFormed(t) && t.key == db[name].key && Extends(db[name], t, storage)
            && t.columns
               == Columns(name) - (if name.BackupStatus? && Storage !in db[name].columns then {Storage} else {})
  {
    MigrationsAreHarmless(storage);
    MigrationsAdd(name);
    MigratedExtends(db, MIGRATIONS, name, storage);
    ColumnsComplete(name, db[name]);
  }

  lemma PreparedAt(db: Tables, name: TableName, storage: string)
    requires EarlierTables(db) && name in CURRENT
    ensures var p := Prepared(db);
            && WellFormed(p[name])
            && p[name].columns == Columns(name) - (if OldShape(db, name) then {Storage} else {})
            && p[name].key == (if OldShape(db, name) then {Vmid} else Key(name))
            && (if name in db then Extends(db[name], p[name], storage) else p[name] == Fresh(name))
  {
    AllCreated(db);
    FreshIsEarlier(name);
    var c := Created(db, |CURRENT|);
    assert c[name] == if name in db then db[name] else Fresh(name);
    EarlierMigrated(c, name, storage);
  }

  lemma {:induction false} MigratedLeaves(db: Tables, alters: seq<Alter>, name: TableName)
    requires forall a | a in alters :: a.table in db && a.table != name
    ensures name in Migrated(db, alters) <==> name in db
    ensures name in db ==> Migrated(db, alters)[name] == db[name]
  {
    if alters != [] {
      assert alters[|alters| - 1] in alters;
      MigratedLeaves(db, alters[..|alters| - 1], name);
    }
  }

  lemma PreparedLeaves(db: Tables, name: TableName)
    requires name !in CURRENT
    ensures name in Prepared(db) <==> name in db
    ensures name in db ==> Prepared(db)[name] == db[name]
  {
    AllCreated(db);
    MigrationsAreHarmless("");
    assert CURRENT[0] == Guests && CURRENT[2] == Runs;
    MigratedLeaves(Created(db, |CURRENT|), MIGRATIONS, name);
  }

  lemma AttributedUnique(t: Table, storage: string)
    requires KeyUnique(t) && t.key == {Vmid}
    ensures KeyUnique(Attributed(t, storage))
  {
    var t' := Attributed(t, storage);
    forall i, j | 0 <= i < j < |t'.rows|
      ensures Differ(t'.rows[i], t'.rows[j], t'.key)
    {
      StillDiffer(t.rows[i], t.rows[j], t.key, Storage, Text(storage), t'.key);
    }
  }

  lemma AttributedExtends(t: Table, storage: string)
    requires WellFormed(t) && t.key == {Vmid} && t.columns == Columns(BackupStatus) - {Storage}
    ensures Extends(t, Attributed(t, storage), storage) && WellFormed(Attributed(t, storage))
  {
    AttributedUnique(t, storage);
    NewColumnExtends(t, Attributed(t, storage), Storage, storage);
  }

  lemma NewColumnExtends(t: Table, t': Table, c: Column, storage: string)
    requires (forall row | row in t.rows :: row.Keys == t.columns) && c !in t.columns
    requires t'.columns - {c} == t.columns && c in t'.columns
    requires |t'.rows| == |t.rows|
    requires forall i | 0 <= i < |t.rows| :: t'.rows[i] == WithColumn(t.rows[i], c, Default(c, storage))
    ensures Extends(t, t', storage) && forall row | row in t'.rows :: row.Keys == t'.columns
  {
    assert t.columns + {c} == t'.columns;
  }

  // Whoever referred to a guest still does.
  lemma StillReferences(t: Table, t': Table, guests: Table, guests': Table, storage: string)
    requires Extends(t, t', storage) && Extends(guests, guests', storage)
    requires Vmid in t.columns && Vmid in guests.columns
    requires ReferencesGuests(t, guests)
    ensures ReferencesGuests(t', guests')
  {
    forall row | row in t'.rows && Vmid in row
      ensures exists g :: g in guests'.rows && Vmid in g && g[Vmid] == row[Vmid]
    {
      var i :| 0 <= i < |t'.rows| && t'.rows[i] == row;
      CellKept(t, t', storage, i);
      var j := GuestOf(guests, t, i);
      CellKept(guests, guests', storage, j);
    }
  }

  lemma CellKept(t: Table, t': Table, storage: string, i: nat)
    requires Extends(t, t', storage) && i < |t.rows| && Vmid in t.columns
    ensures i < |t'.rows| && t'.rows[i] in t'.rows
    ensures Vmid in t.rows[i] && Vmid in t'.rows[i] && t'.rows[i][Vmid] == t.rows[i][Vmid]
  {
  }

  lemma GuestOf(guests: Table, t: Table, i: nat) returns (j: nat)
    requires ReferencesGuests(t, guests) && i < |t.rows| && Vmid in t.rows[i]
    ensures j < |guests.rows| && Vmid in guests.rows[j] && guests.rows[j][Vmid] == t.rows[i][Vmid]
  {
    assert t.rows[i] in t.rows;
    var g :| g in guests.rows && Vmid in g && g[Vmid] == t.rows[i][Vmid];
    j :| 0 <= j < |guests.rows| && guests.rows[j] == g;
  }

  lemma GuestsExtend(db: Tables, storage: string)
    requires EarlierTables(db)
    ensures Extends(GuestsOf(db), Prepared(db)[Guests], storage) && Vmid in GuestsOf(db).columns
  {
    assert CURRENT[0] == Guests;
    PreparedAt(db, Guests, storage);
    assert Vmid !in Addable(Guests);
  }

  lemma BackupStatusPrepared(db: Tables, storage: string)
    requires Earlier(db) && BackupStatus in db
    ensures ReferencesGuests(Prepared(db)[BackupStatus], Prepared(db)[Guests])
  {
    assert CURRENT[5] == BackupStatus;
    PreparedAt(db, BackupStatus, storage);
    GuestsExtend(db, storage);
    assert Vmid !in Addable(BackupStatus);
    StillReferences(db[BackupStatus], Prepared(db)[BackupStatus], GuestsOf(db), Prepared(db)[Guests], storage);
  }

  /** The rebuild of a table in the old shape goes through. */
  lemma RebuildSucceeds(db: Tables, storage: string)
    requires Earlier(db) && OldShape(db, BackupStatus) && BackupStatusNew !in db
    ensures InitDb(db, storage)
         == (Prepared(db)[BackupStatus := Attributed(Prepared(db)[BackupStatus], storage)], None)
    ensures Extends(db[BackupStatus], InitDb(db, storage).0[BackupStatus], storage)
    ensures WellFormed(InitDb(db, storage).0[BackupStatus])
    ensures ReferencesGuests(InitDb(db, storage).0[BackupStatus], InitDb(db, storage).0[Guests])
  {
    assert CURRENT[5] == BackupStatus;
    PreparedAt(db, BackupStatus, storage);
    PreparedLeaves(db, BackupStatusNew);
    var p := Prepared(db);
    AttributedExtends(p[BackupStatus], storage);
    ExtendsTransitive(db[BackupStatus], p[BackupStatus], Attributed(p[BackupStatus], storage), storage);
    BackupStatusPrepared(db, storage);
    GuestsExtend(db, storage);
    assert Extends(p[Guests], p[Guests], storage);
    StillReferences(p[BackupStatus], Attributed(p[BackupStatus], storage), p[Guests], p[Guests], storage);
  }

  /** Opening an earlier database fails exactly when a previous rebuild of backup_status was
      interrupted: its new table is in the way, and nothing else can be. */
  lemma OpensUnlessHalfRebuilt(db: Tables, storage: string)
    requires Earlier(db)
    ensures InitDb(db, storage).1 == if HalfRebuilt(db) then Some(TableExists) else None
  {
    assert CURRENT[5] == BackupStatus;
    PreparedAt(db, BackupStatus, storage);
    PreparedLeaves(db, BackupStatusNew);
    if OldShape(db, BackupStatus) && BackupStatusNew !in db {
      RebuildSucceeds(db, storage);
    }
  }

  // ---------- databases with a dangling row ----------

  // A backup row of a guest that is not there.
  predicate Orphaned(db: Tables) {
    && BackupStatus in db
    && exists row :: row in db[BackupStatus].rows && Vmid in row
                     && forall g | g in GuestsOf(db).rows :: Vmid in g && g[Vmid] != row[Vmid]
  }

  // Whoever refers to a guest afterwards did so before.
  lemma ReferredBefore(t: Table, t': Table, guests: Table, guests': Table, storage: string)
    requires Extends(t, t', storage) && Extends(guests, guests', storage)
    requires Vmid in t.columns && Vmid in guests.columns
    requires ReferencesGuests(t', guests')
    ensures ReferencesGuests(t, guests)
  {
    forall row | row in t.rows && Vmid in row
      ensures exists g :: g in guests.rows && Vmid in g && g[Vmid] == row[Vmid]
    {
      var i :| 0 <= i < |t.rows| && t.rows[i] == row;
      CellKept(t, t', storage, i);
      var j := GuestOf(guests', t', i);
      CellKept(guests, guests', storage, j);
      assert guests.rows[j] in guests.rows;
    }
  }

  lemma OrphanedExactly(db: Tables)
    requires EarlierTables(db) && BackupStatus in db
    ensures Orphaned(db) <==> !ReferencesGuests(db[BackupStatus], GuestsOf(db))
  {
    assert CURRENT[0] == Guests && CURRENT[5] == BackupStatus;
    FreshIsEarlier(Guests);
    assert Vmid !in Addable(Guests) && Vmid !in Addable(BackupStatus);
    assert forall g | g in GuestsOf(db).rows :: Vmid in g;
  }

  /** Any database with tables of earlier shapes opens unless the new table of an interrupted rebuild
      is in the way, or the rebuild meets a row without its guest. */
  lemma OpensExactly(db: Tables, storage: string)
    requires EarlierTables(db)
    ensures InitDb(db, storage).1
         == if HalfRebuilt(db) then Some(TableExists)
            else if OldShape(db, BackupStatus) && Orphaned(db) then Some(ConstraintFailed)
            else None
  {
    assert CURRENT[5] == BackupStatus;
    PreparedAt(db, BackupStatus, storage);
    PreparedLeaves(db, BackupStatusNew);
    if OldShape(db, BackupStatus) {
      OrphanedExactly(db);
      if ReferencesGuests(db[BackupStatus], GuestsOf(db)) {
        OpensUnlessHalfRebuilt(db, storage);
      } else {
        OrphanRefused(db, storage);
      }
    }
  }

  lemma OrphanRefused(db: Tables, storage: string)
    requires EarlierTables(db) && OldShape(db, BackupStatus) && !ReferencesGuests(db[BackupStatus], GuestsOf(db))
    ensures InitDb(db, storage)
         == if BackupStatusNew in db then (Prepared(db), Some(TableExists))
            else (Prepared(db)[BackupStatusNew := Fresh(BackupStatusNew)], Some(ConstraintFailed))
  {
    assert CURRENT[5] == BackupStatus;
    PreparedAt(db, BackupStatus, storage);
    PreparedLeaves(db, BackupStatusNew);
    GuestsExtend(db, storage);
    var p := Prepared(db);
    AttributedExtends(p[BackupStatus], storage);
    var filled := Attributed(p[BackupStatus], storage);
    ExtendsTransitive(db[BackupStatus], p[BackupStatus], filled, storage);
    assert Vmid !in Addable(BackupStatus);
    if ReferencesGuests(filled, p[Guests]) {
      ReferredBefore(db[BackupStatus], filled, GuestsOf(db), p[Guests], storage);
    }
  }

  /** A rebuild that is refused leaves its new table behind, like one that is interrupted: from then
      on even a database whose dangling row has been removed is refused. */
  lemma OrphanBlocks(db: Tables, storage: string, mended: Tables, later: string)
    requires EarlierTables(db) && OldShape(db, BackupStatus) && Orphaned(db) && BackupStatusNew !in db
    requires EarlierTables(mended) && OldShape(mended, BackupStatus)
    requires BackupStatusNew in InitDb(db, storage).0 ==> BackupStatusNew in mended
    ensures InitDb(mended, later).1 == Some(TableExists)
  {
    OrphanedExactly(db);
    OrphanRefused(db, storage);
    OpensExactly(mended, later);
  }

  // ---------- the main statements ----------

  /** From any earlier database, every table of the program ends up with the current columns and
      key. Old rows keep their order and every value; a column they did not have gets its default,
      and an old backup row the configured storage; keys are still unique and backup rows still
      belong to guests. Tables that were missing are empty, and foreign tables are untouched. */
  lemma UpgradeKeepsData(db: Tables, storage: string, name: TableName)
    requires Earlier(db) && !HalfRebuilt(db)
    ensures var r := InitDb(db, storage).0;
            if name in CURRENT then
              && name in r && r[name].columns == Columns(name) && r[name].key == Key(name) && WellFormed(r[name])
              && (if name in db then Extends(db[name], r[name], storage)
                  else r[name] == Table(Columns(name), Key(name), []))
            else (name in r <==> name in db) && (name in db ==> r[name] == db[name])
  {
    if name in CURRENT {
      UpgradesTable(db, storage, name);
    } else {
      InitIsPrepared(db, storage);
      PreparedLeaves(db, name);
    }
  }

  lemma UpgradesTable(db: Tables, storage: string, name: TableName)
    requires Earlier(db) && !HalfRebuilt(db) && name in CURRENT
    ensures var r := InitDb(db, storage).0;
            && name in r && r[name].columns == Columns(name) && r[name].key == Key(name) && WellFormed(r[name])
            && (if name in db then Extends(db[name], r[name], storage) else r[name] == Fresh(name))
  {
    InitIsPrepared(db, storage);
    PreparedAt(db, name, storage);
    if OldShape(db, name) {
      RebuildSucceeds(db, storage);
    }
  }

  // Besides backup_status in its old shape, the rebuild touches nothing.
  lemma InitIsPrepared(db: Tables, storage: string)
    requires Earlier(db) && !HalfRebuilt(db)
    ensures BackupStatus in CURRENT
    ensures !OldShape(db, BackupStatus) ==> InitDb(db, storage) == (Prepared(db), None)
    ensures OldShape(db, BackupStatus) ==>
              InitDb(db, storage)
              == (Prepared(db)[BackupStatus := Attributed(Prepared(db)[BackupStatus], storage)], None)
  {
    assert CURRENT[5] == BackupStatus;
    PreparedAt(db, BackupStatus, storage);
    if OldShape(db, BackupStatus) {
      RebuildSucceeds(db, storage);
    }
  }

  /** Every backup row belongs to a guest afterwards, as it did before. */
  lemma UpgradeKeepsReferences(db: Tables, storage: string)
    requires Earlier(db) && !HalfRebuilt(db)
    ensures var r := InitDb(db, storage).0;
            BackupStatus in r && Guests in r && ReferencesGuests(r[BackupStatus], r[Guests])
  {
    InitIsPrepared(db, storage);
    if OldShape(db, BackupStatus) {
      RebuildSucceeds(db, storage);
    } else if BackupStatus in db {
      BackupStatusPrepared(db, storage);
    } else {
      PreparedAt(db, BackupStatus, storage);
    }
  }

  lemma Tidied(r: Tables, name: TableName)
    requires Earlier(r) && name in CURRENT && name in r
    requires r[name].columns == Columns(name) && r[name].key == Key(name)
    ensures Prepared(r)[name] == r[name]
  {
    PreparedAt(r, name, "");
    var p := Prepared(r)[name];
    assert forall i | 0 <= i < |p.rows| :: p.rows[i] == r[name].rows[i];
    assert p.rows == r[name].rows;
  }

  lemma UpgradedIsEarlier(db: Tables, storage: string)
    requires Earlier(db) && !HalfRebuilt(db)
    ensures var r := InitDb(db, storage).0;
            Earlier(r) && forall name | name in CURRENT ::
              name in r && r[name].columns == Columns(name) && r[name].key == Key(name)
  {
    var r := InitDb(db, storage).0;
    forall name | name in CURRENT
      ensures name in r && EarlierTable(name, r[name])
      ensures r[name].columns == Columns(name) && r[name].key == Key(name)
    {
      UpgradesTable(db, storage, name);
    }
    UpgradeKeepsReferences(db, storage);
  }

  /** Opening it again, whatever storage is configured by then, changes nothing. */
  lemma SecondInitIsIdentity(db: Tables, storage: string, storage': string)
    requires Earlier(db) && !HalfRebuilt(db)
    ensures InitDb(InitDb(db, storage).0, storage') == (InitDb(db, storage).0, None)
  {
    var r := InitDb(db, storage).0;
    UpgradedIsEarlier(db, storage);
    assert CURRENT[5] == BackupStatus;
    forall name: TableName
      ensures name in Prepared(r) <==> name in r
      ensures name in r ==> Prepared(r)[name] == r[name]
    {
      if name in CURRENT {
        Tidied(r, name);
      } else {
        PreparedLeaves(r, name);
      }
    }
    assert Prepared(r) == r;
  }

  // ---------- dying while the database is opened ----------

  // Some tables created, some columns added, backup_status and foreign tables as they were.
  predicate UnderwayAt(db: Tables, s: Tables, name: TableName) {
    && (name in db ==> name in s)
    && (name in s ==>
          if name !in CURRENT then name in db && s[name] == db[name]
          else EarlierTable(name, s[name])
               && if name in db then Grown(name, db[name], s[name]) else s[name] == Fresh(name))
  }

  predicate Grown(name: TableName, t: Table, t': Table) {
    t'.key == t.key && Extends(t, t', "") && (name.BackupStatus? ==> t' == t)
  }

  ghost predicate Underway(db: Tables, s: Tables) {
    forall name :: UnderwayAt(db, s, name)
  }

  lemma CreatedUnderway(db: Tables, n: nat)
    requires Earlier(db) && n <= |CURRENT|
    ensures Underway(db, Created(db, n))
  {
    assert forall name | name in CURRENT[..n] :: name in CURRENT;
    forall name
      ensures UnderwayAt(db, Created(db, n), name)
    {
      CreatedTable(db, n, name);
      FreshIsEarlier(name);
    }
  }

  lemma MigratedUnderway(db: Tables, c: Tables, n: nat)
    requires Underway(db, c) && Guests in c && Runs in c && n <= |MIGRATIONS|
    ensures forall a | a in MIGRATIONS[..n] :: a.table in c
    ensures Underway(db, Migrated(c, MIGRATIONS[..n]))
  {
    MigrationsAreHarmless("");
    var alters := MIGRATIONS[..n];
    assert forall a | a in alters :: a in MIGRATIONS;
    forall name
      ensures UnderwayAt(db, Migrated(c, alters), name)
    {
      assert UnderwayAt(db, c, name);
      TableUnderway(db, c, alters, name);
    }
  }

  lemma TableUnderway(db: Tables, c: Tables, alters: seq<Alter>, name: TableName)
    requires Harmless(alters, "") && forall a | a in alters :: a.table in c
    requires forall a | a in alters :: a.table in {Guests, Runs} && a.column in Addable(a.table)
    requires UnderwayAt(db, c, name)
    ensures UnderwayAt(db, Migrated(c, alters), name)
  {
    assert CURRENT[0] == Guests && CURRENT[2] == Runs;
    if name !in CURRENT || name.BackupStatus? {
      MigratedLeaves(c, alters, name);
    } else if name in c {
      TableGrows(c, alters, name);
      if name in db {
        ExtendsTransitive(db[name], c[name], Migrated(c, alters)[name], "");
      } else {
        ExtendsUnique(Fresh(name), Fresh(name), Migrated(c, alters)[name], "");
      }
    }
  }

  lemma TableGrows(c: Tables, alters: seq<Alter>, name: TableName)
    requires Harmless(alters, "") && forall a | a in alters :: a.table in c
    requires forall a | a in alters :: a.table in {Guests, Runs} && a.column in Addable(a.table)
    requires name in c && EarlierTable(name, c[name]) && !name.BackupStatus?
    ensures var t := Migrated(c, alters)[name];
            && EarlierTable(name, t) && t.key == c[name].key && Extends(c[name], t, "")
            && (c[name] == Fresh(name) ==> t.columns == Columns(name))
  {
    MigratedExtends(c, alters, name, "");
    assert Addable(name) <= Columns(name);
    assert Added(alters, name) <= Addable(name);
  }

  lemma ExtendsUnique(t: Table, a: Table, b: Table, storage: string)
    requires Extends(t, a, storage) && Extends(t, b, storage) && a.columns == b.columns && a.key == b.key
    ensures a == b
  {
    forall i | 0 <= i < |t.rows|
      ensures a.rows[i] == b.rows[i]
    {
      assert a.rows[i].Keys == b.rows[i].Keys;
    }
    assert a.rows == b.rows;
  }

  lemma UnderwayIsEarlier(db: Tables, s: Tables)
    requires Earlier(db) && Underway(db, s)
    ensures Earlier(s) && OldShape(s, BackupStatus) == OldShape(db, BackupStatus)
  {
    assert CURRENT[0] == Guests && CURRENT[5] == BackupStatus;
    assert UnderwayAt(db, s, BackupStatus) && UnderwayAt(db, s, Guests);
    forall name | name in CURRENT && name in s
      ensures EarlierTable(name, s[name])
    {
      assert UnderwayAt(db, s, name);
    }
    if BackupStatus in db {
      UnderwayReferences(db, s);
    }
  }

  lemma UnderwayReferences(db: Tables, s: Tables)
    requires Earlier(db) && UnderwayAt(db, s, BackupStatus) && UnderwayAt(db, s, Guests)
    requires Guests in CURRENT && BackupStatus in CURRENT && BackupStatus in db
    ensures ReferencesGuests(s[BackupStatus], GuestsOf(s))
  {
    assert Vmid !in Addable(Guests) && Vmid !in Addable(BackupStatus);
    assert Extends(GuestsOf(db), GuestsOf(s), "");
    StillReferences(db[BackupStatus], s[BackupStatus], GuestsOf(db), GuestsOf(s), "");
  }

  // What has still to be done leads to the same tables.
  lemma UnderwayPrepares(db: Tables, s: Tables)
    requires Earlier(db) && Underway(db, s)
    ensures Prepared(s) == Prepared(db)
  {
    UnderwayIsEarlier(db, s);
    var p, q := Prepared(s), Prepared(db);
    forall name: TableName
      ensures name in p <==> name in q
      ensures name in p ==> p[name] == q[name]
    {
      assert UnderwayAt(db, s, name);
      if name in CURRENT {
        PreparedAt(s, name, "");
        PreparedAt(db, name, "");
        SameTable(db, s, p[name], q[name], name);
      } else {
        PreparedLeaves(s, name);
        PreparedLeaves(db, name);
      }
    }
    assert p.Keys == q.Keys;
  }

  lemma SameTable(db: Tables, s: Tables, a: Table, b: Table, name: TableName)
    requires name in CURRENT && a.columns == b.columns && a.key == b.key && (name in db ==> name in s)
    requires if name in s then Extends(s[name], a, "") else a == Fresh(name)
    requires if name in db then Extends(db[name], b, "") else b == Fresh(name)
    requires name in s ==> if name in db then Extends(db[name], s[name], "") else s[name] == Fresh(name)
    ensures a == b
  {
    if name in db {
      ExtendsTransitive(db[name], s[name], a, "");
      ExtendsUnique(db[name], a, b, "");
    } else if name in s {
      assert Extends(Fresh(name), Fresh(name), "");
      ExtendsUnique(Fresh(name), a, b, "");
    }
  }

  lemma UnderwayOpens(db: Tables, s: Tables, later: string)
    requires Earlier(db) && !HalfRebuilt(db) && Underway(db, s)
    ensures InitDb(s, later).1.None?
  {
    assert CURRENT[5] == BackupStatus;
    assert UnderwayAt(db, s, BackupStatus) && UnderwayAt(db, s, BackupStatusNew);
    UnderwayIsEarlier(db, s);
    OpensUnlessHalfRebuilt(s, later);
  }

  // Of the states that are committed, only one has the new table beside the old.
  predicate IsHalf(db: Tables, s: Tables) {
    OldShape(db, BackupStatus) && s == Prepared(db)[BackupStatusNew := Fresh(BackupStatusNew)]
  }

  lemma CreateStates(db: Tables, s: Tables)
    requires Earlier(db) && s in CreateTrail(db, |CURRENT|)
    ensures Underway(db, s)
  {
    var k :| 0 <= k < |CURRENT| && s == CreateTrail(db, |CURRENT|)[k];
    CreatedUnderway(db, k + 1);
  }

  lemma AlterStates(db: Tables, c: Tables, s: Tables)
    requires Underway(db, c) && Guests in c && Runs in c && s in AlterTrail(c, |MIGRATIONS|)
    ensures Underway(db, s)
  {
    var k :| 0 <= k < |MIGRATIONS| && s == AlterTrail(c, |MIGRATIONS|)[k];
    MigratedUnderway(db, c, k + 1);
  }

  lemma RebuildStates(db: Tables, s: Tables)
    requires Earlier(db) && s in RebuildTrail(Prepared(db))
    ensures IsHalf(db, s)
  {
    assert CURRENT[5] == BackupStatus;
    PreparedAt(db, BackupStatus, "");
  }

  lemma DurableStates(db: Tables, storage: string, s: Tables)
    requires Earlier(db) && s in Durable(db, storage)
    ensures Underway(db, s) || IsHalf(db, s) || s == InitDb(db, storage).0
  {
    AllCreated(db);
    CreatedUnderway(db, 0);
    CreatedUnderway(db, |CURRENT|);
    if s in CreateTrail(db, |CURRENT|) {
      CreateStates(db, s);
    } else if s in AlterTrail(Created(db, |CURRENT|), |MIGRATIONS|) {
      AlterStates(db, Created(db, |CURRENT|), s);
    } else if s in RebuildTrail(Prepared(db)) {
      RebuildStates(db, s);
    }
  }

  /** A process that dies while it opens an earlier database, at any moment, leaves one that the
      next start opens, unless and only unless the new backup_status has been created and the
      transaction that replaces the old one by it is not committed. Where it opens, with the same
      storage, the result is the one an uninterrupted start would have had. */
  lemma DyingBlocksExactly(db: Tables, storage: string, s: Tables, later: string)
    requires Earlier(db) && !HalfRebuilt(db) && s in Durable(db, storage)
    ensures InitDb(s, later).1.None? <==> !IsHalf(db, s)
    ensures !IsHalf(db, s) ==> InitDb(s, storage) == InitDb(db, storage)
  {
    DurableStates(db, storage, s);
    if IsHalf(db, s) {
      InterruptedRebuildBlocks(db, storage, later);
    } else if Underway(db, s) {
      UnderwayOpens(db, s, later);
      UnderwayPrepares(db, s);
    } else {
      OpensUnlessHalfRebuilt(db, storage);
      SecondInitIsIdentity(db, storage, later);
      SecondInitIsIdentity(db, storage, storage);
    }
  }

  /** However often an opening is cut short, short of that one state, the first that is not brings
      the database to where the very first would have. */
  lemma {:induction false} DeathsDoNotMatter(starts: seq<Tables>, storage: string, n: nat)
    requires n < |starts| && Earlier(starts[0])
    requires forall i | 0 <= i < n :: starts[i + 1] in Durable(starts[i], storage)
    requires forall i | 0 <= i <= n :: !HalfRebuilt(starts[i])
    ensures Earlier(starts[n]) && InitDb(starts[n], storage) == InitDb(starts[0], storage)
  {
    if n > 0 {
      DeathsDoNotMatter(starts, storage, n - 1);
      assert starts[n - 1 + 1] in Durable(starts[n - 1], storage);
      StaysEarlier(starts[n - 1], storage, starts[n]);
    }
  }

  lemma StaysEarlier(db: Tables, storage: string, s: Tables)
    requires Earlier(db) && !HalfRebuilt(db) && s in Durable(db, storage) && !HalfRebuilt(s)
    ensures Earlier(s) && InitDb(s, storage) == InitDb(db, storage)
  {
    DurableStates(db, storage, s);
    if Underway(db, s) {
      UnderwayIsEarlier(db, s);
    } else if IsHalf(db, s) {
      assert CURRENT[5] == BackupStatus;
      PreparedAt(db, BackupStatus, storage);
    } else {
      UpgradedIsEarlier(db, storage);
    }
    DyingBlocksExactly(db, storage, s, storage);
  }

  /** And every rebuild passes through that state: the creation of the new table is committed at
      once, and what is left if the process dies then, no later start can open. */
  lemma InterruptedRebuildBlocks(db: Tables, storage: string, later: string)
    requires Earlier(db) && OldShape(db, BackupStatus) && BackupStatusNew !in db
    ensures var left := Prepared(db)[BackupStatusNew := Fresh(BackupStatusNew)];
            left in Durable(db, storage) && InitDb(left, later).1 == Some(TableExists)
  {
    var left := Prepared(db)[BackupStatusNew := Fresh(BackupStatusNew)];
    forall name: TableName | name in CURRENT
      ensures EarlierTable(name, left[name])
    {
      PreparedAt(db, name, storage);
    }
    BackupStatusPrepared(db, storage);
    assert CURRENT[5] == BackupStatus;
    PreparedAt(db, BackupStatus, storage);
    PreparedLeaves(db, BackupStatusNew);
    assert Rebuilds(Prepared(db)) && left in RebuildTrail(Prepared(db));
    assert Earlier(left);
    OpensUnlessHalfRebuilt(left, later);
  }
}
