/** Opening a database (crates/smdp/src/store/sqlite.rs:49-84): what `migrate`
    makes of every file it can meet. A table is present or absent; a
    notification table written before `verified` existed lacks that column. */
module Migration {
  import opened Basics
  import opened OrderStore
  import opened Protocol
  import opened Es9
  import opened NotificationLog

  const SCHEMA_VERSION: int := 2

  /** A notification row before `verified` existed. */
  datatype LegacyRow = LegacyRow(
    id: int, orderId: Option<int>, seqNumber: int, operation: int,
    iccid: Option<Bytes10>, installed: Option<bool>, raw: Bytes)

  datatype NotificationTable = Legacy(legacy: seq<LegacyRow>) | Current(rows: Notifications)

  datatype Database = Database(userVersion: int, orders: Option<Orders>, notifications: Option<NotificationTable>)

  datatype MigrateError = SchemaTooNew(version: int) | DuplicateColumn

  /** The column is added with a default of 1: that version stored only what
      had verified. */
  function Backfilled(r: LegacyRow): StoredNotification {
    Stored(r.id, NewNotification(true, r.orderId, r.seqNumber, r.operation, r.iccid, r.installed, r.raw))
  }

  function WithVerified(rows: seq<LegacyRow>): (r: Notifications)
    ensures |r| == |rows| && forall i :: 0 <= i < |r| ==> r[i] == Backfilled(rows[i])
  {
    seq(|rows|, i requires 0 <= i < |rows| => Backfilled(rows[i]))
  }

  function Migrated(db: Database): (Database, Option<MigrateError>) {
    if db.userVersion > SCHEMA_VERSION then (db, Some(SchemaTooNew(db.userVersion)))
    else if db.userVersion != 0 then (db.(userVersion := SCHEMA_VERSION), None)
    else match db.notifications
      case None =>
        (Database(SCHEMA_VERSION, Some(if db.orders.Some? then db.orders.value else []), Some(Current([]))), None)
      case Some(Legacy(rows)) =>
        (Database(SCHEMA_VERSION, db.orders, Some(Current(WithVerified(rows)))), None)
      case Some(Current(_)) => (db, Some(DuplicateColumn))
  }

  /** The connection `migrate` works on, one statement at a time. */
  class Connection {
    var userVersion: int
    var orders: Option<Orders>
    var notifications: Option<NotificationTable>

    ghost function View(): Database
      reads this
    {
      Database(userVersion, orders, notifications)
    }

    /** CREATE TABLE IF NOT EXISTS, twice. */
    method CreateMissingTables()
      modifies this
      ensures userVersion == old(userVersion)
      ensures orders == if old(orders).None? then Some([]) else old(orders)
      ensures notifications == if old(notifications).None? then Some(Current([])) else old(notifications)
    {
      if orders.None? {
        orders := Some([]);
      }
      if notifications.None? {
        notifications := Some(Current([]));
      }
    }

    /** ALTER TABLE ... ADD COLUMN, which refuses a column that is there. */
    method AddVerifiedColumn() returns (ok: bool)
      requires notifications.Some?
      modifies this
      ensures userVersion == old(userVersion) && orders == old(orders)
      ensures ok <==> old(notifications).value.Legacy?
      ensures notifications == if ok then Some(Current(WithVerified(old(notifications).value.legacy)))
                               else old(notifications)
    {
      ok := notifications.value.Legacy?;
      if ok {
        notifications := Some(Current(WithVerified(notifications.value.legacy)));
      }
    }

    method Migrate() returns (error: Option<MigrateError>)
      modifies this
      ensures (View(), error) == Migrated(old(View()))
    {
      var version := userVersion;
      if version == 0 {
        if notifications.None? {
          CreateMissingTables();
        } else {
          var ok := AddVerifiedColumn();
          if !ok {
            return Some(DuplicateColumn);
          }
        }
      } else if version > SCHEMA_VERSION {
        return Some(SchemaTooNew(version));
      }
      userVersion := SCHEMA_VERSION;
      error := None;
    }
  }

  // ---- what it achieves

  /** The schema every query of the store is written against. */
  predicate IsReady(db: Database) {
    db.orders.Some? && db.notifications.Some? && db.notifications.value.Current?
  }

  /** Every file `migrate` can make ready: an empty one, one with orders only,
      one from before `verified` existed with both tables, and one that needs
      nothing. A file with legacy notifications and no orders is not among
      them: it is given the column, but never the missing table. */
  predicate CanBecomeReady(db: Database) {
    if db.userVersion == 0
    then db.notifications.None? || (db.notifications.value.Legacy? && db.orders.Some?)
    else db.userVersion <= SCHEMA_VERSION && IsReady(db)
  }

  /** The content of a notification row, whatever the version. */
  function Contents(t: Option<NotificationTable>): Notifications {
    match t
    case None => []
    case Some(Legacy(rows)) => WithVerified(rows)
    case Some(Current(rows)) => rows
  }

  /** `migrate` succeeds with a usable schema exactly on those files; it keeps
      every row of both tables in order, changes nothing when it fails, and
      changes nothing the second time. */
  lemma MigratesExactly(db: Database)
    ensures var (after, error) := Migrated(db);
            && (error.None? && IsReady(after) <==> CanBecomeReady(db))
            && (db.orders.Some? ==> after.orders == db.orders)
            && (after.orders.Some? && db.orders.None? ==> after.orders.value == [])
            && Contents(after.notifications) == Contents(db.notifications)
            && (error.Some? ==> after == db)
            && (error.None? ==> after.userVersion == 2 && Migrated(after) == (after, None))
            && (error == Some(SchemaTooNew(db.userVersion)) <==> db.userVersion > 2)
  {
  }

  /** A row from before `verified` existed is kept field for field, as verified. */
  lemma LegacyRowIsKept(db: Database, i: nat)
    requires db.userVersion == 0 && db.notifications.Some? && db.notifications.value.Legacy?
    requires i < |db.notifications.value.legacy|
    ensures var legacy, after := db.notifications.value.legacy[i], Migrated(db).0.notifications;
            && after.Some? && after.value.Current? && |after.value.rows| == |db.notifications.value.legacy|
            && var row := after.value.rows[i];
               && row.id == legacy.id && row.content.verified
               && row.content.orderId == legacy.orderId && row.content.seqNumber == legacy.seqNumber
               && row.content.operation == legacy.operation && row.content.iccid == legacy.iccid
               && row.content.installed == legacy.installed && row.content.raw == legacy.raw
  {
  }

  // ---- stopped halfway

  /** What `migrate` hands to SQLite. Each statement is committed on its own. */
  datatype Statement = CreateOrders | CreateIndex | CreateNotifications | AddVerified | SetVersion

  function Plan(db: Database): seq<Statement> {
    if db.userVersion > SCHEMA_VERSION then []
    else if db.userVersion != 0 then [SetVersion]
    else if db.notifications.None? then [CreateOrders, CreateIndex, CreateNotifications, SetVersion]
    else [AddVerified, SetVersion]
  }

  function Executed(db: Database, st: Statement): Result<Database, MigrateError> {
    match st
    case CreateOrders => Ok(if db.orders.None? then db.(orders := Some([])) else db)
    case CreateIndex => Ok(db)
    case CreateNotifications =>
      Ok(if db.notifications.None? then db.(notifications := Some(Current([]))) else db)
    case AddVerified =>
      (match db.notifications
       case Some(Legacy(rows)) => Ok(db.(notifications := Some(Current(WithVerified(rows)))))
       case _ => Err(DuplicateColumn))
    case SetVersion => Ok(db.(userVersion := SCHEMA_VERSION))
  }

  /** The file after the first `n` statements, unless one of them failed. */
  function Reached(db: Database, n: nat): (Database, Option<MigrateError>)
    requires n <= |Plan(db)|
  {
    if n == 0 then (db, None)
    else
      var (before, error) := Reached(db, n - 1);
      if error.Some? then (before, error)
      else match Executed(before, Plan(db)[n - 1])
        case Err(e) => (before, Some(e))
        case Ok(after) => (after, None)
  }

  lemma MigratedIsThePlan(db: Database)
    requires db.userVersion <= SCHEMA_VERSION
    ensures Migrated(db) == Reached(db, |Plan(db)|)
  {
    if CanBecomeReady(db) {
      ReachedCases(db, |Plan(db)|);
    } else if |Plan(db)| == 2 {
      assert Reached(db, 1).1.Some? <==> db.notifications.value.Current?;
    }
  }

  lemma ReachedCases(db: Database, n: nat)
    requires CanBecomeReady(db) && n <= |Plan(db)|
    ensures Reached(db, n).1.None?
    ensures db.userVersion == 0 && db.notifications.None? ==>
              Reached(db, n).0 == Database(
                if n == 4 then SCHEMA_VERSION else 0,
                if n >= 1 && db.orders.None? then Some([]) else db.orders,
                if n >= 3 then Some(Current([])) else None)
    ensures db.userVersion == 0 && db.notifications.Some? ==>
              Reached(db, n).0 == Database(
                if n == 2 then SCHEMA_VERSION else 0, db.orders,
                if n >= 1 then Some(Current(WithVerified(db.notifications.value.legacy))) else db.notifications)
    ensures db.userVersion != 0 ==> Reached(db, n).0 == if n == 1 then db.(userVersion := SCHEMA_VERSION) else db
  {
    if n > 0 {
      ReachedCases(db, n - 1);
    }
  }

  /** `migrate` can be stopped anywhere without losing a row, and opening the file
      again makes it ready, except when it was stopped after its last change of a
      version-less file and before the version was written: then the file has
      what the store needs, but opening it fails, now and ever after. */
  lemma RecoversExactly(db: Database, n: nat)
    requires CanBecomeReady(db) && n <= |Plan(db)|
    ensures var left := Reached(db, n).0;
            && Contents(left.notifications) == Contents(db.notifications)
            && (db.orders.Some? ==> left.orders == db.orders)
            && (CanBecomeReady(left) <==> db.userVersion != 0 || n != |Plan(db)| - 1)
            && (CanBecomeReady(left) ==> IsReady(Migrated(left).0) && Migrated(left).1.None?)
            && (!CanBecomeReady(left) ==> IsReady(left) && Migrated(left) == (left, Some(DuplicateColumn)))
  {
    ReachedCases(db, n);
  }

  /** The server's state on a database that is ready. */
  function Opened(db: Database): State
    requires IsReady(db)
  {
    State(db.orders.value, db.notifications.value.rows, map[])
  }

  /** A verdict is only ever recorded with a verified notification. */
  ghost predicate VerdictsAreVerified(n: Notifications) {
    forall i :: 0 <= i < |n| && n[i].content.installed.Some? ==> n[i].content.verified
  }

  /** On a file from before versions were tracked this holds from the moment it
      is opened and for every run after it. */
  lemma {:induction false} VerdictsStayVerified(env: Env, db: Database, es: seq<Event>)
    requires CanBecomeReady(db)
    requires db.userVersion != 0 ==> VerdictsAreVerified(db.notifications.value.rows)
    ensures VerdictsAreVerified(Run(env, Opened(Migrated(db).0), es).notifications)
  {
    var s := Opened(Migrated(db).0);
    var log, kept := Run(env, s, es).notifications, Legibles(Deliveries(env, s, es));
    LogIsConserved(env, s, es);
    forall i | 0 <= i < |log| && log[i].content.installed.Some?
      ensures log[i].content.verified
    {
      if i < |s.notifications| {
        assert log[i] == s.notifications[i];
      } else {
        assert Records(log[|s.notifications| + (i - |s.notifications|)].content, kept[i - |s.notifications|]);
      }
    }
  }
}
