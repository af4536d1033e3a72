/** The MySql connection manager of classes/mysql.py: a tri-state connection
    health, an optional connection handle with its cursor, and the
    message_id sequence. pymysql is abstracted away: every call into it is an
    outcome given as a parameter. */
module Database {
  import opened Common

  /** The entries of the [mysql] section that the constructor keeps. */
  datatype Settings = Settings(hostAddress: string, portNumber: int, username: string,
                               password: string, database: string)

  /** The columns of the INSERT statement of insertDataset, in order; the
      statement has one %s placeholder per column. */
  const Columns: seq<string> := [
    "message_id_python", "data_timestamp_first_sample", "data_timestamp_last_sample",
    "data_sample_count", "data_min", "data_mean", "data_max"]
  const Placeholders: nat := 7

  /** A row committed to serial_data_ehz: the message id and the values that
      follow it in the parameter tuple. */
  datatype Row = Row(messageId: int, values: seq<SqlValue>)

  /** What pymysql.connect and connection.cursor do in one establishConnection. */
  datatype ConnectOutcome = ConnectRaises | CursorRaises | Connected

  /** The outcomes one ensureDatabaseConnection may consume: the connect
      attempt (used only when there is no connection) and the ping (used
      only when there is one). */
  datatype EnsureOutcomes = EnsureOutcomes(connect: ConnectOutcome, pingOk: bool)

  /** The outcomes one insertDataset may consume: mogrify and execute,
      commit, and the rollback issued after a failure. */
  datatype InsertOutcomes = InsertOutcomes(executeOk: bool, commitOk: bool, rollbackOk: bool)

  /** The fields of a MySql object as a value. hasConnection says that
      self.connection is not None, hasCursor that self.dictCursor has been
      assigned; table is the content of serial_data_ehz written by this
      object. */
  datatype DbFields = DbFields(state: ConnectionState, hasConnection: bool, hasCursor: bool,
                               messageId: int, table: seq<Row>)

  datatype Established = Established(fields: DbFields, ok: bool)
  datatype EnsureResult = EnsureResult(fields: DbFields, state: ConnectionState, changed: bool)
  datatype Inserted = Inserted(fields: DbFields, result: Completion<bool>)

  /** What every reachable MySql object satisfies. */
  predicate WellFormed(f: DbFields) {
    && f.messageId >= 1
    && (f.hasCursor ==> f.hasConnection)
    && (f.state == Up ==> f.hasConnection)
    && (f.state == Never ==> !f.hasConnection && f.table == [])
  }

  /** The fields right after __init__. */
  function Initial(): (f: DbFields)
    ensures WellFormed(f)
  {
    DbFields(Never, false, false, 1, [])
  }

  /** establishConnection: connect, create the cursor, and report success.
      A connect that raises leaves self.connection as it was; a cursor() that
      raises leaves the new connection in place without a new cursor. */
  function Establish(f: DbFields, c: ConnectOutcome): (r: Established)
    ensures r.ok <==> c == Connected
    ensures r.fields.state == (if r.ok then Up else Down)
    ensures r.ok ==> r.fields.hasConnection && r.fields.hasCursor
    ensures c != ConnectRaises ==> r.fields.hasConnection
    ensures c == ConnectRaises ==> r.fields.hasConnection == f.hasConnection
    ensures !r.ok ==> r.fields.hasCursor == f.hasCursor
    ensures r.fields.messageId == f.messageId && r.fields.table == f.table
    ensures WellFormed(f) ==> WellFormed(r.fields)
  {
    match c
    case ConnectRaises => Established(f.(state := Down), false)
    case CursorRaises => Established(f.(state := Down, hasConnection := true), false)
    case Connected => Established(f.(state := Up, hasConnection := true, hasCursor := true), true)
  }

  /** ensureDatabaseConnection: connect when there is no connection, ping
      otherwise, and report the new state with whether it differs from the
      state on entry. */
  function Ensure(f: DbFields, o: EnsureOutcomes): (r: EnsureResult)
    ensures r.state == r.fields.state && r.state != Never
    ensures r.changed <==> r.state != f.state
    ensures !f.hasConnection ==> r.fields == Establish(f, o.connect).fields
    ensures f.hasConnection ==> r.fields == f.(state := if o.pingOk then Up else Down)
    ensures WellFormed(f) ==> WellFormed(r.fields)
  {
    var last := f.state;
    var g := if !f.hasConnection then Establish(f, o.connect).fields
             else if o.pingOk then f.(state := Up)
             else f.(state := Down);
    EnsureResult(g, g.state, g.state != last)
  }

  /** Whether an insertDataset reaches `self.message_id += 1`: the cursor
      exists, the parameter tuple fills the placeholders, and execute and
      commit succeed. */
  function Commits(f: DbFields, values: seq<SqlValue>, o: InsertOutcomes): (b: bool)
    ensures b ==> f.hasConnection && |values| == |Columns| - 1
  {
    f.hasConnection && f.hasCursor && 1 + |values| == Placeholders && o.executeOk && o.commitOk
  }

  /** insertDataset: bind (message_id,) + values, execute, commit and advance
      message_id; on any failure roll back, which itself raises when there is
      no connection or the rollback fails. */
  function Insert(f: DbFields, values: seq<SqlValue>, o: InsertOutcomes): (r: Inserted)
    ensures r.result == Returned(true) <==> Commits(f, values, o)
    ensures r.result == Returned(true) ==>
      r.fields == f.(messageId := f.messageId + 1, table := f.table + [Row(f.messageId, values)])
    ensures r.result != Returned(true) ==> r.fields == f
    ensures r.result == Returned(false) <==> !Commits(f, values, o) && f.hasConnection && o.rollbackOk
    ensures r.result.Raised? ==> r.result.fault == (if f.hasConnection then MySQLError else AttributeError)
    ensures WellFormed(f) ==> WellFormed(r.fields)
  {
    if Commits(f, values, o) then
      Inserted(f.(messageId := f.messageId + 1, table := f.table + [Row(f.messageId, values)]),
               Returned(true))
    else if !f.hasConnection then Inserted(f, Raised(AttributeError))
    else if !o.rollbackOk then Inserted(f, Raised(MySQLError))
    else Inserted(f, Returned(false))
  }

  /** Once the connection is up and the ping succeeds, a health check changes
      nothing and reports ("up", False). */
  lemma EnsureIdempotentWhenUp(f: DbFields, o: EnsureOutcomes)
    requires WellFormed(f) && f.state == Up && o.pingOk
    ensures Ensure(f, o) == EnsureResult(f, Up, false)
  {
  }

  /** A failed insert does not consume its message id: the next insert that
      commits is stored under the id the failed one was given. */
  lemma FailedInsertIdIsReused(f: DbFields, v: seq<SqlValue>, o: InsertOutcomes,
                               w: seq<SqlValue>, p: InsertOutcomes)
    requires Insert(f, v, o).result == Returned(false)
    requires Insert(Insert(f, v, o).fields, w, p).result == Returned(true)
    ensures Insert(Insert(f, v, o).fields, w, p).fields.table == f.table + [Row(f.messageId, w)]
    ensures Insert(Insert(f, v, o).fields, w, p).fields.messageId == f.messageId + 1
  {
  }

  class MySql {
    const settings: Settings
    var connectionState: ConnectionState
    var hasConnection: bool
    var hasCursor: bool
    var messageId: int
    ghost var table: seq<Row>

    ghost function Fields(): DbFields
      reads this
    {
      DbFields(connectionState, hasConnection, hasCursor, messageId, table)
    }

    ghost predicate Valid()
      reads this
    {
      WellFormed(Fields())
    }

    constructor (settings: Settings)
      ensures this.settings == settings
      ensures Fields() == Initial() && Valid()
    {
      this.settings := settings;
      connectionState := Never;
      hasConnection := false;
      hasCursor := false;
      messageId := 1;
      table := [];
    }

    method GetConnectionState() returns (s: ConnectionState)
      ensures s == connectionState
    {
      s := connectionState;
    }

    method EstablishConnection(c: ConnectOutcome) returns (ok: bool)
      modifies this
      ensures Established(Fields(), ok) == Establish(old(Fields()), c)
    {
      match c
      case ConnectRaises =>
        connectionState := Down;
        ok := false;
      case CursorRaises =>
        hasConnection := true;
        connectionState := Down;
        ok := false;
      case Connected =>
        hasConnection := true;
        hasCursor := true;
        connectionState := Up;
        ok := true;
    }

    /** Best-effort close: calling close() on None raises AttributeError and a
        failing close raises pymysql's error; the bare except swallows both. */
    method CloseConnection(closeOk: bool) returns (r: Completion<()>)
      ensures r == Returned(())
    {
      var attempt: Completion<()>;
      if !hasConnection {
        attempt := Raised(AttributeError);
      } else if !closeOk {
        attempt := Raised(MySQLError);
      } else {
        attempt := Returned(());
      }
      // except: pass
      r := Returned(());
    }

    method EnsureDatabaseConnection(o: EnsureOutcomes) returns (state: ConnectionState, changed: bool)
      modifies this
      ensures EnsureResult(Fields(), state, changed) == Ensure(old(Fields()), o)
    {
      var last := connectionState;
      if !hasConnection {
        var established := EstablishConnection(o.connect);
      } else if o.pingOk {
        connectionState := Up;
      } else {
        connectionState := Down;
      }
      changed := connectionState != last;
      state := connectionState;
    }

    method InsertDataset(values: seq<SqlValue>, o: InsertOutcomes) returns (r: Completion<bool>)
      modifies this
      ensures Inserted(Fields(), r) == Insert(old(Fields()), values, o)
    {
      var params := [SqlInt(messageId)] + values;
      if hasCursor && |params| == Placeholders && o.executeOk && hasConnection && o.commitOk {
        table := table + [Row(messageId, values)];
        messageId := messageId + 1;
        r := Returned(true);
      } else if !hasConnection {
        r := Raised(AttributeError);
      } else if !o.rollbackOk {
        r := Raised(MySQLError);
      } else {
        r := Returned(false);
      }
    }
  }
}
