# serial-to-mysql bridge, modelled in Dafny

The bridge reads records from a serial line and stores them in a MySQL table.
It has three parts:

- `MySql` (classes/mysql.py) manages the database. It keeps a connection that
  is `"never"`, `"up"` or `"down"` and reconnects or pings on demand. It
  numbers the rows it inserts with a `message_id` that goes up only when a
  commit succeeds.
- `SerialReceiver` (classes/serial_receiver.py) configures a pyserial port,
  opens it once and reads decoded lines from it.
- main.py holds `str2bool` and the `while 1` loop:
  1. it checks the database's health and skips the iteration when the
     reported state changed;
  2. it reads a line;
  3. it builds a six-element tuple from the line;
  4. it inserts the tuple.

  Its `finally` closes the receiver.

The project has five modules:

- `Common` (common.dfy): the shared values. `Completion<T>` stands for a
  Python call that either returns or raises one of the exception classes in
  `Fault`.
- `Database` (database.dfy): the `MySql` class.
  - Its fields are the connection state, whether `self.connection` is not
    `None`, whether `self.dictCursor` was assigned, `message_id`, and a ghost
    copy of the rows committed to `serial_data_ehz`.
  - Each method is proved equal to a function on those fields as a value, a
    `DbFields`. The functions are `Establish`, `Ensure` and `Insert`, and
    each states what its method promises.
  - Every pymysql call is given as an outcome parameter: connect, cursor,
    ping, execute, commit, rollback.
- `Serial` (serial.dfy): the pyserial descriptor and `SerialReceiver` as
  classes.
  - Whether the device can be opened is a parameter, and so is what each
    `readline().decode()` yields.
  - `ReadSpec` is the value that `read()` returns.
- `Bridge` (bridge.dfy): `str2bool`, the tuple built from a line, and the
  loop.
  - `Iteration` and `Run` describe one pass and a whole run on values. Each
    call the loop makes is logged as an `Event`, together with what the call
    returned.
  - `Iterate` and `RunLoop` are the imperative loop over a `MySql` and a
    `SerialReceiver`. They are proved to follow `Iteration` and `Run`.
  - A run is given a finite sequence of iteration inputs. When the inputs
    run out, that stands for the operator's interrupt between two
    iterations.
- `BridgeProperties` (bridge_properties.dfy): proofs about whole runs.
  - The order of the calls, in the form of a small automaton.
  - What the changed flag means.
  - The numbering of the committed rows.
  - The runs in which the code, as it stands, stops early or never inserts.

## Model

| member | source | states |
|---|---|---|
| `Database.Initial` | classes/mysql.py:9-17 | The fields after `__init__` are state "never", no connection, no cursor, `message_id` 1 and no rows, and they satisfy the object invariant `WellFormed`. |
| `Database.MySql.constructor` | classes/mysql.py:9-17 | The new object keeps its settings and its fields are `Initial()`. |
| `Database.MySql.GetConnectionState` | classes/mysql.py:19-20 | Returns the current connection state and changes nothing. |
| `Database.Establish` | classes/mysql.py:22-38 | Returns True exactly when both connect and cursor succeed, and the state is then "up"; otherwise the state is "down". A failed connect keeps the old handle and any earlier cursor attribute. A failed cursor() keeps the new connection and any earlier cursor attribute. The id and the rows are unchanged and `WellFormed` is preserved. |
| `Database.MySql.EstablishConnection` | classes/mysql.py:22-38 | The new fields and the returned flag are `Establish` of the old fields. |
| `Database.MySql.CloseConnection` | classes/mysql.py:40-46 | No exception escapes, whether the handle is `None` (`AttributeError`), the close fails, or it succeeds: the bare `except` swallows the first two. |
| `Database.Ensure` | classes/mysql.py:61-79 | The reported state is the new state and is never "never". The flag is True exactly when the state differs from the state on entry. With no connection the result is `establishConnection`'s; otherwise the ping alone decides "up" or "down". `WellFormed` is preserved. |
| `Database.MySql.EnsureDatabaseConnection` | classes/mysql.py:61-79 | The new fields, the returned state and the flag are `Ensure` of the old fields. |
| `Database.EnsureIdempotentWhenUp` | classes/mysql.py:68-79 | While the connection is up and the ping succeeds, a health check changes nothing and reports ("up", False). |
| `Database.Commits` | classes/mysql.py:86-90 | `message_id += 1` is reached only over an existing connection and with a tuple of one value per column after `message_id_python`. |
| `Database.Insert` | classes/mysql.py:81-96 | Returns True exactly when the cursor exists, the tuple fills the seven placeholders, and execute and commit succeed; the row `(message_id,) + values` is then appended and `message_id` goes up by one. Otherwise nothing changes. It returns False exactly when a failure was rolled back. The rollback raises `MySQLError` when it fails and `AttributeError` when there is no connection. |
| `Database.MySql.InsertDataset` | classes/mysql.py:81-96 | The new fields and the result are `Insert` of the old fields. |
| `Database.FailedInsertIdIsReused` | classes/mysql.py:85-96 | An insert that was rolled back leaves its id to the next insert that commits. |
| `Serial.SerialDescriptor.ForUrl` | classes/serial_receiver.py:28 | `serial_for_url(port, do_not_open=True)` gives a closed port with pyserial's defaults (9600 baud, 8 data bits, parity "N", 1 stop bit, no timeout). |
| `Serial.SerialDescriptor.Open` | classes/serial_receiver.py:52 | Succeeds exactly when the port was closed and the device is present. A failure raises `SerialException`. The settings are unchanged. |
| `Serial.SerialDescriptor.Close` | classes/serial_receiver.py:69 | The port is closed afterwards and its settings are unchanged. |
| `Serial.SerialReceiver.ConstructSerialConnection` | classes/serial_receiver.py:27-34 | A fresh, closed descriptor carrying the port, baud rate, byte size, parity and stop bits of the settings, with no timeout. |
| `Serial.SerialReceiver.OpenSerialConnection` | classes/serial_receiver.py:49-59 | A new configured descriptor is opened exactly when the device is present. The state always ends "down": "up" is assigned after a successful open, but the callback it then calls does not exist and raises. The recorded state history, the sleep count and the attempt count follow this. |
| `Serial.SerialReceiver.constructor` | classes/serial_receiver.py:11-14 | Builds one descriptor and discards it, then makes exactly one open attempt. The receiver ends "down", with its port open exactly when the device was present. |
| `Serial.ReadSpec` | classes/serial_receiver.py:61-66 | `read()` yields the decoded line exactly when the port is open and a line arrives. A read or decode error, or a port that is not open, gives `None`. Only the operator's interrupt escapes. |
| `Serial.SerialReceiver.Read` | classes/serial_receiver.py:61-66 | Returns `ReadSpec` of the port's open flag and the device's outcome. |
| `Serial.SerialReceiver.Close` | classes/serial_receiver.py:68-69 | Afterwards the port is closed and still configured. |
| `Bridge.Str2BoolMatchesTokenIgnoringCase` | main.py:25-26 | `str2bool` holds exactly for the strings that equal one of the ten tokens up to the case of ASCII letters, in both directions. |
| `Bridge.Str2BoolIgnoresCase` | main.py:25-26 | Changing the case of ASCII letters never changes `str2bool`. |
| `Bridge.Str2Bool` | main.py:25-26 | Only a string of one to nine characters, the lengths of the tokens, can be true. |
| `Bridge.ConvertChar` | main.py:84-89 | `line[0]` is kept as a one-character string. `float(c)` and `int(c)` give a value of their type exactly when the conversion succeeds, and `ValueError` otherwise. |
| `Bridge.BuildFrom` | main.py:83-90 | From element k on, a built tuple has one element per remaining field. A failure is `IndexError` (the line is too short) or `ValueError`. |
| `Bridge.BuildFromConverts` | main.py:83-90 | From element k on, the tuple is built exactly when the line has at least six characters and every one-character conversion succeeds. Element j is then the conversion of character j. |
| `Bridge.BuildValues` | main.py:79-90 | A `None` line raises `TypeError`. A built tuple has six elements and comes from a line. Any other failure is `IndexError` or `ValueError`. |
| `Bridge.BuildValuesConverts` | main.py:79-90 | The six elements are `line[0]`, `float(line[1])`, `float(line[2])`, `int(line[3])`, `int(line[4])` and `int(line[5])`, and the tuple exists exactly when all six exist. |
| `Bridge.Iteration` | main.py:70-92 | A pass makes one to three calls and starts with a health check, which never reports "never". |
| `Bridge.Run` | main.py:69-96 | Every run, however it ends, ends with the `finally`'s `receiver.close()`. |
| `Bridge.Iterate` | main.py:70-92 | One pass of the loop body over the two objects equals `Iteration`: its calls, the new database fields, and whether an exception leaves the loop. |
| `Bridge.RunLoop` | main.py:69-96 | The whole `try`/`while 1`/`finally` equals `Run` on the starting fields, and the receiver's port is closed at the end. |
| `BridgeProperties.IterationShape` | main.py:70-92 | Every pass starts with a health check. Its calls follow the automaton `MayFollow`. A pass ends the loop exactly when it does not end with a changed health check or an insert that returned. |
| `BridgeProperties.RunOrdered` | main.py:69-96 | The log of every run is accepted by the automaton: it starts with a health check, or with the close when no pass was made, and ends with the close. |
| `BridgeProperties.SkippedIterationHasNoReadOrInsert` | main.py:72-77 | After a health check that reports a change, the next call is another health check or the close, never a read or an insert. Such a pass is that health check alone, and the run then goes on from the next input. |
| `BridgeProperties.UnchangedIterationReadsThenInserts` | main.py:72-92 | After a health check that reports no change comes exactly one read. Then comes the insert of exactly the tuple built from that line, or the close when the read or the build raised. |
| `BridgeProperties.ReadsAndInsertsArePreceded` | main.py:72-92 | Every read comes right after an unchanged health check. Every insert comes right after the read whose line its tuple was built from. |
| `BridgeProperties.InsertResultIsIgnored` | main.py:92 | After an insert returns True or False, the loop goes on to the next health check, or to the close. A pass ending in such an insert is followed by the run from the next input, whatever the result was. |
| `BridgeProperties.ReceiverClosedOnceOnExit` | main.py:95-96 | However a run ends, `receiver.close()` is the last call and is made once. |
| `BridgeProperties.IterationReports` | classes/mysql.py:62-79 | Within one pass, the health check's flag compares its state with the state on entry, and the state at the end of the pass is the one it reported. |
| `BridgeProperties.ChangedFlagTracksReportedStates` | classes/mysql.py:62-79 | Over a run, the flag of every health check says exactly whether its state differs from the state the previous health check reported, or from the starting state for the first one. The final state is the last one reported. |
| `BridgeProperties.HealthyConnectionIsNeverReportedChanged` | classes/mysql.py:68-79 | While the connection starts up and every ping succeeds, every health check of the run reports ("up", False). |
| `BridgeProperties.IterationCommits` | classes/mysql.py:85-91 | A pass appends to the table exactly the tuples its inserts committed, numbered from the current `message_id`, and advances `message_id` by their number. |
| `BridgeProperties.RunCommitsInOrder` | classes/mysql.py:85-91 | Over a run, exactly the inserts that returned True reach the table. They appear in call order, numbered consecutively from the starting `message_id`, and `message_id` ends one past the last. |
| `BridgeProperties.FreshRunNumbersRowsFromOne` | classes/mysql.py:17 | Starting from a new `MySql`, the k-th committed row carries id k + 1, and `message_id` is one more than the number of rows. |
| `BridgeProperties.ValuesFillPlaceholders` | classes/mysql.py:82-85 | The message id plus a built tuple has exactly one value per placeholder of the INSERT, and as many values as it has columns. |
| `BridgeProperties.ColumnsReceiveShiftedFields` | classes/mysql.py:83-85 | `data_timestamp_first_sample` receives the one-character string `line[0]`, and `data_max` receives `int(line[5])`. |
| `BridgeProperties.DocumentedRecordIsReadByCharacter` | main.py:81-90 | For the record documented at main.py:81, only the conversions of "d", "f", ";", "1" and "7" decide whether the tuple is built. |
| `BridgeProperties.DocumentedRecordRaises` | main.py:81-90 | When `float("d")` fails, as it does in Python, the documented record raises `ValueError`. |
| `BridgeProperties.ClosedPortNeverInserts` | main.py:79-90 | When the serial port could not be opened, no run inserts anything, and the table and `message_id` stay as they were. |
| `BridgeProperties.ReachableDatabaseStoresFirstLineAsOne` | main.py:70-92 | With a database reachable at start-up: the first health check reports ("up", True) and its pass is skipped; the second reports ("up", False); the first line read is stored with id 1. The whole log of the run is given. |
| `BridgeProperties.UnreachableDatabaseEndsLoopAtFirstInsert` | classes/mysql.py:92-93 | With a database still unreachable at the second health check, that pass reads and inserts. The rollback on a `None` connection raises `AttributeError` and ends the loop, whatever passes were to follow. |

## Where the code differs from its documentation

The model follows the code in each of these places.

- The serial callback is undefined, so a working port is reported "down"
  (classes/serial_receiver.py:39-40 and 53-56). The docstring says the
  callback runs after "up" is set. The class defines no
  `__scannerStateChangeCallback`, so the call raises `AttributeError`. The
  bare `except` then sets "down" and sleeps, even though the port stays
  open.
- The serial port is never reopened. `__openSerialConnection` runs only from
  the constructor; once it fails, every `read()` returns `None`. See
  `ClosedPortNeverInserts`.
- The line is indexed by character, not split at ';' (main.py:81-90). The
  comment shows a ';'-separated record, but the tuple takes characters 0 to
  5. `line[0]` lands in `data_timestamp_first_sample`, and the documented
  record itself raises `ValueError`.
- A `None` line ends the loop (main.py:79-84). `read()` returns `None` on
  failure and `line[0]` then raises `TypeError`. A line shorter than six
  characters raises `IndexError`.
- A database unreachable twice at start-up ends the loop
  (classes/mysql.py:92-93). The rollback in the `except` clause runs on
  `self.connection`, which is still `None`. A failing rollback on a broken
  connection ends the loop the same way.

## Left out

- Logging and the `mogrify` call are not modelled. They produce output and
  nothing the loop uses.
- Configuration loading, logging set-up, the exception hook and the imports
  at main.py:1-67 are not modelled. The model starts from the constructed
  objects.
- The network and the device are not modelled. pymysql and pyserial are
  replaced by outcome parameters, and the serial descriptor is reduced to its
  settings and an open flag.
- `float()`, `int()` and `decode()` are opaque. The first two are given as
  functions from one-character strings to an optional number, and `decode()`
  is folded into the read outcome. Python floats are modelled as reals.
- Time is not modelled. `time.sleep(1)` is a ghost counter.
- The queue and threading imports of classes/serial_receiver.py are unused
  there and not modelled.
- Interrupts are not modelled everywhere. The operator's `KeyboardInterrupt`
  arrives only between two passes or during the blocking read, not inside
  the other calls.
- `Serial.SerialReceiver.ConstructSerialConnection`: does not model the
  exceptions of `serial_for_url`, of `int()` on the settings or of
  pyserial's checks of the values, because those checks belong to the
  library. Construction always succeeds.
- `Database.MySql.constructor`: does not model the `KeyError` of a missing
  setting or the `ValueError` of `int(port_number)`, because those come from
  the configuration file.
- `Database.MySql.CloseConnection`: does not record that the handle is
  closed afterwards, because the loop never uses the database after it
  closes.
- `Bridge.Str2Bool`: `str.lower()` is modelled on ASCII letters only. The
  other characters that Python lowers into ASCII (the Kelvin sign gives "k",
  a dotted capital I gives "i" plus a combining dot) make no token, so the
  set of accepted strings is the same. main.py defines `str2bool` but never
  calls it.
