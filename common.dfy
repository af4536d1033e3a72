/** Values shared by the two connection managers and the ingestion loop. */
module Common {

  datatype Option<T> = None | Some(value: T)

  /** The tri-state "never" | "up" | "down" that both managers keep in their
      private __connectionState attribute. */
  datatype ConnectionState = Never | Up | Down

  /** The Python exception classes that can escape a call of the core. */
  datatype Fault =
    | AttributeError     // an attribute that was never assigned, or a method called on None
    | TypeError          // indexing None
    | IndexError         // indexing past the end of a string
    | ValueError         // float() or int() of a string that is no number
    | MySQLError         // pymysql.err.MySQLError, the base of what a failing rollback
                         // raises (InterfaceError once the socket is gone, OperationalError, ...)
    | SerialException    // pyserial: the device cannot be opened
    | KeyboardInterrupt  // the operator stops the process

  /** How a Python call ends: it returns a value, or an exception escapes it. */
  datatype Completion<T> = Returned(value: T) | Raised(fault: Fault)

  /** One element of a Python tuple that is bound to an SQL placeholder.
      Python floats are modelled as reals. */
  datatype SqlValue = SqlInt(i: int) | SqlFloat(r: real) | SqlText(s: string)
}
