/** The serial side of classes/serial_receiver.py: a pyserial port
    descriptor, and the SerialReceiver that configures it, opens it once and
    reads lines from it. The device is abstracted away: whether it can be
    opened, and what each readline yields, are parameters. */
module Serial {
  import opened Common

  /** The entries of the [serial] section. */
  datatype SerialSettings = SerialSettings(port: string, baudrate: int, bytesize: int,
                                           parity: string, stopbits: int)

  /** What one readline().decode() on an open port yields: a decoded line, an
      I/O or decoding error, or the operator's interrupt while it blocks. */
  datatype ReadOutcome = Line(text: string) | ReadFault | Interrupted

  /** SerialReceiver.read: the decoded line, or None when readline or decode
      raise (readline on a port that is not open raises at once). Only the
      interrupt, which is no Exception, escapes. */
  function ReadSpec(portOpen: bool, o: ReadOutcome): (r: Completion<Option<string>>)
    ensures r.Raised? <==> portOpen && o.Interrupted?
    ensures r.Raised? ==> r.fault == KeyboardInterrupt
    ensures (r.Returned? && r.value.Some?) <==> portOpen && o.Line?
    ensures r.Returned? && r.value.Some? ==> r.value.value == o.text
  {
    if !portOpen then Returned(None)
    else match o
      case Line(text) => Returned(Some(text))
      case ReadFault => Returned(None)
      case Interrupted => Raised(KeyboardInterrupt)
  }

  /** A pyserial Serial object. */
  class SerialDescriptor {
    var port: string
    var baudrate: int
    var bytesize: int
    var parity: string
    var stopbits: int
    var timeout: Option<real>   // None: readline blocks until a line arrives
    var isOpen: bool

    /** serial_for_url(port, do_not_open=True): a closed port with pyserial's
        defaults (9600 baud, 8 data bits, no parity, 1 stop bit, no timeout). */
    constructor ForUrl(port: string)
      ensures this.port == port && !isOpen && timeout == None
      ensures baudrate == 9600 && bytesize == 8 && parity == "N" && stopbits == 1
    {
      this.port := port;
      baudrate := 9600;
      bytesize := 8;
      parity := "N";
      stopbits := 1;
      timeout := None;
      isOpen := false;
    }

    /** open(): fails when the port is already open or the device is absent. */
    method Open(deviceAvailable: bool) returns (r: Completion<()>)
      modifies this
      ensures r.Returned? <==> !old(isOpen) && deviceAvailable
      ensures r.Raised? ==> r.fault == SerialException
      ensures isOpen == (old(isOpen) || deviceAvailable)
      ensures port == old(port) && baudrate == old(baudrate) && bytesize == old(bytesize)
      ensures parity == old(parity) && stopbits == old(stopbits) && timeout == old(timeout)
    {
      if isOpen {
        r := Raised(SerialException);
      } else if !deviceAvailable {
        r := Raised(SerialException);
      } else {
        isOpen := true;
        r := Returned(());
      }
    }

    /** close(): releases the device; closing a closed port does nothing. */
    method Close()
      modifies this
      ensures !isOpen
      ensures port == old(port) && baudrate == old(baudrate) && bytesize == old(bytesize)
      ensures parity == old(parity) && stopbits == old(stopbits) && timeout == old(timeout)
    {
      isOpen := false;
    }
  }

  /** Whether a descriptor carries the settings and blocks on reads. */
  ghost predicate Configured(d: SerialDescriptor, s: SerialSettings)
    reads d
  {
    && d.port == s.port && d.baudrate == s.baudrate && d.bytesize == s.bytesize
    && d.parity == s.parity && d.stopbits == s.stopbits && d.timeout == None
  }

  class SerialReceiver {
    const settings: SerialSettings
    var ser: SerialDescriptor?
    var connectionState: ConnectionState
    /** Every value assigned to __connectionState, in order. */
    ghost var stateHistory: seq<ConnectionState>
    /** Number of time.sleep(1) calls. */
    ghost var sleeps: nat
    /** Number of __openSerialConnection calls. */
    ghost var openAttempts: nat
    /** Number of __constructSerialConnection calls. */
    ghost var descriptorsBuilt: nat

    ghost predicate Valid()
      reads this, ser
    {
      ser != null && Configured(ser, settings) && connectionState != Never
    }

    /** __init__: build a descriptor (and discard it), then open once. The
        callback at line 54 is not defined, so the receiver always ends "down",
        with the port open exactly when the device was available. */
    constructor (settings: SerialSettings, deviceAvailable: bool)
      ensures Valid() && this.settings == settings && fresh(ser)
      ensures ser.isOpen == deviceAvailable
      ensures connectionState == Down
      ensures stateHistory == (if deviceAvailable then [Up, Down] else [Down])
      ensures openAttempts == 1 && descriptorsBuilt == 2 && sleeps == 1
    {
      this.settings := settings;
      ser := null;
      // __connectionState is only assigned by __openSerialConnection below
      connectionState := Never;
      stateHistory := [];
      sleeps := 0;
      openAttempts := 0;
      descriptorsBuilt := 0;
      new;
      var discarded := ConstructSerialConnection();
      OpenSerialConnection(deviceAvailable);
    }

    /** __constructSerialConnection: a fresh, closed descriptor, configured
        attribute by attribute from the settings. */
    method ConstructSerialConnection() returns (d: SerialDescriptor)
      modifies this`descriptorsBuilt
      ensures fresh(d) && !d.isOpen && Configured(d, settings)
      ensures descriptorsBuilt == old(descriptorsBuilt) + 1
    {
      d := new SerialDescriptor.ForUrl(settings.port);
      d.baudrate := settings.baudrate;
      d.bytesize := settings.bytesize;
      d.parity := settings.parity;
      d.stopbits := settings.stopbits;
      d.timeout := None;
      descriptorsBuilt := descriptorsBuilt + 1;
    }

    /** __openSerialConnection: a new descriptor, open(), "up" and the state
        callback; any exception sets "down" and sleeps one second. The class
        defines no __scannerStateChangeCallback, so after a successful open()
        looking it up raises AttributeError and the state still ends "down". */
    method OpenSerialConnection(deviceAvailable: bool)
      modifies this
      ensures ser != null && fresh(ser) && Configured(ser, settings)
      ensures ser.isOpen == deviceAvailable
      ensures connectionState == Down
      ensures stateHistory == old(stateHistory) + (if deviceAvailable then [Up, Down] else [Down])
      ensures sleeps == old(sleeps) + 1
      ensures openAttempts == old(openAttempts) + 1
      ensures descriptorsBuilt == old(descriptorsBuilt) + 1
    {
      openAttempts := openAttempts + 1;
      var d := ConstructSerialConnection();
      ser := d;
      var attempt := d.Open(deviceAvailable);
      var outcome: Completion<()> := attempt;
      if attempt.Returned? {
        connectionState := Up;
        stateHistory := stateHistory + [Up];
        // self.__scannerStateChangeCallback(...): no such attribute
        outcome := Raised(AttributeError);
      }
      if outcome.Raised? {
        connectionState := Down;
        stateHistory := stateHistory + [Down];
        sleeps := sleeps + 1;
      }
    }

    /** read: readline().decode(), or None when either raises. */
    method Read(o: ReadOutcome) returns (r: Completion<Option<string>>)
      requires Valid()
      ensures r == ReadSpec(ser.isOpen, o)
    {
      if !ser.isOpen {
        r := Returned(None);
      } else {
        match o
        case Line(text) => r := Returned(Some(text));
        case ReadFault => r := Returned(None);
        case Interrupted => r := Raised(KeyboardInterrupt);
      }
    }

    /** close: delegates to the descriptor and changes nothing else. */
    method Close()
      requires Valid()
      modifies ser
      ensures Valid() && !ser.isOpen
    {
      ser.Close();
    }
  }
}
