/** The port commands of `ardeck/tauri.rs`: naming a device after its USB identity,
    listing the ports that have such a name, noticing when the port list changes, and
    the registry checks of opening and closing a port. Enumerating ports and talking to
    them is outside the model: the enumeration is given as a list. */
module ArdeckCommands {
  import opened Common

  /** `UsbPortInfo`. */
  datatype UsbPortInfo = UsbPortInfo(
    vid: u16,
    pid: u16,
    serialNumber: Option<string>,
    manufacturer: Option<string>,
    product: Option<string>)

  /** `SerialPortType`. */
  datatype PortType = UsbPort(info: UsbPortInfo) | PciPort | BluetoothPort | UnknownPort

  /** `SerialPortInfo`. */
  datatype SerialPortInfo = SerialPortInfo(portName: string, portType: PortType)

  predicate IsDigit(c: char)
  {
    '0' <= c <= '9'
  }

  predicate IsDecimal(s: string)
  {
    |s| >= 1 && forall k :: 0 <= k < |s| ==> IsDigit(s[k])
  }

  function DigitChar(d: nat): (c: char)
    requires d < 10
    ensures IsDigit(c) && DigitValue(c) == d
  {
    ('0' as int + d) as char
  }

  /** `format!("{}", n)` for an unsigned integer: its decimal digits, most significant
      first. */
  function Decimal(n: nat): (s: string)
    ensures IsDecimal(s)
    decreases n
  {
    if n < 10 then [DigitChar(n)] else Decimal(n / 10) + [DigitChar(n % 10)]
  }

  function DigitValue(c: char): nat
    requires IsDigit(c)
  {
    c as int - '0' as int
  }

  /** The number a string of decimal digits denotes. */
  function ParseDecimal(s: string): nat
    requires forall k :: 0 <= k < |s| ==> IsDigit(s[k])
  {
    if s == [] then 0 else ParseDecimal(s[..|s| - 1]) * 10 + DigitValue(s[|s| - 1])
  }

  /** Printing a number in decimal and reading it back gives the number. */
  lemma {:induction false} DecimalRoundTrip(n: nat)
    ensures ParseDecimal(Decimal(n)) == n
    decreases n
  {
    if n >= 10 {
      var s := Decimal(n);
      assert s[..|s| - 1] == Decimal(n / 10);
      DecimalRoundTrip(n / 10);
    }
  }

  /** The device id of a USB port: "vid-pid-serial", or "vid-pid" when the port reports
      no serial number. */
  function UsbDeviceId(info: UsbPortInfo): string
  {
    match info.serialNumber
    case Some(serial) => Decimal(info.vid) + "-" + Decimal(info.pid) + "-" + serial
    case None => Decimal(info.vid) + "-" + Decimal(info.pid)
  }

  /** `get_device_id`: only USB ports have a device id. */
  function GetDeviceId(port: SerialPortInfo): (r: Option<string>)
    ensures r.Some? <==> port.portType.UsbPort?
    ensures r.Some? ==> r.value == UsbDeviceId(port.portType.info)
  {
    match port.portType
    case UsbPort(info) => Some(UsbDeviceId(info))
    case _ => None
  }

  /** The position of the first `c` in `s`. */
  function FirstOf(s: string, c: char): (r: Option<nat>)
    ensures r.Some? ==> r.value < |s| && s[r.value] == c && forall k :: 0 <= k < r.value ==> s[k] != c
    ensures r.None? <==> forall k :: 0 <= k < |s| ==> s[k] != c
  {
    if s == [] then None
    else if s[0] == c then Some(0)
    else match FirstOf(s[1..], c)
      case None => None
      case Some(i) => Some(i + 1)
  }

  lemma FirstOfAfter(a: string, c: char, b: string)
    requires forall k :: 0 <= k < |a| ==> a[k] != c
    ensures FirstOf(a + [c] + b, c) == Some(|a|)
  {
    var s := a + [c] + b;
    assert s[|a|] == c;
    assert forall k :: 0 <= k < |a| ==> s[k] == a[k];
  }

  /** Reads a device id back into vendor id, product id and serial number: the text up
      to the first '-', the text up to the next '-', and whatever follows. */
  function ParseDeviceId(id: string): Option<(nat, nat, Option<string>)>
  {
    match FirstOf(id, '-')
    case None => None
    case Some(i) =>
      var rest := id[i + 1..];
      var pidText := match FirstOf(rest, '-') case None => rest case Some(j) => rest[..j];
      var serial := match FirstOf(rest, '-') case None => None case Some(j) => Some(rest[j + 1..]);
      if IsDecimal(id[..i]) && IsDecimal(pidText) then Some((ParseDecimal(id[..i]), ParseDecimal(pidText), serial))
      else None
  }

  /** A device id determines the vendor id, the product id and the serial number it was
      made from: decimal numbers contain no '-', so the first two dashes are the
      separators even when the serial number contains dashes of its own. */
  lemma DeviceIdRoundTrip(info: UsbPortInfo)
    ensures ParseDeviceId(UsbDeviceId(info)) == Some((info.vid as nat, info.pid as nat, info.serialNumber))
  {
    var v, p := Decimal(info.vid), Decimal(info.pid);
    DecimalRoundTrip(info.vid);
    DecimalRoundTrip(info.pid);
    var tail := match info.serialNumber case Some(serial) => "-" + serial case None => "";
    var id := UsbDeviceId(info);
    assert id == v + ['-'] + (p + tail);
    FirstOfAfter(v, '-', p + tail);
    assert id[..|v|] == v;
    var rest := id[|v| + 1..];
    assert rest == p + tail;
    match info.serialNumber {
      case Some(serial) =>
        assert rest == p + ['-'] + serial;
        FirstOfAfter(p, '-', serial);
        assert rest[..|p|] == p;
        assert rest[|p| + 1..] == serial;
      case None =>
        assert rest == p;
    }
  }

  /** Distinct USB identities give distinct device ids. */
  lemma DeviceIdInjective(a: UsbPortInfo, b: UsbPortInfo)
    requires UsbDeviceId(a) == UsbDeviceId(b)
    ensures a.vid == b.vid && a.pid == b.pid && a.serialNumber == b.serialNumber
  {
    DeviceIdRoundTrip(a);
    DeviceIdRoundTrip(b);
  }

  /** The ports that have a device id, each paired with it, in enumeration order. */
  function KeptPorts(ports: seq<SerialPortInfo>): seq<(string, SerialPortInfo)>
  {
    if ports == [] then []
    else
      var last := ports[|ports| - 1];
      KeptPorts(ports[..|ports| - 1]) + match GetDeviceId(last) case Some(id) => [(id, last)] case None => []
  }

  /** A pair is listed exactly when its port was enumerated and has that device id. */
  lemma {:induction false} KeptPortsMembership(ports: seq<SerialPortInfo>, id: string, port: SerialPortInfo)
    ensures (id, port) in KeptPorts(ports) <==> port in ports && GetDeviceId(port) == Some(id)
  {
    if ports != [] {
      var init := ports[..|ports| - 1];
      KeptPortsMembership(init, id, port);
      assert ports == init + [ports[|ports| - 1]];
    }
  }

  /** Filtering keeps order: it distributes over concatenation. */
  lemma {:induction false} KeptPortsAppend(a: seq<SerialPortInfo>, b: seq<SerialPortInfo>)
    ensures KeptPorts(a + b) == KeptPorts(a) + KeptPorts(b)
    decreases |b|
  {
    if b == [] {
      assert a + b == a;
    } else {
      var b' := b[..|b| - 1];
      assert (a + b)[..|a + b| - 1] == a + b';
      assert (a + b)[|a + b| - 1] == b[|b| - 1];
      KeptPortsAppend(a, b');
    }
  }

  /** `get_ports`: the loop that pairs each port with its device id and skips the
      others. */
  method GetPorts(ports: seq<SerialPortInfo>) returns (list: seq<(string, SerialPortInfo)>)
    ensures list == KeptPorts(ports)
  {
    list := [];
    for i := 0 to |ports|
      invariant list == KeptPorts(ports[..i])
    {
      assert ports[..i + 1][..i] == ports[..i];
      var port := ports[i];
      match GetDeviceId(port) {
        case Some(deviceId) =>
          list := list + [(deviceId, port)];
        case None =>
      }
    }
    assert ports[..|ports|] == ports;
  }

  /** The `on-ports` payloads sent by the watcher for a run of polls, starting from
      the previous poll `last`: a poll sends its listing only when it differs from the
      poll before it. */
  function WatchFrom(last: seq<SerialPortInfo>, polls: seq<seq<SerialPortInfo>>): seq<seq<(string, SerialPortInfo)>>
    decreases |polls|
  {
    if polls == [] then []
    else (if last != polls[0] then [KeptPorts(polls[0])] else []) + WatchFrom(polls[0], polls[1..])
  }

  /** `serial_watch`: the polling loop, over the port lists that successive polls
      return. The watcher starts from an empty list. */
  method SerialWatch(polls: seq<seq<SerialPortInfo>>) returns (events: seq<seq<(string, SerialPortInfo)>>)
    ensures events == WatchFrom([], polls)
  {
    var lastPorts: seq<SerialPortInfo> := [];
    events := [];
    for i := 0 to |polls|
      invariant events + WatchFrom(lastPorts, polls[i..]) == WatchFrom([], polls)
    {
      var ports := polls[i];
      ghost var sent := if lastPorts != ports then [KeptPorts(ports)] else [];
      assert WatchFrom(lastPorts, polls[i..]) == sent + WatchFrom(ports, polls[i + 1..]) by {
        assert polls[i..][0] == ports;
        assert polls[i..][1..] == polls[i + 1..];
      }
      if lastPorts != ports {
        var payload := GetPorts(ports);
        assert events + [payload] + WatchFrom(ports, polls[i + 1..]) == events + (sent + WatchFrom(ports, polls[i + 1..]));
        events := events + [payload];
      }
      lastPorts := ports;
    }
    assert polls[|polls|..] == [];
  }

  /** While the port list stays the same nothing more is sent. */
  lemma {:induction false} StableSilent(last: seq<SerialPortInfo>, polls: seq<seq<SerialPortInfo>>)
    requires forall i :: 0 <= i < |polls| ==> polls[i] == last
    ensures WatchFrom(last, polls) == []
  {
    if polls != [] {
      StableSilent(last, polls[1..]);
    }
  }

  /** Every payload is the listing of some poll, and there is at most one per poll. */
  lemma {:induction false} WatchPayloads(last: seq<SerialPortInfo>, polls: seq<seq<SerialPortInfo>>)
    ensures |WatchFrom(last, polls)| <= |polls|
    ensures forall e :: e in WatchFrom(last, polls) ==> exists i :: 0 <= i < |polls| && e == KeptPorts(polls[i])
    decreases |polls|
  {
    if polls != [] {
      WatchPayloads(polls[0], polls[1..]);
      forall e | e in WatchFrom(polls[0], polls[1..])
        ensures exists i :: 0 <= i < |polls| && e == KeptPorts(polls[i])
      {
        var i :| 0 <= i < |polls[1..]| && e == KeptPorts(polls[1..][i]);
        assert e == KeptPorts(polls[i + 1]);
      }
    }
  }

  /** A change of the port list is always reported: the payload of the poll that
      changed it comes next. */
  lemma ChangeReported(last: seq<SerialPortInfo>, p: seq<SerialPortInfo>, rest: seq<seq<SerialPortInfo>>)
    requires last != p
    ensures WatchFrom(last, [p] + rest) == [KeptPorts(p)] + WatchFrom(p, rest)
  {
    assert ([p] + rest)[1..] == rest;
  }

  /** An open connection: the device handle and the flag its read loop checks before
      each read (`continue_flag`). */
  datatype Connection = Connection(device: nat, continueFlag: bool)

  const AlreadyOpen: u32 := 501
  const NotOpen: u32 := 501
  const OpenFailed: u32 := 500

  /** What `open_port` answers and how it leaves the registry of open ports, given the
      enumerated ports and the outcome of opening the device (None when it fails). */
  function Open(conns: map<string, Connection>, portName: string, available: seq<SerialPortInfo>, device: Option<nat>)
    : (r: (Result<(), Failure>, map<string, Connection>))
    ensures portName in conns ==> r == (Err(Code(501)), conns)
    ensures r.0.Ok? <==> portName !in conns && (exists k :: 0 <= k < |available| && available[k].portName == portName) && device.Some?
    ensures r.0.Ok? ==> r.1 == conns[portName := Connection(device.value, true)]
    ensures r.0.Err? ==> r.1 == conns
    ensures portName !in conns && (forall k :: 0 <= k < |available| ==> available[k].portName != portName) ==>
      r.0 == Err(Panic)
    ensures portName !in conns && (exists k :: 0 <= k < |available| && available[k].portName == portName) && device.None? ==>
      r.0 == Err(Code(500))
  {
    if portName in conns then (Err(Code(AlreadyOpen)), conns)
    else if forall k :: 0 <= k < |available| ==> available[k].portName != portName then (Err(Panic), conns)
    else match device
      case None => (Err(Code(OpenFailed)), conns)
      case Some(d) => (Ok(()), conns[portName := Connection(d, true)])
  }

  /** What `close_port` answers and how it leaves the registry: a known port is asked
      to stop (its read loop removes it later); an unknown one is an error. */
  function Close(conns: map<string, Connection>, portName: string): (r: (Result<(), Failure>, map<string, Connection>))
    ensures r.0.Ok? <==> portName in conns
    ensures r.0.Err? ==> r == (Err(Code(501)), conns)
    ensures r.0.Ok? ==> r.1 == conns[portName := conns[portName].(continueFlag := false)]
  {
    if portName in conns then (Ok(()), conns[portName := conns[portName].(continueFlag := false)])
    else (Err(Code(NotOpen)), conns)
  }

  /** Opening a port that was just opened is refused and changes nothing. */
  lemma OpenTwiceRefused(conns: map<string, Connection>, portName: string, available: seq<SerialPortInfo>, d: nat, device: Option<nat>)
    requires Open(conns, portName, available, Some(d)).0.Ok?
    ensures var after := Open(conns, portName, available, Some(d)).1;
      Open(after, portName, available, device) == (Err(Code(501)), after)
  {
  }

  /** A port that was opened can be closed, and closing leaves it registered with its
      flag down until its read loop ends. */
  lemma OpenThenClose(conns: map<string, Connection>, portName: string, available: seq<SerialPortInfo>, d: nat)
    requires Open(conns, portName, available, Some(d)).0.Ok?
    ensures var after := Open(conns, portName, available, Some(d)).1;
      Close(after, portName) == (Ok(()), conns[portName := Connection(d, false)])
  {
    var after := conns[portName := Connection(d, true)];
    assert after[portName := Connection(d, false)] == conns[portName := Connection(d, false)];
  }

  /** The registry of open ports (the `ARDECK_MANAGER` map, keyed by port name). */
  class ArdeckManager {
    var connections: map<string, Connection>

    constructor ()
      ensures connections == map[]
    {
      connections := map[];
    }

    /** `open_port`. */
    method OpenPort(portName: string, available: seq<SerialPortInfo>, device: Option<nat>) returns (r: Result<(), Failure>)
      modifies this
      ensures (r, connections) == Open(old(connections), portName, available, device)
    {
      if portName in connections {
        return Err(Code(AlreadyOpen));
      }
      var found := false;
      for k := 0 to |available|
        invariant found <==> exists j :: 0 <= j < k && available[j].portName == portName
      {
        if available[k].portName == portName {
          found := true;
        }
      }
      if !found {
        return Err(Panic);
      }
      match device {
        case None =>
          return Err(Code(OpenFailed));
        case Some(d) =>
          connections := connections[portName := Connection(d, true)];
          return Ok(());
      }
    }

    /** `close_port`. */
    method ClosePort(portName: string) returns (r: Result<(), Failure>)
      modifies this
      ensures (r, connections) == Close(old(connections), portName)
    {
      if portName in connections {
        connections := connections[portName := connections[portName].(continueFlag := false)];
        return Ok(());
      }
      return Err(Code(NotOpen));
    }
  }
}
