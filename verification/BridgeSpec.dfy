/** What each remote call and each discovery refresh does to the driver's shared state. */
module BridgeSpec {
  import opened Bytes
  import opened Checksum
  import opened CommandPolicy
  import opened DeviceRegistry
  import opened DeviceListView
  import Transport

  datatype Connected = Connected(registration: Registration, definition: Definition)

  /** A request handed to the transport of a connection. */
  datatype Handed = Handed(connection: Connected, request: Transport.Request)

  /**
   Registry, connections, paths being opened, queued synthetic answers, and two logs: the device-list
   changes broadcast and the requests handed to transports.
   */
  datatype State = State(
    registry: Registry, devices: map<string, Connected>, opening: set<string>, queues: map<string, seq<seq<byte>>>,
    broadcasts: seq<DeviceList>, traffic: seq<Handed>)

  const INITIAL := State(EMPTY, map[], {}, map[], [], [])

  /** `StillWaiting` is a call whose turn has not come when the script of its sleeps ends. */
  datatype Status = NotFound | Rejected(code: ErrorCode) | Internal | StillWaiting

  datatype Outcome<+T> = Fine(value: T) | Fail(status: Status)

  type Library = map<int, Definition>

  /**
   What the outside decides in one call: whether a device can be attached, takes a write, answers a
   read, and what the other calls have made of the state after each sleep of this one.
   */
  datatype Outside = Outside(attaches: bool, delivers: bool, response: Option<seq<byte>>, sleeps: seq<State>)

  // ---- Opening ----

  function Connect(s: State, library: Library, reg: Registration, attaches: bool): State {
    if reg.online && reg.deviceId in library && attaches
    then s.(devices := s.devices[reg.path := Connected(reg, library[reg.deviceId])])
    else s
  }

  function Find(s: State, path: string): Outcome<Connected> {
    if path in s.devices then Fine(s.devices[path]) else Fail(NotFound)
  }

  /** Waits until the path is connected or nobody else is opening it, then connects what was looked up before. */
  function Await(s: State, library: Library, reg: Registration, path: string, attaches: bool, sleeps: seq<State>):
      (State, Outcome<Connected>)
    decreases |sleeps|
  {
    if path in s.devices then (s, Fine(s.devices[path]))
    else if path !in s.opening then
      var s' := Connect(s, library, reg, attaches);
      (s', Find(s', path))
    else if sleeps == [] then (s, Fail(StillWaiting))
    else Await(sleeps[0], library, reg, path, attaches, sleeps[1..])
  }

  function Open(s: State, library: Library, path: string, o: Outside): (State, Outcome<Connected>) {
    if path in s.devices then (s, Fine(s.devices[path]))
    else if path !in s.registry.byPath || !s.registry.byPath[path].online then (s, Fail(NotFound))
    else Await(s, library, s.registry.byPath[path], path, o.attaches, o.sleeps)
  }

  // ---- Sending and reading ----

  predicate IsWhitespace(c: char) {
    '\U{0009}' <= c <= '\U{000D}' || c == ' ' || c == '\U{0085}' || c == '\U{00A0}' || c == '\U{1680}' ||
    '\U{2000}' <= c <= '\U{200A}' || c == '\U{2028}' || c == '\U{2029}' || c == '\U{202F}' || c == '\U{205F}' ||
    c == '\U{3000}'
  }

  predicate Blank(path: string) {
    forall i :: 0 <= i < |path| ==> IsWhitespace(path[i])
  }

  function Queued(s: State, path: string): seq<seq<byte>> {
    if path in s.queues then s.queues[path] else []
  }

  function Enqueued(s: State, path: string): State {
    s.(queues := s.queues[path := Queued(s, path) + [[]]])
  }

  /** Takes the oldest answer; a queue that is or becomes empty is removed. */
  function Pop(s: State, path: string): (State, Option<seq<byte>>) {
    if path !in s.queues then (s, None)
    else
      var queue := s.queues[path];
      (s.(queues := if |queue| <= 1 then s.queues - {path} else s.queues[path := queue[1..]]),
       if queue == [] then None else Some(queue[0]))
  }

  function Deliver(s: State, c: Connected, msg: seq<byte>, kind: ChecksumType, delivers: bool): (State, Outcome<()>) {
    if msg == [] then (s, Fail(Internal))
    else
      var request := Transport.Request(msg[0], msg[1..], kind, Transport.SendMode);
      (s.(traffic := s.traffic + [Handed(c, request)]), if delivers then Fine(()) else Fail(Internal))
  }

  function SendOpened(s: State, path: string, c: Connected, msg: seq<byte>, kind: ChecksumType, delivers: bool):
      (State, Outcome<()>)
  {
    var decision := Evaluate(c.definition, msg);
    var s' := if decision.read.SyntheticEmptyRead? then Enqueued(s, path) else s;
    if decision.error.Some? then (s', Fail(Rejected(decision.error.value)))
    else if decision.dispatch.Skip? then (s', Fine(()))
    else Deliver(s', c, Normalized(c.definition, msg), kind, delivers)
  }

  function Send(s: State, library: Library, path: string, msg: seq<byte>, kind: ChecksumType, o: Outside):
      (State, Outcome<()>)
  {
    if Blank(path) then (s, Fail(Rejected(InvalidArgument)))
    else
      var (s', found) := Open(s, library, path, o);
      if found.Fail? then (s', Fail(found.status)) else SendOpened(s', path, found.value, msg, kind, o.delivers)
  }

  function ReadDevice(s: State, c: Connected, response: Option<seq<byte>>): (State, Outcome<seq<byte>>) {
    (s.(traffic := s.traffic + [Handed(c, Transport.Request(0, [], NoChecksum, Transport.ReadMode))]),
     if response.Some? then Fine(response.value) else Fail(Internal))
  }

  function ReadOpened(s: State, path: string, c: Connected, response: Option<seq<byte>>): (State, Outcome<seq<byte>>) {
    var canonical := c.registration.path;
    var (s', first) := if canonical != path then Pop(s, canonical) else (s, None);
    if first.Some? then (s', Fine(first.value)) else ReadDevice(s', c, response)
  }

  function Receive(s: State, library: Library, path: string, o: Outside): (State, Outcome<seq<byte>>) {
    if Blank(path) then (s, Fail(Rejected(InvalidArgument)))
    else
      var (s0, first) := Pop(s, path);
      if first.Some? then (s0, Fine(first.value))
      else
        var (s', found) := Open(s0, library, path, o);
        if found.Fail? then (s', Fail(found.status)) else ReadOpened(s', path, found.value, o.response)
  }

  // ---- Discovery refresh ----

  function ModeName(mode: ConnectionMode): string {
    match mode
    case Usb => "usb"
    case Dongle24g => "24g"
    case Bluetooth => "bluetooth"
    case Unknown => "unknown"
  }

  function EntryOf(reg: Registration): DjDev {
    Dev(Device(reg.mode.Dongle24g?, reg.path, reg.deviceId, 100, reg.online, reg.vid, reg.pid, reg.usbLocation,
               reg.canonicalPid, ModeName(reg.mode)))
  }

  function Broadcast(s: State, reg: Registration, change: ChangeType): State {
    s.(broadcasts := s.broadcasts + [DeviceList([EntryOf(reg)], change)])
  }

  function Without(s: State, path: string): State {
    s.(devices := s.devices - {path})
  }

  /** A device seen again where and as it was: nothing is announced. */
  predicate Unremarkable(r: Registry, info: Info) {
    var p := info.instancePath;
    && p in r.byPath && r.byPath[p].online && r.byPath[p].pid == info.pid
    && AddressOf(r.byPath[p]) == (info.bus, info.address)
  }

  function ScanOne(s: State, info: Info): State {
    var p, current := info.instancePath, Registered(PathFor(s.registry, info), info);
    var s' := s.(registry := Upserted(s.registry, info));
    if Unremarkable(s.registry, info) then s'
    else if p in s.registry.byPath then
      var moved := AddressOf(s.registry.byPath[p]) != AddressOf(current);
      Broadcast(if moved then Without(s', current.path) else s', current, Change)
    else Broadcast(s', current, Add)
  }

  function ScanAll(s: State, scan: seq<Info>): State {
    if scan == [] then s else ScanOne(ScanAll(s, scan[..|scan| - 1]), scan[|scan| - 1])
  }

  function LivePaths(scan: seq<Info>): set<string> {
    set info | info in scan :: info.instancePath
  }

  function PathsOf(regs: seq<Registration>): set<string> {
    set reg | reg in regs :: reg.path
  }

  function AnnounceGone(s: State, gone: seq<Registration>): State {
    if gone == [] then s
    else
      var reg := gone[|gone| - 1];
      Broadcast(Without(AnnounceGone(s, gone[..|gone| - 1]), reg.path), reg, Change)
  }

  /** `gone` is the order in which the missing devices are announced. */
  function Refreshed(s: State, scan: seq<Info>, gone: seq<Registration>): State {
    var s' := ScanAll(s, scan);
    AnnounceGone(s'.(registry := MarkedOffline(s'.registry, LivePaths(scan))), gone)
  }

  ghost predicate InOrder(s: State, scan: seq<Info>, gone: seq<Registration>) {
    var r := ScanAll(s, scan).registry;
    Lists(gone, r, Missing(r, LivePaths(scan)))
  }

  // ---- Steps and runs ----

  datatype Step =
    | Refresh(scan: seq<Info>, gone: seq<Registration>)
    | OpenPath(path: string, outside: Outside)
    | SendTo(path: string, msg: seq<byte>, kind: ChecksumType, outside: Outside)
    | ReadFrom(path: string, outside: Outside)
    | Shutdown

  function Next(library: Library, s: State, step: Step): State {
    match step
    case Refresh(scan, gone) => Refreshed(s, scan, gone)
    case OpenPath(path, o) => Open(s, library, path, o).0
    case SendTo(path, msg, kind, o) => Send(s, library, path, msg, kind, o).0
    case ReadFrom(path, o) => Receive(s, library, path, o).0
    case Shutdown => State(EMPTY, map[], {}, map[], s.broadcasts, s.traffic)
  }

  /** Discovery builds instance paths from locations; the order of announcements is otherwise free. */
  ghost predicate Possible(s: State, step: Step) {
    step.Refresh? ==> ScanUsesLocations(step.scan) && InOrder(s, step.scan, step.gone)
  }

  predicate ScanUsesLocations(scan: seq<Info>) {
    forall i :: 0 <= i < |scan| ==> scan[i].instancePath == scan[i].usbLocation
  }

  function After(library: Library, s: State, steps: seq<Step>): State {
    if steps == [] then s else Next(library, After(library, s, steps[..|steps| - 1]), steps[|steps| - 1])
  }

  ghost predicate Run(library: Library, s: State, steps: seq<Step>) {
    steps == [] || (
      Run(library, s, steps[..|steps| - 1]) &&
      Possible(After(library, s, steps[..|steps| - 1]), steps[|steps| - 1]))
  }

  // ---- What the server would list ----

  function KnownView(r: Registry): View {
    map p | p in r.byPath :: EntryOf(r.byPath[p])
  }

  ghost function ServerList(s: State): seq<DjDev> {
    Listing(KnownView(s.registry))
  }
}
