/** The driver service: the methods behind the remote calls, each proved against its specification. */
module BridgeService {
  import opened Bytes
  import opened Checksum
  import opened CommandPolicy
  import opened DeviceRegistry
  import opened DeviceListView
  import opened BridgeSpec
  import Transport

  class DriverService {
    const library: Library
    const pathRegistry: DevicePathRegistry
    var devices: map<string, Connected>
    var opening: set<string>
    var syntheticReads: map<string, seq<seq<byte>>>
    var broadcasts: seq<DeviceList>
    var traffic: seq<Handed>

    constructor (library: Library)
      ensures fresh(pathRegistry) && State() == INITIAL && this.library == library
    {
      this.library := library;
      pathRegistry := new DevicePathRegistry();
      devices, opening, syntheticReads, broadcasts, traffic := map[], {}, map[], [], [];
    }

    ghost function State(): State
      reads this, pathRegistry
    {
      BridgeSpec.State.State(pathRegistry.State(), devices, opening, syntheticReads, broadcasts, traffic)
    }

    method Shutdown()
      modifies this, pathRegistry
      ensures State() == Next(library, old(State()), BridgeSpec.Shutdown)
    {
      devices := map[];
      pathRegistry.Clear();
      opening := {};
      syntheticReads := map[];
    }

    method ConnectRegistration(reg: Registration, attaches: bool)
      modifies this`devices
      ensures State() == Connect(old(State()), library, reg, attaches)
    {
      if !reg.online {
        return;
      }
      if reg.deviceId !in library {
        return;
      }
      if !attaches {
        return;
      }
      devices := devices[reg.path := Connected(reg, library[reg.deviceId])];
    }

    method SnapshotKnownDevices() returns (list: seq<DjDev>)
      requires Consistent(pathRegistry.State())
      ensures list == ServerList(State())
    {
      var regs := pathRegistry.AllRegistrations();
      var sorted := SortByKey(regs, (reg: Registration) => reg.path);
      list := seq(|sorted|, i requires 0 <= i < |sorted| => EntryOf(sorted[i]));
      SnapshotIsListing(pathRegistry.State(), regs, sorted, list);
    }

    method FindConnectedDevice(path: string) returns (found: Outcome<Connected>)
      ensures found == Find(State(), path)
    {
      found := if path in devices then Fine(devices[path]) else Fail(NotFound);
    }

    /** The other calls run while this one sleeps. */
    method Sleep(after: State)
      modifies this, pathRegistry
      ensures State() == after
    {
      pathRegistry.byPath, pathRegistry.byLocation, pathRegistry.byAddress :=
        after.registry.byPath, after.registry.byLocation, after.registry.byAddress;
      devices, opening, syntheticReads := after.devices, after.opening, after.queues;
      broadcasts, traffic := after.broadcasts, after.traffic;
    }

    /** Looks the path up, waits for its turn to claim it, connects, and gives the claim back. */
    method OpenDevice(path: string, o: Outside) returns (found: Outcome<Connected>)
      modifies this, pathRegistry
      ensures (State(), found) == Open(old(State()), library, path, o)
    {
      found := FindConnectedDevice(path);
      if found.Fine? {
        return;
      }
      if path !in pathRegistry.byPath {
        return Fail(NotFound);
      }
      var reg := pathRegistry.byPath[path];
      if !reg.online {
        return Fail(NotFound);
      }
      var i := 0;
      while true
        invariant i <= |o.sleeps|
        invariant Await(State(), library, reg, path, o.attaches, o.sleeps[i..]) == Open(old(State()), library, path, o)
        decreases |o.sleeps| - i
      {
        found := FindConnectedDevice(path);
        if found.Fine? {
          return;
        }
        if path !in opening {
          opening := opening + {path};
          break;
        }
        if i == |o.sleeps| {
          return Fail(StillWaiting);
        }
        Sleep(o.sleeps[i]);
        i := i + 1;
      }
      ConnectRegistration(reg, o.attaches);
      opening := opening - {path};
      found := FindConnectedDevice(path);
    }

    method EnqueueSyntheticEmptyRead(path: string)
      modifies this`syntheticReads
      ensures State() == Enqueued(old(State()), path)
    {
      var queue := if path in syntheticReads then syntheticReads[path] else [];
      syntheticReads := syntheticReads[path := queue + [[]]];
    }

    /** Takes the first queued answer; a queue that runs empty is removed. */
    method PopSyntheticResponse(path: string) returns (response: Option<seq<byte>>)
      modifies this`syntheticReads
      ensures (State(), response) == Pop(old(State()), path)
    {
      if path !in syntheticReads {
        return None;
      }
      var queue := syntheticReads[path];
      if queue == [] {
        response := None;
      } else {
        response, queue := Some(queue[0]), queue[1..];
      }
      if queue == [] {
        syntheticReads := syntheticReads - {path};
      } else {
        syntheticReads := syntheticReads[path := queue];
      }
    }

    /** Hands a message to the device's transport, which reports whether it went through. */
    method SendCommand(c: Connected, data: seq<byte>, kind: ChecksumType, delivers: bool) returns (result: Outcome<()>)
      modifies this`traffic
      ensures (State(), result) == Deliver(old(State()), c, data, kind, delivers)
    {
      if |data| == 0 {
        return Fail(Internal);
      }
      var cmd, payload := data[0], data[1..];
      traffic := traffic + [Handed(c, Transport.Request(cmd, payload, kind, Transport.SendMode))];
      result := if delivers then Fine(()) else Fail(Internal);
    }

    method SendCommandRpc(path: string, msg: seq<byte>, kind: ChecksumType, o: Outside) returns (result: Outcome<()>)
      modifies this, pathRegistry
      ensures (State(), result) == Send(old(State()), library, path, msg, kind, o)
    {
      hide Open, Await;
      if Blank(path) {
        return Fail(Rejected(InvalidArgument));
      }
      var found := OpenDevice(path, o);
      if found.Fail? {
        return Fail(found.status);
      }
      hide Evaluate, Normalized;
      var connected := found.value;
      var decision := Evaluate(connected.definition, msg);
      if decision.read == SyntheticEmptyRead {
        EnqueueSyntheticEmptyRead(path);
      }
      if decision.error.Some? {
        return Fail(Rejected(decision.error.value));
      }
      if decision.dispatch == Skip {
        return Fine(());
      }
      var normalized := NormalizeOutboundCommand(connected.definition, msg);
      result := SendCommand(connected, normalized, kind, o.delivers);
    }

    method ReadResponseRpc(path: string, o: Outside) returns (result: Outcome<seq<byte>>)
      modifies this, pathRegistry
      ensures (State(), result) == Receive(old(State()), library, path, o)
    {
      hide Open, Await, Pop;
      if Blank(path) {
        return Fail(Rejected(InvalidArgument));
      }
      var response := PopSyntheticResponse(path);
      if response.Some? {
        return Fine(response.value);
      }
      var found := OpenDevice(path, o);
      if found.Fail? {
        return Fail(found.status);
      }
      var canonical := found.value.registration.path;
      if canonical != path {
        response := PopSyntheticResponse(canonical);
        if response.Some? {
          return Fine(response.value);
        }
      }
      traffic := traffic + [Handed(found.value, Transport.Request(0, [], NoChecksum, Transport.ReadMode))];
      result := if o.response.Some? then Fine(o.response.value) else Fail(Internal);
    }

    /** Brings registry, connections and subscribers up to date with one scan. */
    method RefreshDiscoverySnapshot(scan: seq<Info>) returns (gone: seq<Registration>)
      requires Consistent(pathRegistry.State())
      modifies this, pathRegistry
      ensures State() == Refreshed(old(State()), scan, gone) && InOrder(old(State()), scan, gone)
    {
      hide Upserted, MarkedOffline, Lists, Consistent;
      ghost var s0 := State();
      var live := CollectLivePaths(scan);
      for i := 0 to |scan|
        invariant State() == ScanAll(s0, scan[..i]) && Consistent(pathRegistry.State())
      {
        assert scan[..i + 1][..i] == scan[..i];
        UpsertKeepsConsistent(pathRegistry.State(), scan[i]);
        ScanRegistration(FromDeviceInfo(scan[i]));
      }
      assert scan[..|scan|] == scan;
      ghost var s1 := State();
      gone := pathRegistry.MarkOfflineMissingPaths(live);
      ghost var s2 := State();
      for i := 0 to |gone|
        invariant State() == AnnounceGone(s2, gone[..i])
      {
        assert gone[..i + 1][..i] == gone[..i];
        devices := devices - {gone[i].path};
        broadcasts := broadcasts + [DeviceList([EntryOf(gone[i])], Change)];
      }
      assert gone[..|gone|] == gone;
    }

    method ScanRegistration(scanned: Registration)
      modifies this, pathRegistry
      ensures State() == ScanOne(old(State()), InfoOf(scanned))
    {
      hide Upserted;
      var p := scanned.path;
      var previous := if p in pathRegistry.byPath then Some(pathRegistry.byPath[p]) else None;
      var reg := pathRegistry.UpsertRegistration(scanned);
      if previous.Some? && previous.value.online && previous.value.pid == reg.pid &&
         previous.value.bus == reg.bus && previous.value.address == reg.address {
        return;
      }
      if previous.Some? {
        if previous.value.bus != reg.bus || previous.value.address != reg.address {
          devices := devices - {reg.path};
        }
        broadcasts := broadcasts + [DeviceList([EntryOf(reg)], Change)];
      } else {
        broadcasts := broadcasts + [DeviceList([EntryOf(reg)], Add)];
      }
    }
  }

  method CollectLivePaths(scan: seq<Info>) returns (live: set<string>)
    ensures live == LivePaths(scan)
  {
    live := {};
    for i := 0 to |scan|
      invariant live == LivePaths(scan[..i])
    {
      assert scan[..i + 1] == scan[..i] + [scan[i]];
      live := live + {scan[i].instancePath};
    }
    assert scan[..|scan|] == scan;
  }

  /** Sorting all registrations by path and converting them gives the listing of the registry. */
  lemma SnapshotIsListing(r: Registry, regs: seq<Registration>, sorted: seq<Registration>, list: seq<DjDev>)
    requires Consistent(r) && |regs| == |r.byPath| && multiset(sorted) == multiset(regs)
    requires forall reg :: reg in regs <==> reg.path in r.byPath && r.byPath[reg.path] == reg
    requires Ordered(sorted, (reg: Registration) => reg.path)
    requires |list| == |sorted| && forall i :: 0 <= i < |list| ==> list[i] == EntryOf(sorted[i])
    ensures list == Listing(KnownView(r))
  {
    hide Leq;
    var v := KnownView(r);
    assert |list| == |multiset(sorted)| == |multiset(regs)| == |v.Keys| by {
      assert v.Keys == r.byPath.Keys;
    }
    assert Ordered(list, PathOf) by {
      var key := (reg: Registration) => reg.path;
      forall i, j | 0 <= i < j < |list| ensures Leq(PathOf(list[i]), PathOf(list[j])) {
        assert Leq(key(sorted[i]), key(sorted[j]));
      }
    }
    assert HasAll(v, list) by { EveryRegistrationListed(r, regs, sorted, list); }
    KnownIsKeyed(r);
    hide Ordered, Keyed, HasAll;
    ListingUnique(v, list);
  }

  lemma KnownIsKeyed(r: Registry)
    requires Consistent(r)
    ensures Keyed(KnownView(r))
  {
  }

  lemma EveryRegistrationListed(r: Registry, regs: seq<Registration>, sorted: seq<Registration>, list: seq<DjDev>)
    requires Consistent(r) && multiset(sorted) == multiset(regs)
    requires forall reg :: reg in regs <==> reg.path in r.byPath && r.byPath[reg.path] == reg
    requires |list| == |sorted| && forall i :: 0 <= i < |list| ==> list[i] == EntryOf(sorted[i])
    ensures HasAll(KnownView(r), list)
  {
    hide EntryOf;
    forall p | p in r.byPath ensures EntryOf(r.byPath[p]) in list {
      assert r.byPath[p] in multiset(regs);
      var i :| 0 <= i < |sorted| && sorted[i] == r.byPath[p];
      assert list[i] == EntryOf(r.byPath[p]);
    }
  }
}
