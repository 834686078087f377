/** The driver's registry of known devices: one entry a path, with two secondary indexes. */
module DeviceRegistry {
  import opened Bytes

  datatype ConnectionMode = Usb | Dongle24g | Bluetooth | Unknown

  type Address = (byte, byte)

  /** A device as discovery reports it. */
  datatype Info = Info(
    instancePath: string, usbLocation: string, deviceId: int, vid: nat, pid: nat, canonicalPid: nat,
    mode: ConnectionMode, bus: byte, address: byte)

  datatype Registration = Registration(
    path: string, usbLocation: string, deviceId: int, vid: nat, pid: nat, canonicalPid: nat,
    mode: ConnectionMode, bus: byte, address: byte, online: bool)

  datatype Registry = Registry(
    byPath: map<string, Registration>, byLocation: map<string, string>, byAddress: map<Address, string>)

  const EMPTY := Registry(map[], map[], map[])

  function AddressOf(reg: Registration): Address {
    (reg.bus, reg.address)
  }

  // ---- What the operations compute ----

  function PathFor(r: Registry, info: Info): string {
    if info.usbLocation in r.byLocation then r.byLocation[info.usbLocation] else info.instancePath
  }

  function Registered(path: string, info: Info): Registration {
    Registration(path, info.usbLocation, info.deviceId, info.vid, info.pid, info.canonicalPid, info.mode,
                 info.bus, info.address, true)
  }

  function Upserted(r: Registry, info: Info): Registry {
    var path := PathFor(r, info);
    var kept := if path in r.byPath then r.byAddress - {AddressOf(r.byPath[path])} else r.byAddress;
    Registry(r.byPath[path := Registered(path, info)], r.byLocation[info.usbLocation := path],
             kept[(info.bus, info.address) := path])
  }

  function FromDeviceInfo(info: Info): Registration {
    Registered(info.instancePath, info)
  }

  function InfoOf(reg: Registration): Info {
    Info(reg.path, reg.usbLocation, reg.deviceId, reg.vid, reg.pid, reg.canonicalPid, reg.mode, reg.bus, reg.address)
  }

  /** The paths that are online but not among the live ones. */
  function Missing(r: Registry, live: set<string>): set<string> {
    set p | p in r.byPath && r.byPath[p].online && p !in live
  }

  function Off(reg: Registration): Registration {
    reg.(online := false)
  }

  function Offlined(r: Registry, gone: set<string>): Registry {
    Registry(map p | p in r.byPath :: if p in gone then Off(r.byPath[p]) else r.byPath[p], r.byLocation,
             r.byAddress - (set p | p in gone && p in r.byPath :: AddressOf(r.byPath[p])))
  }

  function MarkedOffline(r: Registry, live: set<string>): Registry {
    Offlined(r, Missing(r, live))
  }

  // ---- The indexes ----

  /** Both indexes lead to registered paths, and every entry agrees with the registration it leads to. */
  ghost predicate Consistent(r: Registry) {
    && (forall p :: p in r.byPath ==> r.byPath[p].path == p)
    && (forall p :: p in r.byPath ==> LocationFound(r, p))
    && (forall l :: l in r.byLocation ==> r.byLocation[l] in r.byPath)
    && (forall a :: a in r.byAddress ==> EntrySound(r, a))
  }

  ghost predicate LocationFound(r: Registry, p: string)
    requires p in r.byPath
  {
    r.byPath[p].usbLocation in r.byLocation && r.byLocation[r.byPath[p].usbLocation] == p
  }

  ghost predicate EntrySound(r: Registry, a: Address)
    requires a in r.byAddress
  {
    r.byAddress[a] in r.byPath && r.byPath[r.byAddress[a]].online && AddressOf(r.byPath[r.byAddress[a]]) == a
  }

  /** Every online device is found under its address. */
  ghost predicate Complete(r: Registry) {
    forall p :: p in r.byPath && r.byPath[p].online ==> Found(r, p)
  }

  ghost predicate Found(r: Registry, p: string)
    requires p in r.byPath
  {
    AddressOf(r.byPath[p]) in r.byAddress && r.byAddress[AddressOf(r.byPath[p])] == p
  }

  /** Locations are paths, as discovery builds them. */
  ghost predicate LocationsArePaths(r: Registry) {
    && (forall p :: p in r.byPath ==> r.byPath[p].usbLocation == p)
    && (forall l :: l in r.byLocation ==> r.byLocation[l] == l)
  }

  lemma UpsertKeepsConsistent(r: Registry, info: Info)
    requires Consistent(r)
    ensures Consistent(Upserted(r, info))
    ensures LocationsArePaths(r) && info.instancePath == info.usbLocation ==>
              PathFor(r, info) == info.instancePath && LocationsArePaths(Upserted(r, info))
  {
    var path, s := PathFor(r, info), Upserted(r, info);
    forall p | p in s.byPath ensures LocationFound(s, p) {
      if p != path {
        assert LocationFound(r, p);
      }
    }
    forall a | a in s.byAddress ensures EntrySound(s, a) {
      if a != (info.bus, info.address) {
        assert EntrySound(r, a);
      }
    }
  }

  lemma OfflineKeepsConsistent(r: Registry, gone: set<string>)
    requires Consistent(r)
    ensures Consistent(Offlined(r, gone))
    ensures LocationsArePaths(r) ==> LocationsArePaths(Offlined(r, gone))
  {
    var s := Offlined(r, gone);
    forall p | p in s.byPath ensures LocationFound(s, p) {
      assert LocationFound(r, p);
    }
    forall a | a in s.byAddress ensures EntrySound(s, a) {
      assert EntrySound(r, a);
    }
  }

  /** Upserting this device drops whatever the address index says about address `a`. */
  predicate Takes(r: Registry, info: Info, a: Address) {
    var path := PathFor(r, info);
    (info.bus, info.address) == a || (path in r.byPath && AddressOf(r.byPath[path]) == a)
  }

  /** Another device stays findable through an upsert iff the upsert does not take its address. */
  lemma UpsertFoundIff(r: Registry, info: Info, p: string)
    requires p in r.byPath && p != PathFor(r, info)
    ensures var s := Upserted(r, info);
            && p in s.byPath && s.byPath[p] == r.byPath[p]
            && (Found(s, p) <==> Found(r, p) && !Takes(r, info, AddressOf(r.byPath[p])))
  {
  }

  /** An upsert leaves every device findable iff no other online device has the new or the replaced address. */
  lemma UpsertCompleteIff(r: Registry, info: Info)
    requires Complete(r)
    ensures Complete(Upserted(r, info)) <==>
              forall q :: q in r.byPath && q != PathFor(r, info) && r.byPath[q].online ==>
                !Takes(r, info, AddressOf(r.byPath[q]))
  {
    hide Takes, Found;
    var path, s := PathFor(r, info), Upserted(r, info);
    forall q | q in r.byPath && q != path && r.byPath[q].online
      ensures Found(s, q) <==> !Takes(r, info, AddressOf(r.byPath[q]))
    {
      UpsertFoundIff(r, info, q);
    }
    UpsertedIsFound(r, info);
  }

  lemma UpsertedIsFound(r: Registry, info: Info)
    ensures var s, path := Upserted(r, info), PathFor(r, info);
            path in s.byPath && s.byPath[path] == Registered(path, info) && Found(s, path)
  {
  }

  /** A device that is not marked offline stays findable iff none that is marked has its address. */
  lemma OfflineFoundIff(r: Registry, gone: set<string>, p: string)
    requires p in r.byPath && p !in gone
    ensures var s := Offlined(r, gone);
            && p in s.byPath && s.byPath[p] == r.byPath[p]
            && (Found(s, p) <==>
                  Found(r, p) && forall g :: g in gone && g in r.byPath ==>
                    AddressOf(r.byPath[g]) != AddressOf(r.byPath[p]))
  {
  }

  /** Marking devices offline never hides one that stays online, if all were findable. */
  lemma OfflineKeepsComplete(r: Registry, live: set<string>)
    requires Complete(r)
    ensures Complete(MarkedOffline(r, live))
  {
  }

  // ---- The registry object ----

  lemma ListsOneMore(changed: seq<Registration>, r: Registry, gone: set<string>, p: string)
    requires Consistent(r) && Lists(changed, r, gone) && p in r.byPath && p !in gone
    ensures Lists(changed + [Off(r.byPath[p])], r, gone + {p})
  {
  }

  lemma OfflineOneMore(r: Registry, gone: set<string>, p: string)
    requires p in r.byPath && p !in gone
    ensures var s := Offlined(r, gone);
            && p in s.byPath && s.byPath[p] == r.byPath[p]
            && Offlined(r, gone + {p}) ==
               Registry(s.byPath[p := Off(r.byPath[p])], s.byLocation, s.byAddress - {AddressOf(r.byPath[p])})
  {
  }

  lemma OfflineNone(r: Registry)
    ensures Offlined(r, {}) == r && Lists([], r, {})
  {
  }

  class DevicePathRegistry {
    var byPath: map<string, Registration>
    var byLocation: map<string, string>
    var byAddress: map<Address, string>

    constructor ()
      ensures State() == EMPTY
    {
      byPath, byLocation, byAddress := map[], map[], map[];
    }

    ghost function State(): Registry
      reads this
    {
      Registry(byPath, byLocation, byAddress)
    }

    /** All registrations, in no particular order. */
    method AllRegistrations() returns (regs: seq<Registration>)
      requires Consistent(State())
      ensures |regs| == |byPath|
      ensures forall i, j :: 0 <= i < j < |regs| ==> regs[i].path != regs[j].path
      ensures forall reg :: reg in regs <==> reg.path in byPath && byPath[reg.path] == reg
    {
      regs := [];
      var left := byPath.Keys;
      while left != {}
        invariant left <= byPath.Keys && |regs| + |left| == |byPath.Keys|
        invariant forall i, j :: 0 <= i < j < |regs| ==> regs[i].path != regs[j].path
        invariant forall reg :: reg in regs <==> reg.path in byPath.Keys - left && byPath[reg.path] == reg
        decreases left
      {
        var p :| p in left;
        assert byPath[p].path == p;
        regs, left := regs + [byPath[p]], left - {p};
      }
    }

    method Upsert(info: Info) returns (reg: Registration)
      modifies this
      ensures State() == Upserted(old(State()), info)
      ensures reg == Registered(PathFor(old(State()), info), info)
    {
      var path := if info.usbLocation in byLocation then byLocation[info.usbLocation] else info.instancePath;
      if path in byPath {
        var existing := byPath[path];
        byAddress := byAddress - {(existing.bus, existing.address)};
        existing := existing.(
          path := path, usbLocation := info.usbLocation, deviceId := info.deviceId, vid := info.vid, pid := info.pid,
          canonicalPid := info.canonicalPid, mode := info.mode, bus := info.bus, address := info.address,
          online := true);
        byPath := byPath[path := existing];
        byLocation := byLocation[existing.usbLocation := path];
        byAddress := byAddress[(existing.bus, existing.address) := path];
        return existing;
      }
      reg := Registration(path, info.usbLocation, info.deviceId, info.vid, info.pid, info.canonicalPid, info.mode,
                          info.bus, info.address, true);
      byLocation := byLocation[reg.usbLocation := path];
      byAddress := byAddress[(reg.bus, reg.address) := path];
      byPath := byPath[path := reg];
    }

    method UpsertRegistration(reg: Registration) returns (current: Registration)
      modifies this
      ensures State() == Upserted(old(State()), InfoOf(reg))
      ensures current == Registered(PathFor(old(State()), InfoOf(reg)), InfoOf(reg))
    {
      current := Upsert(InfoOf(reg));
    }

    /** Returns each device that went offline once, in no particular order. */
    method MarkOfflineMissingPaths(live: set<string>) returns (changed: seq<Registration>)
      requires Consistent(State())
      modifies this
      ensures State() == MarkedOffline(old(State()), live)
      ensures Lists(changed, old(State()), Missing(old(State()), live))
    {

      hide Consistent, Lists, Offlined;
      changed := [];
      ghost var r, gone := State(), {};
      OfflineNone(r);
      var paths := byPath.Keys;
      while paths != {}
        invariant paths <= r.byPath.Keys && byPath.Keys == r.byPath.Keys
        invariant gone == Missing(r, live) - paths
        invariant State() == Offlined(r, gone) && Lists(changed, r, gone)
        decreases paths
      {
        var path :| path in paths;
        paths := paths - {path};
        var existing := byPath[path];
        OfflineOneMore(r, gone, path);
        if path !in live && existing.online {
          ListsOneMore(changed, r, gone, path);
          byAddress := byAddress - {(existing.bus, existing.address)};
          existing := existing.(online := false);
          byPath := byPath[path := existing];
          changed, gone := changed + [existing], gone + {path};
        }
      }
      assert gone == Missing(r, live);
    }

    method Clear()
      modifies this
      ensures State() == EMPTY
    {
      byPath, byLocation, byAddress := map[], map[], map[];
    }
  }

  /** `changed` names each of the `gone` devices once, as it is after going offline. */
  ghost predicate Lists(changed: seq<Registration>, r: Registry, gone: set<string>) {
    && (forall i, j :: 0 <= i < j < |changed| ==> changed[i].path != changed[j].path)
    && (forall reg :: reg in changed ==> reg.path in gone && reg.path in r.byPath && reg == Off(r.byPath[reg.path]))
    && (forall p :: p in gone ==> p in r.byPath && Off(r.byPath[p]) in changed)
  }
}
