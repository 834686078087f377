/** What the listed entries and the announcements say about the devices, read off what was scanned. */
module BridgeEntries {
  import opened Bytes
  import opened CommandPolicy
  import opened DeviceRegistry
  import opened DeviceListView
  import opened BridgeSpec
  import opened BridgeProofs
  import opened BridgeHistory
  import opened BridgeExact

  /** The entry shows the device that was scanned as `info`. */
  predicate Shows(entry: DjDev, info: Info, online: bool) {
    && entry.Dev?
    && var d := entry.device;
       && d.path == info.instancePath && d.id == info.deviceId && d.vid == info.vid && d.pid == info.pid
       && d.canonicalPid == info.canonicalPid && d.usbLocation == info.usbLocation
       && d.isOnline == online && d.battery == 100 && (d.is24 <==> info.mode.Dongle24g?)
       && d.connectionMode == match info.mode
                              case Usb => "usb"
                              case Dongle24g => "24g"
                              case Bluetooth => "bluetooth"
                              case Unknown => "unknown"
  }

  /** After any run a registration repeats, field by field, what was last scanned at its path. */
  lemma RegistrationFields(library: Library, steps: seq<Step>, p: string)
    requires Run(library, INITIAL, steps) && p in After(library, INITIAL, steps).registry.byPath
    ensures LastScanned(steps, p).Some?
    ensures var reg, info := After(library, INITIAL, steps).registry.byPath[p], LastScanned(steps, p).value;
            && reg.path == p == info.instancePath && reg.usbLocation == info.usbLocation
            && reg.deviceId == info.deviceId && reg.vid == info.vid && reg.pid == info.pid
            && reg.canonicalPid == info.canonicalPid && reg.mode == info.mode
            && reg.bus == info.bus && reg.address == info.address && reg.online == Present(steps, p)
  {
    hide After, Run, LastScanned, Present;
    RegistryRemembers(library, steps, p);
  }

  /** Some entry of the list has the path. */
  predicate Listed(list: seq<DjDev>, p: string) {
    exists i :: 0 <= i < |list| && list[i].Dev? && list[i].device.path == p
  }

  lemma EntryShows(info: Info, online: bool)
    ensures Shows(EntryOf(Registered(info.instancePath, info).(online := online)), info, online)
  {
  }

  lemma ListedIff(v: View, p: string)
    requires Keyed(v)
    ensures Listed(Listing(v), p) <==> p in v
    ensures forall i :: 0 <= i < |Listing(v)| ==>
              Listing(v)[i].Dev? && Listing(v)[i].device.path in v && v[Listing(v)[i].device.path] == Listing(v)[i]
  {
    hide Listing, Leq, Ordered;
    ListingShape(v);
    var list := Listing(v);
    assert forall i :: 0 <= i < |list| ==> list[i] in list;
    if p in v {
      assert v[p] in list;
      var i :| 0 <= i < |list| && list[i] == v[p];
    }
  }

  /** The list has one entry for each path scanned in the run, with the device last scanned there. */
  ghost predicate Remembers(list: seq<DjDev>, steps: seq<Step>) {
    && (forall p :: Listed(list, p) <==> LastScanned(steps, p).Some?)
    && (forall i :: 0 <= i < |list| ==> ShowsLast(list[i], steps))
    && (forall i, j :: 0 <= i < j < |list| ==> PathOf(list[i]) != PathOf(list[j]))
  }

  predicate ShowsLast(entry: DjDev, steps: seq<Step>) {
    && entry.Dev? && LastScanned(steps, entry.device.path).Some?
    && Shows(entry, LastScanned(steps, entry.device.path).value, Present(steps, entry.device.path))
  }

  /**
   After any run the server lists a path iff it was scanned since the last shutdown. Its one entry shows the
   device last scanned there, online iff the latest refresh still scanned it; the list is ordered by path.
   */
  lemma ListedFromHistory(library: Library, steps: seq<Step>)
    requires Run(library, INITIAL, steps)
    ensures var list := ServerList(After(library, INITIAL, steps));
            Remembers(list, steps) && Ordered(list, PathOf)
  {
    hide After, Run, Agreement, Listing, Shows, EntryOf, Leq, Ordered, Listed, LastScanned, Present, Keyed;
    var s := After(library, INITIAL, steps);
    var v, list := KnownView(s.registry), ServerList(s);
    AgreementHolds(library, steps);
    AgreementIsKeyed(s);
    ListingShape(v);
    forall p ensures Listed(list, p) <==> LastScanned(steps, p).Some? {
      RegistryRemembers(library, steps, p);
      ListedIff(v, p);
    }
    forall i | 0 <= i < |list| ensures ShowsLast(list[i], steps) {
      ListedIff(v, "");
      var p := list[i].device.path;
      RegistryRemembers(library, steps, p);
      EntryShows(LastScanned(steps, p).value, Present(steps, p));
    }
  }

  // ---- The client's list ----

  /** Splitting a run. */
  lemma {:induction false} AfterMore(library: Library, steps: seq<Step>, more: seq<Step>)
    requires Run(library, INITIAL, steps) && Run(library, After(library, INITIAL, steps), more)
    ensures Run(library, INITIAL, steps + more)
    ensures After(library, INITIAL, steps + more) == After(library, After(library, INITIAL, steps), more)
  {
    hide Next, Possible;
    if more == [] {
      assert steps + more == steps;
    } else {
      var init := more[..|more| - 1];
      AfterMore(library, steps, init);
      assert (steps + more)[..|steps + more| - 1] == steps + init;
    }
  }

  /** The client's entry names a scanned device, with its product id and whether it is still there. */
  predicate ActsOn(entry: DjDev, steps: seq<Step>) {
    && entry.Dev? && LastScanned(steps, entry.device.path).Some?
    && entry.device.pid == LastScanned(steps, entry.device.path).value.pid
    && entry.device.isOnline == Present(steps, entry.device.path)
  }

  /**
   A client that took an initial list at any time and folded in every announcement since, with no shutdown in
   between, shows exactly the paths scanned in the whole run, each with the product id last scanned there, and
   online iff the latest refresh still scanned it.
   */
  lemma ClientShowsHistory(library: Library, steps: seq<Step>, more: seq<Step>, shown: seq<DjDev>)
    requires Run(library, INITIAL, steps) && Run(library, After(library, INITIAL, steps), more)
    requires forall i :: 0 <= i < |more| ==> !more[i].Shutdown?
    ensures var s := After(library, INITIAL, steps);
            var s', n := After(library, s, more), |s.broadcasts|;
            n <= |s'.broadcasts| &&
            var list := Folded(shown, [DeviceList(ServerList(s), Init)] + s'.broadcasts[n..]);
            && (forall p :: Listed(list, p) <==> LastScanned(steps + more, p).Some?)
            && (forall i :: 0 <= i < |list| ==> ActsOn(list[i], steps + more))
            && (forall i, j :: 0 <= i < j < |list| ==> PathOf(list[i]) != PathOf(list[j]))
  {
    hide After, Run, Agreement, Listing, EntryOf, Leq, Ordered, Listed, LastScanned, Present, Keyed, Folded;
    var s := After(library, INITIAL, steps);
    var s', n, v := After(library, s, more), |s.broadcasts|, KnownView(s.registry);
    AgreementHolds(library, steps);
    AfterMore(library, steps, more);
    AgreementHolds(library, steps + more);
    AgreementIsKeyed(s);
    AgreementIsKeyed(s');
    HeardNothing(v, s);
    AlikeReflexive(v);
    RunInStep(v, n, library, s, more);
    FoldIsView(v, s'.broadcasts[n..]);
    InitReplaces(shown, ServerList(s), s'.broadcasts[n..]);
    var heard, known := Heard(v, n, s'.broadcasts), KnownView(s'.registry);
    ListingShape(heard);
    ListedIff(heard, "");
    forall p ensures Listed(Listing(heard), p) <==> LastScanned(steps + more, p).Some? {
      ListedIff(heard, p);
      RegistryRemembers(library, steps + more, p);
    }
    forall i | 0 <= i < |Listing(heard)| ensures ActsOn(Listing(heard)[i], steps + more) {
      var p := Listing(heard)[i].device.path;
      RegistryRemembers(library, steps + more, p);
      EntryShows(LastScanned(steps + more, p).value, Present(steps + more, p));
    }
  }

  /** A client's list starts over with an initial list. */
  lemma {:induction false} InitReplaces(shown: seq<DjDev>, list: seq<DjDev>, updates: seq<DeviceList>)
    ensures Folded(shown, [DeviceList(list, Init)] + updates) == Folded(list, updates)
  {
    var all := [DeviceList(list, Init)] + updates;
    if updates == [] {
      assert all == [DeviceList(list, Init)] && all[..0] == [];
    } else {
      var init := updates[..|updates| - 1];
      InitReplaces(shown, list, init);
      assert all[..|all| - 1] == [DeviceList(list, Init)] + init;
    }
  }

  // ---- Announcements ----

  /** One message about one device. */
  predicate Announces(message: DeviceList, info: Info, online: bool, change: ChangeType) {
    message.change == change && |message.devList| == 1 && Shows(message.devList[0], info, online)
  }

  /**
   Scanning a device is announced iff it is not online already with the same product id at the same bus and
   address: as a change if its path is registered, as an addition otherwise.
   */
  lemma ScanAnnounces(s: State, info: Info)
    requires Agreement(s) && info.instancePath == info.usbLocation
    ensures var p, log := info.instancePath, ScanOne(s, info).broadcasts;
            if p !in s.registry.byPath then
              |log| == |s.broadcasts| + 1 && log[..|s.broadcasts|] == s.broadcasts
              && Announces(log[|s.broadcasts|], info, true, Add)
            else
              var reg := s.registry.byPath[p];
              if reg.online && reg.pid == info.pid && reg.bus == info.bus && reg.address == info.address
              then log == s.broadcasts
              else
                && |log| == |s.broadcasts| + 1 && log[..|s.broadcasts|] == s.broadcasts
                && Announces(log[|s.broadcasts|], info, true, Change)
  {
    hide LocationFound, EntrySound, LocationsArePaths, Upserted, EntryOf, Backed;
    ScanOneRegistry(s, info);
    EntryShows(info, true);
  }

  /** The message shows the device last scanned at the path, offline. */
  predicate AnnouncesGone(message: DeviceList, steps: seq<Step>, p: string) {
    LastScanned(steps, p).Some? && Announces(message, LastScanned(steps, p).value, false, Change)
  }

  /** `log` goes on from `before` with one message for each of the `gone` devices, in their order. */
  predicate GoesOn(before: seq<DeviceList>, log: seq<DeviceList>, gone: seq<Registration>) {
    && |log| == |before| + |gone| && log[..|before|] == before
    && forall i :: 0 <= i < |gone| ==> log[|before| + i] == DeviceList([EntryOf(gone[i])], Change)
  }

  lemma {:induction false} GoneLogged(s: State, gone: seq<Registration>)
    ensures GoesOn(s.broadcasts, AnnounceGone(s, gone).broadcasts, gone)
  {
    hide EntryOf;
    if gone != [] {
      GoneLogged(s, gone[..|gone| - 1]);
    }
  }

  /**
   After its scans a refresh announces each device that the one before still scanned and it does not, once,
   as last scanned but offline.
   */
  lemma GoneAnnounced(library: Library, steps: seq<Step>, scan: seq<Info>, gone: seq<Registration>)
    requires Run(library, INITIAL, steps) && ScanUsesLocations(scan)
    requires InOrder(After(library, INITIAL, steps), scan, gone)
    ensures var s := After(library, INITIAL, steps);
            var scanned, log := ScanAll(s, scan).broadcasts, Refreshed(s, scan, gone).broadcasts;
            && |log| == |scanned| + |gone| && log[..|scanned|] == scanned
            && (forall i :: 0 <= i < |gone| ==> AnnouncesGone(log[|scanned| + i], steps, gone[i].path))
            && (forall i, j :: 0 <= i < j < |gone| ==> gone[i].path != gone[j].path)
            && (forall p :: p in PathsOf(gone) <==> Present(steps, p) && LastInfo(scan, p).None?)
  {
    hide After, Run, ScanAll, AnnounceGone, Agreement, MarkedOffline, EntryOf, Shows, LastScanned, LastInfo, Present;
    hide Consistent, LocationsArePaths;
    var s := After(library, INITIAL, steps);
    var s1, live := ScanAll(s, scan), LivePaths(scan);
    AgreementHolds(library, steps);
    AgreementIsIndexed(s);
    MissingUnscanned(s, scan);
    GoneLogged(s1.(registry := MarkedOffline(s1.registry, live)), gone);
    forall i | 0 <= i < |gone|
      ensures LastScanned(steps, gone[i].path).Some?
      ensures Shows(EntryOf(gone[i]), LastScanned(steps, gone[i].path).value, false)
    {
      var p := gone[i].path;
      assert gone[i] in gone;
      RegistryRemembers(library, steps, p);
      EntryShows(LastScanned(steps, p).value, false);
    }
    forall p ensures p in PathsOf(gone) <==> Present(steps, p) && LastInfo(scan, p).None? {
      RegistryRemembers(library, steps, p);
      LastInfoLive(scan, p);
      PathsAreGone(s1.registry, live, gone, p);
    }
  }

  lemma PathsAreGone(r: Registry, live: set<string>, gone: seq<Registration>, p: string)
    requires Consistent(r) && Lists(gone, r, Missing(r, live))
    ensures p in PathsOf(gone) <==> p in Missing(r, live)
  {
    if p in Missing(r, live) {
      assert Off(r.byPath[p]) in gone;
      PathsAreKeys(r, p);
    }
  }
}
