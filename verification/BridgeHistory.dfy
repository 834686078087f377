/**
 What the service's state says about its past: which scan a registration comes from, which definition a
 connection was opened with, and what happens when an open connects too late.
 */
module BridgeHistory {
  import opened Bytes
  import opened Checksum
  import opened CommandPolicy
  import opened DeviceRegistry
  import opened DeviceListView
  import opened BridgeSpec
  import opened BridgeProofs
  import Transport

  // ---- What scans leave behind ----

  /** What a scan last said about a path. */
  function LastInfo(scan: seq<Info>, p: string): (info: Option<Info>)
    ensures info.Some? ==> info.value.instancePath == p && info.value in scan
  {
    if scan == [] then None
    else
      var last := scan[|scan| - 1];
      if last.instancePath == p then Some(last) else LastInfo(scan[..|scan| - 1], p)
  }

  lemma {:induction false} LastInfoLive(scan: seq<Info>, p: string)
    ensures LastInfo(scan, p).Some? <==> p in LivePaths(scan)
  {
    if scan != [] {
      var init, last := scan[..|scan| - 1], scan[|scan| - 1];
      LastInfoLive(init, p);
      assert scan == init + [last];
      assert LivePaths(scan) == LivePaths(init) + {last.instancePath};
    }
  }

  ghost predicate Indexed(r: Registry) {
    Consistent(r) && LocationsArePaths(r)
  }

  lemma {:induction false} ScanRemembers(s: State, scan: seq<Info>, p: string)
    requires Indexed(s.registry) && ScanUsesLocations(scan)
    ensures var r, r', info := s.registry, ScanAll(s, scan).registry, LastInfo(scan, p);
            && Indexed(r')
            && (p in r'.byPath <==> p in r.byPath || info.Some?)
            && (p in r'.byPath ==> r'.byPath[p] == if info.Some? then Registered(p, info.value) else r.byPath[p])
  {
    hide Consistent, LocationsArePaths, ScanOne;
    if scan != [] {
      ScanRemembers(s, scan[..|scan| - 1], p);
      ScanOneRegistry(ScanAll(s, scan[..|scan| - 1]), scan[|scan| - 1]);
    }
  }

  /** After a refresh a scanned device is registered as last scanned, and any other is offline. */
  lemma RefreshRemembers(s: State, scan: seq<Info>, gone: seq<Registration>, p: string)
    requires Indexed(s.registry) && ScanUsesLocations(scan)
    ensures var r, r', info := s.registry, Refreshed(s, scan, gone).registry, LastInfo(scan, p);
            && Indexed(r')
            && (p in r'.byPath <==> p in r.byPath || info.Some?)
            && (p in r'.byPath ==> r'.byPath[p] == if info.Some? then Registered(p, info.value) else Off(r.byPath[p]))
  {
    hide Consistent, LocationsArePaths, ScanAll, AnnounceGone;
    var s1, live := ScanAll(s, scan), LivePaths(scan);
    ScanRemembers(s, scan, p);
    LastInfoLive(scan, p);
    OfflineKeepsConsistent(s1.registry, Missing(s1.registry, live));
    AnnouncedGone(s1.(registry := MarkedOffline(s1.registry, live)), gone);
  }

  /** `s'` has the same registry, and at most one more connection: to what is registered and online at `p`. */
  ghost predicate AddsAtMost(library: Library, s: State, s': State, p: string) {
    && s'.registry == s.registry && s'.opening == {}
    && (s'.devices == s.devices || (
          && p !in s.devices && p in s.registry.byPath && s.registry.byPath[p].online
          && s.registry.byPath[p].deviceId in library
          && s'.devices == s.devices[p := Connected(s.registry.byPath[p], library[s.registry.byPath[p].deviceId])]))
  }

  /** Every step but a refresh or a shutdown leaves the registry alone, and adds at most one connection. */
  lemma CallKeepsRegistry(library: Library, s: State, step: Step)
    requires Consistent(s.registry) && s.opening == {} && !step.Refresh? && !step.Shutdown?
    ensures AddsAtMost(library, s, Next(library, s, step), step.path)
  {
    hide Consistent, Open, Send, Receive, AddsAtMost;
    OpenAdds(s, library, step.path, step.outside);
    if step.SendTo? {
      SendAdds(library, s, step);
    } else if step.ReadFrom? {
      ReadAdds(library, s, step);
    }
  }

  lemma OpenAdds(s: State, library: Library, p: string, o: Outside)
    requires Consistent(s.registry) && s.opening == {}
    ensures AddsAtMost(library, s, Open(s, library, p, o).0, p)
  {
    hide LocationFound, EntrySound;
  }

  lemma SendAdds(library: Library, s: State, step: Step)
    requires Consistent(s.registry) && s.opening == {} && step.SendTo?
    ensures AddsAtMost(library, s, Next(library, s, step), step.path)
  {
    hide Consistent, Open, Evaluate, Normalized, Blank;
    OpenAdds(s, library, step.path, step.outside);
  }

  lemma ReadAdds(library: Library, s: State, step: Step)
    requires Consistent(s.registry) && s.opening == {} && step.ReadFrom?
    ensures AddsAtMost(library, s, Next(library, s, step), step.path)
  {
    hide Consistent, Open, Blank;
    OpenAdds(Pop(s, step.path).0, library, step.path, step.outside);
  }

  /** Across one step a connection is kept as it was, or it is new and holds what was registered. */
  lemma StepConnections(library: Library, s: State, step: Step, p: string)
    requires Agreement(s) && Possible(s, step) && p in Next(library, s, step).devices
    ensures var s' := Next(library, s, step);
            if p in s.devices then s'.devices[p] == s.devices[p]
            else
              && p in s.registry.byPath && s.registry.byPath[p].online && s.registry.byPath[p].deviceId in library
              && s'.devices[p] == Connected(s.registry.byPath[p], library[s.registry.byPath[p].deviceId])
              && s'.registry == s.registry
  {
    hide Consistent, Refreshed, Open, Send, Receive, Backed;
    match step
    case Refresh(scan, gone) => RefreshOnlyDrops(s, scan, gone);
    case Shutdown =>
    case _ => CallKeepsRegistry(library, s, step);
  }

  lemma {:induction false} ScanOnlyDrops(s: State, scan: seq<Info>)
    ensures forall p :: p in ScanAll(s, scan).devices ==> p in s.devices && ScanAll(s, scan).devices[p] == s.devices[p]
  {
    hide Upserted, EntryOf, Unremarkable;
    if scan != [] {
      ScanOnlyDrops(s, scan[..|scan| - 1]);
    }
  }

  lemma RefreshOnlyDrops(s: State, scan: seq<Info>, gone: seq<Registration>)
    ensures var s' := Refreshed(s, scan, gone);
            forall p :: p in s'.devices ==> p in s.devices && s'.devices[p] == s.devices[p]
  {
    hide ScanAll, AnnounceGone;
    ScanOnlyDrops(s, scan);
    var s1 := ScanAll(s, scan);
    AnnouncedGone(s1.(registry := MarkedOffline(s1.registry, LivePaths(scan))), gone);
  }

  // ---- The registry as a memory of the run ----

  /** What the run last scanned about a path since the last shutdown. */
  function LastScanned(steps: seq<Step>, p: string): (info: Option<Info>)
    ensures info.Some? ==> info.value.instancePath == p
  {
    if steps == [] then None
    else
      var init, step := steps[..|steps| - 1], steps[|steps| - 1];
      match step
      case Shutdown => None
      case Refresh(scan, _) => if LastInfo(scan, p).Some? then LastInfo(scan, p) else LastScanned(init, p)
      case _ => LastScanned(init, p)
  }

  /** The latest refresh scanned the path, and no shutdown came after it. */
  predicate Present(steps: seq<Step>, p: string) {
    steps != [] &&
    var step := steps[|steps| - 1];
    if step.Refresh? then LastInfo(step.scan, p).Some? else !step.Shutdown? && Present(steps[..|steps| - 1], p)
  }

  /** The registry holds exactly what was last scanned, online iff the latest refresh still scanned it. */
  lemma {:induction false} RegistryRemembers(library: Library, steps: seq<Step>, p: string)
    requires Run(library, INITIAL, steps)
    ensures var r, info := After(library, INITIAL, steps).registry, LastScanned(steps, p);
            && (p in r.byPath <==> info.Some?)
            && (p in r.byPath ==> r.byPath[p] == Registered(p, info.value).(online := Present(steps, p)))
            && (Present(steps, p) ==> info.Some?)
  {
    hide Agreement, Next, Consistent, LocationsArePaths;
    if steps != [] {
      var init, step := steps[..|steps| - 1], steps[|steps| - 1];
      var s := After(library, INITIAL, init);
      RegistryRemembers(library, init, p);
      AgreementHolds(library, init);
      assert Indexed(s.registry) && s.opening == {} by { AgreementIsIndexed(s); }
      match step
      case Refresh(scan, gone) =>
        RefreshRemembers(s, scan, gone, p);
        NextRefresh(library, s, scan, gone);
      case Shutdown => NextShutdown(library, s);
      case _ => CallKeepsRegistry(library, s, step);
    }
  }

  lemma AgreementIsIndexed(s: State)
    requires Agreement(s)
    ensures Indexed(s.registry) && s.opening == {}
  {
  }

  lemma NextRefresh(library: Library, s: State, scan: seq<Info>, gone: seq<Registration>)
    ensures Next(library, s, Refresh(scan, gone)) == Refreshed(s, scan, gone)
  {
  }

  lemma NextShutdown(library: Library, s: State)
    ensures Next(library, s, Shutdown).registry == EMPTY && Next(library, s, Shutdown).devices == map[]
    ensures Next(library, s, Shutdown).opening == {}
  {
  }

  // ---- Definitions of connections ----

  /** The registered device's definition is the one its connection was opened with. */
  ghost predicate Current(library: Library, s: State, p: string)
    requires p in s.devices
  {
    && p in s.registry.byPath && s.registry.byPath[p].deviceId in library
    && library[s.registry.byPath[p].deviceId] == s.devices[p].definition
  }

  /** What was last scanned about the path when its present connection was made. */
  ghost function OpenedAs(library: Library, steps: seq<Step>, p: string): Option<Info> {
    if steps == [] || p !in After(library, INITIAL, steps).devices then None
    else
      var init := steps[..|steps| - 1];
      if p in After(library, INITIAL, init).devices then OpenedAs(library, init, p) else LastScanned(init, p)
  }

  /** Over any run a connection holds the definition of the device that was registered when it was opened. */
  lemma {:induction false} DefinitionAsOpened(library: Library, steps: seq<Step>, p: string)
    requires Run(library, INITIAL, steps) && p in After(library, INITIAL, steps).devices
    ensures var c, info := After(library, INITIAL, steps).devices[p], OpenedAs(library, steps, p);
            && info.Some? && c.registration == Registered(p, info.value)
            && c.registration.deviceId in library && c.definition == library[c.registration.deviceId]
  {
    hide Agreement, Next;
    var init, step := steps[..|steps| - 1], steps[|steps| - 1];
    var s := After(library, INITIAL, init);
    AgreementHolds(library, init);
    StepConnections(library, s, step, p);
    if p in s.devices {
      DefinitionAsOpened(library, init, p);
    } else {
      RegistryRemembers(library, init, p);
    }
  }

  /** After a rescan that keeps the connection its definition is current iff the scanned id still has it. */
  lemma RescanCurrentIff(library: Library, s: State, info: Info)
    requires Agreement(s) && info.instancePath == info.usbLocation
    requires info.instancePath in s.devices && info.instancePath in ScanOne(s, info).devices
    ensures Current(library, ScanOne(s, info), info.instancePath) <==>
              info.deviceId in library && library[info.deviceId] == s.devices[info.instancePath].definition
  {
    hide Agreement, ScanOne;
    ScanOneKeepsAgreement(s, info);
    RescanKeepsConnectionIff(s, info);
  }

  /** The same for a whole refresh, by what it last said about the path. */
  lemma RefreshCurrentIff(library: Library, s: State, scan: seq<Info>, gone: seq<Registration>, p: string)
    requires Agreement(s) && ScanUsesLocations(scan) && InOrder(s, scan, gone)
    requires p in Refreshed(s, scan, gone).devices
    ensures LastInfo(scan, p).Some? && p in s.devices && Refreshed(s, scan, gone).devices[p] == s.devices[p]
    ensures var id := LastInfo(scan, p).value.deviceId;
            Current(library, Refreshed(s, scan, gone), p) <==> id in library && library[id] == s.devices[p].definition
  {
    hide Refreshed, Backed;
    RefreshedExactly(s, scan, gone);
    RefreshOnlyDrops(s, scan, gone);
    LastInfoLive(scan, p);
    RefreshRemembers(s, scan, gone, p);
  }

  /**
   Over any run: a connection's definition is current iff the device last scanned at its path has the
   definition of the device it was opened as.
   */
  lemma DefinitionCurrentIff(library: Library, steps: seq<Step>, p: string)
    requires Run(library, INITIAL, steps) && p in After(library, INITIAL, steps).devices
    ensures var before, now := OpenedAs(library, steps, p), LastScanned(steps, p);
            && before.Some? && now.Some? && before.value.deviceId in library
            && (Current(library, After(library, INITIAL, steps), p) <==>
                  now.value.deviceId in library && library[now.value.deviceId] == library[before.value.deviceId])
  {
    hide After, OpenedAs, Agreement;
    var s := After(library, INITIAL, steps);
    DefinitionAsOpened(library, steps, p);
    RegistryRemembers(library, steps, p);
    AgreementHolds(library, steps);
    assert Backed(s, p) by { AgreementBacks(s, p); }
  }

  lemma AgreementBacks(s: State, p: string)
    requires Agreement(s) && p in s.devices
    ensures Backed(s, p)
  {
  }

  // ---- Where requests go ----

  /** A request goes to the connection of the path it names, which is registered and online at its address. */
  lemma RequestsReachTheirDevice(library: Library, s: State, step: Step)
    requires Agreement(s) && Possible(s, step) && Next(library, s, step).traffic != s.traffic
    ensures (step.SendTo? || step.ReadFrom?) && step.path in Next(library, s, step).devices
    ensures var s' := Next(library, s, step);
            && Backed(s', step.path) && s'.registry == s.registry
            && (exists r :: s'.traffic == s.traffic + [Handed(s'.devices[step.path], r)])
  {
    hide Agreement, Backed, Open, Evaluate, Normalized, Blank, ScanAll, AnnounceGone, Consistent, LocationsArePaths;
    StepKeepsAgreement(library, s, step);
    AgreementIsIndexed(s);
    match step
    case Refresh(scan, gone) =>
      ScanAllKeepsQueues(s, scan);
      var s1 := ScanAll(s, scan);
      AnnouncedGone(s1.(registry := MarkedOffline(s1.registry, LivePaths(scan))), gone);
    case OpenPath(path, o) => OpenKeepsTraffic(s, library, path, o);
    case SendTo(_, _, _, _) => SendReachesItsDevice(library, s, step);
    case ReadFrom(path, o) => ReadReachesItsDevice(library, s, step);
    case Shutdown =>
  }

  lemma SendReachesItsDevice(library: Library, s: State, step: Step)
    requires Agreement(s) && step.SendTo? && Next(library, s, step).traffic != s.traffic
    ensures step.path in Next(library, s, step).devices
    ensures var s' := Next(library, s, step);
            && Backed(s', step.path) && s'.registry == s.registry
            && (exists r :: s'.traffic == s.traffic + [Handed(s'.devices[step.path], r)])
  {
    hide Agreement, Backed, Open, Evaluate, Normalized, Blank;
    OpenKeepsAgreement(s, library, step.path, step.outside);
    var (s1, found) := Open(s, library, step.path, step.outside);
    assert found.Fine?;
    OnlyQueuesMatterNot(s1, Next(library, s, step));
    AgreementBacks(Next(library, s, step), step.path);
  }

  lemma ReadReachesItsDevice(library: Library, s: State, step: Step)
    requires Agreement(s) && step.ReadFrom? && Next(library, s, step).traffic != s.traffic
    ensures step.path in Next(library, s, step).devices
    ensures var s' := Next(library, s, step);
            && Backed(s', step.path) && s'.registry == s.registry
            && (exists r :: s'.traffic == s.traffic + [Handed(s'.devices[step.path], r)])
  {
    hide Agreement, Backed, Open, Blank;
    var s0 := Pop(s, step.path).0;
    OnlyQueuesMatterNot(s, s0);
    OpenKeepsAgreement(s0, library, step.path, step.outside);
    var (s1, found) := Open(s0, library, step.path, step.outside);
    OnlyQueuesMatterNot(s1, Next(library, s, step));
    AgreementBacks(Next(library, s, step), step.path);
  }

  /**
   What a send puts on the wire obeys the bounds of the definition its connection was opened with, and
   those of the registered device if that definition is current.
   */
  lemma SentObeysRegistered(library: Library, s: State, step: Step)
    requires Agreement(s) && Possible(s, step) && step.SendTo? && Next(library, s, step).traffic != s.traffic
    ensures var s' := Next(library, s, step);
            && step.path in s'.devices
            && (exists r: Transport.Request ::
                  && s'.traffic == s.traffic + [Handed(s'.devices[step.path], r)] && r.mode == Transport.SendMode
                  && Obeys(s'.devices[step.path].definition, Payload(r.cmd, r.data, r.checksum))
                  && (Current(library, s', step.path) ==>
                        Obeys(library[s.registry.byPath[step.path].deviceId], Payload(r.cmd, r.data, r.checksum))))
  {
    hide Agreement, Backed, Open, Evaluate, Normalized, Blank, Obeys, Payload;
    RequestsReachTheirDevice(library, s, step);
    OpenKeepsAgreement(s, library, step.path, step.outside);
    var (s1, found) := Open(s, library, step.path, step.outside);
    var c := found.value;
    WireObeys(c.definition, step.msg, step.kind);
    var n := Normalized(c.definition, step.msg);
    var r := Transport.Request(n[0], n[1..], step.kind, Transport.SendMode);
    assert Next(library, s, step).traffic == s.traffic + [Handed(c, r)];
  }

  const WIDE: Definition := Definition(1, "", 0, Some(108), Some(4), None, None, None, None)
  const NARROW: Definition := WIDE.(id := 7, keyCount := Some(10))

  /** Scan a keyboard, open it, scan it again as another keyboard at the same address, and send. */
  ghost function StaleRun(msg: seq<byte>, kind: ChecksumType, o: Outside): seq<Step> {
    var info := Info("a", "a", 1, 2, 3, 3, Usb, 1, 5);
    [Refresh([info], []), OpenPath("a", o), Refresh([info.(deviceId := 7)], []), SendTo("a", msg, kind, o)]
  }

  lemma Extend(library: Library, s: State, steps: seq<Step>, step: Step)
    requires Run(library, s, steps) && Possible(After(library, s, steps), step)
    ensures Run(library, s, steps + [step])
    ensures After(library, s, steps + [step]) == Next(library, After(library, s, steps), step)
  {
    hide Next, Possible;
    assert (steps + [step])[..|steps|] == steps;
  }

  /** A refresh that misses nobody only scans. */
  lemma QuietRefresh(s: State, scan: seq<Info>)
    requires Missing(ScanAll(s, scan).registry, LivePaths(scan)) == {}
    ensures Refreshed(s, scan, []) == ScanAll(s, scan) && InOrder(s, scan, [])
  {
    hide ScanAll;
    OfflineNone(ScanAll(s, scan).registry);
  }

  lemma ScanSingle(s: State, info: Info)
    requires Indexed(s.registry) && info.instancePath == info.usbLocation
             && s.registry.byPath.Keys <= {info.instancePath}
    ensures Refreshed(s, [info], []) == ScanOne(s, info) && InOrder(s, [info], [])
  {
    hide Consistent, LocationsArePaths, ScanOne;
    assert [info][..0] == [] && ScanAll(s, [info]) == ScanOne(s, info);
    ScanOneRegistry(s, info);
    QuietRefresh(s, [info]);
  }

  lemma FreshScan(info: Info)
    requires info.instancePath == info.usbLocation
    ensures var s, reg := Refreshed(INITIAL, [info], []), Registered(info.instancePath, info);
            && Agreement(s) && InOrder(INITIAL, [info], []) && s.devices == map[] && s.traffic == [] && s.opening == {}
            && s.registry.byPath == map[reg.path := reg]
  {
    EmptyAgrees(INITIAL);
    ScanSingle(INITIAL, info);
    ScanOneKeepsAgreement(INITIAL, info);
  }

  lemma OpenFresh(s: State, library: Library, reg: Registration, o: Outside)
    requires s.opening == {} && reg.path !in s.devices && reg.path in s.registry.byPath
             && s.registry.byPath[reg.path] == reg
    requires reg.online && reg.deviceId in library && o.attaches
    ensures var c := Connected(reg, library[reg.deviceId]);
            Open(s, library, reg.path, o) == (s.(devices := s.devices[reg.path := c]), Fine(c))
  {
  }

  lemma SendForwarded(library: Library, s: State, step: Step)
    requires step.SendTo? && step.path in s.devices && !Blank(step.path) && step.msg != []
    requires Evaluate(s.devices[step.path].definition, step.msg).dispatch.Forward?
    ensures var s', c := Next(library, s, step), s.devices[step.path];
            var n := Normalized(c.definition, step.msg);
            && s'.devices == s.devices && s'.registry == s.registry
            && s'.traffic == s.traffic + [Handed(c, Transport.Request(n[0], n[1..], step.kind, Transport.SendMode))]
  {
    hide Evaluate, Normalized, Blank;
    ForwardedIsClean(s.devices[step.path].definition, step.msg);
  }

  lemma ForwardedIsClean(def: Definition, msg: seq<byte>)
    requires Evaluate(def, msg).dispatch.Forward?
    ensures Evaluate(def, msg).error.None?
  {
    if msg != [] {
      ForwardedIffObeys(def, msg);
    }
  }

  /** The state after the keyboard was scanned, opened, and scanned again as another one. */
  lemma StaleState(library: Library, info: Info, o: Outside)
    requires info.instancePath == info.usbLocation && info.deviceId in library && o.attaches
    ensures var p := info.instancePath;
            var steps := [Refresh([info], []), OpenPath(p, o), Refresh([info.(deviceId := 7)], [])];
            var s := After(library, INITIAL, steps);
            && Run(library, INITIAL, steps) && s.traffic == []
            && s.devices == map[p := Connected(Registered(p, info), library[info.deviceId])]
            && s.registry.byPath == map[p := Registered(p, info.(deviceId := 7))]
  {
    hide Refreshed, Open, Agreement, InOrder, Consistent, LocationsArePaths;
    var p, later := info.instancePath, info.(deviceId := 7);
    var scan, connect, rescan := Refresh([info], []), OpenPath(p, o), Refresh([later], []);
    FreshScan(info);
    Extend(library, INITIAL, [], scan);
    assert [] + [scan] == [scan] && [scan] + [connect] == [scan, connect]
           && [scan, connect] + [rescan] == [scan, connect, rescan];
    var s1 := Refreshed(INITIAL, [info], []);
    OpenFresh(s1, library, Registered(p, info), o);
    Extend(library, INITIAL, [scan], connect);
    var s2 := Open(s1, library, p, o).0;
    AgreementIsIndexed(s1);
    ScanSingle(s2, later);
    ScanOneRegistry(s2, later);
    Extend(library, INITIAL, [scan, connect], rescan);
    NothingHanded(s2, later);
  }

  lemma NothingHanded(s: State, info: Info)
    ensures ScanOne(s, info).traffic == s.traffic
  {
  }

  /** The last send of that run still goes by the definition of the first keyboard. */
  lemma StaleRunSends(library: Library, msg: seq<byte>, kind: ChecksumType, o: Outside)
    requires 1 in library && o.attaches && msg != [] && Evaluate(library[1], msg).dispatch.Forward?
    ensures Run(library, INITIAL, StaleRun(msg, kind, o))
    ensures var s, n := After(library, INITIAL, StaleRun(msg, kind, o)), Normalized(library[1], msg);
            && "a" in s.devices && s.devices["a"].definition == library[1]
            && "a" in s.registry.byPath && s.registry.byPath["a"].deviceId == 7 && s.registry.byPath["a"].online
            && s.traffic == [Handed(s.devices["a"], Transport.Request(n[0], n[1..], kind, Transport.SendMode))]
  {
    hide Evaluate, Normalized, Next, After, Run, Blank;
    var info := Info("a", "a", 1, 2, 3, 3, Usb, 1, 5);
    StaleState(library, info, o);
    var steps := [Refresh([info], []), OpenPath("a", o), Refresh([info.(deviceId := 7)], [])];
    var send := SendTo("a", msg, kind, o);
    LetterIsNotBlank();
    Extend(library, INITIAL, steps, send);
    assert steps + [send] == StaleRun(msg, kind, o);
    SendForwarded(library, After(library, INITIAL, steps), send);
  }

  lemma LetterIsNotBlank()
    ensures !Blank("a")
  {
    assert !IsWhitespace("a"[0]);
  }

  /**
   So a payload can reach a keyboard whose registered definition forbids it: here a write to key 50 of a
   keyboard with 10 keys.
   */
  lemma StaleDefinitionSent(library: Library, msg: seq<byte>, o: Outside, s: State)
    requires library == map[1 := WIDE, 7 := NARROW] && msg == [0x0A, 0, 50, 0, 0, 0, 0] && o.attaches
    requires s == After(library, INITIAL, StaleRun(msg, NoChecksum, o))
    ensures Run(library, INITIAL, StaleRun(msg, NoChecksum, o))
    ensures "a" in s.devices && "a" in s.registry.byPath && s.registry.byPath["a"].deviceId == 7
            && !Current(library, s, "a")
    ensures |s.traffic| == 1 && s.traffic[0].connection == s.devices["a"]
    ensures var r := s.traffic[0].request;
            r.mode == Transport.SendMode && !Obeys(library[7], Payload(r.cmd, r.data, r.checksum))
  {
    hide After, Run, StaleRun, Obeys, Payload;
    WideAllows(msg);
    StaleRunSends(library, msg, NoChecksum, o);
    CheckedBytesSurvive(WIDE, msg, NoChecksum, 0);
    CheckedBytesSurvive(WIDE, msg, NoChecksum, 2);
    NarrowForbids(WirePayload(WIDE, msg, NoChecksum));
  }

  lemma WideAllows(msg: seq<byte>)
    requires msg == [0x0A, 0, 50, 0, 0, 0, 0]
    ensures Evaluate(WIDE, msg).dispatch.Forward?
  {
    ForwardedIffObeys(WIDE, msg);
    assert Commands(WIDE) == RY5088_COMMANDS;
  }

  lemma NarrowForbids(m: seq<byte>)
    requires |m| == 64 && m[0] == 0x0A && m[2] == 50
    ensures !Obeys(NARROW, m)
  {
    assert Commands(NARROW) == RY5088_COMMANDS;
  }

  // ---- Opens that connect late ----

  ghost predicate There(s: State, reg: Registration) {
    && reg.path in s.registry.byPath && s.registry.byPath[reg.path].online
    && AddressOf(s.registry.byPath[reg.path]) == AddressOf(reg)
  }

  /** The `k`-th state that a waiting open sees. */
  function StateSeen(s: State, sleeps: seq<State>, k: nat): State
    requires k <= |sleeps|
  {
    if k == 0 then s else sleeps[k - 1]
  }

  ghost predicate MustWait(s: State, path: string) {
    path !in s.devices && path in s.opening
  }

  /** A waiting open acts on the first state in which the path is connected or claimed by nobody. */
  lemma {:induction false} AwaitMeaning(s: State, library: Library, reg: Registration, path: string, attaches: bool,
                                        sleeps: seq<State>, k: nat)
    requires k <= |sleeps| && forall i :: 0 <= i < k ==> MustWait(StateSeen(s, sleeps, i), path)
    ensures var t := StateSeen(s, sleeps, k);
            Await(s, library, reg, path, attaches, sleeps) ==
              if path in t.devices then (t, Fine(t.devices[path]))
              else if path !in t.opening then
                (Connect(t, library, reg, attaches), Find(Connect(t, library, reg, attaches), path))
              else if k == |sleeps| then (t, Fail(StillWaiting))
              else Await(s, library, reg, path, attaches, sleeps)
    decreases k
  {
    hide Connect;
    if k > 0 {
      assert MustWait(StateSeen(s, sleeps, 0), path);
      forall i | 0 <= i < k - 1 ensures MustWait(StateSeen(sleeps[0], sleeps[1..], i), path) {
        assert MustWait(StateSeen(s, sleeps, i + 1), path);
      }
      AwaitMeaning(sleeps[0], library, reg, path, attaches, sleeps[1..], k - 1);
    }
  }

  /**
   An open reads its registration before it waits for its turn. Connecting with what it read then keeps
   the agreement iff the path is still registered and online at that bus and address.
   */
  lemma LateConnectIff(s: State, library: Library, reg: Registration)
    requires Agreement(s) && reg.online && reg.deviceId in library
    ensures Agreement(Connect(s, library, reg, true)) <==> There(s, reg)
  {
    hide Consistent, LocationsArePaths;
    var s' := Connect(s, library, reg, true);
    assert reg.path in s'.devices;
    forall p | p in s.devices && p != reg.path ensures Backed(s', p) {
      assert Backed(s, p);
    }
  }

  /** So a refresh between the two can leave a connection to a device that is not there any more. */
  lemma LateConnectAfterUnplug(library: Library)
    requires 1 in library
    ensures var info := Info("a", "a", 1, 2, 3, 3, Usb, 1, 5);
            var s := Refreshed(INITIAL, [info], []);
            var reg := Registered("a", info);
            && s.registry.byPath == map["a" := reg] && InOrder(s, [], [Off(reg)])
            && var unplugged := Refreshed(s, [], [Off(reg)]);
               Agreement(unplugged) && !Agreement(Connect(unplugged, library, reg, true))
  {
    hide Agreement, Refreshed, Connect;
    var info := Info("a", "a", 1, 2, 3, 3, Usb, 1, 5);
    var s, reg := Refreshed(INITIAL, [info], []), Registered("a", info);
    FreshScan(info);
    assert InOrder(s, [], [Off(reg)]);
    RefreshedExactly(s, [], [Off(reg)]);
    LateConnectIff(Refreshed(s, [], [Off(reg)]), library, reg);
  }

  /** After these steps the registration is still registered, online, at its address. */
  predicate StillThere(steps: seq<Step>, reg: Registration) {
    steps == [] ||
    var init, step := steps[..|steps| - 1], steps[|steps| - 1];
    match step
    case Shutdown => false
    case Refresh(scan, _) =>
      var info := LastInfo(scan, reg.path);
      info.Some? && (info.value.bus, info.value.address) == AddressOf(reg)
    case _ => StillThere(init, reg)
  }

  lemma {:induction false} StillThereIff(library: Library, s: State, steps: seq<Step>, reg: Registration)
    requires Agreement(s) && Run(library, s, steps) && There(s, reg)
    ensures Agreement(After(library, s, steps)) && (There(After(library, s, steps), reg) <==> StillThere(steps, reg))
  {
    hide Agreement, Next, Consistent, LocationsArePaths;
    if steps != [] {
      var init, step := steps[..|steps| - 1], steps[|steps| - 1];
      var s1 := After(library, s, init);
      StillThereIff(library, s, init, reg);
      StepKeepsAgreement(library, s1, step);
      assert Indexed(s1.registry) && s1.opening == {} by { AgreementIsIndexed(s1); }
      match step
      case Refresh(scan, gone) =>
        RefreshRemembers(s1, scan, gone, reg.path);
        NextRefresh(library, s1, scan, gone);
      case Shutdown => NextShutdown(library, s1);
      case _ => CallKeepsRegistry(library, s1, step);
    }
  }

  /**
   An open that reads its registration and connects only after further steps keeps the agreement iff the
   latest refresh or shutdown among them, if any, is a refresh that scanned the device at its address.
   */
  lemma LateConnectRunIff(library: Library, s: State, steps: seq<Step>, p: string)
    requires Agreement(s) && Run(library, s, steps)
    requires p in s.registry.byPath && s.registry.byPath[p].online && s.registry.byPath[p].deviceId in library
    ensures var reg := s.registry.byPath[p];
            Agreement(Connect(After(library, s, steps), library, reg, true)) <==> StillThere(steps, reg)
  {
    hide Agreement, After, Connect, StillThere;
    var reg := s.registry.byPath[p];
    assert reg.path == p by { KeyIsPath(s, p); }
    StillThereIff(library, s, steps, reg);
    LateConnectIff(After(library, s, steps), library, reg);
  }

  lemma KeyIsPath(s: State, p: string)
    requires Agreement(s) && p in s.registry.byPath
    ensures s.registry.byPath[p].path == p
  {
  }

  /** A connection whose path is not online. */
  ghost predicate Lingering(s: State, p: string) {
    && Indexed(s.registry) && s.opening == {} && p in s.devices
    && (p in s.registry.byPath ==> !s.registry.byPath[p].online)
  }

  lemma LingersThroughScan(s: State, scan: seq<Info>, p: string)
    requires Lingering(s, p) && ScanUsesLocations(scan) && LastInfo(scan, p).None?
    ensures var s' := ScanAll(s, scan); Lingering(s', p) && s'.devices[p] == s.devices[p]
  {
    hide Consistent, LocationsArePaths, ScanOne;
    if scan != [] {
      var init := scan[..|scan| - 1];
      LingersThroughScan(s, init, p);
      ScanOneRegistry(ScanAll(s, init), scan[|scan| - 1]);
    }
  }

  lemma LingersThroughRefresh(s: State, scan: seq<Info>, gone: seq<Registration>, p: string)
    requires Lingering(s, p) && ScanUsesLocations(scan) && InOrder(s, scan, gone) && LastInfo(scan, p).None?
    ensures var s' := Refreshed(s, scan, gone); Lingering(s', p) && s'.devices[p] == s.devices[p]
  {
    hide Consistent, LocationsArePaths, ScanAll, AnnounceGone;
    var s1, live := ScanAll(s, scan), LivePaths(scan);
    LingersThroughScan(s, scan, p);
    RefreshRemembers(s, scan, gone, p);
    AnnouncedGone(s1.(registry := MarkedOffline(s1.registry, live)), gone);
  }

  /**
   A connection made too late outlives every refresh that does not scan its path, since the path is not
   online and so never counts as gone; and opens go on finding it.
   */
  lemma {:induction false} LateConnectionLingers(library: Library, s: State, steps: seq<Step>, p: string, o: Outside)
    requires Lingering(s, p) && Run(library, s, steps)
    requires forall i :: 0 <= i < |steps| ==>
               !steps[i].Shutdown? && (steps[i].Refresh? ==> LastInfo(steps[i].scan, p).None?)
    ensures var s' := After(library, s, steps);
            && Lingering(s', p) && s'.devices[p] == s.devices[p]
            && Open(s', library, p, o) == (s', Fine(s.devices[p]))
  {
    hide Next, Consistent, LocationsArePaths;
    if steps != [] {
      var init, step := steps[..|steps| - 1], steps[|steps| - 1];
      var s1 := After(library, s, init);
      LateConnectionLingers(library, s, init, p, o);
      match step
      case Refresh(scan, gone) =>
        LingersThroughRefresh(s1, scan, gone, p);
        NextRefresh(library, s1, scan, gone);
      case _ => CallKeepsRegistry(library, s1, step);
    }
  }

  /**
   When its path is scanned again such a connection is dropped iff the registry remembers the path at
   another address; if it is kept, it is good again iff it was made for the scanned address.
   */
  lemma LateConnectionRescanned(s: State, info: Info)
    requires Lingering(s, info.instancePath) && info.instancePath == info.usbLocation
    requires s.devices[info.instancePath].registration.path == info.instancePath
    ensures var s', p := ScanOne(s, info), info.instancePath;
            && (p in s'.devices <==>
                  (p in s.registry.byPath ==> AddressOf(s.registry.byPath[p]) == (info.bus, info.address)))
            && (p in s'.devices ==>
                  (Backed(s', p) <==> AddressOf(s.devices[p].registration) == (info.bus, info.address)))
  {
    hide Consistent, LocationsArePaths, ScanOne;
    ScanOneRegistry(s, info);
  }
}
