/** What every run of the driver service keeps. */
module BridgeProofs {
  import opened Bytes
  import opened Checksum
  import opened CommandPolicy
  import opened DeviceRegistry
  import opened DeviceListView
  import opened BridgeSpec
  import FlowSpec
  import FlowProofs
  import Transport

  // ---- Registry and connections ----

  /** The connected path is registered and online at the connection's bus and address. */
  ghost predicate Backed(s: State, p: string)
    requires p in s.devices
  {
    && p in s.registry.byPath && s.registry.byPath[p].online
    && AddressOf(s.registry.byPath[p]) == AddressOf(s.devices[p].registration)
    && s.devices[p].registration.path == p
  }

  ghost predicate Agreement(s: State) {
    && Consistent(s.registry) && LocationsArePaths(s.registry) && s.opening == {}
    && forall p :: p in s.devices ==> Backed(s, p)
  }

  /** What a scan does to a consistent registry, whatever the connections. */
  lemma ScanOneRegistry(s: State, info: Info)
    requires Consistent(s.registry) && LocationsArePaths(s.registry) && info.instancePath == info.usbLocation
    ensures var s', p := ScanOne(s, info), info.instancePath;
            && Consistent(s'.registry) && LocationsArePaths(s'.registry)
            && PathFor(s.registry, info) == p && s'.opening == s.opening
            && s'.registry.byPath == s.registry.byPath[p := Registered(p, info)]
            && s'.devices == if p in s.registry.byPath && AddressOf(s.registry.byPath[p]) != (info.bus, info.address)
                             then s.devices - {p} else s.devices
  {
    hide Consistent, LocationsArePaths, EntryOf;
    UpsertKeepsConsistent(s.registry, info);
  }

  lemma ScanOneKeepsAgreement(s: State, info: Info)
    requires Agreement(s) && info.instancePath == info.usbLocation
    ensures Agreement(ScanOne(s, info))
    ensures var r := ScanOne(s, info).registry;
            && PathFor(s.registry, info) == info.instancePath
            && r.byPath == s.registry.byPath[info.instancePath := Registered(info.instancePath, info)]
  {
    hide Consistent, LocationsArePaths, ScanOne;
    ScanOneRegistry(s, info);
    var s' := ScanOne(s, info);
    forall q | q in s'.devices ensures Backed(s', q) {
      assert Backed(s, q);
    }
  }

  ghost predicate OnlineExactly(r: Registry, base: Registry, paths: set<string>) {
    forall p :: (p in r.byPath && r.byPath[p].online <==> p in paths || (p in base.byPath && base.byPath[p].online))
  }

  lemma {:induction false} ScanAllKeepsAgreement(s: State, scan: seq<Info>)
    requires Agreement(s) && ScanUsesLocations(scan)
    ensures Agreement(ScanAll(s, scan))
    ensures OnlineExactly(ScanAll(s, scan).registry, s.registry, LivePaths(scan))
  {
    hide Agreement, ScanOne;
    if scan != [] {
      var init, last := scan[..|scan| - 1], scan[|scan| - 1];
      ScanAllKeepsAgreement(s, init);
      ScanOneKeepsAgreement(ScanAll(s, init), last);
      assert scan == init + [last];
      assert LivePaths(scan) == LivePaths(init) + {last.instancePath};
    }
  }

  lemma {:induction false} AnnouncedGone(s: State, gone: seq<Registration>)
    ensures var s' := AnnounceGone(s, gone);
            && s'.registry == s.registry && s'.opening == s.opening && s'.queues == s.queues && s'.traffic == s.traffic
            && s'.devices == s.devices - PathsOf(gone)
  {
    hide PathsOf, EntryOf;
    PathsOfStep(gone);
    if gone != [] {
      AnnouncedGone(s, gone[..|gone| - 1]);
    }
  }

  lemma PathsOfStep(regs: seq<Registration>)
    ensures PathsOf(regs) == if regs == [] then {} else PathsOf(regs[..|regs| - 1]) + {regs[|regs| - 1].path}
  {
    if regs != [] {
      assert regs == regs[..|regs| - 1] + [regs[|regs| - 1]];
    }
  }

  /** After a refresh exactly the scanned devices are online, and connections still agree with the registry. */
  lemma RefreshedExactly(s: State, scan: seq<Info>, gone: seq<Registration>)
    requires Agreement(s) && ScanUsesLocations(scan) && InOrder(s, scan, gone)
    ensures var s' := Refreshed(s, scan, gone);
            && Agreement(s')
            && (forall p :: p in s'.registry.byPath && s'.registry.byPath[p].online <==> p in LivePaths(scan))
            && (forall p :: p in s'.devices ==> p in LivePaths(scan))
  {
    hide Consistent, LocationsArePaths, ScanAll, AnnounceGone;
    var live := LivePaths(scan);
    var s1, s' := ScanAll(s, scan), Refreshed(s, scan, gone);
    ScanAllKeepsAgreement(s, scan);
    OfflineKeepsConsistent(s1.registry, Missing(s1.registry, live));
    AnnouncedGone(s1.(registry := MarkedOffline(s1.registry, live)), gone);
    forall p | p in Missing(s1.registry, live) ensures p in PathsOf(gone) {
      assert Off(s1.registry.byPath[p]) in gone;
      PathsAreKeys(s1.registry, p);
    }
    forall p | p in s'.devices ensures Backed(s', p) && p in live {
      assert Backed(s1, p);
    }
  }

  lemma PathsAreKeys(r: Registry, p: string)
    requires Consistent(r) && p in r.byPath
    ensures r.byPath[p].path == p
  {
  }

  lemma OpenKeepsAgreement(s: State, library: Library, path: string, o: Outside)
    requires Agreement(s)
    ensures var (s', found) := Open(s, library, path, o);
            && Agreement(s') && s' == s.(devices := s'.devices)
            && (found.Fine? <==> path in s'.devices)
            && (found.Fine? ==> found.value == s'.devices[path] && found.value.registration.path == path)
  {
    hide LocationsArePaths, EntrySound, LocationFound;
    var s' := Open(s, library, path, o).0;
    forall p | p in s'.devices ensures Backed(s', p) {
      if p in s.devices {
        assert Backed(s, p);
      }
    }
  }

  lemma StepKeepsAgreement(library: Library, s: State, step: Step)
    requires Agreement(s) && Possible(s, step)
    ensures Agreement(Next(library, s, step))
  {
    hide Agreement, Evaluate, Normalized, Refreshed, Open, Blank;
    match step
    case Refresh(scan, gone) => RefreshedExactly(s, scan, gone);
    case OpenPath(path, o) => OpenKeepsAgreement(s, library, path, o);
    case SendTo(path, msg, kind, o) =>
      OpenKeepsAgreement(s, library, path, o);
      OnlyQueuesMatterNot(Open(s, library, path, o).0, Next(library, s, step));
    case ReadFrom(path, o) =>
      var s0 := Pop(s, path).0;
      OnlyQueuesMatterNot(s, s0);
      OpenKeepsAgreement(s0, library, path, o);
      OnlyQueuesMatterNot(s, Next(library, s, step));
      OnlyQueuesMatterNot(s0, Next(library, s, step));
      OnlyQueuesMatterNot(Open(s0, library, path, o).0, Next(library, s, step));
    case Shutdown =>
      EmptyAgrees(Next(library, s, step));
  }

  lemma EmptyAgrees(s: State)
    requires s.registry == EMPTY && s.devices == map[] && s.opening == {}
    ensures Agreement(s)
  {
  }

  lemma OnlyQueuesMatterNot(s: State, s': State)
    ensures Agreement(s) && s.registry == s'.registry && s.devices == s'.devices && s.opening == s'.opening ==>
            Agreement(s')
  {
  }

  /** Over any run, every connected path is registered, online, and where the connection says it is. */
  lemma {:induction false} AgreementHolds(library: Library, steps: seq<Step>)
    requires Run(library, INITIAL, steps)
    ensures Agreement(After(library, INITIAL, steps))
  {
    hide Next, Agreement;
    if steps == [] {
      EmptyAgrees(INITIAL);
    } else {
      var init := steps[..|steps| - 1];
      AgreementHolds(library, init);
      StepKeepsAgreement(library, After(library, INITIAL, init), steps[|steps| - 1]);
    }
  }

  // ---- The client's list ----

  ghost function ViewAfter(v: View, updates: seq<DeviceList>): View {
    if updates == [] then v
    else ViewAfter(v, updates[..|updates| - 1]) + ViewOf(updates[|updates| - 1].devList)
  }

  ghost predicate OnlyAnnounces(updates: seq<DeviceList>) {
    forall i :: 0 <= i < |updates| ==> updates[i].change in {Add, Change}
  }

  lemma MergedIsView(v: View, update: DeviceList)
    requires Keyed(v) && update.change in {Add, Change}
    ensures Keyed(v + ViewOf(update.devList))
    ensures Merged(Listing(v), update) == Listing(v + ViewOf(update.devList))
  {
    hide Listing, ViewOf, Leq, Ordered;
    ViewOfListing(v);
    assert Keyed(ViewOf(update.devList));
  }

  /** Folding announcements into a listing is updating the view it lists. */
  lemma {:induction false} FoldIsView(v: View, updates: seq<DeviceList>)
    requires Keyed(v) && OnlyAnnounces(updates)
    ensures Keyed(ViewAfter(v, updates))
    ensures Folded(Listing(v), updates) == Listing(ViewAfter(v, updates))
  {
    hide Listing, ViewOf, Merged, Keyed;
    if updates != [] {
      var init := updates[..|updates| - 1];
      FoldIsView(v, init);
      MergedIsView(ViewAfter(v, init), updates[|updates| - 1]);
    }
  }

  /** What a client knows that has listed `v` and then heard every broadcast from index `n` on. */
  ghost function Heard(v: View, n: nat, log: seq<DeviceList>): View
    requires n <= |log|
  {
    ViewAfter(v, log[n..])
  }

  lemma HeardOneMore(v: View, n: nat, log: seq<DeviceList>, reg: Registration, change: ChangeType)
    requires n <= |log| && OnlyAnnounces(log[n..]) && change in {Add, Change}
    ensures var log' := log + [DeviceList([EntryOf(reg)], change)];
            Heard(v, n, log') == Heard(v, n, log)[reg.path := EntryOf(reg)] && OnlyAnnounces(log'[n..])
  {
    hide EntryOf, ViewOf;
    var log' := log + [DeviceList([EntryOf(reg)], change)];
    assert log'[n..] == log[n..] + [DeviceList([EntryOf(reg)], change)];
    ViewOfEntry(reg);
  }

  lemma ViewOfEntry(reg: Registration)
    ensures ViewOf([EntryOf(reg)]) == map[reg.path := EntryOf(reg)]
  {
  }

  ghost predicate InStep(v: View, n: nat, s: State) {
    && n <= |s.broadcasts| && OnlyAnnounces(s.broadcasts[n..])
    && Alike(Heard(v, n, s.broadcasts), KnownView(s.registry))
  }

  lemma KnownUpdate(r: Registry, r': Registry, reg: Registration)
    requires r'.byPath == r.byPath[reg.path := reg]
    ensures KnownView(r') == KnownView(r)[reg.path := EntryOf(reg)]
  {
  }

  lemma SilentUpdate(s: State, info: Info)
    requires Agreement(s) && Unremarkable(s.registry, info)
    ensures var reg := Registered(info.instancePath, info);
            && reg.path in KnownView(s.registry)
            && Summarize(KnownView(s.registry)[reg.path]) == Summarize(EntryOf(reg))
  {
  }

  lemma ScanOneInStep(v: View, n: nat, s: State, info: Info)
    requires Agreement(s) && info.instancePath == info.usbLocation && InStep(v, n, s)
    ensures InStep(v, n, ScanOne(s, info))
  {
    hide Agreement, Heard, Upserted, OnlyAnnounces, KnownView, EntryOf, Summarize, Unremarkable;
    ScanOneKeepsAgreement(s, info);
    var reg, s' := Registered(info.instancePath, info), ScanOne(s, info);
    KnownUpdate(s.registry, s'.registry, reg);
    if Unremarkable(s.registry, info) {
      SilentUpdate(s, info);
    } else {
      var change := if info.instancePath in s.registry.byPath then Change else Add;
      HeardOneMore(v, n, s.broadcasts, reg, change);
      assert s'.broadcasts == s.broadcasts + [DeviceList([EntryOf(reg)], change)];
    }
  }

  lemma {:induction false} ScanAllInStep(v: View, n: nat, s: State, scan: seq<Info>)
    requires Agreement(s) && ScanUsesLocations(scan) && InStep(v, n, s)
    ensures InStep(v, n, ScanAll(s, scan))
  {
    hide Agreement, InStep, ScanOne;
    if scan != [] {
      var init := scan[..|scan| - 1];
      ScanAllKeepsAgreement(s, init);
      ScanAllInStep(v, n, s, init);
      ScanOneInStep(v, n, ScanAll(s, init), scan[|scan| - 1]);
    }
  }

  /** `after` overwrites the entries of the `gone` devices in `before`, and no others. */
  ghost predicate Overwrites(before: View, after: View, gone: seq<Registration>) {
    && after.Keys == before.Keys + PathsOf(gone)
    && (forall p :: p in after ==> Overwritten(after, gone, p) || Untouched(before, after, gone, p))
  }

  ghost predicate Overwritten(after: View, gone: seq<Registration>, p: string)
    requires p in after
  {
    exists reg :: reg in gone && reg.path == p && after[p] == EntryOf(reg)
  }

  ghost predicate Untouched(before: View, after: View, gone: seq<Registration>, p: string)
    requires p in after
  {
    (forall reg :: reg in gone ==> reg.path != p) && p in before && after[p] == before[p]
  }

  /** Announcing devices overwrites their entries and no others. */
  lemma {:induction false} GoneHeard(v: View, n: nat, s: State, gone: seq<Registration>)
    requires n <= |s.broadcasts| && OnlyAnnounces(s.broadcasts[n..])
    ensures var log := AnnounceGone(s, gone).broadcasts;
            && n <= |log| && OnlyAnnounces(log[n..])
            && Overwrites(Heard(v, n, s.broadcasts), Heard(v, n, log), gone)
  {
    hide EntryOf, Heard, OnlyAnnounces, Overwrites;
    if gone == [] {
      OverwritesNone(Heard(v, n, s.broadcasts));
    } else {
      var init, last := gone[..|gone| - 1], gone[|gone| - 1];
      assert gone == init + [last];
      GoneHeard(v, n, s, init);
      var before := AnnounceGone(s, init).broadcasts;
      HeardOneMore(v, n, before, last, Change);
      assert AnnounceGone(s, gone).broadcasts == before + [DeviceList([EntryOf(last)], Change)];
      OverwritesOneMore(Heard(v, n, s.broadcasts), Heard(v, n, before), init, last);
    }
  }

  lemma OverwritesNone(v: View)
    ensures Overwrites(v, v, [])
  {
  }

  lemma OverwritesOneMore(before: View, after: View, gone: seq<Registration>, last: Registration)
    requires Overwrites(before, after, gone)
    ensures Overwrites(before, after[last.path := EntryOf(last)], gone + [last])
  {
  }

  lemma AlikeAfterGone(before: View, after: View, r: Registry, live: set<string>, gone: seq<Registration>)
    requires Consistent(r) && Alike(before, KnownView(r)) && Overwrites(before, after, gone)
             && Lists(gone, r, Missing(r, live))
    ensures Alike(after, KnownView(MarkedOffline(r, live)))
  {
    hide EntryOf, Summarize, Consistent;
    var r' := MarkedOffline(r, live);
    forall p | p in after ensures p in r'.byPath && Summarize(after[p]) == Summarize(EntryOf(r'.byPath[p])) {
      if Overwritten(after, gone, p) {
        var reg :| reg in gone && reg.path == p && after[p] == EntryOf(reg);
        assert r'.byPath[p] == reg;
      } else {
        assert Untouched(before, after, gone, p);
        assert p in KnownView(r);
        PathsAreKeys(r, p);
        assert p in Missing(r, live) ==> Off(r.byPath[p]) in gone;
      }
    }
  }

  lemma ScannedConsistently(s: State, scan: seq<Info>)
    requires Agreement(s) && ScanUsesLocations(scan)
    ensures Consistent(ScanAll(s, scan).registry)
  {
    ScanAllKeepsAgreement(s, scan);
  }

  lemma RefreshInStep(v: View, n: nat, s: State, scan: seq<Info>, gone: seq<Registration>)
    requires Agreement(s) && ScanUsesLocations(scan) && InOrder(s, scan, gone) && InStep(v, n, s)
    ensures InStep(v, n, Refreshed(s, scan, gone))
  {
    hide Agreement, ScanAll, AnnounceGone, Heard, OnlyAnnounces, Alike, Overwrites, MarkedOffline;
    var s1, live := ScanAll(s, scan), LivePaths(scan);
    var s2 := s1.(registry := MarkedOffline(s1.registry, live));
    ScanAllInStep(v, n, s, scan);
    GoneHeard(v, n, s2, gone);
    AnnouncedGone(s2, gone);
    assert Consistent(s1.registry) by { ScannedConsistently(s, scan); }
    AlikeAfterGone(Heard(v, n, s2.broadcasts), Heard(v, n, AnnounceGone(s2, gone).broadcasts), s1.registry, live, gone);
  }

  lemma StepInStep(v: View, n: nat, library: Library, s: State, step: Step)
    requires Agreement(s) && Possible(s, step) && !step.Shutdown? && InStep(v, n, s)
    ensures InStep(v, n, Next(library, s, step))
  {
    hide Agreement, InStep, Evaluate, Normalized, Refreshed, Open, Blank;
    match step
    case Refresh(scan, gone) => RefreshInStep(v, n, s, scan, gone);
    case OpenPath(path, o) => OpenInStep(v, n, library, s, path, o, Next(library, s, step));
    case SendTo(path, msg, kind, o) => OpenInStep(v, n, library, s, path, o, Next(library, s, step));
    case ReadFrom(path, o) =>
      var s0 := Pop(s, path).0;
      OnlyQueuesMatterNot(s, s0);
      OpenInStep(v, n, library, s, path, o, s0);
      OpenInStep(v, n, library, s0, path, o, Next(library, s, step));
  }

  /** Only the registry and the broadcasts matter to a client. */
  lemma OpenInStep(v: View, n: nat, library: Library, s: State, path: string, o: Outside, s': State)
    requires Agreement(s)
    ensures var s1 := Open(s, library, path, o).0;
            s1.registry == s.registry && s1.broadcasts == s.broadcasts
    ensures s'.registry == s.registry && s'.broadcasts == s.broadcasts && InStep(v, n, s) ==> InStep(v, n, s')
  {
    hide Agreement, Alike, Heard, OnlyAnnounces;
    OpenKeepsAgreement(s, library, path, o);
  }

  lemma {:induction false} RunInStep(v: View, n: nat, library: Library, s: State, steps: seq<Step>)
    requires Agreement(s) && Run(library, s, steps) && InStep(v, n, s)
    requires forall i :: 0 <= i < |steps| ==> !steps[i].Shutdown?
    ensures InStep(v, n, After(library, s, steps)) && Agreement(After(library, s, steps))
  {
    hide Agreement, InStep, Next, Possible;
    if steps != [] {
      var init := steps[..|steps| - 1];
      RunInStep(v, n, library, s, init);
      StepInStep(v, n, library, After(library, s, init), steps[|steps| - 1]);
      StepKeepsAgreement(library, After(library, s, init), steps[|steps| - 1]);
    }
  }

  /**
   A client that starts from the server's list and folds in every later broadcast shows the server's
   current list, in what it can act on, after any run without a shutdown.
   */
  lemma ClientSeesServer(library: Library, s: State, steps: seq<Step>)
    requires Agreement(s) && Run(library, s, steps)
    requires forall i :: 0 <= i < |steps| ==> !steps[i].Shutdown?
    ensures var s', n := After(library, s, steps), |s.broadcasts|;
            n <= |s'.broadcasts| && Summaries(Folded(ServerList(s), s'.broadcasts[n..])) == Summaries(ServerList(s'))
  {
    hide Agreement, After, Run, Alike, Keyed, Listing;
    var s', n, v := After(library, s, steps), |s.broadcasts|, KnownView(s.registry);
    assert Keyed(v) by { AgreementIsKeyed(s); }
    assert InStep(v, n, s) by {
      assert s.broadcasts[n..] == [];
      assert Alike(v, v) by { AlikeReflexive(v); }
    }
    RunInStep(v, n, library, s, steps);
    AgreementIsKeyed(s');
    FoldIsView(v, s'.broadcasts[n..]);
    AlikeListings(Heard(v, n, s'.broadcasts), KnownView(s'.registry));
  }

  lemma AlikeReflexive(v: View)
    ensures Alike(v, v)
  {
  }

  lemma AgreementIsKeyed(s: State)
    requires Agreement(s)
    ensures Keyed(KnownView(s.registry))
  {
  }

  /**
   Entries are exact as well iff a scan never meets an unremarkable device whose entry has changed:
   such a change is not announced.
   */
  lemma ExactIff(v: View, n: nat, s: State, info: Info)
    requires Agreement(s) && info.instancePath == info.usbLocation && InStep(v, n, s)
    requires Heard(v, n, s.broadcasts) == KnownView(s.registry)
    ensures InStep(v, n, ScanOne(s, info))
    ensures var s', p := ScanOne(s, info), info.instancePath;
            Heard(v, n, s'.broadcasts) == KnownView(s'.registry) <==>
              !(Unremarkable(s.registry, info) && EntryOf(s.registry.byPath[p]) != EntryOf(Registered(p, info)))
  {
    hide Agreement, Heard, Upserted, OnlyAnnounces, EntryOf, Unremarkable;
    ScanOneKeepsAgreement(s, info);
    ScanOneInStep(v, n, s, info);
    var reg, s' := Registered(info.instancePath, info), ScanOne(s, info);
    KnownUpdate(s.registry, s'.registry, reg);
    if Unremarkable(s.registry, info) {
      var k, p := KnownView(s.registry), reg.path;
      assert p in k && k[p] == EntryOf(s.registry.byPath[p]) by { SilentUpdate(s, info); }
      assert k[p] == EntryOf(reg) ==> k[p := EntryOf(reg)] == k;
      assert KnownView(s'.registry)[p] == EntryOf(reg);
    } else {
      var change := if info.instancePath in s.registry.byPath then Change else Add;
      HeardOneMore(v, n, s.broadcasts, reg, change);
      assert s'.broadcasts == s.broadcasts + [DeviceList([EntryOf(reg)], change)];
    }
  }

  /** A keyboard that comes back with another device id at the same address changes without an announcement. */
  lemma SilentChange()
    ensures var info := Info("a", "a", 1, 2, 3, 3, Usb, 1, 5);
            var s := ScanOne(INITIAL, info);
            var s' := ScanOne(s, info.(deviceId := 7));
            s'.broadcasts == s.broadcasts && EntryOf(s'.registry.byPath["a"]) != EntryOf(s.registry.byPath["a"])
  {
  }

  /** A rescan keeps a connection, as it was opened, iff the device is still at the connection's address. */
  lemma RescanKeepsConnectionIff(s: State, info: Info)
    requires Agreement(s) && info.instancePath == info.usbLocation && info.instancePath in s.devices
    ensures var s', p := ScanOne(s, info), info.instancePath;
            && (p in s'.devices <==> AddressOf(s.devices[p].registration) == (info.bus, info.address))
            && (p in s'.devices ==> s'.devices[p] == s.devices[p])
  {
    hide Consistent, LocationsArePaths, Upserted, EntryOf;
    ScanOneKeepsAgreement(s, info);
    assert Backed(s, info.instancePath);
  }

  // ---- Pairing sends with reads ----

  /** The step is a write command that reached an open device. */
  predicate Granted(library: Library, s: State, step: Step, p: string) {
    step.SendTo? && step.path == p && !Blank(p) &&
    var found := Open(s, library, p, step.outside).1;
    found.Fine? && Evaluate(found.value.definition, step.msg).class_.WriteCommand?
  }

  /** The step is a read that was answered without asking the device. */
  predicate Spends(library: Library, s: State, step: Step, p: string) {
    step.ReadFrom? && step.path == p &&
    var (s', result) := Receive(s, library, p, step.outside);
    result.Fine? && s'.traffic == s.traffic
  }

  /** Stored queues are never empty and hold only empty answers. */
  ghost predicate Tidy(s: State) {
    forall p :: p in s.queues ==> s.queues[p] != [] && forall i :: 0 <= i < |s.queues[p]| ==> s.queues[p][i] == []
  }

  lemma SendQueues(library: Library, s: State, step: Step, p: string)
    requires Agreement(s) && Tidy(s) && step.SendTo?
    ensures var s' := Next(library, s, step);
            && Tidy(s')
            && Queued(s', p) == Queued(s, p) + if Granted(library, s, step, p) then [[]] else []
  {
    hide Agreement, Open, Evaluate, Normalized, Blank, Enqueued, Tidy;
    OpenKeepsAgreement(s, library, step.path, step.outside);
    var (s1, found) := Open(s, library, step.path, step.outside);
    assert Tidy(s1) by { SameQueues(s, s1); }
    EnqueuedQueues(s1, step.path, p);
    if found.Fine? {
      SkippedAreWrites(found.value.definition, step.msg);
    }
    SameQueues(s1, Next(library, s, step));
    SameQueues(Enqueued(s1, step.path), Next(library, s, step));
  }

  lemma SameQueues(s: State, s': State)
    ensures s.queues == s'.queues && Tidy(s) ==> Tidy(s')
    ensures s.queues == s'.queues ==> forall p :: Queued(s', p) == Queued(s, p)
  {
  }

  lemma EnqueuedQueues(s: State, path: string, p: string)
    ensures Tidy(s) ==> Tidy(Enqueued(s, path))
    ensures Queued(Enqueued(s, path), p) == Queued(s, p) + if p == path then [[]] else []
  {
  }

  lemma PoppedQueues(s: State, path: string, p: string)
    requires Tidy(s)
    ensures var (s', first) := Pop(s, path);
            && Tidy(s') && s'.traffic == s.traffic
            && (Queued(s, path) == [] ==> first.None? && s' == s)
            && (Queued(s, path) != [] ==> first == Some([]) && Queued(s, path)[0] == [])
            && Queued(s', p) == if p == path && Queued(s, p) != [] then Queued(s, p)[1..] else Queued(s, p)
  {
  }

  /** While connections are stored under their own paths a read never looks at a second queue. */
  lemma ReceiveIs(library: Library, s: State, p: string, o: Outside)
    requires Agreement(s) && Tidy(s)
    ensures var (s1, found) := Open(s, library, p, o);
            && s1.queues == s.queues && s1.traffic == s.traffic
            && Receive(s, library, p, o) ==
                 if Blank(p) then (s, Fail(Rejected(InvalidArgument)))
                 else if Queued(s, p) != [] then (Pop(s, p).0, Fine([]))
                 else if found.Fail? then (s1, Fail(found.status))
                 else ReadDevice(s1, found.value, o.response)
  {
    hide Agreement, Tidy, Open, Blank, Pop, Queued, ReadDevice;
    PoppedQueues(s, p, p);
    OpenKeepsAgreement(s, library, p, o);
    var (s1, found) := Open(s, library, p, o);
    if found.Fine? {
      assert ReadOpened(s1, p, found.value, o.response) == ReadDevice(s1, found.value, o.response);
    }
  }

  lemma ReadQueues(library: Library, s: State, step: Step, p: string)
    requires Agreement(s) && Tidy(s) && step.ReadFrom?
    ensures var s' := Next(library, s, step);
            && Tidy(s')
            && (Spends(library, s, step, p) <==> step.path == p && !Blank(p) && Queued(s, p) != [])
            && Queued(s', p) == (if Spends(library, s, step, p) then Queued(s, p)[1..] else Queued(s, p))
            && (Spends(library, s, step, p) ==> Receive(s, library, p, step.outside).1 == Fine([]))
            && (!Spends(library, s, step, step.path) ==> s'.queues == s.queues)
  {
    hide Agreement, Open, Blank, Receive, Tidy, Pop, Queued;
    ReceiveIs(library, s, step.path, step.outside);
    var s1 := Open(s, library, step.path, step.outside).0;
    PoppedQueues(s, step.path, p);
    SameQueues(s, s1);
    SameQueues(s, Next(library, s, step));
  }

  lemma {:induction false} ScanAllKeepsQueues(s: State, scan: seq<Info>)
    ensures var s' := ScanAll(s, scan); s'.queues == s.queues && s'.traffic == s.traffic && s'.opening == s.opening
  {
    hide Upserted, Unremarkable, EntryOf;
    if scan != [] {
      ScanAllKeepsQueues(s, scan[..|scan| - 1]);
    }
  }

  lemma StepQueues(library: Library, s: State, step: Step, p: string)
    requires Agreement(s) && Tidy(s)
    ensures var s' := Next(library, s, step);
            && Tidy(s')
            && Queued(s', p) ==
               (if step.Shutdown? then []
                else if Spends(library, s, step, p) then Queued(s, p)[1..]
                else Queued(s, p) + if Granted(library, s, step, p) then [[]] else [])
            && (Spends(library, s, step, p) ==> Queued(s, p) != [] && !step.Shutdown?)
  {
    hide Agreement, Open, Evaluate, Blank, Send, Receive, Spends, Granted;
    match step
    case Refresh(scan, gone) =>
      ScanAllKeepsQueues(s, scan);
      var s1 := ScanAll(s, scan);
      AnnouncedGone(s1.(registry := MarkedOffline(s1.registry, LivePaths(scan))), gone);
      NotOwn(library, s, step, p);
    case OpenPath(path, o) =>
      OpenKeepsAgreement(s, library, path, o);
      NotOwn(library, s, step, p);
    case SendTo(path, msg, kind, o) =>
      SendQueues(library, s, step, p);
      NotOwn(library, s, step, p);
    case ReadFrom(path, o) =>
      ReadQueues(library, s, step, p);
      NotOwn(library, s, step, p);
    case Shutdown =>
      NotOwn(library, s, step, p);
  }

  lemma NotOwn(library: Library, s: State, step: Step, p: string)
    ensures Granted(library, s, step, p) ==> step.SendTo? && step.path == p
    ensures Spends(library, s, step, p) ==> step.ReadFrom? && step.path == p
  {
  }

  /** Grants minus spendings since the last shutdown. */
  function Balance(library: Library, s: State, steps: seq<Step>, p: string): int {
    if steps == [] || steps[|steps| - 1].Shutdown? then 0
    else
      var init, step := steps[..|steps| - 1], steps[|steps| - 1];
      var before := After(library, s, init);
      Balance(library, s, init, p)
      + (if Granted(library, before, step, p) then 1 else 0) - (if Spends(library, before, step, p) then 1 else 0)
  }

  /** Over any run, a path's queue holds exactly the granted answers not yet spent. */
  lemma {:induction false} TokensCounted(library: Library, steps: seq<Step>, p: string)
    requires Run(library, INITIAL, steps)
    ensures var s := After(library, INITIAL, steps);
            Tidy(s) && |Queued(s, p)| == Balance(library, INITIAL, steps, p)
  {
    hide Agreement, Next, Granted, Spends;
    if steps != [] {
      var init := steps[..|steps| - 1];
      TokensCounted(library, init, p);
      AgreementHolds(library, init);
      StepQueues(library, After(library, INITIAL, init), steps[|steps| - 1], p);
      NotOwn(library, After(library, INITIAL, init), steps[|steps| - 1], p);
    }
  }

  predicate Own(step: Step, p: string) {
    (step.SendTo? || step.ReadFrom?) && step.path == p
  }

  /** Of the sends and reads on `p`, the latest is a send. */
  predicate Waiting(steps: seq<Step>, p: string) {
    steps != [] &&
    var step := steps[|steps| - 1];
    if Own(step, p) then step.SendTo? else Waiting(steps[..|steps| - 1], p)
  }

  /** Sends and reads on `p` take turns, a send first; other steps may happen in between. */
  predicate Alternating(steps: seq<Step>, p: string) {
    steps == [] || (
      Alternating(steps[..|steps| - 1], p) &&
      (Own(steps[|steps| - 1], p) ==> (steps[|steps| - 1].ReadFrom? <==> Waiting(steps[..|steps| - 1], p))))
  }

  /** The latest step on `p` is a granted send, and no shutdown came after it. */
  predicate Owed(library: Library, s: State, steps: seq<Step>, p: string) {
    steps != [] &&
    var init, step := steps[..|steps| - 1], steps[|steps| - 1];
    if Own(step, p) then Granted(library, After(library, s, init), step, p)
    else !step.Shutdown? && Owed(library, s, init, p)
  }

  lemma {:induction false} OwedIsWaiting(library: Library, s: State, steps: seq<Step>, p: string)
    ensures Owed(library, s, steps, p) ==> Waiting(steps, p)
  {
    hide Granted;
    if steps != [] {
      OwedIsWaiting(library, s, steps[..|steps| - 1], p);
      NotOwn(library, After(library, s, steps[..|steps| - 1]), steps[|steps| - 1], p);
    }
  }

  /** For a client that alternates, at most one answer is queued: the one owed for its latest write. */
  lemma {:induction false} AlternatingQueue(library: Library, steps: seq<Step>, p: string)
    requires Run(library, INITIAL, steps) && Alternating(steps, p) && !Blank(p)
    ensures Queued(After(library, INITIAL, steps), p) == if Owed(library, INITIAL, steps, p) then [[]] else []
  {
    hide Agreement, Next, Granted, Spends, Blank;
    if steps != [] {
      var init, step := steps[..|steps| - 1], steps[|steps| - 1];
      var before := After(library, INITIAL, init);
      AlternatingQueue(library, init, p);
      AgreementHolds(library, init);
      TokensCounted(library, init, p);
      StepQueues(library, before, step, p);
      NotOwn(library, before, step, p);
      OwedIsWaiting(library, INITIAL, init, p);
      if step.ReadFrom? {
        ReadQueues(library, before, step, p);
      }
    }
  }

  lemma {:induction false} OwedAfterSend(library: Library, first: seq<Step>, send: Step, between: seq<Step>, p: string)
    requires send.SendTo? && send.path == p
    requires forall i :: 0 <= i < |between| ==> !Own(between[i], p) && !between[i].Shutdown?
    ensures Owed(library, INITIAL, first + [send] + between, p)
            <==> Granted(library, After(library, INITIAL, first), send, p)
  {
    hide Granted, After;
    var all := first + [send] + between;
    if between == [] {
      assert all == first + [send] && all[..|all| - 1] == first;
    } else {
      var fewer := between[..|between| - 1];
      assert all[..|all| - 1] == first + [send] + fewer;
      OwedAfterSend(library, first, send, fewer, p);
    }
  }

  /** What a read that takes no queued answer returns: the open's failure, or what the device says. */
  function FromDevice(found: Outcome<Connected>, response: Option<seq<byte>>): Outcome<seq<byte>> {
    match found
    case Fail(status) => Fail(status)
    case Fine(_) => if response.None? then Fail(Internal) else Fine(response.value)
  }

  /** A read that finds nothing queued asks the device, if it can be opened, and leaves the queues alone. */
  lemma ReadAsksDevice(library: Library, s: State, p: string, o: Outside)
    requires Agreement(s) && Tidy(s) && !Blank(p) && Queued(s, p) == []
    ensures var (s', result) := Receive(s, library, p, o);
            && s'.queues == s.queues && result == FromDevice(Open(s, library, p, o).1, o.response)
            && (result.Fine? ==> |s'.traffic| == |s.traffic| + 1)
  {
    hide Agreement, Tidy, Open, Blank, Receive, Queued, Pop;
    ReceiveIs(library, s, p, o);
  }

  /**
   Pairing: when a client that alternates reads after a send, a write is answered by an empty response
   without touching the device, whatever became of it and whatever others did meanwhile; after a
   query or a failed open the read takes no queued answer.
   */
  lemma ReadAfterSend(library: Library, first: seq<Step>, send: Step, between: seq<Step>, p: string, o: Outside)
    requires send.SendTo? && send.path == p && !Blank(p)
    requires forall i :: 0 <= i < |between| ==> !Own(between[i], p) && !between[i].Shutdown?
    requires Run(library, INITIAL, first + [send] + between) && Alternating(first + [send] + between, p)
    ensures var s := After(library, INITIAL, first + [send] + between);
            var (s', result) := Receive(s, library, p, o);
            if Granted(library, After(library, INITIAL, first), send, p)
            then result == Fine([]) && s' == s.(queues := s.queues - {p})
            else
              && s'.queues == s.queues && result == FromDevice(Open(s, library, p, o).1, o.response)
              && (result.Fine? ==> |s'.traffic| == |s.traffic| + 1)
  {
    hide Agreement, Granted, Blank, Run, Alternating, Owed, After, Open;
    var steps := first + [send] + between;
    var s := After(library, INITIAL, steps);
    AlternatingQueue(library, steps, p);
    OwedAfterSend(library, first, send, between, p);
    TokensCounted(library, steps, p);
    AgreementHolds(library, steps);
    if !Granted(library, After(library, INITIAL, first), send, p) {
      ReadAsksDevice(library, s, p, o);
    }
  }

  // ---- What reaches the wire ----

  ghost predicate Lawful(h: Handed) {
    h.request.mode == Transport.SendMode ==>
      Obeys(h.connection.definition, Payload(h.request.cmd, h.request.data, h.request.checksum))
  }

  lemma SendIsLawful(library: Library, s: State, step: Step)
    requires step.SendTo? && s.opening == {}
    ensures var s' := Next(library, s, step);
            && s'.opening == {}
            && (s'.traffic == s.traffic || (exists h :: Lawful(h) && s'.traffic == s.traffic + [h]))
  {
    hide Evaluate, Normalized, Blank, Obeys, Payload, Open;
    var found := Open(s, library, step.path, step.outside).1;
    OpenKeepsTraffic(s, library, step.path, step.outside);
    if found.Fine? && step.msg != [] && Evaluate(found.value.definition, step.msg).dispatch.Forward? {
      var n := Normalized(found.value.definition, step.msg);
      WireObeys(found.value.definition, step.msg, step.kind);
      assert Lawful(Handed(found.value, Transport.Request(n[0], n[1..], step.kind, Transport.SendMode)));
    }
  }

  lemma OpenKeepsTraffic(s: State, library: Library, path: string, o: Outside)
    requires s.opening == {}
    ensures var s' := Open(s, library, path, o).0;
            s'.traffic == s.traffic && s'.opening == {}
  {
  }

  lemma ReadIsLawful(library: Library, s: State, step: Step)
    requires step.ReadFrom? && s.opening == {} && forall h :: h in s.traffic ==> Lawful(h)
    ensures var s' := Next(library, s, step);
            s'.opening == {} && forall h :: h in s'.traffic ==> Lawful(h)
  {
    hide Open, Blank, Obeys, Payload;
    OpenKeepsTraffic(Pop(s, step.path).0, library, step.path, step.outside);
  }

  lemma StepIsLawful(library: Library, s: State, step: Step)
    requires s.opening == {} && forall h :: h in s.traffic ==> Lawful(h)
    ensures var s' := Next(library, s, step);
            s'.opening == {} && forall h :: h in s'.traffic ==> Lawful(h)
  {
    hide Blank, Lawful, Open, ScanAll, AnnounceGone, Send, Receive;
    match step
    case Refresh(scan, gone) =>
      ScanAllKeepsQueues(s, scan);
      var s1 := ScanAll(s, scan);
      AnnouncedGone(s1.(registry := MarkedOffline(s1.registry, LivePaths(scan))), gone);
    case OpenPath(path, o) => OpenKeepsTraffic(s, library, path, o);
    case SendTo(_, _, _, _) => SendIsLawful(library, s, step);
    case ReadFrom(_, _) => ReadIsLawful(library, s, step);
    case Shutdown =>
  }

  /**
   Over any run, whatever is handed to a connection for sending becomes a payload that obeys every bound
   of the definition the connection was opened with.
   */
  lemma {:induction false} SentObeys(library: Library, steps: seq<Step>)
    ensures var s := After(library, INITIAL, steps);
            s.opening == {} && forall h :: h in s.traffic ==> Lawful(h)
  {
    hide Next, Lawful;
    if steps != [] {
      SentObeys(library, steps[..|steps| - 1]);
      StepIsLawful(library, After(library, INITIAL, steps[..|steps| - 1]), steps[|steps| - 1]);
    }
  }

  /** And so does every frame that the transport writes while it serves such a request. */
  lemma WireFramesObey(dev: FlowSpec.Device, w: FlowSpec.World, dongle: bool, h: Handed)
    requires Lawful(h) && h.request.mode == Transport.SendMode
    ensures var log := Transport.Perform(dev, w, dongle, h.request).0.log;
            && |w.log| < |log|
            && forall i :: |w.log| <= i < |log| ==> log[i].SetReport? && Obeys(h.connection.definition, log[i].frame)
  {
    hide Obeys, Payload, FlowSpec.SendLoop, FlowProofs.Spends;
    FlowProofs.SendGuarantee(dev, w, Payload(h.request.cmd, h.request.data, h.request.checksum), 0);
  }
}
