/** When a client's folded list equals the server's in every field, read off the guard of the announcements. */
module BridgeExact {
  import opened Bytes
  import opened CommandPolicy
  import opened DeviceRegistry
  import opened DeviceListView
  import opened BridgeSpec
  import opened BridgeProofs
  import opened BridgeHistory

  function Look(v: View, p: string): Option<DjDev> {
    if p in v then Some(v[p]) else None
  }

  /** The entry of the last remarkable scan of a path: the one that was announced. */
  ghost function Told(s: State, scan: seq<Info>, p: string): Option<DjDev> {
    if scan == [] then None
    else
      var init, last := scan[..|scan| - 1], scan[|scan| - 1];
      if last.instancePath == p && !Unremarkable(ScanAll(s, init).registry, last)
      then Some(EntryOf(Registered(p, last))) else Told(s, init, p)
  }

  /** What a run last told a client about a path: that it went offline, or its last remarkable scan. */
  ghost function ToldBy(library: Library, s: State, steps: seq<Step>, p: string): Option<DjDev> {
    if steps == [] then Look(KnownView(s.registry), p)
    else
      var init, step := steps[..|steps| - 1], steps[|steps| - 1];
      var before := After(library, s, init);
      if !step.Refresh? then ToldBy(library, s, init, p)
      else if p in Missing(before.registry, LivePaths(step.scan)) then Some(EntryOf(Off(before.registry.byPath[p])))
      else if Told(before, step.scan, p).Some? then Told(before, step.scan, p)
      else ToldBy(library, s, init, p)
  }

  lemma {:induction false} ScanTold(v: View, n: nat, s: State, scan: seq<Info>, p: string)
    requires Agreement(s) && ScanUsesLocations(scan) && n <= |s.broadcasts| && OnlyAnnounces(s.broadcasts[n..])
    ensures var s' := ScanAll(s, scan);
            && n <= |s'.broadcasts| && OnlyAnnounces(s'.broadcasts[n..])
            && Look(Heard(v, n, s'.broadcasts), p) ==
               if Told(s, scan, p).Some? then Told(s, scan, p) else Look(Heard(v, n, s.broadcasts), p)
  {
    hide Agreement, Heard, OnlyAnnounces, Unremarkable, EntryOf, ScanOne;
    if scan != [] {
      var init, last := scan[..|scan| - 1], scan[|scan| - 1];
      ScanTold(v, n, s, init, p);
      ScanAllKeepsAgreement(s, init);
      ScanOneTold(v, n, ScanAll(s, init), last);
    }
  }

  /** A scan of one device announces its entry iff it is remarkable. */
  lemma ScanOneTold(v: View, n: nat, s: State, info: Info)
    requires Agreement(s) && info.instancePath == info.usbLocation
    requires n <= |s.broadcasts| && OnlyAnnounces(s.broadcasts[n..])
    ensures var s', p := ScanOne(s, info), info.instancePath;
            && n <= |s'.broadcasts| && OnlyAnnounces(s'.broadcasts[n..])
            && Heard(v, n, s'.broadcasts) ==
               if Unremarkable(s.registry, info) then Heard(v, n, s.broadcasts)
               else Heard(v, n, s.broadcasts)[p := EntryOf(Registered(p, info))]
  {
    hide Agreement, Heard, Upserted, OnlyAnnounces, EntryOf, Unremarkable;
    ScanOneKeepsAgreement(s, info);
    if !Unremarkable(s.registry, info) {
      var reg := Registered(info.instancePath, info);
      var change := if info.instancePath in s.registry.byPath then Change else Add;
      HeardOneMore(v, n, s.broadcasts, reg, change);
      assert ScanOne(s, info).broadcasts == s.broadcasts + [DeviceList([EntryOf(reg)], change)];
    }
  }

  /** A refresh tells about the devices it misses last, and else about those it scanned remarkably. */
  lemma RefreshTold(v: View, n: nat, s: State, scan: seq<Info>, gone: seq<Registration>, p: string)
    requires Agreement(s) && ScanUsesLocations(scan) && InOrder(s, scan, gone)
    requires n <= |s.broadcasts| && OnlyAnnounces(s.broadcasts[n..])
    ensures var s' := Refreshed(s, scan, gone);
            && n <= |s'.broadcasts| && OnlyAnnounces(s'.broadcasts[n..])
            && Look(Heard(v, n, s'.broadcasts), p) ==
               if p in Missing(s.registry, LivePaths(scan)) then Some(EntryOf(Off(s.registry.byPath[p])))
               else if Told(s, scan, p).Some? then Told(s, scan, p) else Look(Heard(v, n, s.broadcasts), p)
  {
    hide Agreement, ScanAll, AnnounceGone, Heard, OnlyAnnounces, EntryOf, Told, Overwrites, MarkedOffline;
    var s1, live := ScanAll(s, scan), LivePaths(scan);
    var s2 := s1.(registry := MarkedOffline(s1.registry, live));
    ScanTold(v, n, s, scan, p);
    AgreementIsIndexed(s);
    MissingUnscanned(s, scan);
    GoneHeard(v, n, s2, gone);
    GoneTold(Heard(v, n, s2.broadcasts), Heard(v, n, AnnounceGone(s2, gone).broadcasts), s, s1, live, gone, p);
  }

  lemma MissingUnscanned(s: State, scan: seq<Info>)
    requires Indexed(s.registry) && ScanUsesLocations(scan)
    ensures var r, live := ScanAll(s, scan).registry, LivePaths(scan);
            && Consistent(r) && Missing(r, live) == Missing(s.registry, live)
            && (forall g :: g in Missing(r, live) ==> g in r.byPath && r.byPath[g] == s.registry.byPath[g])
  {
    hide LocationFound, EntrySound, LocationsArePaths, ScanAll;
    ScanRemembers(s, scan, "");
    forall g | g !in LivePaths(scan)
      ensures var r := ScanAll(s, scan).registry;
              (g in r.byPath <==> g in s.registry.byPath) && (g in r.byPath ==> r.byPath[g] == s.registry.byPath[g])
    {
      ScanRemembers(s, scan, g);
      LastInfoLive(scan, g);
    }
  }

  lemma GoneTold(before: View, after: View, s: State, s1: State, live: set<string>, gone: seq<Registration>, p: string)
    requires Overwrites(before, after, gone) && Consistent(s1.registry)
             && Lists(gone, s1.registry, Missing(s1.registry, live))
    requires Missing(s1.registry, live) == Missing(s.registry, live)
    requires forall g :: g in Missing(s1.registry, live) ==>
             g in s1.registry.byPath && s1.registry.byPath[g] == s.registry.byPath[g]
    ensures Look(after, p) ==
              if p in Missing(s.registry, live) then Some(EntryOf(Off(s.registry.byPath[p]))) else Look(before, p)
  {
    hide EntryOf, LocationFound, EntrySound, Overwritten, Untouched;
    var r, missing := s1.registry, Missing(s1.registry, live);
    assert PathsOf(gone) == missing by {
      forall g | g in missing ensures g in PathsOf(gone) {
        assert Off(r.byPath[g]) in gone;
        PathsAreKeys(r, g);
      }
    }
    if p in after {
      OverwrittenOr(before, after, r, missing, gone, p);
    }
  }

  lemma OverwrittenOr(before: View, after: View, r: Registry, missing: set<string>, gone: seq<Registration>, p: string)
    requires p in after && (Overwritten(after, gone, p) || Untouched(before, after, gone, p))
    requires Lists(gone, r, missing) && PathsOf(gone) == missing
    ensures if p in missing
            then p in r.byPath && after[p] == EntryOf(Off(r.byPath[p]))
            else p in before && after[p] == before[p]
  {
    hide EntryOf;
    if p in missing {
      var reg :| reg in gone && reg.path == p;
      assert Overwritten(after, gone, p);
    }
  }

  /** A client has heard exactly what the run told it. */
  lemma {:induction false} HeardIsTold(library: Library, s: State, steps: seq<Step>, p: string)
    requires Agreement(s) && Run(library, s, steps)
    requires forall i :: 0 <= i < |steps| ==> !steps[i].Shutdown?
    ensures var s', n := After(library, s, steps), |s.broadcasts|;
            && Agreement(s') && n <= |s'.broadcasts| && OnlyAnnounces(s'.broadcasts[n..])
            && Look(Heard(KnownView(s.registry), n, s'.broadcasts), p) == ToldBy(library, s, steps, p)
  {
    hide Agreement, Next, Heard, OnlyAnnounces, Told, Possible;
    var v, n := KnownView(s.registry), |s.broadcasts|;
    if steps == [] {
      HeardNothing(v, s);
    } else {
      var init, step := steps[..|steps| - 1], steps[|steps| - 1];
      var s1 := After(library, s, init);
      HeardIsTold(library, s, init, p);
      StepKeepsAgreement(library, s1, step);
      if step.Refresh? {
        assert ScanUsesLocations(step.scan) && InOrder(s1, step.scan, step.gone) by { PossibleRefresh(s1, step); }
        RefreshTold(v, n, s1, step.scan, step.gone, p);
        NextRefresh(library, s1, step.scan, step.gone);
      } else {
        CallBroadcastsNothing(library, s1, step);
      }
    }
  }

  lemma HeardNothing(v: View, s: State)
    ensures s.broadcasts[|s.broadcasts|..] == [] && OnlyAnnounces([]) && Heard(v, |s.broadcasts|, s.broadcasts) == v
  {
  }

  lemma PossibleRefresh(s: State, step: Step)
    requires Possible(s, step) && step.Refresh?
    ensures ScanUsesLocations(step.scan) && InOrder(s, step.scan, step.gone)
  {
  }

  lemma CallBroadcastsNothing(library: Library, s: State, step: Step)
    requires Agreement(s) && !step.Refresh? && !step.Shutdown?
    ensures Next(library, s, step).broadcasts == s.broadcasts
  {
    hide Agreement, Open, Evaluate, Normalized, Blank;
    if step.ReadFrom? {
      OnlyQueuesMatterNot(s, Pop(s, step.path).0);
      OpenKeepsAgreement(Pop(s, step.path).0, library, step.path, step.outside);
    } else {
      OpenKeepsAgreement(s, library, step.path, step.outside);
    }
  }

  /**
   After any run without a shutdown the client's folded list equals the server's in every field iff every
   registered device's entry is the one last told: since its last announcement no unremarkable scan has
   changed it for good.
   */
  lemma ClientExactIff(library: Library, s: State, steps: seq<Step>)
    requires Agreement(s) && Run(library, s, steps)
    requires forall i :: 0 <= i < |steps| ==> !steps[i].Shutdown?
    ensures var s', n := After(library, s, steps), |s.broadcasts|;
            n <= |s'.broadcasts| && (
              Folded(ServerList(s), s'.broadcasts[n..]) == ServerList(s') <==>
              forall p :: p in s'.registry.byPath ==>
                ToldBy(library, s, steps, p) == Some(EntryOf(s'.registry.byPath[p])))
  {
    hide Agreement, After, Run, Keyed, Listing, EntryOf, ToldBy, Summarize;
    var s', n, v := After(library, s, steps), |s.broadcasts|, KnownView(s.registry);
    HeardIsTold(library, s, steps, "");
    AgreementIsKeyed(s);
    AgreementIsKeyed(s');
    FoldIsView(v, s'.broadcasts[n..]);
    var heard, known := Heard(v, n, s'.broadcasts), KnownView(s'.registry);
    assert heard.Keys == known.Keys by {
      HeardNothing(v, s);
      AlikeReflexive(v);
      RunInStep(v, n, library, s, steps);
    }
    ListingsDiffer(heard, known);
    forall p | p in s'.registry.byPath
      ensures ToldBy(library, s, steps, p) == Some(EntryOf(s'.registry.byPath[p])) <==> heard[p] == known[p]
    {
      HeardIsTold(library, s, steps, p);
    }
  }

  lemma ListingsDiffer(v: View, w: View)
    requires Keyed(v) && Keyed(w) && v.Keys == w.Keys
    ensures Listing(v) == Listing(w) <==> forall p :: p in v ==> v[p] == w[p]
  {
    hide Listing;
    ViewOfListing(v);
    ViewOfListing(w);
    if forall p :: p in v ==> v[p] == w[p] {
      assert v == w;
    }
  }
}
