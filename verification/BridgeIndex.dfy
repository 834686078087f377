/** When a refresh leaves the address index of the registry complete. */
module BridgeIndex {
  import opened Bytes
  import opened DeviceRegistry
  import opened BridgeSpec
  import opened BridgeProofs
  import opened BridgeHistory

  function InfoAddress(info: Info): Address {
    (info.bus, info.address)
  }

  /** Index `k` is the last at which the scan names its path. */
  predicate LastAt(scan: seq<Info>, k: nat)
    requires k < |scan|
  {
    forall m :: k < m < |scan| ==> scan[m].instancePath != scan[k].instancePath
  }

  /** No device scanned after index `k` takes that device's address away again. */
  ghost predicate KeptInScan(s: State, scan: seq<Info>, k: nat)
    requires k < |scan|
  {
    forall m :: k < m < |scan| ==> !Takes(ScanAll(s, scan[..m]).registry, scan[m], InfoAddress(scan[k]))
  }

  lemma {:induction false} ScanFoundIff(s: State, scan: seq<Info>, k: nat)
    requires Indexed(s.registry) && ScanUsesLocations(scan) && k < |scan| && LastAt(scan, k)
    ensures var r, p := ScanAll(s, scan).registry, scan[k].instancePath;
            && p in r.byPath && r.byPath[p] == Registered(p, scan[k]) && Indexed(r)
            && (Found(r, p) <==> KeptInScan(s, scan, k))
    decreases |scan|
  {
    hide Consistent, LocationsArePaths, ScanOne, Takes, Found, KeptInScan, LastAt, ScanAll;
    var n, p := |scan| - 1, scan[k].instancePath;
    var init, last := scan[..n], scan[n];
    var s1 := ScanAll(s, init);
    ScanRemembers(s, init, p);
    ScanOneIsUpsert(s1, last);
    ScanAllStep(s, scan);
    KeptStep(s, scan, k);
    if k == n {
      UpsertedIsFound(s1.registry, last);
    } else {
      assert LastAt(init, k) && last.instancePath != p by { LastStep(scan, k); }
      ScanFoundIff(s, init, k);
      UpsertFoundIff(s1.registry, last, p);
    }
  }

  lemma ScanAllStep(s: State, scan: seq<Info>)
    requires scan != []
    ensures ScanAll(s, scan) == ScanOne(ScanAll(s, scan[..|scan| - 1]), scan[|scan| - 1])
  {
  }

  lemma LastStep(scan: seq<Info>, k: nat)
    requires k < |scan| - 1 && LastAt(scan, k)
    ensures LastAt(scan[..|scan| - 1], k) && scan[|scan| - 1].instancePath != scan[k].instancePath
  {
  }

  lemma KeptStep(s: State, scan: seq<Info>, k: nat)
    requires k < |scan|
    ensures var n := |scan| - 1;
            KeptInScan(s, scan, k) <==>
              || k == n
              || (KeptInScan(s, scan[..n], k) && !Takes(ScanAll(s, scan[..n]).registry, scan[n], InfoAddress(scan[k])))
  {
    hide Takes, ScanAll;
    var n := |scan| - 1;
    if k < n {
      assert forall m :: k < m < n ==> scan[..n][..m] == scan[..m];
      assert KeptInScan(s, scan, k) ==> !Takes(ScanAll(s, scan[..n]).registry, scan[n], InfoAddress(scan[k]));
    }
  }

  lemma ScanOneIsUpsert(s: State, info: Info)
    requires Indexed(s.registry) && info.instancePath == info.usbLocation
    ensures var s' := ScanOne(s, info);
            && s'.registry == Upserted(s.registry, info) && Indexed(s'.registry)
            && PathFor(s.registry, info) == info.instancePath
  {
    hide Consistent, LocationsArePaths, Upserted;
    ScanOneRegistry(s, info);
  }

  /** No device that the scan misses was online at this address. */
  predicate NotLost(s: State, scan: seq<Info>, a: Address) {
    forall g :: g in Missing(s.registry, LivePaths(scan)) ==> AddressOf(s.registry.byPath[g]) != a
  }

  lemma MissingAsBefore(s: State, scan: seq<Info>)
    requires Indexed(s.registry) && ScanUsesLocations(scan)
    ensures var r, live := ScanAll(s, scan).registry, LivePaths(scan);
            && Missing(r, live) == Missing(s.registry, live)
            && (forall g :: g in Missing(r, live) ==> g in r.byPath && r.byPath[g] == s.registry.byPath[g])
  {
    hide Consistent, LocationsArePaths, ScanAll;
    forall g | g !in LivePaths(scan)
      ensures var r := ScanAll(s, scan).registry;
              (g in r.byPath <==> g in s.registry.byPath) && (g in r.byPath ==> r.byPath[g] == s.registry.byPath[g])
    {
      ScanRemembers(s, scan, g);
      LastInfoLive(scan, g);
    }
  }

  lemma RefreshFoundIff(s: State, scan: seq<Info>, gone: seq<Registration>, k: nat)
    requires Indexed(s.registry) && ScanUsesLocations(scan) && k < |scan| && LastAt(scan, k)
    ensures var r, p := Refreshed(s, scan, gone).registry, scan[k].instancePath;
            && p in r.byPath && r.byPath[p] == Registered(p, scan[k])
            && (Found(r, p) <==> KeptInScan(s, scan, k) && NotLost(s, scan, InfoAddress(scan[k])))
  {
    hide Consistent, LocationsArePaths, ScanAll, AnnounceGone, KeptInScan, Found, Offlined;
    var s1, live, p := ScanAll(s, scan), LivePaths(scan), scan[k].instancePath;
    ScanFoundIff(s, scan, k);
    MissingAsBefore(s, scan);
    assert p in live;
    OfflineFoundIff(s1.registry, Missing(s1.registry, live), p);
    AnnouncedGone(s1.(registry := MarkedOffline(s1.registry, live)), gone);
  }

  lemma {:induction false} LastIndex(scan: seq<Info>, p: string) returns (k: nat)
    requires p in LivePaths(scan)
    ensures k < |scan| && scan[k].instancePath == p && LastAt(scan, k)
  {
    var n := |scan| - 1;
    if scan[n].instancePath == p {
      k := n;
    } else {
      var init := scan[..n];
      assert scan == init + [scan[n]];
      k := LastIndex(init, p);
    }
  }

  /**
   A refresh leaves every online device findable by its address, whatever the index held before, iff no
   scanned device loses its address to a device scanned after it or to one that the refresh marks offline.
   */
  lemma RefreshCompleteIff(s: State, scan: seq<Info>, gone: seq<Registration>)
    requires Agreement(s) && ScanUsesLocations(scan) && InOrder(s, scan, gone)
    ensures Complete(Refreshed(s, scan, gone).registry) <==>
              forall k :: 0 <= k < |scan| && LastAt(scan, k) ==>
                KeptInScan(s, scan, k) && NotLost(s, scan, InfoAddress(scan[k]))
  {
    hide Consistent, LocationsArePaths, Refreshed, KeptInScan, NotLost, Found, LastAt, InOrder;
    var r := Refreshed(s, scan, gone).registry;
    RefreshedExactly(s, scan, gone);
    forall k: nat | k < |scan| && LastAt(scan, k)
      ensures var p := scan[k].instancePath;
              && p in r.byPath && r.byPath[p].online
              && (Found(r, p) <==> KeptInScan(s, scan, k) && NotLost(s, scan, InfoAddress(scan[k])))
    {
      RefreshFoundIff(s, scan, gone, k);
    }
    forall p | p in r.byPath && r.byPath[p].online
      ensures exists k: nat :: k < |scan| && LastAt(scan, k) && scan[k].instancePath == p
    {
      var k := LastIndex(scan, p);
    }
  }

  /** One enumeration of the bus: every device has its own path and its own address. */
  predicate Enumeration(scan: seq<Info>) {
    forall i, j :: 0 <= i < j < |scan| ==>
      scan[i].instancePath != scan[j].instancePath && InfoAddress(scan[i]) != InfoAddress(scan[j])
  }

  /** The device scanned at index `m` was registered before, online or not, at address `a`. */
  predicate HeldBefore(s: State, scan: seq<Info>, m: nat, a: Address)
    requires m < |scan|
  {
    scan[m].instancePath in s.registry.byPath && AddressOf(s.registry.byPath[scan[m].instancePath]) == a
  }

  /** No device scanned after index `k` was registered at that device's address. */
  predicate NobodyHeld(s: State, scan: seq<Info>, k: nat)
    requires k < |scan|
  {
    forall m :: k < m < |scan| ==> !HeldBefore(s, scan, m, InfoAddress(scan[k]))
  }

  lemma KeptIffNobodyHeld(s: State, scan: seq<Info>, k: nat)
    requires Agreement(s) && ScanUsesLocations(scan) && Enumeration(scan) && k < |scan|
    ensures KeptInScan(s, scan, k) <==> NobodyHeld(s, scan, k)
  {
    hide Agreement, Takes, HeldBefore, ScanAll;
    forall m | k < m < |scan|
      ensures Takes(ScanAll(s, scan[..m]).registry, scan[m], InfoAddress(scan[k]))
              <==> HeldBefore(s, scan, m, InfoAddress(scan[k]))
    {
      TakesIffHeld(s, scan, k, m);
    }
  }

  /**
   For one enumeration that can be read off the registry before it: the index is complete afterwards iff
   no scanned device has an address that a device scanned after it was registered at, or that a device
   missing from the scan was online at.
   */
  lemma EnumerationCompleteIff(s: State, scan: seq<Info>, gone: seq<Registration>)
    requires Agreement(s) && ScanUsesLocations(scan) && InOrder(s, scan, gone) && Enumeration(scan)
    ensures Complete(Refreshed(s, scan, gone).registry) <==>
              forall k :: 0 <= k < |scan| ==> NobodyHeld(s, scan, k) && NotLost(s, scan, InfoAddress(scan[k]))
  {
    hide Agreement, Refreshed, NotLost, NobodyHeld, KeptInScan, InOrder, Complete;
    RefreshCompleteIff(s, scan, gone);
    forall k: nat | k < |scan| ensures LastAt(scan, k) && (KeptInScan(s, scan, k) <==> NobodyHeld(s, scan, k)) {
      KeptIffNobodyHeld(s, scan, k);
    }
  }

  lemma TakesIffHeld(s: State, scan: seq<Info>, k: nat, m: nat)
    requires Agreement(s) && ScanUsesLocations(scan) && Enumeration(scan) && k < m < |scan|
    ensures Takes(ScanAll(s, scan[..m]).registry, scan[m], InfoAddress(scan[k]))
            <==> HeldBefore(s, scan, m, InfoAddress(scan[k]))
  {
    hide Consistent, LocationsArePaths, ScanAll;
    var init, p := scan[..m], scan[m].instancePath;
    ScanRemembers(s, init, p);
    ScanOneIsUpsert(ScanAll(s, init), scan[m]);
    forall info | info in init ensures info.instancePath != p {
      var i :| 0 <= i < m && init[i] == info;
      assert scan[i] == info;
    }
    LastInfoLive(init, p);
  }

  /**
   Two enumerations lose a device: first only `b` is there, at address 5; then `a` is there at address 5
   and `b` at 6. Moving `b` drops the entry that `a` has just got.
   */
  lemma AddressIndexIncomplete()
    ensures var b := Info("b", "b", 1, 2, 3, 3, Usb, 1, 5);
            var a := b.(instancePath := "a", usbLocation := "a");
            var first, second := [b], [a, b.(address := 6)];
            var s := Refreshed(INITIAL, first, []);
            var r := Refreshed(s, second, []).registry;
            && Enumeration(first) && Enumeration(second) && InOrder(INITIAL, first, []) && InOrder(s, second, [])
            && "a" in r.byPath && r.byPath["a"].online && !Found(r, "a") && !Complete(r)
  {
    hide Consistent, LocationsArePaths, Refreshed, Found, KeptInScan, Takes, ScanAll;
    var b := Info("b", "b", 1, 2, 3, 3, Usb, 1, 5);
    var a := b.(instancePath := "a", usbLocation := "a");
    assert "a" != "b" by { assert "a"[0] != "b"[0]; }
    var second := [a, b.(address := 6)];
    var s := Refreshed(INITIAL, [b], []);
    FreshScan(b);
    assert InOrder(s, second, []) by { NobodyMissing(s, second); }
    RefreshFoundIff(s, second, [], 0);
    assert Enumeration(second);
    TakesIffHeld(s, second, 0, 1);
    assert HeldBefore(s, second, 1, InfoAddress(second[0]));
    assert Takes(ScanAll(s, second[..1]).registry, second[1], InfoAddress(second[0]));
    assert !KeptInScan(s, second, 0) by { NotKept(s, second, 0, 1); }
  }

  lemma NotKept(s: State, scan: seq<Info>, k: nat, m: nat)
    requires k < m < |scan| && Takes(ScanAll(s, scan[..m]).registry, scan[m], InfoAddress(scan[k]))
    ensures !KeptInScan(s, scan, k)
  {
  }

  lemma NobodyMissing(s: State, scan: seq<Info>)
    requires Agreement(s) && ScanUsesLocations(scan) && Missing(s.registry, LivePaths(scan)) == {}
    ensures InOrder(s, scan, [])
  {
    hide Consistent, LocationsArePaths, ScanAll;
    MissingAsBefore(s, scan);
  }
}
