/** The client's view of the device list: an ordered listing folded from the changes it is sent. */
module DeviceListView {

  // ---- The order of paths ----

  /** Strings compare character by character, a proper prefix first. */
  predicate Leq(a: string, b: string) {
    a == [] || (b != [] && (a[0] < b[0] || (a[0] == b[0] && Leq(a[1..], b[1..]))))
  }

  lemma {:induction false} LeqTotal(a: string, b: string)
    ensures Leq(a, b) || Leq(b, a)
    ensures Leq(a, b) && Leq(b, a) ==> a == b
  {
    if a != [] && b != [] {
      LeqTotal(a[1..], b[1..]);
      assert a == [a[0]] + a[1..] && b == [b[0]] + b[1..];
    }
  }

  lemma {:induction false} LeqTransitive(a: string, b: string, c: string)
    requires Leq(a, b) && Leq(b, c)
    ensures Leq(a, c)
  {
    if a != [] && a[0] == b[0] && b[0] == c[0] {
      LeqTransitive(a[1..], b[1..], c[1..]);
    }
  }

  /** `a` comes before `b` where they differ first. */
  ghost predicate DiffersBelow(a: string, b: string) {
    exists i :: 0 <= i < |a| && i < |b| && a[..i] == b[..i] && a[i] < b[i]
  }

  lemma {:induction false} LeqMeaning(a: string, b: string)
    ensures Leq(a, b) <==> a <= b || DiffersBelow(a, b)
  {
    if a != [] && b != [] {
      if a[0] == b[0] {
        LeqMeaning(a[1..], b[1..]);
        SameHead(a, b);
        SameHeadDiffers(a, b);
      } else {
        OtherHead(a, b);
      }
    }
  }

  lemma OtherHead(a: string, b: string)
    requires a != [] && b != [] && a[0] != b[0]
    ensures !(a <= b) && (DiffersBelow(a, b) <==> a[0] < b[0])
  {
    if a[0] < b[0] {
      assert a[..0] == b[..0];
    } else {
      forall i | 0 < i < |a| && i < |b| ensures a[..i] != b[..i] {
        assert a[..i][0] == a[0] && b[..i][0] == b[0];
      }
    }
  }

  lemma SameHead(a: string, b: string)
    requires a != [] && b != [] && a[0] == b[0]
    ensures a[1..] <= b[1..] <==> a <= b
  {
    if a[1..] <= b[1..] {
      assert forall i :: 1 <= i < |a| ==> a[i] == a[1..][i - 1] && b[i] == b[1..][i - 1];
    }
  }

  lemma SameHeadDiffers(a: string, b: string)
    requires a != [] && b != [] && a[0] == b[0]
    ensures DiffersBelow(a[1..], b[1..]) <==> DiffersBelow(a, b)
  {
    if DiffersBelow(a, b) {
      var i :| 0 <= i < |a| && i < |b| && a[..i] == b[..i] && a[i] < b[i];
      assert a[1..][..i - 1] == a[..i][1..] && b[1..][..i - 1] == b[..i][1..];
    } else {
      DiffersBehindHead(a, b);
    }
  }

  lemma DiffersBehindHead(a: string, b: string)
    requires a != [] && b != [] && a[0] == b[0] && !DiffersBelow(a, b)
    ensures !DiffersBelow(a[1..], b[1..])
  {
    forall i | 0 <= i < |a| - 1 && i < |b| - 1 && a[1..][..i] == b[1..][..i] ensures !(a[1..][i] < b[1..][i]) {
      assert a[..i + 1] == [a[0]] + a[1..][..i] && b[..i + 1] == [b[0]] + b[1..][..i];
    }
  }

  ghost predicate IsLeast(p: string, keys: set<string>) {
    p in keys && forall q :: q in keys ==> Leq(p, q)
  }

  lemma {:induction false} LeastExists(keys: set<string>)
    requires keys != {}
    ensures exists p :: IsLeast(p, keys)
    decreases |keys|
  {
    var p :| p in keys;
    if keys == {p} {
      LeqTotal(p, p);
      assert IsLeast(p, keys);
    } else {
      LeastExists(keys - {p});
      var q :| IsLeast(q, keys - {p});
      LeqTotal(p, q);
      LeqTotal(p, p);
      if Leq(p, q) {
        forall r | r in keys - {p} ensures Leq(p, r) {
          LeqTransitive(p, q, r);
        }
        assert IsLeast(p, keys);
      } else {
        assert IsLeast(q, keys);
      }
    }
  }

  ghost predicate Ordered<T>(s: seq<T>, key: T -> string) {
    forall i, j :: 0 <= i < j < |s| ==> Leq(key(s[i]), key(s[j]))
  }

  /** Puts `x` behind everything that is not above it. */
  method InsertByKey<T(==)>(s: seq<T>, x: T, key: T -> string) returns (out: seq<T>)
    requires Ordered(s, key)
    ensures Ordered(out, key) && multiset(out) == multiset(s) + multiset{x}
  {
    hide Leq;
    var i := |s|;
    while i > 0 && !Leq(key(s[i - 1]), key(x))
      invariant 0 <= i <= |s|
      invariant forall j :: i <= j < |s| ==> Leq(key(x), key(s[j]))
    {
      LeqTotal(key(x), key(s[i - 1]));
      i := i - 1;
    }
    out := s[..i] + [x] + s[i..];
    InsertedInOrder(s, x, i, key);
  }

  lemma InsertedInOrder<T>(s: seq<T>, x: T, i: nat, key: T -> string)
    requires Ordered(s, key) && i <= |s| && (i > 0 ==> Leq(key(s[i - 1]), key(x)))
    requires forall j :: i <= j < |s| ==> Leq(key(x), key(s[j]))
    ensures var out := s[..i] + [x] + s[i..];
            Ordered(out, key) && multiset(out) == multiset(s) + multiset{x}
  {
    hide Leq;
    forall j | 0 <= j < i ensures Leq(key(s[j]), key(x)) {
      if j < i - 1 {
        LeqTransitive(key(s[j]), key(s[i - 1]), key(x));
      }
    }
    OrderedAround(s, x, i, key);
    assert multiset(s[..i] + [x] + s[i..]) == multiset(s) + multiset{x} by {
      hide Ordered;
      assert s == s[..i] + s[i..];
    }
  }

  lemma OrderedAround<T>(s: seq<T>, x: T, i: nat, key: T -> string)
    requires Ordered(s, key) && i <= |s|
    requires forall j :: 0 <= j < i ==> Leq(key(s[j]), key(x))
    requires forall j :: i <= j < |s| ==> Leq(key(x), key(s[j]))
    ensures Ordered(s[..i] + [x] + s[i..], key)
  {
    hide Leq;
    var out := s[..i] + [x] + s[i..];
    forall m, n | 0 <= m < n < |out| ensures Leq(key(out[m]), key(out[n])) {
      var a, b := if m < i then m else m - 1, if n < i then n else n - 1;
      assert m != i ==> out[m] == s[a];
      assert n != i ==> out[n] == s[b];
    }
  }

  method SortByKey<T(==)>(s: seq<T>, key: T -> string) returns (sorted: seq<T>)
    ensures Ordered(sorted, key) && multiset(sorted) == multiset(s)
  {
    sorted := [];
    for i := 0 to |s|
      invariant Ordered(sorted, key) && multiset(sorted) == multiset(s[..i])
    {
      assert s[..i + 1] == s[..i] + [s[i]];
      sorted := InsertByKey(sorted, s[i], key);
    }
    assert s[..|s|] == s;
  }

  // ---- Entries and listings ----

  datatype Device = Device(
    is24: bool, path: string, id: int, battery: nat, isOnline: bool, vid: nat, pid: nat, usbLocation: string,
    canonicalPid: nat, connectionMode: string)

  /** One list entry; only a keyboard has a path. */
  datatype DjDev = Dev(device: Device) | DangleCommon | NoDevice

  datatype ChangeType = Init | Add | Remove | Change | Unspecified

  datatype DeviceList = DeviceList(devList: seq<DjDev>, change: ChangeType)

  type View = map<string, DjDev>

  /** The entries with a path, a later entry replacing an earlier one. */
  function ViewOf(list: seq<DjDev>): (v: View)
    ensures Keyed(v)
  {
    if list == [] then map[]
    else
      var v, last := ViewOf(list[..|list| - 1]), list[|list| - 1];
      if last.Dev? then v[last.device.path := last] else v
  }

  ghost predicate Keyed(v: View) {
    forall p :: p in v ==> v[p].Dev? && v[p].device.path == p
  }

  /** The entries of a view, by ascending path. */
  ghost function Listing(v: View): (list: seq<DjDev>)
    ensures |list| == |v.Keys|
    decreases |v.Keys|
  {
    if v == map[] then []
    else
      LeastExists(v.Keys);
      var p :| IsLeast(p, v.Keys);
      assert (v - {p}).Keys == v.Keys - {p};
      [v[p]] + Listing(v - {p})
  }

  ghost predicate HasAll(v: View, entries: seq<DjDev>) {
    forall p :: p in v ==> v[p] in entries
  }

  /** A listing starts with the entry of the least path and goes on with the others. */
  lemma ListingStep(v: View) returns (p: string)
    requires v != map[]
    ensures p in v && IsLeast(p, v.Keys)
    ensures Listing(v) == [v[p]] + Listing(v - {p})
    ensures (v - {p}).Keys == v.Keys - {p} && |(v - {p}).Keys| == |v.Keys| - 1
    ensures Keyed(v) ==> Keyed(v - {p})
  {
    LeastExists(v.Keys);
    p :| IsLeast(p, v.Keys) && Listing(v) == [v[p]] + Listing(v - {p});
    assert (v - {p}).Keys == v.Keys - {p};
  }

  lemma LeastUnique(p: string, q: string, keys: set<string>)
    requires IsLeast(p, keys) && IsLeast(q, keys)
    ensures p == q
  {
    LeqTotal(p, q);
  }

  function PathOf(entry: DjDev): string {
    if entry.Dev? then entry.device.path else ""
  }

  /** A listing is the view and nothing else: the only ordered list of exactly its entries. */
  lemma {:induction false} ListingUnique(v: View, list: seq<DjDev>)
    requires Keyed(v) && Ordered(list, PathOf) && |list| == |v.Keys| && HasAll(v, list)
    ensures list == Listing(v)
    decreases |list|
  {
    hide Leq, Listing, IsLeast, Ordered, HasAll, Keyed;
    if v == map[] {
      assert Listing(v) == [] by { assert |Listing(v)| == 0; }
    } else {
      var p := ListingStep(v);
      assert list[0] == v[p] by {
        EveryEntryOnce(v, list);
        HeadIsLeast(v, list, p);
      }
      OthersInTail(v, list, p);
      ListingUnique(v - {p}, list[1..]);
      assert list == [list[0]] + list[1..];
    }
  }

  lemma HeadIsLeast(v: View, list: seq<DjDev>, p: string)
    requires Keyed(v) && Ordered(list, PathOf) && IsLeast(p, v.Keys) && HasAll(v, list)
    requires forall entry :: entry in list ==> entry.Dev? && entry.device.path in v && v[entry.device.path] == entry
    ensures list[0] == v[p]
  {
    hide Leq;
    assert list[0] in list;
    var k :| 0 <= k < |list| && list[k] == v[p];
    LeqTotal(PathOf(list[0]), p);
  }

  lemma OthersInTail(v: View, list: seq<DjDev>, p: string)
    requires Keyed(v) && p in v && list != [] && list[0] == v[p] && HasAll(v, list)
    requires Ordered(list, PathOf)
    ensures HasAll(v - {p}, list[1..])
    ensures Ordered(list[1..], PathOf)
  {
  }

  /** With as many places as entries, a list that has every entry has no other. */
  lemma {:induction false} EveryEntryOnce(v: View, list: seq<DjDev>)
    requires Keyed(v) && |list| <= |v.Keys| && HasAll(v, list)
    ensures forall entry :: entry in list ==> entry.Dev? && entry.device.path in v && v[entry.device.path] == entry
    decreases |list|
  {
    if list != [] {
      var last, rest := list[|list| - 1], list[..|list| - 1];
      assert list == rest + [last];
      if last.Dev? && last.device.path in v && v[last.device.path] == last {
        var p := last.device.path;
        assert (v - {p}).Keys == v.Keys - {p};
        EveryEntryOnce(v - {p}, rest);
      } else {
        TooFewPlaces(v, rest);
      }
    }
  }

  lemma {:induction false} TooFewPlaces(v: View, list: seq<DjDev>)
    requires Keyed(v) && HasAll(v, list)
    ensures |list| >= |v.Keys|
    decreases |list|
  {
    if list != [] {
      var last, rest := list[|list| - 1], list[..|list| - 1];
      assert list == rest + [last];
      var w := v - {PathOf(last)};
      assert w.Keys == v.Keys - {PathOf(last)};
      TooFewPlaces(w, rest);
    }
  }

  // ---- Folding changes ----

  function Paths(list: seq<DjDev>): set<string> {
    ViewOf(list).Keys
  }

  function Retained(list: seq<DjDev>, removed: set<string>): seq<DjDev> {
    if list == [] then []
    else
      var last := list[|list| - 1];
      Retained(list[..|list| - 1], removed) + if last.Dev? && last.device.path in removed then [] else [last]
  }

  ghost function Merged(list: seq<DjDev>, update: DeviceList): seq<DjDev> {
    match update.change
    case Init => update.devList
    case Add => Listing(ViewOf(list) + ViewOf(update.devList))
    case Change => Listing(ViewOf(list) + ViewOf(update.devList))
    case Remove => Retained(list, Paths(update.devList))
    case Unspecified => list
  }

  ghost function Folded(list: seq<DjDev>, updates: seq<DeviceList>): seq<DjDev> {
    if updates == [] then list
    else Merged(Folded(list, updates[..|updates| - 1]), updates[|updates| - 1])
  }

  class Snapshot {
    var devList: seq<DjDev>

    constructor ()
      ensures devList == []
    {
      devList := [];
    }

    method MergeDeviceListUpdate(update: DeviceList)
      modifies this
      ensures devList == Merged(old(devList), update)
    {
      match update.change {
        case Init => devList := update.devList;
        case Add => MergeByPath(update.devList);
        case Change => MergeByPath(update.devList);
        case Remove =>
          var removed := CollectPaths(update.devList);
          var kept := [];
          for i := 0 to |devList|
            invariant kept == Retained(devList[..i], removed)
          {
            var entry := devList[i];
            assert devList[..i + 1][..i] == devList[..i];
            if !(entry.Dev? && entry.device.path in removed) {
              kept := kept + [entry];
            }
          }
          assert devList[..|devList|] == devList;
          devList := kept;
        case Unspecified =>
      }
    }

    method MergeByPath(entries: seq<DjDev>)
      modifies this
      ensures devList == Listing(ViewOf(old(devList)) + ViewOf(entries))
    {
      hide Leq, Listing, Ordered, ViewOf, HasAll, Keyed;
      assert Keyed(ViewOf(devList));
      var byPath := InsertAll(map[], devList);
      assert byPath == ViewOf(devList);
      byPath := InsertAll(byPath, entries);
      var merged := Values(byPath);
      var sorted := SortByKey(merged, PathOf);
      ListingOf(byPath, merged, sorted);
      devList := sorted;
    }
  }

  /** The entries of a view, in no particular order. */
  method Values(v: View) returns (entries: seq<DjDev>)
    ensures |entries| == |v.Keys| && HasAll(v, entries)
  {
    entries := [];
    var left := v.Keys;
    while left != {}
      invariant left <= v.Keys && |entries| + |left| == |v.Keys|
      invariant forall p :: p in v.Keys - left ==> v[p] in entries
      decreases left
    {
      var p :| p in left;
      entries, left := entries + [v[p]], left - {p};
    }
  }

  lemma ListingOf(v: View, entries: seq<DjDev>, sorted: seq<DjDev>)
    requires Keyed(v) && |entries| == |v.Keys| && Ordered(sorted, PathOf) && multiset(sorted) == multiset(entries)
    requires HasAll(v, entries)
    ensures sorted == Listing(v)
  {
    assert |sorted| == |multiset(sorted)| == |multiset(entries)| == |entries|;
    forall p | p in v ensures v[p] in sorted {
      assert v[p] in multiset(entries);
    }
    ListingUnique(v, sorted);
  }

  method InsertAll(start: View, entries: seq<DjDev>) returns (v: View)
    requires Keyed(start)
    ensures v == start + ViewOf(entries) && Keyed(v)
  {
    v := start;
    for i := 0 to |entries|
      invariant v == start + ViewOf(entries[..i])
    {
      assert entries[..i + 1][..i] == entries[..i];
      if entries[i].Dev? {
        v := v[entries[i].device.path := entries[i]];
      }
    }
    assert entries[..|entries|] == entries;
  }

  method CollectPaths(entries: seq<DjDev>) returns (paths: set<string>)
    ensures paths == Paths(entries)
  {
    paths := {};
    for i := 0 to |entries|
      invariant paths == Paths(entries[..i])
    {
      assert entries[..i + 1][..i] == entries[..i];
      if entries[i].Dev? {
        paths := paths + {entries[i].device.path};
      }
    }
    assert entries[..|entries|] == entries;
  }

  // ---- Listings and views ----

  /** Reading a listing back gives the view it was made from. */
  lemma {:induction false} ViewOfListing(v: View)
    requires Keyed(v)
    ensures ViewOf(Listing(v)) == v
    decreases |v.Keys|
  {
    hide Leq, Listing, IsLeast, ViewOf;
    if v != map[] {
      var p := ListingStep(v);
      ViewOfListing(v - {p});
      ViewOfConcat([v[p]], Listing(v - {p}));
      ViewOfOne(v[p]);
      assert v == map[p := v[p]] + (v - {p});
    } else {
      assert Listing(v) == [] by { assert |Listing(v)| == 0; }
      ViewOfNone();
    }
  }

  lemma ViewOfNone()
    ensures ViewOf([]) == map[]
  {
  }

  lemma ViewOfOne(entry: DjDev)
    requires entry.Dev?
    ensures ViewOf([entry]) == map[entry.device.path := entry]
  {
  }

  lemma {:induction false} ViewOfConcat(a: seq<DjDev>, b: seq<DjDev>)
    ensures ViewOf(a + b) == ViewOf(a) + ViewOf(b)
  {
    if b == [] {
      assert a + b == a;
    } else {
      var n := |b| - 1;
      assert (a + b)[..|a| + n] == a + b[..n];
      ViewOfConcat(a, b[..n]);
    }
  }

  /** Exactly the entries of the view, each once. */
  ghost predicate Shape(v: View, list: seq<DjDev>) {
    && (forall entry :: entry in list <==> entry.Dev? && entry.device.path in v && v[entry.device.path] == entry)
    && (forall i, j :: 0 <= i < j < |list| ==> PathOf(list[i]) != PathOf(list[j]))
  }

  /** A listing has exactly the entries of its view, each once, by ascending path. */
  lemma {:induction false} ListingShape(v: View)
    requires Keyed(v)
    ensures Shape(v, Listing(v)) && Ordered(Listing(v), PathOf)
    decreases |v.Keys|
  {
    hide Leq, Listing, IsLeast, Ordered;
    if v != map[] {
      var p := ListingStep(v);
      ListingShape(v - {p});
      HeadInShape(v, p, Listing(v - {p}));
    } else {
      NothingListed(v);
    }
  }

  lemma HeadInShape(v: View, p: string, rest: seq<DjDev>)
    requires Keyed(v) && p in v && IsLeast(p, v.Keys) && Shape(v - {p}, rest) && Ordered(rest, PathOf)
    ensures Shape(v, [v[p]] + rest) && Ordered([v[p]] + rest, PathOf)
  {
    hide Leq;
    assert forall i :: 0 <= i < |rest| ==> rest[i] in rest;
  }

  lemma NothingListed(v: View)
    requires v == map[]
    ensures Listing(v) == [] && Ordered(Listing(v), PathOf)
  {
    assert |Listing(v)| == 0;
  }

  lemma {:induction false} RetainedAfterHead(entry: DjDev, list: seq<DjDev>, removed: set<string>)
    ensures Retained([entry] + list, removed) ==
              (if entry.Dev? && entry.device.path in removed then [] else [entry]) + Retained(list, removed)
  {
    if list != [] {
      var init := list[..|list| - 1];
      RetainedAfterHead(entry, init, removed);
      assert ([entry] + list)[..|list|] == [entry] + init;
    }
  }

  /** Removing paths from a listing lists the view without them. */
  lemma {:induction false} RemovedFromListing(v: View, removed: set<string>)
    requires Keyed(v)
    ensures Retained(Listing(v), removed) == Listing(v - removed)
    decreases |v.Keys|
  {
    hide Listing, Leq, Retained, IsLeast;
    if v == map[] {
      NothingListed(v);
      assert Retained([], removed) == [] && v - removed == v by { RetainedNone(v, removed); }
    } else {
      var p := ListingStep(v);
      var rest := v - {p};
      RemovedFromListing(rest, removed);
      RetainedAfterHead(v[p], Listing(rest), removed);
      ListingWithout(v, p, removed);
    }
  }

  lemma ListingWithout(v: View, p: string, removed: set<string>)
    requires p in v && IsLeast(p, v.Keys)
    ensures Listing(v - removed) == (if p in removed then [] else [v[p]]) + Listing(v - {p} - removed)
  {
    hide Listing, Leq;
    var rest, w := v - {p} - removed, v - removed;
    if p in removed {
      assert w == rest;
    } else {
      assert p in w;
      var q := ListingStep(w);
      LeastUnique(p, q, w.Keys);
      assert w - {p} == rest;
    }
  }

  lemma RetainedNone(v: View, removed: set<string>)
    requires v == map[]
    ensures Retained([], removed) == [] && v - removed == v
  {
  }

  /** An initial list replaces whatever the client showed, a removal drops the named paths, and no other change does. */
  lemma MergeKinds(v: View, update: DeviceList)
    requires Keyed(v)
    ensures update.change == Init ==> Merged(Listing(v), update) == update.devList
    ensures update.change == Remove ==> Merged(Listing(v), update) == Listing(v - ViewOf(update.devList).Keys)
    ensures update.change in {Add, Change} ==> Merged(Listing(v), update) == Listing(v + ViewOf(update.devList))
    ensures update.change == Unspecified ==> Merged(Listing(v), update) == Listing(v)
  {
    hide Listing, ViewOf, Retained;
    ViewOfListing(v);
    RemovedFromListing(v, Paths(update.devList));
  }

  /** What a client can act on. */
  datatype Summary = Summary(path: string, pid: nat, isOnline: bool)

  function Summarize(entry: DjDev): Summary {
    if entry.Dev? then Summary(entry.device.path, entry.device.pid, entry.device.isOnline) else Summary("", 0, false)
  }

  function Summaries(list: seq<DjDev>): seq<Summary> {
    seq(|list|, i requires 0 <= i < |list| => Summarize(list[i]))
  }

  ghost predicate Alike(v: View, w: View) {
    v.Keys == w.Keys && forall p :: p in v ==> Summarize(v[p]) == Summarize(w[p])
  }

  /** Views that agree in what a client can act on are listed alike. */
  lemma {:induction false} AlikeListings(v: View, w: View)
    requires Keyed(v) && Keyed(w) && Alike(v, w)
    ensures Summaries(Listing(v)) == Summaries(Listing(w))
    decreases |v.Keys|
  {
    hide Leq, Listing, IsLeast;
    if v != map[] {
      var p := ListingStep(v);
      assert p in w;
      var q := ListingStep(w);
      LeastUnique(p, q, v.Keys);
      AlikeListings(v - {p}, w - {p});
      assert Summaries(Listing(v)) == [Summarize(v[p])] + Summaries(Listing(v - {p}));
      assert Summaries(Listing(w)) == [Summarize(w[p])] + Summaries(Listing(w - {p}));
    } else {
      assert w == map[];
    }
  }
}
