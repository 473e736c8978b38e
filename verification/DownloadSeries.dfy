// Download metrics: each asset's cumulative counter, seen once a day at best, is turned into
// daily deltas, and a delta that cannot be known is left out instead of guessed.
module DownloadSeries {
  import opened Options

  datatype Id = NumberId(n: int) | TextId(s: string)

  datatype Asset = Asset(tag: string, asset: string, cumulative: int, id: Option<Id>)

  // Days are whole UTC days, counted from any fixed one.
  datatype Snapshot = Snapshot(day: int, github: seq<Asset>)

  datatype Point = Point(day: int, value: int)

  datatype Delta = Delta(day: int, value: Option<int>)

  datatype AssetSeries = AssetSeries(tag: string, asset: string, cumulative: seq<Point>, delta: seq<Delta>)

  // The record of series, with its keys in the order they were first written.
  datatype BuiltSeries = BuiltSeries(days: seq<int>, keys: seq<string>, series: map<string, AssetSeries>)

  // One observation of one asset's counter.
  datatype Seen = Seen(day: int, value: int, id: Option<Id>)

  datatype Sighting = Sighting(key: string, tag: string, asset: string, seen: Seen)

  function SeriesKey(a: Asset): string {
    a.tag + " \U{00B7} " + a.asset
  }

  // Two assets share a key only if the tag of one holds the separator's dot; and then they can.
  lemma KeysTellApart(a: Asset, b: Asset)
    requires '\U{00B7}' !in a.tag && '\U{00B7}' !in b.tag
    ensures SeriesKey(a) == SeriesKey(b) <==> a.tag == b.tag && a.asset == b.asset
  {
    if SeriesKey(a) == SeriesKey(b) {
      if |a.tag| < |b.tag| {
        DotInside(a, b);
      } else if |b.tag| < |a.tag| {
        DotInside(b, a);
      } else {
        var k := SeriesKey(a);
        assert a.tag == k[..|a.tag|] == b.tag;
        assert a.asset == k[|a.tag| + 3..] == b.asset;
      }
    }
  }

  // Under a shared key the longer tag goes on into the other's separator, whose dot it holds
  // unless it is longer by one, and then the dots themselves would have to be a space.
  lemma DotInside(a: Asset, b: Asset)
    requires SeriesKey(a) == SeriesKey(b) && |a.tag| < |b.tag|
    ensures '\U{00B7}' in b.tag
  {
    var k := SeriesKey(a);
    assert k[|a.tag| + 1] == '\U{00B7}';
    assert k[|b.tag|] == ' ';
    if |b.tag| == |a.tag| + 1 {
      assert false;
    } else {
      assert b.tag[|a.tag| + 1] == k[|a.tag| + 1];
    }
  }

  lemma KeysCanCollide()
    ensures SeriesKey(Asset("v1 \U{00B7} x", "y", 0, None)) == SeriesKey(Asset("v1", "x \U{00B7} y", 0, None))
  {}

  // ----- the snapshots in order -----

  function Insert(snaps: seq<Snapshot>, s: Snapshot): (r: seq<Snapshot>)
    ensures multiset(r) == multiset(snaps) + multiset{s} && |r| == |snaps| + 1
  {
    if snaps == [] || snaps[|snaps| - 1].day <= s.day then snaps + [s]
    else
      assert snaps == snaps[..|snaps| - 1] + [snaps[|snaps| - 1]];
      Insert(snaps[..|snaps| - 1], s) + [snaps[|snaps| - 1]]
  }

  // By day; snapshots of one day keep the order they came in.
  function Ordered(snaps: seq<Snapshot>): (r: seq<Snapshot>)
    ensures multiset(r) == multiset(snaps) && |r| == |snaps|
  {
    if snaps == [] then []
    else
      assert snaps == snaps[..|snaps| - 1] + [snaps[|snaps| - 1]];
      Insert(Ordered(snaps[..|snaps| - 1]), snaps[|snaps| - 1])
  }

  ghost predicate DistinctDays(snaps: seq<Snapshot>) {
    forall i, j | 0 <= i < j < |snaps| :: snaps[i].day != snaps[j].day
  }

  ghost predicate DaysIncrease(snaps: seq<Snapshot>) {
    forall i, j | 0 <= i < j < |snaps| :: snaps[i].day < snaps[j].day
  }

  lemma PushLater(snaps: seq<Snapshot>, s: Snapshot)
    requires DaysIncrease(snaps) && forall x | x in snaps :: x.day < s.day
    ensures DaysIncrease(snaps + [s])
  {
    assert forall i | 0 <= i < |snaps| :: snaps[i] in snaps;
  }

  lemma {:induction false} InsertKeepsOrder(snaps: seq<Snapshot>, s: Snapshot)
    requires DaysIncrease(snaps) && forall x | x in snaps :: x.day != s.day
    ensures DaysIncrease(Insert(snaps, s))
  {
    if snaps != [] {
      var front, last := snaps[..|snaps| - 1], snaps[|snaps| - 1];
      assert last in snaps && forall x | x in front :: x in snaps;
      LastIsLatest(snaps);
      if last.day > s.day {
        InsertKeepsOrder(front, s);
        assert Insert(snaps, s) == Insert(front, s) + [last];
        hide Insert;
        hide DaysIncrease;
        forall x | x in Insert(front, s) ensures x.day < last.day {
          assert x in multiset(front) + multiset{s};
        }
        PushLater(Insert(front, s), last);
      } else {
        assert Insert(snaps, s) == snaps + [s];
        hide Insert;
        hide DaysIncrease;
        PushLater(snaps, s);
      }
    }
  }

  lemma LastIsLatest(snaps: seq<Snapshot>)
    requires DaysIncrease(snaps) && snaps != []
    ensures DaysIncrease(snaps[..|snaps| - 1])
    ensures forall x | x in snaps[..|snaps| - 1] :: x.day < snaps[|snaps| - 1].day
    ensures forall x | x in snaps :: x.day <= snaps[|snaps| - 1].day
  {}

  lemma {:induction false} OrderedByDay(snaps: seq<Snapshot>)
    requires DistinctDays(snaps)
    ensures DaysIncrease(Ordered(snaps))
  {
    if snaps != [] {
      var front, last := snaps[..|snaps| - 1], snaps[|snaps| - 1];
      OrderedByDay(front);
      forall x | x in Ordered(front) ensures x.day != last.day {
        assert x in multiset(front);
      }
      InsertKeepsOrder(Ordered(front), last);
    }
  }

  function Days(snaps: seq<Snapshot>): seq<int> {
    seq(|snaps|, i requires 0 <= i < |snaps| => snaps[i].day)
  }

  // ----- what was seen -----

  function SightingOf(day: int, a: Asset): Sighting {
    Sighting(SeriesKey(a), a.tag, a.asset, Seen(day, a.cumulative, a.id))
  }

  // The sightings of a snapshot's first n assets.
  function InSnapshot(snap: Snapshot, n: nat): (r: seq<Sighting>)
    requires n <= |snap.github|
  {
    if n == 0 then [] else InSnapshot(snap, n - 1) + [SightingOf(snap.day, snap.github[n - 1])]
  }

  // All sightings of the first n snapshots.
  function Sightings(snaps: seq<Snapshot>, n: nat): seq<Sighting>
    requires n <= |snaps|
  {
    if n == 0 then [] else Sightings(snaps, n - 1) + InSnapshot(snaps[n - 1], |snaps[n - 1].github|)
  }

  // What was seen of one asset, in order.
  function SeenOf(ss: seq<Sighting>, k: string): seq<Seen> {
    if ss == [] then []
    else
      var x := ss[|ss| - 1];
      SeenOf(ss[..|ss| - 1], k) + if x.key == k then [x.seen] else []
  }

  lemma SeenOfPush(ss: seq<Sighting>, x: Sighting, k: string)
    ensures SeenOf(ss + [x], k) == SeenOf(ss, k) + if x.key == k then [x.seen] else []
  {
    assert (ss + [x])[..|ss|] == ss;
  }

  lemma {:induction false} SeenOfConcat(ss: seq<Sighting>, ts: seq<Sighting>, k: string)
    ensures SeenOf(ss + ts, k) == SeenOf(ss, k) + SeenOf(ts, k)
  {
    if ts == [] {
      assert ss + ts == ss;
    } else {
      var front, x := ts[..|ts| - 1], ts[|ts| - 1];
      SeenOfConcat(ss, front, k);
      assert ss + ts == (ss + front) + [x];
      SeenOfPush(ss + front, x, k);
    }
  }

  function KeysOf(ss: seq<Sighting>): seq<string> {
    if ss == [] then []
    else
      var keys := KeysOf(ss[..|ss| - 1]);
      if ss[|ss| - 1].key in keys then keys else keys + [ss[|ss| - 1].key]
  }

  lemma KeysOfPush(ss: seq<Sighting>, x: Sighting)
    ensures KeysOf(ss + [x]) == if x.key in KeysOf(ss) then KeysOf(ss) else KeysOf(ss) + [x.key]
  {
    assert (ss + [x])[..|ss|] == ss;
  }

  lemma {:induction false} KeysAreDistinct(ss: seq<Sighting>)
    ensures forall i, j | 0 <= i < j < |KeysOf(ss)| :: KeysOf(ss)[i] != KeysOf(ss)[j]
    ensures forall k :: k in KeysOf(ss) <==> SeenOf(ss, k) != []
  {
    if ss != [] {
      KeysAreDistinct(ss[..|ss| - 1]);
    }
  }

  // The first sighting under a key, which names its series.
  function FirstOf(ss: seq<Sighting>, k: string): Option<Sighting> {
    if ss == [] then None
    else
      var x := ss[|ss| - 1];
      var first := FirstOf(ss[..|ss| - 1], k);
      if first.None? && x.key == k then Some(x) else first
  }

  lemma FirstOfPush(ss: seq<Sighting>, x: Sighting, k: string)
    ensures FirstOf(ss + [x], k) ==
            if FirstOf(ss, k).None? && x.key == k then Some(x) else FirstOf(ss, k)
  {
    assert (ss + [x])[..|ss|] == ss;
  }

  // ----- deltas -----

  // Known only between consecutive days, for one counter, that did not go down.
  function Change(prior: Seen, now: Seen): Option<int> {
    if now.day - prior.day != 1 then None
    else if prior.id.Some? && now.id.Some? && prior.id != now.id then None
    else if now.value < prior.value then None
    else Some(now.value - prior.value)
  }

  function DeltaAt(seen: seq<Seen>, i: nat): Option<int>
    requires i < |seen|
  {
    if i == 0 then None else Change(seen[i - 1], seen[i])
  }

  ghost predicate IsSeriesOf(s: AssetSeries, seen: seq<Seen>) {
    && |s.cumulative| == |seen| && |s.delta| == |seen|
    && (forall i | 0 <= i < |seen| :: s.cumulative[i] == Point(seen[i].day, seen[i].value))
    && (forall i | 0 <= i < |seen| :: s.delta[i] == Delta(seen[i].day, DeltaAt(seen, i)))
  }

  function SumDeltas(seen: seq<Seen>, i: nat, j: nat): int
    requires i <= j < |seen|
    requires forall m | i < m <= j :: DeltaAt(seen, m).Some?
  {
    if i == j then 0 else SumDeltas(seen, i, j - 1) + DeltaAt(seen, j).value
  }

  // Over any run of known deltas they add up to what the counter gained, one day each.
  lemma {:induction false} DeltasTelescope(seen: seq<Seen>, i: nat, j: nat)
    requires i <= j < |seen|
    requires forall m | i < m <= j :: DeltaAt(seen, m).Some?
    ensures SumDeltas(seen, i, j) == seen[j].value - seen[i].value >= 0
    ensures seen[j].day - seen[i].day == j - i
  {
    if i < j {
      DeltasTelescope(seen, i, j - 1);
      assert DeltaAt(seen, j).Some?;
    }
  }

  // ----- building -----

  ghost predicate BuiltFrom(series: map<string, AssetSeries>, last: map<string, Seen>, ss: seq<Sighting>) {
    forall k :: KeyBuilt(series, last, SeenOf(ss, k), k)
  }

  ghost predicate KeyBuilt(series: map<string, AssetSeries>, last: map<string, Seen>, seen: seq<Seen>, k: string) {
    && (k in series <==> seen != [])
    && (k in last <==> seen != [])
    && (seen != [] ==> IsSeriesOf(series[k], seen) && last[k] == seen[|seen| - 1])
  }

  predicate NamedAs(s: AssetSeries, first: Option<Sighting>) {
    first.Some? && s.tag == first.value.tag && s.asset == first.value.asset
  }

  // Every series carries the tag and the asset name it was first seen with.
  ghost predicate Named(series: map<string, AssetSeries>, ss: seq<Sighting>) {
    forall k :: KeyNamed(series, FirstOf(ss, k), k)
  }

  predicate KeyNamed(series: map<string, AssetSeries>, first: Option<Sighting>, k: string) {
    if k in series then NamedAs(series[k], first) else first.None?
  }

  ghost predicate Builds(built: BuiltSeries, snaps: seq<Snapshot>) {
    var ss := Sightings(snaps, |snaps|);
    && built.days == Days(snaps)
    && built.keys == KeysOf(ss)
    && (forall k :: k in built.series <==> k in built.keys)
    && (forall k | k in built.series :: IsSeriesOf(built.series[k], SeenOf(ss, k)))
    && (forall k | k in built.series :: NamedAs(built.series[k], FirstOf(ss, k)))
  }

  lemma IsSeriesOfPush(s: AssetSeries, seen: seq<Seen>, now: Seen, d: Option<int>)
    requires IsSeriesOf(s, seen)
    requires d == if seen == [] then None else Change(seen[|seen| - 1], now)
    ensures IsSeriesOf(s.(cumulative := s.cumulative + [Point(now.day, now.value)],
                          delta := s.delta + [Delta(now.day, d)]), seen + [now])
  {
    var all := seen + [now];
    var cumulative, delta := s.cumulative + [Point(now.day, now.value)], s.delta + [Delta(now.day, d)];
    forall i | 0 <= i < |all|
      ensures cumulative[i] == Point(all[i].day, all[i].value) && delta[i] == Delta(all[i].day, DeltaAt(all, i))
    {
      if i < |seen| {
        assert all[i] == seen[i] && DeltaAt(all, i) == DeltaAt(seen, i);
        assert cumulative[i] == s.cumulative[i] && delta[i] == s.delta[i];
      }
    }
  }

  lemma KeyStep(series: map<string, AssetSeries>, last: map<string, Seen>, seen: seq<Seen>, x: Sighting,
                after: AssetSeries, k: string)
    requires KeyBuilt(series, last, seen, k)
    requires k == x.key ==> IsSeriesOf(after, seen + [x.seen])
    ensures KeyBuilt(series[x.key := after], last[x.key := x.seen], seen + if x.key == k then [x.seen] else [], k)
  {
    hide IsSeriesOf;
    if k != x.key {
      assert seen + [] == seen;
    }
  }

  // One sighting moves its own series and no other.
  lemma SightingStep(series: map<string, AssetSeries>, last: map<string, Seen>, ss: seq<Sighting>, x: Sighting,
                     after: AssetSeries)
    requires BuiltFrom(series, last, ss)
    requires IsSeriesOf(after, SeenOf(ss, x.key) + [x.seen])
    ensures BuiltFrom(series[x.key := after], last[x.key := x.seen], ss + [x])
  {
    hide IsSeriesOf;
    hide KeyBuilt;
    forall k ensures KeyBuilt(series[x.key := after], last[x.key := x.seen], SeenOf(ss + [x], k), k) {
      SeenOfPush(ss, x, k);
      assert KeyBuilt(series, last, SeenOf(ss, k), k);
      KeyStep(series, last, SeenOf(ss, k), x, after, k);
    }
  }

  // A sighting names a series that is new and leaves every other name.
  lemma NameStep(series: map<string, AssetSeries>, ss: seq<Sighting>, x: Sighting, after: AssetSeries)
    requires Named(series, ss)
    requires x.key in series ==> after.tag == series[x.key].tag && after.asset == series[x.key].asset
    requires x.key !in series ==> after.tag == x.tag && after.asset == x.asset
    ensures Named(series[x.key := after], ss + [x])
  {
    hide FirstOf;
    forall k ensures KeyNamed(series[x.key := after], FirstOf(ss + [x], k), k) {
      FirstOfPush(ss, x, k);
      assert KeyNamed(series, FirstOf(ss, k), k);
    }
  }

  method BuildAssetSeries(snapshots: seq<Snapshot>) returns (built: BuiltSeries)
    ensures Builds(built, Ordered(snapshots))
  {
    hide BuiltFrom;
    hide Named;
    hide KeysOf;
    hide SeenOf;
    hide FirstOf;
    hide IsSeriesOf;
    hide NamedAs;
    var ordered := Ordered(snapshots);
    var keys: seq<string> := [];
    var series: map<string, AssetSeries> := map[];
    var last: map<string, Seen> := map[];
    ghost var ss: seq<Sighting> := [];
    NothingBuilt();
    for i := 0 to |ordered|
      invariant ss == Sightings(ordered, i) && keys == KeysOf(ss)
      invariant BuiltFrom(series, last, ss) && Named(series, ss)
    {
      var snap := ordered[i];
      for j := 0 to |snap.github|
        invariant ss == Sightings(ordered, i) + InSnapshot(snap, j) && keys == KeysOf(ss)
        invariant BuiltFrom(series, last, ss) && Named(series, ss)
      {
        keys, series, last := AddSighting(keys, series, last, snap.day, snap.github[j], ss);
        ss := ss + [SightingOf(snap.day, snap.github[j])];
      }
    }
    built := BuiltSeries(Days(ordered), keys, series);
    AllBuilt(series, last, ss);
  }

  lemma NothingBuilt()
    ensures BuiltFrom(map[], map[], []) && Named(map[], []) && KeysOf([]) == []
  {}

  lemma AllBuilt(series: map<string, AssetSeries>, last: map<string, Seen>, ss: seq<Sighting>)
    requires BuiltFrom(series, last, ss) && Named(series, ss)
    ensures forall k :: k in series <==> k in KeysOf(ss)
    ensures forall k | k in series :: IsSeriesOf(series[k], SeenOf(ss, k)) && NamedAs(series[k], FirstOf(ss, k))
  {
    hide IsSeriesOf;
    hide NamedAs;
    hide KeysOf;
    hide SeenOf;
    hide FirstOf;
    KeysAreDistinct(ss);
    forall k ensures k in series <==> k in KeysOf(ss) {
      assert KeyBuilt(series, last, SeenOf(ss, k), k);
    }
    forall k | k in series ensures IsSeriesOf(series[k], SeenOf(ss, k)) && NamedAs(series[k], FirstOf(ss, k)) {
      assert KeyBuilt(series, last, SeenOf(ss, k), k) && KeyNamed(series, FirstOf(ss, k), k);
    }
  }

  // What is known of an asset before its next sighting.
  function Before(series: map<string, AssetSeries>, x: Sighting): AssetSeries {
    if x.key in series then series[x.key] else AssetSeries(x.tag, x.asset, [], [])
  }

  function NextDelta(last: map<string, Seen>, x: Sighting): Option<int> {
    if x.key in last then Change(last[x.key], x.seen) else None
  }

  function Extended(s: AssetSeries, now: Seen, d: Option<int>): AssetSeries {
    s.(cumulative := s.cumulative + [Point(now.day, now.value)], delta := s.delta + [Delta(now.day, d)])
  }

  lemma SightingKeeps(series: map<string, AssetSeries>, last: map<string, Seen>, ss: seq<Sighting>, x: Sighting)
    requires BuiltFrom(series, last, ss) && Named(series, ss)
    ensures var after := Extended(Before(series, x), x.seen, NextDelta(last, x));
            && BuiltFrom(series[x.key := after], last[x.key := x.seen], ss + [x])
            && Named(series[x.key := after], ss + [x])
    ensures KeysOf(ss + [x]) == if x.key in series then KeysOf(ss) else KeysOf(ss) + [x.key]
  {
    var seen := SeenOf(ss, x.key);
    assert KeyBuilt(series, last, seen, x.key);
    KeysAreDistinct(ss);
    KeysOfPush(ss, x);
    hide SeenOf;
    hide KeysOf;
    hide FirstOf;
    hide BuiltFrom;
    hide Named;
    hide Change;
    assert IsSeriesOf(Before(series, x), seen);
    hide IsSeriesOf;
    IsSeriesOfPush(Before(series, x), seen, x.seen, NextDelta(last, x));
    var after := Extended(Before(series, x), x.seen, NextDelta(last, x));
    SightingStep(series, last, ss, x, after);
    NameStep(series, ss, x, after);
  }

  // The body of the inner loop.
  method AddSighting(keys: seq<string>, series: map<string, AssetSeries>, last: map<string, Seen>,
                     day: int, g: Asset, ghost ss: seq<Sighting>)
      returns (keys': seq<string>, series': map<string, AssetSeries>, last': map<string, Seen>)
    requires BuiltFrom(series, last, ss) && Named(series, ss) && keys == KeysOf(ss)
    ensures BuiltFrom(series', last', ss + [SightingOf(day, g)]) && Named(series', ss + [SightingOf(day, g)])
    ensures keys' == KeysOf(ss + [SightingOf(day, g)])
  {
    hide BuiltFrom;
    hide Named;
    hide KeysOf;
    var k := SeriesKey(g);
    ghost var x := SightingOf(day, g);
    SightingKeeps(series, last, ss, x);
    keys', series' := keys, series;
    if k !in series' {
      keys', series' := keys' + [k], series'[k := AssetSeries(g.tag, g.asset, [], [])];
    }
    assert series'[k] == Before(series, x) && series'[k := Before(series, x)] == series';
    var delta: Option<int>;
    if k !in last || day - last[k].day != 1 {
      delta := None;
    } else if last[k].id.Some? && g.id.Some? && last[k].id != g.id {
      delta := None;
    } else {
      var change := g.cumulative - last[k].value;
      delta := if change < 0 then None else Some(change);
    }
    assert delta == NextDelta(last, x);
    hide SeriesKey;
    hide NextDelta;
    var s := series'[k];
    s := s.(cumulative := s.cumulative + [Point(day, g.cumulative)], delta := s.delta + [Delta(day, delta)]);
    assert s == Extended(Before(series, x), x.seen, delta);
    assert series'[k := s] == series[k := s];
    hide Extended;
    hide Before;
    series', last' := series'[k := s], last[k := Seen(day, g.cumulative, g.id)];
  }

  // ----- what a series is called -----

  lemma {:induction false} FirstIsSeen(ss: seq<Sighting>, k: string)
    requires FirstOf(ss, k).Some?
    ensures FirstOf(ss, k).value in ss && FirstOf(ss, k).value.key == k
  {
    var front, x := ss[..|ss| - 1], ss[|ss| - 1];
    if FirstOf(front, k).Some? {
      FirstIsSeen(front, k);
    }
    assert forall y | y in front :: y in ss;
  }

  lemma {:induction false} SightingInSnapshot(snap: Snapshot, n: nat, x: Sighting) returns (g: Asset)
    requires n <= |snap.github| && x in InSnapshot(snap, n)
    ensures g in snap.github && x == SightingOf(snap.day, g)
  {
    g := snap.github[n - 1];
    if x != SightingOf(snap.day, g) {
      g := SightingInSnapshot(snap, n - 1, x);
    }
  }

  lemma {:induction false} SightingIsReported(snaps: seq<Snapshot>, n: nat, x: Sighting)
      returns (snap: Snapshot, g: Asset)
    requires n <= |snaps| && x in Sightings(snaps, n)
    ensures snap in snaps && g in snap.github && x == SightingOf(snap.day, g)
  {
    snap := snaps[n - 1];
    if x in InSnapshot(snap, |snap.github|) {
      g := SightingInSnapshot(snap, |snap.github|, x);
    } else {
      snap, g := SightingIsReported(snaps, n - 1, x);
    }
  }

  // The tag and the asset name of a series are those of an asset some snapshot reports, and
  // together they are its key.
  lemma NameIsReported(snapshots: seq<Snapshot>, built: BuiltSeries, k: string) returns (snap: Snapshot, g: Asset)
    requires Builds(built, Ordered(snapshots)) && k in built.series
    ensures snap in snapshots && g in snap.github
    ensures built.series[k].tag == g.tag && built.series[k].asset == g.asset && SeriesKey(g) == k
  {
    var ordered := Ordered(snapshots);
    var ss := Sightings(ordered, |ordered|);
    FirstIsSeen(ss, k);
    snap, g := SightingIsReported(ordered, |ordered|, FirstOf(ss, k).value);
    assert snap in multiset(snapshots);
  }

  // ----- what a known delta means -----

  ghost predicate ReportedAmong(snap: Snapshot, n: nat, k: string, x: Seen)
    requires n <= |snap.github|
  {
    exists j :: 0 <= j < n && ReportedAs(snap.day, snap.github[j], k, x)
  }

  ghost predicate ReportedIn(snap: Snapshot, k: string, x: Seen) {
    ReportedAmong(snap, |snap.github|, k, x)
  }

  predicate ReportedAs(day: int, a: Asset, k: string, x: Seen) {
    SeriesKey(a) == k && x == Seen(day, a.cumulative, a.id)
  }

  // Some snapshot of that day gives that count for the asset.
  ghost predicate Reported(snaps: seq<Snapshot>, k: string, x: Seen) {
    exists snap :: snap in snaps && ReportedIn(snap, k, x)
  }

  ghost predicate OncePerSnapshot(snaps: seq<Snapshot>) {
    forall snap | snap in snaps :: KeysOnce(snap)
  }

  ghost predicate KeysOnce(snap: Snapshot) {
    forall i, j | 0 <= i < j < |snap.github| :: SeriesKey(snap.github[i]) != SeriesKey(snap.github[j])
  }

  lemma ReportedAmongMore(snap: Snapshot, n: nat, k: string, x: Seen)
    requires n < |snap.github|
    ensures ReportedAmong(snap, n + 1, k, x) <==>
              ReportedAmong(snap, n, k, x) || ReportedAs(snap.day, snap.github[n], k, x)
    ensures ReportedAmong(snap, n, k, x) ==> x.day == snap.day
    ensures ReportedAmong(snap, n, k, x) && KeysOnce(snap) ==> SeriesKey(snap.github[n]) != k
  {
    if j :| 0 <= j < n + 1 && ReportedAs(snap.day, snap.github[j], k, x) {
      assert j == n || ReportedAmong(snap, n, k, x);
    }
  }

  // What one snapshot adds to what was seen of an asset: nothing, or its one report.
  lemma {:induction false} SeenInSnapshot(snap: Snapshot, n: nat, k: string)
    requires n <= |snap.github| && KeysOnce(snap)
    ensures forall x :: x in SeenOf(InSnapshot(snap, n), k) <==> ReportedAmong(snap, n, k, x)
    ensures |SeenOf(InSnapshot(snap, n), k)| <= 1
  {
    hide ReportedAmong;
    hide KeysOnce;
    hide SeriesKey;
    if n == 0 {
      NothingReported(snap, k);
    } else {
      var g := snap.github[n - 1];
      SeenInSnapshot(snap, n - 1, k);
      SeenOfPush(InSnapshot(snap, n - 1), SightingOf(snap.day, g), k);
      hide SeenOf;
      var before := SeenOf(InSnapshot(snap, n - 1), k);
      var added := if SeriesKey(g) == k then [Seen(snap.day, g.cumulative, g.id)] else [];
      SnapshotStep(snap, n, k, before, added);
    }
  }

  lemma NothingReported(snap: Snapshot, k: string)
    ensures SeenOf(InSnapshot(snap, 0), k) == []
    ensures forall x :: !ReportedAmong(snap, 0, k, x)
  {}

  lemma SnapshotStep(snap: Snapshot, n: nat, k: string, before: seq<Seen>, added: seq<Seen>)
    requires 0 < n <= |snap.github| && KeysOnce(snap)
    requires forall x :: x in before <==> ReportedAmong(snap, n - 1, k, x)
    requires forall x :: x in added <==> ReportedAs(snap.day, snap.github[n - 1], k, x)
    requires |before| <= 1 && |added| <= 1 && (added != [] ==> SeriesKey(snap.github[n - 1]) == k)
    ensures forall x :: x in before + added <==> ReportedAmong(snap, n, k, x)
    ensures |before + added| <= 1
  {
    hide ReportedAmong;
    hide KeysOnce;
    hide SeriesKey;
    if before != [] {
      assert before[0] in before;
      ReportedAmongMore(snap, n - 1, k, before[0]);
    }
    forall x ensures x in before + added <==> ReportedAmong(snap, n, k, x) {
      ReportedAmongMore(snap, n - 1, k, x);
    }
  }

  ghost predicate ReportedBefore(snaps: seq<Snapshot>, n: nat, k: string, x: Seen)
    requires n <= |snaps|
  {
    exists i :: 0 <= i < n && ReportedIn(snaps[i], k, x)
  }

  ghost predicate SeenDaysIncrease(seen: seq<Seen>) {
    forall i, j | 0 <= i < j < |seen| :: seen[i].day < seen[j].day
  }

  lemma ReportedOneMore(snaps: seq<Snapshot>, n: nat, k: string, x: Seen)
    requires n < |snaps|
    ensures ReportedBefore(snaps, n + 1, k, x) <==> ReportedBefore(snaps, n, k, x) || ReportedIn(snaps[n], k, x)
  {
    if i :| 0 <= i < n + 1 && ReportedIn(snaps[i], k, x) {
      assert i == n || ReportedBefore(snaps, n, k, x);
    }
  }

  lemma {:induction false} SeenInDayOrder(snaps: seq<Snapshot>, n: nat, k: string)
    requires n <= |snaps| && DaysIncrease(snaps) && OncePerSnapshot(snaps)
    ensures forall x :: x in SeenOf(Sightings(snaps, n), k) <==> ReportedBefore(snaps, n, k, x)
    ensures SeenDaysIncrease(SeenOf(Sightings(snaps, n), k))
  {
    if n > 0 {
      var last := snaps[n - 1];
      SeenInDayOrder(snaps, n - 1, k);
      assert KeysOnce(last);
      SeenInSnapshot(last, |last.github|, k);
      SeenOfConcat(Sightings(snaps, n - 1), InSnapshot(last, |last.github|), k);
      var before, added := SeenOf(Sightings(snaps, n - 1), k), SeenOf(InSnapshot(last, |last.github|), k);
      assert SeenOf(Sightings(snaps, n), k) == before + added;
      SeenStep(snaps, n, k, before, added);
    }
  }

  lemma SeenStep(snaps: seq<Snapshot>, n: nat, k: string, before: seq<Seen>, added: seq<Seen>)
    requires 0 < n <= |snaps| && DaysIncrease(snaps)
    requires forall x :: x in before <==> ReportedBefore(snaps, n - 1, k, x)
    requires forall x :: x in added <==> ReportedIn(snaps[n - 1], k, x)
    requires SeenDaysIncrease(before) && |added| <= 1
    ensures forall x :: x in before + added <==> ReportedBefore(snaps, n, k, x)
    ensures SeenDaysIncrease(before + added)
  {
    var day := snaps[n - 1].day;
    forall x | x in before ensures x.day < day {
      ReportDay(snaps, n - 1, k, x, day);
    }
    forall x | x in added ensures x.day == day {
      assert ReportedIn(snaps[n - 1], k, x);
    }
    JoinDays(before, added, day);
    hide ReportedBefore;
    hide ReportedIn;
    forall x ensures x in before + added <==> ReportedBefore(snaps, n, k, x) {
      ReportedOneMore(snaps, n - 1, k, x);
    }
  }

  lemma ReportDay(snaps: seq<Snapshot>, n: nat, k: string, x: Seen, day: int)
    requires n <= |snaps| && ReportedBefore(snaps, n, k, x) && forall i | 0 <= i < n :: snaps[i].day < day
    ensures x.day < day
  {
    var i :| 0 <= i < n && ReportedIn(snaps[i], k, x);
  }

  lemma JoinDays(before: seq<Seen>, added: seq<Seen>, day: int)
    requires SeenDaysIncrease(before) && |added| <= 1
    requires (forall x | x in before :: x.day < day) && (forall x | x in added :: x.day == day)
    ensures SeenDaysIncrease(before + added)
  {
    assert added != [] ==> added[0] in added;
    assert forall i | 0 <= i < |before| :: before[i] in before;
  }

  lemma PriorIsTheDayBefore(seen: seq<Seen>, i: nat, prior: Seen)
    requires i < |seen| && SeenDaysIncrease(seen)
    ensures prior in seen && Change(prior, seen[i]).Some? ==> DeltaAt(seen, i) == Change(prior, seen[i])
    ensures i > 0 ==> seen[i - 1] in seen
  {
    if prior in seen && Change(prior, seen[i]).Some? {
      var p :| 0 <= p < |seen| && seen[p] == prior;
      assert p < i && seen[p].day <= seen[i - 1].day < seen[i].day;
      assert p == i - 1;
    }
  }

  // Some report of the asset is from the day before `now`, of the same counter as far as the ids
  // tell, and v downloads lower.
  ghost predicate Gives(snapshots: seq<Snapshot>, k: string, prior: Seen, now: Seen, v: int) {
    && Reported(snapshots, k, prior)
    && prior.day + 1 == now.day
    && (prior.id.Some? && now.id.Some? ==> prior.id == now.id)
    && v >= 0 && prior.value + v == now.value
  }

  // Such a report gives the delta.
  lemma ReportGivesDelta(snapshots: seq<Snapshot>, k: string, i: nat, prior: Seen, v: int)
    requires DistinctDays(snapshots) && OncePerSnapshot(snapshots)
    requires i < |SeenOf(Sightings(Ordered(snapshots), |snapshots|), k)|
    requires Gives(snapshots, k, prior, SeenOf(Sightings(Ordered(snapshots), |snapshots|), k)[i], v)
    ensures DeltaAt(SeenOf(Sightings(Ordered(snapshots), |snapshots|), k), i) == Some(v)
  {
    var seen := SeenOf(Sightings(Ordered(snapshots), |snapshots|), k);
    SeenIsReported(snapshots, k);
    hide SeenOf;
    hide Reported;
    PriorIsTheDayBefore(seen, i, prior);
  }

  // And a known delta comes from one.
  lemma DeltaComesFromReport(snapshots: seq<Snapshot>, k: string, i: nat, v: int) returns (prior: Seen)
    requires DistinctDays(snapshots) && OncePerSnapshot(snapshots)
    requires i < |SeenOf(Sightings(Ordered(snapshots), |snapshots|), k)|
    requires DeltaAt(SeenOf(Sightings(Ordered(snapshots), |snapshots|), k), i) == Some(v)
    ensures Gives(snapshots, k, prior, SeenOf(Sightings(Ordered(snapshots), |snapshots|), k)[i], v)
  {
    var seen := SeenOf(Sightings(Ordered(snapshots), |snapshots|), k);
    SeenIsReported(snapshots, k);
    hide SeenOf;
    hide Reported;
    prior := seen[i - 1];
    assert prior in seen;
  }

  lemma SeenAreReported(snapshots: seq<Snapshot>, k: string, i: nat)
    requires DistinctDays(snapshots) && OncePerSnapshot(snapshots)
    requires i < |SeenOf(Sightings(Ordered(snapshots), |snapshots|), k)|
    ensures Reported(snapshots, k, SeenOf(Sightings(Ordered(snapshots), |snapshots|), k)[i])
  {
    SeenIsReported(snapshots, k);
    hide SeenOf;
    hide Reported;
  }

  lemma KnownIffReported(snapshots: seq<Snapshot>, k: string, i: nat, v: int)
    requires DistinctDays(snapshots) && OncePerSnapshot(snapshots)
    requires i < |SeenOf(Sightings(Ordered(snapshots), |snapshots|), k)|
    ensures var seen := SeenOf(Sightings(Ordered(snapshots), |snapshots|), k);
            DeltaAt(seen, i) == Some(v) <==> exists prior :: Gives(snapshots, k, prior, seen[i], v)
  {
    hide DeltaAt;
    hide Gives;
    hide SeenOf;
    var seen := SeenOf(Sightings(Ordered(snapshots), |snapshots|), k);
    if DeltaAt(seen, i) == Some(v) {
      var prior := DeltaComesFromReport(snapshots, k, i, v);
    }
    if prior :| Gives(snapshots, k, prior, seen[i], v) {
      ReportGivesDelta(snapshots, k, i, prior, v);
    }
  }

  // When no day has two snapshots and no snapshot lists an asset twice, the deltas say what
  // the snapshots say, in whatever order they came: a point's delta is known exactly when
  // the asset was also reported on the day before, by the same counter and with no higher a
  // count, and then it is the difference.
  lemma DeltaKnownIff(snapshots: seq<Snapshot>, built: BuiltSeries, k: string, i: nat) returns (now: Seen)
    requires DistinctDays(snapshots) && OncePerSnapshot(snapshots)
    requires Builds(built, Ordered(snapshots)) && k in built.series && i < |built.series[k].delta|
    ensures Reported(snapshots, k, now) && i < |built.series[k].cumulative|
    ensures built.series[k].cumulative[i] == Point(now.day, now.value)
    ensures built.series[k].delta[i].day == now.day
    ensures forall v :: built.series[k].delta[i].value == Some(v) <==> exists prior :: Gives(snapshots, k, prior, now, v)
  {
    var seen := SeenOf(Sightings(Ordered(snapshots), |snapshots|), k);
    assert IsSeriesOf(built.series[k], seen);
    hide Builds;
    hide SeenOf;
    hide Reported;
    hide DeltaAt;
    hide Gives;
    now := seen[i];
    SeenAreReported(snapshots, k, i);
    forall v ensures built.series[k].delta[i].value == Some(v) <==> exists prior :: Gives(snapshots, k, prior, now, v) {
      KnownIffReported(snapshots, k, i, v);
    }
  }

  // Every report is a point of its asset's series, and every point a report.
  lemma SeenIsReported(snapshots: seq<Snapshot>, k: string)
    requires DistinctDays(snapshots) && OncePerSnapshot(snapshots)
    ensures var ordered := Ordered(snapshots);
            var seen := SeenOf(Sightings(ordered, |ordered|), k);
            && (forall x :: x in seen <==> Reported(snapshots, k, x))
            && SeenDaysIncrease(seen)
  {
    var ordered := Ordered(snapshots);
    OrderedByDay(snapshots);
    assert forall snap :: snap in ordered <==> snap in multiset(snapshots);
    assert forall snap :: snap in multiset(snapshots) <==> snap in snapshots;
    SeenInDayOrder(ordered, |ordered|, k);
    forall x ensures Reported(snapshots, k, x) <==> ReportedBefore(ordered, |ordered|, k, x) {
      if Reported(snapshots, k, x) {
        var snap :| snap in snapshots && ReportedIn(snap, k, x);
        assert snap in ordered;
        var i :| 0 <= i < |ordered| && ordered[i] == snap;
      }
      if i :| 0 <= i < |ordered| && ReportedIn(ordered[i], k, x) {
        assert ordered[i] in ordered;
      }
    }
  }
}
