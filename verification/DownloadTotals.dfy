// Daily downloads by asset family: every known delta is counted in exactly one cell, and a
// cell that misses one is flagged as a lower bound.
module DownloadTotals {
  import opened Options
  import opened DownloadSeries

  datatype Family = AndroidApk | IosIpa | DesktopInstaller | VideoJar | ScreenCaptureHelper | OtherFamily

  const ASSET_TYPE_ORDER: seq<Family> :=
    [AndroidApk, IosIpa, DesktopInstaller, VideoJar, ScreenCaptureHelper, OtherFamily]

  // Every family is listed, and listed once.
  function Rank(f: Family): (r: nat)
    ensures r < |ASSET_TYPE_ORDER| && ASSET_TYPE_ORDER[r] == f
    ensures forall m | 0 <= m < |ASSET_TYPE_ORDER| && ASSET_TYPE_ORDER[m] == f :: m == r
  {
    match f
    case AndroidApk => 0
    case IosIpa => 1
    case DesktopInstaller => 2
    case VideoJar => 3
    case ScreenCaptureHelper => 4
    case OtherFamily => 5
  }

  datatype Cell = Cell(downloads: int, partial: bool, observed: bool)

  datatype TypeSeries = TypeSeries(family: Family, points: seq<Cell>, total: int)

  // One delta of one asset, where it belongs.
  datatype Contribution = Contribution(family: Family, at: nat, value: Option<int>)

  const EMPTY_CELL := Cell(0, false, false)

  function LowerCase(s: string): string {
    seq(|s|, i requires 0 <= i < |s| => if 'A' <= s[i] <= 'Z' then s[i] - 'A' + 'a' else s[i])
  }

  predicate EndsWith(s: string, suffix: string) {
    |suffix| <= |s| && s[|s| - |suffix|..] == suffix
  }

  function ClassifyAssetType(asset: string): Family {
    var name := LowerCase(asset);
    if EndsWith(name, ".apk") then AndroidApk
    else if EndsWith(name, ".ipa") then IosIpa
    else if EndsWith(name, ".deb") || EndsWith(name, ".dmg") || EndsWith(name, ".msi") then DesktopInstaller
    else if EndsWith(name, ".jar") then VideoJar
    else if "screen-capture-helper" <= name || EndsWith(name, ".zip") then ScreenCaptureHelper
    else OtherFamily
  }

  lemma LowerCaseEnds(stem: string, suffix: string)
    ensures LowerCase(stem + suffix) == LowerCase(stem) + LowerCase(suffix)
    ensures EndsWith(LowerCase(stem + suffix), LowerCase(suffix))
  {
    assert LowerCase(stem + suffix) == LowerCase(stem) + LowerCase(suffix);
  }

  // Which family the name's last four characters stand for, if they are a known extension.
  function FamilyOf(suffix: string): Option<Family> {
    if suffix == ".apk" then Some(AndroidApk)
    else if suffix == ".ipa" then Some(IosIpa)
    else if suffix == ".deb" || suffix == ".dmg" || suffix == ".msi" then Some(DesktopInstaller)
    else if suffix == ".jar" then Some(VideoJar)
    else if suffix == ".zip" then Some(ScreenCaptureHelper)
    else None
  }

  // Whatever the rest of the name, its last four characters, in any case, decide the family;
  // unless they are `.zip` or no known extension and the name begins with the helper's.
  lemma FamilyByName(stem: string, suffix: string)
    requires |suffix| == 4
    ensures var f := FamilyOf(LowerCase(suffix));
            ClassifyAssetType(stem + suffix) ==
            if f.Some? then f.value
            else if "screen-capture-helper" <= LowerCase(stem + suffix) then ScreenCaptureHelper
            else OtherFamily
  {
    LowerCaseEnds(stem, suffix);
    var name, last := LowerCase(stem + suffix), LowerCase(suffix);
    assert |name| >= 4 && name[|name| - 4..] == last;
    hide LowerCase;
    EndsIn(name, ".apk");
    EndsIn(name, ".ipa");
    EndsIn(name, ".deb");
    EndsIn(name, ".dmg");
    EndsIn(name, ".msi");
    EndsIn(name, ".jar");
    EndsIn(name, ".zip");
    hide EndsWith;
  }

  lemma EndsIn(name: string, extension: string)
    requires |name| >= 4 == |extension|
    ensures EndsWith(name, extension) <==> name[|name| - 4..] == extension
  {}

  lemma ShortNames(asset: string)
    requires |asset| < 4
    ensures ClassifyAssetType(asset) == OtherFamily
  {}

  // ----- what the deltas contribute -----

  function LastIndex(days: seq<int>, d: int): (i: nat)
    requires d in days
    ensures i < |days| && days[i] == d && forall j | i < j < |days| :: days[j] != d
  {
    if days[|days| - 1] == d then |days| - 1 else LastIndex(days[..|days| - 1], d)
  }

  predicate DaysKnown(days: seq<int>, s: AssetSeries) {
    forall m | 0 <= m < |s.delta| :: s.delta[m].day in days
  }

  predicate WellFormed(built: BuiltSeries) {
    && (forall k | k in built.keys :: k in built.series)
    && (forall k | k in built.series :: DaysKnown(built.days, built.series[k]))
  }

  function OfSeries(days: seq<int>, s: AssetSeries, n: nat): seq<Contribution>
    requires n <= |s.delta| && DaysKnown(days, s)
  {
    if n == 0 then []
    else
      var p := s.delta[n - 1];
      OfSeries(days, s, n - 1) + [Contribution(ClassifyAssetType(s.asset), LastIndex(days, p.day), p.value)]
  }

  function Contributions(built: BuiltSeries, n: nat): seq<Contribution>
    requires n <= |built.keys| && WellFormed(built)
  {
    if n == 0 then []
    else
      var s := built.series[built.keys[n - 1]];
      Contributions(built, n - 1) + OfSeries(built.days, s, |s.delta|)
  }

  function Note(cell: Cell, value: Option<int>): Cell {
    match value
    case None => cell.(observed := true, partial := true)
    case Some(v) => cell.(observed := true, downloads := cell.downloads + v)
  }

  function CellOf(cs: seq<Contribution>, f: Family, i: nat): Cell {
    if cs == [] then EMPTY_CELL
    else
      var c := cs[|cs| - 1];
      var cell := CellOf(cs[..|cs| - 1], f, i);
      if c.family == f && c.at == i then Note(cell, c.value) else cell
  }

  lemma CellOfPush(cs: seq<Contribution>, c: Contribution, f: Family, i: nat)
    ensures CellOf(cs + [c], f, i) ==
            if c.family == f && c.at == i then Note(CellOf(cs, f, i), c.value) else CellOf(cs, f, i)
  {
    assert (cs + [c])[..|cs|] == cs;
  }

  function CellsOf(cs: seq<Contribution>, f: Family, n: nat): seq<Cell> {
    seq(n, i requires 0 <= i < n => CellOf(cs, f, i))
  }

  function SumCells(cells: seq<Cell>, n: nat): int
    requires n <= |cells|
  {
    if n == 0 then 0 else SumCells(cells, n - 1) + cells[n - 1].downloads
  }

  predicate AnyObserved(cells: seq<Cell>) {
    exists i :: 0 <= i < |cells| && cells[i].observed
  }

  // The first m families' series, an unobserved family left out.
  function TypesOf(cs: seq<Contribution>, n: nat, m: nat): seq<TypeSeries>
    requires m <= |ASSET_TYPE_ORDER|
  {
    if m == 0 then []
    else
      var cells := CellsOf(cs, ASSET_TYPE_ORDER[m - 1], n);
      TypesOf(cs, n, m - 1) +
      if AnyObserved(cells) then [TypeSeries(ASSET_TYPE_ORDER[m - 1], cells, SumCells(cells, n))] else []
  }

  // One family more is one row more, or none.
  lemma TypesStep(cs: seq<Contribution>, n: nat, m: nat)
    requires 0 < m <= |ASSET_TYPE_ORDER|
    ensures var f := ASSET_TYPE_ORDER[m - 1];
            var cells := CellsOf(cs, f, n);
            TypesOf(cs, n, m) ==
            if AnyObserved(cells) then TypesOf(cs, n, m - 1) + [TypeSeries(f, cells, SumCells(cells, n))]
            else TypesOf(cs, n, m - 1)
  {
    hide CellOf;
    hide AnyObserved;
    hide SumCells;
  }

  // ----- the loops -----

  ghost predicate Tallies(acc: map<Family, seq<Cell>>, cs: seq<Contribution>, n: nat) {
    forall f: Family :: f in acc && acc[f] == CellsOf(cs, f, n)
  }

  ghost predicate Indexes(indexByDate: map<int, nat>, days: seq<int>) {
    forall d | d in days :: d in indexByDate && indexByDate[d] == LastIndex(days, d)
  }

  method SummarizeDailyByType(built: BuiltSeries) returns (out: seq<TypeSeries>)
    requires WellFormed(built)
    ensures out == TypesOf(Contributions(built, |built.keys|), |built.days|, |ASSET_TYPE_ORDER|)
  {
    hide ClassifyAssetType;
    hide Note;
    hide CellOf;
    var n := |built.days|;
    var indexByDate := IndexByDate(built.days);
    ghost var cs: seq<Contribution> := [];
    var acc := EmptyTally(n);
    for q := 0 to |built.keys|
      invariant cs == Contributions(built, q) && Tallies(acc, cs, n)
    {
      var s := built.series[built.keys[q]];
      acc := TallySeries(acc, indexByDate, built.days, s, cs);
      cs := cs + OfSeries(built.days, s, |s.delta|);
    }
    out := RowsOf(acc, cs, n);
  }

  // The loop over the deltas of one asset.
  method TallySeries(acc: map<Family, seq<Cell>>, indexByDate: map<int, nat>, days: seq<int>, s: AssetSeries,
                     ghost cs: seq<Contribution>)
      returns (acc': map<Family, seq<Cell>>)
    requires Tallies(acc, cs, |days|) && Indexes(indexByDate, days) && DaysKnown(days, s)
    ensures Tallies(acc', cs + OfSeries(days, s, |s.delta|), |days|)
  {
    hide ClassifyAssetType;
    hide Note;
    hide CellOf;
    var family := ClassifyAssetType(s.asset);
    ghost var all := cs;
    acc' := acc;
    for m := 0 to |s.delta|
      invariant all == cs + OfSeries(days, s, m) && Tallies(acc', all, |days|)
    {
      var p := s.delta[m];
      var at := indexByDate[p.day];
      ghost var c := Contribution(family, at, p.value);
      TallyStep(acc', all, |days|, c);
      acc' := acc'[family := acc'[family][at := Note(acc'[family][at], p.value)]];
      all := all + [c];
    }
  }

  // The loop over the families.
  method RowsOf(acc: map<Family, seq<Cell>>, ghost cs: seq<Contribution>, n: nat) returns (out: seq<TypeSeries>)
    requires Tallies(acc, cs, n)
    ensures out == TypesOf(cs, n, |ASSET_TYPE_ORDER|)
  {
    hide CellOf;
    hide AnyObserved;
    hide SumCells;
    out := [];
    for m := 0 to |ASSET_TYPE_ORDER|
      invariant out == TypesOf(cs, n, m)
    {
      var points := acc[ASSET_TYPE_ORDER[m]];
      var observed, total := TotalOf(points);
      TypesStep(cs, n, m + 1);
      if observed {
        out := out + [TypeSeries(ASSET_TYPE_ORDER[m], points, total)];
      }
    }
  }

  method IndexByDate(days: seq<int>) returns (indexByDate: map<int, nat>)
    ensures Indexes(indexByDate, days)
  {
    indexByDate := map[];
    for i := 0 to |days|
      invariant Indexes(indexByDate, days[..i])
    {
      assert days[..i + 1][..i] == days[..i];
      indexByDate := indexByDate[days[i] := i];
    }
    assert days[..|days|] == days;
  }

  method EmptyTally(n: nat) returns (acc: map<Family, seq<Cell>>)
    ensures Tallies(acc, [], n)
  {
    acc := map[];
    for m := 0 to |ASSET_TYPE_ORDER|
      invariant forall g | 0 <= g < m :: ASSET_TYPE_ORDER[g] in acc && acc[ASSET_TYPE_ORDER[g]] == CellsOf([], ASSET_TYPE_ORDER[g], n)
    {
      acc := acc[ASSET_TYPE_ORDER[m] := seq(n, _ => EMPTY_CELL)];
    }
    forall f: Family ensures f in acc && acc[f] == CellsOf([], f, n) {
      assert ASSET_TYPE_ORDER[Rank(f)] == f;
    }
  }

  method TotalOf(points: seq<Cell>) returns (observed: bool, total: int)
    ensures observed == AnyObserved(points) && total == SumCells(points, |points|)
  {
    observed, total := false, 0;
    for i := 0 to |points|
      invariant observed <==> exists j :: 0 <= j < i && points[j].observed
      invariant total == SumCells(points, i)
    {
      if points[i].observed {
        observed := true;
      }
      total := total + points[i].downloads;
    }
  }

  lemma TallyStep(acc: map<Family, seq<Cell>>, cs: seq<Contribution>, n: nat, c: Contribution)
    requires Tallies(acc, cs, n) && c.at < n
    ensures Tallies(acc[c.family := acc[c.family][c.at := Note(acc[c.family][c.at], c.value)]], cs + [c], n)
  {
    var acc' := acc[c.family := acc[c.family][c.at := Note(acc[c.family][c.at], c.value)]];
    forall f: Family ensures acc'[f] == CellsOf(cs + [c], f, n) {
      forall i: nat | i < n ensures acc'[f][i] == CellOf(cs + [c], f, i) {
        CellOfPush(cs, c, f, i);
      }
    }
  }

  // ----- what a cell means -----

  predicate Feeds(c: Contribution, f: Family, i: nat) {
    c.family == f && c.at == i
  }

  // A cell is observed when some delta belongs to it, and partial exactly when one of those
  // is unknown; an unobserved cell counts nothing.
  lemma {:induction false} CellMeaning(cs: seq<Contribution>, f: Family, i: nat)
    ensures CellOf(cs, f, i).observed <==> exists c :: c in cs && Feeds(c, f, i)
    ensures CellOf(cs, f, i).partial <==> exists c :: c in cs && Feeds(c, f, i) && c.value.None?
    ensures !CellOf(cs, f, i).observed ==> CellOf(cs, f, i).downloads == 0
  {
    if cs != [] {
      var front, c := cs[..|cs| - 1], cs[|cs| - 1];
      CellMeaning(front, f, i);
      assert forall x :: x in cs <==> x in front || x == c;
    }
  }

  // The contributions that belong to a cell.
  function Feeding(cs: seq<Contribution>, f: Family, i: nat): seq<Contribution> {
    if cs == [] then []
    else
      var c := cs[|cs| - 1];
      Feeding(cs[..|cs| - 1], f, i) + if Feeds(c, f, i) then [c] else []
  }

  // A cell counts what is known of the deltas that belong to it.
  lemma {:induction false} CellCounts(cs: seq<Contribution>, f: Family, i: nat)
    ensures CellOf(cs, f, i).downloads == KnownSum(Feeding(cs, f, i))
  {
    if cs != [] {
      CellCounts(cs[..|cs| - 1], f, i);
      KnownSumConcat(Feeding(cs[..|cs| - 1], f, i), Feeding(cs, f, i)[|Feeding(cs[..|cs| - 1], f, i)|..]);
      KnownSumOne(cs[|cs| - 1]);
    }
  }

  lemma KnownSumOne(c: Contribution)
    ensures KnownSum([c]) == Known(c.value) && KnownSum([]) == 0
  {
    assert [c][..0] == [];
  }

  ghost predicate FromSeries(c: Contribution, days: seq<int>, s: AssetSeries, n: nat)
    requires n <= |s.delta| && DaysKnown(days, s)
  {
    exists m :: 0 <= m < n && ComesFrom(c, days, s, m)
  }

  predicate ComesFrom(c: Contribution, days: seq<int>, s: AssetSeries, m: nat)
    requires m < |s.delta| && DaysKnown(days, s)
  {
    c == Contribution(ClassifyAssetType(s.asset), LastIndex(days, s.delta[m].day), s.delta[m].value)
  }

  lemma {:induction false} SeriesContributes(c: Contribution, days: seq<int>, s: AssetSeries, n: nat)
    requires n <= |s.delta| && DaysKnown(days, s)
    ensures c in OfSeries(days, s, n) <==> FromSeries(c, days, s, n)
  {
    if n > 0 {
      SeriesContributes(c, days, s, n - 1);
      assert FromSeries(c, days, s, n) <==> FromSeries(c, days, s, n - 1) || ComesFrom(c, days, s, n - 1);
    }
  }

  // A contribution of the asset with the q-th key.
  ghost predicate FromKey(c: Contribution, built: BuiltSeries, q: nat)
    requires q < |built.keys| && WellFormed(built)
  {
    FromSeries(c, built.days, built.series[built.keys[q]], |built.series[built.keys[q]].delta|)
  }

  ghost predicate FromAsset(c: Contribution, built: BuiltSeries, n: nat)
    requires n <= |built.keys| && WellFormed(built)
  {
    exists q :: 0 <= q < n && FromKey(c, built, q)
  }

  lemma FromOneMore(c: Contribution, built: BuiltSeries, n: nat)
    requires n < |built.keys| && WellFormed(built)
    ensures FromAsset(c, built, n + 1) <==> FromAsset(c, built, n) || FromKey(c, built, n)
  {
    hide FromKey;
    if q :| 0 <= q < n + 1 && FromKey(c, built, q) {
      assert q == n || FromAsset(c, built, n);
    }
  }

  lemma {:induction false} AssetsContribute(c: Contribution, built: BuiltSeries, n: nat)
    requires n <= |built.keys| && WellFormed(built)
    ensures c in Contributions(built, n) <==> FromAsset(c, built, n)
  {
    hide OfSeries;
    hide FromSeries;
    hide FromAsset;
    hide ClassifyAssetType;
    if n == 0 {
      NothingFrom(c, built);
    } else {
      var s := built.series[built.keys[n - 1]];
      AssetsContribute(c, built, n - 1);
      SeriesContributes(c, built.days, s, |s.delta|);
      FromOneMore(c, built, n - 1);
    }
  }

  lemma NothingFrom(c: Contribution, built: BuiltSeries)
    requires WellFormed(built)
    ensures !FromAsset(c, built, 0)
  {}

  // Some asset of the family has a delta on that day.
  ghost predicate DeltaFalls(built: BuiltSeries, f: Family, i: nat)
    requires WellFormed(built)
  {
    exists c :: FromAsset(c, built, |built.keys|) && Feeds(c, f, i)
  }

  // Some asset of the family has an unknown delta on that day.
  ghost predicate UnknownFalls(built: BuiltSeries, f: Family, i: nat)
    requires WellFormed(built)
  {
    exists c :: FromAsset(c, built, |built.keys|) && Feeds(c, f, i) && c.value.None?
  }

  // A day of a family is flagged as a lower bound exactly when some asset of the family has
  // an unknown delta on it, and as observed exactly when one has a delta at all.
  lemma PartialIffUnknown(built: BuiltSeries, f: Family, i: nat)
    requires WellFormed(built)
    ensures var cell := CellOf(Contributions(built, |built.keys|), f, i);
            && (cell.observed <==> DeltaFalls(built, f, i))
            && (cell.partial <==> UnknownFalls(built, f, i))
  {
    var cs := Contributions(built, |built.keys|);
    CellMeaning(cs, f, i);
    forall c ensures c in cs <==> FromAsset(c, built, |built.keys|) {
      AssetsContribute(c, built, |built.keys|);
    }
    hide FromAsset;
    hide CellOf;
    hide Contributions;
    hide ClassifyAssetType;
  }

  // ----- what the page shows -----

  // A row has a cell for every day, observed and partial as the deltas of its family say, and
  // with the sum of the known ones; its total is that of its cells.
  ghost predicate RowMeaning(built: BuiltSeries, t: TypeSeries)
    requires WellFormed(built)
  {
    && |t.points| == |built.days|
    && (forall i | 0 <= i < |built.days| ::
         && (t.points[i].observed <==> DeltaFalls(built, t.family, i))
         && (t.points[i].partial <==> UnknownFalls(built, t.family, i))
         && t.points[i].downloads == KnownSum(Feeding(Contributions(built, |built.keys|), t.family, i)))
    && t.total == SumCells(t.points, |t.points|)
  }

  ghost predicate Listed(out: seq<TypeSeries>, f: Family) {
    exists q :: 0 <= q < |out| && out[q].family == f
  }

  ghost predicate EverFalls(built: BuiltSeries, f: Family)
    requires WellFormed(built)
  {
    exists i :: 0 <= i < |built.days| && DeltaFalls(built, f, i)
  }

  ghost predicate RowsInOrder(out: seq<TypeSeries>) {
    forall p, q | 0 <= p < q < |out| :: Rank(out[p].family) < Rank(out[q].family)
  }

  // The rows are those of the families with a delta, in the fixed order, none twice.
  ghost predicate PageMeaning(built: BuiltSeries, out: seq<TypeSeries>)
    requires WellFormed(built)
  {
    && (forall q | 0 <= q < |out| :: RowMeaning(built, out[q]))
    && (forall f: Family :: Listed(out, f) <==> EverFalls(built, f))
    && RowsInOrder(out)
  }

  lemma CellsMean(built: BuiltSeries, f: Family)
    requires WellFormed(built)
    ensures var cells := CellsOf(Contributions(built, |built.keys|), f, |built.days|);
            && RowMeaning(built, TypeSeries(f, cells, SumCells(cells, |built.days|)))
            && (AnyObserved(cells) <==> EverFalls(built, f))
  {
    var cs, n := Contributions(built, |built.keys|), |built.days|;
    var cells := CellsOf(cs, f, n);
    hide CellOf;
    hide Contributions;
    hide DeltaFalls;
    hide UnknownFalls;
    hide SumCells;
    forall i | 0 <= i < n
      ensures cells[i].observed <==> DeltaFalls(built, f, i)
      ensures cells[i].partial <==> UnknownFalls(built, f, i)
      ensures cells[i].downloads == KnownSum(Feeding(cs, f, i))
    {
      PartialIffUnknown(built, f, i);
      CellCounts(cs, f, i);
    }
  }

  // The first m families, as the page lists them.
  ghost predicate RowsOfFirst(built: BuiltSeries, out: seq<TypeSeries>, m: nat)
    requires WellFormed(built)
  {
    && (forall q | 0 <= q < |out| :: RowMeaning(built, out[q]) && Rank(out[q].family) < m)
    && (forall f: Family | Rank(f) < m :: Listed(out, f) <==> EverFalls(built, f))
    && RowsInOrder(out)
  }

  lemma ListedPush(out: seq<TypeSeries>, t: TypeSeries, f: Family)
    ensures Listed(out + [t], f) <==> Listed(out, f) || t.family == f
  {
    assert (out + [t])[|out|] == t;
    if q :| 0 <= q < |out| && out[q].family == f {
      assert (out + [t])[q].family == f;
    }
  }

  lemma RowsPush(built: BuiltSeries, out: seq<TypeSeries>, t: TypeSeries, m: nat)
    requires WellFormed(built) && RowsOfFirst(built, out, m)
    requires RowMeaning(built, t) && Rank(t.family) == m && EverFalls(built, t.family)
    ensures RowsOfFirst(built, out + [t], m + 1)
  {
    hide RowMeaning;
    hide EverFalls;
    hide Listed;
    forall f: Family | Rank(f) < m + 1 ensures Listed(out + [t], f) <==> EverFalls(built, f) {
      ListedPush(out, t, f);
      assert Rank(f) == m ==> f == t.family;
    }
  }

  lemma RowsSkip(built: BuiltSeries, out: seq<TypeSeries>, f: Family, m: nat)
    requires WellFormed(built) && RowsOfFirst(built, out, m)
    requires Rank(f) == m && !EverFalls(built, f)
    ensures RowsOfFirst(built, out, m + 1)
  {
    hide RowMeaning;
    hide EverFalls;
    forall g: Family | Rank(g) < m + 1 ensures Listed(out, g) <==> EverFalls(built, g) {
      assert Rank(g) == m ==> g == f;
    }
  }

  lemma {:induction false} TypesMean(built: BuiltSeries, m: nat)
    requires WellFormed(built) && m <= |ASSET_TYPE_ORDER|
    ensures RowsOfFirst(built, TypesOf(Contributions(built, |built.keys|), |built.days|, m), m)
  {
    hide Contributions;
    hide CellsOf;
    hide RowMeaning;
    hide EverFalls;
    hide AnyObserved;
    if m == 0 {
      assert TypesOf(Contributions(built, |built.keys|), |built.days|, 0) == [];
    } else {
      TypesMean(built, m - 1);
      TypesMeanStep(built, m);
    }
  }

  lemma TypesMeanStep(built: BuiltSeries, m: nat)
    requires WellFormed(built) && 0 < m <= |ASSET_TYPE_ORDER|
    requires RowsOfFirst(built, TypesOf(Contributions(built, |built.keys|), |built.days|, m - 1), m - 1)
    ensures RowsOfFirst(built, TypesOf(Contributions(built, |built.keys|), |built.days|, m), m)
  {
    hide Contributions;
    hide CellOf;
    hide SumCells;
    hide RowsOfFirst;
    hide RowMeaning;
    hide EverFalls;
    hide AnyObserved;
    var cs, n, f := Contributions(built, |built.keys|), |built.days|, ASSET_TYPE_ORDER[m - 1];
    var before, cells := TypesOf(cs, n, m - 1), CellsOf(cs, f, n);
    TypesStep(cs, n, m);
    hide TypesOf;
    CellsMean(built, f);
    assert Rank(f) == m - 1;
    if AnyObserved(cells) {
      RowsPush(built, before, TypeSeries(f, cells, SumCells(cells, n)), m - 1);
    } else {
      RowsSkip(built, before, f, m - 1);
    }
  }

  lemma PageMeans(built: BuiltSeries, out: seq<TypeSeries>)
    requires WellFormed(built)
    requires out == TypesOf(Contributions(built, |built.keys|), |built.days|, |ASSET_TYPE_ORDER|)
    ensures PageMeaning(built, out)
  {
    TypesMean(built, |ASSET_TYPE_ORDER|);
    hide RowMeaning;
    hide EverFalls;
    hide Listed;
    hide TypesOf;
  }

  // ----- conservation -----

  function Known(value: Option<int>): int {
    match value
    case None => 0
    case Some(v) => v
  }

  function KnownSum(cs: seq<Contribution>): int {
    if cs == [] then 0 else KnownSum(cs[..|cs| - 1]) + Known(cs[|cs| - 1].value)
  }

  lemma {:induction false} KnownSumConcat(cs: seq<Contribution>, ds: seq<Contribution>)
    ensures KnownSum(cs + ds) == KnownSum(cs) + KnownSum(ds)
  {
    if ds == [] {
      assert cs + ds == cs;
    } else {
      KnownSumConcat(cs, ds[..|ds| - 1]);
      assert (cs + ds)[..|cs + ds| - 1] == cs + ds[..|ds| - 1];
    }
  }

  function KnownTotal(delta: seq<Delta>, n: nat): int
    requires n <= |delta|
  {
    if n == 0 then 0 else KnownTotal(delta, n - 1) + Known(delta[n - 1].value)
  }

  // The known deltas of the first n assets.
  function AllKnown(built: BuiltSeries, n: nat): int
    requires n <= |built.keys| && WellFormed(built)
  {
    if n == 0 then 0
    else
      var delta := built.series[built.keys[n - 1]].delta;
      AllKnown(built, n - 1) + KnownTotal(delta, |delta|)
  }

  lemma {:induction false} SeriesSum(days: seq<int>, s: AssetSeries, n: nat)
    requires n <= |s.delta| && DaysKnown(days, s)
    ensures KnownSum(OfSeries(days, s, n)) == KnownTotal(s.delta, n)
    ensures forall c | c in OfSeries(days, s, n) :: c.at < |days|
  {
    if n > 0 {
      SeriesSum(days, s, n - 1);
      var c := Contribution(ClassifyAssetType(s.asset), LastIndex(days, s.delta[n - 1].day), s.delta[n - 1].value);
      assert (OfSeries(days, s, n - 1) + [c])[..|OfSeries(days, s, n - 1)|] == OfSeries(days, s, n - 1);
    }
  }

  lemma {:induction false} ContributionsSum(built: BuiltSeries, n: nat)
    requires n <= |built.keys| && WellFormed(built)
    ensures KnownSum(Contributions(built, n)) == AllKnown(built, n)
    ensures forall c | c in Contributions(built, n) :: c.at < |built.days|
  {
    if n > 0 {
      ContributionsSum(built, n - 1);
      var s := built.series[built.keys[n - 1]];
      SeriesSum(built.days, s, |s.delta|);
      KnownSumConcat(Contributions(built, n - 1), OfSeries(built.days, s, |s.delta|));
    }
  }

  lemma {:induction false} FamilySumPush(cs: seq<Contribution>, c: Contribution, f: Family, n: nat, m: nat)
    requires m <= n
    ensures SumCells(CellsOf(cs + [c], f, n), m) ==
            SumCells(CellsOf(cs, f, n), m) + if c.family == f && c.at < m then Known(c.value) else 0
  {
    if m > 0 {
      FamilySumPush(cs, c, f, n, m - 1);
      CellOfPush(cs, c, f, m - 1);
    }
  }

  function FamilySum(cs: seq<Contribution>, f: Family, n: nat): int {
    SumCells(CellsOf(cs, f, n), n)
  }

  // The first m families together.
  function FamiliesSum(cs: seq<Contribution>, n: nat, m: nat): int
    requires m <= |ASSET_TYPE_ORDER|
  {
    if m == 0 then 0 else FamiliesSum(cs, n, m - 1) + FamilySum(cs, ASSET_TYPE_ORDER[m - 1], n)
  }

  lemma {:induction false} EmptySum(f: Family, n: nat, m: nat)
    requires m <= n
    ensures SumCells(CellsOf([], f, n), m) == 0
  {
    if m > 0 {
      EmptySum(f, n, m - 1);
    }
  }

  lemma {:induction false} NothingToShare(n: nat, m: nat)
    requires m <= |ASSET_TYPE_ORDER|
    ensures FamiliesSum([], n, m) == 0
  {
    if m > 0 {
      NothingToShare(n, m - 1);
      EmptySum(ASSET_TYPE_ORDER[m - 1], n, n);
    }
  }

  // A contribution counts in its own family and in no other.
  lemma {:induction false} FamiliesPush(cs: seq<Contribution>, c: Contribution, n: nat, m: nat)
    requires m <= |ASSET_TYPE_ORDER| && c.at < n
    ensures FamiliesSum(cs + [c], n, m) == FamiliesSum(cs, n, m) + if Rank(c.family) < m then Known(c.value) else 0
  {
    if m > 0 {
      FamiliesPush(cs, c, n, m - 1);
      FamilySumPush(cs, c, ASSET_TYPE_ORDER[m - 1], n, n);
    }
  }

  lemma {:induction false} FamiliesShareAll(cs: seq<Contribution>, n: nat)
    requires forall c | c in cs :: c.at < n
    ensures FamiliesSum(cs, n, |ASSET_TYPE_ORDER|) == KnownSum(cs)
  {
    if cs == [] {
      NothingToShare(n, |ASSET_TYPE_ORDER|);
    } else {
      var front, c := cs[..|cs| - 1], cs[|cs| - 1];
      FamiliesShareAll(front, n);
      assert front + [c] == cs && c in cs;
      FamiliesPush(front, c, n, |ASSET_TYPE_ORDER|);
    }
  }

  function SumTotals(out: seq<TypeSeries>): int {
    if out == [] then 0 else SumTotals(out[..|out| - 1]) + out[|out| - 1].total
  }

  lemma SumTotalsPush(out: seq<TypeSeries>, t: TypeSeries)
    ensures SumTotals(out + [t]) == SumTotals(out) + t.total
  {
    assert (out + [t])[..|out|] == out;
  }

  lemma {:induction false} UnobservedSum(cs: seq<Contribution>, f: Family, n: nat, m: nat)
    requires m <= n && !AnyObserved(CellsOf(cs, f, n))
    ensures SumCells(CellsOf(cs, f, n), m) == 0
  {
    if m > 0 {
      UnobservedSum(cs, f, n, m - 1);
      assert !CellsOf(cs, f, n)[m - 1].observed;
      CellMeaning(cs, f, m - 1);
    }
  }

  // Leaving an unobserved family out loses nothing.
  lemma {:induction false} TypesSum(cs: seq<Contribution>, n: nat, m: nat)
    requires m <= |ASSET_TYPE_ORDER|
    ensures SumTotals(TypesOf(cs, n, m)) == FamiliesSum(cs, n, m)
  {
    hide CellOf;
    hide AnyObserved;
    hide SumCells;
    hide SumTotals;
    if m == 0 {
      assert SumTotals([]) == 0 by { EmptyTotals(); }
      assert TypesOf(cs, n, 0) == [];
    } else {
      TypesSum(cs, n, m - 1);
      var f := ASSET_TYPE_ORDER[m - 1];
      var cells, before := CellsOf(cs, f, n), TypesOf(cs, n, m - 1);
      TypesStep(cs, n, m);
      hide TypesOf;
      SumTotalsPush(before, TypeSeries(f, cells, SumCells(cells, n)));
      if !AnyObserved(cells) {
        UnobservedSum(cs, f, n, n);
      }
    }
  }

  lemma EmptyTotals()
    ensures SumTotals([]) == 0
  {}

  // The totals of all families add up to the known deltas of all assets: none is dropped,
  // none is counted twice, and none is invented.
  lemma TotalsConserve(built: BuiltSeries, out: seq<TypeSeries>)
    requires WellFormed(built)
    requires out == TypesOf(Contributions(built, |built.keys|), |built.days|, |ASSET_TYPE_ORDER|)
    ensures SumTotals(out) == AllKnown(built, |built.keys|)
  {
    var cs, n := Contributions(built, |built.keys|), |built.days|;
    ContributionsSum(built, |built.keys|);
    FamiliesShareAll(cs, n);
    TypesSum(cs, n, |ASSET_TYPE_ORDER|);
  }

  // ----- known deltas against the counters -----

  function UnknownJumps(seen: seq<Seen>, n: nat): int
    requires n <= |seen|
  {
    if n <= 1 then 0
    else UnknownJumps(seen, n - 1) + if DeltaAt(seen, n - 1).None? then seen[n - 1].value - seen[n - 2].value else 0
  }

  // What a counter gained is what its known deltas add up to and what changed unseen.
  lemma {:induction false} CounterConserved(s: AssetSeries, seen: seq<Seen>, n: nat)
    requires IsSeriesOf(s, seen) && 0 < n <= |seen|
    ensures seen[n - 1].value - seen[0].value == KnownTotal(s.delta, n) + UnknownJumps(seen, n)
    ensures KnownTotal(s.delta, n) >= 0
  {
    if n == 1 {
      assert KnownTotal(s.delta, 0) == 0 && s.delta[0].value == DeltaAt(seen, 0);
    } else {
      CounterConserved(s, seen, n - 1);
      assert s.delta[n - 1].value == DeltaAt(seen, n - 1);
    }
  }

  // ----- the two together -----

  lemma {:induction false} SightingsHaveDays(snaps: seq<Snapshot>, n: nat, k: string)
    requires n <= |snaps|
    ensures forall x | x in SeenOf(Sightings(snaps, n), k) :: x.day in Days(snaps)
  {
    if n > 0 {
      var last := snaps[n - 1];
      SightingsHaveDays(snaps, n - 1, k);
      assert Days(snaps)[n - 1] == last.day;
      SnapshotHasDay(last, |last.github|, k);
      SeenOfConcat(Sightings(snaps, n - 1), InSnapshot(last, |last.github|), k);
    }
  }

  lemma {:induction false} SnapshotHasDay(snap: Snapshot, n: nat, k: string)
    requires n <= |snap.github|
    ensures forall x | x in SeenOf(InSnapshot(snap, n), k) :: x.day == snap.day
  {
    if n > 0 {
      SnapshotHasDay(snap, n - 1, k);
      SeenOfPush(InSnapshot(snap, n - 1), SightingOf(snap.day, snap.github[n - 1]), k);
    }
  }

  lemma BuiltIsWellFormed(built: BuiltSeries, snaps: seq<Snapshot>)
    requires Builds(built, snaps)
    ensures WellFormed(built)
  {
    forall k | k in built.series ensures DaysKnown(built.days, built.series[k]) {
      var seen := SeenOf(Sightings(snaps, |snaps|), k);
      SightingsHaveDays(snaps, |snaps|, k);
      forall m | 0 <= m < |built.series[k].delta| ensures built.series[k].delta[m].day in built.days {
        assert seen[m] in seen;
      }
    }
  }

  method DailyByType(snapshots: seq<Snapshot>) returns (built: BuiltSeries, out: seq<TypeSeries>)
    ensures Builds(built, Ordered(snapshots)) && WellFormed(built)
    ensures SumTotals(out) == AllKnown(built, |built.keys|) >= 0
    ensures PageMeaning(built, out)
  {
    built := BuildAssetSeries(snapshots);
    BuiltIsWellFormed(built, Ordered(snapshots));
    out := SummarizeDailyByType(built);
    TotalsConserve(built, out);
    PageMeans(built, out);
    AllKnownIsNonNegative(built, Ordered(snapshots), |built.keys|);
  }

  lemma AssetKnownIsNonNegative(built: BuiltSeries, snaps: seq<Snapshot>, k: string)
    requires Builds(built, snaps) && k in built.series
    ensures KnownTotal(built.series[k].delta, |built.series[k].delta|) >= 0
  {
    var seen := SeenOf(Sightings(snaps, |snaps|), k);
    assert IsSeriesOf(built.series[k], seen);
    if seen != [] {
      CounterConserved(built.series[k], seen, |seen|);
    }
  }

  lemma {:induction false} AllKnownIsNonNegative(built: BuiltSeries, snaps: seq<Snapshot>, n: nat)
    requires Builds(built, snaps) && WellFormed(built) && n <= |built.keys|
    ensures AllKnown(built, n) >= 0
  {
    hide Builds;
    hide DaysKnown;
    if n > 0 {
      AllKnownIsNonNegative(built, snaps, n - 1);
      AssetKnownIsNonNegative(built, snaps, built.keys[n - 1]);
    }
  }

  // ----- the page against the snapshots -----

  // A snapshot of that day reports an asset whose series is of the family.
  ghost predicate FamilyReport(
      snapshots: seq<Snapshot>, built: BuiltSeries, f: Family, day: int, k: string, now: Seen) {
    && k in built.series && ClassifyAssetType(built.series[k].asset) == f
    && Reported(snapshots, k, now) && now.day == day
  }

  // No report of the same asset gives the change: none is from the day before, of the same
  // counter as far as the ids tell, and no higher.
  ghost predicate Unexplained(snapshots: seq<Snapshot>, k: string, now: Seen) {
    forall prior, v :: !Gives(snapshots, k, prior, now, v)
  }

  ghost predicate ReportedOn(snapshots: seq<Snapshot>, built: BuiltSeries, f: Family, day: int) {
    exists k, now :: FamilyReport(snapshots, built, f, day, k, now)
  }

  ghost predicate UnexplainedOn(snapshots: seq<Snapshot>, built: BuiltSeries, f: Family, day: int) {
    exists k, now :: FamilyReport(snapshots, built, f, day, k, now) && Unexplained(snapshots, k, now)
  }

  // When no day has two snapshots and no snapshot lists an asset twice: a family's cell is
  // observed exactly when a snapshot of that day reports an asset of the family, and partial
  // exactly when one of those reports leaves the day's change unknown.
  lemma PartialIffUnexplained(snapshots: seq<Snapshot>, built: BuiltSeries, f: Family, i: nat)
    requires DistinctDays(snapshots) && OncePerSnapshot(snapshots)
    requires Builds(built, Ordered(snapshots)) && WellFormed(built) && i < |built.days|
    ensures DeltaFalls(built, f, i) <==> ReportedOn(snapshots, built, f, built.days[i])
    ensures UnknownFalls(built, f, i) <==> UnexplainedOn(snapshots, built, f, built.days[i])
  {
    hide Builds;
    hide WellFormed;
    hide FromAsset;
    hide FamilyReport;
    hide Unexplained;
    hide OncePerSnapshot;
    hide DistinctDays;
    if c :| FromAsset(c, built, |built.keys|) && Feeds(c, f, i) {
      var k, now := DeltaIsReport(snapshots, built, f, i, c);
    }
    if c :| FromAsset(c, built, |built.keys|) && Feeds(c, f, i) && c.value.None? {
      var k, now := DeltaIsReport(snapshots, built, f, i, c);
    }
    if k, now :| FamilyReport(snapshots, built, f, built.days[i], k, now) {
      var c := ReportIsDelta(snapshots, built, f, i, k, now);
    }
    if k, now :| FamilyReport(snapshots, built, f, built.days[i], k, now) && Unexplained(snapshots, k, now) {
      var c := ReportIsDelta(snapshots, built, f, i, k, now);
    }
  }

  lemma UnexplainedIff(snapshots: seq<Snapshot>, k: string, m: nat)
    requires DistinctDays(snapshots) && OncePerSnapshot(snapshots)
    requires m < |SeenOf(Sightings(Ordered(snapshots), |snapshots|), k)|
    ensures var seen := SeenOf(Sightings(Ordered(snapshots), |snapshots|), k);
            Reported(snapshots, k, seen[m]) && (DeltaAt(seen, m).None? <==> Unexplained(snapshots, k, seen[m]))
  {
    SeenAreReported(snapshots, k, m);
    var seen := SeenOf(Sightings(Ordered(snapshots), |snapshots|), k);
    hide Reported;
    hide Gives;
    hide DeltaAt;
    hide SeenOf;
    if DeltaAt(seen, m).Some? {
      var prior := DeltaComesFromReport(snapshots, k, m, DeltaAt(seen, m).value);
    }
    forall prior, v | Gives(snapshots, k, prior, seen[m], v) ensures DeltaAt(seen, m).Some? {
      ReportGivesDelta(snapshots, k, m, prior, v);
    }
  }

  lemma DeltaIsReport(snapshots: seq<Snapshot>, built: BuiltSeries, f: Family, i: nat, c: Contribution)
      returns (k: string, now: Seen)
    requires DistinctDays(snapshots) && OncePerSnapshot(snapshots)
    requires Builds(built, Ordered(snapshots)) && WellFormed(built) && i < |built.days|
    requires FromAsset(c, built, |built.keys|) && Feeds(c, f, i)
    ensures FamilyReport(snapshots, built, f, built.days[i], k, now)
    ensures c.value.None? <==> Unexplained(snapshots, k, now)
  {
    hide Unexplained;
    hide ClassifyAssetType;
    hide SeenOf;
    hide NamedAs;
    hide Reported;
    hide DistinctDays;
    hide OncePerSnapshot;
    var q :| 0 <= q < |built.keys| && FromKey(c, built, q);
    k := built.keys[q];
    var s := built.series[k];
    var m :| 0 <= m < |s.delta| && ComesFrom(c, built.days, s, m);
    var seen := SeenOf(Sightings(Ordered(snapshots), |snapshots|), k);
    assert IsSeriesOf(s, seen);
    now := seen[m];
    UnexplainedIff(snapshots, k, m);
  }

  lemma ReportIsDelta(snapshots: seq<Snapshot>, built: BuiltSeries, f: Family, i: nat, k: string, now: Seen)
      returns (c: Contribution)
    requires DistinctDays(snapshots) && OncePerSnapshot(snapshots)
    requires Builds(built, Ordered(snapshots)) && WellFormed(built) && i < |built.days|
    requires FamilyReport(snapshots, built, f, built.days[i], k, now)
    ensures FromAsset(c, built, |built.keys|) && Feeds(c, f, i)
    ensures c.value.None? <==> Unexplained(snapshots, k, now)
  {
    hide Unexplained;
    hide ClassifyAssetType;
    hide SeenOf;
    hide NamedAs;
    hide Reported;
    var s := built.series[k];
    var seen := SeenOf(Sightings(Ordered(snapshots), |snapshots|), k);
    SeenIsReported(snapshots, k);
    assert IsSeriesOf(s, seen) && now in seen;
    var m :| 0 <= m < |seen| && seen[m] == now;
    UnexplainedIff(snapshots, k, m);
    var q :| 0 <= q < |built.keys| && built.keys[q] == k;
    c := Contribution(f, LastIndex(built.days, s.delta[m].day), s.delta[m].value);
    assert ComesFrom(c, built.days, s, m);
    assert FromKey(c, built, q);
    OrderedByDay(snapshots);
    OneDayOnce(Ordered(snapshots), LastIndex(built.days, now.day), i);
  }

  lemma OneDayOnce(snaps: seq<Snapshot>, i: nat, j: nat)
    requires DaysIncrease(snaps) && i < |snaps| && j < |snaps| && snaps[i].day == snaps[j].day
    ensures i == j
  {
    assert !(i < j) && !(j < i);
  }
}
