// The structural diff of two parsed JSON schemas: what it reports, and what an empty report
// means.
module SchemaDiff {
  import opened Options

  datatype Json =
    | Null
    | Bool(b: bool)
    | Num(n: real)
    | Str(s: string)
    | Arr(items: seq<Json>)
    | Obj(fields: seq<Field>)

  datatype Field = Field(key: string, value: Json)

  datatype Step = Index(i: nat) | Key(k: string)

  datatype Kind =
    | ArrayLengths(canonical: nat, android: nat)
    | MissingFromAndroid
    | MissingFromCanonical
    | Differ

  datatype Diff = Diff(path: seq<Step>, kind: Kind)

  predicate Has(j: Json, key: string)
    requires j.Obj?
  {
    exists i :: 0 <= i < |j.fields| && j.fields[i].key == key
  }

  function IndexOf(j: Json, key: string, from: nat): (r: nat)
    requires j.Obj? && from <= |j.fields| && exists i :: from <= i < |j.fields| && j.fields[i].key == key
    ensures from <= r < |j.fields| && j.fields[r].key == key
    decreases |j.fields| - from
  {
    if j.fields[from].key == key then from else IndexOf(j, key, from + 1)
  }

  function Get(j: Json, key: string): (r: Json)
    requires j.Obj? && Has(j, key)
    ensures r < j
    ensures exists i :: 0 <= i < |j.fields| && j.fields[i] == Field(key, r)
  {
    assert j.fields[IndexOf(j, key, 0)] == Field(key, j.fields[IndexOf(j, key, 0)].value);
    j.fields[IndexOf(j, key, 0)].value
  }

  // ----- equality up to the order of object keys -----

  ghost predicate Equal(c: Json, a: Json)
    decreases c
  {
    if c.Arr? && a.Arr? then
      |c.items| == |a.items| && forall i | 0 <= i < |c.items| :: Equal(c.items[i], a.items[i])
    else if c.Obj? && a.Obj? then
      forall key: string :: (Has(c, key) <==> Has(a, key)) && (Has(c, key) && Has(a, key) ==> Equal(Get(c, key), Get(a, key)))
    else
      c == a
  }

  // ----- the keys of both objects, sorted, each once -----

  predicate Less(x: string, y: string) {
    if y == [] then false
    else if x == [] then true
    else x[0] < y[0] || (x[0] == y[0] && Less(x[1..], y[1..]))
  }

  predicate Ascending(keys: seq<string>) {
    forall i, k | 0 <= i < k < |keys| :: Less(keys[i], keys[k])
  }

  lemma {:induction false} LessTrans(x: string, y: string, z: string)
    requires Less(x, y) && Less(y, z)
    ensures Less(x, z)
  {
    if x != [] && x[0] == y[0] && y[0] == z[0] {
      LessTrans(x[1..], y[1..], z[1..]);
    }
  }

  lemma {:induction false} LessTotal(x: string, y: string)
    ensures x == y || Less(x, y) || Less(y, x)
    ensures !Less(x, x)
  {
    if x != [] {
      LessTotal(x[1..], x[1..]);
      if y != [] {
        LessTotal(x[1..], y[1..]);
        assert x == [x[0]] + x[1..] && y == [y[0]] + y[1..];
      }
    }
  }

  function Insert(key: string, keys: seq<string>): (r: seq<string>)
    requires Ascending(keys)
    ensures Ascending(r)
    ensures forall k :: k in r <==> k == key || k in keys
  {
    LessTotal(key, if keys == [] then key else keys[0]);
    if keys == [] then [key]
    else if key == keys[0] then keys
    else if Less(key, keys[0]) then
      InsertFront(key, keys);
      [key] + keys
    else
      var rest := Insert(key, keys[1..]);
      InsertBehind(keys[0], rest);
      [keys[0]] + rest
  }

  lemma InsertFront(key: string, keys: seq<string>)
    requires Ascending(keys) && keys != [] && Less(key, keys[0])
    ensures Ascending([key] + keys)
  {
    forall i | 0 <= i < |keys| ensures Less(key, keys[i]) {
      if i > 0 {
        LessTrans(key, keys[0], keys[i]);
      }
    }
  }

  lemma InsertBehind(first: string, rest: seq<string>)
    requires Ascending(rest) && forall k | k in rest :: Less(first, k)
    ensures Ascending([first] + rest)
  {}

  function SortedKeys(fields: seq<Field>): (r: seq<string>)
    ensures Ascending(r)
    ensures forall k :: k in r <==> exists i :: 0 <= i < |fields| && fields[i].key == k
  {
    if fields == [] then [] else Insert(fields[0].key, SortedKeys(fields[1..]))
  }

  lemma AscendingDistinct(keys: seq<string>)
    requires Ascending(keys)
    ensures forall i, k | 0 <= i < k < |keys| :: keys[i] != keys[k]
  {
    forall i, k | 0 <= i < k < |keys| ensures keys[i] != keys[k] {
      LessTotal(keys[i], keys[k]);
    }
  }

  function AllKeys(c: Json, a: Json): (r: seq<string>)
    requires c.Obj? && a.Obj?
    ensures Ascending(r)
    ensures forall k :: k in r <==> Has(c, k) || Has(a, k)
  {
    var r := SortedKeys(c.fields + a.fields);
    assert forall k :: k in r <==> Has(c, k) || Has(a, k) by {
      forall k ensures k in r <==> Has(c, k) || Has(a, k) {
        if Has(c, k) {
          var i :| 0 <= i < |c.fields| && c.fields[i].key == k;
          assert (c.fields + a.fields)[i].key == k;
        }
        if Has(a, k) {
          var i :| 0 <= i < |a.fields| && a.fields[i].key == k;
          assert (c.fields + a.fields)[|c.fields| + i].key == k;
        }
      }
    }
    r
  }

  // ----- the diff -----

  function Diffs(c: Json, a: Json, path: seq<Step>): seq<Diff>
    decreases c, 2, 0
  {
    if c.Arr? && a.Arr? then
      if |c.items| != |a.items| then [Diff(path, ArrayLengths(|c.items|, |a.items|))]
      else ItemDiffs(c, a, path, |c.items|)
    else if c.Obj? && a.Obj? then FieldDiffs(c, a, path, AllKeys(c, a))
    else if c != a then [Diff(path, Differ)]
    else []
  }

  // The diffs of the first n items, in order.
  function ItemDiffs(c: Json, a: Json, path: seq<Step>, n: nat): seq<Diff>
    requires c.Arr? && a.Arr? && |c.items| == |a.items| && n <= |c.items|
    decreases c, 1, n
  {
    if n == 0 then []
    else ItemDiffs(c, a, path, n - 1) + Diffs(c.items[n - 1], a.items[n - 1], path + [Index(n - 1)])
  }

  function FieldDiff(c: Json, a: Json, path: seq<Step>, key: string): seq<Diff>
    requires c.Obj? && a.Obj? && (Has(c, key) || Has(a, key))
    decreases c, 0, 0
  {
    if !Has(a, key) then [Diff(path + [Key(key)], MissingFromAndroid)]
    else if !Has(c, key) then [Diff(path + [Key(key)], MissingFromCanonical)]
    else Diffs(Get(c, key), Get(a, key), path + [Key(key)])
  }

  function FieldDiffs(c: Json, a: Json, path: seq<Step>, keys: seq<string>): seq<Diff>
    requires c.Obj? && a.Obj? && forall k | k in keys :: Has(c, k) || Has(a, k)
    decreases c, 1, |keys|
  {
    if keys == [] then []
    else FieldDiffs(c, a, path, keys[..|keys| - 1]) + FieldDiff(c, a, path, keys[|keys| - 1])
  }

  // ----- what is in a list of diffs -----

  lemma {:induction false} InItemDiffs(c: Json, a: Json, path: seq<Step>, n: nat, d: Diff)
    requires c.Arr? && a.Arr? && |c.items| == |a.items| && n <= |c.items|
    ensures d in ItemDiffs(c, a, path, n) <==>
            exists i: nat :: i < n && d in Diffs(c.items[i], a.items[i], path + [Index(i)])
  {
    if n > 0 {
      InItemDiffs(c, a, path, n - 1, d);
    }
  }

  lemma {:induction false} InFieldDiffs(c: Json, a: Json, path: seq<Step>, keys: seq<string>, d: Diff)
    requires c.Obj? && a.Obj? && forall k | k in keys :: Has(c, k) || Has(a, k)
    ensures d in FieldDiffs(c, a, path, keys) <==> exists k :: k in keys && d in FieldDiff(c, a, path, k)
    decreases |keys|
  {
    if keys != [] {
      var last := keys[|keys| - 1];
      InFieldDiffs(c, a, path, keys[..|keys| - 1], d);
      assert keys == keys[..|keys| - 1] + [last];
      assert d in FieldDiffs(c, a, path, keys) <==>
        d in FieldDiffs(c, a, path, keys[..|keys| - 1]) || d in FieldDiff(c, a, path, last);
    }
  }

  // ----- the differences there are -----

  // Following `rel` through both values, the comparison stops there, for that reason.
  ghost predicate DifferAt(c: Json, a: Json, rel: seq<Step>, kind: Kind)
    decreases |rel|
  {
    if rel == [] then
      if c.Arr? && a.Arr? then kind == ArrayLengths(|c.items|, |a.items|) && |c.items| != |a.items|
      else kind == Differ && !(c.Obj? && a.Obj?) && c != a
    else
      match rel[0]
      case Index(i) =>
        c.Arr? && a.Arr? && i < |c.items| == |a.items| && DifferAt(c.items[i], a.items[i], rel[1..], kind)
      case Key(k) =>
        c.Obj? && a.Obj? &&
        if Has(c, k) && Has(a, k) then DifferAt(Get(c, k), Get(a, k), rel[1..], kind)
        else if Has(c, k) then rel == [Key(k)] && kind == MissingFromAndroid
        else Has(a, k) && rel == [Key(k)] && kind == MissingFromCanonical
  }

  // Where a path leads, if it leads anywhere.
  function At(j: Json, rel: seq<Step>): Option<Json>
    decreases |rel|
  {
    if rel == [] then Some(j)
    else
      match rel[0]
      case Index(i) => if j.Arr? && i < |j.items| then At(j.items[i], rel[1..]) else None
      case Key(k) => if j.Obj? && Has(j, k) then At(Get(j, k), rel[1..]) else None
  }

  // A reported difference is a genuine one: the two values at its path are unequal, or just
  // one of them exists.
  lemma {:induction false} DifferenceIsGenuine(c: Json, a: Json, rel: seq<Step>, kind: Kind)
    requires DifferAt(c, a, rel, kind)
    ensures match kind
            case MissingFromAndroid => At(c, rel).Some? && At(a, rel).None?
            case MissingFromCanonical => At(c, rel).None? && At(a, rel).Some?
            case ArrayLengths(m, n) =>
              At(c, rel).Some? && At(a, rel).Some? && At(c, rel).value.Arr? && At(a, rel).value.Arr?
              && |At(c, rel).value.items| == m != n == |At(a, rel).value.items|
            case Differ =>
              At(c, rel).Some? && At(a, rel).Some? && !Equal(At(c, rel).value, At(a, rel).value)
    decreases |rel|
  {
    if rel != [] {
      match rel[0] {
        case Index(i) => DifferenceIsGenuine(c.items[i], a.items[i], rel[1..], kind);
        case Key(k) =>
          if Has(c, k) && Has(a, k) {
            DifferenceIsGenuine(Get(c, k), Get(a, k), rel[1..], kind);
          }
      }
    }
  }

  // ----- main results -----

  // The report is sound: each line stands for a difference below its own path.
  lemma {:induction false} ReportedDiffers(c: Json, a: Json, path: seq<Step>, d: Diff)
    requires d in Diffs(c, a, path)
    ensures path <= d.path && DifferAt(c, a, d.path[|path|..], d.kind)
    decreases c, 1
  {
    if c.Arr? && a.Arr? {
      if |c.items| == |a.items| {
        InItemDiffs(c, a, path, |c.items|, d);
        var i: nat :| i < |c.items| && d in Diffs(c.items[i], a.items[i], path + [Index(i)]);
        ReportedDiffers(c.items[i], a.items[i], path + [Index(i)], d);
        StepIn(path, Index(i), d.path);
      }
    } else if c.Obj? && a.Obj? {
      InFieldDiffs(c, a, path, AllKeys(c, a), d);
      var k :| k in AllKeys(c, a) && d in FieldDiff(c, a, path, k);
      ReportedFieldDiffers(c, a, path, k, d);
    }
  }

  lemma {:induction false} ReportedFieldDiffers(c: Json, a: Json, path: seq<Step>, k: string, d: Diff)
    requires c.Obj? && a.Obj? && (Has(c, k) || Has(a, k)) && d in FieldDiff(c, a, path, k)
    ensures path <= d.path && DifferAt(c, a, d.path[|path|..], d.kind)
    decreases c, 0
  {
    if Has(c, k) && Has(a, k) {
      ReportedDiffers(Get(c, k), Get(a, k), path + [Key(k)], d);
    }
    StepIn(path, Key(k), d.path);
  }

  lemma StepIn(path: seq<Step>, step: Step, longer: seq<Step>)
    requires path + [step] <= longer
    ensures path <= longer && longer[|path|..] == [step] + longer[|path| + 1..]
  {
    assert longer[|path|] == (path + [step])[|path|];
  }

  // The report is complete: every difference there is has its line.
  lemma {:induction false} DifferenceIsReported(c: Json, a: Json, path: seq<Step>, rel: seq<Step>, kind: Kind)
    requires DifferAt(c, a, rel, kind)
    ensures Diff(path + rel, kind) in Diffs(c, a, path)
    decreases |rel|
  {
    if rel == [] {
      assert path + rel == path;
    } else {
      assert path + rel == (path + [rel[0]]) + rel[1..];
      var d := Diff(path + rel, kind);
      match rel[0] {
        case Index(i) =>
          DifferenceIsReported(c.items[i], a.items[i], path + [Index(i)], rel[1..], kind);
          InItemDiffs(c, a, path, |c.items|, d);
        case Key(k) =>
          if Has(c, k) && Has(a, k) {
            DifferenceIsReported(Get(c, k), Get(a, k), path + [Key(k)], rel[1..], kind);
          }
          assert d in FieldDiff(c, a, path, k);
          InFieldDiffs(c, a, path, AllKeys(c, a), d);
      }
    }
  }

  // The order of the report: by the first step in which two paths part, items by their index
  // and properties by their name.
  predicate StepLess(s: Step, t: Step) {
    (s.Index? && t.Index? && s.i < t.i) || (s.Key? && t.Key? && Less(s.k, t.k))
  }

  predicate PartsAt(p: seq<Step>, q: seq<Step>, m: nat) {
    m < |p| && m < |q| && p[..m] == q[..m] && StepLess(p[m], q[m])
  }

  ghost predicate PathLess(p: seq<Step>, q: seq<Step>) {
    exists m: nat :: PartsAt(p, q, m)
  }

  ghost predicate PathsAscend(ds: seq<Diff>) {
    forall i, k | 0 <= i < k < |ds| :: PathLess(ds[i].path, ds[k].path)
  }

  lemma AscendAppend(xs: seq<Diff>, ys: seq<Diff>)
    requires PathsAscend(xs) && PathsAscend(ys)
    requires forall x, y | x in xs && y in ys :: PathLess(x.path, y.path)
    ensures PathsAscend(xs + ys)
  {
    hide PathLess;
  }

  lemma PartUnder(path: seq<Step>, s: Step, t: Step, p: seq<Step>, q: seq<Step>)
    requires path + [s] <= p && path + [t] <= q && StepLess(s, t)
    ensures PathLess(p, q)
  {
    assert p[..|path|] == (path + [s])[..|path|] == path;
    assert q[..|path|] == (path + [t])[..|path|] == path;
    assert p[|path|] == (path + [s])[|path|] && q[|path|] == (path + [t])[|path|];
    assert PartsAt(p, q, |path|);
  }

  // The differences are reported in the order of their paths.
  lemma {:induction false} ReportAscends(c: Json, a: Json, path: seq<Step>)
    ensures PathsAscend(Diffs(c, a, path))
    decreases c, 2, 0
  {
    hide PathLess;
    if c.Arr? && a.Arr? && |c.items| == |a.items| {
      ItemsAscend(c, a, path, |c.items|);
    } else if c.Obj? && a.Obj? {
      FieldsAscend(c, a, path, AllKeys(c, a));
    }
  }

  lemma {:induction false} ItemsAscend(c: Json, a: Json, path: seq<Step>, n: nat)
    requires c.Arr? && a.Arr? && |c.items| == |a.items| && n <= |c.items|
    ensures PathsAscend(ItemDiffs(c, a, path, n))
    decreases c, 1, n
  {
    hide PathLess;
    if n > 0 {
      var xs := ItemDiffs(c, a, path, n - 1);
      var ys := Diffs(c.items[n - 1], a.items[n - 1], path + [Index(n - 1)]);
      ItemsAscend(c, a, path, n - 1);
      ReportAscends(c.items[n - 1], a.items[n - 1], path + [Index(n - 1)]);
      forall x, y | x in xs && y in ys ensures PathLess(x.path, y.path) {
        InItemDiffs(c, a, path, n - 1, x);
        var i: nat :| i < n - 1 && x in Diffs(c.items[i], a.items[i], path + [Index(i)]);
        ReportedDiffers(c.items[i], a.items[i], path + [Index(i)], x);
        ReportedDiffers(c.items[n - 1], a.items[n - 1], path + [Index(n - 1)], y);
        PartUnder(path, Index(i), Index(n - 1), x.path, y.path);
      }
      AscendAppend(xs, ys);
    }
  }

  lemma FieldDiffUnderKey(c: Json, a: Json, path: seq<Step>, k: string, d: Diff)
    requires c.Obj? && a.Obj? && (Has(c, k) || Has(a, k)) && d in FieldDiff(c, a, path, k)
    ensures path + [Key(k)] <= d.path
  {
    if Has(c, k) && Has(a, k) {
      ReportedDiffers(Get(c, k), Get(a, k), path + [Key(k)], d);
    }
  }

  lemma {:induction false} FieldsAscend(c: Json, a: Json, path: seq<Step>, keys: seq<string>)
    requires c.Obj? && a.Obj? && (forall k | k in keys :: Has(c, k) || Has(a, k)) && Ascending(keys)
    ensures PathsAscend(FieldDiffs(c, a, path, keys))
    decreases c, 1, |keys|
  {
    hide PathLess;
    if keys != [] {
      var last := keys[|keys| - 1];
      var before := keys[..|keys| - 1];
      var xs := FieldDiffs(c, a, path, before);
      var ys := FieldDiff(c, a, path, last);
      FieldsAscend(c, a, path, before);
      if Has(c, last) && Has(a, last) {
        ReportAscends(Get(c, last), Get(a, last), path + [Key(last)]);
      }
      forall x, y | x in xs && y in ys ensures PathLess(x.path, y.path) {
        InFieldDiffs(c, a, path, before, x);
        var k :| k in before && x in FieldDiff(c, a, path, k);
        FieldDiffUnderKey(c, a, path, k, x);
        FieldDiffUnderKey(c, a, path, last, y);
        assert Less(k, last);
        PartUnder(path, Key(k), Key(last), x.path, y.path);
      }
      AscendAppend(xs, ys);
    }
  }

  predicate DistinctPaths(ds: seq<Diff>) {
    forall i, k | 0 <= i < k < |ds| :: ds[i].path != ds[k].path
  }

  // So no path is reported twice.
  lemma NoPathTwice(c: Json, a: Json, path: seq<Step>)
    ensures DistinctPaths(Diffs(c, a, path))
  {
    ReportAscends(c, a, path);
    var ds := Diffs(c, a, path);
    hide Diffs;
    forall i, k | 0 <= i < k < |ds| ensures ds[i].path != ds[k].path {
      var m: nat :| PartsAt(ds[i].path, ds[k].path, m);
      if ds[i].path[m].Key? {
        LessTotal(ds[i].path[m].k, ds[k].path[m].k);
      }
    }
  }

  // An empty report means equal up to key order, and the other way round.
  lemma {:induction false} EmptyIffEqual(c: Json, a: Json, path: seq<Step>)
    ensures Diffs(c, a, path) == [] <==> Equal(c, a)
    decreases c
  {
    if c.Arr? && a.Arr? {
      if |c.items| == |a.items| {
        forall i: nat | i < |c.items|
          ensures ItemClean(c, a, path, i) <==> Equal(c.items[i], a.items[i])
        {
          EmptyIffEqual(c.items[i], a.items[i], path + [Index(i)]);
        }
        ItemsEmpty(c, a, path, |c.items|);
      }
    } else if c.Obj? && a.Obj? {
      forall k | Has(c, k) && Has(a, k)
        ensures FieldDiff(c, a, path, k) == [] <==> Equal(Get(c, k), Get(a, k))
      {
        EmptyIffEqual(Get(c, k), Get(a, k), path + [Key(k)]);
      }
      FieldsEmpty(c, a, path, AllKeys(c, a));
      FieldwiseEqual(c, a, path);
    }
  }

  predicate ItemClean(c: Json, a: Json, path: seq<Step>, i: nat)
    requires c.Arr? && a.Arr? && i < |c.items| == |a.items|
  {
    Diffs(c.items[i], a.items[i], path + [Index(i)]) == []
  }

  lemma {:induction false} ItemsEmpty(c: Json, a: Json, path: seq<Step>, n: nat)
    requires c.Arr? && a.Arr? && |c.items| == |a.items| && n <= |c.items|
    ensures ItemDiffs(c, a, path, n) == [] <==>
            forall i: nat | i < n :: ItemClean(c, a, path, i)
  {
    if n > 0 {
      ItemsEmpty(c, a, path, n - 1);
      assert ItemDiffs(c, a, path, n) == [] <==> ItemDiffs(c, a, path, n - 1) == [] && ItemClean(c, a, path, n - 1);
    }
  }

  lemma {:induction false} FieldsEmpty(c: Json, a: Json, path: seq<Step>, keys: seq<string>)
    requires c.Obj? && a.Obj? && forall k | k in keys :: Has(c, k) || Has(a, k)
    ensures FieldDiffs(c, a, path, keys) == [] <==> forall k | k in keys :: FieldDiff(c, a, path, k) == []
    decreases |keys|
  {
    if keys != [] {
      var front, last := keys[..|keys| - 1], keys[|keys| - 1];
      FieldsEmpty(c, a, path, front);
      assert forall k :: k in keys <==> k in front || k == last;
      assert FieldDiffs(c, a, path, keys) == [] <==>
        FieldDiffs(c, a, path, front) == [] && FieldDiff(c, a, path, last) == [];
    }
  }

  lemma FieldwiseEqual(c: Json, a: Json, path: seq<Step>)
    requires c.Obj? && a.Obj?
    requires forall k | Has(c, k) && Has(a, k) :: FieldDiff(c, a, path, k) == [] <==> Equal(Get(c, k), Get(a, k))
    ensures Equal(c, a) <==> forall k | k in AllKeys(c, a) :: FieldDiff(c, a, path, k) == []
  {
    if forall k | k in AllKeys(c, a) :: FieldDiff(c, a, path, k) == [] {
      forall k: string
        ensures (Has(c, k) <==> Has(a, k)) && (Has(c, k) && Has(a, k) ==> Equal(Get(c, k), Get(a, k)))
      {
        if Has(c, k) || Has(a, k) {
          assert k in AllKeys(c, a);
        }
      }
    }
  }

  lemma FieldDiffsOneMore(c: Json, a: Json, path: seq<Step>, keys: seq<string>, i: nat)
    requires c.Obj? && a.Obj? && i < |keys| && forall k | k in keys :: Has(c, k) || Has(a, k)
    ensures FieldDiffs(c, a, path, keys[..i + 1]) == FieldDiffs(c, a, path, keys[..i]) + FieldDiff(c, a, path, keys[i])
  {
    assert keys[..i + 1][..i] == keys[..i];
  }

  // ----- the code: recursion that pushes into a local array -----

  method StructuralDiffPaths(c: Json, a: Json, path: seq<Step>) returns (diffs: seq<Diff>)
    ensures diffs == Diffs(c, a, path)
    decreases c
  {
    if c.Arr? && a.Arr? {
      if |c.items| != |a.items| {
        return [Diff(path, ArrayLengths(|c.items|, |a.items|))];
      }
      diffs := [];
      var i := 0;
      while i < |c.items|
        invariant 0 <= i <= |c.items|
        invariant diffs == ItemDiffs(c, a, path, i)
      {
        var below := StructuralDiffPaths(c.items[i], a.items[i], path + [Index(i)]);
        diffs := diffs + below;
        i := i + 1;
      }
    } else if c.Obj? && a.Obj? {
      diffs := [];
      var keys := AllKeys(c, a);
      var i := 0;
      while i < |keys|
        invariant 0 <= i <= |keys|
        invariant diffs == FieldDiffs(c, a, path, keys[..i])
      {
        var key := keys[i];
        FieldDiffsOneMore(c, a, path, keys, i);
        if Has(c, key) && !Has(a, key) {
          diffs := diffs + [Diff(path + [Key(key)], MissingFromAndroid)];
        } else if !Has(c, key) && Has(a, key) {
          diffs := diffs + [Diff(path + [Key(key)], MissingFromCanonical)];
        } else {
          var below := StructuralDiffPaths(Get(c, key), Get(a, key), path + [Key(key)]);
          diffs := diffs + below;
        }
        i := i + 1;
      }
      assert keys[..i] == keys;
    } else if c != a {
      return [Diff(path, Differ)];
    } else {
      return [];
    }
  }

  method SchemasStructurallyEqual(c: Json, a: Json) returns (equal: bool)
    ensures equal <==> Equal(c, a)
  {
    var diffs := StructuralDiffPaths(c, a, []);
    EmptyIffEqual(c, a, []);
    equal := |diffs| == 0;
  }
}
