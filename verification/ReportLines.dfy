// The answer check of the agent benchmark: `KEY: value` needles must be the report's last
// lines, in order; the others may stand anywhere.
module ReportLines {

  // A needle by its normalized text; `found` is whether the whole answer contains it.
  datatype Needle = Needle(text: string, keyed: bool, found: bool)

  // The keyed needles from the i-th needle on.
  function KeyedFrom(needles: seq<Needle>, i: nat): (texts: seq<string>)
    requires i <= |needles|
    decreases |needles| - i
  {
    if i == |needles| then []
    else (if needles[i].keyed then [needles[i].text] else []) + KeyedFrom(needles, i + 1)
  }

  // The line a keyed needle is held against, counted from the report's end.
  predicate InPlace(lines: seq<string>, needles: seq<Needle>, i: nat)
    requires i < |needles|
  {
    var back := |KeyedFrom(needles, i)|;
    back <= |lines| && (back > 0 ==> lines[|lines| - back] == needles[i].text)
  }

  predicate IsMissing(lines: seq<string>, needles: seq<Needle>, i: nat)
    requires i < |needles|
  {
    if needles[i].keyed then !InPlace(lines, needles, i) else !needles[i].found
  }

  function MissingFrom(lines: seq<string>, needles: seq<Needle>, n: nat): (missing: seq<Needle>)
    requires n <= |needles|
  {
    if n == 0 then []
    else MissingFrom(lines, needles, n - 1) + if IsMissing(lines, needles, n - 1) then [needles[n - 1]] else []
  }

  method MissingFromAnswer(lines: seq<string>, needles: seq<Needle>) returns (missing: seq<Needle>)
    ensures missing == MissingFrom(lines, needles, |needles|)
  {
    var keyed := KeyedFrom(needles, 0);
    var tail := if |keyed| <= |lines| then lines[|lines| - |keyed|..] else lines;
    var position: int := |tail| - |keyed|;
    missing := [];
    for i := 0 to |needles|
      invariant position == |tail| - |KeyedFrom(needles, i)|
      invariant missing == MissingFrom(lines, needles, i)
    {
      if !needles[i].keyed {
        if !needles[i].found {
          missing := missing + [needles[i]];
        }
      } else {
        var same := 0 <= position < |tail| && tail[position] == needles[i].text;
        assert |KeyedFrom(needles, i)| == |KeyedFrom(needles, i + 1)| + 1;
        KeyedShrinks(needles, 0, i);
        position := position + 1;
        if !same {
          missing := missing + [needles[i]];
        }
      }
    }
  }

  lemma {:induction false} KeyedShrinks(needles: seq<Needle>, i: nat, j: nat)
    requires i <= j <= |needles|
    ensures |KeyedFrom(needles, j)| <= |KeyedFrom(needles, i)|
    decreases j - i
  {
    if i < j {
      KeyedShrinks(needles, i + 1, j);
    }
  }

  ghost predicate EndsWith(lines: seq<string>, texts: seq<string>) {
    |texts| <= |lines| && lines[|lines| - |texts|..] == texts
  }

  ghost predicate AllInPlace(lines: seq<string>, needles: seq<Needle>, i: nat)
    requires i <= |needles|
  {
    forall j | i <= j < |needles| && needles[j].keyed :: InPlace(lines, needles, j)
  }

  lemma {:induction false} InPlaceIff(lines: seq<string>, needles: seq<Needle>, i: nat)
    requires i <= |needles|
    ensures AllInPlace(lines, needles, i) <==> EndsWith(lines, KeyedFrom(needles, i))
    decreases |needles| - i
  {
    if i < |needles| {
      InPlaceIff(lines, needles, i + 1);
      assert AllInPlace(lines, needles, i) <==>
        AllInPlace(lines, needles, i + 1) && (needles[i].keyed ==> InPlace(lines, needles, i));
      if needles[i].keyed {
        KeyedStep(lines, needles[i].text, KeyedFrom(needles, i + 1));
      }
    }
  }

  lemma KeyedStep(lines: seq<string>, text: string, rest: seq<string>)
    ensures EndsWith(lines, [text] + rest) <==>
              |rest| < |lines| && lines[|lines| - |rest| - 1] == text && EndsWith(lines, rest)
    ensures EndsWith(lines, [])
  {
    if |rest| < |lines| {
      assert lines[|lines| - |rest| - 1..] == [lines[|lines| - |rest| - 1]] + lines[|lines| - |rest|..];
    }
  }

  lemma {:induction false} MissingIff(lines: seq<string>, needles: seq<Needle>, n: nat)
    requires n <= |needles|
    ensures MissingFrom(lines, needles, n) == [] <==> forall i | 0 <= i < n :: !IsMissing(lines, needles, i)
  {
    if n > 0 {
      MissingIff(lines, needles, n - 1);
    }
  }

  ghost predicate OthersFound(needles: seq<Needle>) {
    forall i | 0 <= i < |needles| && !needles[i].keyed :: needles[i].found
  }

  // An answer lacks nothing exactly when the report ends with the keyed needles, one a line
  // and in the suite's order, and the whole answer contains the others.
  lemma NothingMissingIff(lines: seq<string>, needles: seq<Needle>)
    ensures MissingFrom(lines, needles, |needles|) == [] <==>
              EndsWith(lines, KeyedFrom(needles, 0)) && OthersFound(needles)
  {
    MissingIff(lines, needles, |needles|);
    InPlaceIff(lines, needles, 0);
    hide MissingFrom;
    hide InPlace;
    hide KeyedFrom;
    if forall i | 0 <= i < |needles| :: !IsMissing(lines, needles, i) {
      forall i | 0 <= i < |needles| ensures needles[i].keyed ==> InPlace(lines, needles, i) {
        assert !IsMissing(lines, needles, i);
      }
      forall i | 0 <= i < |needles| ensures !needles[i].keyed ==> needles[i].found {
        assert !IsMissing(lines, needles, i);
      }
    }
  }

  // ----- which needles are named -----

  // The keyed needles from the i-th on, by their positions.
  ghost function KeyedPositions(needles: seq<Needle>, i: nat): set<nat> {
    set j: nat | i <= j < |needles| && needles[j].keyed
  }

  lemma {:induction false} KeyedCount(needles: seq<Needle>, i: nat)
    requires i <= |needles|
    ensures |KeyedFrom(needles, i)| == |KeyedPositions(needles, i)|
    decreases |needles| - i
  {
    if i < |needles| {
      KeyedCount(needles, i + 1);
      assert KeyedPositions(needles, i) ==
        KeyedPositions(needles, i + 1) + if needles[i].keyed then {i} else {};
      assert i !in KeyedPositions(needles, i + 1);
    } else {
      assert KeyedPositions(needles, i) == {};
    }
  }

  // A keyed needle lacks its line if the report is too short or has another there, as far from
  // its end as there are keyed needles from this one on; another needle if it was not found.
  ghost predicate Lacks(lines: seq<string>, needles: seq<Needle>, i: nat)
    requires i < |needles|
  {
    if needles[i].keyed then
      var back := |KeyedPositions(needles, i)|;
      back > |lines| || (back > 0 && lines[|lines| - back] != needles[i].text)
    else !needles[i].found
  }

  ghost predicate Increasing(ids: seq<nat>) {
    forall k, m | 0 <= k < m < |ids| :: ids[k] < ids[m]
  }

  // `missing` are the needles at the positions `ids`, those among the first n that lack.
  ghost predicate NamesThose(lines: seq<string>, needles: seq<Needle>, n: nat, missing: seq<Needle>, ids: seq<nat>)
    requires n <= |needles|
  {
    && Increasing(ids) && |ids| == |missing|
    && (forall k | 0 <= k < |ids| :: ids[k] < n && missing[k] == needles[ids[k]])
    && (forall i: nat | i < n :: i in ids <==> Lacks(lines, needles, i))
  }

  lemma LacksIs(lines: seq<string>, needles: seq<Needle>, i: nat)
    requires i < |needles|
    ensures Lacks(lines, needles, i) <==> IsMissing(lines, needles, i)
  {
    KeyedCount(needles, i);
    hide KeyedPositions;
  }

  lemma {:induction false} FirstAreNamed(lines: seq<string>, needles: seq<Needle>, n: nat) returns (ids: seq<nat>)
    requires n <= |needles|
    ensures NamesThose(lines, needles, n, MissingFrom(lines, needles, n), ids)
  {
    hide Lacks;
    hide IsMissing;
    if n == 0 {
      ids := [];
      assert MissingFrom(lines, needles, 0) == [];
    } else {
      hide NamesThose;
      var before := FirstAreNamed(lines, needles, n - 1);
      LacksIs(lines, needles, n - 1);
      var missing := MissingFrom(lines, needles, n - 1);
      if IsMissing(lines, needles, n - 1) {
        NamesOneMore(lines, needles, n - 1, missing, before);
        ids := before + [n - 1];
      } else {
        NamesNoMore(lines, needles, n - 1, missing, before);
        ids := before;
        assert missing + [] == missing;
      }
    }
  }

  lemma NamesOneMore(lines: seq<string>, needles: seq<Needle>, n: nat, missing: seq<Needle>, ids: seq<nat>)
    requires n < |needles| && NamesThose(lines, needles, n, missing, ids) && Lacks(lines, needles, n)
    ensures NamesThose(lines, needles, n + 1, missing + [needles[n]], ids + [n])
  {
    hide Lacks;
    var more := ids + [n];
    assert more[|ids|] == n;
    forall i: nat | i < n + 1 ensures i in more <==> Lacks(lines, needles, i) {
      assert i in more <==> i in ids || i == n;
    }
  }

  lemma NamesNoMore(lines: seq<string>, needles: seq<Needle>, n: nat, missing: seq<Needle>, ids: seq<nat>)
    requires n < |needles| && NamesThose(lines, needles, n, missing, ids) && !Lacks(lines, needles, n)
    ensures NamesThose(lines, needles, n + 1, missing, ids)
  {
    hide Lacks;
    hide Increasing;
    assert n !in ids;
  }

  // The answer names exactly the needles that lack their place, in their order, each once.
  lemma MissingAreNamed(lines: seq<string>, needles: seq<Needle>) returns (ids: seq<nat>)
    ensures NamesThose(lines, needles, |needles|, MissingFrom(lines, needles, |needles|), ids)
  {
    ids := FirstAreNamed(lines, needles, |needles|);
  }
}
