// The tool-sequence diff of the agent benchmark: a table of LCS lengths filled backwards,
// a walk over it, and why the script the walk writes is the best of all scripts.
module ToolSequenceDiff {

  datatype Line =
    | Same(tool: string, baselineIndex: nat, actualIndex: nat)
    | Extra(tool: string, actualIndex: nat)
    | Missing(tool: string, baselineIndex: nat)

  // ----- what a diff is -----

  // `lines` takes b[i..] and a[j..] from the front, in step, to their ends.
  predicate IsScript(lines: seq<Line>, b: seq<string>, i: nat, a: seq<string>, j: nat)
    requires i <= |b| && j <= |a|
    decreases |lines|
  {
    if lines == [] then i == |b| && j == |a|
    else
      match lines[0]
      case Same(t, bi, ai) =>
        i < |b| && j < |a| && bi == i && ai == j && b[i] == a[j] == t && IsScript(lines[1..], b, i + 1, a, j + 1)
      case Extra(t, ai) => j < |a| && ai == j && a[j] == t && IsScript(lines[1..], b, i, a, j + 1)
      case Missing(t, bi) => i < |b| && bi == i && b[i] == t && IsScript(lines[1..], b, i + 1, a, j)
  }

  function SameCount(lines: seq<Line>): (n: nat)
    ensures n <= |lines|
  {
    if lines == [] then 0 else (if lines[0].Same? then 1 else 0) + SameCount(lines[1..])
  }

  function Edits(lines: seq<Line>): nat {
    |lines| - SameCount(lines)
  }

  // What the baseline side of a script spells, and at which indices.
  function BaselineSide(lines: seq<Line>): seq<(nat, string)> {
    if lines == [] then []
    else
      var rest := BaselineSide(lines[1..]);
      match lines[0]
      case Same(t, bi, _) => [(bi, t)] + rest
      case Missing(t, bi) => [(bi, t)] + rest
      case Extra(_, _) => rest
  }

  function ActualSide(lines: seq<Line>): seq<(nat, string)> {
    if lines == [] then []
    else
      var rest := ActualSide(lines[1..]);
      match lines[0]
      case Same(t, _, ai) => [(ai, t)] + rest
      case Extra(t, ai) => [(ai, t)] + rest
      case Missing(_, _) => rest
  }

  // The two sequences, each tool with its index, from one position on.
  function Numbered(s: seq<string>, i: nat): (r: seq<(nat, string)>)
    requires i <= |s|
    ensures |r| == |s| - i && forall k | 0 <= k < |r| :: r[k] == (i + k, s[i + k])
    decreases |s| - i
  {
    if i == |s| then [] else [(i, s[i])] + Numbered(s, i + 1)
  }

  lemma {:induction false} ScriptSides(lines: seq<Line>, b: seq<string>, i: nat, a: seq<string>, j: nat)
    requires i <= |b| && j <= |a| && IsScript(lines, b, i, a, j)
    ensures BaselineSide(lines) == Numbered(b, i)
    ensures ActualSide(lines) == Numbered(a, j)
    ensures 2 * SameCount(lines) + Edits(lines) == |b| - i + |a| - j
    decreases |lines|
  {
    if lines != [] {
      match lines[0] {
        case Same(_, _, _) => ScriptSides(lines[1..], b, i + 1, a, j + 1);
        case Extra(_, _) => ScriptSides(lines[1..], b, i, a, j + 1);
        case Missing(_, _) => ScriptSides(lines[1..], b, i + 1, a, j);
      }
    }
  }

  // ----- common subsequences -----

  // c occurs in s at the strictly increasing positions p, all at or after `from`.
  predicate OccursAt(c: seq<string>, s: seq<string>, p: seq<nat>, from: nat) {
    && |p| == |c|
    && (forall k | 0 <= k < |p| :: from <= p[k] < |s| && s[p[k]] == c[k])
    && (forall k, m | 0 <= k < m < |p| :: p[k] < p[m])
  }

  ghost predicate CommonSubsequence(c: seq<string>, b: seq<string>, a: seq<string>) {
    exists p, q :: OccursAt(c, b, p, 0) && OccursAt(c, a, q, 0)
  }

  // The recurrence the table holds.
  function Best(b: seq<string>, i: nat, a: seq<string>, j: nat): nat
    requires i <= |b| && j <= |a|
    decreases |b| - i + |a| - j
  {
    if i == |b| || j == |a| then 0
    else if b[i] == a[j] then Best(b, i + 1, a, j + 1) + 1
    else Max(Best(b, i + 1, a, j), Best(b, i, a, j + 1))
  }

  function Max(x: nat, y: nat): nat {
    if x < y then y else x
  }

  lemma {:induction false} NoneLongerThanBest(
      c: seq<string>, b: seq<string>, i: nat, p: seq<nat>, a: seq<string>, j: nat, q: seq<nat>)
    requires i <= |b| && j <= |a| && OccursAt(c, b, p, i) && OccursAt(c, a, q, j)
    ensures |c| <= Best(b, i, a, j)
    decreases |b| - i + |a| - j
  {
    if c != [] {
      assert i <= p[0] < |b| && j <= q[0] < |a|;
      if b[i] == a[j] {
        NoneLongerThanBest(c[1..], b, i + 1, p[1..], a, j + 1, q[1..]);
      } else if i < p[0] {
        NoneLongerThanBest(c, b, i + 1, p, a, j, q);
      } else {
        assert j < q[0];
        NoneLongerThanBest(c, b, i, p, a, j + 1, q);
      }
    }
  }

  // The tools of a script's same lines, and where they occur.
  function SameTools(lines: seq<Line>): (c: seq<string>)
    ensures |c| == SameCount(lines)
  {
    if lines == [] then []
    else (if lines[0].Same? then [lines[0].tool] else []) + SameTools(lines[1..])
  }

  lemma OneMoreOccurs(c: seq<string>, s: seq<string>, p: seq<nat>, from: nat)
    requires from < |s| && OccursAt(c, s, p, from + 1)
    ensures OccursAt([s[from]] + c, s, [from] + p, from)
  {}

  lemma OccursEarlier(c: seq<string>, s: seq<string>, p: seq<nat>, from: nat)
    requires OccursAt(c, s, p, from + 1)
    ensures OccursAt(c, s, p, from)
  {}

  lemma {:induction false} SameToolsOccur(lines: seq<Line>, b: seq<string>, i: nat, a: seq<string>, j: nat)
      returns (p: seq<nat>, q: seq<nat>)
    requires i <= |b| && j <= |a| && IsScript(lines, b, i, a, j)
    ensures OccursAt(SameTools(lines), b, p, i) && OccursAt(SameTools(lines), a, q, j)
    decreases |lines|
  {
    if lines == [] {
      p, q := [], [];
    } else {
      var rest := lines[1..];
      if lines[0].Same? {
        p, q := SameToolsOccur(rest, b, i + 1, a, j + 1);
        OneMoreOccurs(SameTools(rest), b, p, i);
        OneMoreOccurs(SameTools(rest), a, q, j);
        p, q := [i] + p, [j] + q;
      } else if lines[0].Extra? {
        p, q := SameToolsOccur(rest, b, i, a, j + 1);
        OccursEarlier(SameTools(rest), a, q, j);
      } else {
        p, q := SameToolsOccur(rest, b, i + 1, a, j);
        OccursEarlier(SameTools(rest), b, p, i);
      }
      hide OccursAt;
      assert lines[0].Same? || SameTools(lines) == SameTools(rest);
    }
  }

  // ----- the walk -----

  predicate TakesExtra(b: seq<string>, i: nat, a: seq<string>, j: nat)
    requires i <= |b| && j <= |a|
  {
    j < |a| && (i == |b| || Best(b, i, a, j + 1) >= Best(b, i + 1, a, j))
  }

  // The script the walk writes from a position on.
  function Walk(b: seq<string>, i: nat, a: seq<string>, j: nat): seq<Line>
    requires i <= |b| && j <= |a|
    decreases |b| - i + |a| - j
  {
    if i == |b| && j == |a| then []
    else if i < |b| && j < |a| && b[i] == a[j] then [Same(b[i], i, j)] + Walk(b, i + 1, a, j + 1)
    else if TakesExtra(b, i, a, j) then
      [Extra(a[j], j)] + Walk(b, i, a, j + 1)
    else [Missing(b[i], i)] + Walk(b, i + 1, a, j)
  }

  lemma {:induction false} WalkIsBestScript(b: seq<string>, i: nat, a: seq<string>, j: nat)
    requires i <= |b| && j <= |a|
    ensures IsScript(Walk(b, i, a, j), b, i, a, j)
    ensures SameCount(Walk(b, i, a, j)) == Best(b, i, a, j)
    decreases |b| - i + |a| - j
  {
    if i == |b| && j == |a| {
    } else if i < |b| && j < |a| && b[i] == a[j] {
      WalkIsBestScript(b, i + 1, a, j + 1);
      Prepend(Same(b[i], i, j), Walk(b, i + 1, a, j + 1));
    } else if TakesExtra(b, i, a, j) {
      WalkIsBestScript(b, i, a, j + 1);
      Prepend(Extra(a[j], j), Walk(b, i, a, j + 1));
    } else {
      WalkIsBestScript(b, i + 1, a, j);
      Prepend(Missing(b[i], i), Walk(b, i + 1, a, j));
    }
    hide SameCount;
  }

  lemma Prepend(line: Line, rest: seq<Line>)
    ensures ([line] + rest)[0] == line && ([line] + rest)[1..] == rest
    ensures SameCount([line] + rest) == (if line.Same? then 1 else 0) + SameCount(rest)
  {
    assert ([line] + rest)[1..] == rest;
  }

  // ----- main results -----

  // A script that keeps as many tools as any common subsequence has, with as few edits as
  // any script needs.
  ghost predicate OptimalDiff(lines: seq<Line>, b: seq<string>, a: seq<string>) {
    && IsScript(lines, b, 0, a, 0)
    && CommonSubsequence(SameTools(lines), b, a)
    && (forall c :: CommonSubsequence(c, b, a) ==> |c| <= SameCount(lines))
    && (forall other :: IsScript(other, b, 0, a, 0) ==> Edits(lines) <= Edits(other))
  }

  lemma WalkIsOptimal(b: seq<string>, a: seq<string>)
    ensures OptimalDiff(Walk(b, 0, a, 0), b, a)
  {
    var lines := Walk(b, 0, a, 0);
    WalkIsBestScript(b, 0, a, 0);
    var p, q := SameToolsOccur(lines, b, 0, a, 0);
    assert CommonSubsequence(SameTools(lines), b, a);
    forall c | CommonSubsequence(c, b, a) ensures |c| <= SameCount(lines) {
      var p, q :| OccursAt(c, b, p, 0) && OccursAt(c, a, q, 0);
      NoneLongerThanBest(c, b, 0, p, a, 0, q);
    }
    ScriptSides(lines, b, 0, a, 0);
    forall other | IsScript(other, b, 0, a, 0) ensures Edits(lines) <= Edits(other) {
      var p, q := SameToolsOccur(other, b, 0, a, 0);
      assert CommonSubsequence(SameTools(other), b, a);
      ScriptSides(other, b, 0, a, 0);
    }
  }

  // ----- which of the best scripts -----

  function Rank(line: Line): nat {
    match line
    case Same(_, _, _) => 0
    case Extra(_, _) => 1
    case Missing(_, _) => 2
  }

  lemma NoScriptKeepsMore(lines: seq<Line>, b: seq<string>, i: nat, a: seq<string>, j: nat)
    requires i <= |b| && j <= |a| && IsScript(lines, b, i, a, j)
    ensures SameCount(lines) <= Best(b, i, a, j)
  {
    var p, q := SameToolsOccur(lines, b, i, a, j);
    NoneLongerThanBest(SameTools(lines), b, i, p, a, j, q);
  }

  // The walk's first line is the first in rank of all best scripts' first lines.
  lemma FirstLine(b: seq<string>, i: nat, a: seq<string>, j: nat, other: seq<Line>)
    requires i <= |b| && j <= |a| && IsScript(other, b, i, a, j) && SameCount(other) == Best(b, i, a, j)
    requires other != [] && Walk(b, i, a, j) != [] && other[0] != Walk(b, i, a, j)[0]
    ensures Rank(Walk(b, i, a, j)[0]) < Rank(other[0])
  {
    if other[0].Extra? {
      NoScriptKeepsMore(other[1..], b, i, a, j + 1);
    }
    hide SameTools;
  }

  // Where a best script has the walk's first line, the rest is a best script of what is left.
  lemma SameFirstLine(b: seq<string>, i: nat, a: seq<string>, j: nat, other: seq<Line>) returns (i': nat, j': nat)
    requires i <= |b| && j <= |a| && IsScript(other, b, i, a, j) && SameCount(other) == Best(b, i, a, j)
    requires other != [] && Walk(b, i, a, j) != [] && other[0] == Walk(b, i, a, j)[0]
    ensures i <= i' <= |b| && j <= j' <= |a| && i + j < i' + j'
    ensures Walk(b, i, a, j)[1..] == Walk(b, i', a, j')
    ensures IsScript(other[1..], b, i', a, j') && SameCount(other[1..]) == Best(b, i', a, j')
  {
    i' := if other[0].Extra? then i else i + 1;
    j' := if other[0].Missing? then j else j + 1;
  }

  lemma {:induction false} WalkComesFirst(b: seq<string>, i: nat, a: seq<string>, j: nat, other: seq<Line>, k: nat)
    requires i <= |b| && j <= |a| && IsScript(other, b, i, a, j) && SameCount(other) == Best(b, i, a, j)
    requires k < |other| && k < |Walk(b, i, a, j)|
    requires other[..k] == Walk(b, i, a, j)[..k] && other[k] != Walk(b, i, a, j)[k]
    ensures Rank(Walk(b, i, a, j)[k]) < Rank(other[k])
    decreases k
  {
    hide Walk;
    hide Best;
    hide IsScript;
    hide SameCount;
    var walk := Walk(b, i, a, j);
    if k == 0 {
      FirstLine(b, i, a, j, other);
    } else {
      assert other[0] == other[..k][0] == walk[..k][0] == walk[0];
      var i', j' := SameFirstLine(b, i, a, j, other);
      assert other[1..][..k - 1] == other[..k][1..] == walk[..k][1..] == walk[1..][..k - 1];
      WalkComesFirst(b, i', a, j', other[1..], k - 1);
    }
  }

  // Of all scripts with as few edits the one the walk writes comes first: where another first
  // differs from it, the walk keeps a tool the other does not keep there, or writes an extra
  // tool where the other writes a missing one.
  ghost predicate FirstOfTheBest(lines: seq<Line>, b: seq<string>, a: seq<string>) {
    forall other, k: nat | IsScript(other, b, 0, a, 0) && Edits(other) == Edits(lines) && FirstDiffer(lines, other, k) ::
      Rank(lines[k]) < Rank(other[k])
  }

  predicate FirstDiffer(lines: seq<Line>, other: seq<Line>, k: nat) {
    k < |lines| && k < |other| && lines[..k] == other[..k] && lines[k] != other[k]
  }

  lemma WalkIsFirst(b: seq<string>, a: seq<string>)
    ensures FirstOfTheBest(Walk(b, 0, a, 0), b, a)
  {
    var lines := Walk(b, 0, a, 0);
    WalkIsBestScript(b, 0, a, 0);
    ScriptSides(lines, b, 0, a, 0);
    hide Walk;
    hide Best;
    hide IsScript;
    forall other, k: nat | IsScript(other, b, 0, a, 0) && Edits(other) == Edits(lines) && FirstDiffer(lines, other, k)
      ensures Rank(lines[k]) < Rank(other[k])
    {
      ScriptSides(other, b, 0, a, 0);
      WalkComesFirst(b, 0, a, 0, other, k);
    }
  }

  method LcsTable(b: seq<string>, a: seq<string>) returns (table: array2<nat>)
    ensures fresh(table) && table.Length0 == |b| + 1 && table.Length1 == |a| + 1
    ensures forall i, j {:trigger table[i, j]} | 0 <= i <= |b| && 0 <= j <= |a| :: table[i, j] == Best(b, i, a, j)
  {
    table := new nat[|b| + 1, |a| + 1]((i, j) => 0);
    var i := |b|;
    while i > 0
      invariant 0 <= i <= |b|
      invariant forall k, j {:trigger table[k, j]} | i <= k <= |b| && 0 <= j <= |a| :: table[k, j] == Best(b, k, a, j)
      invariant forall k | 0 <= k < i :: table[k, |a|] == 0
    {
      i := i - 1;
      var j := |a|;
      assert table[i, |a|] == Best(b, i, a, |a|);
      while j > 0
        invariant 0 <= j <= |a|
        invariant forall k, m {:trigger table[k, m]} | i < k <= |b| && 0 <= m <= |a| :: table[k, m] == Best(b, k, a, m)
        invariant forall m {:trigger table[i, m]} | j <= m <= |a| :: table[i, m] == Best(b, i, a, m)
        invariant forall k | 0 <= k < i :: table[k, |a|] == 0
      {
        j := j - 1;
        var cell := if b[i] == a[j] then table[i + 1, j + 1] + 1 else Max(table[i + 1, j], table[i, j + 1]);
        assert cell == Best(b, i, a, j) by {
          assert table[i + 1, j] == Best(b, i + 1, a, j) && table[i + 1, j + 1] == Best(b, i + 1, a, j + 1);
          assert table[i, j + 1] == Best(b, i, a, j + 1);
        }
        table[i, j] := cell;
      }
    }
  }

  // What each branch writes is the next line of the walk.
  lemma WalkSame(lines: seq<Line>, b: seq<string>, i: nat, a: seq<string>, j: nat)
    requires i < |b| && j < |a| && b[i] == a[j]
    ensures (lines + [Same(b[i], i, j)]) + Walk(b, i + 1, a, j + 1) == lines + Walk(b, i, a, j)
  {
    hide Best;
  }

  lemma WalkExtra(lines: seq<Line>, b: seq<string>, i: nat, a: seq<string>, j: nat)
    requires i <= |b| && j <= |a| && !(i < |b| && j < |a| && b[i] == a[j]) && TakesExtra(b, i, a, j)
    ensures (lines + [Extra(a[j], j)]) + Walk(b, i, a, j + 1) == lines + Walk(b, i, a, j)
  {
    hide Best;
  }

  lemma WalkMissing(lines: seq<Line>, b: seq<string>, i: nat, a: seq<string>, j: nat)
    requires i < |b| && j <= |a| && !(j < |a| && b[i] == a[j]) && !TakesExtra(b, i, a, j)
    ensures (lines + [Missing(b[i], i)]) + Walk(b, i + 1, a, j) == lines + Walk(b, i, a, j)
  {
    hide Best;
  }

  lemma WalkSides(b: seq<string>, a: seq<string>)
    ensures Walk(b, |b|, a, |a|) == []
    ensures BaselineSide(Walk(b, 0, a, 0)) == Numbered(b, 0) && ActualSide(Walk(b, 0, a, 0)) == Numbered(a, 0)
  {
    WalkIsBestScript(b, 0, a, 0);
    ScriptSides(Walk(b, 0, a, 0), b, 0, a, 0);
    hide IsScript;
    hide Best;
    hide BaselineSide;
    hide ActualSide;
  }

  method DiffToolSequence(b: seq<string>, a: seq<string>) returns (lines: seq<Line>)
    ensures OptimalDiff(lines, b, a) && FirstOfTheBest(lines, b, a)
    ensures BaselineSide(lines) == Numbered(b, 0) && ActualSide(lines) == Numbered(a, 0)
  {
    hide Walk;
    hide Best;
    hide OptimalDiff;
    hide BaselineSide;
    hide ActualSide;
    hide Numbered;
    hide FirstOfTheBest;
    WalkIsOptimal(b, a);
    WalkIsFirst(b, a);
    WalkSides(b, a);
    var table := LcsTable(b, a);
    lines := [];
    var i, j := 0, 0;
    while i < |b| || j < |a|
      invariant 0 <= i <= |b| && 0 <= j <= |a|
      invariant lines + Walk(b, i, a, j) == Walk(b, 0, a, 0)
      invariant forall k, m {:trigger table[k, m]} | 0 <= k <= |b| && 0 <= m <= |a| :: table[k, m] == Best(b, k, a, m)
      decreases |b| - i + |a| - j
    {
      var extra := j < |a| && (i >= |b| || table[i, j + 1] >= table[i + 1, j]);
      assert extra == TakesExtra(b, i, a, j);
      if i < |b| && j < |a| && b[i] == a[j] {
        WalkSame(lines, b, i, a, j);
        lines := lines + [Same(b[i], i, j)];
        i, j := i + 1, j + 1;
      } else if extra {
        WalkExtra(lines, b, i, a, j);
        lines := lines + [Extra(a[j], j)];
        j := j + 1;
      } else {
        WalkMissing(lines, b, i, a, j);
        lines := lines + [Missing(b[i], i)];
        i := i + 1;
      }
    }
    assert lines + [] == lines;
  }
}
