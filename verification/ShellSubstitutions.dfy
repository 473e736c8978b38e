// Where a command substitution ends: said of the shape of its text, and shown of the scan.
module ShellSubstitutions {
  import opened Options
  import opened ShellTokenizer

  // ----- balanced text -----

  // What may stand in a substitution: characters, escaped ones, quoted stretches, and, in
  // `$(`...`)`, balanced text in parentheses.
  datatype Balanced =
    | Nothing
    | Single(c: char, rest: Balanced)
    | Escaped(c: char, rest: Balanced)
    | Quotes(quote: char, body: Body, rest: Balanced)
    | Parens(inner: Balanced, rest: Balanced)

  // The inside of a quoted stretch: the other quote, parentheses and backticks are plain here.
  datatype Body = NoMore | One(c: char, rest: Body) | EscapedOne(c: char, rest: Body)

  function BodyText(b: Body): string {
    match b
    case NoMore => ""
    case One(c, rest) => [c] + BodyText(rest)
    case EscapedOne(c, rest) => ['\\', c] + BodyText(rest)
  }

  function TextOf(b: Balanced): string {
    match b
    case Nothing => ""
    case Single(c, rest) => [c] + TextOf(rest)
    case Escaped(c, rest) => ['\\', c] + TextOf(rest)
    case Quotes(q, body, rest) => [q] + BodyText(body) + [q] + TextOf(rest)
    case Parens(inner, rest) => ['('] + TextOf(inner) + [')'] + TextOf(rest)
  }

  predicate BodyOk(b: Body, quote: char) {
    match b
    case NoMore => true
    case One(c, rest) => c != quote && c != '\\' && BodyOk(rest, quote)
    case EscapedOne(_, rest) => BodyOk(rest, quote)
  }

  // Between backticks a parenthesis is plain and an unescaped backtick cannot stand; between
  // `$(` and `)` it is the other way round.
  predicate BalancedOk(b: Balanced, backtick: bool) {
    match b
    case Nothing => true
    case Single(c, rest) => PlainIn(c, backtick) && BalancedOk(rest, backtick)
    case Escaped(_, rest) => BalancedOk(rest, backtick)
    case Quotes(q, body, rest) => (q == '\'' || q == '"') && BodyOk(body, q) && BalancedOk(rest, backtick)
    case Parens(inner, rest) => !backtick && BalancedOk(inner, backtick) && BalancedOk(rest, backtick)
  }

  predicate Stands(source: string, i: nat, text: string) {
    i + |text| <= |source| && source[i..i + |text|] == text
  }

  lemma StandsParts(source: string, i: nat, a: string, b: string)
    ensures Stands(source, i, a + b) <==> Stands(source, i, a) && Stands(source, i + |a|, b)
  {
    if Stands(source, i, a + b) {
      assert source[i..i + |a|] == (a + b)[..|a|] == a;
      assert source[i + |a|..i + |a| + |b|] == (a + b)[|a|..] == b;
    }
    if Stands(source, i, a) && Stands(source, i + |a|, b) {
      assert source[i..i + |a| + |b|] == source[i..i + |a|] + source[i + |a|..i + |a| + |b|];
    }
  }

  lemma StandsFour(source: string, i: nat, a: string, b: string, c: string, d: string)
    ensures Stands(source, i, a + b + c + d) <==>
              && Stands(source, i, a) && Stands(source, i + |a|, b)
              && Stands(source, i + |a| + |b|, c) && Stands(source, i + |a| + |b| + |c|, d)
  {
    hide Stands;
    StandsParts(source, i, a + b + c, d);
    StandsParts(source, i, a + b, c);
    StandsParts(source, i, a, b);
  }

  lemma StandsOne(source: string, i: nat, c: char)
    ensures Stands(source, i, [c]) <==> i < |source| && source[i] == c
  {}

  lemma StandsTwo(source: string, i: nat, c: char, d: char)
    ensures Stands(source, i, [c, d]) <==> i + 1 < |source| && source[i] == c && source[i + 1] == d
  {}

  function Closer(backtick: bool): char {
    if backtick then '`' else ')'
  }

  // ----- one step of the scan, outside quotes -----

  lemma ScanEscape(source: string, i: nat, depth: nat, backtick: bool)
    requires depth >= 1 && i + 1 < |source| && source[i] == '\\'
    ensures SubstitutionEnd(source, i, depth, None, backtick) == SubstitutionEnd(source, i + 2, depth, None, backtick)
  {}

  lemma ScanQuote(source: string, i: nat, depth: nat, backtick: bool)
    requires depth >= 1 && i < |source| && IsQuote(source[i])
    ensures SubstitutionEnd(source, i, depth, None, backtick) ==
            SubstitutionEnd(source, i + 1, depth, Some(source[i]), backtick)
  {}

  lemma ScanOpen(source: string, i: nat, depth: nat)
    requires depth >= 1 && i < |source| && source[i] == '('
    ensures SubstitutionEnd(source, i, depth, None, false) == SubstitutionEnd(source, i + 1, depth + 1, None, false)
  {}

  lemma ScanClose(source: string, i: nat, depth: nat, backtick: bool)
    requires depth >= 1 && i < |source| && source[i] == Closer(backtick)
    ensures SubstitutionEnd(source, i, depth, None, backtick) ==
            if backtick || depth == 1 then i else SubstitutionEnd(source, i + 1, depth - 1, None, backtick)
  {}

  predicate PlainIn(c: char, backtick: bool) {
    c != '\\' && c != '\'' && c != '"' && if backtick then c != '`' else c != '(' && c != ')'
  }

  lemma ScanPlain(source: string, i: nat, depth: nat, backtick: bool)
    requires depth >= 1 && i < |source| && PlainIn(source[i], backtick)
    ensures SubstitutionEnd(source, i, depth, None, backtick) == SubstitutionEnd(source, i + 1, depth, None, backtick)
  {}

  // ----- the scan passes over balanced text -----

  lemma {:induction false} ScanBody(source: string, i: nat, b: Body, quote: char, depth: nat, backtick: bool)
    requires depth >= 1 && IsQuote(quote) && BodyOk(b, quote) && Stands(source, i, BodyText(b) + [quote])
    ensures SubstitutionEnd(source, i, depth, Some(quote), backtick) ==
            SubstitutionEnd(source, i + |BodyText(b)| + 1, depth, None, backtick)
    decreases b
  {
    hide Stands;
    match b {
      case NoMore =>
        assert BodyText(b) + [quote] == [quote];
        StandsOne(source, i, quote);
      case One(c, rest) =>
        assert BodyText(b) + [quote] == [c] + (BodyText(rest) + [quote]);
        StandsParts(source, i, [c], BodyText(rest) + [quote]);
        StandsOne(source, i, c);
        ScanBody(source, i + 1, rest, quote, depth, backtick);
      case EscapedOne(c, rest) =>
        assert BodyText(b) + [quote] == ['\\', c] + (BodyText(rest) + [quote]);
        StandsParts(source, i, ['\\', c], BodyText(rest) + [quote]);
        StandsTwo(source, i, '\\', c);
        ScanBody(source, i + 2, rest, quote, depth, backtick);
    }
  }

  lemma QuotesStand(source: string, i: nat, q: char, body: Body, rest: Balanced)
    requires Stands(source, i, [q] + BodyText(body) + [q] + TextOf(rest))
    ensures i < |source| && source[i] == q && Stands(source, i + 1, BodyText(body) + [q])
    ensures Stands(source, i + 1 + |BodyText(body)| + 1, TextOf(rest))
  {
    hide Stands;
    hide TextOf;
    hide BodyText;
    StandsFour(source, i, [q], BodyText(body), [q], TextOf(rest));
    StandsOne(source, i, q);
    StandsParts(source, i + 1, BodyText(body), [q]);
  }

  lemma ParensStand(source: string, i: nat, inner: Balanced, rest: Balanced)
    requires Stands(source, i, ['('] + TextOf(inner) + [')'] + TextOf(rest))
    ensures i < |source| && source[i] == '(' && Stands(source, i + 1, TextOf(inner))
    ensures i + 1 + |TextOf(inner)| < |source| && source[i + 1 + |TextOf(inner)|] == ')'
    ensures Stands(source, i + 1 + |TextOf(inner)| + 1, TextOf(rest))
  {
    hide Stands;
    hide TextOf;
    StandsFour(source, i, ['('], TextOf(inner), [')'], TextOf(rest));
    StandsOne(source, i, '(');
    StandsOne(source, i + 1 + |TextOf(inner)|, ')');
  }

  lemma {:induction false} ScanBalanced(source: string, i: nat, b: Balanced, depth: nat, backtick: bool)
    requires depth >= 1 && BalancedOk(b, backtick) && Stands(source, i, TextOf(b))
    ensures SubstitutionEnd(source, i, depth, None, backtick) ==
            SubstitutionEnd(source, i + |TextOf(b)|, depth, None, backtick)
    decreases b
  {
    hide Stands;
    hide SubstitutionEnd;
    hide PlainIn;
    hide BodyText;
    match b {
      case Nothing =>
      case Single(c, rest) =>
        StandsParts(source, i, [c], TextOf(rest));
        StandsOne(source, i, c);
        ScanPlain(source, i, depth, backtick);
        ScanBalanced(source, i + 1, rest, depth, backtick);
      case Escaped(c, rest) =>
        StandsParts(source, i, ['\\', c], TextOf(rest));
        StandsTwo(source, i, '\\', c);
        ScanEscape(source, i, depth, backtick);
        ScanBalanced(source, i + 2, rest, depth, backtick);
      case Quotes(q, body, rest) =>
        QuotesStand(source, i, q, body, rest);
        ScanQuote(source, i, depth, backtick);
        ScanBody(source, i + 1, body, q, depth, backtick);
        ScanBalanced(source, i + 1 + |BodyText(body)| + 1, rest, depth, backtick);
      case Parens(inner, rest) =>
        ParensStand(source, i, inner, rest);
        ScanOpen(source, i, depth);
        ScanBalanced(source, i + 1, inner, depth + 1, backtick);
        ScanClose(source, i + 1 + |TextOf(inner)|, depth + 1, backtick);
        ScanBalanced(source, i + 1 + |TextOf(inner)| + 1, rest, depth, backtick);
    }
  }

  // ----- what it stops at encloses balanced text -----

  lemma {:induction false} BodyOf(source: string, i: nat, quote: char, depth: nat, backtick: bool) returns (b: Body)
    requires depth >= 1 && IsQuote(quote) && SubstitutionEnd(source, i, depth, Some(quote), backtick) < |source|
    ensures BodyOk(b, quote) && Stands(source, i, BodyText(b) + [quote])
    ensures SubstitutionEnd(source, i, depth, Some(quote), backtick) ==
            SubstitutionEnd(source, i + |BodyText(b)| + 1, depth, None, backtick)
    decreases |source| - i
  {
    hide Stands;
    b := NoMore;
    if source[i] == '\\' {
      var rest := BodyOf(source, i + 2, quote, depth, backtick);
      b := EscapedOne(source[i + 1], rest);
      EscapedBody(source, i, quote, rest);
    } else if source[i] == quote {
      assert BodyText(b) + [quote] == [quote];
      StandsOne(source, i, quote);
    } else {
      var rest := BodyOf(source, i + 1, quote, depth, backtick);
      b := One(source[i], rest);
      PlainBody(source, i, quote, rest);
    }
    ScanBody(source, i, b, quote, depth, backtick);
    hide SubstitutionEnd;
    hide BodyText;
  }

  lemma EscapedBody(source: string, i: nat, quote: char, rest: Body)
    requires i + 1 < |source| && source[i] == '\\' && Stands(source, i + 2, BodyText(rest) + [quote])
    ensures Stands(source, i, BodyText(EscapedOne(source[i + 1], rest)) + [quote])
  {
    hide Stands;
    assert BodyText(EscapedOne(source[i + 1], rest)) + [quote] == ['\\', source[i + 1]] + (BodyText(rest) + [quote]);
    StandsTwo(source, i, '\\', source[i + 1]);
    StandsParts(source, i, ['\\', source[i + 1]], BodyText(rest) + [quote]);
  }

  lemma PlainBody(source: string, i: nat, quote: char, rest: Body)
    requires i < |source| && Stands(source, i + 1, BodyText(rest) + [quote])
    ensures Stands(source, i, BodyText(One(source[i], rest)) + [quote])
  {
    hide Stands;
    assert BodyText(One(source[i], rest)) + [quote] == [source[i]] + (BodyText(rest) + [quote]);
    StandsOne(source, i, source[i]);
    StandsParts(source, i, [source[i]], BodyText(rest) + [quote]);
  }

  // Balanced text from i, and behind it the character that closes one level.
  ghost predicate ClosesAt(source: string, i: nat, backtick: bool, b: Balanced, end: nat) {
    && BalancedOk(b, backtick) && Stands(source, i, TextOf(b)) && end == i + |TextOf(b)|
    && end < |source| && source[end] == Closer(backtick)
  }

  // From i, outside quotes, the scan first comes to m, the close of the level it is on.
  ghost predicate FirstClose(source: string, i: nat, depth: nat, backtick: bool, b: Balanced, m: nat) {
    && depth >= 1 && ClosesAt(source, i, backtick, b, m)
    && SubstitutionEnd(source, i, depth, None, backtick) ==
       if backtick || depth == 1 then m else SubstitutionEnd(source, m + 1, depth - 1, None, backtick)
  }

  lemma PlainFirst(source: string, i: nat, depth: nat, backtick: bool, b: Balanced, m: nat)
    requires i < |source| && PlainIn(source[i], backtick) && FirstClose(source, i + 1, depth, backtick, b, m)
    ensures FirstClose(source, i, depth, backtick, Single(source[i], b), m)
  {
    hide Stands;
    hide SubstitutionEnd;
    hide PlainIn;
    ScanPlain(source, i, depth, backtick);
    StandsOne(source, i, source[i]);
    StandsParts(source, i, [source[i]], TextOf(b));
  }

  lemma EscapedFirst(source: string, i: nat, depth: nat, backtick: bool, b: Balanced, m: nat)
    requires i + 1 < |source| && source[i] == '\\' && FirstClose(source, i + 2, depth, backtick, b, m)
    ensures FirstClose(source, i, depth, backtick, Escaped(source[i + 1], b), m)
  {
    hide Stands;
    hide SubstitutionEnd;
    ScanEscape(source, i, depth, backtick);
    StandsTwo(source, i, '\\', source[i + 1]);
    StandsParts(source, i, ['\\', source[i + 1]], TextOf(b));
  }

  lemma QuotesFirst(source: string, i: nat, depth: nat, backtick: bool, body: Body, b: Balanced, m: nat)
    requires i < |source| && IsQuote(source[i]) && BodyOk(body, source[i])
    requires Stands(source, i + 1, BodyText(body) + [source[i]])
    requires FirstClose(source, i + 1 + |BodyText(body)| + 1, depth, backtick, b, m)
    ensures FirstClose(source, i, depth, backtick, Quotes(source[i], body, b), m)
  {
    hide Stands;
    hide SubstitutionEnd;
    hide BodyText;
    ScanQuote(source, i, depth, backtick);
    StandsOne(source, i, source[i]);
    StandsParts(source, i + 1, BodyText(body), [source[i]]);
    ScanBody(source, i + 1, body, source[i], depth, backtick);
    StandsFour(source, i, [source[i]], BodyText(body), [source[i]], TextOf(b));
  }

  lemma ParensFirst(source: string, i: nat, depth: nat, inner: Balanced, n: nat, b: Balanced, m: nat)
    requires depth >= 1 && i < |source| && source[i] == '('
    requires FirstClose(source, i + 1, depth + 1, false, inner, n) && FirstClose(source, n + 1, depth, false, b, m)
    ensures FirstClose(source, i, depth, false, Parens(inner, b), m)
  {
    hide Stands;
    hide SubstitutionEnd;
    ScanOpen(source, i, depth);
    StandsOne(source, i, '(');
    StandsOne(source, n, ')');
    StandsFour(source, i, ['('], TextOf(inner), [')'], TextOf(b));
  }

  lemma CloserFirst(source: string, i: nat, depth: nat, backtick: bool)
    requires depth >= 1 && i < |source| && source[i] == Closer(backtick)
    ensures FirstClose(source, i, depth, backtick, Nothing, i)
  {
    hide SubstitutionEnd;
    ScanClose(source, i, depth, backtick);
  }

  lemma FirstCloseBounds(source: string, i: nat, depth: nat, backtick: bool, b: Balanced, m: nat)
    requires FirstClose(source, i, depth, backtick, b, m)
    ensures i <= m < |source|
    ensures !backtick && depth >= 2 ==>
              SubstitutionEnd(source, m + 1, depth - 1, None, backtick) == SubstitutionEnd(source, i, depth, None, backtick)
  {
    hide SubstitutionEnd;
  }

  lemma {:induction false} BalancedUpTo(source: string, i: nat, depth: nat, backtick: bool)
      returns (b: Balanced, m: nat)
    requires depth >= 1 && SubstitutionEnd(source, i, depth, None, backtick) < |source|
    ensures FirstClose(source, i, depth, backtick, b, m)
    decreases |source| - i
  {
    hide FirstClose;
    hide PlainIn;
    hide Stands;
    hide BodyOk;
    EndIsBehind(source, i, depth, backtick);
    hide SubstitutionEnd;
    var c := source[i];
    if c == '\\' {
      ScanEscape(source, i, depth, backtick);
      b, m := BalancedUpTo(source, i + 2, depth, backtick);
      EscapedFirst(source, i, depth, backtick, b, m);
      b := Escaped(source[i + 1], b);
    } else if IsQuote(c) {
      ScanQuote(source, i, depth, backtick);
      var body := BodyOf(source, i + 1, c, depth, backtick);
      b, m := BalancedUpTo(source, i + 1 + |BodyText(body)| + 1, depth, backtick);
      QuotesFirst(source, i, depth, backtick, body, b, m);
      b := Quotes(c, body, b);
    } else if c == Closer(backtick) {
      CloserFirst(source, i, depth, backtick);
      b, m := Nothing, i;
    } else if !backtick && c == '(' {
      b, m := ParensUpTo(source, i, depth);
    } else {
      OtherIsPlain(c, backtick);
      ScanPlain(source, i, depth, backtick);
      b, m := BalancedUpTo(source, i + 1, depth, backtick);
      PlainFirst(source, i, depth, backtick, b, m);
      b := Single(c, b);
    }
  }

  lemma {:induction false} ParensUpTo(source: string, i: nat, depth: nat) returns (b: Balanced, m: nat)
    requires depth >= 1 && i < |source| && source[i] == '('
    requires SubstitutionEnd(source, i, depth, None, false) < |source|
    ensures FirstClose(source, i, depth, false, b, m)
    decreases |source| - i, 0
  {
    hide FirstClose;
    hide SubstitutionEnd;
    ScanOpen(source, i, depth);
    var inner, n := BalancedUpTo(source, i + 1, depth + 1, false);
    FirstCloseBounds(source, i + 1, depth + 1, false, inner, n);
    b, m := BalancedUpTo(source, n + 1, depth, false);
    ParensFirst(source, i, depth, inner, n, b, m);
    b := Parens(inner, b);
  }

  // A scan that ends inside the source has not left it, not even by an escape.
  lemma EndIsBehind(source: string, i: nat, depth: nat, backtick: bool)
    requires depth >= 1 && SubstitutionEnd(source, i, depth, None, backtick) < |source|
    ensures i < |source| && (source[i] == '\\' ==> i + 1 < |source|)
  {}

  lemma OtherIsPlain(c: char, backtick: bool)
    requires c != '\\' && !IsQuote(c) && c != Closer(backtick) && (backtick || c != '(')
    ensures PlainIn(c, backtick)
  {}

  // ----- main results -----

  // The scan stops at `end` exactly if balanced text stands before it and the close there;
  // where no balanced text is followed by the close it runs to the end of the source.
  lemma EndsAtItsOwnClose(source: string, start: nat, backtick: bool, end: nat)
    requires end < |source|
    ensures SubstitutionEnd(source, start, 1, None, backtick) == end <==>
            exists b :: ClosesAt(source, start, backtick, b, end)
  {
    if SubstitutionEnd(source, start, 1, None, backtick) == end {
      var b, m := BalancedUpTo(source, start, 1, backtick);
      assert m == end;
    }
    if b :| ClosesAt(source, start, backtick, b, end) {
      ScanBalanced(source, start, b, 1, backtick);
    }
  }

  // Balanced text is closed at `end`, or none is closed at all and `end` is past the source.
  ghost predicate EndsAt(source: string, start: nat, backtick: bool, end: nat) {
    if end < |source| then exists b :: ClosesAt(source, start, backtick, b, end)
    else forall b, m: nat :: !ClosesAt(source, start, backtick, b, m)
  }

  lemma ScanEndsAt(source: string, start: nat, backtick: bool)
    ensures EndsAt(source, start, backtick, SubstitutionEnd(source, start, 1, None, backtick))
  {
    var end := SubstitutionEnd(source, start, 1, None, backtick);
    if end < |source| {
      EndsAtItsOwnClose(source, start, backtick, end);
    }
    forall b, m: nat | ClosesAt(source, start, backtick, b, m) ensures m == end {
      EndsAtItsOwnClose(source, start, backtick, m);
    }
    hide SubstitutionEnd;
  }

  // Nothing else does: there is one such end, up to how far past the source it is.
  lemma EndIsOne(source: string, start: nat, backtick: bool, end: nat, other: nat)
    requires EndsAt(source, start, backtick, end) && EndsAt(source, start, backtick, other)
    ensures end == other || (end >= |source| && other >= |source|)
  {
    if end < |source| {
      EndsAtItsOwnClose(source, start, backtick, end);
    }
    if other < |source| {
      EndsAtItsOwnClose(source, start, backtick, other);
    }
    hide ClosesAt;
  }

  // What stands in the substitution that begins at `at`: balanced text up to its close, or,
  // when nothing closes it, the rest of the source.
  ghost predicate Encloses(source: string, at: nat, text: string) {
    && at < |source|
    && var start, backtick := at + (if source[at] == '`' then 1 else 2), source[at] == '`';
       Stands(source, start, text) && EndsAt(source, start, backtick, start + |text|)
  }

  lemma InnerIsEnclosed(source: string, at: nat)
    requires at < |source| && Opens(source, at)
    ensures Encloses(source, at, InnerSource(source, at))
    ensures Min(SubstitutionClose(source, at) + 1, |source|) ==
            Min(SubstitutionStart(source, at) + |InnerSource(source, at)| + 1, |source|)
  {
    var start, backtick := SubstitutionStart(source, at), source[at] == '`';
    var end := SubstitutionEnd(source, start, 1, None, backtick);
    ScanEndsAt(source, start, backtick);
    assert start <= |source| && InnerSource(source, at) == source[start..Min(end, |source|)];
    hide ClosesAt;
    hide SubstitutionEnd;
  }
}
