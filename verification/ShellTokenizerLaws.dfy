// What the shell tokenizer promises of every source text.
module ShellTokenizerLaws {
  import opened Options
  import opened ShellTokenizer

  // ----- where words stand -----

  predicate SpanOk(source: string, w: Word, s: Span) {
    s.from < s.to <= |source| && w.raw == source[s.from..s.to]
  }

  // Each word is its stretch of the source; the stretches are in order and do not overlap.
  ghost predicate Placed(source: string, words: seq<Word>, spans: seq<Span>) {
    && |words| == |spans|
    && (forall k | 0 <= k < |spans| :: SpanOk(source, words[k], spans[k]))
    && (forall j, k | 0 <= j < k < |spans| :: spans[j].to <= spans[k].from)
  }

  ghost predicate Within(spans: seq<Span>, lo: nat, hi: nat) {
    forall k | 0 <= k < |spans| :: lo <= spans[k].from && spans[k].to <= hi
  }

  function Behind(separators: seq<nat>, n: nat): nat
    requires n <= |separators|
  {
    if n == 0 then 0 else separators[n - 1] + 1
  }

  function Ahead(source: string, separators: seq<nat>, n: nat): nat {
    if n < |separators| then separators[n] else |source|
  }

  // A command of the source stands between two neighbouring separators, or the ends.
  ghost predicate TopOk(source: string, separators: seq<nat>, t: Top) {
    && t.command.words != []
    && t.separators <= |separators|
    && Placed(source, t.command.words, t.spans)
    && Within(t.spans, Behind(separators, t.separators), Ahead(source, separators, t.separators))
  }

  ghost predicate Increasing(separators: seq<nat>) {
    forall i, j | 0 <= i < j < |separators| :: separators[i] < separators[j]
  }

  ghost predicate SeparatorsOk(source: string, separators: seq<nat>) {
    Increasing(separators) && forall s | s in separators :: s < |source| && IsSeparator(source[s])
  }

  ghost predicate TopsOk(source: string, separators: seq<nat>, tops: seq<Top>) {
    && (forall t | t in tops :: TopOk(source, separators, t))
    && (forall i, j | 0 <= i < j < |tops| :: tops[i].separators < tops[j].separators)
  }

  function Here(source: string, lx: Lexer): nat {
    Min(lx.index, |source|)
  }

  function Edge(source: string, lx: Lexer): nat {
    if lx.raw == "" then Here(source, lx) else lx.from
  }

  ghost predicate WordInv(source: string, lx: Lexer) {
    && (lx.raw != "" ==> lx.from < Here(source, lx) && lx.raw == source[lx.from..Here(source, lx)])
    && Placed(source, lx.words, lx.spans)
    && Within(lx.spans, Behind(lx.separators, |lx.separators|), Edge(source, lx))
    && Behind(lx.separators, |lx.separators|) <= Edge(source, lx)
  }

  ghost predicate TextInv(source: string, lx: Lexer) {
    && WordInv(source, lx)
    && SeparatorsOk(source, lx.separators)
    && TopsOk(source, lx.separators, lx.tops)
    && forall t | t in lx.tops :: t.separators < |lx.separators|
  }

  // Nothing but the current word and the position changes.
  predicate SameBooks(lx: Lexer, l: Lexer) {
    && l.words == lx.words && l.spans == lx.spans && l.separators == lx.separators && l.tops == lx.tops
  }

  lemma ExtendText(source: string, lx: Lexer, l: Lexer)
    requires TextInv(source, lx) && lx.index < |source| && Consumes(source, lx, l)
    ensures TextInv(source, l)
  {
    hide Placed;
    hide TopsOk;
    hide SeparatorsOk;
    if lx.raw != "" {
      assert source[lx.from..lx.index] + source[lx.index..Here(source, l)] == source[lx.from..Here(source, l)];
    }
  }

  lemma SkipText(source: string, lx: Lexer, l: Lexer)
    requires TextInv(source, lx) && lx.raw == "" && l.raw == "" && SameBooks(lx, l) && l.index > lx.index
    ensures TextInv(source, l)
  {
    hide Placed;
    hide TopsOk;
    hide SeparatorsOk;
  }

  lemma PlacedPush(source: string, words: seq<Word>, spans: seq<Span>, w: Word, s: Span)
    requires Placed(source, words, spans) && SpanOk(source, w, s)
    requires forall k | 0 <= k < |spans| :: spans[k].to <= s.from
    ensures Placed(source, words + [w], spans + [s])
  {}

  lemma WithinPush(spans: seq<Span>, lo: nat, hi: nat, s: Span)
    requires Within(spans, lo, s.from) && lo <= s.from <= s.to <= hi
    ensures Within(spans + [s], lo, hi)
  {}

  lemma FlushWordText(source: string, lx: Lexer)
    requires TextInv(source, lx)
    ensures TextInv(source, FlushWord(lx))
  {
    hide TopsOk;
    hide SeparatorsOk;
    hide Placed;
    hide Behind;
    if lx.raw != "" {
      var s := Span(lx.from, lx.from + |lx.raw|);
      assert SpanOk(source, Word(lx.value, lx.raw), s);
      PlacedPush(source, lx.words, lx.spans, Word(lx.value, lx.raw), s);
      WithinPush(lx.spans, Behind(lx.separators, |lx.separators|), Here(source, lx), s);
      hide Within;
    }
  }

  lemma TopWiden(source: string, separators: seq<nat>, p: nat, t: Top)
    requires TopOk(source, separators, t) && t.separators < |separators|
    ensures TopOk(source, separators + [p], t)
  {
    hide Placed;
  }

  lemma NewTop(source: string, l: Lexer, p: nat)
    requires WordInv(source, l) && l.raw == "" && l.words != [] && l.index == p < |source|
    ensures TopOk(source, l.separators + [p],
                  Top(Command(l.words, l.commandLine, l.pipeline), l.spans, |l.separators|))
  {
    hide Placed;
  }

  lemma EmptyCommand(source: string, l: Lexer, p: nat)
    requires l.raw == "" && l.words == [] && l.spans == [] && l.separators != []
    requires l.separators[|l.separators| - 1] == p < |source| && l.index == p + 1
    ensures WordInv(source, l)
  {}

  // What a separator leaves: nothing open, one separator more, and one command more if there
  // were words.
  predicate SeparatedBy(l: Lexer, l': Lexer, p: nat) {
    && l'.raw == "" && l'.words == [] && l'.spans == []
    && l'.separators == l.separators + [p] && l'.index == p + 1
    && l'.tops == if l.words == [] then l.tops
                  else l.tops + [Top(Command(l.words, l.commandLine, l.pipeline), l.spans, |l.separators|)]
  }

  lemma SeparatorEffect(source: string, lx: Lexer)
    requires lx.index < |source|
    ensures SeparatedBy(FlushWord(lx), StepSeparator(source, lx), lx.index)
    ensures FlushWord(lx).raw == "" && FlushWord(lx).index == lx.index
  {
    hide Lone;
  }

  // A separator closes the current command, if there is one.
  lemma SeparatorText(source: string, lx: Lexer)
    requires TextInv(source, lx) && lx.index < |source| && IsSeparator(source[lx.index])
    ensures TextInv(source, StepSeparator(source, lx))
  {
    hide TextInv;
    hide StepSeparator;
    FlushWordText(source, lx);
    SeparatorEffect(source, lx);
    hide FlushWord;
    hide SeparatedBy;
    SeparatedText(source, FlushWord(lx), StepSeparator(source, lx));
  }

  lemma SeparatedText(source: string, l: Lexer, l': Lexer)
    requires TextInv(source, l) && l.raw == "" && l.index < |source| && IsSeparator(source[l.index])
    requires SeparatedBy(l, l', l.index)
    ensures TextInv(source, l')
  {
    hide Placed;
    hide Within;
    hide Increasing;
    EmptyCommand(source, l', l.index);
    SeparatorPush(source, l.separators, l.index);
    if l.words != [] {
      NewTop(source, l, l.index);
    }
    hide TopOk;
    hide WordInv;
    hide SeparatorsOk;
    forall t | t in l'.tops ensures TopOk(source, l'.separators, t) && t.separators < |l'.separators| {
      if t in l.tops {
        TopWiden(source, l.separators, l.index, t);
      }
    }
  }

  lemma SeparatorPush(source: string, separators: seq<nat>, p: nat)
    requires SeparatorsOk(source, separators) && Behind(separators, |separators|) <= p < |source|
    requires IsSeparator(source[p])
    ensures SeparatorsOk(source, separators + [p])
  {}

  lemma InitText(source: string, nextPipeline: int)
    ensures TextInv(source, Init(nextPipeline))
  {}

  lemma StepText(source: string, lx: Lexer)
    requires TextInv(source, lx) && lx.index < |source|
    ensures TextInv(source, Step(source, lx))
  {
    var l := Step(source, lx);
    hide TextInv;
    hide StepEscape;
    hide StepBrace;
    hide StepQuote;
    hide StepPlain;
    hide StepSeparator;
    hide StepSubstitution;
    match KindOf(source, lx) {
      case Separator => SeparatorText(source, lx);
      case Comment => SkipText(source, lx, l);
      case Space =>
        FlushWordText(source, lx);
        SkipText(source, FlushWord(lx), l);
      case _ => ExtendText(source, lx, l);
    }
  }

  lemma {:induction false} LoopText(source: string, lx: Lexer)
    requires TextInv(source, lx)
    ensures TextInv(source, Loop(source, lx))
    decreases if lx.index < |source| then |source| - lx.index else 0
  {
    hide TextInv;
    hide Step;
    if lx.index < |source| {
      StepText(source, lx);
      LoopText(source, Step(source, lx));
    }
  }

  // The words of the commands of the source itself are stretches of it, in order and without
  // overlap, and each command stands between two neighbouring separators.
  lemma TopLevelWordsAreText(source: string, nextPipeline: int)
    ensures var l := Tokens(source, nextPipeline);
            && SeparatorsOk(source, l.separators)
            && TopsOk(source, l.separators, l.tops)
  {
    InitText(source, nextPipeline);
    LoopText(source, Init(nextPipeline));
    var lx := Loop(source, Init(nextPipeline));
    FlushWordText(source, lx);
    hide Placed;
    hide Loop;
  }

  // So a later command's words come after an earlier one's.
  lemma CommandsInOrder(source: string, nextPipeline: int, a: nat, b: nat, i: nat, j: nat)
    requires a < b < |Tokens(source, nextPipeline).tops|
    requires i < |Tokens(source, nextPipeline).tops[a].spans| && j < |Tokens(source, nextPipeline).tops[b].spans|
    ensures Tokens(source, nextPipeline).tops[a].spans[i].to <= Tokens(source, nextPipeline).tops[b].spans[j].from
  {
    TopLevelWordsAreText(source, nextPipeline);
    var l := Tokens(source, nextPipeline);
    hide Tokens;
    assert TopOk(source, l.separators, l.tops[a]) && TopOk(source, l.separators, l.tops[b]);
    var n, m := l.tops[a].separators, l.tops[b].separators;
    assert l.separators[n] <= l.separators[m - 1];
  }

  // ----- no empty word, no empty command -----

  predicate WordsOk(words: seq<Word>) {
    words != [] && forall w | w in words :: w.raw != ""
  }

  ghost predicate NonEmptyInv(lx: Lexer) {
    && (forall w | w in lx.words :: w.raw != "")
    && (forall c | c in lx.commands :: WordsOk(c.words))
    && (forall t | t in lx.tops :: t.command in lx.commands)
  }

  lemma SameNonEmpty(lx: Lexer, l: Lexer)
    requires NonEmptyInv(lx) && l.words == lx.words && l.tops == lx.tops && l.commands == lx.commands
    ensures NonEmptyInv(l)
  {}

  lemma FlushCommandNonEmpty(lx: Lexer)
    requires NonEmptyInv(lx)
    ensures NonEmptyInv(FlushWord(lx)) && NonEmptyInv(FlushCommand(lx))
  {}

  lemma SubstitutionNonEmpty(source: string, lx: Lexer)
    requires NonEmptyInv(lx) && lx.index < |source| && KindOf(source, lx).Substitution?
    requires NonEmptyInv(Tokens(InnerSource(source, lx.index), lx.nextPipeline))
    ensures NonEmptyInv(StepSubstitution(source, lx))
  {
    var inner := Tokens(InnerSource(source, lx.index), lx.nextPipeline);
    var l := StepSubstitution(source, lx);
    assert l.commands == lx.commands + Shift(inner.commands, lx.line);
    assert l.words == lx.words && l.tops == lx.tops;
    hide Tokens;
    hide StepSubstitution;
    forall c | c in l.commands ensures WordsOk(c.words) {
      if c !in lx.commands {
        var i :| 0 <= i < |inner.commands| && c == Shift(inner.commands, lx.line)[i];
        assert inner.commands[i] in inner.commands && c.words == inner.commands[i].words;
      }
    }
  }

  lemma {:induction false} StepNonEmpty(source: string, lx: Lexer)
    requires NonEmptyInv(lx) && lx.index < |source|
    ensures NonEmptyInv(Step(source, lx))
    decreases |source|, 0, 0
  {
    hide NonEmptyInv;
    hide Tokens;
    hide SubstitutionEnd;
    hide StepSubstitution;
    FlushCommandNonEmpty(lx);
    if KindOf(source, lx).Substitution? {
      NoEmptyTokens(InnerSource(source, lx.index), lx.nextPipeline);
      SubstitutionNonEmpty(source, lx);
    } else if KindOf(source, lx).Separator? {
      hide FlushCommand;
      SameNonEmpty(FlushCommand(lx), StepSeparator(source, lx));
    } else if KindOf(source, lx).Space? {
      SameNonEmpty(FlushWord(lx), Step(source, lx));
    } else {
      SameNonEmpty(lx, Step(source, lx));
    }
  }

  lemma {:induction false} LoopNonEmpty(source: string, lx: Lexer)
    requires NonEmptyInv(lx)
    ensures NonEmptyInv(Loop(source, lx))
    decreases |source|, 1, if lx.index < |source| then |source| - lx.index else 0
  {
    hide NonEmptyInv;
    hide Step;
    if lx.index < |source| {
      StepNonEmpty(source, lx);
      LoopNonEmpty(source, Step(source, lx));
    }
  }

  // In the source and in every substitution, however deep: no command without words, and no
  // word without text. The commands of the source itself are among the commands.
  lemma {:induction false} NoEmptyTokens(source: string, nextPipeline: int)
    ensures NonEmptyInv(Tokens(source, nextPipeline))
    decreases |source|, 2, 0
  {
    LoopNonEmpty(source, Init(nextPipeline));
    FlushCommandNonEmpty(Loop(source, Init(nextPipeline)));
  }

  // ----- pipelines -----

  ghost predicate AllLone(source: string, separators: seq<nat>, n: nat, m: nat)
    requires n <= m <= |separators|
  {
    forall k | n <= k < m :: Lone(source, separators[k])
  }

  ghost predicate PipeInv(source: string, lx: Lexer) {
    && lx.pipeline < lx.nextPipeline
    && (forall t | t in lx.tops :: CurrentIff(source, lx, t))
    && (forall i, j | 0 <= i < j < |lx.tops| :: SharedIff(source, lx.separators, lx.tops[i], lx.tops[j]))
  }

  ghost predicate CurrentIff(source: string, lx: Lexer, t: Top) {
    && t.separators <= |lx.separators| && t.command.pipeline < lx.nextPipeline
    && (t.command.pipeline == lx.pipeline <==> AllLone(source, lx.separators, t.separators, |lx.separators|))
  }

  ghost predicate SharedIff(source: string, separators: seq<nat>, a: Top, b: Top) {
    && a.separators <= b.separators <= |separators|
    && (a.command.pipeline == b.command.pipeline <==> AllLone(source, separators, a.separators, b.separators))
  }

  lemma FlushCommandPipes(source: string, lx: Lexer)
    requires PipeInv(source, lx)
    ensures PipeInv(source, FlushCommand(lx)) && FlushCommand(lx).separators == lx.separators
  {
    var l := FlushCommand(lx);
    if |l.tops| > |lx.tops| {
      forall t | t in l.tops ensures CurrentIff(source, l, t) {
        assert t in lx.tops ==> CurrentIff(source, lx, t);
      }
      forall i, j | 0 <= i < j < |l.tops| ensures SharedIff(source, l.separators, l.tops[i], l.tops[j]) {
        assert l.tops[i] == lx.tops[i] && CurrentIff(source, lx, lx.tops[i]);
        if j < |lx.tops| {
          assert SharedIff(source, lx.separators, lx.tops[i], lx.tops[j]);
        }
      }
    }
  }

  lemma AllLonePush(source: string, separators: seq<nat>, p: nat, n: nat, m: nat)
    requires n <= m <= |separators|
    ensures AllLone(source, separators + [p], n, m) <==> AllLone(source, separators, n, m)
    ensures AllLone(source, separators + [p], n, |separators| + 1) <==>
              AllLone(source, separators, n, |separators|) && Lone(source, p)
  {
    assert forall k | n <= k < |separators| :: (separators + [p])[k] == separators[k];
    assert (separators + [p])[|separators|] == p;
  }

  lemma SeparatorPipes(source: string, lx: Lexer)
    requires PipeInv(source, lx) && lx.index < |source|
    ensures PipeInv(source, StepSeparator(source, lx))
  {
    FlushCommandPipes(source, lx);
    var l, l', p := FlushCommand(lx), StepSeparator(source, lx), lx.index;
    assert l'.tops == l.tops && l'.separators == l.separators + [p];
    hide AllLone;
    hide FlushCommand;
    forall t | t in l'.tops ensures CurrentIff(source, l', t) {
      assert CurrentIff(source, l, t);
      AllLonePush(source, l.separators, p, t.separators, |l.separators|);
    }
    forall i, j | 0 <= i < j < |l'.tops| ensures SharedIff(source, l'.separators, l'.tops[i], l'.tops[j]) {
      assert SharedIff(source, l.separators, l.tops[i], l.tops[j]);
      AllLonePush(source, l.separators, p, l.tops[i].separators, l.tops[j].separators);
    }
  }

  // Steps other than separators keep the pipeline; a substitution only uses up numbers.
  lemma KeepPipes(source: string, lx: Lexer, l: Lexer)
    requires PipeInv(source, lx)
    requires l.tops == lx.tops && l.separators == lx.separators && l.pipeline == lx.pipeline
    requires l.nextPipeline >= lx.nextPipeline
    ensures PipeInv(source, l)
  {
    forall t | t in l.tops ensures CurrentIff(source, l, t) {
      assert CurrentIff(source, lx, t);
    }
  }

  lemma StepKeeps(source: string, lx: Lexer)
    requires lx.index < |source| && !KindOf(source, lx).Separator?
    ensures var l := Step(source, lx);
            && l.tops == lx.tops && l.separators == lx.separators && l.pipeline == lx.pipeline
            && l.nextPipeline == if KindOf(source, lx).Substitution?
                                 then Tokens(InnerSource(source, lx.index), lx.nextPipeline).nextPipeline
                                 else lx.nextPipeline
  {
    hide Tokens;
    hide SubstitutionEnd;
    match KindOf(source, lx) {
      case _ =>
    }
  }

  lemma {:induction false} StepPipes(source: string, lx: Lexer)
    requires PipeInv(source, lx) && lx.index < |source|
    ensures PipeInv(source, Step(source, lx)) && Step(source, lx).nextPipeline >= lx.nextPipeline
    decreases |source|, 0, 0
  {
    hide PipeInv;
    if KindOf(source, lx).Separator? {
      SeparatorPipes(source, lx);
    } else {
      StepKeeps(source, lx);
      if KindOf(source, lx).Substitution? {
        TokensPipes(InnerSource(source, lx.index), lx.nextPipeline);
      }
      KeepPipes(source, lx, Step(source, lx));
    }
  }

  lemma {:induction false} LoopPipes(source: string, lx: Lexer)
    requires PipeInv(source, lx)
    ensures PipeInv(source, Loop(source, lx)) && Loop(source, lx).nextPipeline >= lx.nextPipeline
    decreases |source|, 1, if lx.index < |source| then |source| - lx.index else 0
  {
    hide PipeInv;
    hide Step;
    if lx.index < |source| {
      StepPipes(source, lx);
      LoopPipes(source, Step(source, lx));
    }
  }

  lemma {:induction false} TokensPipes(source: string, nextPipeline: int)
    ensures PipeInv(source, Tokens(source, nextPipeline)) && Tokens(source, nextPipeline).nextPipeline > nextPipeline
    decreases |source|, 2, 0
  {
    LoopPipes(source, Init(nextPipeline));
    FlushCommandPipes(source, Loop(source, Init(nextPipeline)));
  }

  // Two commands of the source share a pipeline exactly when every separator between them is
  // a `|` with no `|` beside it.
  lemma PipelineIff(source: string, nextPipeline: int, a: nat, b: nat)
    requires a < b < |Tokens(source, nextPipeline).tops|
    ensures var l := Tokens(source, nextPipeline);
            && l.tops[a].separators <= l.tops[b].separators <= |l.separators|
            && (l.tops[a].command.pipeline == l.tops[b].command.pipeline <==>
                AllLone(source, l.separators, l.tops[a].separators, l.tops[b].separators))
  {
    TokensPipes(source, nextPipeline);
    var l := Tokens(source, nextPipeline);
    assert SharedIff(source, l.separators, l.tops[a], l.tops[b]);
  }
}
