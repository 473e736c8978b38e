// Whose commands the tokenizer returns: the source's own, and those of its substitutions.
module ShellTokenizerParts {
  import opened Options
  import opened ShellTokenizer
  import opened ShellSubstitutions
  import opened ShellTokenizerLaws

  // What the tokenizer returns comes in parts: a command of the source itself, or all the
  // commands of the substitution that begins at `at`.
  datatype Part = Own(top: Top) | Inner(at: nat, text: string, firstPipeline: int, line: int)

  function CommandsOf(part: Part): seq<Command> {
    match part
    case Own(top) => [top.command]
    case Inner(_, text, firstPipeline, line) => Shift(Tokens(text, firstPipeline).commands, line)
  }

  function AllCommands(parts: seq<Part>): seq<Command> {
    if parts == [] then [] else AllCommands(parts[..|parts| - 1]) + CommandsOf(parts[|parts| - 1])
  }

  function OwnTops(parts: seq<Part>): seq<Top> {
    if parts == [] then []
    else OwnTops(parts[..|parts| - 1]) + if parts[|parts| - 1].Own? then [parts[|parts| - 1].top] else []
  }

  // An inner part is the balanced text between a `$(` or a backtick and the close that answers
  // it, or the rest of the source if nothing does.
  ghost predicate StandsIn(source: string, part: Part) {
    part.Inner? ==>
      && part.at < |source|
      && (source[part.at] == '`' || (source[part.at] == '$' && CharAt(source, part.at + 1) == Some('(')))
      && Encloses(source, part.at, part.text)
  }

  // A command of the source is returned at the separator, or the end, that completes it; those
  // of a substitution are returned where it begins.
  function StartOf(source: string, separators: seq<nat>, part: Part): nat {
    match part
    case Own(top) => Ahead(source, separators, top.separators)
    case Inner(at, _, _, _) => at
  }

  ghost function EndOf(source: string, separators: seq<nat>, part: Part): nat
    requires StandsIn(source, part)
  {
    match part
    case Own(top) => Min(Ahead(source, separators, top.separators) + 1, |source|)
    case Inner(at, text, _, _) => Min(at + (if source[at] == '`' then 1 else 2) + |text| + 1, |source|)
  }

  // Each part ends before the next begins, so no substitution is counted twice or in the
  // middle of another.
  ghost predicate InOrder(source: string, separators: seq<nat>, parts: seq<Part>) {
    && (forall k | 0 <= k < |parts| :: StandsIn(source, parts[k]))
    && forall j, k | 0 <= j < k < |parts| ::
         EndOf(source, separators, parts[j]) <= StartOf(source, separators, parts[k])
  }

  // The commands returned are those of the parts, the logged ones are the source's own, and
  // the parts follow the text.
  ghost predicate MadeOf(source: string, lx: Lexer, parts: seq<Part>) {
    && lx.commands == AllCommands(parts)
    && lx.tops == OwnTops(parts)
    && InOrder(source, lx.separators, parts)
  }

  // The part belongs to the text before `here`, and no later separator can move it.
  ghost predicate ReadBy(source: string, separators: seq<nat>, here: nat, part: Part) {
    && StandsIn(source, part)
    && (part.Own? ==> part.top.separators < |separators|)
    && EndOf(source, separators, part) <= here
  }

  ghost predicate PartsInv(source: string, lx: Lexer, parts: seq<Part>) {
    && MadeOf(source, lx, parts)
    && forall k | 0 <= k < |parts| :: ReadBy(source, lx.separators, Here(source, lx), parts[k])
  }

  lemma PushPart(parts: seq<Part>, part: Part)
    ensures AllCommands(parts + [part]) == AllCommands(parts) + CommandsOf(part)
    ensures OwnTops(parts + [part]) == OwnTops(parts) + if part.Own? then [part.top] else []
  {
    assert (parts + [part])[..|parts|] == parts;
  }

  // A part that begins where all the others have ended comes last.
  lemma PushInOrder(source: string, separators: seq<nat>, here: nat, parts: seq<Part>, part: Part)
    requires InOrder(source, separators, parts) && StandsIn(source, part)
    requires forall k | 0 <= k < |parts| :: ReadBy(source, separators, here, parts[k])
    requires here <= StartOf(source, separators, part)
    ensures InOrder(source, separators, parts + [part])
  {
    var more := parts + [part];
    forall j, k | 0 <= j < k < |more|
      ensures EndOf(source, separators, more[j]) <= StartOf(source, separators, more[k])
    {
      assert more[j] == parts[j] && ReadBy(source, separators, here, parts[j]);
    }
  }

  // A separator later in the text moves no part already behind.
  lemma KeepPlace(source: string, separators: seq<nat>, p: nat, here: nat, next: nat, part: Part)
    requires ReadBy(source, separators, here, part) && here <= next
    ensures ReadBy(source, separators + [p], next, part)
    ensures StartOf(source, separators + [p], part) == StartOf(source, separators, part)
    ensures EndOf(source, separators + [p], part) == EndOf(source, separators, part)
  {}

  lemma KeepPlaces(source: string, separators: seq<nat>, p: nat, here: nat, next: nat, parts: seq<Part>)
    requires InOrder(source, separators, parts) && here <= next
    requires forall k | 0 <= k < |parts| :: ReadBy(source, separators, here, parts[k])
    ensures InOrder(source, separators + [p], parts)
    ensures forall k | 0 <= k < |parts| :: ReadBy(source, separators + [p], next, parts[k])
  {
    hide ReadBy;
    hide StartOf;
    hide EndOf;
    hide StandsIn;
    forall k | 0 <= k < |parts|
      ensures ReadBy(source, separators + [p], next, parts[k])
      ensures StartOf(source, separators + [p], parts[k]) == StartOf(source, separators, parts[k])
      ensures EndOf(source, separators + [p], parts[k]) == EndOf(source, separators, parts[k])
    {
      KeepPlace(source, separators, p, here, next, parts[k]);
    }
  }

  // Ending a command adds it, if it has words, and nothing else.
  lemma FlushCommandTops(lx: Lexer)
    ensures var l := FlushCommand(lx);
            && l.separators == lx.separators && l.index == lx.index
            && ((l.tops == lx.tops && l.commands == lx.commands)
                || (|l.tops| == |lx.tops| + 1 && l.tops == lx.tops + [l.tops[|lx.tops|]]
                    && l.tops[|lx.tops|].separators == |lx.separators|
                    && l.commands == lx.commands + [l.tops[|lx.tops|].command]))
  {}

  // The command that ends at the separator being read is the last part so far.
  lemma PushOwn(source: string, separators: seq<nat>, p: nat, parts: seq<Part>, part: Part)
    requires InOrder(source, separators, parts) && p < |source|
    requires forall k | 0 <= k < |parts| :: ReadBy(source, separators, p, parts[k])
    requires part.Own? && part.top.separators < |separators| && separators[part.top.separators] == p
    ensures InOrder(source, separators, parts + [part])
    ensures forall k | 0 <= k < |parts| + 1 :: ReadBy(source, separators, p + 1, (parts + [part])[k])
  {
    PushInOrder(source, separators, p, parts, part);
    hide InOrder;
    forall k | 0 <= k < |parts| + 1 ensures ReadBy(source, separators, p + 1, (parts + [part])[k]) {
      assert k < |parts| ==> (parts + [part])[k] == parts[k] && ReadBy(source, separators, p, parts[k]);
    }
  }

  lemma SeparatorEffect(source: string, lx: Lexer)
    requires lx.index < |source|
    ensures var l, l' := FlushCommand(lx), StepSeparator(source, lx);
            && l'.commands == l.commands && l'.tops == l.tops
            && l'.separators == l.separators + [lx.index] && l'.index == lx.index + 1
  {
    hide FlushCommand;
    hide Lone;
  }

  lemma SeparatorParts(source: string, lx: Lexer, parts: seq<Part>) returns (more: seq<Part>)
    requires PartsInv(source, lx, parts) && lx.index < |source|
    ensures PartsInv(source, StepSeparator(source, lx), more)
  {
    hide FlushCommand;
    hide StepSeparator;
    hide AllCommands;
    hide OwnTops;
    hide InOrder;
    hide StandsIn;
    hide StartOf;
    hide EndOf;
    FlushCommandTops(lx);
    SeparatorEffect(source, lx);
    var l, p, separators := FlushCommand(lx), lx.index, lx.separators + [lx.index];
    if l.tops == lx.tops {
      KeepPlaces(source, lx.separators, p, p, p + 1, parts);
      more := parts;
    } else {
      KeepPlaces(source, lx.separators, p, p, p, parts);
      var part := Own(l.tops[|lx.tops|]);
      PushPart(parts, part);
      PushOwn(source, separators, p, parts, part);
      hide ReadBy;
      more := parts + [part];
    }
  }

  // The part a substitution is, and where it ends.
  lemma SubstitutionStands(source: string, separators: seq<nat>, at: nat, firstPipeline: int, line: int)
    requires at < |source| && Opens(source, at)
    ensures var part := Inner(at, InnerSource(source, at), firstPipeline, line);
            StandsIn(source, part) && EndOf(source, separators, part) == Min(SubstitutionClose(source, at) + 1, |source|)
  {
    InnerIsEnclosed(source, at);
    hide Encloses;
    hide InnerSource;
    hide SubstitutionClose;
  }

  // A substitution adds its own commands and reads on behind its close.
  lemma SubstitutionEffect(source: string, lx: Lexer)
    requires lx.index < |source| && KindOf(source, lx).Substitution?
    ensures var part := Inner(lx.index, InnerSource(source, lx.index), lx.nextPipeline, lx.line);
            var l := StepSubstitution(source, lx);
            && Opens(source, lx.index)
            && l.commands == lx.commands + CommandsOf(part)
            && l.tops == lx.tops && l.separators == lx.separators
            && l.index == SubstitutionClose(source, lx.index) + 1
  {
    hide Tokens;
    hide Shift;
    hide InnerSource;
    hide SubstitutionClose;
    hide Slice;
    hide CountNewlines;
    hide Opens;
  }

  lemma SubstitutionParts(source: string, lx: Lexer, parts: seq<Part>) returns (more: seq<Part>)
    requires PartsInv(source, lx, parts) && lx.index < |source| && KindOf(source, lx).Substitution?
    ensures PartsInv(source, StepSubstitution(source, lx), more)
  {
    hide StepSubstitution;
    hide KindOf;
    hide InnerSource;
    hide SubstitutionClose;
    hide CommandsOf;
    hide AllCommands;
    hide OwnTops;
    hide InOrder;
    hide StandsIn;
    SubstitutionEffect(source, lx);
    SubstitutionStands(source, lx.separators, lx.index, lx.nextPipeline, lx.line);
    var l := StepSubstitution(source, lx);
    var part := Inner(lx.index, InnerSource(source, lx.index), lx.nextPipeline, lx.line);
    PushPart(parts, part);
    PushInOrder(source, lx.separators, lx.index, parts, part);
    more := parts + [part];
    forall k | 0 <= k < |more| ensures ReadBy(source, l.separators, Here(source, l), more[k]) {
      assert k < |parts| ==> more[k] == parts[k] && ReadBy(source, lx.separators, lx.index, parts[k]);
    }
  }

  lemma StepParts(source: string, lx: Lexer, parts: seq<Part>) returns (more: seq<Part>)
    requires PartsInv(source, lx, parts) && lx.index < |source|
    ensures PartsInv(source, Step(source, lx), more)
  {
    if KindOf(source, lx).Substitution? {
      more := SubstitutionParts(source, lx, parts);
    } else if KindOf(source, lx).Separator? {
      more := SeparatorParts(source, lx, parts);
    } else {
      more := parts;
      var l := Step(source, lx);
      OtherSteps(source, lx);
      hide Step;
      hide KindOf;
      forall k | 0 <= k < |more| ensures ReadBy(source, l.separators, Here(source, l), more[k]) {
        assert ReadBy(source, lx.separators, Here(source, lx), parts[k]);
      }
    }
  }

  // Every other step only reads on.
  lemma OtherSteps(source: string, lx: Lexer)
    requires lx.index < |source| && !KindOf(source, lx).Substitution? && !KindOf(source, lx).Separator?
    ensures var l := Step(source, lx);
            && l.commands == lx.commands && l.tops == lx.tops && l.separators == lx.separators
            && l.index > lx.index
  {}

  lemma {:induction false} LoopParts(source: string, lx: Lexer, parts: seq<Part>) returns (more: seq<Part>)
    requires PartsInv(source, lx, parts)
    ensures PartsInv(source, Loop(source, lx), more)
    decreases if lx.index < |source| then |source| - lx.index else 0
  {
    hide PartsInv;
    hide Step;
    if lx.index < |source| {
      more := StepParts(source, lx, parts);
      more := LoopParts(source, Step(source, lx), more);
    } else {
      more := parts;
    }
  }

  // The command that the end of the text completes.
  lemma LastPart(source: string, lx: Lexer, parts: seq<Part>) returns (more: seq<Part>)
    requires PartsInv(source, lx, parts) && lx.index >= |source|
    ensures MadeOf(source, FlushCommand(lx), more)
  {
    FlushCommandTops(lx);
    var l := FlushCommand(lx);
    hide FlushCommand;
    hide AllCommands;
    hide OwnTops;
    hide InOrder;
    more := parts;
    if l.tops != lx.tops {
      var part := Own(l.tops[|lx.tops|]);
      PushPart(parts, part);
      PushInOrder(source, lx.separators, |source|, parts, part);
      more := parts + [part];
    }
  }

  // The commands returned are the source's own, which are exactly the logged ones, and those of
  // the substitutions in it, each the text between a `$(` or backtick and its close, all in the
  // order of the text: a substitution's commands come before the command it is a word of.
  lemma CommandsComeInParts(source: string, nextPipeline: int) returns (parts: seq<Part>)
    ensures MadeOf(source, Tokens(source, nextPipeline), parts)
  {
    assert PartsInv(source, Init(nextPipeline), []);
    parts := LoopParts(source, Init(nextPipeline), []);
    parts := LastPart(source, Loop(source, Init(nextPipeline)), parts);
  }
}
