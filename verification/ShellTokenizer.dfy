// The shell tokenizer of the process-safety guard: quoted words stay words, and a command
// substitution is tokenized on its own, as commands of their own pipelines.
module ShellTokenizer {
  import opened Options

  datatype Word = Word(value: string, raw: string)

  // Pipelines are objects compared by identity; here each has its own number.
  datatype Command = Command(words: seq<Word>, line: int, pipeline: int)

  // ----- what the tokenizer leaves behind in the text, for stating where words came from -----

  datatype Span = Span(from: nat, to: nat)

  // A command of the source itself, not of a substitution: where its words stand, and how
  // many separators came before it ended.
  datatype Top = Top(command: Command, spans: seq<Span>, separators: nat)

  datatype Lexer = Lexer(
    index: nat,
    words: seq<Word>,
    value: string,
    raw: string,
    quote: Option<char>,
    line: int,
    commandLine: int,
    pipeline: int,
    nextPipeline: int,
    commands: seq<Command>,
    from: nat,
    spans: seq<Span>,
    tops: seq<Top>,
    separators: seq<nat>)

  function Min(a: nat, b: nat): nat {
    if a < b then a else b
  }

  // `source.slice(from, to)`, with its ends clamped.
  function Slice(source: string, from: nat, to: nat): (s: string)
    requires from <= to
    ensures |s| <= to - from
  {
    source[Min(from, |source|)..Min(to, |source|)]
  }

  function CharAt(source: string, i: nat): Option<char> {
    if i < |source| then Some(source[i]) else None
  }

  function IndexOf(source: string, c: char, from: nat): (r: Option<nat>)
    requires from <= |source|
    ensures r.Some? ==> from <= r.value < |source| && source[r.value] == c
    ensures forall i | from <= i < (if r.Some? then r.value else |source|) :: source[i] != c
    decreases |source| - from
  {
    if from == |source| then None
    else if source[from] == c then Some(from)
    else IndexOf(source, c, from + 1)
  }

  function CountNewlines(s: string): nat {
    if s == "" then 0 else CountNewlines(s[..|s| - 1]) + if s[|s| - 1] == '\n' then 1 else 0
  }

  predicate IsQuote(c: char) {
    c == '\'' || c == '"'
  }

  // `;|&(){}` and the newline.
  predicate IsSeparator(c: char) {
    c == ';' || c == '|' || c == '&' || c == '(' || c == ')' || c == '{' || c == '}' || c == '\n'
  }

  // `\s` of a regular expression.
  predicate IsSpace(c: char) {
    || c == ' ' || c == '\U{00A0}' || c == '\U{FEFF}' || c == '\U{1680}' || c == '\U{2028}' || c == '\U{2029}'
    || c == '\U{202F}' || c == '\U{205F}' || c == '\U{3000}' || '\U{0009}' <= c <= '\U{000D}'
    || '\U{2000}' <= c <= '\U{200A}'
  }

  // A `|` with no `|` beside it in the text.
  predicate Lone(source: string, i: nat) {
    && CharAt(source, i) == Some('|')
    && CharAt(source, i + 1) != Some('|')
    && (i == 0 || CharAt(source, i - 1) != Some('|'))
  }

  // ----- the end of a substitution -----

  function SubstitutionEnd(source: string, end: nat, depth: nat, inner: Option<char>, backtick: bool): (r: nat)
    requires depth >= 1
    ensures end <= r && (end <= |source| ==> r <= |source| + 1)
    decreases |source| + 1 - end
  {
    if end >= |source| then end
    else
      var c := source[end];
      if c == '\\' then
        if end + 2 > |source| then end + 2 else SubstitutionEnd(source, end + 2, depth, inner, backtick)
      else if IsQuote(c) && (inner.None? || inner == Some(c)) then
        SubstitutionEnd(source, end + 1, depth, if inner.Some? then None else Some(c), backtick)
      else if inner.Some? then SubstitutionEnd(source, end + 1, depth, inner, backtick)
      else if backtick && c == '`' then end
      else if !backtick && c == '(' then SubstitutionEnd(source, end + 1, depth + 1, inner, backtick)
      else if !backtick && c == ')' then
        if depth == 1 then end else SubstitutionEnd(source, end + 1, depth - 1, inner, backtick)
      else SubstitutionEnd(source, end + 1, depth, inner, backtick)
  }

  // ----- the steps of the character loop -----

  datatype Kind = Escape | Substitution | Quote | Comment | Brace | Separator | Space | Plain

  predicate EndsWithDollar(s: string) {
    s != "" && s[|s| - 1] == '$'
  }

  // A command substitution may begin here: `$(` or a backtick.
  predicate Opens(source: string, i: nat) {
    (CharAt(source, i) == Some('$') && CharAt(source, i + 1) == Some('(')) || CharAt(source, i) == Some('`')
  }

  function KindOf(source: string, lx: Lexer): Kind
    requires lx.index < |source|
  {
    var c := source[lx.index];
    if c == '\\' && lx.quote != Some('\'') then Escape
    else if Opens(source, lx.index) && lx.quote != Some('\'') then Substitution
    else if IsQuote(c) && (lx.quote.None? || lx.quote == Some(c)) then Quote
    else if lx.quote.None? && c == '#' && lx.raw == "" then Comment
    else if lx.quote.None? && IsSeparator(c) then
      if c == '{' && EndsWithDollar(lx.raw) then Brace else Separator
    else if lx.quote.None? && IsSpace(c) then Space
    else Plain
  }

  function Init(nextPipeline: int): Lexer {
    Lexer(0, [], "", "", None, 1, 1, nextPipeline, nextPipeline + 1, [], 0, [], [], [])
  }

  // Text goes to the current word, which begins here if it has not begun.
  function Extend(lx: Lexer, raw: string, value: string, next: nat): Lexer {
    lx.(raw := lx.raw + raw, value := lx.value + value, index := next,
        from := if lx.raw == "" then lx.index else lx.from)
  }

  function FlushWord(lx: Lexer): Lexer {
    if lx.raw == "" then lx.(value := "")
    else
      lx.(words := lx.words + [Word(lx.value, lx.raw)], value := "", raw := "",
          spans := lx.spans + [Span(lx.from, lx.from + |lx.raw|)])
  }

  function FlushCommand(lx: Lexer): (done: Lexer)
    ensures done.index == lx.index
  {
    var l := FlushWord(lx);
    if l.words == [] then l.(commandLine := l.line, spans := [])
    else
      var c := Command(l.words, l.commandLine, l.pipeline);
      l.(commands := l.commands + [c], words := [], commandLine := l.line, spans := [],
         tops := l.tops + [Top(c, l.spans, |l.separators|)])
  }

  // What a step takes from the source it adds to the current word.
  predicate Consumes(source: string, lx: Lexer, l: Lexer) {
    && l.index > lx.index
    && l.raw == lx.raw + Slice(source, lx.index, l.index)
    && l.from == (if lx.raw == "" then lx.index else lx.from)
    && l.words == lx.words && l.spans == lx.spans && l.separators == lx.separators && l.tops == lx.tops
    && l.pipeline == lx.pipeline
  }

  function StepEscape(source: string, lx: Lexer): (l: Lexer)
    requires lx.index < |source|
    ensures Consumes(source, lx, l)
  {
    var next := if lx.index + 1 < |source| then [source[lx.index + 1]] else "";
    Extend(lx, [source[lx.index]] + next, next, lx.index + 2)
  }

  function StepComment(source: string, lx: Lexer): (l: Lexer)
    requires lx.index < |source| && source[lx.index] != '\n'
    ensures l.index > lx.index
  {
    var end := IndexOf(source, '\n', lx.index);
    lx.(index := if end.None? then |source| + 1 else end.value)
  }

  function StepBrace(source: string, lx: Lexer): (l: Lexer)
    requires lx.index < |source|
    ensures Consumes(source, lx, l)
  {
    var end := IndexOf(source, '}', lx.index);
    var part := source[lx.index..if end.None? then |source| else end.value + 1];
    Extend(lx, part, part, lx.index + |part|)
  }

  // A pipeline goes on over a lone `|` and ends at any other separator.
  function EndPipeline(source: string, l: Lexer): (next: Lexer)
    requires l.index < |source|
    ensures next.index == l.index
  {
    if Lone(source, l.index) then l else l.(pipeline := l.nextPipeline, nextPipeline := l.nextPipeline + 1)
  }

  function PassSeparator(source: string, l: Lexer): Lexer
    requires l.index < |source|
  {
    var l1 := l.(separators := l.separators + [l.index], index := l.index + 1);
    if source[l.index] == '\n' then l1.(line := l1.line + 1, commandLine := l1.line + 1) else l1
  }

  function StepSeparator(source: string, lx: Lexer): Lexer
    requires lx.index < |source|
  {
    PassSeparator(source, EndPipeline(source, FlushCommand(lx)))
  }

  function Shift(commands: seq<Command>, lines: int): (r: seq<Command>)
    ensures |r| == |commands|
  {
    seq(|commands|, i requires 0 <= i < |commands| => commands[i].(line := commands[i].line + lines - 1))
  }

  function SubstitutionStart(source: string, index: nat): nat
    requires index < |source|
  {
    index + if source[index] == '`' then 1 else 2
  }

  // Where the substitution that begins at `index` is closed, or where the text ran out.
  function SubstitutionClose(source: string, index: nat): (end: nat)
    requires index < |source|
    ensures index < end
  {
    SubstitutionEnd(source, SubstitutionStart(source, index), 1, None, source[index] == '`')
  }

  // What stands inside the substitution that begins at `index`.
  function InnerSource(source: string, index: nat): (inner: string)
    requires index < |source|
    ensures |inner| < |source|
  {
    Slice(source, SubstitutionStart(source, index), SubstitutionClose(source, index))
  }

  // The whole substitution goes to the word, and its newlines count.
  function PassText(source: string, lx: Lexer, end: nat): Lexer
    requires lx.index <= end
  {
    var text := Slice(source, lx.index, end + 1);
    Extend(lx, text, text, end + 1).(line := lx.line + CountNewlines(text))
  }

  function StepSubstitution(source: string, lx: Lexer): (l: Lexer)
    requires lx.index < |source| && KindOf(source, lx).Substitution?
    ensures Consumes(source, lx, l)
    decreases |source|, 0, 0
  {
    var inner := Tokens(InnerSource(source, lx.index), lx.nextPipeline);
    PassText(source, lx, SubstitutionClose(source, lx.index)).(
      commands := lx.commands + Shift(inner.commands, lx.line), nextPipeline := inner.nextPipeline)
  }

  function StepQuote(source: string, lx: Lexer): (l: Lexer)
    requires lx.index < |source|
    ensures Consumes(source, lx, l)
  {
    var c := source[lx.index];
    Extend(lx, [c], "", lx.index + 1).(quote := if lx.quote.Some? then None else Some(c))
  }

  function StepPlain(source: string, lx: Lexer): (l: Lexer)
    requires lx.index < |source|
    ensures Consumes(source, lx, l)
  {
    Extend(lx, [source[lx.index]], [source[lx.index]], lx.index + 1)
  }

  function Step(source: string, lx: Lexer): (l: Lexer)
    requires lx.index < |source|
    ensures l.index > lx.index
    decreases |source|, 0, 1
  {
    match KindOf(source, lx)
    case Escape => StepEscape(source, lx)
    case Substitution => StepSubstitution(source, lx)
    case Quote => StepQuote(source, lx)
    case Comment => StepComment(source, lx)
    case Brace => StepBrace(source, lx)
    case Separator => StepSeparator(source, lx)
    case Space => FlushWord(lx).(index := lx.index + 1)
    case Plain => StepPlain(source, lx)
  }

  function Loop(source: string, lx: Lexer): (l: Lexer)
    ensures l.index >= |source|
    decreases |source|, 1, if lx.index < |source| then |source| - lx.index else 0
  {
    if lx.index >= |source| then lx else Loop(source, Step(source, lx))
  }

  // The lexer when it is done; its first pipeline is number `nextPipeline`.
  function Tokens(source: string, nextPipeline: int): (l: Lexer)
    decreases |source|, 2, 0
  {
    FlushCommand(Loop(source, Init(nextPipeline)))
  }
}
