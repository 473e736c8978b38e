// The tokenizer as a loop over characters that updates its variables.
module ShellCommands {
  import opened Options
  import opened ShellSubstitutions
  import opened ShellTokenizer
  import opened ShellTokenizerLaws

  class Tokenizer {
    const source: string
    var index: nat
    var words: seq<Word>
    var value: string
    var raw: string
    var quote: Option<char>
    var line: int
    var commandLine: int
    var pipeline: int
    var nextPipeline: int
    var commands: seq<Command>
    ghost var from: nat
    ghost var spans: seq<Span>
    ghost var tops: seq<Top>
    ghost var separators: seq<nat>

    ghost function View(): Lexer
      reads this
    {
      Lexer(index, words, value, raw, quote, line, commandLine, pipeline, nextPipeline, commands,
            from, spans, tops, separators)
    }

    constructor (text: string, firstPipeline: int)
      ensures source == text && View() == Init(firstPipeline)
    {
      source := text;
      index, words, value, raw, quote, line, commandLine := 0, [], "", "", None, 1, 1;
      pipeline, nextPipeline, commands := firstPipeline, firstPipeline + 1, [];
      from, spans, tops, separators := 0, [], [], [];
    }

    method FlushWord()
      modifies this
      ensures View() == ShellTokenizer.FlushWord(old(View()))
    {
      if raw != "" {
        spans := spans + [Span(from, from + |raw|)];
        words := words + [Word(value, raw)];
      }
      value, raw := "", "";
    }

    method FlushCommand()
      modifies this
      ensures View() == ShellTokenizer.FlushCommand(old(View()))
      ensures index == old(index) && separators == old(separators)
    {
      FlushWord();
      if words != [] {
        tops := tops + [Top(Command(words, commandLine, pipeline), spans, |separators|)];
        commands := commands + [Command(words, commandLine, pipeline)];
      }
      words, spans, commandLine := [], [], line;
    }

    // Adds text to the current word.
    method Append(rawText: string, valueText: string)
      modifies this
      ensures View() == Extend(old(View()), rawText, valueText, old(index))
    {
      from := if raw == "" then index else from;
      raw, value := raw + rawText, value + valueText;
    }

    method TakeEscape()
      requires index < |source|
      modifies this
      ensures View() == StepEscape(source, old(View()))
    {
      var next := if index + 1 < |source| then [source[index + 1]] else "";
      Append([source[index]] + next, next);
      index := index + 2;
    }

    method TakeSubstitution()
      requires index < |source| && KindOf(source, View()).Substitution?
      modifies this
      ensures View() == StepSubstitution(source, old(View()))
      decreases |source|, 0, 0
    {
      hide Tokens;
      hide SubstitutionEnd;
      hide ShellTokenizer.PassText;
      hide Shift;
      hide KindOf;
      hide Slice;
      hide Loop;
      hide Consumes;
      var backtick := source[index] == '`';
      var start := index + if backtick then 1 else 2;
      var end := FindEnd(source, start, backtick);
      assert end == SubstitutionClose(source, index) && Slice(source, start, end) == InnerSource(source, index);
      hide SubstitutionClose;
      hide InnerSource;
      var inner, next := ShellCommandsOf(Slice(source, start, end), nextPipeline);
      var before := line;
      PassText(end);
      commands, nextPipeline := commands + Shift(inner, before), next;
    }

    // What the substitution is written as goes to the word; its newlines count.
    method PassText(end: nat)
      requires index <= end
      modifies this
      ensures View() == ShellTokenizer.PassText(source, old(View()), end) && commands == old(commands)
    {
      hide Slice;
      hide CountNewlines;
      var text := Slice(source, index, end + 1);
      Append(text, text);
      var newlines := NewlinesIn(text);
      line, index := line + newlines, end + 1;
    }

    method TakeQuote()
      requires index < |source|
      modifies this
      ensures View() == StepQuote(source, old(View()))
    {
      Append([source[index]], "");
      quote := if quote.Some? then None else Some(source[index]);
      index := index + 1;
    }

    method TakeComment()
      requires index < |source| && source[index] != '\n'
      modifies `index
      ensures View() == StepComment(source, old(View()))
    {
      var end := IndexOf(source, '\n', index);
      index := if end.None? then |source| + 1 else end.value;
    }

    method TakeBrace()
      requires index < |source|
      modifies this
      ensures View() == StepBrace(source, old(View()))
    {
      var end := IndexOf(source, '}', index);
      var part := source[index..if end.None? then |source| else end.value + 1];
      Append(part, part);
      index := index + |part|;
    }

    method TakeSeparator()
      requires index < |source|
      modifies this
      ensures View() == StepSeparator(source, old(View()))
    {
      hide ShellTokenizer.FlushCommand;
      hide ShellTokenizer.EndPipeline;
      hide ShellTokenizer.PassSeparator;
      FlushCommand();
      EndPipeline();
      PassSeparator();
    }

    method EndPipeline()
      requires index < |source|
      modifies `pipeline, `nextPipeline
      ensures View() == ShellTokenizer.EndPipeline(source, old(View()))
    {
      var c := source[index];
      if c != '|' || CharAt(source, index + 1) == Some('|') || (index > 0 && source[index - 1] == '|') {
        pipeline, nextPipeline := nextPipeline, nextPipeline + 1;
      }
    }

    method PassSeparator()
      requires index < |source|
      modifies this
      ensures View() == ShellTokenizer.PassSeparator(source, old(View()))
    {
      separators := separators + [index];
      if source[index] == '\n' {
        line := line + 1;
        commandLine := line;
      }
      index := index + 1;
    }

    // The character loop.
    method Run()
      modifies this
      ensures View() == Loop(source, old(View()))
      decreases |source|, 1, 0
    {
      while index < |source|
        invariant Loop(source, View()) == Loop(source, old(View()))
        decreases |source| - index
      {
        TakeStep();
      }
    }

    method TakeStep()
      requires index < |source|
      modifies this
      ensures View() == Step(source, old(View()))
      decreases |source|, 0, 1
    {
      hide StepEscape;
      hide StepSubstitution;
      hide StepQuote;
      hide StepComment;
      hide StepBrace;
      hide StepSeparator;
      hide IsSpace;
      hide IsSeparator;
      var c := source[index];
      if c == '\\' && quote != Some('\'') {
        TakeEscape();
      } else if ((c == '$' && CharAt(source, index + 1) == Some('(')) || c == '`') && quote != Some('\'') {
        TakeSubstitution();
      } else if (c == '\'' || c == '"') && (quote.None? || quote == Some(c)) {
        TakeQuote();
      } else if quote.None? && c == '#' && raw == "" {
        TakeComment();
      } else if quote.None? && IsSeparator(c) {
        if c == '{' && EndsWithDollar(raw) {
          TakeBrace();
        } else {
          TakeSeparator();
        }
      } else if quote.None? && IsSpace(c) {
        FlushWord();
        index := index + 1;
      } else {
        Append([c], [c]);
        index := index + 1;
      }
    }
  }

  // Where the substitution that starts here ends: at its own closing character, outside of
  // any inner quotes and nesting, or past the end.
  method FindEnd(source: string, start: nat, backtick: bool) returns (end: nat)
    ensures end == SubstitutionEnd(source, start, 1, None, backtick)
    ensures EndsAt(source, start, backtick, end)
  {
    ScanEndsAt(source, start, backtick);
    hide EndsAt;
    var depth: nat := 1;
    var innerQuote: Option<char> := None;
    end := start;
    while end < |source|
      invariant depth >= 1
      invariant SubstitutionEnd(source, end, depth, innerQuote, backtick) ==
                SubstitutionEnd(source, start, 1, None, backtick)
      decreases |source| + 1 - end
    {
      var current := source[end];
      if current == '\\' {
        end := end + 2;
        continue;
      }
      if IsQuote(current) && (innerQuote.None? || innerQuote == Some(current)) {
        innerQuote := if innerQuote.Some? then None else Some(current);
      } else if innerQuote.None? {
        if backtick && current == '`' {
          return;
        }
        if !backtick && current == '(' {
          depth := depth + 1;
        }
        if !backtick && current == ')' {
          if depth == 1 {
            return;
          }
          depth := depth - 1;
        }
      }
      end := end + 1;
    }
  }

  method NewlinesIn(s: string) returns (n: nat)
    ensures n == CountNewlines(s)
  {
    n := 0;
    for i := 0 to |s|
      invariant n == CountNewlines(s[..i])
    {
      assert s[..i + 1][..i] == s[..i];
      n := n + if s[i] == '\n' then 1 else 0;
    }
    assert s[..|s|] == s;
  }

  // All commands of a source text, its substitutions' included.
  method ShellCommandsOf(source: string, firstPipeline: int) returns (commands: seq<Command>, nextPipeline: int)
    ensures commands == Tokens(source, firstPipeline).commands
    ensures nextPipeline == Tokens(source, firstPipeline).nextPipeline
    ensures forall c | c in commands :: WordsOk(c.words)
    decreases |source|, 2, 0
  {
    var t := new Tokenizer(source, firstPipeline);
    t.Run();
    t.FlushCommand();
    NoEmptyTokens(source, firstPipeline);
    return t.commands, t.nextPipeline;
  }
}
