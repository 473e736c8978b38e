// Quoted data remains data: commands written out in words of every kind the tokenizer knows
// are read back as they were, with their values, pipelines and lines.
module ShellTokenizerRoundTrip {
  import opened Options
  import opened ShellTokenizer
  import opened ShellSubstitutions

  // ----- what is written -----

  // In double quotes: a character, an escaped one, or a substitution.
  datatype Item = Letter(c: char) | Backslashed(c: char) | Nested(inner: Balanced, backtick: bool)

  // A part of a word; the parts of one word stand together.
  datatype Piece =
    | Bare(text: string)
    | Quoted(text: string)
    | DoubleQuoted(items: seq<Item>)
    | Backslash(c: char)
    | Param(text: string)
    | Subst(inner: Balanced, backtick: bool)

  // One command, its words a gap apart, a comment behind it if there is one, and the separator
  // written after it if another follows.
  datatype Line = Line(words: seq<seq<Piece>>, gap: char, comment: Option<string>, separator: string)

  function SubstText(inner: Balanced, backtick: bool): string {
    if backtick then "`" + TextOf(inner) + "`" else "$(" + TextOf(inner) + ")"
  }

  function ItemText(i: Item): string {
    match i
    case Letter(c) => [c]
    case Backslashed(c) => ['\\', c]
    case Nested(inner, backtick) => SubstText(inner, backtick)
  }

  function ItemsText(items: seq<Item>): string {
    if items == [] then "" else ItemText(items[0]) + ItemsText(items[1..])
  }

  function PieceText(p: Piece): string {
    match p
    case Bare(text) => text
    case Quoted(text) => "'" + text + "'"
    case DoubleQuoted(items) => "\"" + ItemsText(items) + "\""
    case Backslash(c) => ['\\', c]
    case Param(text) => "${" + text + "}"
    case Subst(inner, backtick) => SubstText(inner, backtick)
  }

  function WordText(w: seq<Piece>): string {
    if w == [] then "" else PieceText(w[0]) + WordText(w[1..])
  }

  function WordsText(ws: seq<seq<Piece>>, gap: char): string {
    if ws == [] then "" else if |ws| == 1 then WordText(ws[0])
    else WordText(ws[0]) + [gap] + WordsText(ws[1..], gap)
  }

  function CommentText(line: Line): string {
    if line.comment.Some? then [line.gap] + "#" + line.comment.value else ""
  }

  function LinesText(lines: seq<Line>): string {
    if lines == [] then ""
    else
      WordsText(lines[0].words, lines[0].gap) + CommentText(lines[0]) +
      if |lines| == 1 then "" else lines[0].separator + LinesText(lines[1..])
  }

  // ----- what may be written -----

  predicate PlainChar(c: char) {
    && !IsSeparator(c) && !IsSpace(c) && !IsQuote(c)
    && c != '\\' && c != '$' && c != '`' && c != '#'
  }

  predicate AllPlain(text: string) {
    forall i | 0 <= i < |text| :: PlainChar(text[i])
  }

  predicate Without(text: string, c: char) {
    forall i | 0 <= i < |text| :: text[i] != c
  }

  predicate ItemOk(i: Item) {
    match i
    case Letter(c) => c != '"' && c != '\\' && c != '$' && c != '`'
    case Backslashed(_) => true
    case Nested(inner, backtick) => BalancedOk(inner, backtick)
  }

  predicate ItemsOk(items: seq<Item>) {
    forall i | 0 <= i < |items| :: ItemOk(items[i])
  }

  // A backslash may stand before any character but two: `\$` would make a brace of a `{` that
  // follows, and `\|` would keep a `|` that follows from being a lone one.
  predicate PieceOk(p: Piece) {
    match p
    case Bare(text) => text != "" && AllPlain(text)
    case Quoted(text) => Without(text, '\'')
    case DoubleQuoted(items) => ItemsOk(items)
    case Backslash(c) => c != '$' && c != '|'
    case Param(text) => Without(text, '}')
    case Subst(inner, backtick) => BalancedOk(inner, backtick)
  }

  predicate WordOk(w: seq<Piece>) {
    w != [] && forall i | 0 <= i < |w| :: PieceOk(w[i])
  }

  predicate WordsOk(ws: seq<seq<Piece>>) {
    forall i | 0 <= i < |ws| :: WordOk(ws[i])
  }

  predicate SeparatorOk(s: string) {
    || s == ";" || s == "|" || s == "&" || s == "(" || s == ")" || s == "{" || s == "}" || s == "\n"
    || s == "||" || s == "&&" || s == "\n\n"
  }

  predicate LineOk(line: Line) {
    && line.words != [] && WordsOk(line.words) && (line.gap == ' ' || line.gap == '\t') && SeparatorOk(line.separator)
    && (line.comment.Some? ==> Without(line.comment.value, '\n') && line.separator[0] == '\n')
  }

  predicate LinesOk(lines: seq<Line>) {
    forall i | 0 <= i < |lines| :: LineOk(lines[i])
  }

  // ----- what it stands for -----

  function ItemsValue(items: seq<Item>): string {
    if items == [] then ""
    else (if items[0].Nested? then ItemText(items[0]) else [items[0].c]) + ItemsValue(items[1..])
  }

  // Quotes and backslashes are gone from the value; a parameter and a substitution stay as they
  // were written.
  function PieceValue(p: Piece): string {
    match p
    case Bare(text) => text
    case Quoted(text) => text
    case DoubleQuoted(items) => ItemsValue(items)
    case Backslash(c) => [c]
    case Param(_) => PieceText(p)
    case Subst(_, _) => PieceText(p)
  }

  function WordValue(w: seq<Piece>): string {
    if w == [] then "" else PieceValue(w[0]) + WordValue(w[1..])
  }

  function WordsOf(ws: seq<seq<Piece>>): seq<Word> {
    if ws == [] then [] else [Word(WordValue(ws[0]), WordText(ws[0]))] + WordsOf(ws[1..])
  }

  // The commands so far, the line reached, and the number of the next pipeline.
  datatype Book = Book(commands: seq<Command>, line: int, nextPipeline: int)

  // A substitution's commands come at once, in pipelines of their own, on lines counted on from
  // the current one; its newlines count as well.
  function SubstBook(b: Book, inner: string, text: string): Book {
    var t := Tokens(inner, b.nextPipeline);
    Book(b.commands + seq(|t.commands|, i requires 0 <= i < |t.commands| =>
                            Command(t.commands[i].words, t.commands[i].line + b.line - 1, t.commands[i].pipeline)),
         b.line + CountNewlines(text), t.nextPipeline)
  }

  function ItemsBook(b: Book, items: seq<Item>): Book
    decreases |items|
  {
    if items == [] then b
    else
      var i := items[0];
      ItemsBook(if i.Nested? then SubstBook(b, TextOf(i.inner), ItemText(i)) else b, items[1..])
  }

  function PieceBook(b: Book, p: Piece): Book {
    match p
    case DoubleQuoted(items) => ItemsBook(b, items)
    case Subst(inner, _) => SubstBook(b, TextOf(inner), PieceText(p))
    case _ => b
  }

  function WordBook(b: Book, w: seq<Piece>): Book
    decreases |w|
  {
    if w == [] then b else WordBook(PieceBook(b, w[0]), w[1..])
  }

  function WordsBook(b: Book, ws: seq<seq<Piece>>): Book
    decreases |ws|
  {
    if ws == [] then b else WordsBook(WordBook(b, ws[0]), ws[1..])
  }

  function NewlinesOf(separator: string): int {
    if separator == "\n" then 1 else if separator == "\n\n" then 2 else 0
  }

  // A pipeline goes on over a `|` and ends at anything else; every character of the separator
  // that ends one begins another.
  function LinesBook(b: Book, lines: seq<Line>, commandLine: int, pipeline: int): Book
    decreases |lines|
  {
    if lines == [] then b
    else
      var b1 := WordsBook(b, lines[0].words);
      var b2 := b1.(commands := b1.commands + [Command(WordsOf(lines[0].words), commandLine, pipeline)]);
      if |lines| == 1 then b2
      else
        var s := lines[0].separator;
        var b3 := b2.(line := b2.line + NewlinesOf(s),
                      nextPipeline := b2.nextPipeline + if s == "|" then 0 else |s|);
        LinesBook(b3, lines[1..], b3.line, if s == "|" then pipeline else b3.nextPipeline - 1)
  }

  // ----- one step of the loop -----

  function BookOf(lx: Lexer): Book {
    Book(lx.commands, lx.line, lx.nextPipeline)
  }

  predicate SameWords(lx: Lexer, l: Lexer) {
    l.words == lx.words && l.commandLine == lx.commandLine && l.pipeline == lx.pipeline
  }

  // The text went to the current word, with that value.
  predicate Took(lx: Lexer, l: Lexer, text: string, value: string) {
    && SameWords(lx, l)
    && l.index == lx.index + |text| && l.raw == lx.raw + text && l.value == lx.value + value
  }

  lemma LoopStep(source: string, lx: Lexer)
    requires lx.index < |source|
    ensures Loop(source, lx) == Loop(source, Step(source, lx))
  {}

  lemma TookTwice(lx: Lexer, l: Lexer, l': Lexer, a: string, u: string, b: string, v: string)
    requires Took(lx, l, a, u) && Took(l, l', b, v)
    ensures Took(lx, l', a + b, u + v)
  {}

  predicate Passes(quote: Option<char>, c: char) {
    || (quote == None && PlainChar(c))
    || (quote == Some('\'') && c != '\'')
    || (quote == Some('"') && ItemOk(Letter(c)))
  }

  // A character that goes to the word as it is.
  lemma PlainStep(source: string, lx: Lexer, c: char) returns (l: Lexer)
    requires Stands(source, lx.index, [c])
    requires Passes(lx.quote, c) || (lx.quote == None && c == '$' && CharAt(source, lx.index + 1) == Some('{'))
    ensures Loop(source, lx) == Loop(source, l) && Took(lx, l, [c], [c])
    ensures BookOf(l) == BookOf(lx) && l.quote == lx.quote
  {
    StandsOne(source, lx.index, c);
    assert KindOf(source, lx).Plain?;
    LoopStep(source, lx);
    hide Loop;
    hide KindOf;
    l := StepPlain(source, lx);
  }

  lemma QuoteStep(source: string, lx: Lexer, c: char) returns (l: Lexer)
    requires Stands(source, lx.index, [c]) && (c == '\'' || c == '"')
    requires lx.quote == None || lx.quote == Some(c)
    ensures Loop(source, lx) == Loop(source, l) && Took(lx, l, [c], "")
    ensures BookOf(l) == BookOf(lx) && l.quote == if lx.quote == None then Some(c) else None
  {
    StandsOne(source, lx.index, c);
    assert KindOf(source, lx).Quote?;
    LoopStep(source, lx);
    hide Loop;
    hide KindOf;
    l := StepQuote(source, lx);
  }

  lemma EscapeStep(source: string, lx: Lexer, c: char) returns (l: Lexer)
    requires Stands(source, lx.index, ['\\', c]) && lx.quote != Some('\'')
    ensures Loop(source, lx) == Loop(source, l) && Took(lx, l, ['\\', c], [c])
    ensures BookOf(l) == BookOf(lx) && l.quote == lx.quote
  {
    StandsTwo(source, lx.index, '\\', c);
    assert KindOf(source, lx).Escape?;
    LoopStep(source, lx);
    hide Loop;
    hide KindOf;
    l := StepEscape(source, lx);
    assert [source[lx.index]] + [c] == ['\\', c];
  }

  // ----- a substitution -----

  // How the text of a substitution stands: its opening, what is inside, and its close.
  lemma SubstParts(source: string, i: nat, inner: Balanced, backtick: bool)
    requires Stands(source, i, SubstText(inner, backtick))
    ensures var start := i + if backtick then 1 else 2;
            && Stands(source, i, if backtick then "`" else "$(") && Stands(source, start, TextOf(inner))
            && start + |TextOf(inner)| < |source| && source[start + |TextOf(inner)|] == Closer(backtick)
            && |SubstText(inner, backtick)| == start + |TextOf(inner)| + 1 - i
  {
    hide Stands;
    hide TextOf;
    var open := if backtick then "`" else "$(";
    assert SubstText(inner, backtick) == open + TextOf(inner) + [Closer(backtick)];
    StandsParts(source, i, open + TextOf(inner), [Closer(backtick)]);
    StandsParts(source, i, open, TextOf(inner));
    StandsOne(source, i + |open| + |TextOf(inner)|, Closer(backtick));
  }

  lemma SubstStands(source: string, i: nat, inner: Balanced, backtick: bool)
    requires Stands(source, i, SubstText(inner, backtick)) && BalancedOk(inner, backtick)
    ensures i < |source| && Opens(source, i) && (source[i] == '`' <==> backtick)
    ensures SubstitutionClose(source, i) + 1 == i + |SubstText(inner, backtick)|
    ensures InnerSource(source, i) == TextOf(inner)
    ensures Slice(source, i, SubstitutionClose(source, i) + 1) == SubstText(inner, backtick)
  {
    hide TextOf;
    hide SubstText;
    hide SubstitutionEnd;
    hide BalancedOk;
    SubstParts(source, i, inner, backtick);
    OpenStands(source, i, backtick);
    var start := i + if backtick then 1 else 2;
    var end := start + |TextOf(inner)|;
    assert ClosesAt(source, start, backtick, inner, end);
    EndsAtItsOwnClose(source, start, backtick, end);
    hide ClosesAt;
    hide Opens;
    assert SubstitutionStart(source, i) == start && SubstitutionClose(source, i) == end;
  }

  lemma OpenStands(source: string, i: nat, backtick: bool)
    requires Stands(source, i, if backtick then "`" else "$(")
    ensures i < |source| && Opens(source, i) && (source[i] == '`' <==> backtick)
  {
    if backtick {
      StandsOne(source, i, '`');
    } else {
      StandsTwo(source, i, '$', '(');
    }
    hide Stands;
  }

  lemma SubstStep(source: string, lx: Lexer, inner: Balanced, backtick: bool) returns (l: Lexer)
    requires Stands(source, lx.index, SubstText(inner, backtick)) && BalancedOk(inner, backtick)
    requires lx.quote != Some('\'')
    ensures Loop(source, lx) == Loop(source, l)
    ensures Took(lx, l, SubstText(inner, backtick), SubstText(inner, backtick)) && l.quote == lx.quote
    ensures BookOf(l) == SubstBook(BookOf(lx), TextOf(inner), SubstText(inner, backtick))
  {
    SubstStands(source, lx.index, inner, backtick);
    assert KindOf(source, lx).Substitution?;
    LoopStep(source, lx);
    hide Loop;
    hide KindOf;
    hide Opens;
    hide SubstText;
    hide Slice;
    hide SubstitutionClose;
    hide InnerSource;
    hide CountNewlines;
    hide Tokens;
    l := StepSubstitution(source, lx);
  }

  // ----- the pieces of a word -----

  predicate AllPass(quote: Option<char>, text: string) {
    forall i | 0 <= i < |text| :: Passes(quote, text[i])
  }

  lemma {:induction false} PlainRun(source: string, lx: Lexer, text: string) returns (l: Lexer)
    requires Stands(source, lx.index, text) && AllPass(lx.quote, text)
    ensures Loop(source, lx) == Loop(source, l) && Took(lx, l, text, text)
    ensures BookOf(l) == BookOf(lx) && l.quote == lx.quote
    decreases |text|
  {
    hide Loop;
    hide Stands;
    hide Passes;
    if text == "" {
      l := lx;
      assert lx.raw + "" == lx.raw && lx.value + "" == lx.value;
    } else {
      assert [text[0]] + text[1..] == text;
      StandsParts(source, lx.index, [text[0]], text[1..]);
      var l1 := PlainStep(source, lx, text[0]);
      l := PlainRun(source, l1, text[1..]);
      TookTwice(lx, l1, l, [text[0]], [text[0]], text[1..], text[1..]);
    }
  }

  lemma QuotePasses(text: string)
    requires Without(text, '\'')
    ensures AllPass(Some('\''), text)
  {}

  lemma BarePasses(text: string)
    requires AllPlain(text)
    ensures AllPass(None, text)
  {}

  lemma QuotedRun(source: string, lx: Lexer, text: string) returns (l: Lexer)
    requires Stands(source, lx.index, PieceText(Quoted(text))) && Without(text, '\'') && lx.quote == None
    ensures Loop(source, lx) == Loop(source, l) && Took(lx, l, PieceText(Quoted(text)), text)
    ensures BookOf(l) == BookOf(lx) && l.quote == None
  {
    hide Loop;
    hide Stands;
    hide AllPass;
    hide Without;
    hide Took;
    QuotePasses(text);
    StandsParts(source, lx.index, "'" + text, "'");
    StandsParts(source, lx.index, "'", text);
    var l1 := QuoteStep(source, lx, '\'');
    TookLength(lx, l1, "'", "");
    var l2 := PlainRun(source, l1, text);
    TookTwice(lx, l1, l2, "'", "", text, text);
    TookLength(lx, l2, "'" + text, "" + text);
    l := QuoteStep(source, l2, '\'');
    TookTwice(lx, l2, l, "'" + text, "" + text, "'", "");
    assert "" + text + "" == text;
  }

  lemma TookLength(lx: Lexer, l: Lexer, text: string, value: string)
    requires Took(lx, l, text, value)
    ensures l.index == lx.index + |text|
  {}

  lemma ItemRun(source: string, lx: Lexer, i: Item) returns (l: Lexer)
    requires Stands(source, lx.index, ItemText(i)) && ItemOk(i) && lx.quote == Some('"')
    ensures Loop(source, lx) == Loop(source, l) && l.quote == lx.quote
    ensures Took(lx, l, ItemText(i), if i.Nested? then ItemText(i) else [i.c])
    ensures BookOf(l) == if i.Nested? then SubstBook(BookOf(lx), TextOf(i.inner), ItemText(i)) else BookOf(lx)
  {
    hide Loop;
    hide Stands;
    hide SubstBook;
    match i {
      case Letter(c) => l := PlainStep(source, lx, c);
      case Backslashed(c) => l := EscapeStep(source, lx, c);
      case Nested(inner, backtick) => l := SubstStep(source, lx, inner, backtick);
    }
  }

  lemma {:induction false} ItemsRun(source: string, lx: Lexer, items: seq<Item>) returns (l: Lexer)
    requires Stands(source, lx.index, ItemsText(items)) && ItemsOk(items) && lx.quote == Some('"')
    ensures Loop(source, lx) == Loop(source, l) && l.quote == lx.quote
    ensures Took(lx, l, ItemsText(items), ItemsValue(items))
    ensures BookOf(l) == ItemsBook(BookOf(lx), items)
    decreases |items|
  {
    hide Loop;
    hide Stands;
    hide SubstBook;
    hide ItemOk;
    hide ItemText;
    if items == [] {
      l := lx;
      assert lx.raw + "" == lx.raw && lx.value + "" == lx.value;
    } else {
      var i, rest := items[0], items[1..];
      StandsParts(source, lx.index, ItemText(i), ItemsText(rest));
      assert ItemOk(i) && ItemsOk(rest);
      var l1 := ItemRun(source, lx, i);
      l := ItemsRun(source, l1, rest);
      TookTwice(lx, l1, l, ItemText(i), if i.Nested? then ItemText(i) else [i.c], ItemsText(rest), ItemsValue(rest));
    }
  }

  lemma DoubleRun(source: string, lx: Lexer, items: seq<Item>) returns (l: Lexer)
    requires Stands(source, lx.index, PieceText(DoubleQuoted(items))) && ItemsOk(items) && lx.quote == None
    ensures Loop(source, lx) == Loop(source, l) && Took(lx, l, PieceText(DoubleQuoted(items)), ItemsValue(items))
    ensures BookOf(l) == ItemsBook(BookOf(lx), items) && l.quote == None
  {
    hide Loop;
    hide Stands;
    hide ItemsOk;
    hide ItemsText;
    hide ItemsValue;
    hide ItemsBook;
    StandsParts(source, lx.index, "\"" + ItemsText(items), "\"");
    StandsParts(source, lx.index, "\"", ItemsText(items));
    var l1 := QuoteStep(source, lx, '"');
    var l2 := ItemsRun(source, l1, items);
    TookTwice(lx, l1, l2, "\"", "", ItemsText(items), ItemsValue(items));
    l := QuoteStep(source, l2, '"');
    TookTwice(lx, l2, l, "\"" + ItemsText(items), "" + ItemsValue(items), "\"", "");
    assert "" + ItemsValue(items) + "" == ItemsValue(items);
  }

  // The brace of a parameter: everything up to its `}`.
  lemma BraceStep(source: string, lx: Lexer, text: string) returns (l: Lexer)
    requires Stands(source, lx.index, "{" + text + "}") && Without(text, '}')
    requires lx.quote == None && EndsWithDollar(lx.raw)
    ensures Loop(source, lx) == Loop(source, l) && Took(lx, l, "{" + text + "}", "{" + text + "}")
    ensures BookOf(l) == BookOf(lx) && l.quote == None
  {
    var part := "{" + text + "}";
    StandsParts(source, lx.index, "{" + text, "}");
    StandsParts(source, lx.index, "{", text);
    StandsOne(source, lx.index, '{');
    StandsOne(source, lx.index + 1 + |text|, '}');
    assert KindOf(source, lx).Brace?;
    LoopStep(source, lx);
    hide Loop;
    hide KindOf;
    var end := IndexOf(source, '}', lx.index);
    FirstIs(source, '}', lx.index, "{" + text, end);
    assert source[lx.index..lx.index + |part|] == part;
    l := StepBrace(source, lx);
  }

  lemma FirstIs(source: string, c: char, i: nat, text: string, r: Option<nat>)
    requires Stands(source, i, text + [c]) && Without(text, c) && i <= |source|
    requires r.Some? ==> i <= r.value < |source| && source[r.value] == c
    requires forall k | i <= k < (if r.Some? then r.value else |source|) :: source[k] != c
    ensures r == Some(i + |text|)
  {
    StandsParts(source, i, text, [c]);
    StandsOne(source, i + |text|, c);
    NoneIn(source, c, i, text);
    hide Stands;
    hide Without;
  }

  lemma NoneIn(source: string, c: char, i: nat, text: string)
    requires Stands(source, i, text) && Without(text, c)
    ensures forall k | i <= k < i + |text| :: k < |source| && source[k] != c
  {
    forall k | i <= k < i + |text| ensures source[k] != c {
      assert source[k] == source[i..i + |text|][k - i] == text[k - i];
    }
  }

  lemma ParamRun(source: string, lx: Lexer, text: string) returns (l: Lexer)
    requires Stands(source, lx.index, PieceText(Param(text))) && Without(text, '}') && lx.quote == None
    ensures Loop(source, lx) == Loop(source, l) && Took(lx, l, PieceText(Param(text)), PieceText(Param(text)))
    ensures BookOf(l) == BookOf(lx) && l.quote == None
  {
    var brace := "{" + text + "}";
    assert PieceText(Param(text)) == "$" + brace;
    StandsParts(source, lx.index, "$", brace);
    StandsParts(source, lx.index + 1, "{" + text, "}");
    StandsParts(source, lx.index + 1, "{", text);
    StandsOne(source, lx.index + 1, '{');
    hide Loop;
    hide Stands;
    var l1 := PlainStep(source, lx, '$');
    l := BraceStep(source, l1, text);
    TookTwice(lx, l1, l, "$", "$", brace, brace);
  }

  lemma PieceRun(source: string, lx: Lexer, p: Piece) returns (l: Lexer)
    requires Stands(source, lx.index, PieceText(p)) && PieceOk(p) && lx.quote == None
    ensures Loop(source, lx) == Loop(source, l) && Took(lx, l, PieceText(p), PieceValue(p))
    ensures BookOf(l) == PieceBook(BookOf(lx), p) && l.quote == None
  {
    hide Loop;
    hide Stands;
    hide SubstBook;
    match p {
      case Bare(text) =>
        BarePasses(text);
        l := PlainRun(source, lx, text);
      case Quoted(text) => l := QuotedRun(source, lx, text);
      case DoubleQuoted(items) => l := DoubleRun(source, lx, items);
      case Backslash(c) => l := EscapeStep(source, lx, c);
      case Param(text) => l := ParamRun(source, lx, text);
      case Subst(inner, backtick) => l := SubstStep(source, lx, inner, backtick);
    }
  }

  lemma {:induction false} WordRun(source: string, lx: Lexer, w: seq<Piece>) returns (l: Lexer)
    requires Stands(source, lx.index, WordText(w)) && (w == [] || WordOk(w)) && lx.quote == None
    ensures Loop(source, lx) == Loop(source, l) && Took(lx, l, WordText(w), WordValue(w))
    ensures BookOf(l) == WordBook(BookOf(lx), w) && l.quote == None
    decreases |w|
  {
    hide Loop;
    hide Stands;
    hide PieceText;
    hide PieceValue;
    hide PieceBook;
    hide PieceOk;
    if w == [] {
      l := lx;
      assert lx.raw + "" == lx.raw && lx.value + "" == lx.value;
    } else {
      var rest := w[1..];
      StandsParts(source, lx.index, PieceText(w[0]), WordText(rest));
      var l1 := PieceRun(source, lx, w[0]);
      l := WordRun(source, l1, rest);
      TookTwice(lx, l1, l, PieceText(w[0]), PieceValue(w[0]), WordText(rest), WordValue(rest));
    }
  }

  // ----- how texts begin and end -----

  // Neither the first nor the last character of a piece is a `|`, nor the last one a `$`.
  predicate EndsSafe(text: string) {
    text != "" && text[0] != '|' && text[|text| - 1] != '|' && text[|text| - 1] != '$'
  }

  lemma PieceEndsSafe(p: Piece)
    requires PieceOk(p)
    ensures EndsSafe(PieceText(p))
  {
    match p {
      case Bare(text) => assert PlainChar(text[0]) && PlainChar(text[|text| - 1]);
      case _ =>
    }
    hide TextOf;
    hide ItemsText;
  }

  lemma EndsSafeConcat(a: string, b: string, c: string)
    requires EndsSafe(a) && EndsSafe(c)
    ensures EndsSafe(a + b + c)
  {}

  lemma {:induction false} WordEndsSafe(w: seq<Piece>)
    requires WordOk(w)
    ensures EndsSafe(WordText(w))
  {
    hide PieceOk;
    hide PieceText;
    PieceEndsSafe(w[0]);
    if |w| == 1 {
      assert WordText(w[1..]) == "";
      assert PieceText(w[0]) + "" == PieceText(w[0]);
    } else {
      WordEndsSafe(w[1..]);
      EndsSafeConcat(PieceText(w[0]), "", WordText(w[1..]));
      assert PieceText(w[0]) + "" == PieceText(w[0]);
    }
  }

  lemma {:induction false} WordsEndSafe(ws: seq<seq<Piece>>, gap: char)
    requires ws != [] && WordsOk(ws)
    ensures EndsSafe(WordsText(ws, gap))
  {
    hide WordOk;
    hide WordText;
    assert WordOk(ws[0]);
    WordEndsSafe(ws[0]);
    if |ws| > 1 {
      WordsEndSafe(ws[1..], gap);
      EndsSafeConcat(WordText(ws[0]), [gap], WordsText(ws[1..], gap));
    }
  }

  // ----- the words of a command -----

  predicate BetweenWords(lx: Lexer) {
    lx.quote == None && lx.raw == "" && lx.value == ""
  }

  lemma SpaceStep(source: string, lx: Lexer, gap: char) returns (l: Lexer)
    requires Stands(source, lx.index, [gap]) && (gap == ' ' || gap == '\t') && lx.quote == None && lx.raw != ""
    ensures Loop(source, lx) == Loop(source, l) && BetweenWords(l) && BookOf(l) == BookOf(lx)
    ensures l.words == lx.words + [Word(lx.value, lx.raw)] && l.index == lx.index + 1
    ensures l.commandLine == lx.commandLine && l.pipeline == lx.pipeline
  {
    StandsOne(source, lx.index, gap);
    assert KindOf(source, lx).Space?;
    LoopStep(source, lx);
    hide Loop;
    hide KindOf;
    l := FlushWord(lx).(index := lx.index + 1);
  }

  // The words if the current one ended here.
  function WordsNow(l: Lexer): seq<Word> {
    if l.raw == "" then l.words else l.words + [Word(l.value, l.raw)]
  }

  lemma OneWordRun(source: string, lx: Lexer, w: seq<Piece>) returns (l: Lexer)
    requires Stands(source, lx.index, WordText(w)) && WordOk(w) && BetweenWords(lx)
    ensures Loop(source, lx) == Loop(source, l) && l.quote == None && l.index == lx.index + |WordText(w)|
    ensures l.words == lx.words && Word(l.value, l.raw) == Word(WordValue(w), WordText(w)) && EndsSafe(l.raw)
    ensures l.commandLine == lx.commandLine && l.pipeline == lx.pipeline && BookOf(l) == WordBook(BookOf(lx), w)
  {
    hide Loop;
    hide Stands;
    hide WordText;
    hide WordValue;
    hide WordBook;
    l := WordRun(source, lx, w);
    WordEndsSafe(w);
    assert "" + WordText(w) == WordText(w) && "" + WordValue(w) == WordValue(w);
  }

  lemma {:induction false} WordsRun(source: string, lx: Lexer, ws: seq<seq<Piece>>, gap: char) returns (l: Lexer)
    requires Stands(source, lx.index, WordsText(ws, gap)) && ws != [] && WordsOk(ws) && (gap == ' ' || gap == '\t')
    requires BetweenWords(lx)
    ensures Loop(source, lx) == Loop(source, l) && l.quote == None && l.index == lx.index + |WordsText(ws, gap)|
    ensures WordsNow(l) == lx.words + WordsOf(ws) && EndsSafe(l.raw)
    ensures l.commandLine == lx.commandLine && l.pipeline == lx.pipeline && BookOf(l) == WordsBook(BookOf(lx), ws)
    decreases |ws|
  {
    hide Loop;
    hide Stands;
    hide WordText;
    hide WordValue;
    hide WordBook;
    hide WordOk;
    assert WordOk(ws[0]);
    if |ws| == 1 {
      l := OneWordRun(source, lx, ws[0]);
      assert ws[1..] == [];
    } else {
      StandsParts(source, lx.index, WordText(ws[0]) + [gap], WordsText(ws[1..], gap));
      StandsParts(source, lx.index, WordText(ws[0]), [gap]);
      var l1 := OneWordRun(source, lx, ws[0]);
      var l2 := SpaceStep(source, l1, gap);
      l := WordsRun(source, l2, ws[1..], gap);
      WordsJoin(lx.words, Word(WordValue(ws[0]), WordText(ws[0])), WordsOf(ws[1..]));
    }
  }

  lemma WordsJoin(a: seq<Word>, w: Word, b: seq<Word>)
    ensures a + [w] + b == a + ([w] + b)
  {}

  // ----- comments -----

  lemma CommentStep(source: string, lx: Lexer, text: string) returns (l: Lexer)
    requires Stands(source, lx.index, "#" + text) && Without(text, '\n') && BetweenWords(lx)
    requires lx.index + 1 + |text| == |source| || CharAt(source, lx.index + 1 + |text|) == Some('\n')
    ensures Loop(source, lx) == Loop(source, l)
    ensures l == lx.(index := if lx.index + 1 + |text| == |source| then |source| + 1 else lx.index + 1 + |text|)
  {
    StandsParts(source, lx.index, "#", text);
    StandsOne(source, lx.index, '#');
    assert KindOf(source, lx).Comment?;
    LoopStep(source, lx);
    hide Loop;
    hide KindOf;
    var end := IndexOf(source, '\n', lx.index);
    assert Without("#" + text, '\n');
    if lx.index + 1 + |text| < |source| {
      StandsOne(source, lx.index + 1 + |text|, '\n');
      StandsParts(source, lx.index, "#" + text, "\n");
      FirstIs(source, '\n', lx.index, "#" + text, end);
    } else {
      NoneIn(source, '\n', lx.index, "#" + text);
    }
    l := StepComment(source, lx);
  }

  // After the words of a line, and its comment if it has one.
  lemma LineRun(source: string, lx: Lexer, line: Line) returns (l: Lexer)
    requires LineOk(line) && Stands(source, lx.index, WordsText(line.words, line.gap) + CommentText(line))
    requires var end := lx.index + |WordsText(line.words, line.gap) + CommentText(line)|;
             line.comment.Some? ==> end == |source| || CharAt(source, end) == Some('\n')
    requires BetweenWords(lx) && lx.words == []
    ensures var end := lx.index + |WordsText(line.words, line.gap) + CommentText(line)|;
            l.index == if line.comment.Some? && end == |source| then end + 1 else end
    ensures Loop(source, lx) == Loop(source, l) && l.quote == None && WordsNow(l) == WordsOf(line.words)
    ensures l.raw != "" ==> EndsSafe(l.raw)
    ensures l.commandLine == lx.commandLine && l.pipeline == lx.pipeline && BookOf(l) == WordsBook(BookOf(lx), line.words)
  {
    hide Loop;
    hide Stands;
    hide WordsText;
    hide WordsBook;
    hide WordsOf;
    hide WordsOk;
    var text := WordsText(line.words, line.gap);
    StandsParts(source, lx.index, text, CommentText(line));
    l := WordsRun(source, lx, line.words, line.gap);
    assert [] + WordsOf(line.words) == WordsOf(line.words);
    if line.comment.Some? {
      assert [line.gap] + "#" + line.comment.value == [line.gap] + ("#" + line.comment.value);
      StandsParts(source, l.index, [line.gap], "#" + line.comment.value);
      l := SpaceStep(source, l, line.gap);
      l := CommentStep(source, l, line.comment.value);
    } else {
      assert text + "" == text;
    }
  }

  // ----- separators -----

  // An open word ends with its command, at a separator or at the end.
  lemma FlushOpen(l: Lexer)
    requires WordsNow(l) != []
    ensures var f := FlushCommand(l);
            && f.commands == l.commands + [Command(WordsNow(l), l.commandLine, l.pipeline)]
            && f.words == [] && f.raw == "" && f.value == "" && f.quote == l.quote
            && f.line == l.line && f.commandLine == l.line && f.pipeline == l.pipeline && f.nextPipeline == l.nextPipeline
  {}

  lemma FlushNothing(l: Lexer)
    requires WordsNow(l) == []
    ensures var f := FlushCommand(l);
            && f.commands == l.commands
            && f.words == [] && f.raw == "" && f.value == "" && f.quote == l.quote
            && f.line == l.line && f.commandLine == l.line && f.pipeline == l.pipeline && f.nextPipeline == l.nextPipeline
  {}

  lemma SeparatorStep(source: string, l: Lexer, c: char) returns (l': Lexer)
    requires Stands(source, l.index, [c]) && l.quote == None && !EndsWithDollar(l.raw) && IsSeparator(c)
    ensures Loop(source, l) == Loop(source, l') && l'.index == l.index + 1
    ensures BetweenWords(l') && l'.words == [] && l'.commandLine == l'.line
    ensures l'.commands == if WordsNow(l) == [] then l.commands
                           else l.commands + [Command(WordsNow(l), l.commandLine, l.pipeline)]
    ensures l'.line == l.line + if c == '\n' then 1 else 0
    ensures l'.pipeline == if Lone(source, l.index) then l.pipeline else l.nextPipeline
    ensures l'.nextPipeline == l.nextPipeline + if Lone(source, l.index) then 0 else 1
  {
    StandsOne(source, l.index, c);
    assert KindOf(source, l).Separator?;
    LoopStep(source, l);
    hide Loop;
    hide KindOf;
    if WordsNow(l) == [] {
      FlushNothing(l);
    } else {
      FlushOpen(l);
    }
    hide FlushCommand;
    hide Lone;
    l' := StepSeparator(source, l);
  }

  // What stands beside a separator is no `|`.
  predicate ApartAt(source: string, i: nat, s: string) {
    i > 0 && CharAt(source, i - 1) != Some('|') && CharAt(source, i + |s|) != Some('|')
  }

  lemma LoneIff(source: string, i: nat, s: string)
    requires Stands(source, i, s) && SeparatorOk(s) && (s[0] == '\n' || ApartAt(source, i, s))
    ensures Lone(source, i) <==> s == "|"
    ensures |s| == 2 ==> !Lone(source, i + 1)
    ensures IsSeparator(s[0]) && (|s| == 2 ==> IsSeparator(s[1])) && 1 <= |s| <= 2
  {
    assert s == if |s| == 1 then [s[0]] else [s[0], s[1]];
    if |s| == 1 {
      StandsOne(source, i, s[0]);
    } else {
      StandsTwo(source, i, s[0], s[1]);
    }
    hide Stands;
  }

  lemma SeparatorRun(source: string, l: Lexer, s: string) returns (l': Lexer)
    requires Stands(source, l.index, s) && SeparatorOk(s) && (s[0] == '\n' || ApartAt(source, l.index, s))
    requires l.quote == None && !EndsWithDollar(l.raw) && WordsNow(l) != []
    ensures Loop(source, l) == Loop(source, l') && l'.index == l.index + |s|
    ensures BetweenWords(l') && l'.words == [] && l'.commandLine == l'.line
    ensures l'.commands == l.commands + [Command(WordsNow(l), l.commandLine, l.pipeline)]
    ensures l'.line == l.line + NewlinesOf(s)
    ensures l'.nextPipeline == l.nextPipeline + if s == "|" then 0 else |s|
    ensures l'.pipeline == if s == "|" then l.pipeline else l'.nextPipeline - 1
  {
    LoneIff(source, l.index, s);
    hide Loop;
    hide Lone;
    hide IsSeparator;
    if |s| == 1 {
      assert s == [s[0]];
      l' := SeparatorStep(source, l, s[0]);
    } else {
      assert s == [s[0]] + [s[1]];
      StandsParts(source, l.index, [s[0]], [s[1]]);
      hide Stands;
      var l1 := SeparatorStep(source, l, s[0]);
      l' := SeparatorStep(source, l1, s[1]);
    }
  }

  // ----- all lines -----

  lemma LinesTextStarts(lines: seq<Line>)
    requires lines != [] && LinesOk(lines)
    ensures LinesText(lines) != "" && LinesText(lines)[0] != '|'
  {
    assert LineOk(lines[0]);
    WordsEndSafe(lines[0].words, lines[0].gap);
    hide WordsText;
    hide CommentText;
  }

  lemma FirstAndLast(source: string, i: nat, text: string)
    requires Stands(source, i, text) && text != ""
    ensures i + |text| <= |source| && source[i] == text[0] && source[i + |text| - 1] == text[|text| - 1]
  {
    assert source[i] == source[i..i + |text|][0];
    assert source[i + |text| - 1] == source[i..i + |text|][|text| - 1];
  }

  // What stands before and behind the separator of a line.
  lemma SeparatorApart(source: string, i: nat, line: Line, rest: string)
    requires LineOk(line) && rest != "" && rest[0] != '|'
    requires var text := WordsText(line.words, line.gap) + CommentText(line);
             Stands(source, i, text) && Stands(source, i + |text|, line.separator)
             && Stands(source, i + |text| + |line.separator|, rest)
    ensures var end := i + |WordsText(line.words, line.gap) + CommentText(line)|;
            && (line.separator[0] == '\n' || ApartAt(source, end, line.separator))
            && CharAt(source, end) == Some(line.separator[0])
  {
    hide Stands;
    hide WordsText;
    hide WordsOk;
    hide ApartAt;
    var words := WordsText(line.words, line.gap);
    var text := words + CommentText(line);
    WordsEndSafe(line.words, line.gap);
    FirstAndLast(source, i + |text|, line.separator);
    if line.comment.None? {
      assert text == words;
      StandsApart(source, i, text, line.separator, rest);
    }
  }

  lemma StandsApart(source: string, i: nat, text: string, s: string, rest: string)
    requires Stands(source, i, text) && Stands(source, i + |text|, s) && Stands(source, i + |text| + |s|, rest)
    requires text != "" && text[|text| - 1] != '|' && rest != "" && rest[0] != '|'
    ensures ApartAt(source, i + |text|, s)
  {
    hide Stands;
    FirstAndLast(source, i, text);
    FirstAndLast(source, i + |text| + |s|, rest);
  }

  lemma LoopEnd(source: string, l: Lexer)
    requires l.index >= |source|
    ensures Loop(source, l) == l
  {}

  lemma WordsOfSome(ws: seq<seq<Piece>>)
    requires ws != []
    ensures WordsOf(ws) != []
  {}

  lemma LastLine(source: string, lx: Lexer, line: Line)
    requires LineOk(line) && Stands(source, lx.index, LinesText([line]))
    requires lx.index + |LinesText([line])| == |source| && BetweenWords(lx) && lx.words == []
    ensures FlushCommand(Loop(source, lx)).commands ==
            LinesBook(BookOf(lx), [line], lx.commandLine, lx.pipeline).commands
  {
    hide Loop;
    hide Stands;
    hide FlushCommand;
    hide WordsText;
    hide CommentText;
    hide WordsBook;
    hide WordsOf;
    var text := WordsText(line.words, line.gap) + CommentText(line);
    assert LinesText([line]) == text + "" == text;
    var l := LineRun(source, lx, line);
    hide LineOk;
    LoopEnd(source, l);
    WordsOfSome(line.words);
    FlushOpen(l);
  }

  // Up to the next line.
  lemma LineAndSeparator(source: string, lx: Lexer, line: Line, rest: string) returns (l': Lexer)
    requires LineOk(line) && rest != "" && rest[0] != '|'
    requires Stands(source, lx.index, WordsText(line.words, line.gap) + CommentText(line) + (line.separator + rest))
    requires BetweenWords(lx) && lx.words == []
    ensures Loop(source, lx) == Loop(source, l') && BetweenWords(l') && l'.words == [] && l'.commandLine == l'.line
    ensures Stands(source, l'.index, rest)
    ensures l'.index == lx.index + |WordsText(line.words, line.gap) + CommentText(line)| + |line.separator|
    ensures var b, s := WordsBook(BookOf(lx), line.words), line.separator;
            && l'.commands == b.commands + [Command(WordsOf(line.words), lx.commandLine, lx.pipeline)]
            && l'.line == b.line + NewlinesOf(s)
            && l'.nextPipeline == b.nextPipeline + (if s == "|" then 0 else |s|)
            && l'.pipeline == if s == "|" then lx.pipeline else l'.nextPipeline - 1
  {
    hide Loop;
    hide Stands;
    hide WordsText;
    hide CommentText;
    hide WordsBook;
    hide WordsOf;
    hide NewlinesOf;
    hide SeparatorOk;
    hide WordsOk;
    hide Without;
    hide ApartAt;
    var text := WordsText(line.words, line.gap) + CommentText(line);
    StandsParts(source, lx.index, text, line.separator + rest);
    StandsParts(source, lx.index + |text|, line.separator, rest);
    SeparatorApart(source, lx.index, line, rest);
    StandsWithin(source, lx.index + |text|, line.separator);
    var l := LineRun(source, lx, line);
    WordsOfSome(line.words);
    l' := SeparatorRun(source, l, line.separator);
  }

  lemma StandsWithin(source: string, i: nat, s: string)
    requires Stands(source, i, s) && SeparatorOk(s)
    ensures i < |source| && s != ""
  {}

  lemma {:induction false} LinesRun(source: string, lx: Lexer, lines: seq<Line>)
    requires lines != [] && LinesOk(lines) && Stands(source, lx.index, LinesText(lines))
    requires lx.index + |LinesText(lines)| == |source| && BetweenWords(lx) && lx.words == []
    ensures FlushCommand(Loop(source, lx)).commands ==
            LinesBook(BookOf(lx), lines, lx.commandLine, lx.pipeline).commands
    decreases |lines|
  {
    hide Loop;
    hide Stands;
    hide FlushCommand;
    hide WordsText;
    hide CommentText;
    hide WordsBook;
    hide WordsOf;
    hide LineOk;
    hide NewlinesOf;
    assert LineOk(lines[0]);
    if |lines| == 1 {
      assert lines == [lines[0]];
      LastLine(source, lx, lines[0]);
    } else {
      var rest := LinesText(lines[1..]);
      LinesTextStarts(lines[1..]);
      var l := LineAndSeparator(source, lx, lines[0], rest);
      LinesRun(source, l, lines[1..]);
    }
  }

  // Reading back what was written gives the commands that were written: each word with its
  // text and its value, each substitution's commands where it stands, and every command on its
  // line and in its pipeline.
  lemma QuotedDataStaysData(lines: seq<Line>, nextPipeline: int)
    requires lines != [] && LinesOk(lines)
    ensures Tokens(LinesText(lines), nextPipeline).commands ==
            LinesBook(Book([], 1, nextPipeline + 1), lines, 1, nextPipeline).commands
  {
    var source := LinesText(lines);
    assert source[0..0 + |source|] == source;
    LinesRun(source, Init(nextPipeline), lines);
    hide LinesBook;
    hide LinesText;
    hide Loop;
    hide FlushCommand;
  }
}
