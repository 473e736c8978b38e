// What a wrapper program and its options hide: the command behind them, whatever it is.
module ShellWrappers {
  import opened Options
  import opened ShellTokenizer
  import opened ShellCommandWords

  // An option of a wrapper, alone or with the word that is its value.
  datatype Opt = Flag(word: Word) | Valued(word: Word, value: Word)

  function OptWords(o: Opt): seq<Word> {
    match o
    case Flag(word) => [word]
    case Valued(word, value) => [word, value]
  }

  function AllWords(opts: seq<Opt>): seq<Word> {
    if opts == [] then [] else OptWords(opts[0]) + AllWords(opts[1..])
  }

  // An option or an assignment; it has a value word exactly if the wrapper's option takes one.
  predicate OptOk(name: string, o: Opt) {
    IsOption(o.word.value) && (o.Valued? <==> TakesValue(name, o.word.value))
  }

  predicate OptsOk(name: string, opts: seq<Opt>) {
    forall i | 0 <= i < |opts| :: OptOk(name, opts[i])
  }

  predicate NoOption(words: seq<Word>) {
    words == [] || !IsOption(words[0].value)
  }

  lemma {:induction false} OptionsAreSkipped(before: seq<Word>, opts: seq<Opt>, after: seq<Word>, name: string)
    requires OptsOk(name, opts) && NoOption(after)
    ensures SkipOptions(before + AllWords(opts) + after, name, |before|) == |before| + |AllWords(opts)|
    decreases |opts|
  {
    hide IsOption;
    hide TakesValue;
    var all := before + AllWords(opts) + after;
    if opts == [] {
      assert all == before + after;
      assert after != [] ==> all[|before|] == after[0];
    } else {
      var first := OptWords(opts[0]);
      assert OptOk(name, opts[0]);
      assert all[|before|] == opts[0].word;
      assert all == (before + first) + AllWords(opts[1..]) + after;
      OptionsAreSkipped(before + first, opts[1..], after, name);
    }
  }

  lemma {:induction false} FromBehind(before: seq<Word>, rest: seq<Word>)
    ensures From(before + rest, |before|) == From(rest, 0)
  {
    hide From;
    if before == [] {
      assert before + rest == rest;
    } else {
      FromBehind(before[1..], rest);
      assert before + rest == [before[0]] + (before[1..] + rest);
      FromShift(before[0], before[1..] + rest, |before| - 1);
    }
  }

  // A wrapper with its options, the duration behind `timeout` included, is passed over.
  lemma WrapperIsPassedOver(w: Word, opts: seq<Opt>, duration: seq<Word>, rest: seq<Word>)
    requires var name := BaseName(w.value);
             && name in WRAPPERS && !PassedOver(w) && OptsOk(name, opts)
             && |duration| == (if name == "timeout" then 1 else 0) && NoOption(duration + rest)
    requires !OnlyAsks([w] + AllWords(opts) + (duration + rest), 0)
    ensures From([w] + AllWords(opts) + (duration + rest), 0) == From(rest, 0)
  {
    var name, after := BaseName(w.value), duration + rest;
    var all := [w] + AllWords(opts) + after;
    var before := [w] + AllWords(opts) + duration;
    assert all[0] == w && all == before + rest;
    OptionsAreSkipped([w], opts, after, name);
    assert AfterWrapper(all, 0) == |before|;
    FromBehind(before, rest);
    hide SkipOptions;
    hide OnlyAsks;
    hide PassedOver;
    hide AfterWrapper;
    hide BaseName;
  }

  // A query about a command is no call of one.
  lemma QueryIsNoCommand(w: Word, words: seq<Word>)
    requires !PassedOver(w) && words != []
    requires var name, next := BaseName(w.value), words[0].value;
             (name == "command" && next == "-v")
             || ((name == "sudo" || name == "time" || name == "env") && next == "--help")
    ensures From([w] + words, 0) == []
  {
    assert ([w] + words)[0] == w && ([w] + words)[1] == words[0];
    hide PassedOver;
    hide BaseName;
  }

  function Plainly(text: string): Word {
    Word(text, text)
  }

  predicate AllLetters(text: string) {
    text == "" || ('a' <= text[0] <= 'z' && AllLetters(text[1..]))
  }

  lemma {:induction false} LettersOnly(text: string)
    requires AllLetters(text)
    ensures forall i | 0 <= i < |text| :: 'a' <= text[i] <= 'z'
  {
    if text != "" {
      LettersOnly(text[1..]);
      assert forall i | 1 <= i < |text| :: text[i] == text[1..][i - 1];
    }
  }

  lemma {:induction false} NameIs(text: string)
    requires forall i | 0 <= i < |text| :: 'a' <= text[i] <= 'z'
    ensures BaseName(text) == text
  {
    if text != "" {
      var front := text[..|text| - 1];
      NameIs(front);
      assert text == front + [text[|text| - 1]];
    }
  }

  lemma {:induction false} NoEquals(text: string, i: nat)
    requires i <= |text| && forall j | 0 <= j < |text| :: 'a' <= text[j] <= 'z'
    ensures !NameThenEquals(text, i)
    decreases |text| - i
  {
    if i < |text| {
      NoEquals(text, i + 1);
    }
  }

  // A wrapper named by letters alone is its own name, and no assignment.
  lemma NotPassed(text: string)
    requires text in WRAPPERS && AllLetters(text) && text !in KEYWORDS
    ensures BaseName(text) == text && !PassedOver(Plainly(text))
  {
    LettersOnly(text);
    NameIs(text);
    if text != "" {
      NoEquals(text, 1);
    }
    hide BaseName;
    hide NameThenEquals;
    hide AllLetters;
  }

  // One option of a wrapper, with its value if it takes one.
  lemma OneOptionPassed(name: string, o: Opt, duration: seq<Word>, rest: seq<Word>)
    requires name in WRAPPERS && AllLetters(name) && name !in KEYWORDS && OptOk(name, o)
    requires o.word.value != "-v" && o.word.value != "--help"
    requires |duration| == (if name == "timeout" then 1 else 0) && NoOption(duration + rest)
    ensures From([Plainly(name)] + OptWords(o) + (duration + rest), 0) == From(rest, 0)
  {
    hide IsOption;
    hide TakesValue;
    hide BaseName;
    hide PassedOver;
    hide From;
    hide AllLetters;
    var w := Plainly(name);
    NotPassed(name);
    OneOption(w, o, duration + rest);
    assert OptsOk(name, [o]);
    var all := [w] + AllWords([o]) + (duration + rest);
    assert all[0] == w && all[1] == o.word;
    assert !OnlyAsks(all, 0);
    WrapperIsPassedOver(w, [o], duration, rest);
  }

  lemma OneOption(w: Word, o: Opt, after: seq<Word>)
    ensures [w] + AllWords([o]) + after == [w] + OptWords(o) + after
  {
    assert [o][1..] == [];
    assert AllWords([o]) == OptWords(o);
  }

  // A wrapper of ours by its plain name, and an option that is no query of it.
  predicate Fits(name: string, option: string, valued: bool) {
    && name in WRAPPERS && name !in KEYWORDS && AllLetters(name)
    && IsOption(option) && TakesValue(name, option) == valued && option != "-v" && option != "--help"
  }

  lemma SudoFits()
    ensures Fits("sudo", "-u", true)
  {}

  lemma NiceFits()
    ensures Fits("nice", "-n", true)
  {}

  lemma XargsFits()
    ensures Fits("xargs", "-n", true)
  {}

  lemma TimeoutFits()
    ensures Fits("timeout", "-k", true)
  {}

  lemma SudoQuietFits()
    ensures Fits("sudo", "-n", false)
  {}

  lemma CommandPathFits()
    ensures Fits("command", "-p", false)
  {}

  // `sudo -u root`, `nice -n 5` and `xargs -n 1` take the next word as the option's value, and
  // `timeout -k 5 10` that and one more.
  lemma ValuePassed(name: string, option: string, value: Word, duration: seq<Word>, rest: seq<Word>)
    requires || (name == "sudo" && option == "-u") || (name == "nice" && option == "-n")
             || (name == "xargs" && option == "-n") || (name == "timeout" && option == "-k")
    requires |duration| == (if name == "timeout" then 1 else 0) && NoOption(duration + rest)
    ensures From([Plainly(name)] + [Plainly(option), value] + (duration + rest), 0) == From(rest, 0)
  {
    hide From;
    hide NoOption;
    if name == "sudo" {
      SudoFits();
    } else if name == "nice" {
      NiceFits();
    } else if name == "xargs" {
      XargsFits();
    } else {
      TimeoutFits();
    }
    hide IsOption;
    hide TakesValue;
    hide AllLetters;
    OneOptionPassed(name, Valued(Plainly(option), value), duration, rest);
  }

  // `sudo -n` and `command -p` take none.
  lemma FlagPassed(name: string, option: string, rest: seq<Word>)
    requires (name == "sudo" && option == "-n") || (name == "command" && option == "-p")
    requires NoOption(rest)
    ensures From([Plainly(name)] + [Plainly(option)] + rest, 0) == From(rest, 0)
  {
    hide From;
    hide NoOption;
    if name == "sudo" {
      SudoQuietFits();
    } else {
      CommandPathFits();
    }
    hide IsOption;
    hide TakesValue;
    hide AllLetters;
    assert [] + rest == rest;
    OneOptionPassed(name, Flag(Plainly(option)), [], rest);
  }
}
