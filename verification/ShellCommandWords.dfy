// Which word of a tokenized command is the command: assignments, shell keywords and wrapper
// programs with their options are passed over.
module ShellCommandWords {
  import opened Options
  import opened ShellTokenizer

  const KEYWORDS: set<string> := {"!", "if", "then", "do", "else", "elif", "run"}

  const HELPED: set<string> := {"sudo", "time", "env"}

  const WRAPPERS: set<string> :=
    {"env", "nohup", "timeout", "xargs", "sudo", "command", "exec", "time", "nice"}

  const OPTIONS_WITH_VALUE: set<string> :=
    {"-n", "-u", "-g", "-h", "-p", "-C", "-S", "-t", "-k", "-s", "-I", "-L", "-d", "-a", "-f", "-o",
     "--signal", "--kill-after", "--adjustment", "--user", "--group", "--unset", "--chdir",
     "--max-args", "--max-lines", "--replace"}

  predicate NameStart(c: char) {
    'A' <= c <= 'Z' || 'a' <= c <= 'z' || c == '_'
  }

  predicate NamePart(c: char) {
    NameStart(c) || '0' <= c <= '9'
  }

  // Name characters up to an `=`.
  predicate NameThenEquals(s: string, i: nat)
    requires i <= |s|
    decreases |s| - i
  {
    i < |s| && (s[i] == '=' || (NamePart(s[i]) && NameThenEquals(s, i + 1)))
  }

  // `NAME=...`.
  predicate IsAssignment(s: string) {
    s != "" && NameStart(s[0]) && NameThenEquals(s, 1)
  }

  // The part after the last slash.
  function BaseName(s: string): string {
    if s == "" || s[|s| - 1] == '/' then "" else BaseName(s[..|s| - 1]) + [s[|s| - 1]]
  }

  // Name characters from i on, up to an `=` at k.
  predicate EqualsAt(s: string, i: nat, k: nat) {
    i <= k < |s| && s[k] == '=' && forall j | i <= j < k :: NamePart(s[j])
  }

  // A name, not beginning with a digit, and behind it the first `=`.
  lemma AssignmentIff(s: string)
    ensures IsAssignment(s) <==> s != "" && NameStart(s[0]) && exists k: nat :: EqualsAt(s, 1, k)
  {
    hide NamePart;
    hide NameStart;
    hide EqualsAt;
    if s != "" {
      EqualsIff(s, 1);
    }
    hide NameThenEquals;
  }

  lemma {:induction false} EqualsIff(s: string, i: nat)
    requires 0 < i <= |s|
    ensures NameThenEquals(s, i) <==> exists k: nat :: EqualsAt(s, i, k)
    decreases |s| - i
  {
    hide NamePart;
    var next := i + 1;
    if i < |s| {
      EqualsIff(s, next);
      if s[i] == '=' {
        assert EqualsAt(s, i, i);
      }
      if NamePart(s[i]) {
        if k: nat :| EqualsAt(s, next, k) {
          assert EqualsAt(s, i, k);
        }
      }
      if k: nat :| EqualsAt(s, i, k) {
        assert k == i || EqualsAt(s, next, k);
      }
    }
  }

  // Where the base name begins: behind the last slash, or at the start of the word.
  predicate NameFrom(s: string, k: nat) {
    k <= |s| && '/' !in s[k..] && (k > 0 ==> s[k - 1] == '/')
  }

  lemma NameFromPush(front: string, last: char, k: nat)
    requires NameFrom(front, k) && last != '/'
    ensures NameFrom(front + [last], k) && (front + [last])[k..] == front[k..] + [last]
  {
    assert (front + [last])[k..] == front[k..] + [last];
  }

  lemma {:induction false} BaseNameIs(s: string) returns (k: nat)
    ensures NameFrom(s, k) && BaseName(s) == s[k..]
  {
    k := |s|;
    if s != "" && s[|s| - 1] != '/' {
      var front, last := s[..|s| - 1], s[|s| - 1];
      assert s == front + [last] && BaseName(s) == BaseName(front) + [last];
      k := BaseNameIs(front);
      hide BaseName;
      hide NameFrom;
      NameFromPush(front, last, k);
    }
  }

  predicate IsOption(s: string) {
    (s != "" && s[0] == '-') || IsAssignment(s)
  }

  predicate TakesValue(name: string, option: string) {
    && option in OPTIONS_WITH_VALUE
    && !(name == "command" && option == "-p") && !(name == "sudo" && option == "-n")
  }

  function SkipOptions(words: seq<Word>, name: string, index: nat): (r: nat)
    ensures r >= index
    decreases if index < |words| then |words| - index else 0
  {
    if index < |words| && IsOption(words[index].value) then
      SkipOptions(words, name, index + if TakesValue(name, words[index].value) then 2 else 1)
    else index
  }

  predicate NextIs(words: seq<Word>, index: nat, value: string) {
    index + 1 < |words| && words[index + 1].value == value
  }

  predicate PassedOver(w: Word) {
    IsAssignment(w.value) || BaseName(w.value) in KEYWORDS
  }

  // A query about a command, not a call of one.
  predicate OnlyAsks(words: seq<Word>, index: nat)
    requires index < |words|
  {
    var name := BaseName(words[index].value);
    (name == "command" && NextIs(words, index, "-v")) || (name in HELPED && NextIs(words, index, "--help"))
  }

  function AfterWrapper(words: seq<Word>, index: nat): (r: nat)
    requires index < |words|
    ensures r > index
  {
    var name := BaseName(words[index].value);
    SkipOptions(words, name, index + 1) + if name == "timeout" then 1 else 0
  }

  function From(words: seq<Word>, index: nat): seq<Word>
    decreases if index < |words| then |words| - index else 0
  {
    if index >= |words| then []
    else if PassedOver(words[index]) then From(words, index + 1)
    else if OnlyAsks(words, index) then []
    else if BaseName(words[index].value) !in WRAPPERS then words[index..]
    else From(words, AfterWrapper(words, index))
  }

  method CommandWords(words: seq<Word>) returns (rest: seq<Word>)
    ensures rest == From(words, 0)
  {
    var index := 0;
    while index < |words|
      invariant From(words, index) == From(words, 0)
      decreases |words| - index
    {
      if PassedOver(words[index]) {
        index := index + 1;
        continue;
      }
      if OnlyAsks(words, index) {
        return [];
      }
      var name := BaseName(words[index].value);
      if name !in WRAPPERS {
        break;
      }
      ghost var wrapper := index;
      index := index + 1;
      while index < |words| && IsOption(words[index].value)
        invariant index > wrapper
        invariant SkipOptions(words, name, index) == SkipOptions(words, name, wrapper + 1)
        decreases |words| - index
      {
        index := index + if TakesValue(name, words[index].value) then 2 else 1;
      }
      if name == "timeout" {
        index := index + 1;
      }
      assert index == AfterWrapper(words, wrapper);
    }
    return if index < |words| then words[index..] else [];
  }

  // ----- what is left -----

  predicate IsCommand(w: Word) {
    !PassedOver(w) && BaseName(w.value) !in WRAPPERS
  }

  // What is left is an end of the words, and begins with a word that is neither an assignment
  // nor a keyword nor a wrapper.
  lemma {:induction false} RestIsCommand(words: seq<Word>, index: nat)
    ensures From(words, index) != [] ==>
              IsCommand(From(words, index)[0])
              && exists k :: index <= k < |words| && From(words, index) == words[k..]
    decreases if index < |words| then |words| - index else 0
  {
    if index < |words| {
      if PassedOver(words[index]) {
        RestIsCommand(words, index + 1);
      } else if !OnlyAsks(words, index) && BaseName(words[index].value) in WRAPPERS {
        RestIsCommand(words, AfterWrapper(words, index));
      }
    }
  }

  lemma CommandStays(words: seq<Word>)
    requires words != [] && IsCommand(words[0])
    ensures From(words, 0) == words
  {
    assert words[0..] == words;
    assert BaseName(words[0].value) != "command" && BaseName(words[0].value) !in HELPED;
  }

  // Nothing is stripped exactly when there is nothing to strip; so stripping again changes
  // nothing.
  lemma UnchangedIff(words: seq<Word>)
    ensures From(words, 0) == words <==> words == [] || IsCommand(words[0])
    ensures From(From(words, 0), 0) == From(words, 0)
  {
    RestIsCommand(words, 0);
    if words != [] && IsCommand(words[0]) {
      CommandStays(words);
    }
    if From(words, 0) != [] {
      CommandStays(From(words, 0));
    }
  }

  // The result depends only on the words ahead.
  lemma {:induction false} SkipShift(w: Word, words: seq<Word>, name: string, index: nat)
    ensures SkipOptions([w] + words, name, index + 1) == SkipOptions(words, name, index) + 1
    decreases if index < |words| then |words| - index else 0
  {
    if index < |words| {
      assert ([w] + words)[index + 1] == words[index];
      if IsOption(words[index].value) {
        SkipShift(w, words, name, index + if TakesValue(name, words[index].value) then 2 else 1);
      }
    }
  }

  lemma {:induction false} FromShift(w: Word, words: seq<Word>, index: nat)
    ensures From([w] + words, index + 1) == From(words, index)
    decreases if index < |words| then |words| - index else 0
  {
    hide IsAssignment;
    hide BaseName;
    hide SkipOptions;
    if index < |words| {
      var all := [w] + words;
      assert all[index + 1] == words[index] && all[index + 1..] == words[index..];
      assert index + 1 < |words| ==> all[index + 2] == words[index + 1];
      assert OnlyAsks(all, index + 1) == OnlyAsks(words, index);
      if PassedOver(words[index]) {
        FromShift(w, words, index + 1);
      } else if BaseName(words[index].value) in WRAPPERS {
        SkipShift(w, words, BaseName(words[index].value), index + 1);
        FromShift(w, words, AfterWrapper(words, index));
      }
    }
  }

  // An assignment or a keyword in front of a command changes nothing.
  lemma PrefixIsPassedOver(w: Word, words: seq<Word>)
    requires PassedOver(w)
    ensures From([w] + words, 0) == From(words, 0)
  {
    assert ([w] + words)[0] == w;
    FromShift(w, words, 0);
  }
}
