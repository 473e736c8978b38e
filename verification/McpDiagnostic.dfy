// The transport diagnostic normalizer of the live-device acceptance script: it undoes the
// prefixes an MCP client prints, however many there are.
module McpDiagnostic {
  import opened Options

  const RENDERED_ERROR_PREFIX := "Error: "
  const MCP_ERROR_PREFIX := "MCP error "
  const SEPARATOR := ": "
  const MAX_SAFE_INTEGER := 9007199254740991

  // ----- decimal text -----

  predicate IsDigit(c: char) {
    '0' <= c <= '9'
  }

  function Print(n: nat): (s: string)
    ensures s != [] && forall i | 0 <= i < |s| :: IsDigit(s[i])
  {
    var digit := '0' + (n % 10) as char;
    if n < 10 then [digit] else Print(n / 10) + [digit]
  }

  function Value(digits: string): nat
    requires forall i | 0 <= i < |digits| :: IsDigit(digits[i])
  {
    if digits == [] then 0
    else
      var last := digits[|digits| - 1];
      assert IsDigit(last);
      Value(digits[..|digits| - 1]) * 10 + (last as int - '0' as int)
  }

  lemma {:induction false} ValueOfPrint(n: nat)
    ensures Value(Print(n)) == n
  {
    if n >= 10 {
      ValueOfPrint(n / 10);
      assert Print(n)[..|Print(n)| - 1] == Print(n / 10);
    }
  }

  // What `String(Number(code)) === code` says of the texts of negative integers past
  // 2^53 - 1, where numbers are rounded and, from 10^21 on, print with an exponent. Which of
  // them the test accepts is the number type's business: every theorem is for any such test.
  type LargeCodes = string -> bool

  predicate IsSafeCode(code: string) {
    && |code| > 1 && code[0] == '-'
    && (forall i | 1 <= i < |code| :: IsDigit(code[i]))
    && 0 < Value(code[1..]) <= MAX_SAFE_INTEGER
    && Print(Value(code[1..])) == code[1..]
  }

  // A minus sign and what numbers print with.
  predicate IsNumberText(code: string) {
    && |code| > 1 && code[0] == '-'
    && forall i | 1 <= i < |code| :: IsDigit(code[i]) || code[i] == '.' || code[i] == 'e' || code[i] == '+'
  }

  // The text between the prefix and the separator is a negative integer written the way the
  // number itself prints.
  predicate IsCode(code: string, large: LargeCodes) {
    IsSafeCode(code) || (IsNumberText(code) && large(code))
  }

  // Up to 2^53 - 1 these are exactly the printed integers.
  lemma SafeCodesArePrinted(code: string)
    ensures IsSafeCode(code) <==> exists n: nat :: 0 < n <= MAX_SAFE_INTEGER && code == Negated(n)
  {
    if IsSafeCode(code) {
      assert code == Negated(Value(code[1..]));
    }
    if n: nat :| 0 < n <= MAX_SAFE_INTEGER && code == Negated(n) {
      ValueOfPrint(n);
      assert code[1..] == Print(n);
    }
  }

  function Negated(n: nat): string {
    "-" + Print(n)
  }

  // ----- one prefix -----

  predicate SeparatorAt(text: string, k: nat) {
    k + 2 <= |text| && text[k] == ':' && text[k + 1] == ' '
  }

  // The first separator at or after `from`.
  function FindSeparator(text: string, from: nat): (r: Option<nat>)
    ensures r.Some? ==> from <= r.value && SeparatorAt(text, r.value)
    ensures forall k: nat | from <= k && SeparatorAt(text, k) :: r.Some? && r.value <= k
    decreases |text| - from
  {
    if from + 2 > |text| then None
    else if SeparatorAt(text, from) then Some(from)
    else FindSeparator(text, from + 1)
  }

  function StripMcpErrorPrefix(text: string, large: LargeCodes): (r: Option<string>)
    ensures r.Some? ==> |r.value| < |text|
  {
    if !(MCP_ERROR_PREFIX <= text) then None
    else
      var separator := FindSeparator(text, |MCP_ERROR_PREFIX|);
      if separator.None? || !IsCode(text[|MCP_ERROR_PREFIX|..separator.value], large) then None
      else Some(text[separator.value + 2..])
  }

  // What a client prints for one failure with this code.
  function Prefix(code: string): string {
    MCP_ERROR_PREFIX + code + SEPARATOR
  }

  lemma StripUndoesPrefix(code: string, message: string, large: LargeCodes)
    requires IsCode(code, large)
    ensures StripMcpErrorPrefix(Prefix(code) + message, large) == Some(message)
  {
    var text := Prefix(code) + message;
    var k := 10 + |code|;
    assert text == MCP_ERROR_PREFIX + (code + (SEPARATOR + message));
    assert MCP_ERROR_PREFIX <= text;
    assert text[10..k] == code;
    assert SeparatorAt(text, k) by {
      assert text[k] == (SEPARATOR + message)[0] && text[k + 1] == (SEPARATOR + message)[1];
    }
    forall m: nat | 10 <= m < k ensures !SeparatorAt(text, m) {
      assert text[m] == code[m - 10];
    }
    assert FindSeparator(text, 10) == Some(k);
    assert text[k + 2..] == message;
  }

  lemma StrippedWasPrefixed(text: string, large: LargeCodes) returns (code: string)
    requires StripMcpErrorPrefix(text, large).Some?
    ensures IsCode(code, large)
    ensures text == Prefix(code) + StripMcpErrorPrefix(text, large).value
  {
    var k := FindSeparator(text, 10).value;
    code := text[10..k];
    assert text[k..k + 2] == SEPARATOR;
    assert text == text[..10] + text[10..k] + text[k..k + 2] + text[k + 2..];
  }

  // ----- all prefixes -----

  function StripAll(text: string, large: LargeCodes): (r: string)
    ensures StripMcpErrorPrefix(r, large).None?
    decreases |text|
  {
    var next := StripMcpErrorPrefix(text, large);
    if next.Some? then StripAll(next.value, large) else text
  }

  // The diagnostic without the one "Error: " a rendered error starts with.
  function Unrendered(diagnostic: string): string {
    if RENDERED_ERROR_PREFIX <= diagnostic then diagnostic[|RENDERED_ERROR_PREFIX|..] else diagnostic
  }

  function Normalized(diagnostic: string, large: LargeCodes): string {
    var first := StripMcpErrorPrefix(Unrendered(diagnostic), large);
    if first.Some? then StripAll(first.value, large) else diagnostic
  }

  method NormalizeMcpTransportDiagnostic(diagnostic: string, large: LargeCodes) returns (r: string)
    ensures r == Normalized(diagnostic, large)
  {
    var first := StripMcpErrorPrefix(Unrendered(diagnostic), large);
    if first.None? {
      return diagnostic;
    }
    var remainder := first.value;
    var next := StripMcpErrorPrefix(remainder, large);
    while next.Some?
      invariant next == StripMcpErrorPrefix(remainder, large)
      invariant StripAll(remainder, large) == StripAll(first.value, large)
      decreases |remainder|
    {
      remainder := next.value;
      next := StripMcpErrorPrefix(remainder, large);
    }
    return remainder;
  }

  // ----- main results -----

  predicate Codes(codes: seq<string>, large: LargeCodes) {
    forall i | 0 <= i < |codes| :: IsCode(codes[i], large)
  }

  // A message behind a chain of printed prefixes.
  function Rendered(codes: seq<string>, message: string): string {
    if codes == [] then message else Prefix(codes[0]) + Rendered(codes[1..], message)
  }

  function Printed(asError: bool, codes: seq<string>, message: string): string {
    (if asError then RENDERED_ERROR_PREFIX else "") + Rendered(codes, message)
  }

  lemma {:induction false} StripAllUndoesRendered(codes: seq<string>, message: string, large: LargeCodes)
    requires Codes(codes, large) && StripMcpErrorPrefix(message, large).None?
    ensures StripAll(Rendered(codes, message), large) == message
  {
    if codes != [] {
      StripUndoesPrefix(codes[0], Rendered(codes[1..], message), large);
      StripAllUndoesRendered(codes[1..], message, large);
    }
  }

  lemma {:induction false} StripAllLeavesRendered(text: string, large: LargeCodes) returns (codes: seq<string>)
    ensures Codes(codes, large) && text == Rendered(codes, StripAll(text, large))
    decreases |text|
  {
    if StripMcpErrorPrefix(text, large).Some? {
      var code := StrippedWasPrefixed(text, large);
      var rest := StripAllLeavesRendered(StripMcpErrorPrefix(text, large).value, large);
      codes := [code] + rest;
    } else {
      codes := [];
    }
  }

  lemma UnrenderedPrinted(asError: bool, codes: seq<string>, message: string)
    requires codes != []
    ensures Unrendered(Printed(asError, codes, message)) == Rendered(codes, message)
  {
    var text := Rendered(codes, message);
    assert text[0] == MCP_ERROR_PREFIX[0] == 'M';
    if asError {
      assert (RENDERED_ERROR_PREFIX + text)[|RENDERED_ERROR_PREFIX|..] == text;
    } else {
      assert Printed(asError, codes, message) == text;
      assert RENDERED_ERROR_PREFIX[0] == 'E';
    }
  }

  // Normalizing undoes printing: whatever chain of one or more prefixes stands before a
  // message without one, and with or without a leading "Error: ", the message comes back.
  lemma NormalizeUndoesPrinting(asError: bool, codes: seq<string>, message: string, large: LargeCodes)
    requires codes != [] && Codes(codes, large) && StripMcpErrorPrefix(message, large).None?
    ensures Normalized(Printed(asError, codes, message), large) == message
  {
    UnrenderedPrinted(asError, codes, message);
    StripUndoesPrefix(codes[0], Rendered(codes[1..], message), large);
    StripAllUndoesRendered(codes[1..], message, large);
  }

  // And it does nothing else.
  lemma NormalizeOnlyUndoesPrinting(diagnostic: string, large: LargeCodes) returns (asError: bool, codes: seq<string>)
    ensures Normalized(diagnostic, large) == diagnostic
            || (codes != [] && Codes(codes, large) && StripMcpErrorPrefix(Normalized(diagnostic, large), large).None?
                && diagnostic == Printed(asError, codes, Normalized(diagnostic, large)))
  {
    hide IsCode;
    hide StripMcpErrorPrefix;
    hide Prefix;
    var body := Unrendered(diagnostic);
    asError, codes := RENDERED_ERROR_PREFIX <= diagnostic, [];
    if StripMcpErrorPrefix(body, large).Some? {
      var code := StrippedWasPrefixed(body, large);
      var rest := StripAllLeavesRendered(StripMcpErrorPrefix(body, large).value, large);
      codes := [code] + rest;
      assert Rendered(codes, Normalized(diagnostic, large)) == body;
      if asError {
        assert diagnostic == diagnostic[..|RENDERED_ERROR_PREFIX|] + body;
      }
    }
  }

  ghost predicate IsPrintingOf(diagnostic: string, message: string, large: LargeCodes) {
    exists asError: bool, codes: seq<string> ::
      codes != [] && Codes(codes, large) && diagnostic == Printed(asError, codes, message)
  }

  // A diagnostic is changed exactly when it is a printing of a message without a prefix, and
  // then to that message; so no diagnostic is a printing of two such messages.
  lemma NormalizeIsTheInverse(diagnostic: string, message: string, large: LargeCodes)
    requires StripMcpErrorPrefix(message, large).None?
    ensures IsPrintingOf(diagnostic, message, large) <==>
            Normalized(diagnostic, large) == message && Normalized(diagnostic, large) != diagnostic
  {
    NormalizedShortens(diagnostic, large);
    if IsPrintingOf(diagnostic, message, large) {
      var asError: bool, codes: seq<string> :|
        codes != [] && Codes(codes, large) && diagnostic == Printed(asError, codes, message);
      NormalizeUndoesPrinting(asError, codes, message, large);
      UnrenderedPrinted(asError, codes, message);
      StripUndoesPrefix(codes[0], Rendered(codes[1..], message), large);
    }
    if Normalized(diagnostic, large) == message && Normalized(diagnostic, large) != diagnostic {
      var asError, codes := NormalizeOnlyUndoesPrinting(diagnostic, large);
    }
  }

  lemma {:induction false} StripAllNoLonger(text: string, large: LargeCodes)
    ensures |StripAll(text, large)| <= |text|
    decreases |text|
  {
    if StripMcpErrorPrefix(text, large).Some? {
      StripAllNoLonger(StripMcpErrorPrefix(text, large).value, large);
    }
  }

  lemma NormalizedShortens(diagnostic: string, large: LargeCodes)
    ensures Normalized(diagnostic, large) == diagnostic <==>
            StripMcpErrorPrefix(Unrendered(diagnostic), large).None?
  {
    if StripMcpErrorPrefix(Unrendered(diagnostic), large).Some? {
      StripAllNoLonger(StripMcpErrorPrefix(Unrendered(diagnostic), large).value, large);
    }
  }

  // ----- normalizing twice -----

  // The diagnostic nests a rendered error: behind one or more prefixes stands "Error: " with
  // a prefix of its own.
  ghost predicate NestsError(diagnostic: string, large: LargeCodes) {
    exists asError: bool, codes: seq<string>, inner: string, rest: string ::
      NestsErrorAs(diagnostic, large, asError, codes, inner, rest)
  }

  predicate NestsErrorAs(diagnostic: string, large: LargeCodes, asError: bool, codes: seq<string>,
                         inner: string, rest: string) {
    && codes != [] && Codes(codes, large) && IsCode(inner, large)
    && diagnostic == Printed(asError, codes, Printed(true, [inner], rest))
  }

  lemma NestedErrorComesFirst(inner: string, rest: string, large: LargeCodes)
    requires IsCode(inner, large)
    ensures var nested := Printed(true, [inner], rest);
            StripMcpErrorPrefix(nested, large).None? && Normalized(nested, large) != nested
  {
    var nested := Printed(true, [inner], rest);
    assert nested[0] == RENDERED_ERROR_PREFIX[0] == 'E' && MCP_ERROR_PREFIX[0] == 'M';
    UnrenderedPrinted(true, [inner], rest);
    assert Rendered([inner], rest) == Prefix(inner) + rest;
    StripUndoesPrefix(inner, rest, large);
    NormalizedShortens(nested, large);
  }

  lemma ChangedWithoutPrefix(message: string, large: LargeCodes) returns (inner: string, rest: string)
    requires StripMcpErrorPrefix(message, large).None? && Normalized(message, large) != message
    ensures IsCode(inner, large) && message == Printed(true, [inner], rest)
  {
    NormalizedShortens(message, large);
    hide IsCode;
    hide StripMcpErrorPrefix;
    hide Normalized;
    var body := Unrendered(message);
    assert body != message;
    inner := StrippedWasPrefixed(body, large);
    rest := StripMcpErrorPrefix(body, large).value;
    assert Rendered([inner], rest) == Prefix(inner) + rest;
    assert message == message[..|RENDERED_ERROR_PREFIX|] + body;
  }

  // Normalizing twice differs from normalizing once exactly for the diagnostics that nest a
  // rendered error, whose own "Error: " then comes to the front.
  lemma IdempotentUnlessErrorNested(diagnostic: string, large: LargeCodes)
    ensures Normalized(Normalized(diagnostic, large), large) != Normalized(diagnostic, large) <==>
            NestsError(diagnostic, large)
  {
    var once := Normalized(diagnostic, large);
    if Normalized(once, large) != once {
      var asError, codes := NormalizeOnlyUndoesPrinting(diagnostic, large);
      var inner, rest := ChangedWithoutPrefix(once, large);
      assert NestsErrorAs(diagnostic, large, asError, codes, inner, rest);
    }
    if NestsError(diagnostic, large) {
      var asError: bool, codes: seq<string>, inner: string, rest: string :|
        NestsErrorAs(diagnostic, large, asError, codes, inner, rest);
      NestedErrorComesFirst(inner, rest, large);
      NormalizeUndoesPrinting(asError, codes, Printed(true, [inner], rest), large);
    }
  }

  lemma SmallCode(n: nat, large: LargeCodes)
    requires 0 < n <= MAX_SAFE_INTEGER
    ensures IsCode(Negated(n), large) && Codes([Negated(n)], large)
  {
    SafeCodesArePrinted(Negated(n));
  }

  lemma NoPrefixOnGone(large: LargeCodes)
    ensures StripMcpErrorPrefix("gone", large).None?
  {
    assert "gone"[0] == 'g' && MCP_ERROR_PREFIX[0] == 'M';
  }

  lemma NestedErrorIsNormalizedFurther(large: LargeCodes)
    ensures var d := Printed(false, [Negated(32603)], Printed(true, [Negated(1)], "gone"));
            Normalized(d, large) == Printed(true, [Negated(1)], "gone")
            && Normalized(Normalized(d, large), large) == "gone"
  {
    hide Negated;
    hide IsCode;
    hide Codes;
    hide Printed;
    hide Normalized;
    hide StripMcpErrorPrefix;
    SmallCode(32603, large);
    SmallCode(1, large);
    NoPrefixOnGone(large);
    NestedErrorComesFirst(Negated(1), "gone", large);
    NormalizeUndoesPrinting(false, [Negated(32603)], Printed(true, [Negated(1)], "gone"), large);
    NormalizeUndoesPrinting(true, [Negated(1)], "gone", large);
  }
}
