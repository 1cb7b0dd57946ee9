/** The identifier scanner of lexer.js as written, next to the corrected one the rest of the
    model uses.

    The scanner's loop runs a regular-expression test for a word character on the character at
    the cursor. Past the last character the read gives `undefined`, which the test first
    converts to the string "undefined"; that string has letters, so the test passes, and the
    loop appends "undefined" on every pass. An identifier that runs to the end of the input
    therefore never returns a token; the growing string only ends in a RangeError once it
    reaches the engine's maximum length, which the fuel-bounded model below leaves out. The
    number scanner has the same loop shape, but "undefined" has no digit, so it stops. */
module LexerAsWritten {
  import opened Wrappers
  import L = Lexer

  /** What reading the input at a position gives: a character, or `undefined` past the end. */
  datatype Slot = Char(c: char) | Missing

  function Read(input: string, i: nat): (r: Slot)
    ensures r.Missing? <==> i >= |input|
  {
    if i < |input| then Char(input[i]) else Missing
  }

  /** The string the regular expression test and `+=` see. */
  function Text(s: Slot): (r: string)
    ensures s.Char? ==> r == [s.c]
  {
    match s
    case Char(c) => [c]
    case Missing => "undefined"
  }

  /** The regular-expression test on the text `t`: some character of `t` is a word character. */
  predicate WordTest(t: string) {
    exists k :: 0 <= k < |t| && L.IsWordChar(t[k])
  }

  /** The test passes on a character exactly when it is a word character, and passes on
      `undefined`. */
  lemma WordTestOfSlot(s: Slot)
    ensures s.Char? ==> (WordTest(Text(s)) <==> L.IsWordChar(s.c))
    ensures s.Missing? ==> WordTest(Text(s))
  {
    if s.Missing? {
      assert Text(s)[0] == 'u';
    } else {
      assert Text(s)[0] == s.c;
    }
  }

  /** Where the loop stops: the word it built and the position of the character that failed
      the test. */
  datatype Stop = Stop(word: string, at: nat)

  /** The loop of `tokenizeIdentifier` as written, run for at most `fuel` iterations: the word
      and the position where the test fails, or `None` when the loop is still going. When it
      stops, it stops on a character of the input that is not a word character, having added
      exactly the word characters it passed. */
  function ScanAsWritten(input: string, pos: nat, word: string, fuel: nat): (r: Option<Stop>)
    ensures r.Some? ==> pos <= r.value.at < |input| && r.value.at < pos + fuel
    ensures r.Some? ==> !L.IsWordChar(input[r.value.at])
    ensures r.Some? ==> forall k :: pos <= k < r.value.at ==> L.IsWordChar(input[k])
    ensures r.Some? ==> r.value.word == word + input[pos..r.value.at]
    decreases fuel
  {
    if fuel == 0 then None
    else
      var s := Read(input, pos);
      WordTestOfSlot(s);
      if !WordTest(Text(s)) then Some(Stop(word, pos))
      else
        var rest := ScanAsWritten(input, pos + 1, word + Text(s), fuel - 1);
        if rest.Some? then
          assert word + Text(s) + input[pos + 1..rest.value.at] == word + input[pos..rest.value.at];
          rest
        else rest
  }

  /** The defect: once the scan has reached a position from which only word characters remain,
      no amount of fuel makes it stop. */
  lemma {:induction false} IdentifierAtEndNeverEnds(input: string, pos: nat, word: string, fuel: nat)
    requires forall k :: pos <= k < |input| ==> L.IsWordChar(input[k])
    ensures ScanAsWritten(input, pos, word, fuel) == None
    decreases fuel
  {
    if fuel > 0 {
      WordTestOfSlot(Read(input, pos));
      IdentifierAtEndNeverEnds(input, pos + 1, word + Text(Read(input, pos)), fuel - 1);
    }
  }

  /** The input `x`: the scanner as written never returns, while the corrected one gives the
      identifier `x` and stops at the end. */
  lemma SingleLetter(fuel: nat)
    ensures ScanAsWritten("x", 0, "", fuel) == None
    ensures L.TokenizeIdentifier("x", 0) == L.Scan(L.Token(L.Identifier, L.TextValue("x")), 1)
  {
    IdentifierAtEndNeverEnds("x", 0, "", fuel);
    assert "x"[0..1] == "x";
    assert "x" !in L.Keywords;
  }

  /** Where a character other than a word character ends the identifier, the scanner as
      written and the corrected one agree, given one iteration per character of the word. */
  lemma {:induction false} ScanAgrees(input: string, pos: nat, start: nat, fuel: nat)
    requires start <= pos < |input|
    requires forall k :: start <= k < pos ==> L.IsWordChar(input[k])
    requires L.WordRunEnd(input, pos) < |input|
    requires fuel > L.WordRunEnd(input, pos) - pos
    ensures ScanAsWritten(input, pos, input[start..pos], fuel)
         == Some(Stop(input[start..L.WordRunEnd(input, pos)], L.WordRunEnd(input, pos)))
    decreases fuel
  {
    var s := Read(input, pos);
    WordTestOfSlot(s);
    if L.IsWordChar(input[pos]) {
      assert input[start..pos] + Text(s) == input[start..pos + 1];
      ScanAgrees(input, pos + 1, start, fuel - 1);
    }
  }

  /** The corrected scanner is the as-written one wherever the latter stops. */
  lemma CorrectedAgrees(input: string, pos: nat, fuel: nat)
    requires pos < |input| && L.IsWordChar(input[pos])
    requires L.TokenizeIdentifier(input, pos).next < |input|
    requires fuel > L.TokenizeIdentifier(input, pos).next - pos
    ensures ScanAsWritten(input, pos, "", fuel)
         == Some(Stop(L.TokenizeIdentifier(input, pos).token.value.text, L.TokenizeIdentifier(input, pos).next))
  {
    assert input[pos..pos] == "";
    ScanAgrees(input, pos, pos, fuel);
  }
}
