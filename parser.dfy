/**
 * The character-by-character parser that the tag file and the blacklist parsers
 * are built on. It holds the trimmed input and a cursor; every advance goes
 * through `ConsumeChar`, which also keeps the line counter the error messages
 * report.
 */
module BaseParsing {
  import opened Text

  predicate IsLineBreak(c: char) { c == '\n' || c == '\r' }

  /**
   * The value of the line counter once the cursor has walked from 0 to `p`: each
   * consumed character adds one when the character after it is a line break.
   */
  function ColumnAt(s: string, p: nat): nat
  {
    if p == 0 then 0 else ColumnAt(s, p - 1) + (if p < |s| && IsLineBreak(s[p]) then 1 else 0)
  }

  /** The position at which `consume_while(test)` started at `p` stops. */
  function SkipWhile(s: string, p: nat, test: char -> bool): (q: nat)
    requires p <= |s|
    ensures p <= q <= |s|
    decreases |s| - p
  {
    if p == |s| || !test(s[p]) then p else SkipWhile(s, p + 1, test)
  }

  /** `consume_while(test)` stops at the end of the text or at a character `test` rejects. */
  lemma {:induction false} SkipWhileStops(s: string, p: nat, test: char -> bool)
    requires p <= |s|
    ensures var q := SkipWhile(s, p, test); q == |s| || !test(s[q])
    decreases |s| - p
  {
    if p < |s| && test(s[p]) {
      SkipWhileStops(s, p + 1, test);
    }
  }

  /** Every character `consume_while(test)` skips passes `test`. */
  lemma {:induction false} SkipWhilePasses(s: string, p: nat, test: char -> bool, i: nat)
    requires p <= i <= |s| && i < SkipWhile(s, p, test)
    ensures test(s[i])
    decreases |s| - p
  {
    if i > p {
      SkipWhilePasses(s, p + 1, test, i);
    }
  }

  /** The characters skipped are the longest prefix of the rest of the text that passes `test`. */
  lemma {:induction false} SkipWhileTakes(s: string, p: nat, test: char -> bool)
    requires p <= |s|
    ensures s[p..SkipWhile(s, p, test)] == TakeWhile(s[p..], test)
  {
    var q := SkipWhile(s, p, test);
    forall j | 0 <= j < q - p ensures test(s[p..][j]) {
      SkipWhilePasses(s, p, test, p + j);
    }
    SkipWhileStops(s, p, test);
    TakeWhileUnique(s[p..], test, q - p);
  }

  /** A run of characters that pass `test`, followed by the end or a rejected character, is exactly what is skipped. */
  lemma {:induction false} SkipWhileRun(s: string, p: nat, q: nat, test: char -> bool)
    requires p <= q <= |s|
    requires forall i :: p <= i < q ==> test(s[i])
    requires q == |s| || !test(s[q])
    ensures SkipWhile(s, p, test) == q
    decreases q - p
  {
    if p < q {
      SkipWhileRun(s, p + 1, q, test);
    }
  }

  /** The message `report_error` logs before the program exits: the text, the cursor and the line counter. */
  datatype ParseError = ParseError(message: string, position: nat, column: nat)

  class BaseParser {
    var pos: nat
    var input: string
    var currentColumn: nat
    var totalLen: nat
    var totalColumns: nat

    ghost predicate Valid()
      reads this
    {
      pos <= |input| && currentColumn == ColumnAt(input, pos)
    }

    /** Keeps the input with surrounding whitespace removed; the totals describe the text as given. */
    constructor (raw: string)
      ensures Valid()
      ensures input == Trim(raw) && pos == 0
      ensures totalLen == |raw| && totalColumns == Count(Trim(raw), '\n')
    {
      input := Trim(raw);
      pos := 0;
      currentColumn := 0;
      totalLen := |raw|;
      totalColumns := Count(Trim(raw), '\n');
    }

    function Eof(): (b: bool)
      reads this
      ensures b <==> pos >= |input|
    {
      pos >= |input|
    }

    function StartsWith(prefix: string): (b: bool)
      reads this
      requires Valid()
      ensures b <==> StartsWithAt(input, pos, prefix)
      ensures |prefix| == 1 ==> (b <==> CharAt(input, pos, prefix[0]))
    {
      assert |prefix| == 1 ==> (StartsWithAt(input, pos, prefix) <==> CharAt(input, pos, prefix[0])) by {
        if |prefix| == 1 {
          StartsWithChar(input, pos, prefix[0]);
          assert prefix == [prefix[0]];
        }
      }
      assert prefix <= input[pos..] <==> StartsWithAt(input, pos, prefix) by {
        if StartsWithAt(input, pos, prefix) {
          assert input[pos..][..|prefix|] == input[pos..pos + |prefix|];
        }
      }
      prefix <= input[pos..]
    }

    function NextChar(): char
      reads this
      requires Valid() && !Eof()
    {
      input[pos]
    }

    /** The error `report_error` reports at the current cursor. */
    function ReportError(message: string): (e: ParseError)
      reads this
      requires Valid()
      ensures e.position == pos && e.column == ColumnAt(input, pos) && e.message == message
    {
      ParseError(message, pos, currentColumn)
    }

    /** Returns the character under the cursor and moves past it. */
    method ConsumeChar() returns (c: char)
      requires Valid() && !Eof()
      modifies this
      ensures Valid()
      ensures c == old(input[pos]) && pos == old(pos) + 1
      ensures input == old(input) && totalLen == old(totalLen) && totalColumns == old(totalColumns)
    {
      c := input[pos];
      var next := if pos + 1 < |input| then input[pos + 1] else ' ';
      if next == '\n' || next == '\r' {
        currentColumn := currentColumn + 1;
      }
      pos := pos + 1;
    }

    /** Consumes characters while `test` accepts them and returns them. */
    method ConsumeWhile(test: char -> bool) returns (result: string)
      requires Valid()
      modifies this
      ensures Valid()
      ensures input == old(input) && totalLen == old(totalLen) && totalColumns == old(totalColumns)
      ensures pos == SkipWhile(input, old(pos), test)
      ensures result == input[old(pos)..pos]
    {
      result := [];
      while !Eof() && test(NextChar())
        invariant Valid() && old(pos) <= pos
        invariant input == old(input) && totalLen == old(totalLen) && totalColumns == old(totalColumns)
        invariant result == input[old(pos)..pos]
        invariant SkipWhile(input, pos, test) == SkipWhile(input, old(pos), test)
        decreases |input| - pos
      {
        var c := ConsumeChar();
        result := result + [c];
      }
    }

    /** Skips zero or more whitespace characters. */
    method ConsumeWhitespace()
      requires Valid()
      modifies this
      ensures Valid()
      ensures input == old(input) && totalLen == old(totalLen) && totalColumns == old(totalColumns)
      ensures pos == SkipWhile(input, old(pos), IsWhitespace)
    {
      var _ := ConsumeWhile(IsWhitespace);
    }
  }
}
