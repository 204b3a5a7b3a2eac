/**
 * What a successful read of the blacklist guarantees about its tokens, how line
 * breaks delimit lines, and how the tag loop of the program relates to the
 * terminating loop of the model.
 */
module BlacklistFacts {
  import opened Wrappers
  import opened Text
  import opened BaseParsing
  import opened BlacklistParsing

  // ---------------------------------------------------------------------------
  // Shape of the parsed tokens
  // ---------------------------------------------------------------------------

  /**
   * A token as the parser builds it: an ordinary tag has a lower-case name of tag
   * characters; a special tag keeps its identifier as its name, and its value is
   * present and within the range of its integer type.
   */
  predicate WellFormedToken(t: TagToken)
  {
    match t.tagType
    case PlainTag => forall i :: 0 <= i < |t.name| ==> ValidTag(t.name[i]) && !('A' <= t.name[i] <= 'Z')
    case RatingTag(_) => t.name == "rating"
    case IdTag(id) => t.name == "id" && id.Some? && I64Min <= id.value <= I64Max
    case UserTag(user) => t.name == "user" && user.Some? && forall i :: 0 <= i < |user.value| ==> ValidUser(user.value[i])
    case ScoreTag(_, score) => t.name == "score" && I32Min <= score <= I32Max
  }

  predicate WellFormedLine(line: LineToken)
  {
    forall k :: 0 <= k < |line.tags| ==> WellFormedToken(line.tags[k])
  }

  /** Lower-casing a run of tag characters gives lower-case tag characters. */
  lemma LowerTagChars(s: string, a: nat, e: nat)
    requires a <= |s| && e == SkipWhile(s, a, ValidTag)
    ensures forall i :: 0 <= i < |ToLower(s[a..e])| ==>
      ValidTag(ToLower(s[a..e])[i]) && !('A' <= ToLower(s[a..e])[i] <= 'Z')
  {
    forall i | 0 <= i < e - a ensures ValidTag(s[a..e][i]) {
      SkipWhilePasses(s, a, ValidTag, a + i);
    }
  }

  lemma SpecialTagWellFormed(s: string, p: nat, negated: bool, name: string)
    requires p < |s| && s[p] == ':'
    ensures var r := SpecialTagAt(s, p, negated, name).0; r.Ok? ==> WellFormedToken(r.value)
  {
    if name == "user" {
      var e := SkipWhile(s, p + 1, ValidUser);
      var user := s[p + 1..e];
      forall i | 0 <= i < |user| ensures ValidUser(user[i]) {
        SkipWhilePasses(s, p + 1, ValidUser, p + 1 + i);
      }
    }
  }

  lemma TagTokenWellFormed(s: string, p: nat)
    requires p <= |s|
    ensures var r := TagTokenAt(s, p).0; r.Ok? ==> WellFormedToken(r.value)
  {
    var a := if CharAt(s, p, '-') then p + 1 else p;
    var e := SkipWhile(s, a, ValidTag);
    if CharAt(s, e, ':') {
      SpecialTagWellFormed(s, e, CharAt(s, p, '-'), ToLower(s[a..e]));
    } else {
      LowerTagChars(s, a, e);
    }
  }

  /** A reader whose tokens are all well formed. */
  ghost predicate ReaderWellFormed(read: TagReader)
  {
    forall s: string, p: nat :: p <= |s| && read(s, p).0.Ok? ==> WellFormedToken(read(s, p).0.value)
  }

  lemma ReadTagWellFormed()
    ensures ReaderWellFormed(ReadTag)
  {
    forall s: string, p: nat | p <= |s| && ReadTag(s, p).0.Ok? ensures WellFormedToken(ReadTag(s, p).0.value) {
      TagTokenWellFormed(s, p);
    }
  }

  lemma {:induction false} LineFromWellFormed(s: string, p: nat, acc: seq<TagToken>, read: TagReader)
    requires p <= |s| && ReaderWellFormed(read)
    requires WellFormedLine(LineToken(acc))
    ensures var r := LineFrom(s, p, acc, read).0; r.Ok? ==> WellFormedLine(r.value)
    decreases |s| - p
  {
    match LineIteration(s, p, read)
    case LineBreak(_) =>
    case TextEnd(_) =>
    case TokenRead(t, start, q) =>
      if t.Ok? && q != start {
        assert t == read(s, start).0;
        LineFromWellFormed(s, q, acc + [t.value], read);
      }
  }

  lemma {:induction false} LinesFromWellFormed(s: string, p: nat, acc: seq<LineToken>, read: TagReader)
    requires p <= |s| && ReaderWellFormed(read)
    requires forall k :: 0 <= k < |acc| ==> WellFormedLine(acc[k])
    ensures var r := LinesFrom(s, p, acc, read); r.Ok? ==> forall k :: 0 <= k < |r.value| ==> WellFormedLine(r.value[k])
    decreases |s| - p
  {
    var q := SkipWhile(s, p, IsWhitespace);
    if q < |s| {
      var (line, e) := LineFrom(s, q, [], read);
      LineFromWellFormed(s, q, [], read);
      if line.Ok? {
        assert LinesFrom(s, p, acc, read) == LinesFrom(s, e, acc + [line.value], read);
        LinesFromWellFormed(s, e, acc + [line.value], read);
      }
    }
  }

  /** Every token of a blacklist that reads without error is well formed. */
  lemma ParsedWellFormed(text: string)
    ensures var r := ParseBlacklistText(text);
      r.Ok? ==> forall k :: 0 <= k < |r.value| ==> WellFormedLine(r.value[k])
  {
    ReadTagWellFormed();
    LinesFromWellFormed(Trim(text), 0, [], ReadTag);
  }

  // ---------------------------------------------------------------------------
  // Line breaks
  // ---------------------------------------------------------------------------

  /**
   * A line ends only at a line break directly after a tag: whitespace before the
   * break is skipped together with the break, so the next line's tags join this line.
   */
  lemma LineBreakAfterTag()
    ensures ParseBlacklistText("fox\nwolf") ==
      Ok([LineToken([TagToken(false, PlainTag, "fox")]), LineToken([TagToken(false, PlainTag, "wolf")])])
    ensures ParseBlacklistText("fox \nwolf") ==
      Ok([LineToken([TagToken(false, PlainTag, "fox"), TagToken(false, PlainTag, "wolf")])])
  {
    TwoLines();
    JoinedLines();
  }

  /** A line break directly under the cursor ends the line. */
  lemma BreakEndsLine(s: string, p: nat, acc: seq<TagToken>, read: TagReader)
    requires p <= |s| && CharAt(s, p, '\n')
    ensures LineFrom(s, p, acc, read) == (Ok(LineToken(acc)), p + 1)
  {
  }

  /**
   * Whitespace that is not itself a line break is skipped together with every
   * whitespace character after it, line breaks included: the line goes on at the
   * next non-whitespace character.
   */
  lemma WhitespaceJoinsLines(s: string, p: nat, acc: seq<TagToken>, read: TagReader)
    requires p < |s| && IsWhitespace(s[p]) && s[p] != '\n'
    requires SkipWhile(s, p, IsWhitespace) < |s|
    ensures LineFrom(s, p, acc, read) == LineFrom(s, SkipWhile(s, p, IsWhitespace), acc, read)
  {
    var q := SkipWhile(s, p, IsWhitespace);
    SkipWhileStops(s, p, IsWhitespace);
    assert SkipWhile(s, q, IsWhitespace) == q;
    assert LineIteration(s, p, read) == LineIteration(s, q, read);
  }

  lemma TwoLines()
    ensures ParseBlacklistText("fox\nwolf") ==
      Ok([LineToken([TagToken(false, PlainTag, "fox")]), LineToken([TagToken(false, PlainTag, "wolf")])])
  {
    var s := "fox\nwolf";
    TrimIdentity(s);
    var l1 := LineToken([TagToken(false, PlainTag, "fox")]);
    var l2 := LineToken([TagToken(false, PlainTag, "wolf")]);
    FoxLine(s);
    WolfLine(s);
    assert SkipWhile(s, 0, IsWhitespace) == 0;
    assert SkipWhile(s, 4, IsWhitespace) == 4;
    assert SkipWhile(s, 8, IsWhitespace) == 8;
    assert [] + [l1] == [l1] && [l1] + [l2] == [l1, l2];
    assert LinesFrom(s, 8, [l1, l2], ReadTag) == Ok([l1, l2]);
    assert LinesFrom(s, 4, [l1], ReadTag) == Ok([l1, l2]);
  }

  /** `fox` read at the start of a text beginning with `fox` and a non-tag character. */
  lemma FoxAtStart(s: string)
    requires |s| > 3 && s[..4] == "fox" + [s[3]] && !ValidTag(s[3]) && s[3] != ':'
    ensures ReadTag(s, 0) == (Ok(TagToken(false, PlainTag, "fox")), 3)
    ensures LineIteration(s, 0, ReadTag) == TokenRead(Ok(TagToken(false, PlainTag, "fox")), 0, 3)
  {
    assert s[0] == 'f' && s[1] == 'o' && s[2] == 'x';
    SkipWhileRun(s, 0, 3, ValidTag);
    assert s[0..3] == "fox";
    ToLowerKeeps("fox");
  }

  lemma FoxLine(s: string)
    requires s == "fox\nwolf"
    ensures LineFrom(s, 0, [], ReadTag) == (Ok(LineToken([TagToken(false, PlainTag, "fox")])), 4)
  {
    FoxAtStart(s);
    assert LineIteration(s, 3, ReadTag) == LineBreak(4);
    assert [] + [TagToken(false, PlainTag, "fox")] == [TagToken(false, PlainTag, "fox")];
  }

  lemma WolfLine(s: string)
    requires s == "fox\nwolf"
    ensures LineFrom(s, 4, [], ReadTag) == (Ok(LineToken([TagToken(false, PlainTag, "wolf")])), 8)
  {
    SkipWhileRun(s, 4, 8, ValidTag);
    assert s[4..8] == "wolf";
    ToLowerKeeps("wolf");
    assert ReadTag(s, 4) == (Ok(TagToken(false, PlainTag, "wolf")), 8);
    assert LineIteration(s, 4, ReadTag) == TokenRead(Ok(TagToken(false, PlainTag, "wolf")), 4, 8);
    assert LineIteration(s, 8, ReadTag) == TextEnd(8);
    assert [] + [TagToken(false, PlainTag, "wolf")] == [TagToken(false, PlainTag, "wolf")];
  }

  lemma JoinedLines()
    ensures ParseBlacklistText("fox \nwolf") ==
      Ok([LineToken([TagToken(false, PlainTag, "fox"), TagToken(false, PlainTag, "wolf")])])
  {
    var s := "fox \nwolf";
    TrimIdentity(s);
    var fox := TagToken(false, PlainTag, "fox");
    var wolf := TagToken(false, PlainTag, "wolf");
    FoxAtStart(s);
    JoinedWolf(s);
    assert [] + [fox] == [fox];
    assert LineFrom(s, 0, [], ReadTag) == (Ok(LineToken([fox, wolf])), 9);
    assert SkipWhile(s, 0, IsWhitespace) == 0;
    assert SkipWhile(s, 9, IsWhitespace) == 9;
    assert [] + [LineToken([fox, wolf])] == [LineToken([fox, wolf])];
  }

  lemma JoinedWolf(s: string)
    requires s == "fox \nwolf"
    ensures LineFrom(s, 3, [TagToken(false, PlainTag, "fox")], ReadTag) ==
      (Ok(LineToken([TagToken(false, PlainTag, "fox"), TagToken(false, PlainTag, "wolf")])), 9)
  {
    var fox := TagToken(false, PlainTag, "fox");
    var wolf := TagToken(false, PlainTag, "wolf");
    SkipWhileRun(s, 3, 5, IsWhitespace);
    SkipWhileRun(s, 5, 9, ValidTag);
    assert s[5..9] == "wolf";
    ToLowerKeeps("wolf");
    assert ReadTag(s, 5) == (Ok(wolf), 9);
    assert LineIteration(s, 3, ReadTag) == TokenRead(Ok(wolf), 5, 9);
    assert LineIteration(s, 9, ReadTag) == TextEnd(9);
    assert [fox] + [wolf] == [fox, wolf];
  }

  // ---------------------------------------------------------------------------
  // The tag loop as the program writes it
  // ---------------------------------------------------------------------------

  /**
   * `parse_line` as written, run for at most `fuel` passes: a tag that consumes no
   * character is pushed and read again from the same position. `None` means the
   * loop had not finished.
   */
  function LineAsWritten(s: string, p: nat, acc: seq<TagToken>, read: TagReader, fuel: nat)
    : (r: Option<(Result<LineToken, BlacklistError>, nat)>)
    requires p <= |s|
    ensures r.Some? ==> p <= r.value.1 <= |s|
    decreases fuel
  {
    if fuel == 0 then None
    else
      match LineIteration(s, p, read)
      case LineBreak(q) => Some((Ok(LineToken(acc)), q))
      case TextEnd(q) => Some((Ok(LineToken(acc)), q))
      case TokenRead(t, start, q) =>
        if t.Err? then Some((Err(t.error), q))
        else LineAsWritten(s, q, acc + [t.value], read, fuel - 1)
  }

  /** A pass that starts on the first character of a tag does what the pass that skipped up to it did. */
  lemma RepeatedPass(s: string, p: nat, read: TagReader)
    requires p <= |s|
    requires LineIteration(s, p, read).TokenRead?
    ensures var step := LineIteration(s, p, read); LineIteration(s, step.start, read) == step
  {
    var q := SkipWhile(s, p, IsWhitespace);
    SkipWhileStops(s, p, IsWhitespace);
    assert SkipWhile(s, q, IsWhitespace) == q;
  }

  /** Once a tag makes no progress, the loop as written never finishes, however long it runs. */
  lemma {:induction false} StuckForever(s: string, p: nat, acc: seq<TagToken>, read: TagReader, fuel: nat)
    requires p <= |s|
    requires var step := LineIteration(s, p, read); step.TokenRead? && step.token.Ok? && step.start == p && step.next == p
    ensures LineAsWritten(s, p, acc, read, fuel) == None
    decreases fuel
  {
    if fuel > 0 {
      var step := LineIteration(s, p, read);
      StuckForever(s, p, acc + [step.token.value], read, fuel - 1);
    }
  }

  /** Where the loop as written finishes, the model's loop gives the same line and end position. */
  lemma {:induction false} AsWrittenAgrees(s: string, p: nat, acc: seq<TagToken>, read: TagReader, fuel: nat)
    requires p <= |s|
    requires LineAsWritten(s, p, acc, read, fuel).Some?
    ensures LineAsWritten(s, p, acc, read, fuel).value == LineFrom(s, p, acc, read)
    decreases fuel
  {
    match LineIteration(s, p, read)
    case LineBreak(_) =>
    case TextEnd(_) =>
    case TokenRead(t, start, q) =>
      if t.Ok? {
        if q == start {
          RepeatedPass(s, p, read);
          StuckForever(s, start, acc + [t.value], read, fuel - 1);
          assert false;
        }
        AsWrittenAgrees(s, q, acc + [t.value], read, fuel - 1);
      }
  }

  /** A reader that reports no `Stuck` error of its own. */
  ghost predicate NeverStuck(read: TagReader)
  {
    forall s: string, p: nat :: p <= |s| && read(s, p).0.Err? ==> !read(s, p).0.error.Stuck?
  }

  lemma ReadTagNeverStuck()
    ensures NeverStuck(ReadTag)
  {
  }

  /** Where the model reports `Stuck`, the loop as written never finishes. */
  lemma {:induction false} StuckDiverges(s: string, p: nat, acc: seq<TagToken>, read: TagReader, fuel: nat)
    requires p <= |s| && NeverStuck(read)
    requires var r := LineFrom(s, p, acc, read).0; r.Err? && r.error.Stuck?
    ensures LineAsWritten(s, p, acc, read, fuel) == None
    decreases |s| - p
  {
    if fuel > 0 {
      match LineIteration(s, p, read)
      case LineBreak(_) =>
      case TextEnd(_) =>
      case TokenRead(t, start, q) =>
        if q == start {
          RepeatedPass(s, p, read);
          StuckForever(s, start, acc + [t.value], read, fuel - 1);
        } else {
          StuckDiverges(s, q, acc + [t.value], read, fuel - 1);
        }
    }
  }

  /** Where the model does not report `Stuck`, the loop as written finishes within one pass per character, with the same result. */
  lemma {:induction false} AsWrittenFinishes(s: string, p: nat, acc: seq<TagToken>, read: TagReader)
    requires p <= |s|
    requires var r := LineFrom(s, p, acc, read).0; !(r.Err? && r.error.Stuck?)
    ensures LineAsWritten(s, p, acc, read, |s| - p + 1) == Some(LineFrom(s, p, acc, read))
    decreases |s| - p
  {
    var step := LineIteration(s, p, read);
    if step.TokenRead? && step.token.Ok? {
      var q := step.next;
      var acc' := acc + [step.token.value];
      assert q != step.start;
      assert LineFrom(s, p, acc, read) == LineFrom(s, q, acc', read);
      assert LineAsWritten(s, p, acc, read, |s| - p + 1) == LineAsWritten(s, q, acc', read, |s| - p);
      AsWrittenFinishes(s, q, acc', read);
      MoreFuel(s, q, acc', read, |s| - q + 1, |s| - p);
    }
  }

  /** A loop that has finished within some number of passes finishes the same way with more. */
  lemma {:induction false} MoreFuel(s: string, p: nat, acc: seq<TagToken>, read: TagReader, fuel: nat, more: nat)
    requires p <= |s| && fuel <= more
    requires LineAsWritten(s, p, acc, read, fuel).Some?
    ensures LineAsWritten(s, p, acc, read, more) == LineAsWritten(s, p, acc, read, fuel)
    decreases fuel
  {
    var step := LineIteration(s, p, read);
    if step.TokenRead? && step.token.Ok? {
      MoreFuel(s, step.next, acc + [step.token.value], read, fuel - 1, more - 1);
    }
  }

  /**
   * A symbol that is neither whitespace nor a tag character, such as a heart: no rule
   * consumes it, so the program pushes empty tags for ever; the model reports `Stuck`.
   */
  lemma SymbolNeverEnds(fuel: nat)
    ensures LineAsWritten("fox \U{2665}", 0, [], ReadTag, fuel) == None
    ensures ParseBlacklistText("fox \U{2665}") == Err(Stuck(4))
  {
    var s := "fox \U{2665}";
    TrimIdentity(s);
    FoxAtStart(s);
    SkipWhileRun(s, 3, 4, IsWhitespace);
    SkipWhileRun(s, 4, 4, ValidTag);
    assert s[4..4] == "" && ToLower("") == "";
    assert ReadTag(s, 4) == (Ok(TagToken(false, PlainTag, "")), 4);
    assert LineIteration(s, 3, ReadTag) == TokenRead(Ok(TagToken(false, PlainTag, "")), 4, 4);
    assert LineFrom(s, 3, [TagToken(false, PlainTag, "fox")], ReadTag) == (Err(Stuck(4)), 4);
    assert LineFrom(s, 0, [], ReadTag) == (Err(Stuck(4)), 4);
    ReadTagNeverStuck();
    StuckDiverges(s, 0, [], ReadTag, fuel);
  }
}
