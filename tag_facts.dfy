/**
 * What a successful parse of the tag file guarantees, and how the entry loop of
 * the program relates to the terminating loop of the model.
 */
module TagFileFacts {
  import opened Wrappers
  import opened Text
  import TagTypes
  import opened BaseParsing
  import opened TagFile

  // ---------------------------------------------------------------------------
  // Shape of a parsed tag file
  // ---------------------------------------------------------------------------

  /**
   * An entry of group `group`: in `artists`/`general` an identified tag (artist or
   * general, never of search type None); in `pools`/`sets`/`single-post` a run of
   * digits of the group's type, searched specially. No entry belongs to any other group.
   */
  predicate WellFormedTag(group: string, t: Tag)
  {
    if IsTextGroup(group) then
      t.searchType != TagTypes.TagSearchType.None
      && (t.tagType == TagTypes.TagType.General || t.tagType == TagTypes.TagType.Artist)
    else
      IdTagType(group) == Some(t.tagType) && t.searchType == TagTypes.TagSearchType.Special && AllDigits(t.name)
  }

  /** A group whose name is made of group characters and whose entries all fit the group. */
  predicate WellFormedGroup(g: Group)
  {
    (forall i :: 0 <= i < |g.name| ==> ValidGroup(g.name[i]))
    && (forall k :: 0 <= k < |g.tags| ==> WellFormedTag(g.name, g.tags[k]))
  }

  /**
   * What the grammar needs of an identified entry: a tag is an artist or general tag of
   * a real search type, and a failure is an unknown tag or category.
   */
  predicate SoundIdentification(r: Result<Tag, TagFileError>)
  {
    (r.Ok? ==> r.value.searchType != TagTypes.TagSearchType.None
               && (r.value.tagType == TagTypes.TagType.General || r.value.tagType == TagTypes.TagType.Artist))
    && (r.Err? ==> r.error.TagNotFound? || r.error.UnexpectedCategory?)
  }

  ghost predicate IdentifiesSoundly(identify: Identifier)
  {
    forall line :: SoundIdentification(identify(line))
  }

  /** The program's identifier is sound, whatever the API answers. */
  lemma IdentifySound(lk: TagLookup)
    ensures IdentifiesSoundly(Identify(lk))
  {
    forall entry ensures SoundIdentification(Identify(lk)(entry)) {
      var line := Trim(entry);
      SearchTokensShape(line, Split(line, ' '), lk);
    }
  }

  /** Every entry `parse_tag` reads successfully fits its group. */
  lemma TagAtWellFormed(s: string, p: nat, group: string, identify: Identifier)
    requires p <= |s| && IdentifiesSoundly(identify)
    ensures var (t, _) := TagAt(s, p, group, identify);
      (t.Ok? ==> WellFormedTag(group, t.value)) && (t.Err? ==> !t.error.Stuck?)
  {
    if IsTextGroup(group) {
      var q := SkipWhile(s, p, ValidTag);
      assert TagAt(s, p, group, identify).0 == identify(s[p..q]);
    } else {
      var q := SkipWhile(s, p, ValidId);
      forall i | 0 <= i < q - p ensures IsAsciiDigit(s[p..q][i]) {
        SkipWhilePasses(s, p, ValidId, p + i);
      }
    }
  }

  /**
   * The entries of a group: those already read stay in front, in order, every entry
   * fits the group, and a group that parses ends at the next `[` or at the end.
   */
  lemma {:induction false} TagsFromWellFormed(s: string, p: nat, group: string, identify: Identifier, acc: seq<Tag>)
    requires p <= |s| && IdentifiesSoundly(identify)
    requires forall k :: 0 <= k < |acc| ==> WellFormedTag(group, acc[k])
    ensures var (r, e) := TagsFrom(s, p, group, identify, acc);
      r.Ok? ==>
        |acc| <= |r.value| && r.value[..|acc|] == acc
        && (forall k :: 0 <= k < |r.value| ==> WellFormedTag(group, r.value[k]))
        && (e == |s| || s[e] == '[')
    decreases |s| - p
  {
    match TagLoopIteration(s, p, group, identify)
    case CommentSkipped(q) =>
      TagsFromWellFormed(s, q, group, identify, acc);
    case EndOfGroup(q) =>
    case TagRead(t, start, q) =>
      TagAtWellFormed(s, start, group, identify);
      if t.Ok? && q != start {
        var acc' := acc + [t.value];
        TagsFromWellFormed(s, q, group, identify, acc');
        var r := TagsFrom(s, q, group, identify, acc').0;
        if r.Ok? {
          assert r.value[..|acc|] == acc'[..|acc|];
        }
      }
  }

  /** A group that parses is well formed, and the next group (if any) starts right after it. */
  lemma GroupAtWellFormed(s: string, p: nat, identify: Identifier)
    requires p < |s| && s[p] == '[' && IdentifiesSoundly(identify)
    ensures var (g, e) := GroupAt(s, p, identify);
      g.Ok? ==> WellFormedGroup(g.value) && (e == |s| || s[e] == '[')
  {
    var e := SkipWhile(s, p + 1, ValidGroup);
    if e < |s| && s[e] == ']' {
      var (tags, end) := TagsFrom(s, e + 1, s[p + 1..e], identify, []);
      GroupAtClosed(s, p, identify, e, tags, end);
      ClosedGroupWellFormed(s, p, identify, e, tags, end);
    } else {
      GroupAtCases(s, p, identify, e);
    }
  }

  lemma ClosedGroupWellFormed(s: string, p: nat, identify: Identifier, e: nat, tags: Result<seq<Tag>, TagFileError>, end: nat)
    requires p < |s| && IdentifiesSoundly(identify)
    requires e == SkipWhile(s, p + 1, ValidGroup) && e < |s|
    requires (tags, end) == TagsFrom(s, e + 1, s[p + 1..e], identify, [])
    ensures tags.Ok? ==> WellFormedGroup(Group(s[p + 1..e], tags.value)) && (end == |s| || s[end] == '[')
  {
    GroupNameChars(s, p + 1, e);
    TagsFromWellFormed(s, e + 1, s[p + 1..e], identify, []);
  }

  lemma GroupNameChars(s: string, p: nat, e: nat)
    requires p <= |s| && e == SkipWhile(s, p, ValidGroup)
    ensures forall i :: 0 <= i < e - p ==> ValidGroup(s[p..e][i])
  {
    forall i | 0 <= i < e - p ensures ValidGroup(s[p..e][i]) {
      SkipWhilePasses(s, p, ValidGroup, p + i);
    }
  }

  /** Groups already read stay in front, in file order, and every group is well formed. */
  lemma {:induction false} GroupsFromWellFormed(s: string, p: nat, identify: Identifier, acc: seq<Group>)
    requires p <= |s| && IdentifiesSoundly(identify)
    requires forall k :: 0 <= k < |acc| ==> WellFormedGroup(acc[k])
    ensures var r := GroupsFrom(s, p, identify, acc);
      r.Ok? ==>
        |acc| <= |r.value| && r.value[..|acc|] == acc
        && forall k :: 0 <= k < |r.value| ==> WellFormedGroup(r.value[k])
    decreases |s| - p
  {
    var q := SkipWhile(s, p, IsWhitespace);
    if q >= |s| {
    } else if CharAt(s, q, '#') {
      GroupsFromWellFormed(s, SkipWhile(s, q, ValidComment), identify, acc);
    } else if CharAt(s, q, '[') {
      var (g, e) := GroupAt(s, q, identify);
      GroupAtWellFormed(s, q, identify);
      if g.Ok? {
        var acc' := acc + [g.value];
        GroupsFromWellFormed(s, e, identify, acc');
        var r := GroupsFrom(s, e, identify, acc');
        if r.Ok? {
          assert r.value[..|acc|] == acc'[..|acc|];
        }
      }
    }
  }

  /** Every group of a tag file that parses is well formed. */
  lemma ParseTagFileWellFormed(text: string, lk: TagLookup)
    ensures var r := ParseTagFile(text, lk);
      r.Ok? ==> forall k :: 0 <= k < |r.value| ==> WellFormedGroup(r.value[k])
  {
    IdentifySound(lk);
    GroupsFromWellFormed(Trim(text), 0, Identify(lk), []);
  }

  /** Text before the first group that is not a comment is rejected with "Tags must be in groups!". */
  lemma TextOutsideGroupsFails(text: string, lk: TagLookup)
    requires var s := Trim(text); s != [] && s[0] != '#' && s[0] != '['
    ensures ParseTagFile(text, lk) == Err(Syntax(ParseError("Tags must be in groups!", 0, 0)))
  {
    OutsideGroupsAt(Trim(text), Identify(lk));
  }

  lemma OutsideGroupsAt(s: string, identify: Identifier)
    requires s != [] && !IsWhitespace(s[0]) && s[0] != '#' && s[0] != '['
    ensures GroupsFrom(s, 0, identify, []) == Err(Syntax(ParseError("Tags must be in groups!", 0, 0)))
  {
    assert SkipWhile(s, 0, IsWhitespace) == 0;
    assert !CharAt(s, 0, '#') && !CharAt(s, 0, '[');
  }

  // ---------------------------------------------------------------------------
  // The entry loop as the program writes it
  // ---------------------------------------------------------------------------

  /**
   * The `parse_tags` loop exactly as written, run for at most `fuel` passes: an entry
   * that consumes nothing is pushed and the loop goes round again from the same place.
   * `None` means the loop has not finished within `fuel` passes.
   */
  function TagsAsWritten(s: string, p: nat, group: string, identify: Identifier, acc: seq<Tag>, fuel: nat)
    : (r: Option<(Result<seq<Tag>, TagFileError>, nat)>)
    requires p <= |s|
    ensures r.Some? ==> p <= r.value.1 <= |s|
    decreases fuel
  {
    if fuel == 0 then None
    else
      match TagLoopIteration(s, p, group, identify)
      case CommentSkipped(q) => TagsAsWritten(s, q, group, identify, acc, fuel - 1)
      case EndOfGroup(q) => Some((Ok(acc), q))
      case TagRead(t, start, q) =>
        if t.Err? then Some((Err(t.error), q))
        else TagsAsWritten(s, q, group, identify, acc + [t.value], fuel - 1)
  }

  /** A pass that starts on a non-whitespace character does exactly what a pass that skipped up to it does. */
  lemma RepeatedPass(s: string, p: nat, group: string, identify: Identifier)
    requires p <= |s|
    requires TagLoopIteration(s, p, group, identify).TagRead?
    ensures var step := TagLoopIteration(s, p, group, identify);
      TagLoopIteration(s, step.start, group, identify) == step
  {
    var q := SkipWhile(s, p, IsWhitespace);
    SkipWhileStops(s, p, IsWhitespace);
    assert SkipWhile(s, q, IsWhitespace) == q;
  }

  /** Once an entry makes no progress, the loop as written never finishes, however long it runs. */
  lemma {:induction false} StuckForever(s: string, p: nat, group: string, identify: Identifier, acc: seq<Tag>, fuel: nat)
    requires p <= |s|
    requires var step := TagLoopIteration(s, p, group, identify);
      step.TagRead? && step.tag.Ok? && step.start == p && step.next == p
    ensures TagsAsWritten(s, p, group, identify, acc, fuel) == None
    decreases fuel
  {
    if fuel > 0 {
      var step := TagLoopIteration(s, p, group, identify);
      StuckForever(s, p, group, identify, acc + [step.tag.value], fuel - 1);
    }
  }

  /** Where the loop as written finishes, the model's loop gives the same entries and the same end position. */
  lemma {:induction false} AsWrittenAgrees(s: string, p: nat, group: string, identify: Identifier, acc: seq<Tag>, fuel: nat)
    requires p <= |s| && IdentifiesSoundly(identify)
    requires TagsAsWritten(s, p, group, identify, acc, fuel).Some?
    ensures TagsAsWritten(s, p, group, identify, acc, fuel).value == TagsFrom(s, p, group, identify, acc)
    decreases fuel
  {
    match TagLoopIteration(s, p, group, identify)
    case CommentSkipped(q) =>
      AsWrittenAgrees(s, q, group, identify, acc, fuel - 1);
    case EndOfGroup(q) =>
    case TagRead(t, start, q) =>
      if t.Ok? {
        if q == start {
          RepeatedPass(s, p, group, identify);
          StuckForever(s, start, group, identify, acc + [t.value], fuel - 1);
          assert false;
        }
        AsWrittenAgrees(s, q, group, identify, acc + [t.value], fuel - 1);
      }
  }

  /** Where the model reports `Stuck`, the loop as written never finishes. */
  lemma {:induction false} StuckDiverges(s: string, p: nat, group: string, identify: Identifier, acc: seq<Tag>, fuel: nat)
    requires p <= |s| && IdentifiesSoundly(identify)
    requires var r := TagsFrom(s, p, group, identify, acc).0; r.Err? && r.error.Stuck?
    ensures TagsAsWritten(s, p, group, identify, acc, fuel) == None
    decreases |s| - p
  {
    if fuel > 0 {
      match TagLoopIteration(s, p, group, identify)
      case CommentSkipped(q) =>
        StuckDiverges(s, q, group, identify, acc, fuel - 1);
      case EndOfGroup(q) =>
      case TagRead(t, start, q) =>
        if q == start {
          RepeatedPass(s, p, group, identify);
          StuckForever(s, start, group, identify, acc + [t.value], fuel - 1);
        } else {
          StuckDiverges(s, q, group, identify, acc + [t.value], fuel - 1);
        }
    }
  }

  /** Where the model does not report `Stuck`, the loop as written finishes within one pass per character, with the same result. */
  lemma {:induction false} AsWrittenFinishes(s: string, p: nat, group: string, identify: Identifier, acc: seq<Tag>)
    requires p <= |s| && IdentifiesSoundly(identify)
    requires var r := TagsFrom(s, p, group, identify, acc).0; !(r.Err? && r.error.Stuck?)
    ensures TagsAsWritten(s, p, group, identify, acc, |s| - p + 1) == Some(TagsFrom(s, p, group, identify, acc))
    decreases |s| - p, 1
  {
    var step := TagLoopIteration(s, p, group, identify);
    if step.CommentSkipped? || (step.TagRead? && step.tag.Ok?) {
      FinishesAfterStep(s, p, group, identify, acc);
    } else if step.EndOfGroup? {
      assert TagsFrom(s, p, group, identify, acc) == (Ok(acc), step.next);
    } else {
      assert TagsFrom(s, p, group, identify, acc) == (Err(step.tag.error), step.next);
    }
  }

  lemma {:induction false} FinishesAfterStep(s: string, p: nat, group: string, identify: Identifier, acc: seq<Tag>)
    requires p <= |s| && IdentifiesSoundly(identify)
    requires var r := TagsFrom(s, p, group, identify, acc).0; !(r.Err? && r.error.Stuck?)
    requires var step := TagLoopIteration(s, p, group, identify);
      step.CommentSkipped? || (step.TagRead? && step.tag.Ok?)
    ensures TagsAsWritten(s, p, group, identify, acc, |s| - p + 1) == Some(TagsFrom(s, p, group, identify, acc))
    decreases |s| - p, 0
  {
    var step := TagLoopIteration(s, p, group, identify);
    var fuel := |s| - p + 1;
    var q := step.next;
    var acc' := if step.CommentSkipped? then acc else acc + [step.tag.value];
    assert step.TagRead? ==> q != step.start;
    assert TagsFrom(s, p, group, identify, acc) == TagsFrom(s, q, group, identify, acc');
    assert TagsAsWritten(s, p, group, identify, acc, fuel) == TagsAsWritten(s, q, group, identify, acc', fuel - 1);
    AsWrittenFinishes(s, q, group, identify, acc');
    MoreFuel(s, q, group, identify, acc', |s| - q + 1, fuel - 1);
  }

  /** A loop that has finished within some number of passes finishes the same way with more. */
  lemma {:induction false} MoreFuel(s: string, p: nat, group: string, identify: Identifier, acc: seq<Tag>, fuel: nat, more: nat)
    requires p <= |s| && fuel <= more
    requires TagsAsWritten(s, p, group, identify, acc, fuel).Some?
    ensures TagsAsWritten(s, p, group, identify, acc, more) == TagsAsWritten(s, p, group, identify, acc, fuel)
    decreases fuel
  {
    var step := TagLoopIteration(s, p, group, identify);
    if step.CommentSkipped? {
      MoreFuel(s, step.next, group, identify, acc, fuel - 1, more - 1);
    } else if step.TagRead? && step.tag.Ok? {
      MoreFuel(s, step.next, group, identify, acc + [step.tag.value], fuel - 1, more - 1);
    }
  }

  /**
   * A letter in a `pools` group: the id reader takes no character, so the program
   * pushes empty ids for ever; the model reports `Stuck` at the letter.
   */
  lemma PoolsLetterNeverEnds(lk: TagLookup, fuel: nat)
    ensures TagsAsWritten("[pools]\nabc", 7, "pools", Identify(lk), [], fuel) == None
    ensures ParseTagFile("[pools]\nabc", lk) == Err(Stuck(8))
  {
    PoolsTextTrimmed();
    IdentifySound(lk);
    PoolsLetterAt(Identify(lk), fuel);
  }

  lemma PoolsTextTrimmed()
    ensures Trim("[pools]\nabc") == "[pools]\nabc"
  {
    TrimIdentity("[pools]\nabc");
  }

  lemma PoolsLetterAt(identify: Identifier, fuel: nat)
    requires IdentifiesSoundly(identify)
    ensures TagsAsWritten("[pools]\nabc", 7, "pools", identify, [], fuel) == None
    ensures GroupsFrom("[pools]\nabc", 0, identify, []) == Err(Stuck(8))
  {
    var s := "[pools]\nabc";
    PoolsEntryStuck(identify);
    StuckDiverges(s, 7, "pools", identify, [], fuel);
    PoolsGroupStuck(identify);
    assert SkipWhile(s, 0, IsWhitespace) == 0 && CharAt(s, 0, '[') && !CharAt(s, 0, '#');
  }

  lemma PoolsGroupStuck(identify: Identifier)
    requires IdentifiesSoundly(identify)
    ensures GroupAt("[pools]\nabc", 0, identify) == (Err(Stuck(8)), 8)
  {
    var s := "[pools]\nabc";
    PoolsEntryStuck(identify);
    assert SkipWhile(s, 1, ValidGroup) == 6 && s[6] == ']' && s[1..6] == "pools";
    GroupAtCases(s, 0, identify, 6);
  }

  /** In `[pools]` the letters after the line break are not an id, so the entry read there is empty. */
  lemma PoolsEntryStuck(identify: Identifier)
    requires IdentifiesSoundly(identify)
    ensures TagsFrom("[pools]\nabc", 7, "pools", identify, []) == (Err(Stuck(8)), 8)
  {
    var s := "[pools]\nabc";
    assert SkipWhile(s, 7, IsWhitespace) == 8 by {
      assert IsWhitespace(s[7]) && !IsWhitespace(s[8]);
    }
    assert SkipWhile(s, 8, ValidId) == 8;
    assert !CharAt(s, 8, '#') && !CharAt(s, 8, '[');
    assert !IsTextGroup("pools") && IdTagType("pools") == Some(TagTypes.TagType.Pool) && s[8..8] == "";
    assert TagAt(s, 8, "pools", identify) == (Ok(Tag("", TagTypes.TagSearchType.Special, TagTypes.TagType.Pool)), 8);
    assert TagLoopIteration(s, 7, "pools", identify) == TagRead(Ok(Tag("", TagTypes.TagSearchType.Special, TagTypes.TagType.Pool)), 8, 8);
  }
}
