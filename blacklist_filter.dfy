/**
 * Applying the blacklist to posts. For each line, a fresh flag worker counts the
 * line's tags (the margin), then raises one flag per tag the post matches; the post
 * is flagged when every ordinary tag matched, unless the line has negated tags and
 * all of them matched too. Every line removes the posts it flags, in turn.
 */
module BlacklistFilter {
  import opened Wrappers
  import opened Text
  import opened BlacklistParsing
  import opened BlacklistFacts
  import Entries

  // ---------------------------------------------------------------------------
  // What a tag matches
  // ---------------------------------------------------------------------------

  /** `flag_rating`: the post's rating code is the rating's letter. */
  predicate RatingMatches(r: Rating, postRating: string)
  {
    (r == Safe && postRating == "s") || (r == Questionable && postRating == "q") || (r == Explicit && postRating == "e")
  }

  /** `flag_score`: below the bound for `<`, at least the bound for `>=`; an `Equal` ordering never matches. */
  predicate ScoreMatches(o: Ordering, bound: int, postScore: int)
  {
    match o
    case Less => postScore < bound
    case Greater => postScore >= bound
    case Equal => false
  }

  /** The user id a `user:` tag carries in its name once the users have been cached. */
  function UserIdOf(t: TagToken): Option<int>
  {
    ParseInt(t.name, I64Min, I64Max)
  }

  /** Whether `check_post` raises a flag for tag `t` on `post`. */
  predicate TokenMatches(t: TagToken, post: Entries.PostEntry)
  {
    match t.tagType
    case RatingTag(r) => RatingMatches(r, post.rating)
    case IdTag(id) => id.Some? && id.value == post.id
    case UserTag(_) => UserIdOf(t).Some? && UserIdOf(t).value == post.uploaderId
    case ScoreTag(o, bound) => ScoreMatches(o, bound, post.score.total)
    case PlainTag => t.name in Entries.CombineTags(post.tags)
  }

  /** A rating tag matches exactly the posts whose code is its rating's letter. */
  lemma RatingMatchesLetter(r: Rating, postRating: string)
    ensures RatingMatches(r, postRating) <==> r != NoRating && postRating == RatingLetter(r)
  {
  }

  // ---------------------------------------------------------------------------
  // Counts over a line, written over prefixes as the loops walk them
  // ---------------------------------------------------------------------------

  /** `set_flag_margin`'s count of tags that are not negated. */
  function Margin(tags: seq<TagToken>): nat
  {
    if tags == [] then 0
    else Margin(tags[..|tags| - 1]) + (if !tags[|tags| - 1].negated then 1 else 0)
  }

  /** `set_flag_margin`'s count of negated tags; negated score tags are skipped. */
  function NegatedMargin(tags: seq<TagToken>): nat
  {
    if tags == [] then 0
    else
      var t := tags[|tags| - 1];
      NegatedMargin(tags[..|tags| - 1]) + (if t.negated && !t.tagType.ScoreTag? then 1 else 0)
  }

  /** The flags `check_post` raises on `post` for the tags negated (or not) as `negated` says. */
  function Raised(tags: seq<TagToken>, post: Entries.PostEntry, negated: bool): nat
  {
    if tags == [] then 0
    else
      var t := tags[|tags| - 1];
      Raised(tags[..|tags| - 1], post, negated) + (if t.negated == negated && TokenMatches(t, post) then 1 else 0)
  }

  /** The name of the first `user:` tag whose name does not read as an id, where `check_post` panics. */
  function FirstUnparsedUser(tags: seq<TagToken>): Option<string>
  {
    if tags == [] then None
    else
      match FirstUnparsedUser(tags[..|tags| - 1])
      case Some(name) => Some(name)
      case None =>
        var t := tags[|tags| - 1];
        if t.tagType.UserTag? && UserIdOf(t).None? then Some(t.name) else None
  }

  /** `is_negated_margin_met`, `is_margin_met` and the choice `check_post` makes, for a fresh worker. */
  predicate LineFlags(tags: seq<TagToken>, post: Entries.PostEntry)
  {
    !(NegatedMargin(tags) != 0 && Raised(tags, post, true) == NegatedMargin(tags))
    && Raised(tags, post, false) == Margin(tags)
  }

  /** The verdict of one line on one post, or the panic of a user tag that is no id. */
  function CheckLine(line: LineToken, post: Entries.PostEntry): Result<bool, BlacklistError>
  {
    match FirstUnparsedUser(line.tags)
    case Some(name) => Err(UserIdNotNumber(name))
    case None => Ok(LineFlags(line.tags, post))
  }

  // ---------------------------------------------------------------------------
  // What the counts mean
  // ---------------------------------------------------------------------------

  /**
   * The flags raised by the tags that are not negated reach the margin exactly when
   * every such tag matches the post.
   */
  lemma {:induction false} MarginMetIffAllMatch(tags: seq<TagToken>, post: Entries.PostEntry)
    ensures Raised(tags, post, false) <= Margin(tags)
    ensures Raised(tags, post, false) == Margin(tags) <==>
      forall i :: 0 <= i < |tags| && !tags[i].negated ==> TokenMatches(tags[i], post)
  {
    if tags != [] {
      var init := tags[..|tags| - 1];
      MarginMetIffAllMatch(init, post);
      assert forall i :: 0 <= i < |init| ==> init[i] == tags[i];
    }
  }

  /**
   * On a line without negated score tags, the negated flags reach the negated margin
   * exactly when every negated tag matches the post.
   */
  lemma {:induction false} NegatedMetIffAllMatch(tags: seq<TagToken>, post: Entries.PostEntry)
    requires forall i :: 0 <= i < |tags| && tags[i].negated ==> !tags[i].tagType.ScoreTag?
    ensures Raised(tags, post, true) <= NegatedMargin(tags)
    ensures Raised(tags, post, true) == NegatedMargin(tags) <==>
      forall i :: 0 <= i < |tags| && tags[i].negated ==> TokenMatches(tags[i], post)
  {
    if tags != [] {
      var init := tags[..|tags| - 1];
      assert forall i :: 0 <= i < |init| ==> init[i] == tags[i];
      NegatedMetIffAllMatch(init, post);
    }
  }

  /** The negated margin is zero exactly when the line has no negated tag other than score tags. */
  lemma {:induction false} NegatedMarginZero(tags: seq<TagToken>)
    ensures NegatedMargin(tags) == 0 <==>
      forall i :: 0 <= i < |tags| && tags[i].negated ==> tags[i].tagType.ScoreTag?
  {
    if tags != [] {
      var init := tags[..|tags| - 1];
      assert forall i :: 0 <= i < |init| ==> init[i] == tags[i];
      NegatedMarginZero(init);
    }
  }

  /**
   * What a line means when it has no negated score tag: the post is flagged when
   * every ordinary tag matches it, unless the line has negated tags and every one of
   * them matches it as well.
   */
  lemma LineFlagsMeaning(tags: seq<TagToken>, post: Entries.PostEntry)
    requires forall i :: 0 <= i < |tags| && tags[i].negated ==> !tags[i].tagType.ScoreTag?
    ensures LineFlags(tags, post) <==>
      (forall i :: 0 <= i < |tags| && !tags[i].negated ==> TokenMatches(tags[i], post))
      && !((exists i :: 0 <= i < |tags| && tags[i].negated)
           && forall i :: 0 <= i < |tags| && tags[i].negated ==> TokenMatches(tags[i], post))
  {
    MarginMetIffAllMatch(tags, post);
    NegatedMetIffAllMatch(tags, post);
    NegatedMarginZero(tags);
  }

  /**
   * A negated score tag does not count towards the negated margin but still raises a
   * negated flag: on `fox -score:<10 -rating:s` a `fox` post rated `e` with score 5
   * passes, although its rating is not the excepted one.
   */
  lemma NegatedScoreQuirk(post: Entries.PostEntry)
    requires "fox" in post.tags.general && post.rating == "e" && post.score.total == 5
    ensures !LineFlags([TagToken(false, PlainTag, "fox"), TagToken(true, ScoreTag(Less, 10), "score"),
                        TagToken(true, RatingTag(Safe), "rating")], post)
  {
    var tags := [TagToken(false, PlainTag, "fox"), TagToken(true, ScoreTag(Less, 10), "score"),
                 TagToken(true, RatingTag(Safe), "rating")];
    assert tags[..2] == [tags[0], tags[1]] && [tags[0], tags[1]][..1] == [tags[0]] && [tags[0]][..0] == [];
    assert "fox" in Entries.CombineTags(post.tags);
    assert Raised([tags[0]], post, false) == 1 && Raised([tags[0]], post, true) == 0;
    assert Raised(tags, post, false) == 1 && Raised(tags, post, true) == 1;
    assert NegatedMargin([tags[0]]) == 0 && NegatedMargin([tags[0], tags[1]]) == 0;
    assert NegatedMargin(tags) == 1;
  }

  // ---------------------------------------------------------------------------
  // The flag worker
  // ---------------------------------------------------------------------------

  /** The per-line, per-post counters of `filter_posts`. */
  class FlagWorker {
    var flags: int
    var negatedFlags: int
    var margin: int
    var negatedMargin: int
    var flagged: bool

    constructor ()
      ensures flags == 0 && negatedFlags == 0 && margin == 0 && negatedMargin == 0 && !flagged
    {
      flags := 0;
      negatedFlags := 0;
      margin := 0;
      negatedMargin := 0;
      flagged := false;
    }

    /** The counters after `raise_flag(negated)` when `hit`, unchanged otherwise. */
    ghost predicate RaisedFrom(flags0: int, negatedFlags0: int, margin0: int, negatedMargin0: int, flagged0: bool,
                               negated: bool, hit: bool)
      reads this
    {
      flags == flags0 + (if hit && !negated then 1 else 0)
      && negatedFlags == negatedFlags0 + (if hit && negated then 1 else 0)
      && margin == margin0 && negatedMargin == negatedMargin0 && flagged == flagged0
    }

    method SetFlagMargin(tags: seq<TagToken>)
      modifies this
      ensures margin == old(margin) + Margin(tags) && negatedMargin == old(negatedMargin) + NegatedMargin(tags)
      ensures flags == old(flags) && negatedFlags == old(negatedFlags) && flagged == old(flagged)
    {
      for i := 0 to |tags|
        invariant margin == old(margin) + Margin(tags[..i])
        invariant negatedMargin == old(negatedMargin) + NegatedMargin(tags[..i])
        invariant flags == old(flags) && negatedFlags == old(negatedFlags) && flagged == old(flagged)
      {
        assert tags[..i + 1][..i] == tags[..i];
        if tags[i].negated {
          if tags[i].tagType.ScoreTag? {
            continue;
          }
          negatedMargin := negatedMargin + 1;
        } else {
          margin := margin + 1;
        }
      }
      assert tags[..|tags|] == tags;
    }

    method RaiseFlag(negated: bool)
      modifies this
      ensures RaisedFrom(old(flags), old(negatedFlags), old(margin), old(negatedMargin), old(flagged), negated, true)
    {
      if negated {
        negatedFlags := negatedFlags + 1;
      } else {
        flags := flags + 1;
      }
    }

    method FlagRating(rating: Rating, post: Entries.PostEntry, negated: bool)
      modifies this
      ensures RaisedFrom(old(flags), old(negatedFlags), old(margin), old(negatedMargin), old(flagged),
                         negated, RatingMatches(rating, post.rating))
    {
      if (rating, post.rating) == (Safe, "s") || (rating, post.rating) == (Questionable, "q")
         || (rating, post.rating) == (Explicit, "e") {
        RaiseFlag(negated);
      }
    }

    method FlagId(id: int, postId: int, negated: bool)
      modifies this
      ensures RaisedFrom(old(flags), old(negatedFlags), old(margin), old(negatedMargin), old(flagged),
                         negated, postId == id)
    {
      if postId == id {
        RaiseFlag(negated);
      }
    }

    method FlagUser(userId: int, uploaderId: int, negated: bool)
      modifies this
      ensures RaisedFrom(old(flags), old(negatedFlags), old(margin), old(negatedMargin), old(flagged),
                         negated, userId == uploaderId)
    {
      if userId == uploaderId {
        RaiseFlag(negated);
      }
    }

    method FlagScore(ordering: Ordering, score: int, postScore: int, negated: bool)
      modifies this
      ensures RaisedFrom(old(flags), old(negatedFlags), old(margin), old(negatedMargin), old(flagged),
                         negated, ScoreMatches(ordering, score, postScore))
    {
      match ordering
      case Less =>
        if postScore < score {
          RaiseFlag(negated);
        }
      case Greater =>
        if postScore >= score {
          RaiseFlag(negated);
        }
      case Equal =>
    }

    /**
     * Raises the flags of every tag of the line on the post, then decides: a met
     * negated margin clears the flag, a met margin sets it. A `user:` tag whose name
     * is not an id stops the program.
     */
    method CheckPost(post: Entries.PostEntry, line: LineToken) returns (failure: Option<BlacklistError>)
      modifies this
      ensures failure.None? <==> FirstUnparsedUser(line.tags).None?
      ensures failure.Some? ==> failure == Some(UserIdNotNumber(FirstUnparsedUser(line.tags).value))
      ensures failure.None? ==>
        flags == old(flags) + Raised(line.tags, post, false)
        && negatedFlags == old(negatedFlags) + Raised(line.tags, post, true)
        && margin == old(margin) && negatedMargin == old(negatedMargin)
        && flagged == (if negatedMargin != 0 && negatedFlags == negatedMargin then false
                       else if flags == margin then true
                       else old(flagged))
    {
      var tags := line.tags;
      var postTags := Entries.CombineTags(post.tags);
      for i := 0 to |tags|
        invariant flags == old(flags) + Raised(tags[..i], post, false)
        invariant negatedFlags == old(negatedFlags) + Raised(tags[..i], post, true)
        invariant margin == old(margin) && negatedMargin == old(negatedMargin) && flagged == old(flagged)
        invariant FirstUnparsedUser(tags[..i]).None?
      {
        var tag := tags[i];
        PrefixStep(tags, i, post);
        ghost var hit := TokenMatches(tag, post);
        match tag.tagType
        case RatingTag(rating) =>
          FlagRating(rating, post, tag.negated);
        case IdTag(id) =>
          if id.Some? {
            FlagId(id.value, post.id, tag.negated);
          }
        case UserTag(_) =>
          var userId := ParseInt(tag.name, I64Min, I64Max);
          if userId.None? {
            FirstUnparsedUserStays(tags, i + 1);
            return Some(UserIdNotNumber(tag.name));
          }
          FlagUser(userId.value, post.uploaderId, tag.negated);
        case ScoreTag(ordering, score) =>
          FlagScore(ordering, score, post.score.total, tag.negated);
        case PlainTag =>
          if tag.name in postTags {
            RaiseFlag(tag.negated);
          }
      }
      assert tags[..|tags|] == tags;
      if IsNegatedMarginMet() {
        flagged := false;
      } else if IsMarginMet() {
        flagged := true;
      }
      return None;
    }

    function IsNegatedMarginMet(): (b: bool)
      reads this
      ensures b <==> negatedMargin != 0 && negatedFlags == negatedMargin
    {
      negatedMargin != 0 && negatedFlags == negatedMargin
    }

    function IsMarginMet(): (b: bool)
      reads this
      ensures b <==> flags == margin
    {
      flags == margin
    }

    function IsFlagged(): (b: bool)
      reads this
      ensures b <==> flagged
    {
      flagged
    }
  }

  /** How the counts over a prefix grow by one tag. */
  lemma PrefixStep(tags: seq<TagToken>, i: nat, post: Entries.PostEntry)
    requires i < |tags|
    ensures Raised(tags[..i + 1], post, false) ==
      Raised(tags[..i], post, false) + (if !tags[i].negated && TokenMatches(tags[i], post) then 1 else 0)
    ensures Raised(tags[..i + 1], post, true) ==
      Raised(tags[..i], post, true) + (if tags[i].negated && TokenMatches(tags[i], post) then 1 else 0)
    ensures FirstUnparsedUser(tags[..i]).None? ==>
      FirstUnparsedUser(tags[..i + 1]) ==
        if tags[i].tagType.UserTag? && UserIdOf(tags[i]).None? then Some(tags[i].name) else None
  {
    assert tags[..i + 1][..i] == tags[..i] && tags[..i + 1][i] == tags[i];
  }

  /** A user tag that fails to parse in a prefix is the one reported for the whole line. */
  lemma {:induction false} FirstUnparsedUserStays(tags: seq<TagToken>, n: nat)
    requires n <= |tags| && FirstUnparsedUser(tags[..n]).Some?
    ensures FirstUnparsedUser(tags) == FirstUnparsedUser(tags[..n])
    decreases |tags| - n
  {
    if n < |tags| {
      assert tags[..n + 1][..n] == tags[..n];
      FirstUnparsedUserStays(tags, n + 1);
    } else {
      assert tags[..n] == tags;
    }
  }

  /** With a fresh worker, the margins set and the post checked, the worker's verdict is the line's. */
  method CheckWithFreshWorker(line: LineToken, post: Entries.PostEntry) returns (r: Result<bool, BlacklistError>)
    ensures r == CheckLine(line, post)
  {
    var worker := new FlagWorker();
    worker.SetFlagMargin(line.tags);
    var failure := worker.CheckPost(post, line);
    if failure.Some? {
      return Err(failure.value);
    }
    return Ok(worker.IsFlagged());
  }

  // ---------------------------------------------------------------------------
  // Filtering a list of posts
  // ---------------------------------------------------------------------------

  /** `posts.retain` for one line: the posts the line does not flag, in order, and how many it removed. */
  function RetainLine(line: LineToken, posts: seq<Entries.PostEntry>): Result<(seq<Entries.PostEntry>, nat), BlacklistError>
  {
    if posts == [] then Ok(([], 0))
    else
      match RetainLine(line, posts[..|posts| - 1])
      case Err(e) => Err(e)
      case Ok((kept, removed)) =>
        var post := posts[|posts| - 1];
        match CheckLine(line, post)
        case Err(e) => Err(e)
        case Ok(flagged) => if flagged then Ok((kept, removed + 1)) else Ok((kept + [post], removed))
  }

  /** `filter_posts`: every line retains from what the earlier lines kept; the counts add up. */
  function FilterLines(lines: seq<LineToken>, posts: seq<Entries.PostEntry>): Result<(seq<Entries.PostEntry>, nat), BlacklistError>
  {
    if lines == [] then Ok((posts, 0))
    else
      match FilterLines(lines[..|lines| - 1], posts)
      case Err(e) => Err(e)
      case Ok((kept, filtered)) =>
        match RetainLine(lines[|lines| - 1], kept)
        case Err(e) => Err(e)
        case Ok((kept', removed)) => Ok((kept', filtered + removed))
  }

  /** A post no line of the blacklist flags. */
  predicate PassesAll(lines: seq<LineToken>, post: Entries.PostEntry)
  {
    forall k :: 0 <= k < |lines| ==> !LineFlags(lines[k].tags, post)
  }

  /** The posts no line flags, in their original order. */
  function Unflagged(lines: seq<LineToken>, posts: seq<Entries.PostEntry>): seq<Entries.PostEntry>
  {
    if posts == [] then []
    else
      var post := posts[|posts| - 1];
      Unflagged(lines, posts[..|posts| - 1]) + (if PassesAll(lines, post) then [post] else [])
  }

  /** No post of the blacklist's lines has a `user:` tag whose name is not an id. */
  predicate UsersResolved(lines: seq<LineToken>)
  {
    forall k :: 0 <= k < |lines| ==> FirstUnparsedUser(lines[k].tags).None?
  }

  /** A post is kept exactly when it was given and no line flags it. */
  lemma {:induction false} UnflaggedMembers(lines: seq<LineToken>, posts: seq<Entries.PostEntry>)
    ensures |Unflagged(lines, posts)| <= |posts|
    ensures forall p :: p in Unflagged(lines, posts) <==> p in posts && PassesAll(lines, p)
  {
    if posts != [] {
      var init := posts[..|posts| - 1];
      UnflaggedMembers(lines, init);
      assert posts == init + [posts[|posts| - 1]];
    }
  }

  /** One line retains the posts it does not flag, or fails on the first post when it has an unreadable user. */
  lemma {:induction false} RetainLineResult(line: LineToken, posts: seq<Entries.PostEntry>)
    ensures FirstUnparsedUser(line.tags).None? ==>
      RetainLine(line, posts) == Ok((Unflagged([line], posts), |posts| - |Unflagged([line], posts)|))
    ensures FirstUnparsedUser(line.tags).Some? && posts != [] ==>
      RetainLine(line, posts) == Err(UserIdNotNumber(FirstUnparsedUser(line.tags).value))
  {
    if posts != [] {
      var init := posts[..|posts| - 1];
      var post := posts[|posts| - 1];
      RetainLineResult(line, init);
      UnflaggedMembers([line], init);
      var u := Unflagged([line], init);
      assert PassesAll([line], post) <==> !LineFlags(line.tags, post) by {
        assert [line][0] == line;
      }
      assert Unflagged([line], posts) == u + (if PassesAll([line], post) then [post] else []);
      if FirstUnparsedUser(line.tags).None? {
        assert RetainLine(line, init) == Ok((u, |init| - |u|));
        assert CheckLine(line, post) == Ok(LineFlags(line.tags, post));
        assert |posts| == |init| + 1;
        if LineFlags(line.tags, post) {
          assert RetainLine(line, posts) == Ok((u, |init| - |u| + 1));
          assert u + [] == u;
          assert Unflagged([line], posts) == u;
        } else {
          assert RetainLine(line, posts) == Ok((u + [post], |init| - |u|));
        }
      } else if init == [] {
        assert RetainLine(line, init) == Ok(([], 0));
      }
    }
  }

  /** Filtering by one more line is filtering the kept posts by it. */
  lemma {:induction false} UnflaggedSnoc(lines: seq<LineToken>, line: LineToken, posts: seq<Entries.PostEntry>)
    ensures Unflagged([line], Unflagged(lines, posts)) == Unflagged(lines + [line], posts)
  {
    if posts != [] {
      var init := posts[..|posts| - 1];
      var post := posts[|posts| - 1];
      UnflaggedSnoc(lines, line, init);
      var u := Unflagged(lines, init);
      assert PassesAll(lines + [line], post) <==> PassesAll(lines, post) && PassesAll([line], post) by {
        assert forall k :: 0 <= k < |lines| ==> (lines + [line])[k] == lines[k];
        assert (lines + [line])[|lines|] == line;
      }
      assert Unflagged(lines, posts) == u + (if PassesAll(lines, post) then [post] else []);
      assert Unflagged(lines + [line], posts) ==
        Unflagged(lines + [line], init) + (if PassesAll(lines + [line], post) then [post] else []);
      if PassesAll(lines, post) {
        assert (u + [post])[..|u + [post]| - 1] == u && (u + [post])[|u|] == post;
        assert Unflagged([line], u + [post]) ==
          Unflagged([line], u) + (if PassesAll([line], post) then [post] else []);
        assert Unflagged(lines, posts) == u + [post];
        if PassesAll([line], post) {
          assert Unflagged(lines + [line], posts) == Unflagged(lines + [line], init) + [post];
        } else {
          assert Unflagged([line], u) + [] == Unflagged([line], u);
          assert Unflagged(lines + [line], init) + [] == Unflagged(lines + [line], init);
        }
      } else {
        assert u + [] == u;
        assert !PassesAll(lines + [line], post);
        assert Unflagged(lines + [line], init) + [] == Unflagged(lines + [line], init);
      }
    }
  }

  /**
   * `filter_posts` keeps exactly the posts no line flags, in order, and counts the
   * rest, when every `user:` tag carries an id.
   */
  lemma {:induction false} FilterLinesResult(lines: seq<LineToken>, posts: seq<Entries.PostEntry>)
    requires UsersResolved(lines)
    ensures FilterLines(lines, posts) == Ok((Unflagged(lines, posts), |posts| - |Unflagged(lines, posts)|))
  {
    if lines == [] {
      UnflaggedNone(posts);
    } else {
      var init := lines[..|lines| - 1];
      var line := lines[|lines| - 1];
      assert UsersResolved(init) by {
        assert forall k :: 0 <= k < |init| ==> init[k] == lines[k];
      }
      FilterLinesResult(init, posts);
      var kept := Unflagged(init, posts);
      RetainLineResult(line, kept);
      UnflaggedSnoc(init, line, posts);
      assert init + [line] == lines;
      UnflaggedMembers(init, posts);
      UnflaggedMembers([line], kept);
    }
  }

  /** Without lines nothing is removed. */
  lemma {:induction false} UnflaggedNone(posts: seq<Entries.PostEntry>)
    ensures Unflagged([], posts) == posts
  {
    if posts != [] {
      UnflaggedNone(posts[..|posts| - 1]);
      assert posts == posts[..|posts| - 1] + [posts[|posts| - 1]];
    }
  }

  /** Posts that pass every line are all kept. */
  lemma {:induction false} UnflaggedKeepsPassing(lines: seq<LineToken>, posts: seq<Entries.PostEntry>)
    requires forall i :: 0 <= i < |posts| ==> PassesAll(lines, posts[i])
    ensures Unflagged(lines, posts) == posts
  {
    if posts != [] {
      UnflaggedKeepsPassing(lines, posts[..|posts| - 1]);
      assert posts == posts[..|posts| - 1] + [posts[|posts| - 1]];
    }
  }

  /** A filter that succeeded on posts it kept met no unreadable user on the lines. */
  lemma {:induction false} FilterOkResolved(lines: seq<LineToken>, posts: seq<Entries.PostEntry>)
    requires FilterLines(lines, posts).Ok? && FilterLines(lines, posts).value.0 != []
    ensures UsersResolved(lines)
  {
    if lines != [] {
      var init := lines[..|lines| - 1];
      var line := lines[|lines| - 1];
      var (kept, _) := FilterLines(init, posts).value;
      RetainLineResult(line, kept);
      UnflaggedMembers([line], kept);
      FilterOkResolved(init, posts);
      assert forall k :: 0 <= k < |init| ==> init[k] == lines[k];
    }
  }

  /** Filtering what a filter kept removes nothing more. */
  lemma FilterIdempotent(lines: seq<LineToken>, posts: seq<Entries.PostEntry>)
    requires FilterLines(lines, posts).Ok?
    ensures var kept := FilterLines(lines, posts).value.0; FilterLines(lines, kept) == Ok((kept, 0))
  {
    var kept := FilterLines(lines, posts).value.0;
    if kept == [] {
      FilterNothing(lines);
    } else {
      FilterOkResolved(lines, posts);
      FilterLinesResult(lines, posts);
      UnflaggedMembers(lines, posts);
      assert forall i :: 0 <= i < |kept| ==> PassesAll(lines, kept[i]) by {
        forall i | 0 <= i < |kept| ensures PassesAll(lines, kept[i]) {
          assert kept[i] in kept;
        }
      }
      UnflaggedKeepsPassing(lines, kept);
      FilterLinesResult(lines, kept);
    }
  }

  /** Filtering no posts gives no posts and no count, whatever the lines. */
  lemma {:induction false} FilterNothing(lines: seq<LineToken>)
    ensures FilterLines(lines, []) == Ok(([], 0))
  {
    if lines != [] {
      FilterNothing(lines[..|lines| - 1]);
    }
  }

  // ---------------------------------------------------------------------------
  // The blacklist object
  // ---------------------------------------------------------------------------

  /** A user tag's name replaced by the id of the user it names, as `cache_users` does. */
  function CachedToken(t: TagToken, userOf: string -> Entries.UserEntry): TagToken
  {
    if t.tagType.UserTag? && t.tagType.user.Some? then t.(name := IntToString(userOf(t.tagType.user.value).id)) else t
  }

  function CachedLine(line: LineToken, userOf: string -> Entries.UserEntry): LineToken
  {
    LineToken(seq(|line.tags|, j requires 0 <= j < |line.tags| => CachedToken(line.tags[j], userOf)))
  }

  function CachedLines(lines: seq<LineToken>, userOf: string -> Entries.UserEntry): seq<LineToken>
  {
    seq(|lines|, i requires 0 <= i < |lines| => CachedLine(lines[i], userOf))
  }

  /** Caching resolves every `user:` tag of a well-formed line whose users have 64-bit ids. */
  lemma {:induction false} CachedLineResolved(line: LineToken, userOf: string -> Entries.UserEntry)
    requires WellFormedLine(line)
    requires forall u :: I64Min <= userOf(u).id <= I64Max
    ensures FirstUnparsedUser(CachedLine(line, userOf).tags).None?
  {
    var tags := CachedLine(line, userOf).tags;
    CachedPrefixResolved(line, userOf, |tags|);
    assert tags[..|tags|] == tags;
  }

  lemma {:induction false} CachedPrefixResolved(line: LineToken, userOf: string -> Entries.UserEntry, n: nat)
    requires WellFormedLine(line) && n <= |line.tags|
    requires forall u :: I64Min <= userOf(u).id <= I64Max
    ensures FirstUnparsedUser(CachedLine(line, userOf).tags[..n]).None?
  {
    if n > 0 {
      var tags := CachedLine(line, userOf).tags;
      assert tags[..n][..n - 1] == tags[..n - 1];
      CachedPrefixResolved(line, userOf, n - 1);
      var t := line.tags[n - 1];
      assert WellFormedToken(t);
      if t.tagType.UserTag? {
        ParseIntToString(userOf(t.tagType.user.value).id, I64Min, I64Max);
      }
    }
  }

  /** The tags of one line with every `user:` name replaced by its user's id. */
  method CacheLine(line: LineToken, userOf: string -> Entries.UserEntry) returns (cached: LineToken)
    ensures cached == CachedLine(line, userOf)
  {
    var tags := line.tags;
    for j := 0 to |tags|
      invariant |tags| == |line.tags|
      invariant forall m :: 0 <= m < j ==> tags[m] == CachedToken(line.tags[m], userOf)
      invariant forall m :: j <= m < |tags| ==> tags[m] == line.tags[m]
    {
      var tag := tags[j];
      assert tag == line.tags[j];
      if tag.tagType.UserTag? && tag.tagType.user.Some? {
        var user := userOf(tag.tagType.user.value);
        tags := tags[j := tag.(name := IntToString(user.id))];
      }
      assert tags[j] == CachedToken(tag, userOf);
    }
    cached := LineToken(tags);
    assert forall m :: 0 <= m < |tags| ==> tags[m] == CachedLine(line, userOf).tags[m];
  }

  /** `posts.retain` with the verdict of one line: the posts it does not flag and how many it removed. */
  method RetainPosts(line: LineToken, posts: seq<Entries.PostEntry>) returns (r: Result<(seq<Entries.PostEntry>, nat), BlacklistError>)
    ensures r == RetainLine(line, posts)
  {
    var kept: seq<Entries.PostEntry> := [];
    var removed: nat := 0;
    for j := 0 to |posts|
      invariant RetainLine(line, posts[..j]) == Ok((kept, removed))
    {
      var post := posts[j];
      assert posts[..j + 1][..j] == posts[..j] && posts[..j + 1][j] == post;
      var verdict := CheckWithFreshWorker(line, post);
      if verdict.Err? {
        RetainFailsOn(line, posts, j + 1);
        return Err(verdict.error);
      }
      if verdict.value {
        removed := removed + 1;
      } else {
        kept := kept + [post];
      }
    }
    assert posts[..|posts|] == posts;
    return Ok((kept, removed));
  }

  /** A retain that fails on the first posts fails the same way on all of them. */
  lemma {:induction false} RetainFailsOn(line: LineToken, posts: seq<Entries.PostEntry>, n: nat)
    requires n <= |posts| && RetainLine(line, posts[..n]).Err?
    ensures RetainLine(line, posts) == RetainLine(line, posts[..n])
    decreases |posts| - n
  {
    if n < |posts| {
      assert posts[..n + 1][..n] == posts[..n];
      RetainFailsOn(line, posts, n + 1);
    } else {
      assert posts[..n] == posts;
    }
  }

  /** The blacklist: the lines read from the user's blacklist text. */
  class Blacklist {
    var lines: seq<LineToken>

    constructor ()
      ensures lines == []
    {
      lines := [];
    }

    /** Reads the text into lines; an error leaves the lines as they were, where the program stops. */
    method ParseBlacklist(text: string) returns (failure: Option<BlacklistError>)
      modifies this
      ensures ParseBlacklistText(text).Ok? ==> failure.None? && lines == ParseBlacklistText(text).value
      ensures ParseBlacklistText(text).Err? ==> failure == Some(ParseBlacklistText(text).error) && lines == old(lines)
    {
      var r := ReadBlacklist(text);
      if r.Err? {
        return Some(r.error);
      }
      lines := r.value;
      return None;
    }

    /** Replaces the name of every `user:` tag by the id the API gives for that user. */
    method CacheUsers(userOf: string -> Entries.UserEntry)
      modifies this
      ensures lines == CachedLines(old(lines), userOf)
    {
      ghost var original := lines;
      var i := 0;
      while i < |lines|
        invariant 0 <= i <= |lines| == |original|
        invariant forall k :: 0 <= k < i ==> lines[k] == CachedLine(original[k], userOf)
        invariant forall k :: i <= k < |lines| ==> lines[k] == original[k]
      {
        var cached := CacheLine(lines[i], userOf);
        lines := lines[i := cached];
        i := i + 1;
      }
      assert forall k :: 0 <= k < |lines| ==> lines[k] == CachedLines(original, userOf)[k];
    }

    function IsEmpty(): (b: bool)
      reads this
      ensures b <==> |lines| == 0
    {
      lines == []
    }

    /** Removes the posts some line flags and returns what is kept and how many were removed. */
    method FilterPosts(posts: seq<Entries.PostEntry>) returns (r: Result<(seq<Entries.PostEntry>, nat), BlacklistError>)
      ensures r == FilterLines(lines, posts)
    {
      var kept := posts;
      var filtered: nat := 0;
      for i := 0 to |lines|
        invariant FilterLines(lines[..i], posts) == Ok((kept, filtered))
      {
        var line := lines[i];
        assert lines[..i + 1][..i] == lines[..i] && lines[..i + 1][i] == line;
        var retained := RetainPosts(line, kept);
        if retained.Err? {
          FilterFailsOn(lines, i + 1, posts);
          return Err(retained.error);
        }
        var (next, removed) := retained.value;
        kept := next;
        filtered := filtered + removed;
      }
      assert lines[..|lines|] == lines;
      return Ok((kept, filtered));
    }
  }

  /** A filter that fails on the first lines fails the same way on all of them. */
  lemma {:induction false} FilterFailsOn(lines: seq<LineToken>, n: nat, posts: seq<Entries.PostEntry>)
    requires n <= |lines| && FilterLines(lines[..n], posts).Err?
    ensures FilterLines(lines, posts) == FilterLines(lines[..n], posts)
    decreases |lines| - n
  {
    if n < |lines| {
      assert lines[..n + 1][..n] == lines[..n];
      FilterFailsOn(lines, n + 1, posts);
    } else {
      assert lines[..n] == lines;
    }
  }

  /**
   * The blacklist as the program uses it: read from the user's text, users cached to
   * their ids, then applied. Filtering then never fails, keeps exactly the posts no
   * line flags, and returns the number removed.
   */
  lemma ReadCachedFilter(text: string, userOf: string -> Entries.UserEntry, posts: seq<Entries.PostEntry>)
    requires ParseBlacklistText(text).Ok?
    requires forall u :: I64Min <= userOf(u).id <= I64Max
    ensures var lines := CachedLines(ParseBlacklistText(text).value, userOf);
      FilterLines(lines, posts) == Ok((Unflagged(lines, posts), |posts| - |Unflagged(lines, posts)|))
  {
    var parsed := ParseBlacklistText(text).value;
    ParsedWellFormed(text);
    var lines := CachedLines(parsed, userOf);
    forall k | 0 <= k < |lines| ensures FirstUnparsedUser(lines[k].tags).None? {
      CachedLineResolved(parsed[k], userOf);
    }
    FilterLinesResult(lines, posts);
  }
}
