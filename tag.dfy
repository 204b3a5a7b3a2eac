/**
 * The tag file: groups written `[name]`, each followed by one entry per line, with
 * `#` comments. Entries of `artists` and `general` groups are checked against the
 * API and classified; entries of `pools`, `sets` and `single-post` groups are
 * numeric ids.
 *
 * The grammar is stated as functions over the trimmed text and a cursor position
 * (`TagLoopIteration`, `TagsFrom`, `GroupAt`, `GroupsFrom`); `TagParser` is the
 * parser object that works through the same text with a `BaseParser` and is
 * proved to compute exactly those functions.
 */
module TagFile {
  import opened Wrappers
  import opened Text
  import TagTypes
  import Entries
  import opened BaseParsing

  type SearchType = TagTypes.TagSearchType
  type Kind = TagTypes.TagType

  datatype Tag = Tag(name: string, searchType: SearchType, tagType: Kind)

  /** `Tag::default()`, the value the identifier uses for syntax-only tokens and then filters out. */
  const DefaultTag: Tag := Tag("", TagTypes.TagSearchType.None, TagTypes.TagType.Unknown)

  datatype Group = Group(name: string, tags: seq<Tag>)

  /**
   * The API calls the identifier makes: the first tag entry found under a name, and
   * the entry an alias of that name resolves to.
   */
  datatype TagLookup = TagLookup(byName: string -> Option<Entries.TagEntry>, byAlias: string -> Option<Entries.TagEntry>)

  /** The ways parsing the tag file ends the program. */
  datatype TagFileError =
    | Syntax(error: ParseError)         // `report_error`
    | GroupNotClosed(position: nat)     // a group name not followed by `]`
    | TagNotFound(tag: string)          // `exit_tag_failure`
    | UnexpectedCategory(category: nat) // `unreachable!` on an unknown tag category
    | Stuck(position: nat)              // an entry the group's character class cannot start

  // ---------------------------------------------------------------------------
  // Identifying tags
  // ---------------------------------------------------------------------------

  /**
   * `create_tag`: the tag is named after the whole entry line. Artists are searched
   * specially, and so are characters with at most 1500 posts; everything else is general.
   */
  function CreateTag(line: string, entry: Entries.TagEntry): (r: Result<Tag, TagFileError>)
    ensures r.Ok? <==> Entries.ToTagType(entry).Some?
    ensures r.Ok? ==> r.value.name == line
    ensures r.Ok? ==> (r.value.tagType == TagTypes.TagType.Artist <==> entry.category == 1)
    ensures r.Ok? ==> (r.value.searchType == TagTypes.TagSearchType.Special <==>
                        entry.category == 1 || (entry.category == Entries.CharacterCategory && entry.postCount <= 1500))
    ensures r.Ok? ==> r.value.searchType != TagTypes.TagSearchType.None
    ensures r.Ok? ==> r.value.tagType == TagTypes.TagType.Artist || r.value.tagType == TagTypes.TagType.General
    ensures r.Err? ==> r.error == UnexpectedCategory(entry.category)
  {
    match Entries.ToTagType(entry)
    case None => Err(UnexpectedCategory(entry.category))
    case Some(kind) =>
      if kind == TagTypes.TagType.Artist then Ok(Tag(line, TagTypes.TagSearchType.Special, kind))
      else
        var search :=
          if entry.category == Entries.CharacterCategory then
            (if entry.postCount > 1500 then TagTypes.TagSearchType.General else TagTypes.TagSearchType.Special)
          else TagTypes.TagSearchType.General;
        Ok(Tag(line, search, kind))
  }

  /**
   * One space-separated token of an entry line, with leading `-` removed: found by name,
   * else through an alias; a token with `:` that is neither is syntax only (`None`);
   * anything else is an unknown tag.
   */
  function ResolveToken(line: string, token: string, lk: TagLookup): (r: Result<Option<Tag>, TagFileError>)
    ensures r.Ok? && r.value.Some? ==> r.value.value.name == line && r.value.value.searchType != TagTypes.TagSearchType.None
    ensures r.Ok? && r.value.Some? ==> r.value.value.tagType in {TagTypes.TagType.Artist, TagTypes.TagType.General}
    ensures r.Err? ==> r.error.TagNotFound? || r.error.UnexpectedCategory?
  {
    var temp := TrimStartMatches(token, '-');
    match lk.byName(temp)
    case Some(entry) =>
      (match CreateTag(line, entry) case Ok(t) => Ok(Some(t)) case Err(e) => Err(e))
    case None =>
      match lk.byAlias(temp)
      case Some(entry) =>
        (match CreateTag(line, entry) case Ok(t) => Ok(Some(t)) case Err(e) => Err(e))
      case None =>
        if ':' in temp then Ok(None) else Err(TagNotFound(temp))
  }

  predicate IsSpecial(t: Tag) { t.searchType == TagTypes.TagSearchType.Special }

  /** The general tag the identifier falls back to when no token is special. */
  function GeneralTag(line: string): Tag
  {
    Tag(line, TagTypes.TagSearchType.General, TagTypes.TagType.General)
  }

  /**
   * The lazy search over the tokens: tokens are resolved one at a time and the first
   * special tag is the answer; tokens after it are never looked up. When no token is
   * special the iterator is exhausted and the general fallback tag is the answer.
   */
  function SearchTokens(line: string, tokens: seq<string>, lk: TagLookup): (r: Result<Tag, TagFileError>)
    ensures r.Err? ==> r.error.TagNotFound? || r.error.UnexpectedCategory?
  {
    if tokens == [] then Ok(GeneralTag(line))
    else
      match ResolveToken(line, tokens[0], lk)
      case Err(e) => Err(e)
      case Ok(None) => SearchTokens(line, tokens[1..], lk)
      case Ok(Some(t)) => if IsSpecial(t) then Ok(t) else SearchTokens(line, tokens[1..], lk)
  }

  /** `search_for_tag` on one entry line. */
  function SearchForTag(line: string, lk: TagLookup): (r: Result<Tag, TagFileError>)
    ensures r.Err? ==> r.error.TagNotFound? || r.error.UnexpectedCategory?
  {
    SearchTokens(line, Split(line, ' '), lk)
  }

  /** The identified tag is always named after the whole line, and it is either special or the general fallback. */
  lemma {:induction false} SearchTokensShape(line: string, tokens: seq<string>, lk: TagLookup)
    ensures var r := SearchTokens(line, tokens, lk);
      r.Ok? ==> (r.value.name == line && (IsSpecial(r.value) || r.value == GeneralTag(line))
                 && r.value.tagType in {TagTypes.TagType.Artist, TagTypes.TagType.General})
  {
    if tokens != [] {
      SearchTokensShape(line, tokens[1..], lk);
    }
  }

  /** A token is resolved without error and gives no special tag. */
  predicate PassesOver(line: string, token: string, lk: TagLookup)
  {
    var r := ResolveToken(line, token, lk);
    r.Ok? && (r.value.None? || !IsSpecial(r.value.value))
  }

  /**
   * The first special token decides the result, whatever the tokens after it are,
   * even ones that name no tag at all.
   */
  lemma {:induction false} FirstSpecialWins(line: string, tokens: seq<string>, k: nat, lk: TagLookup)
    requires k < |tokens|
    requires forall i :: 0 <= i < k ==> PassesOver(line, tokens[i], lk)
    requires var r := ResolveToken(line, tokens[k], lk); r.Ok? && r.value.Some? && IsSpecial(r.value.value)
    ensures SearchTokens(line, tokens, lk) == Ok(ResolveToken(line, tokens[k], lk).value.value)
  {
    if k > 0 {
      assert PassesOver(line, tokens[0], lk);
      FirstSpecialWins(line, tokens[1..], k - 1, lk);
    }
  }

  /** When every token resolves and none is special, the result is the general fallback tag. */
  lemma {:induction false} NoSpecialIsGeneral(line: string, tokens: seq<string>, lk: TagLookup)
    requires forall i :: 0 <= i < |tokens| ==> PassesOver(line, tokens[i], lk)
    ensures SearchTokens(line, tokens, lk) == Ok(GeneralTag(line))
  {
    if tokens != [] {
      assert PassesOver(line, tokens[0], lk);
      NoSpecialIsGeneral(line, tokens[1..], lk);
    }
  }

  /** A token that fails before any special token is found makes the whole search fail with its error. */
  lemma {:induction false} FirstFailureStops(line: string, tokens: seq<string>, k: nat, lk: TagLookup)
    requires k < |tokens|
    requires forall i :: 0 <= i < k ==> PassesOver(line, tokens[i], lk)
    requires ResolveToken(line, tokens[k], lk).Err?
    ensures SearchTokens(line, tokens, lk) == Err(ResolveToken(line, tokens[k], lk).error)
  {
    if k > 0 {
      assert PassesOver(line, tokens[0], lk);
      FirstFailureStops(line, tokens[1..], k - 1, lk);
    }
  }

  // ---------------------------------------------------------------------------
  // Character classes of the tag file
  // ---------------------------------------------------------------------------

  /** Characters of an `artists`/`general` entry: printable ASCII except `#`. */
  predicate ValidTag(c: char) { (' ' <= c <= '"') || ('$' <= c <= '~') || (c != '#' && IsAlphanumeric(c)) }

  predicate ValidId(c: char) { IsAsciiDigit(c) }

  predicate ValidGroup(c: char) { ('A' <= c <= 'Z') || ('a' <= c <= 'z') || c == '-' }

  /** Characters of a comment: printable ASCII, so a comment ends at a line break or any control character. */
  predicate ValidComment(c: char) { (' ' <= c <= '~') || IsAlphanumeric(c) }

  /** The group names whose entries are checked against the API. */
  predicate IsTextGroup(group: string) { group == "artists" || group == "general" }

  /** The group names whose entries are ids, with the tag type they produce. */
  function IdTagType(group: string): Option<Kind>
  {
    if group == "pools" then Some(TagTypes.TagType.Pool)
    else if group == "sets" then Some(TagTypes.TagType.Set)
    else if group == "single-post" then Some(TagTypes.TagType.Post)
    else None
  }

  // ---------------------------------------------------------------------------
  // The grammar over a cursor position
  // ---------------------------------------------------------------------------

  /**
   * How an entry line of an `artists`/`general` group becomes a tag. The grammar below
   * is stated for any identifier; the program's is `Identify`.
   */
  type Identifier = string -> Result<Tag, TagFileError>

  /** `id_tag` on the trimmed entry: `search_for_tag` with the API calls `lk`. */
  function Identify(lk: TagLookup): Identifier
  {
    entry => SearchForTag(Trim(entry), lk)
  }

  /** `parse_tag` at position `p`: the tag (or the error) and where the cursor ends. */
  function TagAt(s: string, p: nat, group: string, identify: Identifier): (r: (Result<Tag, TagFileError>, nat))
    requires p <= |s|
    ensures p <= r.1 <= |s|
  {
    if IsTextGroup(group) then
      var q := SkipWhile(s, p, ValidTag);
      (identify(s[p..q]), q)
    else
      var q := SkipWhile(s, p, ValidId);
      match IdTagType(group)
      case Some(kind) => (Ok(Tag(s[p..q], TagTypes.TagSearchType.Special, kind)), q)
      case None => (Err(Syntax(ParseError("Unknown tag type!", q, ColumnAt(s, q)))), q)
  }

  /** What one pass through the body of the `parse_tags` loop does. */
  datatype TagLoopStep =
    | CommentSkipped(next: nat)
    | EndOfGroup(next: nat)
    | TagRead(tag: Result<Tag, TagFileError>, start: nat, next: nat)

  /**
   * One pass of the `parse_tags` loop, as the program writes it: skip whitespace; a `#`
   * starts a comment; a `[` or the end of the text ends the group; anything else is
   * read as an entry starting at `start`.
   */
  function TagLoopIteration(s: string, p: nat, group: string, identify: Identifier): (r: TagLoopStep)
    requires p <= |s|
    ensures r.CommentSkipped? ==> p < r.next <= |s|
    ensures r.EndOfGroup? ==> p <= r.next <= |s|
    ensures r.TagRead? ==> p <= r.start <= r.next <= |s| && r.start < |s|
  {
    var q := SkipWhile(s, p, IsWhitespace);
    if CharAt(s, q, '#') then
      assert ValidComment(s[q]);
      CommentSkipped(SkipWhile(s, q, ValidComment))
    else if CharAt(s, q, '[') || q >= |s| then EndOfGroup(q)
    else
      var (t, r) := TagAt(s, q, group, identify);
      TagRead(t, q, r)
  }

  /**
   * The entries of one group, from position `p`, after the entries `acc` already read.
   * An entry that consumes no character would be read again from the same position for
   * ever; that case is reported as `Stuck`.
   */
  function TagsFrom(s: string, p: nat, group: string, identify: Identifier, acc: seq<Tag>): (r: (Result<seq<Tag>, TagFileError>, nat))
    requires p <= |s|
    ensures p <= r.1 <= |s|
    decreases |s| - p
  {
    match TagLoopIteration(s, p, group, identify)
    case CommentSkipped(q) => TagsFrom(s, q, group, identify, acc)
    case EndOfGroup(q) => (Ok(acc), q)
    case TagRead(t, start, q) =>
      if t.Err? then (Err(t.error), q)
      else if q == start then (Err(Stuck(start)), start)
      else TagsFrom(s, q, group, identify, acc + [t.value])
  }

  /** `parse_group` at a `[`: the name, the closing `]`, then the group's entries. */
  function GroupAt(s: string, p: nat, identify: Identifier): (r: (Result<Group, TagFileError>, nat))
    requires p < |s| && s[p] == '['
    ensures p < r.1 <= |s|
  {
    var e := SkipWhile(s, p + 1, ValidGroup);
    var name := s[p + 1..e];
    if e >= |s| then (Err(GroupNotClosed(e)), e)
    else if s[e] != ']' then (Err(GroupNotClosed(e)), e + 1)
    else
      var (tags, r) := TagsFrom(s, e + 1, name, identify, []);
      (if tags.Ok? then Ok(Group(name, tags.value)) else Err(tags.error), r)
  }

  /** The three ways `parse_group` ends, with the name ending at `e`. */
  lemma GroupAtCases(s: string, p: nat, identify: Identifier, e: nat)
    requires p < |s| && s[p] == '[' && e == SkipWhile(s, p + 1, ValidGroup)
    ensures e >= |s| ==> GroupAt(s, p, identify) == (Err(GroupNotClosed(e)), e)
    ensures e < |s| && s[e] != ']' ==> GroupAt(s, p, identify) == (Err(GroupNotClosed(e)), e + 1)
    ensures e < |s| && s[e] == ']' ==>
      var tr := TagsFrom(s, e + 1, s[p + 1..e], identify, []);
      GroupAt(s, p, identify) == (if tr.0.Ok? then Ok(Group(s[p + 1..e], tr.0.value)) else Err(tr.0.error), tr.1)
  {
  }

  /** A closed group ends where its entries end, with their result. */
  lemma GroupAtClosed(s: string, p: nat, identify: Identifier, e: nat, tags: Result<seq<Tag>, TagFileError>, end: nat)
    requires p < |s| && s[p] == '['
    requires e == SkipWhile(s, p + 1, ValidGroup)
    requires e < |s|
    requires s[e] == ']'
    requires (tags, end) == TagsFrom(s, e + 1, s[p + 1..e], identify, [])
    ensures GroupAt(s, p, identify) == (if tags.Ok? then Ok(Group(s[p + 1..e], tags.value)) else Err(tags.error), end)
  {
    GroupAtCases(s, p, identify, e);
  }

  /** `parse_groups` from position `p`, after the groups `acc` already read. */
  function GroupsFrom(s: string, p: nat, identify: Identifier, acc: seq<Group>): Result<seq<Group>, TagFileError>
    requires p <= |s|
    decreases |s| - p
  {
    var q := SkipWhile(s, p, IsWhitespace);
    if q >= |s| then Ok(acc)
    else if CharAt(s, q, '#') then
      assert ValidComment(s[q]);
      GroupsFrom(s, SkipWhile(s, q, ValidComment), identify, acc)
    else if CharAt(s, q, '[') then
      var (g, r) := GroupAt(s, q, identify);
      if g.Err? then Err(g.error) else GroupsFrom(s, r, identify, acc + [g.value])
    else Err(Syntax(ParseError("Tags must be in groups!", q, ColumnAt(s, q))))
  }

  /** `parse_tag_file` on the text of the file, identifying entries through the API calls `lk`. */
  function ParseTagFile(text: string, lk: TagLookup): Result<seq<Group>, TagFileError>
  {
    GroupsFrom(Trim(text), 0, Identify(lk), [])
  }

  // ---------------------------------------------------------------------------
  // The parser object
  // ---------------------------------------------------------------------------

  /** `parse_tag_file`: a parser over the text of the file, run through all its groups. */
  method ParseTagFileText(text: string, lk: TagLookup) returns (r: Result<seq<Group>, TagFileError>)
    ensures r == ParseTagFile(text, lk)
  {
    var tp := new TagParser(text, Identify(lk));
    r := tp.ParseGroups();
  }

  /** The tag parser: the character cursor over the file and the identifier for text entries. */
  class TagParser {
    const parser: BaseParser
    const identify: Identifier

    constructor (text: string, identify: Identifier)
      ensures fresh(parser) && parser.Valid() && parser.input == Trim(text) && parser.pos == 0
      ensures this.identify == identify
    {
      parser := new BaseParser(text);
      this.identify := identify;
    }

    method ParseGroups() returns (r: Result<seq<Group>, TagFileError>)
      requires parser.Valid()
      modifies parser
      ensures r == GroupsFrom(old(parser.input), old(parser.pos), identify, [])
    {
      var groups: seq<Group> := [];
      while true
        invariant parser.Valid() && parser.input == old(parser.input)
        invariant GroupsFrom(parser.input, parser.pos, identify, groups)
                  == GroupsFrom(parser.input, old(parser.pos), identify, [])
        decreases |parser.input| - parser.pos
      {
        parser.ConsumeWhitespace();
        if parser.Eof() {
          return Ok(groups);
        }
        var isComment := CheckAndParseComment();
        if isComment {
          continue;
        }
        if parser.StartsWith("[") {
          var g := ParseGroup();
          if g.Err? {
            return Err(g.error);
          }
          groups := groups + [g.value];
        } else {
          return Err(Syntax(parser.ReportError("Tags must be in groups!")));
        }
      }
    }

    method ParseGroup() returns (r: Result<Group, TagFileError>)
      requires parser.Valid() && parser.StartsWith("[")
      modifies parser
      ensures parser.Valid() && parser.input == old(parser.input)
      ensures (r, parser.pos) == GroupAt(parser.input, old(parser.pos), identify)
    {
      ghost var s := parser.input;
      ghost var p := parser.pos;
      var open := parser.ConsumeChar();
      assert open == '[';
      var name := parser.ConsumeWhile(ValidGroup);
      ghost var e := parser.pos;
      assert e == SkipWhile(s, p + 1, ValidGroup) && name == s[p + 1..e];
      GroupAtCases(s, p, identify, e);
      if parser.Eof() {
        return Err(GroupNotClosed(parser.pos));
      }
      var close := parser.ConsumeChar();
      if close != ']' {
        return Err(GroupNotClosed(parser.pos - 1));
      }
      assert parser.pos == e + 1 && parser.input == s && name == s[p + 1..e];
      var tags := ParseTags(name);
      assert parser.input == s;
      assert p < |s| && s[p] == '[';
      assert e == SkipWhile(s, p + 1, ValidGroup);
      assert e < |s|;
      assert s[e] == ']';
      assert (tags, parser.pos) == TagsFrom(s, e + 1, name, identify, []);
      assert (tags, parser.pos) == TagsFrom(s, e + 1, s[p + 1..e], identify, []);
      GroupAtClosed(s, p, identify, e, tags, parser.pos);
      if tags.Err? {
        return Err(tags.error);
      }
      return Ok(Group(name, tags.value));
    }

    method ParseTags(name: string) returns (r: Result<seq<Tag>, TagFileError>)
      requires parser.Valid()
      modifies parser
      ensures parser.Valid() && parser.input == old(parser.input)
      ensures (r, parser.pos) == TagsFrom(parser.input, old(parser.pos), name, identify, [])
    {
      var tags: seq<Tag> := [];
      while true
        invariant parser.Valid() && parser.input == old(parser.input)
        invariant TagsFrom(parser.input, parser.pos, name, identify, tags)
                  == TagsFrom(parser.input, old(parser.pos), name, identify, [])
        decreases |parser.input| - parser.pos
      {
        ghost var p := parser.pos;
        parser.ConsumeWhitespace();
        var isComment := CheckAndParseComment();
        if isComment {
          continue;
        }
        if parser.StartsWith("[") || parser.Eof() {
          return Ok(tags);
        }
        var start := parser.pos;
        var t := ParseTag(name);
        assert TagLoopIteration(parser.input, p, name, identify) == TagRead(t, start, parser.pos);
        if t.Err? {
          return Err(t.error);
        }
        if parser.pos == start {
          return Err(Stuck(start));
        }
        tags := tags + [t.value];
      }
    }

    method ParseTag(group: string) returns (r: Result<Tag, TagFileError>)
      requires parser.Valid()
      modifies parser
      ensures parser.Valid() && parser.input == old(parser.input)
      ensures (r, parser.pos) == TagAt(parser.input, old(parser.pos), group, identify)
    {
      if group == "artists" || group == "general" {
        var tag := parser.ConsumeWhile(ValidTag);
        return identify(tag);
      }
      var tag := parser.ConsumeWhile(ValidId);
      var kind: Kind;
      if group == "pools" {
        kind := TagTypes.TagType.Pool;
      } else if group == "sets" {
        kind := TagTypes.TagType.Set;
      } else if group == "single-post" {
        kind := TagTypes.TagType.Post;
      } else {
        return Err(Syntax(parser.ReportError("Unknown tag type!")));
      }
      forall i | 0 <= i < |tag| ensures IsAsciiDigit(tag[i]) {
        SkipWhilePasses(parser.input, old(parser.pos), ValidId, old(parser.pos) + i);
      }
      TrimDigits(tag);
      return Ok(Tag(Trim(tag), TagTypes.TagSearchType.Special, kind));
    }

    method CheckAndParseComment() returns (isComment: bool)
      requires parser.Valid()
      modifies parser
      ensures parser.Valid() && parser.input == old(parser.input)
      ensures isComment == CharAt(parser.input, old(parser.pos), '#')
      ensures isComment ==> parser.pos == SkipWhile(parser.input, old(parser.pos), ValidComment)
      ensures !isComment ==> parser.pos == old(parser.pos)
    {
      if parser.StartsWith("#") {
        ParseComment();
        return true;
      }
      return false;
    }

    method ParseComment()
      requires parser.Valid()
      modifies parser
      ensures parser.Valid() && parser.input == old(parser.input)
      ensures parser.pos == SkipWhile(parser.input, old(parser.pos), ValidComment)
    {
      var _ := parser.ConsumeWhile(ValidComment);
    }
  }
}
