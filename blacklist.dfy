/**
 * The user's blacklist as the downloader reads it: lines of tags separated by
 * whitespace, each tag optionally negated with a leading `-`, and the special tags
 * `rating:`, `id:`, `user:` and `score:`. This module holds the tokens, the grammar
 * of the text over a cursor position and the parser object that walks it.
 */
module BlacklistParsing {
  import opened Wrappers
  import opened Text
  import opened BaseParsing

  // ---------------------------------------------------------------------------
  // Tokens
  // ---------------------------------------------------------------------------

  /** The rating a `rating:` tag names; `NoRating` is the source's `Rating::None`. */
  datatype Rating = NoRating | Safe | Questionable | Explicit

  /** The comparison of a `score:` tag; `Greater` stands for "at least". */
  datatype Ordering = Less | Equal | Greater

  /** What a tag tests; `PlainTag` is the source's `TagType::None`, an ordinary tag name. */
  datatype TokenType =
    | RatingTag(rating: Rating)
    | IdTag(id: Option<int>)
    | UserTag(user: Option<string>)
    | ScoreTag(ordering: Ordering, score: int)
    | PlainTag

  datatype TagToken = TagToken(negated: bool, tagType: TokenType, name: string)

  datatype LineToken = LineToken(tags: seq<TagToken>)

  /**
   * The ways reading or applying the blacklist stops the program: an unknown special
   * tag (`report_error`), a score that is not an `i32` and a user name that is not an
   * id (both `unwrap` panics), and a character no rule consumes (`Stuck`).
   */
  datatype BlacklistError =
    | UnknownSpecialTag(error: ParseError)
    | ScoreNotNumber(score: string)
    | UserIdNotNumber(name: string)
    | Stuck(position: nat)

  // ---------------------------------------------------------------------------
  // Character classes
  // ---------------------------------------------------------------------------

  /** Characters of a tag name: printable ASCII other than space and `:`. */
  predicate ValidTag(c: char) { ('!' <= c <= '9') || (';' <= c <= '~') || (c != ':' && IsAlphanumeric(c)) }

  /** `valid_user` accepts exactly the characters `valid_tag` does. */
  predicate ValidUser(c: char) { ValidTag(c) }

  predicate ValidRating(c: char) { IsAsciiAlphabetic(c) }

  predicate ValidOrdering(c: char) { c == '<' || c == '>' || c == '=' }

  predicate ValidScore(c: char) { IsAsciiDigit(c) }

  predicate ValidId(c: char) { IsAsciiDigit(c) }

  // ---------------------------------------------------------------------------
  // Values of special tags
  // ---------------------------------------------------------------------------

  /** `get_rating`: the full name or the initial of a rating, in any case. */
  function GetRating(value: string): Rating
  {
    var v := ToLower(value);
    if v == "safe" || v == "s" then Safe
    else if v == "questionable" || v == "q" then Questionable
    else if v == "explicit" || v == "e" then Explicit
    else NoRating
  }

  /** The one-letter rating code the API gives a post. */
  function RatingLetter(r: Rating): string
  {
    match r
    case NoRating => ""
    case Safe => "s"
    case Questionable => "q"
    case Explicit => "e"
  }

  /** The full name of a rating. */
  function RatingName(r: Rating): string
  {
    match r
    case NoRating => ""
    case Safe => "safe"
    case Questionable => "questionable"
    case Explicit => "explicit"
  }

  /** Both the letter and the name of a rating read back as that rating, whatever their case. */
  lemma RatingRoundTrip(r: Rating, value: string)
    requires r != NoRating
    requires ToLower(value) == RatingLetter(r) || ToLower(value) == RatingName(r)
    ensures GetRating(value) == r
  {
  }

  /** A value that is no rating's letter or name, in any case, reads as `NoRating`. */
  lemma RatingUnknown(value: string)
    requires forall r :: r != NoRating ==> ToLower(value) != RatingLetter(r) && ToLower(value) != RatingName(r)
    ensures GetRating(value) == NoRating
  {
    assert ToLower(value) != RatingLetter(Safe) && ToLower(value) != RatingName(Safe);
    assert ToLower(value) != RatingLetter(Questionable) && ToLower(value) != RatingName(Questionable);
    assert ToLower(value) != RatingLetter(Explicit) && ToLower(value) != RatingName(Explicit);
  }

  /** `get_ordering` on the comparison text: `<` and `>=` are understood, anything else is `Equal`. */
  function OrderingOf(op: string): Ordering
  {
    if op == "<" then Less else if op == ">=" then Greater else Equal
  }

  /** `parse::<i64>().unwrap_or_default()`. */
  function IdOrZero(digits: string): (id: int)
    ensures I64Min <= id <= I64Max
    ensures ParseInt(digits, I64Min, I64Max).Some? ==> id == ParseInt(digits, I64Min, I64Max).value
    ensures ParseInt(digits, I64Min, I64Max).None? ==> id == 0
  {
    match ParseInt(digits, I64Min, I64Max)
    case Some(v) => v
    case None => 0
  }

  // ---------------------------------------------------------------------------
  // The grammar over a cursor position
  // ---------------------------------------------------------------------------

  /**
   * `parse_special_tag` with the cursor on the `:` after the name `name`: the value of
   * the special tag and where the cursor ends.
   */
  function SpecialTagAt(s: string, p: nat, negated: bool, name: string): (r: (Result<TagToken, BlacklistError>, nat))
    requires p < |s| && s[p] == ':'
    ensures p < r.1 <= |s|
  {
    var a := p + 1;
    if name == "rating" then
      var e := SkipWhile(s, a, ValidRating);
      (Ok(TagToken(negated, RatingTag(GetRating(s[a..e])), name)), e)
    else if name == "id" then
      var e := SkipWhile(s, a, ValidId);
      (Ok(TagToken(negated, IdTag(Some(IdOrZero(s[a..e]))), name)), e)
    else if name == "user" then
      var e := SkipWhile(s, a, ValidUser);
      (Ok(TagToken(negated, UserTag(Some(s[a..e])), name)), e)
    else if name == "score" then
      var o := SkipWhile(s, a, ValidOrdering);
      var e := SkipWhile(s, o, ValidScore);
      match ParseInt(s[o..e], I32Min, I32Max)
      case Some(v) => (Ok(TagToken(negated, ScoreTag(OrderingOf(s[a..o]), v), name)), e)
      case None => (Err(ScoreNotNumber(s[o..e])), e)
    else
      (Err(UnknownSpecialTag(ParseError("Unknown special tag identifier: " + name, a, ColumnAt(s, a)))), a)
  }

  /**
   * `parse_tag` at position `p`: an optional `-`, the name in lower case, and, when a
   * `:` follows, the special tag it starts.
   */
  function TagTokenAt(s: string, p: nat): (r: (Result<TagToken, BlacklistError>, nat))
    requires p <= |s|
    ensures p <= r.1 <= |s|
  {
    var negated := CharAt(s, p, '-');
    var a := if negated then p + 1 else p;
    var e := SkipWhile(s, a, ValidTag);
    var name := ToLower(s[a..e]);
    if CharAt(s, e, ':') then SpecialTagAt(s, e, negated, name)
    else (Ok(TagToken(negated, PlainTag, name)), e)
  }

  /**
   * How a tag is read from a position: the token (or the error) and where the cursor
   * ends. The line grammar below is stated for any reader; the program's is `ReadTag`.
   */
  type TagReader = (string, nat) -> (Result<TagToken, BlacklistError>, nat)

  /** `parse_tag` as a reader. */
  const ReadTag: TagReader := (s: string, p: nat) => if p <= |s| then TagTokenAt(s, p) else (Err(Stuck(p)), p)

  /** What one pass through the body of the `parse_line` loop does. */
  datatype LineLoopStep =
    | LineBreak(next: nat)
    | TextEnd(next: nat)
    | TokenRead(token: Result<TagToken, BlacklistError>, start: nat, next: nat)

  /**
   * One pass of the `parse_line` loop: a line break under the cursor ends the line;
   * otherwise whitespace, line breaks included, is skipped, and the end of the text
   * ends the line or a tag is read from `start`. An end position outside the rest of
   * the text, which `ReadTag` never reports, counts as no progress.
   */
  function LineIteration(s: string, p: nat, read: TagReader): (r: LineLoopStep)
    requires p <= |s|
    ensures r.LineBreak? ==> p < r.next <= |s|
    ensures r.TextEnd? ==> p <= r.next == |s|
    ensures r.TokenRead? ==> p <= r.start <= r.next <= |s| && r.start < |s|
  {
    if CharAt(s, p, '\n') then LineBreak(p + 1)
    else
      var q := SkipWhile(s, p, IsWhitespace);
      if q >= |s| then TextEnd(q)
      else
        var (t, e) := read(s, q);
        TokenRead(t, q, if q <= e <= |s| then e else q)
  }

  /**
   * The tags of one line from position `p`, after the tags `acc` already read. A tag
   * that consumes no character would be read again from the same place for ever;
   * that case is reported as `Stuck`.
   */
  function LineFrom(s: string, p: nat, acc: seq<TagToken>, read: TagReader): (r: (Result<LineToken, BlacklistError>, nat))
    requires p <= |s|
    ensures p <= r.1 <= |s|
    ensures r.0.Ok? && p < |s| ==> p < r.1
    decreases |s| - p
  {
    match LineIteration(s, p, read)
    case LineBreak(q) => (Ok(LineToken(acc)), q)
    case TextEnd(q) => (Ok(LineToken(acc)), q)
    case TokenRead(t, start, q) =>
      if t.Err? then (Err(t.error), q)
      else if q == start then (Err(Stuck(start)), start)
      else LineFrom(s, q, acc + [t.value], read)
  }

  /** `parse_blacklist` of the parser from position `p`, after the lines `acc` already read. */
  function LinesFrom(s: string, p: nat, acc: seq<LineToken>, read: TagReader): Result<seq<LineToken>, BlacklistError>
    requires p <= |s|
    decreases |s| - p
  {
    var q := SkipWhile(s, p, IsWhitespace);
    if q >= |s| then Ok(acc)
    else
      var (line, e) := LineFrom(s, q, [], read);
      if line.Err? then Err(line.error) else LinesFrom(s, e, acc + [line.value], read)
  }

  /** The lines of a blacklist text, which is trimmed first. */
  function ParseBlacklistText(text: string): Result<seq<LineToken>, BlacklistError>
  {
    LinesFrom(Trim(text), 0, [], ReadTag)
  }

  // ---------------------------------------------------------------------------
  // The parser object
  // ---------------------------------------------------------------------------

  /** The blacklist parser: the character cursor over the blacklist text. */
  class BlacklistParser {
    const parser: BaseParser

    constructor (text: string)
      ensures fresh(parser) && parser.Valid() && parser.input == Trim(text) && parser.pos == 0
    {
      parser := new BaseParser(text);
    }

    method ParseBlacklist() returns (r: Result<seq<LineToken>, BlacklistError>)
      requires parser.Valid()
      modifies parser
      ensures r == LinesFrom(old(parser.input), old(parser.pos), [], ReadTag)
    {
      var lines: seq<LineToken> := [];
      while true
        invariant parser.Valid() && parser.input == old(parser.input)
        invariant LinesFrom(parser.input, parser.pos, lines, ReadTag) == LinesFrom(parser.input, old(parser.pos), [], ReadTag)
        decreases |parser.input| - parser.pos
      {
        parser.ConsumeWhitespace();
        if parser.Eof() {
          return Ok(lines);
        }
        var line := ParseLine();
        if line.Err? {
          return Err(line.error);
        }
        lines := lines + [line.value];
      }
    }

    method ParseLine() returns (r: Result<LineToken, BlacklistError>)
      requires parser.Valid()
      modifies parser
      ensures parser.Valid() && parser.input == old(parser.input)
      ensures (r, parser.pos) == LineFrom(parser.input, old(parser.pos), [], ReadTag)
    {
      var tags: seq<TagToken> := [];
      while true
        invariant parser.Valid() && parser.input == old(parser.input)
        invariant LineFrom(parser.input, parser.pos, tags, ReadTag) == LineFrom(parser.input, old(parser.pos), [], ReadTag)
        decreases |parser.input| - parser.pos
      {
        var step := LineStep();
        match step
        case LineBreak(_) => return Ok(LineToken(tags));
        case TextEnd(_) => return Ok(LineToken(tags));
        case TokenRead(t, start, _) =>
          if t.Err? {
            return Err(t.error);
          }
          if parser.pos == start {
            return Err(Stuck(start));
          }
          tags := tags + [t.value];
      }
    }

    /** One pass through the body of the `parse_line` loop, up to the point where it ends the line or keeps the tag. */
    method LineStep() returns (step: LineLoopStep)
      requires parser.Valid()
      modifies parser
      ensures parser.Valid() && parser.input == old(parser.input)
      ensures step == LineIteration(parser.input, old(parser.pos), ReadTag) && parser.pos == step.next
    {
      if parser.StartsWith("\n") {
        var c := parser.ConsumeChar();
        assert c == '\n';
        return LineBreak(parser.pos);
      }
      parser.ConsumeWhitespace();
      if parser.Eof() {
        return TextEnd(parser.pos);
      }
      var start := parser.pos;
      var t := ParseTag();
      return TokenRead(t, start, parser.pos);
    }

    function IsTagNegated(): (b: bool)
      reads this, parser
      requires parser.Valid()
      ensures b <==> CharAt(parser.input, parser.pos, '-')
    {
      parser.StartsWith("-")
    }

    method ParseTag() returns (r: Result<TagToken, BlacklistError>)
      requires parser.Valid()
      modifies parser
      ensures parser.Valid() && parser.input == old(parser.input)
      ensures (r, parser.pos) == TagTokenAt(parser.input, old(parser.pos))
    {
      var negated := false;
      if IsTagNegated() {
        var c := parser.ConsumeChar();
        assert c == '-';
        negated := true;
      }
      var raw := parser.ConsumeWhile(ValidTag);
      var name := ToLower(raw);
      if !parser.Eof() && parser.NextChar() == ':' {
        r := ParseSpecialTag(negated, name);
        return;
      }
      return Ok(TagToken(negated, PlainTag, name));
    }

    method ParseSpecialTag(negated: bool, name: string) returns (r: Result<TagToken, BlacklistError>)
      requires parser.Valid() && CharAt(parser.input, parser.pos, ':')
      modifies parser
      ensures parser.Valid() && parser.input == old(parser.input)
      ensures (r, parser.pos) == SpecialTagAt(parser.input, old(parser.pos), negated, name)
    {
      var colon := parser.ConsumeChar();
      assert colon == ':';
      if name == "rating" {
        var value := parser.ConsumeWhile(ValidRating);
        return Ok(TagToken(negated, RatingTag(GetRating(value)), name));
      } else if name == "id" {
        var digits := parser.ConsumeWhile(ValidId);
        return Ok(TagToken(negated, IdTag(Some(IdOrZero(digits))), name));
      } else if name == "user" {
        var user := parser.ConsumeWhile(ValidUser);
        return Ok(TagToken(negated, UserTag(Some(user)), name));
      } else if name == "score" {
        var ordering := GetOrdering();
        var score := parser.ConsumeWhile(ValidScore);
        var value := ParseInt(score, I32Min, I32Max);
        if value.None? {
          return Err(ScoreNotNumber(score));
        }
        return Ok(TagToken(negated, ScoreTag(ordering, value.value), name));
      }
      return Err(UnknownSpecialTag(parser.ReportError("Unknown special tag identifier: " + name)));
    }

    method GetOrdering() returns (o: Ordering)
      requires parser.Valid()
      modifies parser
      ensures parser.Valid() && parser.input == old(parser.input)
      ensures parser.pos == SkipWhile(parser.input, old(parser.pos), ValidOrdering)
      ensures o == OrderingOf(parser.input[old(parser.pos)..parser.pos])
    {
      var order := parser.ConsumeWhile(ValidOrdering);
      if order == "<" {
        return Less;
      } else if order == ">=" {
        return Greater;
      }
      return Equal;
    }
  }

  /** `BlacklistParser::new(text).parse_blacklist()`. */
  method ReadBlacklist(text: string) returns (r: Result<seq<LineToken>, BlacklistError>)
    ensures r == ParseBlacklistText(text)
  {
    var bp := new BlacklistParser(text);
    r := bp.ParseBlacklist();
  }
}
