# e621_downloader, modelled in Dafny

This project models the core of e621_downloader, a command-line program that
downloads posts from e621.net (or its safe-mode sibling e926.net). It starts from
two text files. The tag file lists the artists, general tags, pools, sets and single
posts the user wants. The blacklist lists the tags whose posts must never be
downloaded. The program turns them into named, filtered and ordered collections of
files and writes each file under `<download directory>/<category>/<collection>/`.
Files that already exist are skipped. The model also covers the selection state
machine of the vendored `terminal-menu` crate.

The modules follow the program's structure:

- `Wrappers`: Option and Result.
- `Text`: the standard-library string helpers the program relies on. These are
  whitespace, `trim`, ASCII lower case, `split`, `replace`, `trim_start_matches`,
  decimal parsing and formatting.
- `BaseParsing`: the character cursor `BaseParser` (`src/e621/io/parser.rs`). It is
  a class whose methods advance the position and the line counter.
- `TagTypes`, `Entries`: tag classifications and the API entries the program reads.
- `TagFile`, `TagFileFacts`: the grammar of the tag file, as functions over a cursor
  position, and the `TagParser` object, which is proved to compute them. Also the
  classification of entries through an abstract tag and alias lookup, and what a
  successful parse guarantees.
- `BlacklistParsing`, `BlacklistFacts`, `BlacklistFilter`: the blacklist grammar
  and parser object, and the `FlagWorker` margin counting. `filter_posts` removes,
  line by line, exactly the posts that a line flags.
- `Sender`: the url table, the in-place e926 rewrite, url forming and the choice of
  authorization header. The e621 API is a parameter: a function from each request
  to the entries it answers with.
- `Grabbing`: searches over an abstract sequence of result pages.
  - `general_search` reads pages 1 to 4. `special_search` reads until a page is empty.
  - Every page is blacklist-gated, cleared of posts without a url, reversed and appended.
  - A pool is reordered by swaps.
  - File names and name shortening are modelled.
  - Collection 0 always holds the single posts.
- `Connector`: `remove_invalid_chars`, the total file size, the download path of a
  file, and the download loop, which never writes over an existing file.
- `Menu`, `FancyMenu`: menu items and the menu struct, kept as a tree of objects.
  Also the running loop, driven by a sequence of inputs: key presses, typed lines,
  resizes and the polls that find no event (`Idle`), which end a batch of `handle_input`.

Two loops of the program never end on some inputs. In the tag file, `parse_tags`
never ends when an entry line under a numeric group starts with a character that is
not a digit. In the blacklist, `parse_line` never ends when a tag starts with a
character that no token reads. A Dafny loop must end, so the model returns an error,
`Stuck`, at the point where the program would loop forever. Beside each parser, a
fuel-bounded function models the loop as written and is proved never to finish on
those inputs (see Findings).

Behaviour of the program that the model keeps as written:

- In a blacklist, whitespace before a line break makes `consume_whitespace` swallow
  the break. The next line's tags then join the current line.
- `search_for_tag` filters lazily and then calls `find`, so its later `last()`
  always sees an exhausted iterator. An entry with no special token is therefore
  classified General.
- A `#` comment ends at a tab as well as at a line break, because a comment may not
  hold control characters.
- Negated `score:` tags do not count toward the negated margin, yet they still
  raise negated flags.
- When the page counter of `special_search` would pass `u16::MAX`, the model
  reports the error `PageOverflow`. This is the behaviour of a debug build, where
  the `u16` addition panics on overflow. A release build wraps the counter to 0
  and goes on requesting pages; the model does not follow that build.

## Model

| member | source | states |
|---|---|---|
| Text.ToLower | src/e621/blacklist.rs:164 | `to_lowercase` on ASCII text changes only upper-case letters and keeps the length |
| Text.ToLowerKeeps | src/e621/blacklist.rs:164 | text without upper-case letters is its own lower case |
| Text.ToLowerIdempotent | src/e621/blacklist.rs:228 | lowering twice is lowering once |
| Text.TakeWhile | src/e621/io/parser.rs:56-66 | the longest prefix whose characters all pass the test |
| Text.TakeWhileUnique | src/e621/io/parser.rs:56-66 | a passing prefix that stops at a failing character is that longest prefix |
| Text.TrimStart | src/e621/io/parser.rs:41 | `trim_start` keeps a suffix that does not start with whitespace |
| Text.TrimStartDrops | src/e621/io/parser.rs:41 | what `trim_start` drops is whitespace and what it keeps is the rest of the text |
| Text.TrimEnd | src/e621/io/parser.rs:41 | `trim_end` keeps a prefix that does not end with whitespace |
| Text.TrimEndDrops | src/e621/io/parser.rs:41 | what `trim_end` drops is whitespace and what it keeps is the start of the text |
| Text.Trim | src/e621/io/parser.rs:41 | the trimmed text neither starts nor ends with whitespace and is a slice of the input |
| Text.TrimIdentity | src/e621/io/parser.rs:41 | text that neither starts nor ends with whitespace is unchanged by `trim` |
| Text.TrimDigits | src/e621/io/tag.rs:378 | a string of digits is unchanged by `trim` |
| Text.TrimIdempotent | src/e621/io/parser.rs:41 | trimming twice is trimming once |
| Text.TrimStartMatches | src/e621/io/tag.rs:189 | `trim_start_matches('-')` keeps a suffix that does not start with `-` |
| Text.TrimStartMatchesDrops | src/e621/io/tag.rs:189 | what it drops is copies of the character and what it keeps is the rest of the text |
| Text.StartsWithChar | src/e621/io/parser.rs:89-91 | a one-character `starts_with` is a test of the character under the cursor |
| Text.Split | src/e621/io/tag.rs:187 | `split(' ')` pieces contain no separator and there is one more piece than separators |
| Text.JoinSplit | src/e621/io/tag.rs:187 | joining the pieces with the separator gives back the text |
| Text.ReplaceAbsent | src/e621/sender/mod.rs:200 | replacing a pattern that does not occur changes nothing |
| Text.ReplaceKeepsPrefix | src/e621/sender/mod.rs:200 | replacing over a prefix where the pattern does not start keeps that prefix |
| Text.DigitChar | src/e621/grabber.rs:107 | a digit below ten renders as the ASCII digit with that value |
| Text.NatToString | src/e621/grabber.rs:107 | the decimal rendering is one or more digits whose value is the number, one digit exactly below ten |
| Text.IntToString | src/e621/blacklist.rs:564 | the rendering of a negative number is `-` followed by the rendering of its absolute value |
| Text.ParseInt | src/e621/blacklist.rs:197 | a value `parse` accepts is always within the target type's range |
| Text.ParseIntToString | src/e621/blacklist.rs:564 | parsing the rendering of an in-range integer gives the integer back |
| Text.ParseDigits | src/e621/blacklist.rs:197 | a string of digits parses to its value exactly when that value is in range, and fails otherwise |
| Text.ZeroPad | src/e621/grabber.rs:107 | `{:05}` gives at least five characters, leading zeros, then the decimal rendering |
| Text.ZeroPadValue | src/e621/grabber.rs:107 | the padded text is all digits and still reads as the number |
| BaseParsing.SkipWhile | src/e621/io/parser.rs:56-66 | where `consume_while` stops, never before the start nor past the end |
| BaseParsing.SkipWhileStops | src/e621/io/parser.rs:61 | it stops at the end of the text or at a character the test rejects |
| BaseParsing.SkipWhilePasses | src/e621/io/parser.rs:61-63 | every character it skips passes the test |
| BaseParsing.SkipWhileTakes | src/e621/io/parser.rs:56-66 | the skipped characters are the longest passing prefix of the rest of the text |
| BaseParsing.SkipWhileRun | src/e621/io/parser.rs:56-66 | a passing run that ends at the end or at a rejected character is exactly what is skipped |
| BaseParsing.BaseParser.constructor | src/e621/io/parser.rs:39-48 | the parser holds the trimmed input at position 0, the length of the raw text, and the number of line breaks in the trimmed text |
| BaseParsing.BaseParser.Eof | src/e621/io/parser.rs:99-101 | end of file exactly when the cursor is at or past the end of the input |
| BaseParsing.BaseParser.StartsWith | src/e621/io/parser.rs:89-96 | the rest of the input starts with the prefix; for one character, the character under the cursor is it |
| BaseParsing.BaseParser.ReportError | src/e621/io/parser.rs:106-118 | the error carries the message, the cursor, and the line count the cursor has walked past |
| BaseParsing.BaseParser.ConsumeChar | src/e621/io/parser.rs:69-81 | returns the character under the cursor and advances by one; the line counter stays in step with the cursor and the input and totals are unchanged |
| BaseParsing.BaseParser.ConsumeWhile | src/e621/io/parser.rs:56-66 | the cursor ends where `SkipWhile` says and the result is exactly the characters passed over |
| BaseParsing.BaseParser.ConsumeWhitespace | src/e621/io/parser.rs:51-53 | the cursor skips exactly the whitespace run |
| Entries.ToTagType | src/e621/sender/entries.rs:93-102 | category 1 is an artist exactly, 0 and 3 to 8 are general exactly, and 2 or anything above 8 is the unreachable case exactly |
| Entries.CombineTags | src/e621/sender/entries.rs:248-262 | every category's tags in one list, general first; a tag is in the list exactly when it is in one of the eight categories, and the length is the sum |
| TagFile.CreateTag | src/e621/io/tag.rs:259-279 | the tag is named after the entry line; artists are special, characters with at most 1500 posts are special, the rest general; an unexpected category is an error |
| TagFile.ResolveToken | src/e621/io/tag.rs:188-203 | a token found by name or through an alias gives a tag named after the line of a real search type; a failure is an unknown tag or category |
| TagFile.SearchTokens | src/e621/io/tag.rs:182-213 | the lazy search fails only with an unknown tag or an unexpected category |
| TagFile.SearchForTag | src/e621/io/tag.rs:182-213 | `search_for_tag` on the space-separated tokens of the line fails only with an unknown tag or category |
| TagFile.SearchTokensShape | src/e621/io/tag.rs:206-212 | the found tag is named after the whole line and is either special or the general fallback |
| TagFile.FirstSpecialWins | src/e621/io/tag.rs:208 | the first special token decides the result, whatever the tokens after it are |
| TagFile.NoSpecialIsGeneral | src/e621/io/tag.rs:209-212 | when every token resolves and none is special, the result is the general tag named after the line |
| TagFile.FirstFailureStops | src/e621/io/tag.rs:195-200 | a token that fails before any special token makes the whole search fail with its error |
| TagFile.TagAt | src/e621/io/tag.rs:360-381 | reading one entry never moves the cursor backwards nor past the end |
| TagFile.TagLoopIteration | src/e621/io/tag.rs:333-348 | a comment pass advances, the end of a group does not move backwards, and a read entry starts on a character of the text |
| TagFile.TagsFrom | src/e621/io/tag.rs:331-351 | the entries of a group end between the start and the end of the text |
| TagFile.GroupAt | src/e621/io/tag.rs:315-324 | a group read at `[` always moves the cursor forward |
| TagFile.GroupAtCases | src/e621/io/tag.rs:315-324 | the three ways `parse_group` ends: no closing bracket by the end, another character instead of `]`, or the entries after `]` |
| TagFile.GroupAtClosed | src/e621/io/tag.rs:318-323 | a closed group's result and end position are those of its entries |
| TagFile.ParseTagFileText | src/e621/io/tag.rs:135-148 | the parser built over the file text and run through all its groups gives `ParseTagFile` |
| TagFile.TagParser.constructor | src/e621/io/tag.rs:136-146 | a fresh base parser over the trimmed text at position 0, with the identifier |
| TagFile.TagParser.ParseGroups | src/e621/io/tag.rs:292-312 | the groups read from the cursor are `GroupsFrom` of the input from that cursor |
| TagFile.TagParser.ParseGroup | src/e621/io/tag.rs:315-324 | the group and the new cursor are `GroupAt` of the input at the old cursor |
| TagFile.TagParser.ParseTags | src/e621/io/tag.rs:331-351 | the entries and the new cursor are `TagsFrom` of the input at the old cursor |
| TagFile.TagParser.ParseTag | src/e621/io/tag.rs:360-381 | the entry and the new cursor are `TagAt` of the input at the old cursor |
| TagFile.TagParser.CheckAndParseComment | src/e621/io/tag.rs:384-391 | a comment exactly when the cursor is on `#`, and then the cursor skips the comment characters; otherwise it stays |
| TagFile.TagParser.ParseComment | src/e621/io/tag.rs:394-396 | the cursor skips exactly the run of comment characters |
| TagFileFacts.IdentifySound | src/e621/io/tag.rs:170-213 | whatever the API answers, an identified entry is an artist or general tag of a real search type, and a failure is an unknown tag or category |
| TagFileFacts.TagAtWellFormed | src/e621/io/tag.rs:360-381 | every entry read successfully fits its group, and reading an entry never reports `Stuck` |
| TagFileFacts.TagsFromWellFormed | src/e621/io/tag.rs:331-351 | entries already read stay in front in order, every entry fits the group, and the group ends at the end or at the next `[` |
| TagFileFacts.GroupAtWellFormed | src/e621/io/tag.rs:315-324 | a group that parses is well formed and the next group, if any, starts right after it |
| TagFileFacts.ClosedGroupWellFormed | src/e621/io/tag.rs:316-323 | a closed group with parsed entries has a name of group characters and entries that fit it |
| TagFileFacts.GroupsFromWellFormed | src/e621/io/tag.rs:292-312 | groups already read stay in front in file order and every group is well formed |
| TagFileFacts.ParseTagFileWellFormed | src/e621/io/tag.rs:135-148 | every group of a tag file that parses is well formed |
| TagFileFacts.TextOutsideGroupsFails | src/e621/io/tag.rs:304-308 | text that starts with neither a comment nor a `[` is rejected with "Tags must be in groups!" at position 0, line 0 |
| TagFileFacts.OutsideGroupsAt | src/e621/io/tag.rs:304-308 | the same rejection for any identifier |
| TagFileFacts.TagsAsWritten | src/e621/io/tag.rs:331-351 | the loop exactly as written, for a bounded number of passes, ends inside the text when it ends |
| TagFileFacts.RepeatedPass | src/e621/io/tag.rs:334-347 | a pass started where the previous pass started its entry repeats that pass |
| TagFileFacts.StuckForever | src/e621/io/tag.rs:333-348 | once an entry consumes nothing, the loop as written never finishes |
| TagFileFacts.AsWrittenAgrees | src/e621/io/tag.rs:331-351 | where the loop as written finishes, the model's loop gives the same entries and end |
| TagFileFacts.StuckDiverges | src/e621/io/tag.rs:333-348 | where the model reports `Stuck`, the loop as written never finishes |
| TagFileFacts.AsWrittenFinishes | src/e621/io/tag.rs:333-348 | where the model does not report `Stuck`, the loop as written finishes within one pass per character with the same result |
| TagFileFacts.FinishesAfterStep | src/e621/io/tag.rs:333-348 | the same after one pass that skips a comment or reads an entry |
| TagFileFacts.MoreFuel | src/e621/io/tag.rs:333-348 | a loop that finished within some passes finishes the same way with more |
| TagFileFacts.PoolsLetterNeverEnds | src/e621/io/tag.rs:367 | in `[pools]` followed by a letter the loop as written never finishes, and the model rejects the file with `Stuck` at the letter |
| TagFileFacts.PoolsLetterAt | src/e621/io/tag.rs:367 | the same for any sound identifier |
| TagFileFacts.PoolsGroupStuck | src/e621/io/tag.rs:315-324 | the `[pools]` group of that text ends with `Stuck` at the letter |
| TagFileFacts.PoolsEntryStuck | src/e621/io/tag.rs:367-378 | the entry read at the letter is empty, so its entries end with `Stuck` |
| TagFileFacts.PoolsTextTrimmed | src/e621/io/parser.rs:41 | that text is its own trim |
| BlacklistParsing.RatingRoundTrip | src/e621/blacklist.rs:227-234 | both the letter and the full name of a rating, in any case, read back as that rating |
| BlacklistParsing.RatingUnknown | src/e621/blacklist.rs:227-234 | a value that is no rating's letter or name reads as `Rating::None` |
| BlacklistParsing.IdOrZero | src/e621/blacklist.rs:194-199 | `parse::<i64>().unwrap_or_default()`: the parsed id when the digits fit in an `i64`, otherwise 0 |
| BlacklistParsing.SpecialTagAt | src/e621/blacklist.rs:186-218 | reading the value of a special tag always moves past the `:` and never past the end |
| BlacklistParsing.TagTokenAt | src/e621/blacklist.rs:157-172 | reading one tag never moves the cursor backwards nor past the end |
| BlacklistParsing.LineIteration | src/e621/blacklist.rs:134-146 | a line break ends the line one character on, the end of the text ends it at the end, and a tag is read from a character of the text |
| BlacklistParsing.LineFrom | src/e621/blacklist.rs:132-149 | a line that parses over non-empty text always consumes at least one character |
| BlacklistParsing.BlacklistParser.constructor | src/e621/blacklist.rs:106-111 | a fresh base parser over the trimmed text at position 0 |
| BlacklistParsing.BlacklistParser.ParseBlacklist | src/e621/blacklist.rs:114-129 | the lines read from the cursor are `LinesFrom` of the input from that cursor |
| BlacklistParsing.BlacklistParser.ParseLine | src/e621/blacklist.rs:132-149 | the line and the new cursor are `LineFrom` of the input at the old cursor |
| BlacklistParsing.BlacklistParser.LineStep | src/e621/blacklist.rs:134-146 | one pass of the `parse_line` loop moves the cursor as `LineIteration` says |
| BlacklistParsing.BlacklistParser.IsTagNegated | src/e621/blacklist.rs:152-154 | negated exactly when the cursor is on `-` |
| BlacklistParsing.BlacklistParser.ParseTag | src/e621/blacklist.rs:157-172 | the tag and the new cursor are `TagTokenAt` of the input at the old cursor |
| BlacklistParsing.BlacklistParser.ParseSpecialTag | src/e621/blacklist.rs:186-218 | the tag and the new cursor are `SpecialTagAt` of the input at the old cursor |
| BlacklistParsing.BlacklistParser.GetOrdering | src/e621/blacklist.rs:237-244 | the cursor skips the run of `<`, `>` and `=`, and the ordering is that of the run: `<` is less, `>=` at least, anything else equal |
| BlacklistParsing.ReadBlacklist | src/e621/blacklist.rs:545-549 | a parser built over the text and run through all its lines gives `ParseBlacklistText` |
| BlacklistFacts.LowerTagChars | src/e621/blacklist.rs:164 | a tag name after `to_lowercase` still consists of tag characters and has no upper-case letter |
| BlacklistFacts.SpecialTagWellFormed | src/e621/blacklist.rs:186-218 | every special tag read successfully is well formed |
| BlacklistFacts.TagTokenWellFormed | src/e621/blacklist.rs:157-172 | every tag read successfully is well formed: an ordinary tag has a lower-case name of tag characters, and a special tag carries its kind as its name with a user name of user characters, a 64-bit id or a 32-bit score |
| BlacklistFacts.ReadTagWellFormed | src/e621/blacklist.rs:157-172 | the program's tag reader yields only well-formed tags |
| BlacklistFacts.LineFromWellFormed | src/e621/blacklist.rs:132-149 | every tag of a line that parses is well formed |
| BlacklistFacts.LinesFromWellFormed | src/e621/blacklist.rs:114-129 | every line of a blacklist that parses is well formed |
| BlacklistFacts.ParsedWellFormed | src/e621/blacklist.rs:545-549 | every line of a parsed blacklist text is well formed |
| BlacklistFacts.LineBreakAfterTag | src/e621/blacklist.rs:134-141 | `fox\nwolf` is two lines, but `fox \nwolf` is one line of two tags |
| BlacklistFacts.BreakEndsLine | src/e621/blacklist.rs:135-138 | a line break under the cursor ends the line with the tags read so far, one character on |
| BlacklistFacts.WhitespaceJoinsLines | src/e621/blacklist.rs:140 | other whitespace before a line break is skipped together with the break, so the line goes on |
| BlacklistFacts.TwoLines | src/e621/blacklist.rs:114-149 | `fox\nwolf` reads as the two lines `fox` and `wolf` |
| BlacklistFacts.FoxAtStart | src/e621/blacklist.rs:157-172 | `fox` followed by a character that is neither a tag character nor `:` is read as the ordinary tag `fox` |
| BlacklistFacts.FoxLine | src/e621/blacklist.rs:132-149 | the first line of `fox\nwolf` is `fox` and ends after the break |
| BlacklistFacts.WolfLine | src/e621/blacklist.rs:132-149 | the second line of `fox\nwolf` is `wolf` and ends at the end |
| BlacklistFacts.JoinedLines | src/e621/blacklist.rs:114-149 | `fox \nwolf` reads as the single line `fox wolf` |
| BlacklistFacts.JoinedWolf | src/e621/blacklist.rs:140-146 | after `fox ` the line goes on over the break and takes `wolf` |
| BlacklistFacts.LineAsWritten | src/e621/blacklist.rs:134-146 | the loop exactly as written, for a bounded number of passes, ends inside the text when it ends |
| BlacklistFacts.RepeatedPass | src/e621/blacklist.rs:134-146 | a pass started where the previous pass started its tag repeats that pass |
| BlacklistFacts.StuckForever | src/e621/blacklist.rs:134-146 | once a tag consumes nothing, the loop as written never finishes |
| BlacklistFacts.AsWrittenAgrees | src/e621/blacklist.rs:132-149 | where the loop as written finishes, the model's loop gives the same line and end |
| BlacklistFacts.ReadTagNeverStuck | src/e621/blacklist.rs:157-172 | the program's tag reader never reports `Stuck` itself |
| BlacklistFacts.StuckDiverges | src/e621/blacklist.rs:134-146 | where the model reports `Stuck`, the loop as written never finishes |
| BlacklistFacts.AsWrittenFinishes | src/e621/blacklist.rs:134-146 | where the model does not report `Stuck`, the loop as written finishes within one pass per character with the same result |
| BlacklistFacts.MoreFuel | src/e621/blacklist.rs:134-146 | a loop that finished within some passes finishes the same way with more |
| BlacklistFacts.SymbolNeverEnds | src/e621/blacklist.rs:254-266 | on `fox ♥` the loop as written never finishes, and the model rejects the text with `Stuck` at the symbol |
| BlacklistFilter.RatingMatchesLetter | src/e621/blacklist.rs:382-390 | a rating tag matches exactly the posts whose code is that rating's letter |
| BlacklistFilter.MarginMetIffAllMatch | src/e621/blacklist.rs:358-372 | the flags of the ordinary tags reach the margin exactly when every ordinary tag matches, and never exceed it |
| BlacklistFilter.NegatedMetIffAllMatch | src/e621/blacklist.rs:358-372 | without negated score tags, the negated flags reach the negated margin exactly when every negated tag matches |
| BlacklistFilter.NegatedMarginZero | src/e621/blacklist.rs:361-368 | the negated margin is zero exactly when every negated tag is a score tag |
| BlacklistFilter.LineFlagsMeaning | src/e621/blacklist.rs:449-487 | without negated score tags, a line flags a post exactly when all its ordinary tags match, unless it has negated tags and all of them match too |
| BlacklistFilter.NegatedScoreQuirk | src/e621/blacklist.rs:361-365 | a negated score tag raises a flag no margin counts, so `fox -score:<10 -rating:s` does not flag an explicit fox post with score 5 |
| BlacklistFilter.FlagWorker.constructor | src/e621/blacklist.rs:339-350 | every counter starts at zero and the post is not flagged |
| BlacklistFilter.FlagWorker.SetFlagMargin | src/e621/blacklist.rs:358-372 | the margins grow by the count of ordinary tags and of negated non-score tags; nothing else changes |
| BlacklistFilter.FlagWorker.RaiseFlag | src/e621/blacklist.rs:504-510 | one more negated flag or one more flag, as `negated` says; nothing else changes |
| BlacklistFilter.FlagWorker.FlagRating | src/e621/blacklist.rs:382-390 | a flag is raised exactly when the post's code is the rating's letter |
| BlacklistFilter.FlagWorker.FlagId | src/e621/blacklist.rs:400-404 | a flag is raised exactly when the ids are equal |
| BlacklistFilter.FlagWorker.FlagUser | src/e621/blacklist.rs:414-418 | a flag is raised exactly when the post's uploader is the user |
| BlacklistFilter.FlagWorker.FlagScore | src/e621/blacklist.rs:427-441 | a flag is raised exactly when the score is below the bound for `<` or at least the bound for `>=`, never for equal |
| BlacklistFilter.FlagWorker.CheckPost | src/e621/blacklist.rs:449-487 | the flags grow by the tags that match; then a met negated margin clears the verdict and a met margin sets it; a user tag that is not an id stops the check |
| BlacklistFilter.FlagWorker.IsNegatedMarginMet | src/e621/blacklist.rs:490-492 | met exactly when there is a negated margin and the negated flags equal it |
| BlacklistFilter.FlagWorker.IsMarginMet | src/e621/blacklist.rs:495-497 | met exactly when the flags equal the margin |
| BlacklistFilter.FlagWorker.IsFlagged | src/e621/blacklist.rs:513-515 | the worker's verdict |
| BlacklistFilter.PrefixStep | src/e621/blacklist.rs:450-481 | one more tag adds one flag of its kind exactly when it matches, and a first unreadable user is that tag |
| BlacklistFilter.FirstUnparsedUserStays | src/e621/blacklist.rs:462-468 | the first user tag that is not an id stays the first one as more tags follow |
| BlacklistFilter.CheckWithFreshWorker | src/e621/blacklist.rs:585-594 | a fresh worker with its margins set and the post checked gives the line's verdict `CheckLine` |
| BlacklistFilter.UnflaggedMembers | src/e621/blacklist.rs:581-605 | a post is kept exactly when it was given and no line flags it; no posts are invented |
| BlacklistFilter.RetainLineResult | src/e621/blacklist.rs:584-598 | one line keeps the posts it does not flag and removes the rest; a line with an unreadable user fails on the first post |
| BlacklistFilter.UnflaggedSnoc | src/e621/blacklist.rs:583-598 | filtering by one more line after the others is filtering by all of them |
| BlacklistFilter.FilterLinesResult | src/e621/blacklist.rs:581-605 | with every user resolved, filtering keeps exactly the posts no line flags, in order, and counts the rest |
| BlacklistFilter.UnflaggedNone | src/e621/blacklist.rs:581-605 | an empty blacklist keeps every post |
| BlacklistFilter.UnflaggedKeepsPassing | src/e621/blacklist.rs:581-605 | posts no line flags are all kept |
| BlacklistFilter.FilterOkResolved | src/e621/blacklist.rs:581-605 | a filter that succeeds with posts left had every user resolved |
| BlacklistFilter.FilterIdempotent | src/e621/blacklist.rs:581-605 | filtering what a filter kept keeps everything and removes nothing |
| BlacklistFilter.FilterNothing | src/e621/blacklist.rs:581-605 | filtering no posts removes nothing |
| BlacklistFilter.CachedLineResolved | src/e621/blacklist.rs:552-567 | after caching, no user tag of a well-formed line fails to read as an id, when user ids are 64-bit |
| BlacklistFilter.CachedPrefixResolved | src/e621/blacklist.rs:552-567 | the same for every prefix of the cached line |
| BlacklistFilter.CacheLine | src/e621/blacklist.rs:557-566 | every user tag of the line gets the decimal id of its user as its name; other tags stay |
| BlacklistFilter.RetainPosts | src/e621/blacklist.rs:584-598 | `retain` over the posts for one line gives `RetainLine` |
| BlacklistFilter.RetainFailsOn | src/e621/blacklist.rs:584-598 | once a prefix of the posts fails, the whole list fails the same way |
| BlacklistFilter.Blacklist.constructor | src/e621/blacklist.rs:530-536 | a new blacklist has no lines |
| BlacklistFilter.Blacklist.ParseBlacklist | src/e621/blacklist.rs:545-549 | the lines become the parsed text; a parse error is reported and leaves the lines |
| BlacklistFilter.Blacklist.CacheUsers | src/e621/blacklist.rs:552-567 | every line becomes its cached form |
| BlacklistFilter.Blacklist.IsEmpty | src/e621/blacklist.rs:570-572 | empty exactly when there are no lines |
| BlacklistFilter.Blacklist.FilterPosts | src/e621/blacklist.rs:581-605 | the kept posts and the count are `FilterLines` of the lines |
| BlacklistFilter.FilterFailsOn | src/e621/blacklist.rs:583-598 | once the first lines fail, the whole blacklist fails the same way |
| BlacklistFilter.ReadCachedFilter | src/e621/blacklist.rs:545-605 | read, cached and applied, the blacklist never fails, keeps exactly the posts no line flags and returns the number removed |
| Sender.AuthFor | src/e621/sender/mod.rs:162-167 | no authorization without a login; with one, a value that starts with the user name |
| Sender.UrlsAt | src/e621/sender/mod.rs:176-188 | the table under a host has exactly the keys of the url table |
| Sender.InitialUrlMap | src/e621/sender/mod.rs:176-188 | the initial table has the nine keys and every url starts with `https://e621.net/` |
| Sender.SafeUrls | src/e621/sender/mod.rs:196-201 | safe mode keeps the keys of the table |
| Sender.ReplaceKeepsNoSix | src/e621/sender/mod.rs:200 | a text without the digit 6 has no `e621` to replace |
| Sender.SafeUrl | src/e621/sender/mod.rs:200 | under `https://e621.net/`, a path without the digit 6 becomes the same path under `https://e926.net/` |
| Sender.SafeInitialUrls | src/e621/sender/mod.rs:196-201 | safe mode turns the initial table into the same table on `https://e926.net/` |
| Sender.PathsWithoutSix | src/e621/sender/mod.rs:176-188 | no path of the table contains the digit 6 |
| Sender.AppendUrl | src/e621/sender/mod.rs:304-306 | the url, then the id or name, then `.json` |
| Sender.AppendUrlInjective | src/e621/sender/mod.rs:304-306 | different ids under the same url give different request urls |
| Sender.BulkRequestTo | src/e621/sender/mod.rs:366-388 | the posts url with the authorized headers and the query tags, page and limit 320 in that order |
| Sender.EntryRequestTo | src/e621/sender/mod.rs:316-323 | the request of `get_entry_from_appended_id`: the id appended to the url of its kind, with the authorized headers |
| Sender.SenderClient.constructor | src/e621/sender/mod.rs:86-93 | the client keeps the user agent and the authorization value |
| Sender.SenderClient.Get | src/e621/sender/mod.rs:116-118 | a request to the url with only the user-agent header |
| Sender.SenderClient.GetWithAuth | src/e621/sender/mod.rs:127-133 | the user-agent header first, and an authorization header exactly when there is an authorization value |
| Sender.RequestSender.constructor | src/e621/sender/mod.rs:161-173 | the initial url table, the authorization value of the login and the API |
| Sender.RequestSender.IsAuthenticated | src/e621/sender/mod.rs:191-193 | authenticated exactly when there is an authorization value |
| Sender.RequestSender.UpdateToSafe | src/e621/sender/mod.rs:196-201 | every url of the table has `e621` replaced by `e926`, and the keys stay |
| Sender.RequestSender.EntryRequest | src/e621/sender/mod.rs:316-323 | an authorized request to the table's url for the key with the id and `.json` appended |
| Sender.RequestSender.UserLookup | src/e621/blacklist.rs:558-563 | the user a name resolves to is the API's answer to the user entry request for that name |
| Sender.RequestSender.BulkSearch | src/e621/sender/mod.rs:366-388 | the posts are the API's answer to the bulk request for the tags and the page |
| Sender.RequestSender.GetSinglePost | src/e621/sender/mod.rs:316-356 | the post is the API's answer to the `single` entry request for the id |
| Sender.RequestSender.GetPool | src/e621/sender/mod.rs:316-356 | the pool is the API's answer to the `pool` entry request for the id |
| Sender.RequestSender.GetSet | src/e621/sender/mod.rs:316-356 | the set is the API's answer to the `set` entry request for the id |
| Sender.RequestSender.GetUser | src/e621/sender/mod.rs:316-356 | the user is the API's answer to the `user` entry request for the name |
| Grabbing.NamingOf | src/e621/grabber.rs:122-139 | `md5` names by digest and `id` names by id, exactly; any other value is the naming error |
| Grabbing.FileName | src/e621/grabber.rs:124-130 | the stem, a dot, the extension |
| Grabbing.FromPost | src/e621/grabber.rs:121-142 | the post's url and size, and its name under the convention |
| Grabbing.IdNamesDiffer | src/e621/grabber.rs:129 | under the id convention, posts with different ids and the same extension get different file names |
| Grabbing.FromPoolPost | src/e621/grabber.rs:104-110 | the post's url and size, named after the pool and the page |
| Grabbing.NewVec | src/e621/grabber.rs:71-75 | one file per post, in order, with the post's url, size and conventional name |
| Grabbing.NewPoolVec | src/e621/grabber.rs:88-93 | one file per post, in order; the post at index i is page i + 1 of the pool, wrapped to 16 bits |
| Grabbing.DigitCount | src/e621/grabber.rs:107 | a number below 10^k has at most k decimal digits |
| Grabbing.PoolPageDigits | src/e621/grabber.rs:107 | the five characters after `{pool} Page_` are digits that read as the page, for every page of 16 bits |
| Grabbing.PoolFileNamesDiffer | src/e621/grabber.rs:107 | different pages of a pool give different file names, whatever the extensions |
| Grabbing.PageOfPoolName | src/e621/grabber.rs:107 | the page read back from a pool file name is the page it was made with |
| Grabbing.PageOfVecName | src/e621/grabber.rs:88-93 | the page read back from the name at index i is i + 1 |
| Grabbing.PoolNamesDiffer | src/e621/grabber.rs:88-93 | in a pool of fewer than 65536 posts, no two files get the same name |
| Grabbing.PoolVecNames | src/e621/grabber.rs:88-93 | below 65536 posts, the name at index i uses page i + 1 without wrapping |
| Grabbing.Shorten | src/e621/grabber.rs:203-230 | names shorter than 25 are kept; longer ones become their first 25 characters and the delimiter |
| Grabbing.ShortenIdempotent | src/e621/grabber.rs:203-211 | shortening a shortened name changes nothing more |
| Grabbing.KeepValid | src/e621/grabber.rs:652-666 | never more posts than given |
| Grabbing.KeepValidMembers | src/e621/grabber.rs:654-661 | a post is kept exactly when it was given, is not deleted and has a url |
| Grabbing.KeepValidIdempotent | src/e621/grabber.rs:652-666 | removing invalid posts twice is removing them once |
| Grabbing.RemoveInvalidPosts | src/e621/grabber.rs:652-666 | the kept posts are the valid ones in order, and the count is how many were dropped |
| Grabbing.Reverse | src/e621/grabber.rs:581 | the same posts in the opposite order |
| Grabbing.ProcessPageKeeps | src/e621/grabber.rs:572-583 | every post a page keeps was on the page, is valid, and passes the blacklist when there is one |
| Grabbing.StepWithKeeps | src/e621/grabber.rs:572-583 | the program's page step keeps only admitted posts |
| Grabbing.SearchReadsUpTo | src/e621/grabber.rs:570-584 | the search result depends only on the pages before the first empty one or the last page |
| Grabbing.GeneralSearchReadsFourPages | src/e621/grabber.rs:607 | the general search reads pages 1 to 4 only |
| Grabbing.SpecialSearchStops | src/e621/grabber.rs:573-576 | the special search reads no page after the first empty one |
| Grabbing.SearchCollects | src/e621/grabber.rs:570-584 | the posts collected earlier stay in front, and every new post is admitted and on a page read |
| Grabbing.SearchBound | src/e621/grabber.rs:570-584 | a search gains at most one page's size per page read |
| Grabbing.GeneralSearchBound | src/e621/grabber.rs:600-622 | with pages of at most 320 posts, a general search returns at most 1280 posts |
| Grabbing.SearchResultValid | src/e621/grabber.rs:518-548 | every post a search returns has a url, passes the blacklist and is on some page of the search |
| Grabbing.RetainPresentMembers | src/e621/grabber.rs:461-463 | the pool keeps exactly the ids some found post has, and distinct ids stay distinct |
| Grabbing.RetainPresent | src/e621/grabber.rs:461-463 | never more ids than the pool had |
| Grabbing.FirstWithId | src/e621/grabber.rs:489 | `position`: the first index of a post with the id, and `None` exactly when no post has it |
| Grabbing.Swap | src/e621/grabber.rs:490 | the two posts exchange places, nothing else moves, the posts are a permutation |
| Grabbing.PlaceAt | src/e621/grabber.rs:487-491 | one step of the sort puts a post with the id at position i and permutes the posts |
| Grabbing.SortPool | src/e621/grabber.rs:486-493 | a sort that finishes gives a permutation of the posts |
| Grabbing.SortPoolFailsOn | src/e621/grabber.rs:486-493 | once a step of the sort fails, the whole sort fails |
| Grabbing.HasIdPermuted | src/e621/grabber.rs:490 | a permutation keeps every id present |
| Grabbing.AllHaveUrlsPermuted | src/e621/grabber.rs:490 | a permutation of posts with urls has urls everywhere |
| Grabbing.SortPoolOrders | src/e621/grabber.rs:486-493 | with distinct ids all present, the sort finishes and the first posts carry the ids in the pool's order |
| Grabbing.SortPoolStep | src/e621/grabber.rs:487-491 | placing one more id keeps the ids already placed |
| Grabbing.PlaceAtKeepsPrefix | src/e621/grabber.rs:489-490 | an id absent from the first positions is found at or after them, and these positions keep their ids |
| Grabbing.PoolInOrder | src/e621/grabber.rs:461-466 | after `retain`, the pool's distinct ids always sort the found posts into the pool's order |
| Grabbing.SortPoolById | src/e621/grabber.rs:486-493 | in place on the array: succeeds exactly when `SortPool` does, and then the array is its result |
| Grabbing.SortPosts | src/e621/grabber.rs:465-466 | the posts copied into an array and sorted there give `SortPool` |
| Grabbing.ExtendsTransitive | src/e621/grabber.rs:249-260 | growing the collections twice is growing them |
| Grabbing.WithSinglePost | src/e621/grabber.rs:345-360 | a post without url leaves the collections; otherwise its file joins the single-post collection, and nothing else changes |
| Grabbing.AddToSingles | src/e621/grabber.rs:351-353 | collection 0 gains the file when there is one; every other collection and their number stay |
| Grabbing.PushExtends | src/e621/grabber.rs:385-389 | appending a collection grows the collections |
| Grabbing.AllTags | src/e621/grabber.rs:328 | every tag of every group is in the flattened list |
| Grabbing.AllTagsAppend | src/e621/grabber.rs:328 | the tags of two lists of groups are the first's tags followed by the second's, so the list keeps the order of the groups and of each group's tags |
| Grabbing.AllTagsOne | src/e621/grabber.rs:328 | the tags of one group are its own tags, in order |
| Grabbing.CollectionCount | src/e621/grabber.rs:367-375 | at most one new collection per tag |
| Grabbing.PagesFrom | src/e621/grabber.rs:570-571 | page n of a search is the API's answer to the bulk request for the tags and page n |
| Grabbing.FavoritesGrab | src/e621/grabber.rs:308-320 | with a user name and favourites on: the search `fav:{user}` failing is the error, otherwise the collections gain one collection `fav:{user}` with no category and the files of the posts found; without, nothing changes |
| Grabbing.SingleFile | src/e621/grabber.rs:402-423 | the `single` entry of the tag's id gives a file exactly when it has a url and, in safe mode, is rated `s`; the file is the entry's, named by the convention |
| Grabbing.GeneralPushed | src/e621/grabber.rs:382-388 | the search for the tag with the tag's kind of search failing is the error; otherwise the collection named after the tag, in `General Searches`, with the files of the posts found |
| Grabbing.PoolPushed | src/e621/grabber.rs:453-472 | the `pool` entry of the tag's id, a special search for `pool:{id}`; a failed search is the error, a sort that does not finish is `PoolUnsorted`; otherwise the collection named after the pool, in `Pools`, with the found posts sorted into the order of the pool's retained ids and given page names |
| Grabbing.SetPushed | src/e621/grabber.rs:430-438 | the `set` entry of the tag's id, a special search for `set:{shortname}`; a failed search is the error; otherwise the collection named after the set, in `Sets`, with the files of the posts found |
| Grabbing.Pushed | src/e621/grabber.rs:367-375 | the collection of the tag's kind: artists and general tags in `General Searches` under the tag's name, sets and pools under the entry's name; an unknown kind, and only it, is `UnknownTagType`; `PoolUnsorted` only for a pool |
| Grabbing.Push | src/e621/grabber.rs:384-388 | a collection is appended after all the others, which stay; a failure is passed on |
| Grabbing.GrabOne | src/e621/grabber.rs:367-375 | one tag: a single post adds no collection, every other kind adds one, and the grab only pushes |
| Grabbing.GrabInTurn | src/e621/grabber.rs:327-332 | the tags in turn: a grab that succeeds only pushes, and adds one collection per tag that is not a single post |
| Grabbing.GrabInTurnFailsOn | src/e621/grabber.rs:329-331 | once a prefix of the tags fails, the whole grab fails the same way |
| Grabbing.Collected | src/e621/grabber.rs:329-331 | the collections the tags push, in order, are at most one per tag that is not a single post |
| Grabbing.GrabInTurnLast | src/e621/grabber.rs:329-331 | the last tag is grabbed on the collections of the tags before it |
| Grabbing.GrabOneSuffix | src/e621/grabber.rs:367-375 | past collection 0, one grab keeps every collection and appends at most the tag's collection |
| Grabbing.GrabInTurnCollects | src/e621/grabber.rs:327-332 | on success the new collections are exactly the ones the tags push, in the order of the tags, and no tag that is not a single post failed |
| Grabbing.TagGrab | src/e621/grabber.rs:367-375 | a post tag never fails and adds no collection; every other kind adds one; an unknown kind is the error |
| Grabbing.TagGrabCases | src/e621/grabber.rs:367-423 | a post tag is skipped in safe mode unless rated `s` and otherwise added as a single post; any other tag pushes the collection of its kind |
| Grabbing.GrabTags | src/e621/grabber.rs:327-332 | grabbing the tags in turn only pushes and adds one collection per tag that is not a single post |
| Grabbing.GrabTagsCollects | src/e621/grabber.rs:327-332 | on success the new collections are those of the tags that are not single posts, in the order of the tags, and each of those tags has its collection |
| Grabbing.GrabTagsStep | src/e621/grabber.rs:329-331 | grabbing one more tag is grabbing it on the collections of the tags before it |
| Grabbing.GrabTagsFailsOn | src/e621/grabber.rs:329-331 | once the grab fails on a prefix of the tags, the whole grab fails the same way |
| Grabbing.Grabber.constructor | src/e621/grabber.rs:270-277 | only the empty `Single Posts` collection, no blacklist, and the given safe mode |
| Grabbing.Grabber.SetBlacklist | src/e621/grabber.rs:289-293 | the blacklist is taken only when it has lines; nothing else changes |
| Grabbing.Grabber.SetSafeMode | src/e621/grabber.rs:303-305 | only the safe-mode switch changes |
| Grabbing.Grabber.Env | src/e621/grabber.rs:249-259 | the server, client and entry urls of the grabber's sender, its search over the sender's pages with its blacklist, its safe mode and naming; every post the search finds has a url |
| Grabbing.Grabber.EnvSearches | src/e621/grabber.rs:518-548 | the grabber's search for tags and a kind of search is `SearchResult` over the sender's pages with the current blacklist |
| Grabbing.Grabber.FilterWithBlacklist | src/e621/grabber.rs:631-639 | a logged-in user's blacklist filters the page; otherwise the page is kept whole, nothing filtered |
| Grabbing.Grabber.ProcessSearchPage | src/e621/grabber.rs:577-582 | a page becomes `ProcessPage` of it: filtered, cleared of invalid posts, reversed |
| Grabbing.Grabber.GeneralSearchPosts | src/e621/grabber.rs:600-622 | the general search loop computes `GeneralSearch` over the API's pages |
| Grabbing.Grabber.SpecialSearchPosts | src/e621/grabber.rs:563-585 | the special search loop computes `SpecialSearch` over the API's pages |
| Grabbing.Grabber.Search | src/e621/grabber.rs:518-548 | the search of the tag's kind computes `SearchResult` |
| Grabbing.Grabber.AddSinglePost | src/e621/grabber.rs:345-360 | the collections become `WithSinglePost` of the entry |
| Grabbing.Grabber.GrabPost | src/e621/grabber.rs:402-423 | collection 0 gains the `SingleFile` of the tag, if any, and nothing else changes |
| Grabbing.Grabber.GrabGeneral | src/e621/grabber.rs:382-395 | the collections become the old ones with `GeneralPushed` of the tag appended, or stay as they were with its error reported |
| Grabbing.Grabber.GrabSet | src/e621/grabber.rs:430-446 | the collections become the old ones with `SetPushed` of the tag appended, or stay as they were with its error reported |
| Grabbing.Grabber.GrabPool | src/e621/grabber.rs:453-478 | the collections become the old ones with `PoolPushed` of the tag appended, or stay as they were with its error reported |
| Grabbing.Grabber.PushPool | src/e621/grabber.rs:461-472 | a sort of the found posts by the retained ids that does not finish is `PoolUnsorted` and changes nothing; otherwise the pool's collection, its posts in the sorted order with page names, is appended |
| Grabbing.Grabber.GrabFavorites | src/e621/grabber.rs:308-320 | the collections become `FavoritesGrab` of the old ones, or stay as they were with its error reported |
| Grabbing.Grabber.GrabByTagType | src/e621/grabber.rs:367-375 | the collections become `TagGrab` of the old ones and the tag, or stay as they were with its error reported |
| Grabbing.Grabber.GrabNext | src/e621/grabber.rs:329-331 | one turn of the loop: the grab over the tags so far advances by the next tag, or fails with that tag's error and changes nothing |
| Grabbing.Grabber.GrabPostsByTags | src/e621/grabber.rs:327-332 | the collections become `GrabTags` of the old ones over the flattened tags of the groups, or the error of the first tag that fails is reported; one collection per tag that is not a single post |
| Connector.RemoveInvalidChars | src/e621/mod.rs:139-147 | the same length; each of `?`, `:`, `*`, `<`, `>`, `"` and the vertical bar becomes `_` and every other character is kept |
| Connector.RemoveInvalidCharsClean | src/e621/mod.rs:139-147 | the result has no invalid character, and a name is unchanged exactly when it had none |
| Connector.RemoveInvalidCharsIdempotent | src/e621/mod.rs:139-147 | sanitizing twice is sanitizing once |
| Connector.RemoveInvalidCharsKeepsSeparators | src/e621/mod.rs:139-147 | a `/` stays where it was and none is introduced |
| Connector.AsU64 | src/e621/mod.rs:283 | `size as u64`: a size in range is kept, a negative `i64` size wraps to size + 2^64 |
| Connector.AllPosts | src/e621/mod.rs:279-285 | every file of every collection is in the flattened list |
| Connector.PostsSizeAppend | src/e621/mod.rs:283 | the size of two lists of files together is the sum of their sizes |
| Connector.TotalIsSumOfAllPosts | src/e621/mod.rs:279-285 | the total over collections is the sum over all their files |
| Connector.Push | src/e621/mod.rs:159-165 | pushing an absolute part onto a path replaces the path |
| Connector.PushPart | src/e621/mod.rs:159-165 | pushing a plain part adds a separator only where the path does not already end in one |
| Connector.SanitizedPart | src/e621/mod.rs:139-147 | a plain path part stays plain when sanitized |
| Connector.CollectParts | src/e621/mod.rs:159-165 | collecting parts pushes each onto the ones before |
| Connector.StaticPathShape | src/e621/mod.rs:159-165 | a collection's directory is the download directory, the category unless it is empty, and the sanitized name |
| Connector.FilePathShape | src/e621/mod.rs:212-217 | a file's path is its collection's directory, a separator and the sanitized file name |
| Connector.FreshTransitive | src/e621/mod.rs:211-244 | never writing over an existing file is preserved by doing it twice |
| Connector.SavePostFresh | src/e621/mod.rs:211-244 | saving one file writes over nothing, makes its path exist, and keeps the disk consistent |
| Connector.SavePostsFresh | src/e621/mod.rs:211-244 | saving a collection's files writes over nothing, makes every path exist, and keeps the disk consistent |
| Connector.SaveCollectionsFresh | src/e621/mod.rs:150-248 | downloading every collection writes over nothing, makes every file's path exist, and keeps the disk consistent |
| Connector.SavePostsSkips | src/e621/mod.rs:219-223 | when every file already exists, nothing is saved and the disk is unchanged but for the progress |
| Connector.SaveCollectionsSkips | src/e621/mod.rs:219-223 | the same for every collection |
| Connector.SavePostsProgress | src/e621/mod.rs:222-243 | the progress bar advances by the summed sizes of the files, skipped or not |
| Connector.SaveCollectionsProgress | src/e621/mod.rs:150-248 | the progress bar advances by the total size of all collections |
| Connector.WebConnector.constructor | src/e621/mod.rs:58-66 | a fresh grabber in normal mode with only the single-post collection, an empty blacklist, nothing saved and the progress at 0 |
| Connector.WebConnector.ShouldEnterSafeMode | src/e621/mod.rs:69-88 | on a yes, every url moves to e926.net and the grabber enters safe mode; on a no nothing changes |
| Connector.WebConnector.ProcessBlacklist | src/e621/mod.rs:91-106 | no or an empty blacklist changes nothing; otherwise it is parsed and its users cached, and the grabber takes it when it has lines; a parse error is reported |
| Connector.WebConnector.GrabAll | src/e621/mod.rs:114-118 | the collections become `FavoritesGrab` of the old ones and then `GrabTags` over the flattened tags, the first failure being reported: the favourites collection first when the login asks for it, then one collection per tag that is not a single post |
| Connector.WebConnector.DownloadCollectionPosts | src/e621/mod.rs:211-244 | the disk becomes `SavePosts` of the collection's files |
| Connector.WebConnector.DownloadFile | src/e621/mod.rs:212-243 | the disk becomes `SavePost` of the file |
| Connector.WebConnector.DownloadCollection | src/e621/mod.rs:150-248 | the disk becomes `SaveCollections` of the grabbed collections |
| Connector.WebConnector.DownloadPosts | src/e621/mod.rs:269-276 | the bar's length is the total size; after the download the position reaches that length and nothing was written over |
| Menu.SameShapeReflexive | terminal-menu-rs/src/lib.rs:19-47 | an item list has its own shape |
| Menu.SameShapeTransitive | terminal-menu-rs/src/lib.rs:19-47 | items that keep their shape twice keep it |
| Menu.ScrollItem | terminal-menu-rs/src/lib.rs:123-139 | no values is the "values cannot be empty" error exactly; otherwise a scroll item over the values with the first one selected |
| Menu.ScrollWithDefault | terminal-menu-rs/src/lib.rs:141-161 | the same, with the default selected, which names a value exactly when it is below the number of values |
| Menu.ListItem | terminal-menu-rs/src/lib.rs:178-194 | no values is the error exactly; otherwise a list item over the values with the first one selected |
| Menu.ListWithDefault | terminal-menu-rs/src/lib.rs:196-216 | the same, with the default selected, which names a value exactly when it is below the number of values |
| Menu.FirstIndex | terminal-menu-rs/src/lib.rs:380-385 | `position`: the first index whose element passes, and `None` exactly when none does |
| Menu.TerminalMenuStruct.constructor | terminal-menu-rs/src/lib.rs:522-535 | the items with the given selection, no name, not active, exited, no exit, not canceled, and the tree valid |
| Menu.TerminalMenuStruct.IndexOf | terminal-menu-rs/src/lib.rs:380-385 | the first item with the name, or "No item with the given name" exactly when no item has it |
| Menu.TerminalMenuStruct.SetSelectedItemWithName | terminal-menu-rs/src/lib.rs:397-399 | the first item with the name becomes selected; no such item is an error and changes nothing |
| Menu.TerminalMenuStruct.SetSelectedItemWithIndex | terminal-menu-rs/src/lib.rs:411-416 | an index below the number of items becomes the selection exactly; any other is "index out of bounds" and changes nothing |
| Menu.TerminalMenuStruct.SelectionValue | terminal-menu-rs/src/lib.rs:428-436 | a list or scroll item gives its selected value, a string item its text, any other kind is "item wrong kind", and an unknown name is an error |
| Menu.TerminalMenuStruct.GetSubmenu | terminal-menu-rs/src/lib.rs:467-476 | the menu of the first submenu item with the name; "Item not found or is wrong kind" exactly when there is none |
| Menu.SubmenuValid | terminal-menu-rs/src/lib.rs:41 | the menu of a submenu item of a valid tree is a valid tree inside it that does not contain its parent |
| Menu.MutMenu | terminal-menu-rs/src/lib.rs:583-588 | the menu itself exactly when it has exited; otherwise the error |
| Menu.NewMenu | terminal-menu-rs/src/lib.rs:519-538 | a fresh valid menu whose selection is the first item that is not a label, no name, exited; "no selectable items" exactly when every item is a label |
| Menu.NewSubmenu | terminal-menu-rs/src/lib.rs:299-307 | a submenu item with the name holding a fresh valid menu of the items, named after the item; the same error as `menu` |
| FancyMenu.ActionOf | terminal-menu-rs/src/fancy_menu.rs:184-203 | each of the six actions is chosen by exactly its keys: the arrows with their letter aliases, Enter or space, Esc or `q`; every other key is ignored |
| FancyMenu.Inc | terminal-menu-rs/src/fancy_menu.rs:240-250 | the next item after the index that is not a label, wrapping past the end: every item skipped on the way is a label |
| FancyMenu.Dec | terminal-menu-rs/src/fancy_menu.rs:252-263 | the previous item before the index that is not a label, wrapping past the start: every item skipped is a label |
| FancyMenu.IncDecInverse | terminal-menu-rs/src/fancy_menu.rs:240-263 | from a selectable item, moving down then up, or up then down, comes back to it |
| FancyMenu.NextChoice | terminal-menu-rs/src/fancy_menu.rs:410-413 | the next value of a list or scroll item, wrapping to the first after the last |
| FancyMenu.PrevChoice | terminal-menu-rs/src/fancy_menu.rs:440-444 | the previous value, wrapping to the last before the first |
| FancyMenu.ChoiceRoundTrip | terminal-menu-rs/src/fancy_menu.rs:406-445 | on a selection in range, both stay in range and each undoes the other |
| FancyMenu.IncValueOf | terminal-menu-rs/src/fancy_menu.rs:406-415 | a list or scroll item moves to its next value and keeps its values; any other kind is unchanged; a selection in range stays in range |
| FancyMenu.DecValueOf | terminal-menu-rs/src/fancy_menu.rs:436-445 | the same for the previous value |
| FancyMenu.ValueRoundTrip | terminal-menu-rs/src/fancy_menu.rs:406-445 | Right then Left, or Left then Right, restores the item |
| FancyMenu.WithSelectedKind | terminal-menu-rs/src/fancy_menu.rs:266 | only the selected item's kind changes: its name and every other item stay |
| FancyMenu.KindChangeKeepsItems | terminal-menu-rs/src/fancy_menu.rs:266 | a change that keeps the kind and a selection in range keeps the shape of the menu and its selectable item |
| FancyMenu.IncValue | terminal-menu-rs/src/fancy_menu.rs:406-434 | the selected item becomes its next value, nothing else changes, and the menu stays valid |
| FancyMenu.DecValue | terminal-menu-rs/src/fancy_menu.rs:436-464 | the selected item becomes its previous value, nothing else changes, and the menu stays valid |
| FancyMenu.ReadLine | terminal-menu-rs/src/fancy_menu.rs:323-324 | reading a line takes at most one input |
| FancyMenu.SuffixTransitive | terminal-menu-rs/src/fancy_menu.rs:23-25 | what is left after two steps is a suffix of what the first had |
| FancyMenu.EnterString | terminal-menu-rs/src/fancy_menu.rs:308-340 | the trimmed line becomes the value exactly when empty values are allowed or the line is not empty; an item that refuses empty values never becomes empty |
| FancyMenu.BackButtons | terminal-menu-rs/src/fancy_menu.rs:279-285 | one back button per value, named after it |
| FancyMenu.ChooseValue | terminal-menu-rs/src/fancy_menu.rs:277-300 | the value chosen in the menu of back buttons is one of the values |
| FancyMenu.EnterChoice | terminal-menu-rs/src/fancy_menu.rs:275-307 | only the selection of the list or scroll item changes, to a value in range |
| FancyMenu.EnterValue | terminal-menu-rs/src/fancy_menu.rs:275-340 | Enter on a list, scroll or string item changes only the items, which keep their shape |
| FancyMenu.TakeExit | terminal-menu-rs/src/fancy_menu.rs:388-392 | a submenu that has an exit name, set by a button or by Esc in it or below it, or left from an earlier run, passes it and its canceled flag up and closes the parent; otherwise the parent's flags stay |
| FancyMenu.EnterSubmenu | terminal-menu-rs/src/fancy_menu.rs:375-401 | the submenu runs; the parent keeps its items and selection and takes the submenu's exit exactly when there is one |
| FancyMenu.PressButton | terminal-menu-rs/src/fancy_menu.rs:268-271 | a button closes the menu with the menu's name as its exit |
| FancyMenu.PressBackButton | terminal-menu-rs/src/fancy_menu.rs:272-274 | a back button closes the menu |
| FancyMenu.HandleEnter | terminal-menu-rs/src/fancy_menu.rs:265-404 | Enter on each kind: a button exits with the menu's name, a back button closes the menu and keeps whatever exit it had, a label does nothing, any other kind keeps the shape; a menu still active kept its exit |
| FancyMenu.SelectPrevious | terminal-menu-rs/src/fancy_menu.rs:186-189 | the selection moves to `dec` of the old one |
| FancyMenu.SelectNext | terminal-menu-rs/src/fancy_menu.rs:190-193 | the selection moves to `inc` of the old one |
| FancyMenu.Quit | terminal-menu-rs/src/fancy_menu.rs:197-202 | Esc closes the menu, canceled, with the menu's name as its exit |
| FancyMenu.HandleKey | terminal-menu-rs/src/fancy_menu.rs:184-204 | each action other than Enter does what its key does and nothing else |
| FancyMenu.HandleEvent | terminal-menu-rs/src/fancy_menu.rs:179-209 | one event is consumed at least; a resize or a typed line changes nothing; Esc closes the menu, canceled, under its own name; the menu stays valid with the same shape |
| FancyMenu.HandleInput | terminal-menu-rs/src/fancy_menu.rs:178-212 | the pending events are handled until a poll finds none or Esc is pressed, and only then does the batch end, even when a button has closed the menu on the way; an empty poll first changes nothing |
| FancyMenu.Run | terminal-menu-rs/src/fancy_menu.rs:5-46 | the menu handles batches while it is active after a batch and is then exited; it stays valid with the same shape; a menu still active used up every input and has no new exit |

## Left out

- Network and JSON are left out. The API is the parameter `Api` of the request sender, and the tag and alias lookups are the parameter `TagLookup`. The client settings, `check_response`, `output_error` and `download_image` are not modelled. The bytes of a download are not modelled either: saving a file adds its path to the set of existing paths.
- Process exits are not modelled as control flow. `emergency_exit` and the panics are error values: each operation that would stop the program returns `Err`.
- The config and login files and their `OnceCell` globals (`src/e621/io/mod.rs`) are left out. The login, the download directory and the naming convention are parameters. `Grabbing.NamingOf` gives `None` where the program exits on an unknown naming convention, and the grabber takes a `Naming`.
- Logging, the progress-bar styles of `src/e621/tui/mod.rs` and the orchestration in `src/program.rs` are left out. The progress bar is only its position and its length.
- `src/e621/sender.rs`, `src/e621/web/mod.rs`, `src/e621/data_sets.rs`, `src/main.rs` and `src/ui/mod.rs` are not part of this model. They are older code that the current downloader does not use.
- Terminal rendering and raw mode are left out: `print`, `print_big`, `print_item`, `print_in_place`, `unprint`, colours, `PrintState` and `longest_name`.
- `activate`, `deactivate` and `wait_for_exit` are left out. They run the menu on a thread behind a `RwLock`.
- Numeric menu items, `numeric_value` and `terminal-menu-rs/src/utils.rs` are left out, because they rest on `f64` arithmetic. The item kinds have no numeric case.
- The `label`, `button`, `back_button`, `string` and `submenu` item constructors are plain item values. `selected_item_name`, `selected_item_index`, `get_latest_menu_name`, `canceled`, `has_exited`, `name` and the getters of `GrabbedPost` are plain field reads and have no contract.
- Menu.NewMenu and FancyMenu.Run require every list and scroll item to have its selection in range. The program also accepts an out-of-range default in `scroll_with_default_value` and `list_with_default_value`. A scroll item built that way panics when it is printed, and a list item built that way prints no selected value.
- FancyMenu.ReadLine gives an empty line when the next input is not a typed line. FancyMenu.Run stops with the menu still open when the inputs run out.
- FancyMenu.ChooseValue states only that the chosen value is one of the values, not which one. Which one it is depends on the keys pressed in the menu it opens.
- Sender.AuthFor joins the user name and the API key with a colon but does not base64-encode the result. Only the choice between no authorization and some authorization is modelled.
- Wrap-around of the `u16` and `i16` counters is not modelled: the filtered and invalid counts and the `FlagWorker` counters are unbounded integers. The same holds for the `u64` sum of `get_total_file_size`. The conversion of a file size with `as u64` and the pool page counter's `u16` wrap are modelled.
- The release-build wrap of the `u16` page counter of `special_search` (src/e621/grabber.rs:570, 583) is not modelled. Past page 65535 the model reports `PageOverflow`, as a debug build panics there; a release build would request page 0 and go on.
- The Windows `MAX_PATH` branch of the file path is left out. So are the normalisation of paths by the operating system and `create_dir_all`.
- `char::is_alphanumeric` is modelled for ASCII only: every other character is treated as not alphanumeric. Positions count characters, not bytes, so the byte offsets of multibyte characters in `consume_char` and `shorten` are not modelled.

## Findings

| source | as written | input that shows it | evidently intended | confidence | as-written member | corrected member |
|---|---|---|---|---|---|---|
| src/e621/io/tag.rs:331-351 | `parse_tags` loops while the next character is not `[`. Under a `pools`, `sets` or `single-post` group, an entry that does not start with a digit consumes nothing, so the loop makes no progress. | the tag file `[pools]` followed by a line `abc` | report the malformed entry, or skip it | not executed | TagFileFacts.PoolsLetterNeverEnds | TagFile.TagsFrom |
| src/e621/blacklist.rs:132-149 | `parse_line` loops until a line break or the end of the input. A tag that starts with a character no token reads, such as a symbol, consumes nothing, so the loop makes no progress. | the blacklist `fox ♥` | report the character, or skip it | not executed | BlacklistFacts.SymbolNeverEnds | BlacklistParsing.LineFrom |
