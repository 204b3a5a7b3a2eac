/**
 * The parts of the JSON entries returned by the e621 API that the downloader
 * reads: tags, posts, sets, pools and users.
 */
module Entries {
  import opened Wrappers
  import TagTypes

  /** A tag as the tag search returns it; `category` is the API's numeric tag category. */
  datatype TagEntry = TagEntry(id: int, name: string, postCount: int, category: nat)

  /** Tag categories: 0 general, 1 artist, 3 copyright, 4 character, 5 species, 6 invalid, 7 meta, 8 lore. */
  const CharacterCategory: nat := 4

  /**
   * `TagEntry::to_tag_type`: categories 0 and 3 to 8 are general, 1 is an artist;
   * any other category is declared unreachable and stops the program, shown here as `None`.
   */
  function ToTagType(entry: TagEntry): (r: Option<TagTypes.TagType>)
    ensures r == Some(TagTypes.TagType.Artist) <==> entry.category == 1
    ensures r == Some(TagTypes.TagType.General) <==> entry.category == 0 || 3 <= entry.category <= 8
    ensures r.None? <==> entry.category == 2 || entry.category > 8
  {
    match entry.category
    case 0 => Some(TagTypes.TagType.General)
    case 1 => Some(TagTypes.TagType.Artist)
    case _ => if 3 <= entry.category <= 8 then Some(TagTypes.TagType.General) else None
  }

  datatype File = File(ext: string, size: int, md5: string, url: Option<string>)

  datatype Score = Score(up: int, down: int, total: int)

  /** The tag list of a post, one list per category. */
  datatype Tags = Tags(
    general: seq<string>, species: seq<string>, character: seq<string>, copyright: seq<string>,
    artist: seq<string>, invalid: seq<string>, lore: seq<string>, meta: seq<string>)

  datatype Flags = Flags(pending: bool, flagged: bool, deleted: bool)

  /** A post; `rating` is one of "s", "q" or "e". */
  datatype PostEntry = PostEntry(
    id: int, file: File, score: Score, tags: Tags, flags: Flags, rating: string, uploaderId: int)

  datatype SetEntry = SetEntry(id: int, name: string, shortname: string, postIds: seq<int>)

  datatype PoolEntry = PoolEntry(id: int, name: string, postIds: seq<int>)

  datatype UserEntry = UserEntry(id: int, blacklistedTags: Option<string>)

  /** `Tags::combine_tags`: every category's tags in one list, general first and meta last. */
  function CombineTags(t: Tags): (r: seq<string>)
    ensures |r| == |t.general| + |t.species| + |t.character| + |t.copyright|
                   + |t.artist| + |t.invalid| + |t.lore| + |t.meta|
    ensures forall s :: s in r <==>
      (s in t.general || s in t.species || s in t.character || s in t.copyright
       || s in t.artist || s in t.invalid || s in t.lore || s in t.meta)
    ensures r[..|t.general|] == t.general
  {
    t.general + t.species + t.character + t.copyright + t.artist + t.invalid + t.lore + t.meta
  }
}
