/**
 * The two enumerations that classify a tag-file entry: how it is searched
 * (`TagSearchType`) and what kind of thing it names (`TagType`). They live in
 * the tag module of the program and are shared with the API entry types.
 */
module TagTypes {

  /** General tags go through the paged-but-capped search, Special ones through the exhaustive one. */
  datatype TagSearchType = General | Special | None

  datatype TagType = Pool | Set | General | Artist | Post | Unknown
}
