/**
 * The grabber: it turns the tags of the tag file into collections of files to
 * download. Searches walk the result pages of the API; every page is filtered by
 * the blacklist (when the user is logged in and has one), cleared of posts that
 * cannot be downloaded, reversed and appended. Collection 0 always holds the
 * posts grabbed one by one.
 */
module Grabbing {
  import opened Wrappers
  import opened Text
  import Entries
  import TagTypes
  import TagFile
  import BlacklistParsing
  import BlacklistFilter
  import Sender

  // ---------------------------------------------------------------------------
  // Files to download and their names
  // ---------------------------------------------------------------------------

  /** One file to download: where it is, what it is called, how large it is. */
  datatype GrabbedPost = GrabbedPost(url: string, name: string, fileSize: int)

  /** A named set of files, downloaded into the directory of its category. */
  datatype PostCollection = PostCollection(name: string, category: string, posts: seq<GrabbedPost>)

  /** The naming conventions of the configuration file. */
  datatype Naming = Md5 | Id

  /** The convention a configuration value names; any other value ends the program. */
  function NamingOf(convention: string): (r: Option<Naming>)
    ensures r == Some(Md5) <==> convention == "md5"
    ensures r == Some(Id) <==> convention == "id"
  {
    if convention == "md5" then Some(Md5) else if convention == "id" then Some(Id) else None
  }

  /** A file name: a stem, a dot, the extension. */
  function FileName(stem: string, ext: string): (r: string)
    ensures |r| == |stem| + 1 + |ext|
    ensures r[..|stem|] == stem && r[|stem|] == '.' && r[|stem| + 1..] == ext
  {
    stem + "." + ext
  }

  /** The file name of a post under a naming convention: its md5 digest or its id, then its extension. */
  function PostFileName(post: Entries.PostEntry, naming: Naming): string
  {
    match naming
    case Md5 => FileName(post.file.md5, post.file.ext)
    case Id => FileName(IntToString(post.id), post.file.ext)
  }

  /** `GrabbedPost::from((post, naming))`; the url is unwrapped, so the post must have one. */
  function FromPost(post: Entries.PostEntry, naming: Naming): (g: GrabbedPost)
    requires post.file.url.Some?
    ensures g.url == post.file.url.value && g.fileSize == post.file.size
    ensures g.name == PostFileName(post, naming)
  {
    GrabbedPost(post.file.url.value, PostFileName(post, naming), post.file.size)
  }

  /** Under the id convention, posts with different ids and the same extension get different names. */
  lemma IdNamesDiffer(p: Entries.PostEntry, q: Entries.PostEntry)
    requires p.id != q.id && p.file.ext == q.file.ext
    ensures PostFileName(p, Id) != PostFileName(q, Id)
  {
    var a := IntToString(p.id);
    var b := IntToString(q.id);
    if FileName(a, p.file.ext) == FileName(b, q.file.ext) {
      assert |a| == |b|;
      assert a == FileName(a, p.file.ext)[..|a|];
      var lo := if p.id < q.id then p.id else q.id;
      var hi := if p.id < q.id then q.id else p.id;
      ParseIntToString(p.id, lo, hi);
      ParseIntToString(q.id, lo, hi);
    }
  }

  /** The largest page number of a pool: the position is converted to `u16` and wraps. */
  const PageModulus: nat := 65536

  /** The name of the post at 1-based position `page` of a pool: `"{pool} Page_{page:05}.{ext}"`. */
  function PoolFileName(pool: string, page: nat, ext: string): string
  {
    pool + " Page_" + ZeroPad(page, 5) + "." + ext
  }

  /** `GrabbedPost::from((post, pool, page))`. */
  function FromPoolPost(post: Entries.PostEntry, pool: string, page: nat): (g: GrabbedPost)
    requires post.file.url.Some?
    ensures g.url == post.file.url.value && g.fileSize == post.file.size
    ensures g.name == PoolFileName(pool, page, post.file.ext)
  {
    GrabbedPost(post.file.url.value, PoolFileName(pool, page, post.file.ext), post.file.size)
  }

  /** Every post of the list has a url to download. */
  predicate AllHaveUrls(posts: seq<Entries.PostEntry>)
  {
    forall i :: 0 <= i < |posts| ==> posts[i].file.url.Some?
  }

  /** `GrabbedPost::new_vec(posts)`: one file per post, in the same order, named by the convention. */
  function NewVec(posts: seq<Entries.PostEntry>, naming: Naming): (r: seq<GrabbedPost>)
    requires AllHaveUrls(posts)
    ensures |r| == |posts|
    ensures forall i :: 0 <= i < |posts| ==>
      r[i].url == posts[i].file.url.value && r[i].fileSize == posts[i].file.size
      && r[i].name == PostFileName(posts[i], naming)
  {
    seq(|posts|, i requires 0 <= i < |posts| => FromPost(posts[i], naming))
  }

  /** `GrabbedPost::new_vec((posts, pool))`: the post at index i is page i + 1 of the pool. */
  function NewPoolVec(posts: seq<Entries.PostEntry>, pool: string): (r: seq<GrabbedPost>)
    requires AllHaveUrls(posts)
    ensures |r| == |posts|
    ensures forall i :: 0 <= i < |posts| ==>
      r[i].url == posts[i].file.url.value && r[i].fileSize == posts[i].file.size
      && r[i].name == PoolFileName(pool, (i + 1) % PageModulus, posts[i].file.ext)
  {
    seq(|posts|, i requires 0 <= i < |posts| => FromPoolPost(posts[i], pool, (i + 1) % PageModulus))
  }

  function Pow10(k: nat): nat
  {
    if k == 0 then 1 else 10 * Pow10(k - 1)
  }

  /** A number below 10^k has at most k digits. */
  lemma {:induction false} DigitCount(n: nat, k: nat)
    requires 1 <= k && n < Pow10(k)
    ensures |NatToString(n)| <= k
  {
    assert Pow10(0) == 1;
    if n >= 10 {
      DigitCount(n / 10, k - 1);
    }
  }

  /** The five page digits of a pool file name, read back, are its page number. */
  lemma PoolPageDigits(pool: string, page: nat, ext: string)
    requires page < PageModulus
    ensures var name := PoolFileName(pool, page, ext);
      |name| >= |pool| + 11 && AllDigits(name[|pool| + 6..|pool| + 11])
      && DigitsValue(name[|pool| + 6..|pool| + 11]) == page
  {
    assert Pow10(5) == 100000;
    DigitCount(page, 5);
    var z := ZeroPad(page, 5);
    assert |z| == 5;
    var name := PoolFileName(pool, page, ext);
    assert name == (pool + " Page_") + z + ("." + ext);
    assert name[|pool| + 6..|pool| + 11] == z;
    ZeroPadValue(page, 5);
  }

  /** Different page numbers give different pool file names, whatever the extensions. */
  lemma PoolFileNamesDiffer(pool: string, m: nat, n: nat, e1: string, e2: string)
    requires m != n && m < PageModulus && n < PageModulus
    ensures PoolFileName(pool, m, e1) != PoolFileName(pool, n, e2)
  {
    PoolPageDigits(pool, m, e1);
    PoolPageDigits(pool, n, e2);
  }

  /** The page number read back from the five digits after `"{pool} Page_"`, or -1 when they are not there. */
  function PageOfName(pool: string, name: string): int
  {
    if |name| >= |pool| + 11 && AllDigits(name[|pool| + 6..|pool| + 11])
    then DigitsValue(name[|pool| + 6..|pool| + 11])
    else -1
  }

  /** The page number a pool file name was made from can be read back from it. */
  lemma PageOfPoolName(pool: string, page: nat, ext: string)
    requires page < PageModulus
    ensures PageOfName(pool, PoolFileName(pool, page, ext)) == page
  {
    PoolPageDigits(pool, page, ext);
  }

  /** The file at index i of a pool's posts reads back as page i + 1. */
  lemma PageOfVecName(posts: seq<Entries.PostEntry>, pool: string, i: nat)
    requires AllHaveUrls(posts) && |posts| < PageModulus && i < |posts|
    ensures PageOfName(pool, NewPoolVec(posts, pool)[i].name) == i + 1
  {
    PoolVecNames(posts, pool, i, i);
    PageOfPoolName(pool, i + 1, posts[i].file.ext);
  }

  /** The posts of one pool get pairwise different file names, up to the 65535 pages a `u16` counts. */
  lemma PoolNamesDiffer(posts: seq<Entries.PostEntry>, pool: string, i: nat, j: nat)
    requires AllHaveUrls(posts) && |posts| < PageModulus
    requires i < |posts| && j < |posts| && i != j
    ensures NewPoolVec(posts, pool)[i].name != NewPoolVec(posts, pool)[j].name
  {
    PageOfVecName(posts, pool, i);
    PageOfVecName(posts, pool, j);
  }

  lemma PoolVecNames(posts: seq<Entries.PostEntry>, pool: string, i: nat, j: nat)
    requires AllHaveUrls(posts) && |posts| < PageModulus && i < |posts| && j < |posts|
    ensures NewPoolVec(posts, pool)[i].name == PoolFileName(pool, i + 1, posts[i].file.ext)
    ensures NewPoolVec(posts, pool)[j].name == PoolFileName(pool, j + 1, posts[j].file.ext)
  {
    assert (i + 1) % PageModulus == i + 1 && (j + 1) % PageModulus == j + 1;
  }

  /** The longest a collection name is shown before it is cut. */
  const ShortNameLength: nat := 25

  /**
   * `PostCollection::shorten`: a name of 25 characters or more is cut to its first
   * 25 and the delimiter is appended; shorter names are kept. The `char` overload
   * is this function with a one-character delimiter.
   */
  function Shorten(name: string, delimiter: string): (r: string)
    ensures |name| < ShortNameLength ==> r == name
    ensures |name| >= ShortNameLength ==>
      |r| == ShortNameLength + |delimiter| && r[..ShortNameLength] == name[..ShortNameLength]
      && r[ShortNameLength..] == delimiter
  {
    if |name| >= ShortNameLength then name[..ShortNameLength] + delimiter else name
  }

  /** Shortening a shortened name changes nothing more. */
  lemma ShortenIdempotent(name: string, delimiter: string)
    ensures Shorten(Shorten(name, delimiter), delimiter) == Shorten(name, delimiter)
  {
    var r := Shorten(name, delimiter);
    if |name| >= ShortNameLength {
      assert r[..ShortNameLength] + delimiter == r;
    }
  }

  // ---------------------------------------------------------------------------
  // Pages of search results
  // ---------------------------------------------------------------------------

  /** A post `remove_invalid_posts` keeps: not deleted, and with a url. */
  predicate ValidPost(p: Entries.PostEntry)
  {
    !p.flags.deleted && p.file.url.Some?
  }

  /** The valid posts among `posts`, in their order. */
  function KeepValid(posts: seq<Entries.PostEntry>): (r: seq<Entries.PostEntry>)
    ensures |r| <= |posts|
  {
    if posts == [] then []
    else
      var last := posts[|posts| - 1];
      KeepValid(posts[..|posts| - 1]) + (if ValidPost(last) then [last] else [])
  }

  /** The kept posts are exactly the valid ones, and keeping again keeps them all. */
  lemma {:induction false} KeepValidMembers(posts: seq<Entries.PostEntry>)
    ensures forall p :: p in KeepValid(posts) <==> p in posts && ValidPost(p)
    ensures AllHaveUrls(KeepValid(posts))
  {
    if posts != [] {
      var init := posts[..|posts| - 1];
      KeepValidMembers(init);
      assert posts == init + [posts[|posts| - 1]];
      var k := KeepValid(posts);
      forall i | 0 <= i < |k|
        ensures k[i].file.url.Some?
      {
        assert k[i] in k;
      }
    }
  }

  /** Keeping the valid posts twice keeps the same posts. */
  lemma {:induction false} KeepValidIdempotent(posts: seq<Entries.PostEntry>)
    ensures KeepValid(KeepValid(posts)) == KeepValid(posts)
  {
    if posts != [] {
      var init := posts[..|posts| - 1];
      var last := posts[|posts| - 1];
      KeepValidIdempotent(init);
      var k := KeepValid(init);
      if ValidPost(last) {
        assert (k + [last])[..|k + [last]| - 1] == k;
      } else {
        assert k + [] == k;
      }
    }
  }

  /** `remove_invalid_posts`: retains the valid posts in place and counts the others. */
  method RemoveInvalidPosts(posts: seq<Entries.PostEntry>) returns (kept: seq<Entries.PostEntry>, invalid: nat)
    ensures kept == KeepValid(posts) && invalid == |posts| - |kept|
  {
    kept := [];
    invalid := 0;
    for i := 0 to |posts|
      invariant kept == KeepValid(posts[..i]) && invalid + |kept| == i
    {
      assert posts[..i + 1][..i] == posts[..i] && posts[..i + 1][i] == posts[i];
      if !posts[i].flags.deleted && posts[i].file.url.Some? {
        kept := kept + [posts[i]];
      } else {
        invalid := invalid + 1;
      }
    }
    assert posts[..|posts|] == posts;
  }

  /** `Vec::reverse`. */
  function Reverse<T>(s: seq<T>): (r: seq<T>)
    ensures |r| == |s|
    ensures forall i :: 0 <= i < |s| ==> r[i] == s[|s| - 1 - i]
  {
    if s == [] then [] else [s[|s| - 1]] + Reverse(s[..|s| - 1])
  }

  /** What a search filters with: the blacklist's lines, or nothing. */
  type Gate = Option<seq<BlacklistParsing.LineToken>>

  /** `filter_posts_with_blacklist` on one page: the kept posts and how many were filtered. */
  function FilterPage(page: seq<Entries.PostEntry>, gate: Gate): Result<(seq<Entries.PostEntry>, nat), BlacklistParsing.BlacklistError>
  {
    match gate
    case None => Ok((page, 0))
    case Some(lines) => BlacklistFilter.FilterLines(lines, page)
  }

  /** What a search keeps of one page and what it counts: filtered, made valid, reversed. */
  datatype PageResult = PageResult(posts: seq<Entries.PostEntry>, filtered: nat, invalid: nat)

  function ProcessPage(page: seq<Entries.PostEntry>, gate: Gate): Result<PageResult, BlacklistParsing.BlacklistError>
  {
    match FilterPage(page, gate)
    case Err(e) => Err(e)
    case Ok((kept, filtered)) =>
      Ok(PageResult(Reverse(KeepValid(kept)), filtered, |kept| - |KeepValid(kept)|))
  }

  /** Why a search stops the program: a blacklist user tag without id, or a page counter past `u16::MAX`. */
  datatype SearchError = Blacklisted(error: BlacklistParsing.BlacklistError) | PageOverflow

  /** The number of pages `general_search` may request is `POST_SEARCH_LIMIT - 1`. */
  const PostSearchLimit: nat := 5
  /** The last page the `u16` page counter of `special_search` reaches. */
  const LastPage: nat := 65535

  /** The server's page `n` of a search. */
  type Pages = nat -> seq<Entries.PostEntry>

  /** What the search loop does with each page it receives. */
  type PageStep = seq<Entries.PostEntry> -> Result<PageResult, BlacklistParsing.BlacklistError>

  /** The step of a search filtering with `gate`. */
  function StepWith(gate: Gate): PageStep
  {
    (page: seq<Entries.PostEntry>) => ProcessPage(page, gate)
  }

  /** A page's result appended after what was collected before. */
  function Append(acc: PageResult, r: PageResult): PageResult
  {
    PageResult(acc.posts + r.posts, acc.filtered + r.filtered, acc.invalid + r.invalid)
  }

  /**
   * The search loop from page `page` on, with the posts `acc` collected so far:
   * stop at the first empty page or after page `last`; after page `last` the
   * counter either stops or, when `overflows`, overflows.
   */
  function SearchFrom(pages: Pages, step: PageStep, page: nat, last: nat, overflows: bool, acc: PageResult): Result<PageResult, SearchError>
    requires page <= last + 1
    decreases last + 1 - page
  {
    if page > last then (if overflows then Err(PageOverflow) else Ok(acc))
    else if pages(page) == [] then Ok(acc)
    else
      match step(pages(page))
      case Err(e) => Err(Blacklisted(e))
      case Ok(r) => SearchFrom(pages, step, page + 1, last, overflows, Append(acc, r))
  }

  const NothingYet: PageResult := PageResult([], 0, 0)

  /** `general_search`: pages 1 to 4. */
  function GeneralSearch(pages: Pages, gate: Gate): Result<PageResult, SearchError>
  {
    SearchFrom(pages, StepWith(gate), 1, PostSearchLimit - 1, false, NothingYet)
  }

  /** `special_search`: pages 1, 2, ... until one is empty. */
  function SpecialSearch(pages: Pages, gate: Gate): Result<PageResult, SearchError>
  {
    SearchFrom(pages, StepWith(gate), 1, LastPage, true, NothingYet)
  }

  /** `search`: the posts of a search of the given kind; a `None` search finds nothing. */
  function SearchResult(pages: Pages, gate: Gate, searchType: TagTypes.TagSearchType): Result<seq<Entries.PostEntry>, SearchError>
  {
    match searchType
    case General => (match GeneralSearch(pages, gate) case Ok(r) => Ok(r.posts) case Err(e) => Err(e))
    case Special => (match SpecialSearch(pages, gate) case Ok(r) => Ok(r.posts) case Err(e) => Err(e))
    case None => Ok([])
  }

  // ---------------------------------------------------------------------------
  // What a search returns
  // ---------------------------------------------------------------------------

  /** The posts a processed page keeps are valid, and pass the blacklist when there is one. */
  lemma ProcessPageKeeps(page: seq<Entries.PostEntry>, gate: Gate)
    requires ProcessPage(page, gate).Ok?
    ensures |ProcessPage(page, gate).value.posts| <= |page|
    ensures forall p :: p in ProcessPage(page, gate).value.posts ==>
      p in page && ValidPost(p) && (gate.Some? ==> BlacklistFilter.PassesAll(gate.value, p))
  {
    var (kept, filtered) := FilterPage(page, gate).value;
    KeepValidMembers(kept);
    var valid := KeepValid(kept);
    var r := ProcessPage(page, gate).value.posts;
    assert r == Reverse(valid);
    forall p | p in r
      ensures p in valid
    {
      var i :| 0 <= i < |r| && r[i] == p;
      assert r[i] == valid[|valid| - 1 - i];
    }
    if gate.Some? && kept != [] {
      var lines := gate.value;
      BlacklistFilter.FilterOkResolved(lines, page);
      BlacklistFilter.FilterLinesResult(lines, page);
      BlacklistFilter.UnflaggedMembers(lines, page);
    }
  }

  /** A post a page adds to a search: valid, and passing the blacklist when there is one. */
  predicate Admitted(p: Entries.PostEntry, gate: Gate)
  {
    ValidPost(p) && (gate.Some? ==> BlacklistFilter.PassesAll(gate.value, p))
  }

  /** A step that keeps only admitted posts of the page it gets, and not more of them than it got. */
  ghost predicate StepKeeps(step: PageStep, gate: Gate)
  {
    forall page :: step(page).Ok? ==>
      |step(page).value.posts| <= |page|
      && forall p :: p in step(page).value.posts ==> p in page && Admitted(p, gate)
  }

  lemma StepWithKeeps(gate: Gate)
    ensures StepKeeps(StepWith(gate), gate)
  {
    forall page | StepWith(gate)(page).Ok?
      ensures |StepWith(gate)(page).value.posts| <= |page|
      ensures forall p :: p in StepWith(gate)(page).value.posts ==> p in page && Admitted(p, gate)
    {
      ProcessPageKeeps(page, gate);
    }
  }

  /**
   * A search reads no page after the first empty one and none after `last`: two
   * servers that agree on the pages up to both give the same result.
   */
  lemma {:induction false} SearchReadsUpTo(pages: Pages, other: Pages, step: PageStep, page: nat, last: nat,
                                           overflows: bool, acc: PageResult, stop: nat)
    requires page <= last + 1 && page <= stop
    requires stop > last || pages(stop) == []
    requires forall n :: page <= n <= last && n <= stop ==> pages(n) == other(n)
    ensures SearchFrom(pages, step, page, last, overflows, acc) == SearchFrom(other, step, page, last, overflows, acc)
    decreases last + 1 - page
  {
    if page <= last && pages(page) != [] {
      assert page < stop;
      match step(pages(page))
      case Err(_) =>
      case Ok(r) =>
        SearchReadsUpTo(pages, other, step, page + 1, last, overflows, Append(acc, r), stop);
    }
  }

  /** `general_search` never requests page 5 or beyond. */
  lemma GeneralSearchReadsFourPages(pages: Pages, other: Pages, gate: Gate)
    requires forall n :: 1 <= n <= 4 ==> pages(n) == other(n)
    ensures GeneralSearch(pages, gate) == GeneralSearch(other, gate)
  {
    SearchReadsUpTo(pages, other, StepWith(gate), 1, PostSearchLimit - 1, false, NothingYet, PostSearchLimit);
  }

  /** A search stops at the first empty page: what the server has after it is never read. */
  lemma SpecialSearchStops(pages: Pages, other: Pages, gate: Gate, empty: nat)
    requires 1 <= empty && pages(empty) == []
    requires forall n :: 1 <= n <= empty ==> pages(n) == other(n)
    ensures SpecialSearch(pages, gate) == SpecialSearch(other, gate)
  {
    SearchReadsUpTo(pages, other, StepWith(gate), 1, LastPage, true, NothingYet, empty);
  }

  /** A post found on one of the pages `page` to `last`. */
  ghost predicate OnPages(p: Entries.PostEntry, pages: Pages, page: nat, last: nat)
  {
    exists n :: page <= n <= last && p in pages(n)
  }

  /** A search keeps what it had collected and adds only admitted posts of the pages it reads. */
  lemma {:induction false} SearchCollects(pages: Pages, step: PageStep, gate: Gate, page: nat, last: nat,
                                          overflows: bool, acc: PageResult)
    requires page <= last + 1 && StepKeeps(step, gate)
    requires SearchFrom(pages, step, page, last, overflows, acc).Ok?
    ensures var r := SearchFrom(pages, step, page, last, overflows, acc).value;
      |acc.posts| <= |r.posts| && r.posts[..|acc.posts|] == acc.posts
      && forall p :: p in r.posts ==> p in acc.posts || (Admitted(p, gate) && OnPages(p, pages, page, last))
    decreases last + 1 - page
  {
    if page <= last && pages(page) != [] {
      var got := step(pages(page)).value;
      var next := Append(acc, got);
      SearchCollects(pages, step, gate, page + 1, last, overflows, next);
      var r := SearchFrom(pages, step, page, last, overflows, acc).value;
      assert r == SearchFrom(pages, step, page + 1, last, overflows, next).value;
      assert next.posts[..|acc.posts|] == acc.posts;
      assert r.posts[..|acc.posts|] == r.posts[..|next.posts|][..|acc.posts|];
      forall p | p in r.posts
        ensures p in acc.posts || (Admitted(p, gate) && OnPages(p, pages, page, last))
      {
        if p in next.posts && p !in acc.posts {
          assert p in got.posts;
          assert p in pages(page);
        } else if p !in next.posts {
          var n :| page + 1 <= n <= last && p in pages(n);
        }
      }
    }
  }

  /** With pages of at most `size` posts, a search adds at most `size` posts per page. */
  lemma {:induction false} SearchBound(pages: Pages, step: PageStep, gate: Gate, page: nat, last: nat,
                                       overflows: bool, acc: PageResult, size: nat)
    requires page <= last + 1 && StepKeeps(step, gate)
    requires forall n :: page <= n <= last ==> |pages(n)| <= size
    requires SearchFrom(pages, step, page, last, overflows, acc).Ok?
    ensures |SearchFrom(pages, step, page, last, overflows, acc).value.posts| <= |acc.posts| + size * (last + 1 - page)
    decreases last + 1 - page
  {
    if page <= last && pages(page) != [] {
      var next := Append(acc, step(pages(page)).value);
      SearchBound(pages, step, gate, page + 1, last, overflows, next, size);
      assert size * (last + 1 - page) == size + size * (last + 1 - (page + 1));
    }
  }

  /** With pages of at most 320 posts, a general search collects at most 1280 posts. */
  lemma GeneralSearchBound(pages: Pages, gate: Gate)
    requires forall n :: |pages(n)| <= 320
    requires GeneralSearch(pages, gate).Ok?
    ensures |GeneralSearch(pages, gate).value.posts| <= 1280
  {
    StepWithKeeps(gate);
    SearchBound(pages, StepWith(gate), gate, 1, PostSearchLimit - 1, false, NothingYet, 320);
  }

  /** Every post a search of any kind returns is admitted and was on one of the pages it read. */
  lemma SearchResultValid(pages: Pages, gate: Gate, searchType: TagTypes.TagSearchType)
    requires SearchResult(pages, gate, searchType).Ok?
    ensures AllHaveUrls(SearchResult(pages, gate, searchType).value)
    ensures forall p :: p in SearchResult(pages, gate, searchType).value ==>
      Admitted(p, gate) && OnPages(p, pages, 1, LastPage)
  {
    var r := SearchResult(pages, gate, searchType).value;
    StepWithKeeps(gate);
    match searchType {
      case General =>
        SearchCollects(pages, StepWith(gate), gate, 1, PostSearchLimit - 1, false, NothingYet);
        forall p | p in r
          ensures OnPages(p, pages, 1, LastPage)
        {
          var n :| 1 <= n <= PostSearchLimit - 1 && p in pages(n);
        }
      case Special =>
        SearchCollects(pages, StepWith(gate), gate, 1, LastPage, true, NothingYet);
      case None =>
    }
    forall i | 0 <= i < |r|
      ensures r[i].file.url.Some?
    {
      assert r[i] in r;
    }
  }

  // ---------------------------------------------------------------------------
  // Pools
  // ---------------------------------------------------------------------------

  /** Some post of the list has the id. */
  predicate HasId(posts: seq<Entries.PostEntry>, id: int)
  {
    exists j :: 0 <= j < |posts| && posts[j].id == id
  }

  predicate Distinct(ids: seq<int>)
  {
    forall i, j :: 0 <= i < j < |ids| ==> ids[i] != ids[j]
  }

  /** The pool's `post_ids.retain(..)`: the ids some found post has, in the pool's order. */
  function RetainPresent(ids: seq<int>, posts: seq<Entries.PostEntry>): (r: seq<int>)
    ensures |r| <= |ids|
  {
    if ids == [] then []
    else
      var last := ids[|ids| - 1];
      RetainPresent(ids[..|ids| - 1], posts) + (if HasId(posts, last) then [last] else [])
  }

  /** The retained ids are exactly the pool's ids that some post has; distinct ids stay distinct. */
  lemma {:induction false} RetainPresentMembers(ids: seq<int>, posts: seq<Entries.PostEntry>)
    ensures forall x :: x in RetainPresent(ids, posts) <==> x in ids && HasId(posts, x)
    ensures Distinct(ids) ==> Distinct(RetainPresent(ids, posts))
  {
    if ids != [] {
      var init := ids[..|ids| - 1];
      var last := ids[|ids| - 1];
      RetainPresentMembers(init, posts);
      assert ids == init + [last];
      if Distinct(ids) {
        assert Distinct(init) by {
          forall i, j | 0 <= i < j < |init| ensures init[i] != init[j] {
            assert init[i] == ids[i] && init[j] == ids[j];
          }
        }
        assert last !in init by {
          forall i | 0 <= i < |init| ensures init[i] != last {
            assert init[i] == ids[i];
          }
        }
      }
    }
  }

  /** `iter().position(|e| e.id == id)`: the first index of a post with the id. */
  function FirstWithId(posts: seq<Entries.PostEntry>, id: int): (r: Option<nat>)
    ensures r.Some? ==>
      r.value < |posts| && posts[r.value].id == id
      && forall k :: 0 <= k < r.value ==> posts[k].id != id
    ensures r.None? <==> !HasId(posts, id)
  {
    if posts == [] then None
    else if posts[0].id == id then Some(0)
    else
      match FirstWithId(posts[1..], id)
      case None =>
        assert forall j :: 1 <= j < |posts| ==> posts[j] == posts[1..][j - 1];
        None
      case Some(j) => Some(j + 1)
  }

  /** `slice::swap`. */
  function Swap<T>(s: seq<T>, i: nat, j: nat): (r: seq<T>)
    requires i < |s| && j < |s|
    ensures |r| == |s| && r[i] == s[j] && r[j] == s[i]
    ensures forall k :: 0 <= k < |s| && k != i && k != j ==> r[k] == s[k]
    ensures multiset(r) == multiset(s)
  {
    s[i := s[j]][j := s[i]]
  }

  /**
   * One step of `sort_pool_by_id`: a post at position i with another id is swapped
   * with the first post that has the id. `None` where the source panics: there is
   * no post at i, or no post with the id.
   */
  function PlaceAt(posts: seq<Entries.PostEntry>, i: nat, id: int): (r: Option<seq<Entries.PostEntry>>)
    ensures r.Some? ==> i < |posts| && |r.value| == |posts| && multiset(r.value) == multiset(posts) && r.value[i].id == id
  {
    if i >= |posts| then None
    else if posts[i].id == id then Some(posts)
    else
      match FirstWithId(posts, id)
      case None => None
      case Some(j) => Some(Swap(posts, i, j))
  }

  /** `sort_pool_by_id`: the ids placed one position after the other. */
  function SortPool(ids: seq<int>, posts: seq<Entries.PostEntry>): (r: Option<seq<Entries.PostEntry>>)
    ensures r.Some? ==> multiset(r.value) == multiset(posts)
  {
    if ids == [] then Some(posts)
    else
      match SortPool(ids[..|ids| - 1], posts)
      case None => None
      case Some(t) => PlaceAt(t, |ids| - 1, ids[|ids| - 1])
  }

  /** Once a step of the sort fails, the whole sort fails. */
  lemma {:induction false} SortPoolFailsOn(ids: seq<int>, posts: seq<Entries.PostEntry>, n: nat)
    requires n <= |ids| && SortPool(ids[..n], posts).None?
    ensures SortPool(ids, posts).None?
    decreases |ids| - n
  {
    if n < |ids| {
      assert ids[..n + 1][..n] == ids[..n];
      SortPoolFailsOn(ids, posts, n + 1);
    } else {
      assert ids[..n] == ids;
    }
  }

  /** A permutation of a list has the same ids. */
  lemma HasIdPermuted(s: seq<Entries.PostEntry>, t: seq<Entries.PostEntry>, id: int)
    requires multiset(s) == multiset(t) && HasId(s, id)
    ensures HasId(t, id)
  {
    var j :| 0 <= j < |s| && s[j].id == id;
    assert s[j] in multiset(t);
    var k :| 0 <= k < |t| && t[k] == s[j];
  }

  /** A permutation of posts that all have urls has urls too. */
  lemma AllHaveUrlsPermuted(s: seq<Entries.PostEntry>, t: seq<Entries.PostEntry>)
    requires multiset(s) == multiset(t) && AllHaveUrls(s)
    ensures AllHaveUrls(t)
  {
    forall k | 0 <= k < |t|
      ensures t[k].file.url.Some?
    {
      assert t[k] in multiset(s);
      var j :| 0 <= j < |s| && s[j] == t[k];
    }
  }

  /**
   * With distinct ids that all occur among the posts, the sort does not fail, and
   * position k ends up holding the post with the k-th id.
   */
  lemma {:induction false} SortPoolOrders(ids: seq<int>, posts: seq<Entries.PostEntry>)
    requires Distinct(ids) && forall m :: 0 <= m < |ids| ==> HasId(posts, ids[m])
    ensures SortPool(ids, posts).Some?
    ensures |ids| <= |posts| && forall k :: 0 <= k < |ids| ==> SortPool(ids, posts).value[k].id == ids[k]
  {
    if ids != [] {
      var n := |ids| - 1;
      var init := ids[..n];
      var id := ids[n];
      assert forall m :: 0 <= m < n ==> init[m] == ids[m];
      SortPoolOrders(init, posts);
      var t := SortPool(init, posts).value;
      HasIdPermuted(posts, t, id);
      assert |t| == |multiset(t)| == |posts|;
      SortPoolStep(ids, posts, t);
    }
  }

  /** The last id of the sort placed after the ones before it, which are in order. */
  lemma SortPoolStep(ids: seq<int>, posts: seq<Entries.PostEntry>, t: seq<Entries.PostEntry>)
    requires ids != [] && Distinct(ids) && HasId(t, ids[|ids| - 1]) && |t| == |posts|
    requires SortPool(ids[..|ids| - 1], posts) == Some(t)
    requires forall k :: 0 <= k < |ids| - 1 ==> t[k].id == ids[k]
    ensures SortPool(ids, posts).Some?
    ensures |ids| <= |posts| && forall k :: 0 <= k < |ids| ==> SortPool(ids, posts).value[k].id == ids[k]
  {
    var n := |ids| - 1;
    var id := ids[n];
    assert forall k :: 0 <= k < n ==> t[k].id != id;
    PlaceAtKeepsPrefix(t, n, id);
    var r := PlaceAt(t, n, id).value;
    assert SortPool(ids, posts) == Some(r);
  }

  /** Placing an id not yet among the first n posts keeps those posts where they are. */
  lemma PlaceAtKeepsPrefix(t: seq<Entries.PostEntry>, n: nat, id: int)
    requires HasId(t, id) && n <= |t|
    requires forall k :: 0 <= k < n ==> t[k].id != id
    ensures n < |t| && PlaceAt(t, n, id).Some?
    ensures forall k :: 0 <= k < n ==> PlaceAt(t, n, id).value[k].id == t[k].id
  {
    var j := FirstWithId(t, id).value;
    assert j >= n;
  }

  /** The ids of a pool of distinct posts, after `retain`, put the found posts in the pool's order. */
  lemma PoolInOrder(postIds: seq<int>, found: seq<Entries.PostEntry>)
    requires Distinct(postIds)
    ensures var ids := RetainPresent(postIds, found);
      SortPool(ids, found).Some? && |ids| <= |found|
      && forall k :: 0 <= k < |ids| ==> SortPool(ids, found).value[k].id == ids[k]
  {
    var ids := RetainPresent(postIds, found);
    RetainPresentMembers(postIds, found);
    assert forall m :: 0 <= m < |ids| ==> ids[m] in ids;
    SortPoolOrders(ids, found);
  }

  /** `sort_pool_by_id` on the slice of found posts; `false` where the source panics. */
  method SortPoolById(ids: seq<int>, a: array<Entries.PostEntry>) returns (ok: bool)
    modifies a
    ensures ok <==> SortPool(ids, old(a[..])).Some?
    ensures ok ==> a[..] == SortPool(ids, old(a[..])).value
  {
    ghost var original := a[..];
    for i := 0 to |ids|
      invariant SortPool(ids[..i], original) == Some(a[..])
    {
      assert ids[..i + 1][..i] == ids[..i];
      var id := ids[i];
      if i >= a.Length {
        SortPoolFailsOn(ids, original, i + 1);
        return false;
      }
      if a[i].id != id {
        var position := FirstWithId(a[..], id);
        if position.None? {
          SortPoolFailsOn(ids, original, i + 1);
          return false;
        }
        var j := position.value;
        a[i], a[j] := a[j], a[i];
      }
    }
    assert ids[..|ids|] == ids;
    return true;
  }

  /** The found posts copied into a slice and sorted by `sort_pool_by_id`; `None` where it panics. */
  method SortPosts(ids: seq<int>, posts: seq<Entries.PostEntry>) returns (sorted: Option<seq<Entries.PostEntry>>)
    ensures sorted == SortPool(ids, posts)
  {
    var a := new Entries.PostEntry[|posts|](i requires 0 <= i < |posts| => posts[i]);
    assert a[..] == posts;
    var ok := SortPoolById(ids, a);
    sorted := if ok then Some(a[..]) else None;
  }

  // ---------------------------------------------------------------------------
  // The grabber
  // ---------------------------------------------------------------------------

  /** Why a grab stops the program. */
  datatype GrabError =
    | SearchFailed(error: SearchError)
    | PoolUnsorted
    | UnknownTagType

  /** The name of collection 0, which collects the posts grabbed one by one. */
  const SinglePostsName: string := "Single Posts"

  /**
   * What every grab does to the collections: it only pushes, a file onto
   * collection 0 or a new collection at the end.
   */
  predicate Extends(before: seq<PostCollection>, after: seq<PostCollection>)
  {
    1 <= |before| <= |after|
    && after[0].name == before[0].name && after[0].category == before[0].category
    && |before[0].posts| <= |after[0].posts| && after[0].posts[..|before[0].posts|] == before[0].posts
    && after[1..|before|] == before[1..]
  }

  lemma ExtendsTransitive(a: seq<PostCollection>, b: seq<PostCollection>, c: seq<PostCollection>)
    requires Extends(a, b) && Extends(b, c)
    ensures Extends(a, c)
  {
    assert c[0].posts[..|a[0].posts|] == c[0].posts[..|b[0].posts|][..|a[0].posts|];
    assert c[1..|a|] == c[1..|b|][..|a| - 1];
    assert b[1..|a|] == b[1..][..|a| - 1];
  }

  /** `add_single_post`: a post with a url is pushed onto collection 0; one without is skipped. */
  function WithSinglePost(cs: seq<PostCollection>, post: Entries.PostEntry, naming: Naming): (r: seq<PostCollection>)
    requires |cs| >= 1
    ensures Extends(cs, r) && |r| == |cs|
    ensures post.file.url.None? ==> r == cs
    ensures post.file.url.Some? ==> r[0].posts == cs[0].posts + [FromPost(post, naming)]
  {
    AddToSingles(cs, if post.file.url.None? then None else Some(FromPost(post, naming)))
  }

  /** Collection 0 with `file` pushed onto it, when there is one. */
  function AddToSingles(cs: seq<PostCollection>, file: Option<GrabbedPost>): (r: seq<PostCollection>)
    requires |cs| >= 1
    ensures Extends(cs, r) && |r| == |cs| && r[1..] == cs[1..]
    ensures file.None? ==> r == cs
    ensures file.Some? ==> r[0].posts == cs[0].posts + [file.value]
  {
    if file.None? then
      assert cs[0].posts[..|cs[0].posts|] == cs[0].posts;
      cs
    else
      var r := cs[0 := cs[0].(posts := cs[0].posts + [file.value])];
      assert r[1..] == cs[1..];
      r
  }

  lemma PushExtends(cs: seq<PostCollection>, c: PostCollection)
    requires |cs| >= 1
    ensures Extends(cs, cs + [c])
  {
    assert (cs + [c])[1..|cs|] == cs[1..];
  }

  /** The tags of all groups, in the order of the groups. */
  function AllTags(groups: seq<TagFile.Group>): (r: seq<TagFile.Tag>)
    ensures forall g, t :: g in groups && t in g.tags ==> t in r
  {
    if groups == [] then [] else AllTags(groups[..|groups| - 1]) + groups[|groups| - 1].tags
  }

  /** How many collections grabbing the tags pushes: one per tag, except single posts. */
  function CollectionCount(tags: seq<TagFile.Tag>): (n: nat)
    ensures n <= |tags|
  {
    if tags == [] then 0
    else CollectionCount(tags[..|tags| - 1]) + (if tags[|tags| - 1].tagType == TagTypes.TagType.Post then 0 else 1)
  }

  /** The tags of two lists of groups are the tags of the first followed by those of the second. */
  lemma {:induction false} AllTagsAppend(a: seq<TagFile.Group>, b: seq<TagFile.Group>)
    ensures AllTags(a + b) == AllTags(a) + AllTags(b)
    decreases |b|
  {
    if b == [] {
      assert a + b == a;
    } else {
      var n := |b| - 1;
      assert (a + b)[..|a + b| - 1] == a + b[..n];
      AllTagsAppend(a, b[..n]);
      assert (a + b)[|a + b| - 1] == b[n];
    }
  }

  /** The tags of one group are that group's tags. */
  lemma AllTagsOne(g: TagFile.Group)
    ensures AllTags([g]) == g.tags
  {
    assert [g][..0] == [];
  }

  /** The pages the API answers a search for `tags` with, asked at `postsUrl` by `client`. */
  function PagesFrom(api: Sender.Api, client: Sender.SenderClient, postsUrl: string, tags: string): (pages: Pages)
    ensures forall n: nat :: pages(n) == api.bulk(Sender.BulkRequestTo(client, postsUrl, tags, n))
  {
    (n: nat) => api.bulk(Sender.BulkRequestTo(client, postsUrl, tags, n))
  }

  /** A search as the grabber runs it: the tags and the kind of search give the posts found, or the failure. */
  type SearchFn = (string, TagTypes.TagSearchType) -> Result<seq<Entries.PostEntry>, SearchError>

  /** A grab that reports `err` and leaves `after` of `before` did what `r` says: a failure changes nothing. */
  predicate Reports(r: Result<seq<PostCollection>, GrabError>, err: Option<GrabError>, before: seq<PostCollection>, after: seq<PostCollection>)
  {
    && (r.Err? ==> err == Some(r.error) && after == before)
    && (r.Ok? ==> err.None? && after == r.value)
  }

  /**
   * What one grab sees of its grabber: the server, the client and the entry urls
   * of the sender, the grabber's search, the safe-mode switch and the naming
   * convention.
   */
  datatype GrabEnv = GrabEnv(
    api: Sender.Api,
    client: Sender.SenderClient,
    singleUrl: string,
    poolUrl: string,
    setUrl: string,
    search: SearchFn,
    safeMode: bool,
    naming: Naming)

  /** Every post a search finds has a file url, as `search` guarantees. */
  ghost predicate SearchesHaveUrls(env: GrabEnv)
  {
    forall tags, searchType :: env.search(tags, searchType).Ok? ==> AllHaveUrls(env.search(tags, searchType).value)
  }

  /** What `grab_favorites` does to the collections `cs`, or why it fails. */
  function FavoritesGrab(env: GrabEnv, cs: seq<PostCollection>, login: Sender.Login): (r: Result<seq<PostCollection>, GrabError>)
    requires |cs| >= 1 && SearchesHaveUrls(env)
    ensures r.Ok? ==> Extends(cs, r.value) && r.value[..|cs|] == cs
    ensures r.Ok? ==> |r.value| == |cs| + (if login.username != [] && login.downloadFavorites then 1 else 0)
    ensures r.Ok? && login.username != [] && login.downloadFavorites ==>
      r.value[|cs|].name == "fav:" + login.username && r.value[|cs|].category == ""
    ensures r.Err? ==> login.username != [] && login.downloadFavorites && r.error.SearchFailed?
    ensures login.username != [] && login.downloadFavorites ==>
      var tag := "fav:" + login.username;
      var found := env.search(tag, TagTypes.TagSearchType.Special);
      && (found.Err? ==> r == Err(SearchFailed(found.error)))
      && (found.Ok? ==> AllHaveUrls(found.value) && r == Ok(cs + [PostCollection(tag, "", NewVec(found.value, env.naming))]))
  {
    if login.username != [] && login.downloadFavorites then
      var tag := "fav:" + login.username;
      match env.search(tag, TagTypes.TagSearchType.Special)
      case Err(e) => Err(SearchFailed(e))
      case Ok(found) =>
        var c := PostCollection(tag, "", NewVec(found, env.naming));
        PushExtends(cs, c);
        assert (cs + [c])[..|cs|] == cs;
        Ok(cs + [c])
    else
      assert cs[..|cs|] == cs;
      Ok(cs)
  }

  /** The file `grab_post` pushes onto collection 0: none for a post without a url, nor in safe mode for one not rated "s". */
  function SingleFile(env: GrabEnv, tag: TagFile.Tag): (r: Option<GrabbedPost>)
    ensures var entry := env.api.single(Sender.EntryRequestTo(env.client, env.singleUrl, tag.name));
      (r.Some? <==> entry.file.url.Some? && !(env.safeMode && entry.rating != "s"))
      && (r.Some? ==> r.value == FromPost(entry, env.naming))
  {
    var entry := env.api.single(Sender.EntryRequestTo(env.client, env.singleUrl, tag.name));
    if env.safeMode && entry.rating != "s" then None
    else if entry.file.url.None? then None
    else Some(FromPost(entry, env.naming))
  }

  /** The "General Searches" collection of `grab_general`, or the failed search. */
  function GeneralPushed(env: GrabEnv, tag: TagFile.Tag): (r: Result<PostCollection, GrabError>)
    requires SearchesHaveUrls(env)
    ensures var found := env.search(tag.name, tag.searchType);
      && (found.Err? ==> r == Err(SearchFailed(found.error)))
      && (found.Ok? ==> AllHaveUrls(found.value) && r == Ok(PostCollection(tag.name, "General Searches", NewVec(found.value, env.naming))))
  {
    match env.search(tag.name, tag.searchType)
    case Err(e) => Err(SearchFailed(e))
    case Ok(found) => Ok(PostCollection(tag.name, "General Searches", NewVec(found, env.naming)))
  }

  /** The "Pools" collection of `grab_pool`: the pool's posts in the pool's order, or the failure. */
  function PoolPushed(env: GrabEnv, tag: TagFile.Tag): (r: Result<PostCollection, GrabError>)
    requires SearchesHaveUrls(env)
    ensures var entry := env.api.pool(Sender.EntryRequestTo(env.client, env.poolUrl, tag.name));
      var found := env.search("pool:" + IntToString(entry.id), TagTypes.TagSearchType.Special);
      && (found.Err? ==> r == Err(SearchFailed(found.error)))
      && (found.Ok? ==>
            var sorted := SortPool(RetainPresent(entry.postIds, found.value), found.value);
            && (sorted.None? ==> r == Err(PoolUnsorted))
            && (sorted.Some? ==> AllHaveUrls(sorted.value) && r == Ok(PostCollection(entry.name, "Pools", NewPoolVec(sorted.value, entry.name)))))
  {
    var entry := env.api.pool(Sender.EntryRequestTo(env.client, env.poolUrl, tag.name));
    match env.search("pool:" + IntToString(entry.id), TagTypes.TagSearchType.Special)
    case Err(e) => Err(SearchFailed(e))
    case Ok(found) =>
      match SortPool(RetainPresent(entry.postIds, found), found)
      case None => Err(PoolUnsorted)
      case Some(sorted) =>
        AllHaveUrlsPermuted(found, sorted);
        Ok(PostCollection(entry.name, "Pools", NewPoolVec(sorted, entry.name)))
  }

  /** The "Sets" collection of `grab_set`: the posts of the set's short name, or the failed search. */
  function SetPushed(env: GrabEnv, tag: TagFile.Tag): (r: Result<PostCollection, GrabError>)
    requires SearchesHaveUrls(env)
    ensures var entry := env.api.postSet(Sender.EntryRequestTo(env.client, env.setUrl, tag.name));
      var found := env.search("set:" + entry.shortname, TagTypes.TagSearchType.Special);
      && (found.Err? ==> r == Err(SearchFailed(found.error)))
      && (found.Ok? ==> AllHaveUrls(found.value) && r == Ok(PostCollection(entry.name, "Sets", NewVec(found.value, env.naming))))
  {
    var entry := env.api.postSet(Sender.EntryRequestTo(env.client, env.setUrl, tag.name));
    match env.search("set:" + entry.shortname, TagTypes.TagSearchType.Special)
    case Err(e) => Err(SearchFailed(e))
    case Ok(found) => Ok(PostCollection(entry.name, "Sets", NewVec(found, env.naming)))
  }

  /**
   * The collection that grabbing a pool, a set, an artist or a general tag pushes,
   * or why the grab fails: a failed search, a pool that cannot be sorted, or a
   * tag of unknown type.
   */
  function Pushed(env: GrabEnv, tag: TagFile.Tag): (r: Result<PostCollection, GrabError>)
    requires tag.tagType != TagTypes.TagType.Post && SearchesHaveUrls(env)
    ensures r == Err(UnknownTagType) <==> tag.tagType == TagTypes.TagType.Unknown
    ensures r.Err? && r.error == PoolUnsorted ==> tag.tagType == TagTypes.TagType.Pool
    ensures r.Ok? && tag.tagType in {TagTypes.TagType.General, TagTypes.TagType.Artist} ==>
      r.value.name == tag.name && r.value.category == "General Searches"
    ensures r.Ok? && tag.tagType == TagTypes.TagType.Set ==>
      r.value.name == env.api.postSet(Sender.EntryRequestTo(env.client, env.setUrl, tag.name)).name
      && r.value.category == "Sets"
    ensures r.Ok? && tag.tagType == TagTypes.TagType.Pool ==>
      r.value.name == env.api.pool(Sender.EntryRequestTo(env.client, env.poolUrl, tag.name)).name
      && r.value.category == "Pools"
  {
    match tag.tagType
    case Pool => PoolPushed(env, tag)
    case Set => SetPushed(env, tag)
    case General => GeneralPushed(env, tag)
    case Artist => GeneralPushed(env, tag)
    case Unknown => Err(UnknownTagType)
  }

  /** `cs` with the collection `pushed` at its end, or the failure `pushed` is. */
  function Push(cs: seq<PostCollection>, pushed: Result<PostCollection, GrabError>): (r: Result<seq<PostCollection>, GrabError>)
    requires |cs| >= 1
    ensures r.Ok? <==> pushed.Ok?
    ensures r.Ok? ==> Extends(cs, r.value) && |r.value| == |cs| + 1 && r.value[..|cs|] == cs && r.value[|cs|] == pushed.value
    ensures r.Err? ==> r.error == pushed.error
  {
    match pushed
    case Err(e) => Err(e)
    case Ok(c) =>
      PushExtends(cs, c);
      assert (cs + [c])[..|cs|] == cs;
      Ok(cs + [c])
  }

  /** The file grabbing a single post pushes onto collection 0, if any. */
  type SingleStep = TagFile.Tag -> Option<GrabbedPost>
  /** The collection grabbing any other tag pushes, or why it fails. */
  type PushStep = TagFile.Tag --> Result<PostCollection, GrabError>

  /** Every tag that is not a single post has a collection or a failure. */
  ghost predicate PushesEveryKind(pushed: PushStep)
  {
    forall t: TagFile.Tag :: t.tagType != TagTypes.TagType.Post ==> pushed.requires(t)
  }

  /** One tag of `grab_by_tag_type`: a single post goes onto collection 0, any other tag pushes its collection. */
  function GrabOne(single: SingleStep, pushed: PushStep, cs: seq<PostCollection>, t: TagFile.Tag): (r: Result<seq<PostCollection>, GrabError>)
    requires |cs| >= 1 && PushesEveryKind(pushed)
    ensures r.Ok? ==> Extends(cs, r.value)
    ensures r.Ok? ==> |r.value| == |cs| + (if t.tagType == TagTypes.TagType.Post then 0 else 1)
  {
    if t.tagType == TagTypes.TagType.Post then Ok(AddToSingles(cs, single(t))) else Push(cs, pushed(t))
  }

  /** `grab_posts_by_tags` over any steps: each tag in turn, stopping at the first failure. */
  function GrabInTurn(single: SingleStep, pushed: PushStep, cs: seq<PostCollection>, tags: seq<TagFile.Tag>): (r: Result<seq<PostCollection>, GrabError>)
    requires |cs| >= 1 && PushesEveryKind(pushed)
    ensures r.Ok? ==> Extends(cs, r.value) && |r.value| == |cs| + CollectionCount(tags)
    decreases |tags|
  {
    if tags == [] then
      assert Extends(cs, cs) by { assert cs[0].posts[..|cs[0].posts|] == cs[0].posts; }
      Ok(cs)
    else
      match GrabInTurn(single, pushed, cs, tags[..|tags| - 1])
      case Err(e) => Err(e)
      case Ok(before) =>
        var r := GrabOne(single, pushed, before, tags[|tags| - 1]);
        if r.Ok? then ExtendsTransitive(cs, before, r.value); r else r
  }

  /** Once a prefix of the tags fails, grabbing all of them fails the same way. */
  lemma {:induction false} GrabInTurnFailsOn(single: SingleStep, pushed: PushStep, cs: seq<PostCollection>, tags: seq<TagFile.Tag>, i: nat)
    requires |cs| >= 1 && PushesEveryKind(pushed)
    requires i <= |tags| && GrabInTurn(single, pushed, cs, tags[..i]).Err?
    ensures GrabInTurn(single, pushed, cs, tags) == GrabInTurn(single, pushed, cs, tags[..i])
    decreases |tags| - i
  {
    if i == |tags| {
      assert tags[..i] == tags;
    } else {
      var n := |tags| - 1;
      assert tags[..n][..i] == tags[..i];
      GrabInTurnFailsOn(single, pushed, cs, tags[..n], i);
    }
  }

  /** The collections the tags push, in order: nothing for a single post or a failure, the pushed collection otherwise. */
  function Collected(pushed: PushStep, tags: seq<TagFile.Tag>): (r: seq<PostCollection>)
    requires PushesEveryKind(pushed)
    ensures |r| <= CollectionCount(tags)
    decreases |tags|
  {
    if tags == [] then []
    else
      var t := tags[|tags| - 1];
      Collected(pushed, tags[..|tags| - 1])
      + (if t.tagType == TagTypes.TagType.Post || pushed(t).Err? then [] else [pushed(t).value])
  }

  /** The last tag is grabbed on the collections of the tags before it. */
  lemma GrabInTurnLast(single: SingleStep, pushed: PushStep, cs: seq<PostCollection>, tags: seq<TagFile.Tag>)
    requires |cs| >= 1 && PushesEveryKind(pushed) && tags != [] && GrabInTurn(single, pushed, cs, tags).Ok?
    ensures GrabInTurn(single, pushed, cs, tags[..|tags| - 1]).Ok?
    ensures GrabInTurn(single, pushed, cs, tags)
      == GrabOne(single, pushed, GrabInTurn(single, pushed, cs, tags[..|tags| - 1]).value, tags[|tags| - 1])
  {
  }

  /** One grab keeps every collection from position `m` on and adds at most the pushed one. */
  lemma GrabOneSuffix(single: SingleStep, pushed: PushStep, before: seq<PostCollection>, t: TagFile.Tag, m: nat)
    requires 1 <= m <= |before| && PushesEveryKind(pushed) && GrabOne(single, pushed, before, t).Ok?
    ensures GrabOne(single, pushed, before, t).value[m..]
      == before[m..] + (if t.tagType == TagTypes.TagType.Post then [] else [pushed(t).value])
  {
    var after := GrabOne(single, pushed, before, t).value;
    if t.tagType == TagTypes.TagType.Post {
      assert after[1..] == before[1..];
      assert after[m..] == after[1..][m - 1..];
      assert before[m..] == before[1..][m - 1..];
    } else {
      assert after == before + [pushed(t).value];
      assert after[m..] == before[m..] + [pushed(t).value];
    }
  }

  /**
   * A grab that succeeds keeps the collections it started from (apart from the
   * files added to collection 0), pushes after them exactly the collections of
   * the tags, in the order of the tags, and pushed a collection for every tag
   * that is not a single post.
   */
  lemma {:induction false} GrabInTurnCollects(single: SingleStep, pushed: PushStep, cs: seq<PostCollection>, tags: seq<TagFile.Tag>)
    requires |cs| >= 1 && PushesEveryKind(pushed) && GrabInTurn(single, pushed, cs, tags).Ok?
    ensures GrabInTurn(single, pushed, cs, tags).value[|cs|..] == Collected(pushed, tags)
    ensures forall t :: t in tags && t.tagType != TagTypes.TagType.Post ==> pushed(t).Ok?
    decreases |tags|
  {
    if tags == [] {
      assert GrabInTurn(single, pushed, cs, tags).value[|cs|..] == [];
    } else {
      var n := |tags| - 1;
      GrabInTurnLast(single, pushed, cs, tags);
      GrabInTurnCollects(single, pushed, cs, tags[..n]);
      GrabOneSuffix(single, pushed, GrabInTurn(single, pushed, cs, tags[..n]).value, tags[n], |cs|);
      assert tags == tags[..n] + [tags[n]];
    }
  }

  /** The single-post step of a grabber. */
  function SingleOf(env: GrabEnv): SingleStep
  {
    (t: TagFile.Tag) => SingleFile(env, t)
  }

  /** The push step of a grabber. */
  function PushedOf(env: GrabEnv): (pushed: PushStep)
    requires SearchesHaveUrls(env)
    ensures PushesEveryKind(pushed)
  {
    (t: TagFile.Tag) requires t.tagType != TagTypes.TagType.Post => Pushed(env, t)
  }

  /**
   * What `grab_by_tag_type` does to the collections `cs`: a single post goes onto
   * collection 0 (in safe mode only when it is rated "s"); every other kind pushes
   * its collection at the end, or fails.
   */
  function TagGrab(env: GrabEnv, cs: seq<PostCollection>, tag: TagFile.Tag): (r: Result<seq<PostCollection>, GrabError>)
    requires |cs| >= 1 && SearchesHaveUrls(env)
    ensures r.Ok? ==> Extends(cs, r.value)
    ensures r.Ok? ==> |r.value| == |cs| + (if tag.tagType == TagTypes.TagType.Post then 0 else 1)
    ensures tag.tagType == TagTypes.TagType.Post ==> r.Ok?
    ensures tag.tagType == TagTypes.TagType.Unknown ==> r == Err(UnknownTagType)
  {
    GrabOne(SingleOf(env), PushedOf(env), cs, tag)
  }

  /** Grabbing one tag is the single-post grab for a post and pushes the tag's collection for any other kind. */
  lemma TagGrabCases(env: GrabEnv, cs: seq<PostCollection>, tag: TagFile.Tag)
    requires |cs| >= 1 && SearchesHaveUrls(env)
    ensures tag.tagType == TagTypes.TagType.Post ==>
      var entry := env.api.single(Sender.EntryRequestTo(env.client, env.singleUrl, tag.name));
      TagGrab(env, cs, tag) == Ok(if env.safeMode && entry.rating != "s" then cs else WithSinglePost(cs, entry, env.naming))
    ensures tag.tagType != TagTypes.TagType.Post ==> TagGrab(env, cs, tag) == Push(cs, Pushed(env, tag))
  {
    assert TagGrab(env, cs, tag) == GrabOne(SingleOf(env), PushedOf(env), cs, tag);
  }

  /** What `grab_posts_by_tags` does to the collections `cs`: each tag in turn, stopping at the first failure. */
  function GrabTags(env: GrabEnv, cs: seq<PostCollection>, tags: seq<TagFile.Tag>): (r: Result<seq<PostCollection>, GrabError>)
    requires |cs| >= 1 && SearchesHaveUrls(env)
    ensures r.Ok? ==> Extends(cs, r.value) && |r.value| == |cs| + CollectionCount(tags)
  {
    GrabInTurn(SingleOf(env), PushedOf(env), cs, tags)
  }

  /**
   * After a grab that succeeds, the new collections are those of the tags that are
   * not single posts, in the order of the tags, and none of those tags failed.
   */
  lemma GrabTagsCollects(env: GrabEnv, cs: seq<PostCollection>, tags: seq<TagFile.Tag>)
    requires |cs| >= 1 && SearchesHaveUrls(env) && GrabTags(env, cs, tags).Ok?
    ensures GrabTags(env, cs, tags).value[|cs|..] == Collected(PushedOf(env), tags)
    ensures forall t :: t in tags && t.tagType != TagTypes.TagType.Post ==> Pushed(env, t).Ok?
  {
    GrabInTurnCollects(SingleOf(env), PushedOf(env), cs, tags);
    forall t | t in tags && t.tagType != TagTypes.TagType.Post
      ensures Pushed(env, t).Ok?
    {
      assert PushedOf(env)(t) == Pushed(env, t);
    }
  }

  /** Grabbing one more tag is grabbing it on the collections of the tags before it. */
  lemma GrabTagsStep(env: GrabEnv, cs: seq<PostCollection>, tags: seq<TagFile.Tag>, i: nat)
    requires |cs| >= 1 && SearchesHaveUrls(env) && i < |tags| && GrabTags(env, cs, tags[..i]).Ok?
    ensures |GrabTags(env, cs, tags[..i]).value| >= 1
    ensures GrabTags(env, cs, tags[..i + 1]) == TagGrab(env, GrabTags(env, cs, tags[..i]).value, tags[i])
  {
    assert tags[..i + 1][..i] == tags[..i] && tags[..i + 1][i] == tags[i];
  }

  /** Once the grab fails on a prefix of the tags, the whole grab fails the same way. */
  lemma GrabTagsFailsOn(env: GrabEnv, cs: seq<PostCollection>, tags: seq<TagFile.Tag>, i: nat)
    requires |cs| >= 1 && SearchesHaveUrls(env) && i <= |tags| && GrabTags(env, cs, tags[..i]).Err?
    ensures GrabTags(env, cs, tags) == GrabTags(env, cs, tags[..i])
  {
    GrabInTurnFailsOn(SingleOf(env), PushedOf(env), cs, tags, i);
  }

  /**
   * `Grabber`: the collections grabbed so far, the sender it searches with, the
   * blacklist it filters with (shared with its owner), and the safe-mode switch.
   */
  class Grabber {
    var posts: seq<PostCollection>
    const sender: Sender.RequestSender
    var blacklist: Option<BlacklistFilter.Blacklist>
    var safeMode: bool
    /** The naming convention of the configuration file. */
    const naming: Naming

    ghost function BlacklistObject(): set<object>
      reads this`blacklist
    {
      if blacklist.Some? then {blacklist.value} else {}
    }

    /** Collection 0 holds the single posts, and the sender's url table is complete. */
    ghost predicate Valid()
      reads this, sender
    {
      |posts| >= 1 && posts[0].name == SinglePostsName && posts[0].category == ""
      && sender.Valid()
    }

    /** `Grabber::new`. */
    constructor (sender: Sender.RequestSender, safeMode: bool, naming: Naming)
      requires sender.Valid()
      ensures Valid()
      ensures posts == [PostCollection(SinglePostsName, "", [])] && blacklist.None?
      ensures this.sender == sender && this.safeMode == safeMode && this.naming == naming
    {
      posts := [PostCollection(SinglePostsName, "", [])];
      this.sender := sender;
      blacklist := None;
      this.safeMode := safeMode;
      this.naming := naming;
    }

    /** `set_blacklist`: an empty blacklist is not taken. */
    method SetBlacklist(b: BlacklistFilter.Blacklist)
      requires Valid()
      modifies this
      ensures Valid()
      ensures blacklist == if |b.lines| > 0 then Some(b) else old(blacklist)
      ensures posts == old(posts) && safeMode == old(safeMode)
    {
      if !b.IsEmpty() {
        blacklist := Some(b);
      }
    }

    /** `set_safe_mode`. */
    method SetSafeMode(mode: bool)
      requires Valid()
      modifies this
      ensures Valid()
      ensures safeMode == mode && posts == old(posts) && blacklist == old(blacklist)
    {
      safeMode := mode;
    }

    /** The blacklist a search filters with: only a logged-in user's. */
    function CurrentGate(): Gate
      reads this`blacklist, BlacklistObject()
    {
      if sender.IsAuthenticated() && blacklist.Some? then Some(blacklist.value.lines) else None
    }

    /** What a grab sees of this grabber; its search is `search` with the current blacklist. */
    function Env(): (env: GrabEnv)
      requires sender.Valid()
      reads this`blacklist, this`safeMode, BlacklistObject(), sender
      ensures SearchesHaveUrls(env)
      ensures env.api == sender.api && env.client == sender.client && env.safeMode == safeMode && env.naming == naming
      ensures env.singleUrl == sender.urls["single"] && env.poolUrl == sender.urls["pool"] && env.setUrl == sender.urls["set"]
    {
      var api := sender.api;
      var client := sender.client;
      var postsUrl := sender.urls["posts"];
      var gate := CurrentGate();
      var env := GrabEnv(api, client, sender.urls["single"], sender.urls["pool"], sender.urls["set"],
        (tags: string, searchType: TagTypes.TagSearchType) => SearchResult(PagesFrom(api, client, postsUrl, tags), gate, searchType),
        safeMode, naming);
      assert SearchesHaveUrls(env) by {
        forall tags, searchType | env.search(tags, searchType).Ok?
          ensures AllHaveUrls(env.search(tags, searchType).value)
        {
          SearchResultValid(PagesFrom(api, client, postsUrl, tags), gate, searchType);
        }
      }
      env
    }

    /** The search of `Env()` is `search` on the current blacklist. */
    lemma EnvSearches(tags: string, searchType: TagTypes.TagSearchType)
      requires sender.Valid()
      ensures Env().search(tags, searchType) == SearchResult(PagesOf(tags), CurrentGate(), searchType)
    {
    }

    /** The pages the API answers a search for `tags` with. */
    function PagesOf(tags: string): Pages
      requires sender.Valid()
      reads sender
    {
      PagesFrom(sender.api, sender.client, sender.urls["posts"], tags)
    }

    /** `filter_posts_with_blacklist`. */
    method FilterWithBlacklist(page: seq<Entries.PostEntry>) returns (r: Result<(seq<Entries.PostEntry>, nat), BlacklistParsing.BlacklistError>)
      ensures r == FilterPage(page, CurrentGate())
    {
      if sender.IsAuthenticated() {
        if blacklist.Some? {
          r := blacklist.value.FilterPosts(page);
          return;
        }
      }
      r := Ok((page, 0));
    }

    /** The body of both search loops for a page that is not empty. */
    method ProcessSearchPage(page: seq<Entries.PostEntry>) returns (r: Result<PageResult, BlacklistParsing.BlacklistError>)
      ensures r == ProcessPage(page, CurrentGate())
    {
      var filter := FilterWithBlacklist(page);
      if filter.Err? {
        return Err(filter.error);
      }
      var (kept, filtered) := filter.value;
      var valid, invalid := RemoveInvalidPosts(kept);
      r := Ok(PageResult(Reverse(valid), filtered, invalid));
    }

    /** `general_search`. */
    method GeneralSearchPosts(tags: string) returns (r: Result<PageResult, SearchError>)
      requires Valid()
      ensures r == GeneralSearch(PagesOf(tags), CurrentGate())
    {
      ghost var pages := PagesOf(tags);
      ghost var step := StepWith(CurrentGate());
      var acc := NothingYet;
      for page := 1 to PostSearchLimit
        invariant GeneralSearch(pages, CurrentGate()) == SearchFrom(pages, step, page, PostSearchLimit - 1, false, acc)
      {
        var searched := sender.BulkSearch(tags, page);
        assert searched == pages(page);
        if searched == [] {
          return Ok(acc);
        }
        var processed := ProcessSearchPage(searched);
        if processed.Err? {
          return Err(Blacklisted(processed.error));
        }
        acc := Append(acc, processed.value);
      }
      r := Ok(acc);
    }

    /** `special_search`: runs until a page is empty; the `u16` counter overflows after page 65535. */
    method SpecialSearchPosts(tags: string) returns (r: Result<PageResult, SearchError>)
      requires Valid()
      ensures r == SpecialSearch(PagesOf(tags), CurrentGate())
    {
      ghost var pages := PagesOf(tags);
      ghost var step := StepWith(CurrentGate());
      var acc := NothingYet;
      var page := 1;
      while page <= LastPage
        invariant 1 <= page <= LastPage + 1
        invariant SpecialSearch(pages, CurrentGate()) == SearchFrom(pages, step, page, LastPage, true, acc)
        decreases LastPage + 1 - page
      {
        var searched := sender.BulkSearch(tags, page);
        assert searched == pages(page);
        if searched == [] {
          return Ok(acc);
        }
        var processed := ProcessSearchPage(searched);
        if processed.Err? {
          return Err(Blacklisted(processed.error));
        }
        acc := Append(acc, processed.value);
        page := page + 1;
      }
      r := Err(PageOverflow);
    }

    /** `search`. */
    method Search(tags: string, searchType: TagTypes.TagSearchType) returns (r: Result<seq<Entries.PostEntry>, SearchError>)
      requires Valid()
      ensures r == SearchResult(PagesOf(tags), CurrentGate(), searchType)
    {
      match searchType {
        case General =>
          var found := GeneralSearchPosts(tags);
          r := if found.Ok? then Ok(found.value.posts) else Err(found.error);
        case Special =>
          var found := SpecialSearchPosts(tags);
          r := if found.Ok? then Ok(found.value.posts) else Err(found.error);
        case None =>
          r := Ok([]);
      }
    }

    /** `add_single_post`. */
    method AddSinglePost(entry: Entries.PostEntry)
      requires Valid()
      modifies this
      ensures Valid() && blacklist == old(blacklist) && safeMode == old(safeMode)
      ensures posts == WithSinglePost(old(posts), entry, naming)
    {
      if entry.file.url.Some? {
        posts := posts[0 := posts[0].(posts := posts[0].posts + [FromPost(entry, naming)])];
      }
    }

    /** `grab_post`: in safe mode only a post rated "s" is added. */
    method GrabPost(tag: TagFile.Tag)
      requires Valid()
      modifies this
      ensures Valid() && blacklist == old(blacklist) && safeMode == old(safeMode)
      ensures posts == AddToSingles(old(posts), SingleFile(Env(), tag))
    {
      var entry := sender.GetSinglePost(tag.name);
      if safeMode {
        if entry.rating == "s" {
          AddSinglePost(entry);
        }
      } else {
        AddSinglePost(entry);
      }
    }

    /** `grab_general`: the search for the tag becomes a collection of the "General Searches" category. */
    method GrabGeneral(tag: TagFile.Tag) returns (err: Option<GrabError>)
      requires Valid()
      modifies this
      ensures Valid() && blacklist == old(blacklist) && safeMode == old(safeMode)
      ensures Reports(Push(old(posts), GeneralPushed(Env(), tag)), err, old(posts), posts)
    {
      EnvSearches(tag.name, tag.searchType);
      var found := Search(tag.name, tag.searchType);
      if found.Err? {
        return Some(SearchFailed(found.error));
      }
      SearchResultValid(PagesOf(tag.name), CurrentGate(), tag.searchType);
      var collection := PostCollection(tag.name, "General Searches", NewVec(found.value, naming));
      posts := posts + [collection];
      err := None;
    }

    /** `grab_set`: the posts of the set's short name become a collection of the "Sets" category. */
    method GrabSet(tag: TagFile.Tag) returns (err: Option<GrabError>)
      requires Valid()
      modifies this
      ensures Valid() && blacklist == old(blacklist) && safeMode == old(safeMode)
      ensures Reports(Push(old(posts), SetPushed(Env(), tag)), err, old(posts), posts)
    {
      var entry := sender.GetSet(tag.name);
      var query := "set:" + entry.shortname;
      EnvSearches(query, TagTypes.TagSearchType.Special);
      var found := Search(query, TagTypes.TagSearchType.Special);
      if found.Err? {
        return Some(SearchFailed(found.error));
      }
      SearchResultValid(PagesOf(query), CurrentGate(), TagTypes.TagSearchType.Special);
      var collection := PostCollection(entry.name, "Sets", NewVec(found.value, naming));
      posts := posts + [collection];
      err := None;
    }

    /**
     * `grab_pool`: the posts of the pool, put in the pool's order, become a
     * collection of the "Pools" category with numbered pages.
     */
    method GrabPool(tag: TagFile.Tag) returns (err: Option<GrabError>)
      requires Valid()
      modifies this
      ensures Valid() && blacklist == old(blacklist) && safeMode == old(safeMode)
      ensures Reports(Push(old(posts), PoolPushed(Env(), tag)), err, old(posts), posts)
    {
      ghost var env := Env();
      var entry := sender.GetPool(tag.name);
      assert entry == env.api.pool(Sender.EntryRequestTo(env.client, env.poolUrl, tag.name));
      var query := "pool:" + IntToString(entry.id);
      EnvSearches(query, TagTypes.TagSearchType.Special);
      var found := Search(query, TagTypes.TagSearchType.Special);
      assert found == env.search(query, TagTypes.TagSearchType.Special);
      if found.Err? {
        return Some(SearchFailed(found.error));
      }
      SearchResultValid(PagesOf(query), CurrentGate(), TagTypes.TagSearchType.Special);
      err := PushPool(entry, found.value);
    }

    /** The end of `grab_pool`: the found posts, sorted into the pool's order, become its collection. */
    method PushPool(entry: Entries.PoolEntry, found: seq<Entries.PostEntry>) returns (err: Option<GrabError>)
      requires Valid() && AllHaveUrls(found)
      modifies this`posts
      ensures Valid()
      ensures var sorted := SortPool(RetainPresent(entry.postIds, found), found);
        && (sorted.None? ==> err == Some(PoolUnsorted) && posts == old(posts))
        && (sorted.Some? ==> AllHaveUrls(sorted.value) && err.None? && posts == old(posts) + [PostCollection(entry.name, "Pools", NewPoolVec(sorted.value, entry.name))])
    {
      var ids := RetainPresent(entry.postIds, found);
      var ordered := SortPosts(ids, found);
      if ordered.None? {
        return Some(PoolUnsorted);
      }
      var sorted := ordered.value;
      AllHaveUrlsPermuted(found, sorted);
      posts := posts + [PostCollection(entry.name, "Pools", NewPoolVec(sorted, entry.name))];
      err := None;
    }

    /** `grab_favorites`: with a user name and favorites switched on, the user's favorites become a collection. */
    method GrabFavorites(login: Sender.Login) returns (err: Option<GrabError>)
      requires Valid()
      modifies this
      ensures Valid() && blacklist == old(blacklist) && safeMode == old(safeMode)
      ensures Extends(old(posts), posts)
      ensures Reports(FavoritesGrab(Env(), old(posts), login), err, old(posts), posts)
    {
      EnvSearches("fav:" + login.username, TagTypes.TagSearchType.Special);
      err := None;
      if login.username != [] && login.downloadFavorites {
        var tag := "fav:" + login.username;
        var found := Search(tag, TagTypes.TagSearchType.Special);
        if found.Err? {
          return Some(SearchFailed(found.error));
        }
        SearchResultValid(PagesOf(tag), CurrentGate(), TagTypes.TagSearchType.Special);
        var collection := PostCollection(tag, "", NewVec(found.value, naming));
        posts := posts + [collection];
      }
    }

    /** `grab_by_tag_type`: a pool, a set, a single post or a general search; an unknown type cannot be grabbed. */
    method GrabByTagType(tag: TagFile.Tag) returns (err: Option<GrabError>)
      requires Valid()
      modifies this
      ensures Valid() && blacklist == old(blacklist) && safeMode == old(safeMode)
      ensures Extends(old(posts), posts)
      ensures Reports(TagGrab(Env(), old(posts), tag), err, old(posts), posts)
    {
      match tag.tagType {
        case Pool => err := GrabPool(tag);
        case Set => err := GrabSet(tag);
        case Post => GrabPost(tag); err := None;
        case General => err := GrabGeneral(tag);
        case Artist => err := GrabGeneral(tag);
        case Unknown =>
          PushExtends(posts, PostCollection("", "", []));
          err := Some(UnknownTagType);
      }
    }

    /** One turn of `grab_posts_by_tags`: the tag at `i` is grabbed, and the grab over the tags so far advances by it. */
    method GrabNext(ghost start: seq<PostCollection>, tags: seq<TagFile.Tag>, i: nat) returns (err: Option<GrabError>)
      requires Valid() && |start| >= 1 && i < |tags|
      requires GrabTags(Env(), start, tags[..i]) == Ok(posts)
      modifies this
      ensures Valid() && blacklist == old(blacklist) && safeMode == old(safeMode) && Env() == old(Env())
      ensures err.None? ==> GrabTags(Env(), start, tags[..i + 1]) == Ok(posts)
      ensures err.Some? ==> GrabTags(Env(), start, tags[..i + 1]) == Err(err.value)
      ensures err.Some? ==> posts == old(posts)
    {
      ghost var env := Env();
      GrabTagsStep(env, start, tags, i);
      ghost var step := TagGrab(env, posts, tags[i]);
      err := GrabByTagType(tags[i]);
      assert Env() == env;
      assert Reports(step, err, old(posts), posts);
    }

    /** `grab_posts_by_tags`: every tag of every group, in order. */
    method GrabPostsByTags(groups: seq<TagFile.Group>) returns (err: Option<GrabError>)
      requires Valid()
      modifies this
      ensures Valid() && blacklist == old(blacklist) && safeMode == old(safeMode)
      ensures Extends(old(posts), posts)
      ensures err.None? ==> |posts| == |old(posts)| + CollectionCount(AllTags(groups))
      ensures var r := GrabTags(Env(), old(posts), AllTags(groups));
        (r.Err? ==> err == Some(r.error)) && (r.Ok? ==> err.None? && posts == r.value)
    {
      var tags := AllTags(groups);
      ghost var env := Env();
      assert GrabTags(env, posts, tags[..0]) == Ok(posts) by {
        assert tags[..0] == [];
        assert posts[0].posts[..|posts[0].posts|] == posts[0].posts;
      }
      for i := 0 to |tags|
        invariant Valid() && blacklist == old(blacklist) && safeMode == old(safeMode)
        invariant Env() == env
        invariant GrabTags(env, old(posts), tags[..i]) == Ok(posts)
      {
        err := GrabNext(old(posts), tags, i);
        if err.Some? {
          GrabTagsFailsOn(env, old(posts), tags, i + 1);
          return;
        }
      }
      assert tags[..|tags|] == tags;
      err := None;
    }
  }
}
