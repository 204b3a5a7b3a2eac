/**
 * The web connector: it drives the grabber (safe mode, the user's blacklist,
 * favorites, then the tag groups) and downloads every grabbed collection into
 * `<download directory>/<category>/<collection name>/<file name>`, skipping files
 * that already exist. The file system is the set of paths that exist and the list
 * of files saved; the progress bar is its position and its length.
 */
module Connector {
  import opened Wrappers
  import opened Text
  import opened Grabbing
  import Sender
  import BlacklistParsing
  import BlacklistFilter
  import TagFile

  // ---------------------------------------------------------------------------
  // Directory names
  // ---------------------------------------------------------------------------

  /** The characters `remove_invalid_chars` replaces: `? : * < > " |`. */
  predicate InvalidChar(c: char)
  {
    c == '?' || c == ':' || c == '*' || c == '<' || c == '>' || c == '"' || c == '|'
  }

  function Sanitized(c: char): char
  {
    if InvalidChar(c) then '_' else c
  }

  /** `remove_invalid_chars`: each invalid character becomes '_', every other one is kept. */
  function RemoveInvalidChars(name: string): (r: string)
    ensures |r| == |name|
    ensures forall i :: 0 <= i < |name| && InvalidChar(name[i]) ==> r[i] == '_'
    ensures forall i :: 0 <= i < |name| && !InvalidChar(name[i]) ==> r[i] == name[i]
  {
    seq(|name|, i requires 0 <= i < |name| => Sanitized(name[i]))
  }

  /** No invalid character is left, and exactly the names without one are kept as they are. */
  lemma RemoveInvalidCharsClean(name: string)
    ensures forall c :: c in RemoveInvalidChars(name) ==> !InvalidChar(c)
    ensures RemoveInvalidChars(name) == name <==> forall c :: c in name ==> !InvalidChar(c)
  {
    var r := RemoveInvalidChars(name);
    forall c | c in r
      ensures !InvalidChar(c)
    {
      var i :| 0 <= i < |r| && r[i] == c;
    }
    if r == name {
      forall c | c in name
        ensures !InvalidChar(c)
      {
        var i :| 0 <= i < |name| && name[i] == c;
        assert r[i] == c;
      }
    }
  }

  /** Removing the invalid characters twice changes nothing more. */
  lemma RemoveInvalidCharsIdempotent(name: string)
    ensures RemoveInvalidChars(RemoveInvalidChars(name)) == RemoveInvalidChars(name)
  {
    RemoveInvalidCharsClean(name);
    RemoveInvalidCharsClean(RemoveInvalidChars(name));
  }

  /** The character '/' is never replaced, so a name keeps the positions of its separators. */
  lemma RemoveInvalidCharsKeepsSeparators(name: string, i: nat)
    requires i < |name|
    ensures RemoveInvalidChars(name)[i] == '/' <==> name[i] == '/'
  {
  }

  // ---------------------------------------------------------------------------
  // Sizes
  // ---------------------------------------------------------------------------

  const U64Modulus: int := 0x1_0000_0000_0000_0000

  /** `size as u64` for an `i64` size: the bits are kept, so a negative size wraps around. */
  function AsU64(size: int): (r: nat)
    ensures r < U64Modulus
    ensures 0 <= size < U64Modulus ==> r == size
    ensures I64Min <= size < 0 ==> r == size + U64Modulus
  {
    size % U64Modulus
  }

  /** The summed sizes of a list of files. */
  function PostsSize(posts: seq<GrabbedPost>): nat
  {
    if posts == [] then 0 else AsU64(posts[0].fileSize) + PostsSize(posts[1..])
  }

  /** `get_total_file_size`: the sizes of the files of every collection. */
  function TotalFileSize(cs: seq<PostCollection>): nat
  {
    if cs == [] then 0 else PostsSize(cs[0].posts) + TotalFileSize(cs[1..])
  }

  /** The files of all collections, collection after collection. */
  function AllPosts(cs: seq<PostCollection>): (r: seq<GrabbedPost>)
    ensures forall c, p :: c in cs && p in c.posts ==> p in r
  {
    if cs == [] then [] else cs[0].posts + AllPosts(cs[1..])
  }

  lemma {:induction false} PostsSizeAppend(a: seq<GrabbedPost>, b: seq<GrabbedPost>)
    ensures PostsSize(a + b) == PostsSize(a) + PostsSize(b)
  {
    if a == [] {
      assert a + b == b;
    } else {
      assert (a + b)[0] == a[0] && (a + b)[1..] == a[1..] + b;
      PostsSizeAppend(a[1..], b);
    }
  }

  /** The nested sum is the sum over all files. */
  lemma {:induction false} TotalIsSumOfAllPosts(cs: seq<PostCollection>)
    ensures TotalFileSize(cs) == PostsSize(AllPosts(cs))
  {
    if cs != [] {
      TotalIsSumOfAllPosts(cs[1..]);
      PostsSizeAppend(cs[0].posts, AllPosts(cs[1..]));
    }
  }

  // ---------------------------------------------------------------------------
  // Paths
  // ---------------------------------------------------------------------------

  /**
   * `PathBuf::push` on Unix: an absolute part replaces the path; otherwise a
   * separator is put in between unless the path is empty or already ends in one.
   */
  function Push(path: string, part: string): (r: string)
    ensures |part| > 0 && part[0] == '/' ==> r == part
  {
    if |part| > 0 && part[0] == '/' then part
    else if path == [] || path[|path| - 1] == '/' then path + part
    else path + "/" + part
  }

  /** A `PathBuf` collected from parts: each part pushed in turn onto an empty path. */
  function Collect(parts: seq<string>): string
  {
    if parts == [] then [] else Push(Collect(parts[..|parts| - 1]), parts[|parts| - 1])
  }

  /** The directory of a collection: the download directory, its category, its sanitized name. */
  function StaticPath(dir: string, c: PostCollection): string
  {
    Collect([dir, c.category, RemoveInvalidChars(c.name)])
  }

  /** Where a file of a collection is saved: the collection's directory, then the sanitized file name. */
  function FilePath(dir: string, c: PostCollection, post: GrabbedPost): string
  {
    Collect([StaticPath(dir, c), RemoveInvalidChars(post.name)])
  }

  /** A path part that is neither empty nor begins or ends with a separator. */
  predicate Part(s: string)
  {
    s != [] && s[0] != '/' && s[|s| - 1] != '/'
  }

  /** The download directory followed by a separator, unless it already ends in one. */
  function DirPrefix(dir: string): string
    requires dir != []
  {
    if dir[|dir| - 1] == '/' then dir else dir + "/"
  }

  lemma PushPart(path: string, part: string)
    requires path != [] && Part(part)
    ensures Push(path, part) == DirPrefix(path) + part
  {
  }

  lemma SanitizedPart(name: string)
    requires Part(name)
    ensures Part(RemoveInvalidChars(name))
  {
    RemoveInvalidCharsKeepsSeparators(name, 0);
    RemoveInvalidCharsKeepsSeparators(name, |name| - 1);
  }

  /** Collecting two or three parts pushes each onto the first. */
  lemma CollectParts(a: string, b: string, c: string)
    ensures Collect([a, b]) == Push(a, b)
    ensures Collect([a, b, c]) == Push(Push(a, b), c)
  {
    assert [a, b, c][..2] == [a, b] && [a, b][..1] == [a] && [a][..0] == [];
    assert Collect([a]) == a by {
      assert Collect([a]) == Push(Collect([]), a);
      if !(|a| > 0 && a[0] == '/') {
        assert [] + a == a;
      }
    }
    assert Collect([a, b]) == Push(Collect([a]), b);
  }

  /** The directory of a collection: the download directory, the category unless it is empty, the sanitized name. */
  lemma StaticPathShape(dir: string, c: PostCollection)
    requires dir != [] && Part(c.name)
    requires c.category == [] || Part(c.category)
    ensures StaticPath(dir, c) ==
      DirPrefix(dir) + (if c.category == [] then [] else c.category + "/") + RemoveInvalidChars(c.name)
  {
    var name := RemoveInvalidChars(c.name);
    SanitizedPart(c.name);
    CollectParts(dir, c.category, name);
    var withCategory := Push(dir, c.category);
    if c.category == [] {
      assert withCategory == DirPrefix(dir);
      PushPart(withCategory, name);
      assert DirPrefix(withCategory) == DirPrefix(dir) + [];
    } else {
      PushPart(dir, c.category);
      PushPart(withCategory, name);
      assert DirPrefix(withCategory) == DirPrefix(dir) + (c.category + "/");
    }
  }

  /**
   * With plain parts, a file's path is the download directory, the category (an
   * empty category adds nothing), the sanitized collection name and the sanitized
   * file name, separated by '/'.
   */
  lemma FilePathShape(dir: string, c: PostCollection, post: GrabbedPost)
    requires dir != [] && Part(c.name) && Part(post.name)
    requires c.category == [] || Part(c.category)
    ensures FilePath(dir, c, post) == StaticPath(dir, c) + "/" + RemoveInvalidChars(post.name)
    ensures StaticPath(dir, c) ==
      DirPrefix(dir) + (if c.category == [] then [] else c.category + "/") + RemoveInvalidChars(c.name)
  {
    StaticPathShape(dir, c);
    SanitizedPart(post.name);
    SanitizedPart(c.name);
    var staticPath := StaticPath(dir, c);
    CollectParts(staticPath, RemoveInvalidChars(post.name), []);
    assert staticPath[|staticPath| - 1] == RemoveInvalidChars(c.name)[|c.name| - 1];
    PushPart(staticPath, RemoveInvalidChars(post.name));
  }

  // ---------------------------------------------------------------------------
  // Downloading
  // ---------------------------------------------------------------------------

  /** One saved file: its path and the url its bytes were downloaded from. */
  datatype Save = Save(path: string, url: string)

  /** What downloading changes: the paths that exist, the files saved in order, the progress bar's position. */
  datatype Disk = Disk(existing: set<string>, saved: seq<Save>, progress: nat)

  /**
   * One file of `download_collection`: a path that exists is skipped, any other is
   * downloaded and saved; the progress bar advances by the file's size either way.
   */
  function SavePost(dir: string, c: PostCollection, post: GrabbedPost, disk: Disk): Disk
  {
    var path := FilePath(dir, c, post);
    var progress := disk.progress + AsU64(post.fileSize);
    if path in disk.existing then disk.(progress := progress)
    else Disk(disk.existing + {path}, disk.saved + [Save(path, post.url)], progress)
  }

  /** The files of one collection, in order. */
  function SavePosts(dir: string, c: PostCollection, posts: seq<GrabbedPost>, disk: Disk): Disk
  {
    if posts == [] then disk else SavePosts(dir, c, posts[1..], SavePost(dir, c, posts[0], disk))
  }

  /** `download_collection`: every collection in order. */
  function SaveCollections(dir: string, cs: seq<PostCollection>, disk: Disk): Disk
  {
    if cs == [] then disk else SaveCollections(dir, cs[1..], SavePosts(dir, cs[0], cs[0].posts, disk))
  }

  /**
   * A later disk keeps every earlier save and every existing path, and what it
   * saved since went to paths that did not exist: no file is written over.
   */
  predicate Fresh(a: Disk, b: Disk)
  {
    |a.saved| <= |b.saved| && b.saved[..|a.saved|] == a.saved && a.existing <= b.existing
    && forall i :: |a.saved| <= i < |b.saved| ==> b.saved[i].path !in a.existing
  }

  /** Every saved file exists, and no path was saved twice. */
  predicate Consistent(d: Disk)
  {
    (forall i :: 0 <= i < |d.saved| ==> d.saved[i].path in d.existing)
    && forall i, j :: 0 <= i < j < |d.saved| ==> d.saved[i].path != d.saved[j].path
  }

  lemma FreshTransitive(a: Disk, b: Disk, c: Disk)
    requires Fresh(a, b) && Fresh(b, c)
    ensures Fresh(a, c)
  {
    assert c.saved[..|a.saved|] == c.saved[..|b.saved|][..|a.saved|];
    forall i | |a.saved| <= i < |c.saved|
      ensures c.saved[i].path !in a.existing
    {
      if i < |b.saved| {
        assert c.saved[i] == c.saved[..|b.saved|][i] == b.saved[i];
      }
    }
  }

  /** One file: the disk moves on freshly, its path then exists, and consistency is kept. */
  lemma SavePostFresh(dir: string, c: PostCollection, post: GrabbedPost, disk: Disk)
    ensures Fresh(disk, SavePost(dir, c, post, disk))
    ensures FilePath(dir, c, post) in SavePost(dir, c, post, disk).existing
    ensures Consistent(disk) ==> Consistent(SavePost(dir, c, post, disk))
  {
    var r := SavePost(dir, c, post, disk);
    if FilePath(dir, c, post) !in disk.existing {
      assert r.saved[..|disk.saved|] == disk.saved;
    } else {
      assert r.saved[..|disk.saved|] == disk.saved;
    }
  }

  /** The files of a collection: fresh saves, consistency kept, and afterwards every file's path exists. */
  lemma {:induction false} SavePostsFresh(dir: string, c: PostCollection, posts: seq<GrabbedPost>, disk: Disk)
    ensures Fresh(disk, SavePosts(dir, c, posts, disk))
    ensures Consistent(disk) ==> Consistent(SavePosts(dir, c, posts, disk))
    ensures forall p :: p in posts ==> FilePath(dir, c, p) in SavePosts(dir, c, posts, disk).existing
  {
    if posts == [] {
      assert disk.saved[..|disk.saved|] == disk.saved;
    } else {
      var next := SavePost(dir, c, posts[0], disk);
      SavePostFresh(dir, c, posts[0], disk);
      SavePostsFresh(dir, c, posts[1..], next);
      FreshTransitive(disk, next, SavePosts(dir, c, posts, disk));
      forall p | p in posts
        ensures FilePath(dir, c, p) in SavePosts(dir, c, posts, disk).existing
      {
        if p != posts[0] {
          assert p in posts[1..];
        }
      }
    }
  }

  /**
   * Downloading all collections writes no existing file, keeps the disk
   * consistent, and leaves the target path of every file of every collection in place.
   */
  lemma {:induction false} SaveCollectionsFresh(dir: string, cs: seq<PostCollection>, disk: Disk)
    ensures Fresh(disk, SaveCollections(dir, cs, disk))
    ensures Consistent(disk) ==> Consistent(SaveCollections(dir, cs, disk))
    ensures forall c, p :: c in cs && p in c.posts ==> FilePath(dir, c, p) in SaveCollections(dir, cs, disk).existing
  {
    if cs == [] {
      assert disk.saved[..|disk.saved|] == disk.saved;
    } else {
      var next := SavePosts(dir, cs[0], cs[0].posts, disk);
      SavePostsFresh(dir, cs[0], cs[0].posts, disk);
      SaveCollectionsFresh(dir, cs[1..], next);
      var r := SaveCollections(dir, cs, disk);
      FreshTransitive(disk, next, r);
      forall c, p | c in cs && p in c.posts
        ensures FilePath(dir, c, p) in r.existing
      {
        if c != cs[0] {
          assert c in cs[1..];
        }
      }
    }
  }

  /** When every target path already exists, nothing is downloaded. */
  lemma {:induction false} SavePostsSkips(dir: string, c: PostCollection, posts: seq<GrabbedPost>, disk: Disk)
    requires forall p :: p in posts ==> FilePath(dir, c, p) in disk.existing
    ensures SavePosts(dir, c, posts, disk).saved == disk.saved
    ensures SavePosts(dir, c, posts, disk).existing == disk.existing
  {
    if posts != [] {
      assert posts[0] in posts;
      assert forall p :: p in posts[1..] ==> p in posts;
      SavePostsSkips(dir, c, posts[1..], SavePost(dir, c, posts[0], disk));
    }
  }

  lemma {:induction false} SaveCollectionsSkips(dir: string, cs: seq<PostCollection>, disk: Disk)
    requires forall c, p :: c in cs && p in c.posts ==> FilePath(dir, c, p) in disk.existing
    ensures SaveCollections(dir, cs, disk).saved == disk.saved
    ensures SaveCollections(dir, cs, disk).existing == disk.existing
  {
    if cs != [] {
      assert cs[0] in cs;
      SavePostsSkips(dir, cs[0], cs[0].posts, disk);
      assert forall c :: c in cs[1..] ==> c in cs;
      SaveCollectionsSkips(dir, cs[1..], SavePosts(dir, cs[0], cs[0].posts, disk));
    }
  }

  /** The progress bar advances by every file's size, downloaded or skipped. */
  lemma {:induction false} SavePostsProgress(dir: string, c: PostCollection, posts: seq<GrabbedPost>, disk: Disk)
    ensures SavePosts(dir, c, posts, disk).progress == disk.progress + PostsSize(posts)
  {
    if posts != [] {
      SavePostsProgress(dir, c, posts[1..], SavePost(dir, c, posts[0], disk));
    }
  }

  lemma {:induction false} SaveCollectionsProgress(dir: string, cs: seq<PostCollection>, disk: Disk)
    ensures SaveCollections(dir, cs, disk).progress == disk.progress + TotalFileSize(cs)
  {
    if cs != [] {
      SavePostsProgress(dir, cs[0], cs[0].posts, disk);
      SaveCollectionsProgress(dir, cs[1..], SavePosts(dir, cs[0], cs[0].posts, disk));
    }
  }

  // ---------------------------------------------------------------------------
  // The connector
  // ---------------------------------------------------------------------------

  /** Whether `grab_favorites` pushes a collection for this login. */
  predicate GrabsFavorites(login: Sender.Login)
  {
    login.username != [] && login.downloadFavorites
  }

  /** `E621WebConnector`: the sender, the download directory, the grabber, the blacklist, and the disk it writes. */
  class WebConnector {
    const sender: Sender.RequestSender
    const downloadDirectory: string
    const grabber: Grabber
    const blacklist: BlacklistFilter.Blacklist
    var existing: set<string>
    var saved: seq<Save>
    var progress: nat
    /** The length the progress bar was initialized with. */
    var length: nat

    /** The grabber shares the connector's sender, whose url table it keeps complete. */
    ghost predicate Valid()
      reads this, grabber, sender
    {
      grabber.sender == sender && grabber.Valid()
    }

    function Now(): Disk
      reads this
    {
      Disk(existing, saved, progress)
    }

    /** `E621WebConnector::new`; the paths that exist on disk are given. */
    constructor (sender: Sender.RequestSender, downloadDirectory: string, naming: Naming, existing: set<string>)
      requires sender.Valid()
      ensures Valid() && fresh(grabber) && fresh(blacklist)
      ensures this.sender == sender && this.downloadDirectory == downloadDirectory
      ensures grabber.posts == [PostCollection(SinglePostsName, "", [])] && grabber.blacklist.None?
      ensures !grabber.safeMode && grabber.naming == naming && blacklist.lines == []
      ensures Now() == Disk(existing, [], 0) && length == 0
    {
      this.sender := sender;
      this.downloadDirectory := downloadDirectory;
      grabber := new Grabber(sender, false, naming);
      blacklist := new BlacklistFilter.Blacklist();
      this.existing := existing;
      saved := [];
      progress := 0;
      length := 0;
    }

    /** `should_enter_safe_mode`: on a yes, every url moves to e926.net and the grabber goes into safe mode. */
    method ShouldEnterSafeMode(confirm: bool)
      requires Valid()
      modifies sender, grabber
      ensures Valid()
      ensures confirm ==> sender.urls == Sender.SafeUrls(old(sender.urls)) && grabber.safeMode
      ensures !confirm ==> sender.urls == old(sender.urls) && grabber.safeMode == old(grabber.safeMode)
      ensures grabber.posts == old(grabber.posts) && grabber.blacklist == old(grabber.blacklist)
    {
      if confirm {
        sender.UpdateToSafe();
        grabber.SetSafeMode(true);
      }
    }

    /**
     * `process_blacklist`: the user's blacklist text, when there is one and it is
     * not empty, is parsed, its users cached, and handed to the grabber.
     */
    method ProcessBlacklist(login: Sender.Login) returns (failure: Option<BlacklistParsing.BlacklistError>)
      requires Valid()
      modifies blacklist, grabber
      ensures Valid()
      ensures grabber.posts == old(grabber.posts) && grabber.safeMode == old(grabber.safeMode)
      ensures var text := sender.api.user(sender.EntryRequest("user", login.username)).blacklistedTags;
        (text.None? || text.value == [] ==>
           failure.None? && blacklist.lines == old(blacklist.lines) && grabber.blacklist == old(grabber.blacklist))
        && (text.Some? && text.value != [] && BlacklistParsing.ParseBlacklistText(text.value).Err? ==>
              failure == Some(BlacklistParsing.ParseBlacklistText(text.value).error)
              && grabber.blacklist == old(grabber.blacklist))
        && (text.Some? && text.value != [] && BlacklistParsing.ParseBlacklistText(text.value).Ok? ==>
              failure.None?
              && blacklist.lines == BlacklistFilter.CachedLines(BlacklistParsing.ParseBlacklistText(text.value).value, sender.UserLookup())
              && grabber.blacklist == if |blacklist.lines| > 0 then Some(blacklist) else old(grabber.blacklist))
    {
      var user := sender.GetUser(login.username);
      failure := None;
      if user.blacklistedTags.Some? {
        var text := user.blacklistedTags.value;
        if text != [] {
          failure := blacklist.ParseBlacklist(text);
          if failure.Some? {
            return;
          }
          blacklist.CacheUsers(sender.UserLookup());
          grabber.SetBlacklist(blacklist);
        }
      }
    }

    /** `grab_all`: the favorites first, then the tags of the groups. */
    method GrabAll(login: Sender.Login, groups: seq<TagFile.Group>) returns (err: Option<GrabError>)
      requires Valid()
      modifies grabber
      ensures Valid()
      ensures Extends(old(grabber.posts), grabber.posts)
      ensures err.None? ==>
        |grabber.posts| == |old(grabber.posts)| + (if GrabsFavorites(login) then 1 else 0) + CollectionCount(AllTags(groups))
      ensures err.None? && GrabsFavorites(login) ==>
        grabber.posts[|old(grabber.posts)|].name == "fav:" + login.username
        && grabber.posts[|old(grabber.posts)|].category == ""
      ensures var fav := FavoritesGrab(grabber.Env(), old(grabber.posts), login);
        var r := if fav.Err? then fav else GrabTags(grabber.Env(), fav.value, AllTags(groups));
        (r.Err? ==> err == Some(r.error)) && (r.Ok? ==> err.None? && grabber.posts == r.value)
    {
      ghost var env := grabber.Env();
      err := grabber.GrabFavorites(login);
      if err.Some? {
        return;
      }
      ghost var favorites := grabber.posts;
      assert grabber.Env() == env;
      err := grabber.GrabPostsByTags(groups);
      ExtendsTransitive(old(grabber.posts), favorites, grabber.posts);
      if GrabsFavorites(login) {
        assert grabber.posts[|old(grabber.posts)|] == grabber.posts[1..|favorites|][|old(grabber.posts)| - 1];
      }
    }

    /** The files of one collection, as the inner loop of `download_collection` saves them. */
    method DownloadCollectionPosts(c: PostCollection)
      modifies this
      ensures Now() == SavePosts(downloadDirectory, c, c.posts, old(Now())) && length == old(length)
    {
      var staticPath := StaticPath(downloadDirectory, c);
      for j := 0 to |c.posts|
        invariant SavePosts(downloadDirectory, c, c.posts[j..], Now()) == SavePosts(downloadDirectory, c, c.posts, old(Now()))
        invariant length == old(length)
      {
        assert c.posts[j..][1..] == c.posts[j + 1..];
        DownloadFile(staticPath, c, c.posts[j]);
      }
    }

    /** The body of that loop: the file's path, and the skip-or-save decision. */
    method DownloadFile(staticPath: string, c: PostCollection, post: GrabbedPost)
      requires staticPath == StaticPath(downloadDirectory, c)
      modifies this
      ensures Now() == SavePost(downloadDirectory, c, post, old(Now())) && length == old(length)
    {
      var filePath := Collect([staticPath, RemoveInvalidChars(post.name)]);
      if filePath in existing {
        progress := progress + AsU64(post.fileSize);
        return;
      }
      saved := saved + [Save(filePath, post.url)];
      existing := existing + {filePath};
      progress := progress + AsU64(post.fileSize);
    }

    /** `download_collection`. */
    method DownloadCollection()
      modifies this
      ensures Now() == SaveCollections(downloadDirectory, grabber.posts, old(Now())) && length == old(length)
    {
      var collections := grabber.posts;
      for i := 0 to |collections|
        invariant SaveCollections(downloadDirectory, collections[i..], Now())
          == SaveCollections(downloadDirectory, collections, old(Now()))
        invariant length == old(length)
      {
        assert collections[i..][1..] == collections[i + 1..];
        DownloadCollectionPosts(collections[i]);
      }
    }

    /**
     * `download_posts`: the progress bar is set up for the total size, then every
     * collection is downloaded; the bar ends exactly full, and no existing file is
     * written over.
     */
    method DownloadPosts()
      modifies this
      ensures length == TotalFileSize(grabber.posts)
      ensures Now() == SaveCollections(downloadDirectory, grabber.posts, Disk(old(existing), old(saved), 0))
      ensures progress == length
      ensures Fresh(Disk(old(existing), old(saved), 0), Now())
    {
      length := TotalFileSize(grabber.posts);
      progress := 0;
      DownloadCollection();
      SaveCollectionsProgress(downloadDirectory, grabber.posts, Disk(old(existing), old(saved), 0));
      SaveCollectionsFresh(downloadDirectory, grabber.posts, Disk(old(existing), old(saved), 0));
    }
  }
}
