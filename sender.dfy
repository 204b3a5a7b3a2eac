/**
 * The request sender: the table of API urls, the safe-mode switch from e621.net to
 * e926.net, the way entry urls are formed, and the choice of headers. The API
 * itself is not part of the model: `Api` gives, for every request the downloader
 * can form, the entries the server answers with.
 */
module Sender {
  import opened Wrappers
  import opened Text
  import Entries

  datatype Header = Header(name: string, value: string)

  /** A GET request: its url, its headers in the order they were added, and its query pairs. */
  datatype Request = Request(url: string, headers: seq<Header>, query: seq<(string, string)>)

  const UserAgent: string := "user-agent"
  const Authorization: string := "authorization"

  /** The server's answer to each kind of request the downloader sends. */
  datatype Api = Api(
    bulk: Request -> seq<Entries.PostEntry>,
    single: Request -> Entries.PostEntry,
    pool: Request -> Entries.PoolEntry,
    postSet: Request -> Entries.SetEntry,
    user: Request -> Entries.UserEntry)

  /** The credentials read from the login file. */
  datatype Login = Login(username: string, apiKey: string, downloadFavorites: bool)

  /** `Login::is_empty`: a missing user name or a missing API key means no login. */
  predicate LoginIsEmpty(login: Login)
  {
    login.username == [] || login.apiKey == []
  }

  /**
   * The value of the authorization header `RequestSender::new` prepares: nothing
   * without a login, otherwise the user name and the API key joined by a colon.
   */
  function AuthFor(login: Login): (auth: string)
    ensures auth == [] <==> LoginIsEmpty(login)
    ensures auth != [] ==> |auth| > |login.username| && auth[..|login.username|] == login.username
  {
    if LoginIsEmpty(login) then [] else login.username + ":" + login.apiKey
  }

  // ---------------------------------------------------------------------------
  // The url table
  // ---------------------------------------------------------------------------

  const Scheme: string := "https://"
  const TopLevel: string := ".net/"
  /** `https://e621.net/`, the host of every url in the table. */
  const E621Host: string := Scheme + "e621" + TopLevel
  /** `https://e926.net/`, the safe-content mirror. */
  const E926Host: string := Scheme + "e926" + TopLevel

  /** The keys of the url table. */
  const UrlKeys: set<string> := {"posts", "pool", "set", "single", "blacklist", "tag", "tag_bulk", "alias", "user"}

  /** The path of each url of the table below the host. */
  const UrlPaths: map<string, string> := map[
    "posts" := "posts.json",
    "pool" := "pools/",
    "set" := "post_sets/",
    "single" := "posts/",
    "blacklist" := "users/",
    "tag" := "tags/",
    "tag_bulk" := "tags.json",
    "alias" := "tag_aliases.json",
    "user" := "users/"]

  /** The table with every path under the given host. */
  function UrlsAt(host: string): (m: map<string, string>)
    ensures m.Keys == UrlPaths.Keys
  {
    map k | k in UrlPaths :: host + UrlPaths[k]
  }

  /** `initialize_url_map`: the nine API urls, all on e621.net. */
  function InitialUrlMap(): (m: map<string, string>)
    ensures m.Keys == UrlKeys
    ensures forall k :: k in m ==> |m[k]| > |E621Host| && m[k][..|E621Host|] == E621Host
  {
    UrlsAt(E621Host)
  }

  /** `update_to_safe`'s effect on the table: every "e621" in every url becomes "e926". */
  function SafeUrls(m: map<string, string>): (r: map<string, string>)
    ensures r.Keys == m.Keys
  {
    map k | k in m :: Replace(m[k], "e621", "e926")
  }

  /** A text without the character '6' has no "e621" in it, so the rewrite keeps it. */
  lemma ReplaceKeepsNoSix(s: string)
    requires '6' !in s
    ensures Replace(s, "e621", "e926") == s
  {
    forall i | 0 <= i <= |s| - 4
      ensures !OccursAt(s, "e621", i)
    {
      assert s[i..i + 4][1] == s[i + 1] && s[i + 1] in s;
    }
    ReplaceAbsent(s, "e621", "e926");
  }

  /** A url on e621.net whose path has no '6' is moved to e926.net and keeps its path. */
  lemma SafeUrl(path: string)
    requires '6' !in path
    ensures Replace(E621Host + path, "e621", "e926") == E926Host + path
  {
    var after := TopLevel + path;
    var rest := "e621" + after;
    var s := Scheme + rest;
    assert E621Host + path == s;
    forall i | 0 <= i < |Scheme|
      ensures !OccursAt(s, "e621", i)
    {
      assert s[i] == Scheme[i] && Scheme[i] in Scheme;
      assert 'e' !in Scheme;
      if i + 4 <= |s| {
        assert s[i..i + 4][0] == s[i];
      }
    }
    ReplaceKeepsPrefix(Scheme, rest, "e621", "e926");
    assert rest[..4] == "e621" && rest[4..] == after;
    assert '6' !in after;
    ReplaceKeepsNoSix(after);
    AppendAssociates(Scheme, "e926", after);
    AppendAssociates(Scheme + "e926", TopLevel, path);
  }

  lemma AppendAssociates(a: string, b: string, c: string)
    ensures a + (b + c) == (a + b) + c
  {
  }

  /** In safe mode the table holds the same nine urls, all on e926.net. */
  lemma SafeInitialUrls()
    ensures SafeUrls(InitialUrlMap()) == UrlsAt(E926Host)
  {
    PathsWithoutSix();
    var safe := SafeUrls(InitialUrlMap());
    forall k | k in UrlPaths
      ensures safe[k] == UrlsAt(E926Host)[k]
    {
      SafeUrl(UrlPaths[k]);
    }
  }

  lemma PathsWithoutSix()
    ensures forall k :: k in UrlPaths ==> '6' !in UrlPaths[k]
  {
  }

  /** `append_url`: the base url, then the id or name, then `.json`. */
  function AppendUrl(url: string, append: string): (r: string)
    ensures |r| == |url| + |append| + 5
    ensures r[..|url|] == url && r[|url|..|url| + |append|] == append && r[|r| - 5..] == ".json"
  {
    url + append + ".json"
  }

  /** The url and the appended part can be read back from the appended url. */
  lemma AppendUrlInjective(url: string, a: string, b: string)
    requires AppendUrl(url, a) == AppendUrl(url, b)
    ensures a == b
  {
    assert |a| == |b|;
    assert a == AppendUrl(url, a)[|url|..|url| + |a|];
  }

  /** The request for page `page` of a search for `tags`: the posts url with the tags, the page and a page size of 320. */
  function BulkRequestTo(client: SenderClient, postsUrl: string, tags: string, page: nat): (r: Request)
    ensures r.url == postsUrl
    ensures r.query == [("tags", tags), ("page", NatToString(page)), ("limit", "320")]
    ensures r.headers == client.GetWithAuth(postsUrl).headers
  {
    client.GetWithAuth(postsUrl).(query := [("tags", tags), ("page", NatToString(page)), ("limit", "320")])
  }

  /** The request of `get_entry_from_appended_id`: the id appended to the url of its kind, sent with authorization. */
  function EntryRequestTo(client: SenderClient, url: string, id: string): (r: Request)
    ensures r.url == AppendUrl(url, id) && r == client.GetWithAuth(r.url)
  {
    client.GetWithAuth(AppendUrl(url, id))
  }

  // ---------------------------------------------------------------------------
  // The client and the sender
  // ---------------------------------------------------------------------------

  /** The shared HTTP client, with the authorization value it attaches. */
  class SenderClient {
    const agent: string
    const auth: string

    constructor (agent: string, auth: string)
      ensures this.agent == agent && this.auth == auth
    {
      this.agent := agent;
      this.auth := auth;
    }

    /** `get`: every request carries the user agent. */
    function Get(url: string): (r: Request)
      ensures r.url == url && r.headers == [Header(UserAgent, agent)] && r.query == []
    {
      Request(url, [Header(UserAgent, agent)], [])
    }

    /** `get_with_auth`: the authorization header is added only when there is an authorization value. */
    function GetWithAuth(url: string): (r: Request)
      ensures r.url == url && r.query == []
      ensures |r.headers| >= 1 && r.headers[..1] == Get(url).headers
      ensures (exists i :: 0 <= i < |r.headers| && r.headers[i].name == Authorization) <==> auth != []
      ensures auth != [] ==> r.headers == Get(url).headers + [Header(Authorization, auth)]
    {
      if auth == [] then Get(url)
      else
        var r := Request(url, Get(url).headers + [Header(Authorization, auth)], []);
        assert r.headers[1].name == Authorization;
        r
    }
  }

  /** `RequestSender`: the client, the url table it shares with its clones, and the server it talks to. */
  class RequestSender {
    const client: SenderClient
    const api: Api
    var urls: map<string, string>

    /** The url table keeps all its keys. */
    ghost predicate Valid()
      reads this
    {
      urls.Keys == UrlKeys
    }

    constructor (login: Login, agent: string, api: Api)
      ensures Valid()
      ensures urls == InitialUrlMap() && client.auth == AuthFor(login) && client.agent == agent
      ensures this.api == api
    {
      client := new SenderClient(agent, AuthFor(login));
      this.api := api;
      urls := InitialUrlMap();
    }

    /** `is_authenticated`: the client has an authorization value. */
    function IsAuthenticated(): (b: bool)
      ensures b <==> client.auth != []
    {
      client.auth != []
    }

    /** `update_to_safe`: rewrites every url of the table in place. */
    method UpdateToSafe()
      requires Valid()
      modifies this
      ensures Valid()
      ensures urls == SafeUrls(old(urls))
    {
      var pending := urls.Keys;
      ghost var original := urls;
      while pending != {}
        invariant pending <= urls.Keys && urls.Keys == original.Keys
        invariant forall k :: k in urls ==>
          urls[k] == if k in pending then original[k] else Replace(original[k], "e621", "e926")
        decreases |pending|
      {
        var k :| k in pending;
        urls := urls[k := Replace(urls[k], "e621", "e926")];
        pending := pending - {k};
      }
    }

    /** The request `get_entry_from_appended_id` sends for the url kind `key` and the id or name `id`. */
    function EntryRequest(key: string, id: string): (r: Request)
      requires Valid() && key in UrlKeys
      reads this
      ensures r.url == AppendUrl(urls[key], id)
      ensures r == client.GetWithAuth(r.url)
    {
      EntryRequestTo(client, urls[key], id)
    }

    /** The user entry the API gives for each name, as `get_entry_from_appended_id(name, "user")` fetches it. */
    function UserLookup(): (userOf: string -> Entries.UserEntry)
      requires Valid()
      reads this
      ensures forall name :: userOf(name) == api.user(EntryRequest("user", name))
    {
      var api := this.api;
      var client := this.client;
      var userUrl := urls["user"];
      (name: string) => api.user(client.GetWithAuth(AppendUrl(userUrl, name)))
    }

    /** `bulk_search`: one page of posts for the tags. */
    method BulkSearch(tags: string, page: nat) returns (posts: seq<Entries.PostEntry>)
      requires Valid()
      ensures posts == api.bulk(BulkRequestTo(client, urls["posts"], tags, page))
    {
      posts := api.bulk(BulkRequestTo(client, urls["posts"], tags, page));
    }

    // The next four methods are one generic function of the program,
    // `get_entry_from_appended_id`, at each of its entry types; they share its
    // request, `EntryRequest`, and differ in the answer they decode.

    /** `get_entry_from_appended_id(id, "single")`. */
    method GetSinglePost(id: string) returns (post: Entries.PostEntry)
      requires Valid()
      ensures post == api.single(EntryRequest("single", id))
    {
      post := api.single(EntryRequest("single", id));
    }

    /** `get_entry_from_appended_id(id, "pool")`. */
    method GetPool(id: string) returns (pool: Entries.PoolEntry)
      requires Valid()
      ensures pool == api.pool(EntryRequest("pool", id))
    {
      pool := api.pool(EntryRequest("pool", id));
    }

    /** `get_entry_from_appended_id(id, "set")`. */
    method GetSet(id: string) returns (entry: Entries.SetEntry)
      requires Valid()
      ensures entry == api.postSet(EntryRequest("set", id))
    {
      entry := api.postSet(EntryRequest("set", id));
    }

    /** `get_entry_from_appended_id(name, "user")`. */
    method GetUser(name: string) returns (user: Entries.UserEntry)
      requires Valid()
      ensures user == api.user(EntryRequest("user", name))
    {
      user := api.user(EntryRequest("user", name));
    }
  }
}
