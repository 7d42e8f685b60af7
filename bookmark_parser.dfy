/**
 * The bookmark-file reader: the URLs of the file's links, and one bookmark
 * per URL built from the metadata the fetcher finds for it.
 *
 * What the HTML parser finds in the file is an oracle: `hrefs[k]` is the
 * `href` attribute of the k-th `<a>` element in document order, absent when
 * the element has none. How the fetcher's tasks end is an oracle too
 * (`tasks`, as in `MetaFetcher.GetAll`).
 */
module Parsers {
  import opened Wrappers
  import opened Text
  import opened Seqs
  import opened Models
  import opened Fetchers
  import Config

  /** What one link contributes: its stripped href (`""` when it has none), kept only when it starts with "http". */
  function LinkUrl(href: Option<string>): Option<string> {
    var u := Strip(href.GetOr(""));
    if IsHttpUrl(u) then Some(u) else None
  }

  function LinkUrls(hrefs: seq<Option<string>>): (r: seq<Option<string>>)
    ensures |r| == |hrefs| && forall i :: 0 <= i < |hrefs| ==> r[i] == LinkUrl(hrefs[i])
  {
    seq(|hrefs|, i requires 0 <= i < |hrefs| => LinkUrl(hrefs[i]))
  }

  /** The URL list of a file: the kept URLs in document order, duplicates included. */
  function HrefUrls(hrefs: seq<Option<string>>): seq<string> {
    Somes(LinkUrls(hrefs))
  }

  /** Reading one more link. */
  lemma HrefUrlsStep(hrefs: seq<Option<string>>, i: nat)
    requires i < |hrefs|
    ensures HrefUrls(hrefs[..i + 1]) ==
      HrefUrls(hrefs[..i]) + (if LinkUrl(hrefs[i]).Some? then [LinkUrl(hrefs[i]).value] else [])
  {
    assert LinkUrls(hrefs[..i + 1]) == LinkUrls(hrefs[..i]) + [LinkUrl(hrefs[i])];
    SomesSnoc(LinkUrls(hrefs[..i]), LinkUrl(hrefs[i]));
  }

  /** A string is in the URL list exactly when it starts with "http" and is the stripped href of some link. */
  lemma HrefUrlsMembers(hrefs: seq<Option<string>>, u: string)
    ensures u in HrefUrls(hrefs) <==>
      StartsWith(u, "http") && exists i :: 0 <= i < |hrefs| && Strip(hrefs[i].GetOr("")) == u
  {
    SomesMembers(LinkUrls(hrefs), u);
    HttpUrlTest(u);
  }

  /** Every entry of the URL list starts with "http" and has no surrounding white space. */
  lemma HrefUrlsClean(hrefs: seq<Option<string>>, k: nat)
    requires k < |HrefUrls(hrefs)|
    ensures StartsWith(HrefUrls(hrefs)[k], "http")
    ensures Strip(HrefUrls(hrefs)[k]) == HrefUrls(hrefs)[k]
  {
    var u := HrefUrls(hrefs)[k];
    HrefUrlsMembers(hrefs, u);
    var i :| 0 <= i < |hrefs| && Strip(hrefs[i].GetOr("")) == u;
    StripIdempotent(hrefs[i].GetOr(""));
  }

  /** The links of two parts of a file give their URL lists one after the other: document order is kept. */
  lemma HrefUrlsAppend(a: seq<Option<string>>, b: seq<Option<string>>)
    ensures HrefUrls(a + b) == HrefUrls(a) + HrefUrls(b)
  {
    assert LinkUrls(a + b) == LinkUrls(a) + LinkUrls(b);
    SomesConcat(LinkUrls(a), LinkUrls(b));
  }

  /** When every link has an http href, every link gives a URL: duplicates are not removed. */
  lemma HrefUrlsAllKept(hrefs: seq<Option<string>>)
    requires forall i :: 0 <= i < |hrefs| ==> StartsWith(Strip(hrefs[i].GetOr("")), "http")
    ensures |HrefUrls(hrefs)| == |hrefs|
  {
    SomesAllPresent(LinkUrls(hrefs));
  }

  /** `url_to_meta.get(url, ("无标题", "无描述"))`. */
  function MetaFor(urlToMeta: map<string, (string, string)>, url: string): (string, string) {
    if url in urlToMeta then urlToMeta[url] else Sentinel
  }

  /**
   * The pair a URL of the list is given: the one its last task produced (the
   * sentinel when that task raised). The default of the lookup is never used,
   * since every URL is a key of the fetched dict.
   */
  lemma MetaForLast(urls: seq<string>, results: seq<Option<(string, string)>>, i: nat)
    requires |results| == |urls| && i < |urls| && LastOccurrence(urls, i)
    ensures urls[i] in MetaMap(urls, results)
    ensures MetaFor(MetaMap(urls, results), urls[i]) == TaskMeta(results[i])
  {
    MetaMapLast(urls, results, i);
  }

  class BookmarkParser {
    const htmlPath: string
    const maxConcurrency: int

    /** `max_concurrency or config.network.max_concurrency`. */
    constructor (htmlPath: string, maxConcurrency: Option<int> := None)
      ensures this.htmlPath == htmlPath && this.maxConcurrency == Config.ResolveConcurrency(maxConcurrency)
    {
      this.htmlPath := htmlPath;
      this.maxConcurrency := Config.ResolveConcurrency(maxConcurrency);
    }

    /** `get_urls_only`: the URL list of the links found in the file. */
    method GetUrlsOnly(hrefs: seq<Option<string>>) returns (urls: seq<string>)
      ensures urls == HrefUrls(hrefs)
    {
      urls := [];
      var i := 0;
      while i < |hrefs|
        invariant i <= |hrefs|
        invariant urls == HrefUrls(hrefs[..i])
      {
        var href := Strip(hrefs[i].GetOr(""));
        if StartsWith(href, "http") || StartsWith(href, "https") {
          urls := urls + [href];
        }
        HrefUrlsStep(hrefs, i);
        i := i + 1;
      }
      TakeFull(hrefs);
    }

    /**
     * `parse`: without URLs, no fetcher is created (`fetched` is false) and
     * nothing is returned. Otherwise one new bookmark per URL, in list order,
     * carries that URL and the pair the fetched dict gives it. `failed` holds
     * the bookmarks left with both sentinels; they stay in the result.
     */
    method Parse(hrefs: seq<Option<string>>, tasks: seq<FetchTask>)
      returns (bookmarks: seq<Bookmark>, failed: seq<Bookmark>, fetched: bool)
      requires |tasks| == |HrefUrls(hrefs)| && TasksFit(tasks)
      ensures fetched <==> HrefUrls(hrefs) != []
      ensures |bookmarks| == |HrefUrls(hrefs)|
      ensures forall k :: 0 <= k < |bookmarks| ==>
        fresh(bookmarks[k]) && bookmarks[k].url == HrefUrls(hrefs)[k] &&
        (bookmarks[k].title, bookmarks[k].description) == MetaFor(MetaMap(HrefUrls(hrefs), Batch(map[], HrefUrls(hrefs), tasks).0), HrefUrls(hrefs)[k]) &&
        bookmarks[k].folder == "" && bookmarks[k].addDate == None
      ensures forall j, k :: 0 <= j < k < |bookmarks| ==> bookmarks[j] != bookmarks[k]
      ensures forall b :: b in failed <==> b in bookmarks && b.title == NoTitle && b.description == NoDescription
    {
      var urls := GetUrlsOnly(hrefs);
      if urls == [] {
        return [], [], false;
      }
      var fetcher := new MetaFetcher(Some(maxConcurrency));
      var urlToMeta := fetcher.GetAll(urls, tasks);
      fetched := true;
      bookmarks, failed := BuildBookmarks(urls, urlToMeta);
    }
  }

  /** The loop of `parse` that turns each URL and its fetched pair into a bookmark. */
  method BuildBookmarks(urls: seq<string>, urlToMeta: map<string, (string, string)>)
    returns (bookmarks: seq<Bookmark>, failed: seq<Bookmark>)
    ensures |bookmarks| == |urls|
    ensures forall k :: 0 <= k < |urls| ==>
      fresh(bookmarks[k]) && bookmarks[k].url == urls[k] &&
      (bookmarks[k].title, bookmarks[k].description) == MetaFor(urlToMeta, urls[k]) &&
      bookmarks[k].folder == "" && bookmarks[k].addDate == None
    ensures forall j, k :: 0 <= j < k < |bookmarks| ==> bookmarks[j] != bookmarks[k]
    ensures forall b :: b in failed <==> b in bookmarks && b.title == NoTitle && b.description == NoDescription
  {
    bookmarks, failed := [], [];
    var i := 0;
    while i < |urls|
      invariant i <= |urls| && |bookmarks| == i
      invariant forall k :: 0 <= k < i ==>
        fresh(bookmarks[k]) && bookmarks[k].url == urls[k] &&
        (bookmarks[k].title, bookmarks[k].description) == MetaFor(urlToMeta, urls[k]) &&
        bookmarks[k].folder == "" && bookmarks[k].addDate == None
      invariant forall j, k :: 0 <= j < k < i ==> bookmarks[j] != bookmarks[k]
      invariant forall b :: b in failed <==> b in bookmarks && b.title == NoTitle && b.description == NoDescription
    {
      var (title, desc) := MetaFor(urlToMeta, urls[i]);
      var bookmark := new Bookmark(title, urls[i], desc);
      bookmarks := bookmarks + [bookmark];
      if title == NoTitle && desc == NoDescription {
        failed := failed + [bookmark];
      }
      i := i + 1;
    }
  }

  /** `BookmarkParser(html_path)`: a path that does not exist raises `FileNotFoundError` (here: no parser). */
  method OpenParser(htmlPath: string, maxConcurrency: Option<int>, fileExists: bool) returns (p: Option<BookmarkParser>)
    ensures p.Some? <==> fileExists
    ensures p.Some? ==>
      fresh(p.value) && p.value.htmlPath == htmlPath &&
      p.value.maxConcurrency == Config.ResolveConcurrency(maxConcurrency)
  {
    if !fileExists {
      return None;
    }
    var parser := new BookmarkParser(htmlPath, maxConcurrency);
    return Some(parser);
  }

  /** `parse` and `get_urls_only` read the same URLs from a file: the bookmarks' URLs are the URL list. */
  method ParseAgreesWithUrls(p: BookmarkParser, hrefs: seq<Option<string>>, tasks: seq<FetchTask>)
    returns (urls: seq<string>, bookmarks: seq<Bookmark>)
    requires |tasks| == |HrefUrls(hrefs)| && TasksFit(tasks)
    ensures |bookmarks| == |urls| && forall k :: 0 <= k < |urls| ==> bookmarks[k].url == urls[k]
  {
    urls := p.GetUrlsOnly(hrefs);
    var failed, fetched;
    bookmarks, failed, fetched := p.Parse(hrefs, tasks);
  }
}
