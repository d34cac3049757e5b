/**
 * The scrapers (backend/scrapers/base_scraper.py and segment_scraper.py):
 * the file name and record a page is saved under, the scraper's state, and
 * the Segment crawl over a FIFO frontier, a visited set and a page counter.
 * Fetching, HTML parsing, content extraction and `urljoin` are parameters.
 */
module Scrapers {
  import opened Text
  import opened Wrappers

  /** The JSON record written for one page. */
  datatype Article = Article(url: string, title: string, content: string, source: string)

  // ---------------------------------------------------------------- file names

  /** `clean_filename` without its ".json" suffix. */
  function CleanBody(url: string): string {
    ReplaceAll(ReplaceAll(ReplaceAll(ReplaceAll(url, "https://", ""), "http://", ""), "/", "_"), ":", "_")
  }

  /** `clean_filename`: the URL without its scheme, '/' and ':' rewritten to '_', then ".json". */
  function CleanFilename(url: string): (r: string)
    ensures EndsWith(r, ".json")
    ensures r[..|r| - 5] == CleanBody(url)
  {
    CleanBody(url) + ".json"
  }

  /** Before its ".json" suffix a file name holds neither '/' nor ':'. */
  lemma CleanFilenameSafe(url: string)
    ensures var r := CleanFilename(url);
      '/' !in r[..|r| - 5] && ':' !in r[..|r| - 5]
  {
    var s := ReplaceAll(ReplaceAll(url, "https://", ""), "http://", "");
    var t := ReplaceAll(s, "/", "_");
    ReplaceCharGone(s, '/', "_");
    ReplaceChars(t, ":", "_");
    ReplaceCharGone(t, ':', "_");
  }

  /** Without a scheme to drop, every '/' and every ':' becomes '_' and nothing else changes. */
  lemma CleanFilenameRewrites(url: string)
    requires !Contains(url, "https://") && !Contains(url, "http://")
    ensures CleanBody(url) == MapChar(MapChar(url, '/', '_'), ':', '_')
  {
    ReplaceAbsent(url, "https://", "");
    ReplaceAbsent(url, "http://", "");
    ReplaceOneChar(url, '/', '_');
    ReplaceOneChar(MapChar(url, '/', '_'), ':', '_');
  }

  /**
   * The Segment documentation root, "https://segment.com/docs/", is saved as
   * "segment.com_docs_.json" (the literals are written in pieces).
   */
  lemma CleanFilenameSegmentRoot()
    ensures CleanFilename("https://" + "segment.com" + "/" + "docs" + "/") ==
      "segment.com" + "_" + "docs" + "_" + ".json"
  {
    var u := "segment.com" + "/" + "docs" + "/";
    assert "https://" + "segment.com" + "/" + "docs" + "/" == "https://" + u;
    CleanFilenameDropsScheme(u);
    SegmentRootBody();
  }

  /** Host and path without '/' or ':': only the two slashes are rewritten. */
  lemma SegmentRootBody()
    ensures CleanBody("segment.com" + "/" + "docs" + "/") == "segment.com" + "_" + "docs" + "_"
  {
    var host, path := "segment.com", "docs";
    var u := host + "/" + path + "/";
    assert ':' !in host && ':' !in path && '/' !in host && '/' !in path;
    assert ':' !in u;
    NoCharNoContains(u, "https://", ':');
    NoCharNoContains(u, "http://", ':');
    CleanFilenameRewrites(u);
    MapCharAppend(host, "/", '/', '_');
    MapCharAppend(host + "/", path, '/', '_');
    MapCharAppend(host + "/" + path, "/", '/', '_');
    MapCharAbsent(host, '/', '_');
    MapCharAbsent(path, '/', '_');
    var v := host + "_" + path + "_";
    assert MapChar(u, '/', '_') == v;
    assert ':' !in v;
    MapCharAbsent(v, ':', '_');
  }

  /** A URL with no scheme, no '/' and no ':' is kept as it is. */
  lemma CleanFilenameKeepsPlainNames(url: string)
    requires '/' !in url && ':' !in url
    ensures CleanFilename(url) == url + ".json"
  {
    assert !Contains(url, "https://") by { NoCharNoContains(url, "https://", ':'); }
    assert !Contains(url, "http://") by { NoCharNoContains(url, "http://", ':'); }
    ReplaceAbsent(url, "https://", "");
    ReplaceAbsent(url, "http://", "");
    ContainsChar(url, '/');
    ContainsChar(url, ':');
    ReplaceAbsent(url, "/", "_");
    ReplaceAbsent(url, ":", "_");
  }

  /** A URL and the same URL behind either scheme get the same file name. */
  lemma CleanFilenameDropsScheme(u: string)
    ensures CleanFilename("https://" + u) == CleanFilename(u)
    ensures CleanFilename("http://" + u) == CleanFilename(u)
  {
    var s := "https://" + u;
    assert s[..8] == "https://";
    assert s[8..] == u;
    assert ReplaceAll(s, "https://", "") == "" + ReplaceAll(u, "https://", "");
    assert "" + ReplaceAll(u, "https://", "") == ReplaceAll(u, "https://", "");
    var p: string := "http://";
    var t := p + u;
    forall k | 0 <= k < |p| ensures !StartsWith(t[k..], "https://") {
      if k == 0 {
        assert t[4] == ':';
      } else {
        assert t[k..][0] == p[k] != 'h';
      }
    }
    ReplaceSkipsPrefix(p, u, "https://", "");
    var v := ReplaceAll(u, "https://", "");
    var w := p + v;
    assert w[..7] == "http://";
    assert w[7..] == v;
    assert ReplaceAll(w, "http://", "") == "" + ReplaceAll(v, "http://", "");
    assert "" + ReplaceAll(v, "http://", "") == ReplaceAll(v, "http://", "");
  }

  /** A string lacking a character of `sub` does not contain `sub`. */
  lemma NoCharNoContains(s: string, sub: string, c: char)
    requires c in sub && c !in s
    ensures !Contains(s, sub)
  {
    ContainsIffOccurs(s, sub);
  }

  // ---------------------------------------------------------------- records

  /** The record `save_content` writes: an empty or missing title becomes 'Untitled'. */
  function MakeArticle(url: string, title: Option<string>, content: string, cdp: string): (a: Article)
    ensures a.url == url && a.content == content && a.source == cdp
    ensures a.title == "Untitled" <==> title.None? || title.value == "" || title.value == "Untitled"
    ensures title.Some? && title.value != "" ==> a.title == title.value
  {
    Article(url, if title.None? || title.value == "" then "Untitled" else title.value, content, cdp)
  }

  /** `os.path.join(a, b)` on POSIX paths. */
  function PathJoin(a: string, b: string): (r: string)
    ensures StartsWith(b, "/") ==> r == b
    ensures !StartsWith(b, "/") ==> EndsWith(r, b) && StartsWith(r, a)
  {
    if StartsWith(b, "/") then b
    else if a == "" || EndsWith(a, "/") then a + b
    else a + "/" + b
  }

  /** The files left in the output directory after the saves `saves`, in order. */
  function Written(files: map<string, Article>, dir: string, saves: seq<Article>): map<string, Article>
    decreases |saves|
  {
    if saves == [] then files
    else
      var a := saves[|saves| - 1];
      Written(files, dir, saves[..|saves| - 1])[PathJoin(dir, CleanFilename(a.url)) := a]
  }

  // ---------------------------------------------------------------- the crawl

  /** The Segment documentation root. */
  const SegmentDocsUrl := "https://segment.com/docs/"

  /** A fetched page: its status, its `<title>` string, its extracted text and its link targets. */
  datatype Page = Page(status: int, title: Option<string>, content: string, hrefs: seq<string>)

  /** What `requests.get` does: a response, or an exception, which the loop catches. */
  datatype Fetch = Fetched(page: Page) | FetchError

  /** The loop state of `scrape`: the queue, the visited set, the counter and the saves made. */
  datatype Frontier = Frontier(toVisit: seq<string>, visited: set<string>, pageCount: nat, saves: seq<Article>)

  /** The links a page adds to the queue `q`, in page order. */
  function Enqueue(q: seq<string>, visited: set<string>, hrefs: seq<string>, join: string -> string): seq<string>
    decreases |hrefs|
  {
    if hrefs == [] then q
    else
      var q' := Enqueue(q, visited, hrefs[..|hrefs| - 1], join);
      var h := hrefs[|hrefs| - 1];
      if Contains(h, "/docs/") && join(h) !in visited && join(h) !in q' then q' + [join(h)] else q'
  }

  /** Every URL in `q` is one of `universe`. */
  ghost predicate Within(q: seq<string>, universe: set<string>) {
    forall i :: 0 <= i < |q| ==> q[i] in universe
  }

  /** One pass of the `while` loop of `scrape`, on the URL at the head of the queue. */
  function Visit(f: Frontier, cdp: string, fetch: string -> Fetch, join: string -> string): Frontier
    requires f.toVisit != []
  {
    var url := f.toVisit[0];
    var rest := f.toVisit[1..];
    if url in f.visited then f.(toVisit := rest)
    else match fetch(url)
      case FetchError => f.(toVisit := rest)
      case Fetched(p) =>
        var visited := f.visited + {url};
        if p.status != 200 then f.(toVisit := rest, visited := visited)
        else
          var queue := Enqueue(rest, visited, p.hrefs, join);
          if p.content != "" then
            Frontier(queue, visited, f.pageCount + 1, f.saves + [MakeArticle(url, p.title, p.content, cdp)])
          else f.(toVisit := queue, visited := visited)
  }

  lemma {:induction false} EnqueueWithin(q: seq<string>, visited: set<string>, hrefs: seq<string>,
                                         join: string -> string, universe: set<string>)
    requires forall h :: join(h) in universe
    requires Within(q, universe)
    ensures Within(Enqueue(q, visited, hrefs, join), universe)
    decreases |hrefs|
  {
    if hrefs != [] {
      EnqueueWithin(q, visited, hrefs[..|hrefs| - 1], join, universe);
    }
  }

  lemma DiffShrinks(u: set<string>, v: set<string>, x: string)
    requires x in u && x !in v
    ensures |u - (v + {x})| < |u - v|
  {
    assert (u - (v + {x})) + {x} == u - v;
  }

  /** A pass keeps the queue within `universe`, and either visits a new URL or shortens the queue. */
  lemma VisitProgress(f: Frontier, cdp: string, fetch: string -> Fetch, join: string -> string,
                      universe: set<string>)
    requires f.toVisit != []
    requires forall h :: join(h) in universe
    requires Within(f.toVisit, universe)
    ensures var g := Visit(f, cdp, fetch, join);
      Within(g.toVisit, universe) &&
      (g.visited == f.visited ==> |g.toVisit| < |f.toVisit|) &&
      (g.visited != f.visited ==> |universe - g.visited| < |universe - f.visited|)
  {
    var url := f.toVisit[0];
    if url !in f.visited && fetch(url).Fetched? {
      EnqueueWithin(f.toVisit[1..], f.visited + {url}, fetch(url).page.hrefs, join, universe);
      DiffShrinks(universe, f.visited, url);
    }
  }

  /**
   * The whole loop: it runs while the queue is non-empty and fewer than
   * `maxPages` pages were saved. `universe` is a finite set holding every
   * URL `join` can produce; it only bounds the crawl.
   */
  function Crawl(f: Frontier, maxPages: int, cdp: string, fetch: string -> Fetch, join: string -> string,
                 ghost universe: set<string>): Frontier
    requires forall h :: join(h) in universe
    requires Within(f.toVisit, universe)
    decreases |universe - f.visited|, |f.toVisit|
  {
    if f.toVisit == [] || f.pageCount as int >= maxPages then f
    else
      VisitProgress(f, cdp, fetch, join, universe);
      Crawl(Visit(f, cdp, fetch, join), maxPages, cdp, fetch, join, universe)
  }

  // ---------------------------------------------------------------- the queue

  /** The queue keeps its old contents in front, and only URLs of '/docs/' links not yet visited join it. */
  lemma {:induction false} EnqueueAppends(q: seq<string>, visited: set<string>, hrefs: seq<string>, join: string -> string)
    ensures var r := Enqueue(q, visited, hrefs, join);
      |q| <= |r| && r[..|q|] == q &&
      forall k :: |q| <= k < |r| ==>
        r[k] !in visited &&
        exists j :: 0 <= j < |hrefs| && Contains(hrefs[j], "/docs/") && join(hrefs[j]) == r[k]
    decreases |hrefs|
  {
    if hrefs != [] {
      var init := hrefs[..|hrefs| - 1];
      EnqueueAppends(q, visited, init, join);
      var r0 := Enqueue(q, visited, init, join);
      var r := Enqueue(q, visited, hrefs, join);
      forall k | |q| <= k < |r|
        ensures r[k] !in visited
        ensures exists j :: 0 <= j < |hrefs| && Contains(hrefs[j], "/docs/") && join(hrefs[j]) == r[k]
      {
        if k < |r0| {
          assert r[k] == r0[k];
          var j :| 0 <= j < |init| && Contains(init[j], "/docs/") && join(init[j]) == r0[k];
          assert hrefs[j] == init[j];
        } else {
          assert r[k] == join(hrefs[|hrefs| - 1]);
        }
      }
    }
  }

  /** Every '/docs/' link whose URL is not yet visited ends up in the queue. */
  lemma {:induction false} EnqueueTakesLinks(q: seq<string>, visited: set<string>, hrefs: seq<string>,
                                             join: string -> string)
    ensures forall j :: 0 <= j < |hrefs| && Contains(hrefs[j], "/docs/") && join(hrefs[j]) !in visited ==>
      join(hrefs[j]) in Enqueue(q, visited, hrefs, join)
    decreases |hrefs|
  {
    if hrefs != [] {
      var init := hrefs[..|hrefs| - 1];
      EnqueueTakesLinks(q, visited, init, join);
      EnqueueAppends(q, visited, hrefs, join);
      var r0 := Enqueue(q, visited, init, join);
      var r := Enqueue(q, visited, hrefs, join);
      assert forall x :: x in r0 ==> x in r;
      forall j | 0 <= j < |hrefs| - 1 && Contains(hrefs[j], "/docs/") && join(hrefs[j]) !in visited
        ensures join(hrefs[j]) in r
      {
        assert hrefs[j] == init[j];
      }
    }
  }

  /** The queue never holds a URL twice. */
  lemma {:induction false} EnqueueNoDup(q: seq<string>, visited: set<string>, hrefs: seq<string>, join: string -> string)
    requires NoDup(q)
    ensures NoDup(Enqueue(q, visited, hrefs, join))
    decreases |hrefs|
  {
    if hrefs != [] {
      EnqueueNoDup(q, visited, hrefs[..|hrefs| - 1], join);
    }
  }

  // ---------------------------------------------------------------- one pass

  /** A URL already visited is dropped from the queue without being fetched. */
  lemma VisitSkipsVisited(f: Frontier, cdp: string, fetch: string -> Fetch, fetch': string -> Fetch,
                          join: string -> string)
    requires f.toVisit != [] && f.toVisit[0] in f.visited
    ensures Visit(f, cdp, fetch, join) == Visit(f, cdp, fetch', join) == f.(toVisit := f.toVisit[1..])
  {
  }

  /**
   * The head of the queue becomes visited exactly when it was not and its
   * fetch returned, whatever the status; nothing else becomes visited.
   */
  lemma VisitMarksVisited(f: Frontier, cdp: string, fetch: string -> Fetch, join: string -> string)
    requires f.toVisit != []
    ensures var url := f.toVisit[0];
      Visit(f, cdp, fetch, join).visited ==
        if url !in f.visited && fetch(url).Fetched? then f.visited + {url} else f.visited
  {
  }

  /** The rest of the queue stays in front: URLs are taken first in, first out. */
  lemma VisitFifo(f: Frontier, cdp: string, fetch: string -> Fetch, join: string -> string)
    requires f.toVisit != []
    ensures var q := Visit(f, cdp, fetch, join).toVisit;
      |f.toVisit| - 1 <= |q| && q[..|f.toVisit| - 1] == f.toVisit[1..]
  {
    var url := f.toVisit[0];
    if url !in f.visited && fetch(url).Fetched? && fetch(url).page.status == 200 {
      EnqueueAppends(f.toVisit[1..], f.visited + {url}, fetch(url).page.hrefs, join);
    }
  }

  /** A page with a status other than 200 is neither saved nor mined for links. */
  lemma VisitIgnoresFailedPages(f: Frontier, cdp: string, fetch: string -> Fetch, join: string -> string)
    requires f.toVisit != [] && f.toVisit[0] !in f.visited
    requires fetch(f.toVisit[0]).Fetched? && fetch(f.toVisit[0]).page.status != 200
    ensures var g := Visit(f, cdp, fetch, join);
      g.toVisit == f.toVisit[1..] && g.pageCount == f.pageCount && g.saves == f.saves
  {
  }

  /** The links of a 200 page are followed whether or not its content was empty. */
  lemma VisitFollowsLinks(f: Frontier, cdp: string, fetch: string -> Fetch, join: string -> string)
    requires f.toVisit != [] && f.toVisit[0] !in f.visited
    requires fetch(f.toVisit[0]).Fetched? && fetch(f.toVisit[0]).page.status == 200
    ensures var url := f.toVisit[0];
      var p := fetch(url).page;
      var g := Visit(f, cdp, fetch, join);
      g.toVisit == Enqueue(f.toVisit[1..], f.visited + {url}, p.hrefs, join) &&
      (g.pageCount == f.pageCount + 1 <==> p.content != "") &&
      (p.content == "" ==> g.saves == f.saves) &&
      (p.content != "" ==> g.saves == f.saves + [MakeArticle(url, p.title, p.content, cdp)])
  {
  }

  /** The article saved for `a.url` came from a 200 page with non-empty content. */
  ghost predicate SavedFromPage(a: Article, cdp: string, fetch: string -> Fetch) {
    fetch(a.url).Fetched? && fetch(a.url).page.status == 200 && fetch(a.url).page.content != "" &&
    a == MakeArticle(a.url, fetch(a.url).page.title, fetch(a.url).page.content, cdp)
  }

  /**
   * What holds of the loop state throughout: the queue has no duplicates,
   * the counter is the number of saves, every saved URL is visited, no URL
   * is saved twice, and every save came from its page.
   */
  ghost predicate Sound(f: Frontier, cdp: string, fetch: string -> Fetch) {
    NoDup(f.toVisit) &&
    f.pageCount == |f.saves| &&
    (forall k :: 0 <= k < |f.saves| ==> f.saves[k].url in f.visited && SavedFromPage(f.saves[k], cdp, fetch)) &&
    (forall k1, k2 :: 0 <= k1 < k2 < |f.saves| ==> f.saves[k1].url != f.saves[k2].url)
  }

  /** One pass keeps the loop state sound. */
  lemma VisitKeepsSound(f: Frontier, cdp: string, fetch: string -> Fetch, join: string -> string)
    requires f.toVisit != []
    requires Sound(f, cdp, fetch)
    ensures Sound(Visit(f, cdp, fetch, join), cdp, fetch)
  {
    var url := f.toVisit[0];
    var rest := f.toVisit[1..];
    assert NoDup(rest);
    if url !in f.visited && fetch(url).Fetched? && fetch(url).page.status == 200 {
      EnqueueNoDup(rest, f.visited + {url}, fetch(url).page.hrefs, join);
    }
  }

  // ---------------------------------------------------------------- the whole loop

  /** The loop ends with an empty queue or with `maxPages` pages saved. */
  lemma {:induction false} CrawlStops(f: Frontier, maxPages: int, cdp: string, fetch: string -> Fetch,
                                      join: string -> string, universe: set<string>)
    requires forall h :: join(h) in universe
    requires Within(f.toVisit, universe)
    ensures var r := Crawl(f, maxPages, cdp, fetch, join, universe);
      r.toVisit == [] || r.pageCount as int >= maxPages
    decreases |universe - f.visited|, |f.toVisit|
  {
    if f.toVisit != [] && f.pageCount as int < maxPages {
      VisitProgress(f, cdp, fetch, join, universe);
      CrawlStops(Visit(f, cdp, fetch, join), maxPages, cdp, fetch, join, universe);
    }
  }

  /** The counter never passes `maxPages`, unless it started past it. */
  lemma {:induction false} CrawlPageBound(f: Frontier, maxPages: int, cdp: string, fetch: string -> Fetch,
                                          join: string -> string, universe: set<string>)
    requires forall h :: join(h) in universe
    requires Within(f.toVisit, universe)
    ensures var r := Crawl(f, maxPages, cdp, fetch, join, universe);
      r.pageCount == f.pageCount || r.pageCount as int <= maxPages
    decreases |universe - f.visited|, |f.toVisit|
  {
    if f.toVisit != [] && f.pageCount as int < maxPages {
      VisitProgress(f, cdp, fetch, join, universe);
      var g := Visit(f, cdp, fetch, join);
      assert g.pageCount <= f.pageCount + 1;
      CrawlPageBound(g, maxPages, cdp, fetch, join, universe);
    }
  }

  /** URLs are never removed from the visited set, and earlier saves are kept in order. */
  lemma {:induction false} CrawlGrows(f: Frontier, maxPages: int, cdp: string, fetch: string -> Fetch,
                                      join: string -> string, universe: set<string>)
    requires forall h :: join(h) in universe
    requires Within(f.toVisit, universe)
    ensures var r := Crawl(f, maxPages, cdp, fetch, join, universe);
      f.visited <= r.visited && |f.saves| <= |r.saves| && r.saves[..|f.saves|] == f.saves
    decreases |universe - f.visited|, |f.toVisit|
  {
    if f.toVisit != [] && f.pageCount as int < maxPages {
      VisitProgress(f, cdp, fetch, join, universe);
      var g := Visit(f, cdp, fetch, join);
      assert g.saves[..|f.saves|] == f.saves;
      CrawlGrows(g, maxPages, cdp, fetch, join, universe);
      var r := Crawl(g, maxPages, cdp, fetch, join, universe);
      assert r.saves[..|g.saves|][..|f.saves|] == r.saves[..|f.saves|];
    }
  }

  /** The loop keeps its state sound. */
  lemma {:induction false} CrawlKeepsSound(f: Frontier, maxPages: int, cdp: string, fetch: string -> Fetch,
                                           join: string -> string, universe: set<string>)
    requires forall h :: join(h) in universe
    requires Within(f.toVisit, universe)
    requires Sound(f, cdp, fetch)
    ensures Sound(Crawl(f, maxPages, cdp, fetch, join, universe), cdp, fetch)
    decreases |universe - f.visited|, |f.toVisit|
  {
    if f.toVisit != [] && f.pageCount as int < maxPages {
      VisitProgress(f, cdp, fetch, join, universe);
      VisitKeepsSound(f, cdp, fetch, join);
      CrawlKeepsSound(Visit(f, cdp, fetch, join), maxPages, cdp, fetch, join, universe);
    }
  }

  /** The loop state `scrape` starts from. */
  function Start(baseUrl: string, visited: set<string>): Frontier {
    Frontier([baseUrl], visited, 0, [])
  }

  /**
   * From its start `scrape` returns at most `max(maxPages, 0)` pages, one per
   * save; every save came from a distinct 200 page with content.
   */
  lemma ScrapeFacts(baseUrl: string, visited: set<string>, maxPages: int, cdp: string,
                    fetch: string -> Fetch, join: string -> string, universe: set<string>)
    requires forall h :: join(h) in universe
    requires baseUrl in universe
    ensures var r := Crawl(Start(baseUrl, visited), maxPages, cdp, fetch, join, universe);
      r.pageCount == |r.saves| &&
      (r.pageCount == 0 || r.pageCount as int <= maxPages) &&
      (forall k :: 0 <= k < |r.saves| ==> SavedFromPage(r.saves[k], cdp, fetch)) &&
      (forall k1, k2 :: 0 <= k1 < k2 < |r.saves| ==> r.saves[k1].url != r.saves[k2].url) &&
      visited <= r.visited
  {
    var f := Start(baseUrl, visited);
    CrawlKeepsSound(f, maxPages, cdp, fetch, join, universe);
    CrawlPageBound(f, maxPages, cdp, fetch, join, universe);
    CrawlGrows(f, maxPages, cdp, fetch, join, universe);
  }

  // ---------------------------------------------------------------- the scrapers

  /** What a `scrape` call does: return a page count, or raise `NotImplementedError`. */
  datatype ScrapeOutcome = Scraped(pages: nat) | NotImplemented

  /**
   * A `BaseScraper`. `files` is what it has written under its output
   * directory, by path; creating that directory is file-system I/O and is
   * not modelled.
   */
  class BaseScraper {
    const baseUrl: string
    const outputDir: string
    const cdpName: string
    var visitedUrls: set<string>
    var files: map<string, Article>

    constructor (baseUrl: string, outputDir: string, cdpName: string)
      ensures this.baseUrl == baseUrl && this.cdpName == cdpName
      ensures this.outputDir == PathJoin(outputDir, cdpName)
      ensures visitedUrls == {} && files == map[]
    {
      this.baseUrl := baseUrl;
      this.outputDir := PathJoin(outputDir, cdpName);
      this.cdpName := cdpName;
      visitedUrls := {};
      files := map[];
    }

    /** `save_content`: writes the page's record to the file named after its URL. */
    method SaveContent(url: string, title: Option<string>, content: string)
      modifies this
      ensures files == old(files)[PathJoin(outputDir, CleanFilename(url)) := MakeArticle(url, title, content, cdpName)]
      ensures visitedUrls == old(visitedUrls)
    {
      var article := MakeArticle(url, title, content, cdpName);
      var filename := PathJoin(outputDir, CleanFilename(url));
      files := files[filename := article];
    }

    /** The base `scrape`, to be replaced by each CDP's scraper. */
    method Scrape(maxPages: int) returns (r: ScrapeOutcome)
      ensures r == NotImplemented
    {
      r := NotImplemented;
    }
  }

  /** A `SegmentScraper`: a base scraper for Segment, and its crawl. */
  class SegmentScraper {
    const base: BaseScraper

    constructor (outputDir: string)
      ensures fresh(base)
      ensures base.baseUrl == SegmentDocsUrl && base.cdpName == "segment"
      ensures base.outputDir == PathJoin(outputDir, "segment")
      ensures base.visitedUrls == {} && base.files == map[]
    {
      base := new BaseScraper(SegmentDocsUrl, outputDir, "segment");
    }

    /**
     * `scrape`: the crawl from the documentation root. `universe` is a
     * finite set holding every URL `join` can produce.
     */
    method Scrape(maxPages: int, fetch: string -> Fetch, join: string -> string, ghost universe: set<string>)
      returns (pageCount: nat)
      requires forall h :: join(h) in universe
      requires base.baseUrl in universe
      modifies base
      ensures var run := Crawl(Start(base.baseUrl, old(base.visitedUrls)), maxPages, base.cdpName, fetch, join, universe);
        pageCount == run.pageCount && base.visitedUrls == run.visited &&
        base.files == Written(old(base.files), base.outputDir, run.saves)
    {
      var toVisit := [base.baseUrl];
      pageCount := 0;
      ghost var saves: seq<Article> := [];
      ghost var cdp := base.cdpName;
      ghost var goal := Crawl(Start(base.baseUrl, base.visitedUrls), maxPages, cdp, fetch, join, universe);
      while |toVisit| > 0 && pageCount < maxPages
        invariant Within(toVisit, universe)
        invariant Crawl(Frontier(toVisit, base.visitedUrls, pageCount, saves), maxPages, cdp, fetch, join, universe) == goal
        invariant base.files == Written(old(base.files), base.outputDir, saves)
        decreases |universe - base.visitedUrls|, |toVisit|
      {
        ghost var f := Frontier(toVisit, base.visitedUrls, pageCount, saves);
        VisitProgress(f, cdp, fetch, join, universe);
        ghost var g := Visit(f, cdp, fetch, join);
        assert Crawl(f, maxPages, cdp, fetch, join, universe) == Crawl(g, maxPages, cdp, fetch, join, universe);
        var url := toVisit[0];
        toVisit := toVisit[1..];
        if url in base.visitedUrls {
          assert g == Frontier(toVisit, base.visitedUrls, pageCount, saves);
          continue;
        }
        var response := fetch(url);
        if response.FetchError? {
          assert g == Frontier(toVisit, base.visitedUrls, pageCount, saves);
          continue;
        }
        base.visitedUrls := base.visitedUrls + {url};
        var page := response.page;
        if page.status != 200 {
          assert g == Frontier(toVisit, base.visitedUrls, pageCount, saves);
          continue;
        }
        if page.content != "" {
          base.SaveContent(url, page.title, page.content);
          saves := saves + [MakeArticle(url, page.title, page.content, cdp)];
          pageCount := pageCount + 1;
        }
        toVisit := EnqueueLinks(toVisit, page.hrefs, join);
        assert g == Frontier(toVisit, base.visitedUrls, pageCount, saves);
      }
    }

    /** The link loop of `scrape`: '/docs/' links whose URL is neither visited nor queued join the queue. */
    method EnqueueLinks(queue: seq<string>, hrefs: seq<string>, join: string -> string) returns (q: seq<string>)
      ensures q == Enqueue(queue, base.visitedUrls, hrefs, join)
    {
      q := queue;
      var j := 0;
      while j < |hrefs|
        invariant 0 <= j <= |hrefs|
        invariant q == Enqueue(queue, base.visitedUrls, hrefs[..j], join)
      {
        var href := hrefs[j];
        assert hrefs[..j + 1][..j] == hrefs[..j];
        if Contains(href, "/docs/") {
          var nextUrl := join(href);
          if nextUrl !in base.visitedUrls && nextUrl !in q {
            q := q + [nextUrl];
          }
        }
        j := j + 1;
      }
      assert hrefs[..j] == hrefs;
    }
  }
}
