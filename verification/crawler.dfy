// Two crawlers for the same closure of a page graph: level by level with the state threaded through the callback
// (webcrawler-batched), and with a mutable set of seen URLs (webcrawler-greedy).
module Crawler {
  type Url = string

  /** What a crawl invocation returns; a failed one yields an object without links. */
  datatype Reply = Page(pageLinks: seq<Url>, videoLinks: seq<Url>) | Failed

  /** The pages as they are throughout the run. */
  type Web = Url -> Reply

  datatype Result = Result(crawled: seq<Url>, videoLinks: seq<Url>)

  function Links(r: Reply): seq<Url> { if r.Page? then r.pageLinks else [] }

  function Videos(r: Reply): seq<Url> { if r.Page? then r.videoLinks else [] }

  function StripSlash(url: Url): Url {
    if url != "" && url[|url| - 1] == '/' then url[..|url| - 1] else url
  }

  function Fetch(web: Web, urls: seq<Url>): (rs: seq<Reply>)
    ensures |rs| == |urls| && forall i :: 0 <= i < |rs| ==> rs[i] == web(urls[i])
  {
    seq(|urls|, i requires 0 <= i < |urls| => web(urls[i]))
  }

  function FlatLinks(rs: seq<Reply>): seq<Url> {
    if rs == [] then [] else FlatLinks(rs[..|rs| - 1]) + Links(rs[|rs| - 1])
  }

  function FlatVideos(rs: seq<Reply>): seq<Url> {
    if rs == [] then [] else FlatVideos(rs[..|rs| - 1]) + Videos(rs[|rs| - 1])
  }

  lemma {:induction false} RepliesAppend(a: seq<Reply>, b: seq<Reply>)
    ensures FlatLinks(a + b) == FlatLinks(a) + FlatLinks(b) && FlatVideos(a + b) == FlatVideos(a) + FlatVideos(b)
    decreases |b|
  {
    if b == [] {
      assert a + b == a;
    } else {
      assert (a + b)[..|a + b| - 1] == a + b[..|b| - 1];
      RepliesAppend(a, b[..|b| - 1]);
    }
  }

  lemma ReplyBetween(before: seq<Reply>, r: Reply, after: seq<Reply>)
    ensures FlatLinks(before + [r] + after) == FlatLinks(before) + Links(r) + FlatLinks(after)
    ensures FlatVideos(before + [r] + after) == FlatVideos(before) + Videos(r) + FlatVideos(after)
  {
    RepliesAppend(before + [r], after);
    assert (before + [r])[..|before|] == before;
  }

  /** Wherever a page comes back in a batch, its links and videos take its place. */
  lemma PageInBatch(before: seq<Reply>, links: seq<Url>, videos: seq<Url>, after: seq<Reply>)
    ensures FlatLinks(before + [Page(links, videos)] + after) == FlatLinks(before) + links + FlatLinks(after)
    ensures FlatVideos(before + [Page(links, videos)] + after) == FlatVideos(before) + videos + FlatVideos(after)
  {
    ReplyBetween(before, Page(links, videos), after);
  }

  /** A failed reply leaves no trace in its batch. */
  lemma FailureInBatch(before: seq<Reply>, after: seq<Reply>)
    ensures FlatLinks(before + [Failed] + after) == FlatLinks(before + after)
    ensures FlatVideos(before + [Failed] + after) == FlatVideos(before + after)
  {
    RepliesAppend(before, after);
    NothingFrom(before, after);
  }

  lemma NothingFrom(before: seq<Reply>, after: seq<Reply>)
    ensures FlatLinks(before + [Failed] + after) == FlatLinks(before) + FlatLinks(after)
    ensures FlatVideos(before + [Failed] + after) == FlatVideos(before) + FlatVideos(after)
  {
    ReplyBetween(before, Failed, after);
    assert FlatLinks(before) + [] == FlatLinks(before) && FlatVideos(before) + [] == FlatVideos(before);
  }

  /** Exactly one slash at the end is dropped before the crawl starts. */
  lemma OneSlashDropped(url: Url)
    ensures StripSlash(url + "/") == url
    ensures StripSlash(url) == url <==> forall prefix :: url != prefix + "/"
  {
    assert (url + "/")[..|url|] == url;
    if url != "" && url[|url| - 1] == '/' {
      assert url == url[..|url| - 1] + "/";
    }
  }

  // ---- Batched ----

  /** `[...new Set(s)]`: first occurrences, in order. */
  function Unique(s: seq<Url>): seq<Url> {
    if s == [] then []
    else
      var rest, last := Unique(s[..|s| - 1]), s[|s| - 1];
      if last in s[..|s| - 1] then rest else rest + [last]
  }

  function Unseen(s: seq<Url>, visited: seq<Url>): seq<Url> {
    if s == [] then []
    else
      var rest, last := Unseen(s[..|s| - 1], visited), s[|s| - 1];
      if last in visited then rest else rest + [last]
  }

  function NewUrls(visited: seq<Url>, rs: seq<Reply>): seq<Url> {
    Unseen(Unique(FlatLinks(rs)), visited)
  }

  ghost predicate Distinct(s: seq<Url>) {
    forall i, j :: 0 <= i < j < |s| ==> s[i] != s[j]
  }

  /** Finitely many URLs, closed under the links of their pages. */
  ghost predicate Closed(web: Web, universe: set<Url>) {
    forall u, v :: u in universe && v in Links(web(u)) ==> v in universe
  }

  ghost predicate Bounded(web: Web, universe: set<Url>, visited: seq<Url>, frontier: seq<Url>) {
    && Closed(web, universe) && Distinct(visited)
    && (forall u :: u in visited ==> u in universe) && (forall u :: u in frontier ==> u in visited)
  }

  lemma {:induction false} UniqueIs(s: seq<Url>)
    ensures Distinct(Unique(s)) && forall u :: u in Unique(s) <==> u in s
    decreases |s|
  {
    if s != [] {
      UniqueIs(s[..|s| - 1]);
      assert s == s[..|s| - 1] + [s[|s| - 1]];
    }
  }

  lemma {:induction false} UnseenIs(s: seq<Url>, visited: seq<Url>)
    requires Distinct(s)
    ensures Distinct(Unseen(s, visited)) && forall u :: u in Unseen(s, visited) <==> u in s && u !in visited
    decreases |s|
  {
    if s != [] {
      UnseenIs(s[..|s| - 1], visited);
      assert s == s[..|s| - 1] + [s[|s| - 1]];
    }
  }

  ghost predicate LinkedFrom(web: Web, urls: seq<Url>, v: Url) {
    exists u :: u in urls && v in Links(web(u))
  }

  lemma LinkedLast(web: Web, urls: seq<Url>, v: Url)
    requires urls != []
    ensures LinkedFrom(web, urls, v) <==> LinkedFrom(web, urls[..|urls| - 1], v) || v in Links(web(urls[|urls| - 1]))
  {
    assert urls == urls[..|urls| - 1] + [urls[|urls| - 1]];
  }

  lemma {:induction false} FlatLinksIs(web: Web, urls: seq<Url>)
    ensures forall v :: v in FlatLinks(Fetch(web, urls)) <==> LinkedFrom(web, urls, v)
    decreases |urls|
  {
    if urls != [] {
      var n := |urls| - 1;
      FlatLinksIs(web, urls[..n]);
      assert Fetch(web, urls)[..n] == Fetch(web, urls[..n]);
      forall v ensures v in FlatLinks(Fetch(web, urls)) <==> LinkedFrom(web, urls, v) {
        LinkedLast(web, urls, v);
      }
    }
  }

  lemma NewUrlsAre(web: Web, visited: seq<Url>, frontier: seq<Url>)
    ensures var new' := NewUrls(visited, Fetch(web, frontier));
            Distinct(new') && forall v :: v in new' <==> LinkedFrom(web, frontier, v) && v !in visited
  {
    FlatLinksIs(web, frontier);
    UniqueIs(FlatLinks(Fetch(web, frontier)));
    UnseenIs(Unique(FlatLinks(Fetch(web, frontier))), visited);
  }

  lemma {:induction false} DistinctFits(s: seq<Url>, universe: set<Url>)
    requires Distinct(s) && forall u :: u in s ==> u in universe
    ensures |s| <= |universe|
    decreases |s|
  {
    if s != [] {
      var n := |s| - 1;
      assert forall u :: u in s[..n] ==> u in universe - {s[n]};
      DistinctFits(s[..n], universe - {s[n]});
      assert s[n] in universe;
    }
  }

  lemma JoinDistinct(a: seq<Url>, b: seq<Url>)
    requires Distinct(a) && Distinct(b) && forall v :: v in b ==> v !in a
    ensures Distinct(a + b) && forall v :: v in a + b <==> v in a || v in b
  {
    forall i, j | 0 <= i < j < |a + b| ensures (a + b)[i] != (a + b)[j] {
      if i < |a| && |a| <= j { assert b[j - |a|] in b; }
    }
  }

  lemma NewInUniverse(web: Web, universe: set<Url>, frontier: seq<Url>, v: Url)
    requires Closed(web, universe) && (forall u :: u in frontier ==> u in universe) && LinkedFrom(web, frontier, v)
    ensures v in universe
  {
    var u :| u in frontier && v in Links(web(u));
    assert u in universe;
  }

  lemma LevelBounded(web: Web, universe: set<Url>, visited: seq<Url>, frontier: seq<Url>)
    requires Bounded(web, universe, visited, frontier)
    ensures var new' := NewUrls(visited, Fetch(web, frontier));
            Bounded(web, universe, visited + new', new') && |visited| + |new'| <= |universe|
  {
    var new' := NewUrls(visited, Fetch(web, frontier));
    NewUrlsAre(web, visited, frontier);
    JoinDistinct(visited, new');
    forall v | v in new' ensures v in universe {
      NewInUniverse(web, universe, frontier, v);
    }
    DistinctFits(visited + new', universe);
  }

  /** The callbacks of a batched crawl, from the batch `frontier` on. That it is a function says that it ends. */
  ghost function BatchedFrom(web: Web, universe: set<Url>, visited: seq<Url>, videoLinks: seq<Url>, frontier: seq<Url>): Result
    requires Bounded(web, universe, visited, frontier)
    decreases |universe| - |visited|
  {
    var rs := Fetch(web, frontier);
    var newVideoLinks := videoLinks + FlatVideos(rs);
    var newUrls := NewUrls(visited, rs);
    LevelBounded(web, universe, visited, frontier);
    if newUrls == [] then Result(visited, newVideoLinks)
    else BatchedFrom(web, universe, visited + newUrls, newVideoLinks, newUrls)
  }

  ghost function Batched(web: Web, universe: set<Url>, payloadUrl: Url): Result
    requires Closed(web, universe) && StripSlash(payloadUrl) in universe
  {
    BatchedFrom(web, universe, [StripSlash(payloadUrl)], [], [StripSlash(payloadUrl)])
  }

  // ---- Greedy ----

  /** Adding to a JavaScript Set keeps insertion order. */
  function AddAll(crawled: seq<Url>, urls: seq<Url>): seq<Url> {
    if urls == [] then crawled
    else
      var rest, last := AddAll(crawled, urls[..|urls| - 1]), urls[|urls| - 1];
      if last in rest then rest else rest + [last]
  }

  /** What the loop adds is exactly what the batched callback filters out of its deduplicated list. */
  lemma {:induction false} AddAllIsNewUrls(crawled: seq<Url>, urls: seq<Url>)
    ensures AddAll(crawled, urls) == crawled + Unseen(Unique(urls), crawled)
    decreases |urls|
  {
    if urls != [] {
      var n := |urls| - 1;
      AddAllIsNewUrls(crawled, urls[..n]);
      UniqueIs(urls[..n]);
      OneMoreUrl(crawled, urls[..n], urls[n], Unique(urls[..n]));
    }
  }

  /** One more link is new if it is neither crawled nor among those just added. */
  lemma OneMoreUrl(crawled: seq<Url>, urls: seq<Url>, u: Url, unique: seq<Url>)
    requires Distinct(unique) && forall v :: v in unique <==> v in urls
    ensures var before := crawled + Unseen(unique, crawled);
            crawled + Unseen(if u in urls then unique else unique + [u], crawled) == if u in before then before else before + [u]
  {
    UnseenIs(unique, crawled);
    UnseenLast(unique, u, crawled);
  }

  lemma UnseenLast(s: seq<Url>, u: Url, visited: seq<Url>)
    ensures Unseen(s + [u], visited) == if u in visited then Unseen(s, visited) else Unseen(s, visited) + [u]
  {
    assert (s + [u])[..|s|] == s;
  }

  class GreedyCrawler {
    var crawled: seq<Url>
    var videoLinks: seq<Url>

    constructor (url: Url)
      ensures crawled == [url] && videoLinks == []
    {
      crawled, videoLinks := [url], [];
    }

    /** The inner loop over the links of one page. */
    method AddLinks(links: seq<Url>, urls: seq<Url>) returns (newUrls: seq<Url>)
      modifies this`crawled
      ensures crawled == AddAll(old(crawled), links)
      ensures |old(crawled)| <= |crawled| && crawled[..|old(crawled)|] == old(crawled)
      ensures newUrls == urls + crawled[|old(crawled)|..]
    {
      newUrls := urls;
      for i := 0 to |links|
        invariant crawled == AddAll(old(crawled), links[..i])
        invariant |old(crawled)| <= |crawled| && crawled[..|old(crawled)|] == old(crawled)
        invariant newUrls == urls + crawled[|old(crawled)|..]
      {
        assert links[..i + 1][..i] == links[..i];
        if links[i] !in crawled {
          crawled := crawled + [links[i]];
          newUrls := newUrls + [links[i]];
        }
      }
      assert links[..|links|] == links;
    }

    /** The body of the outer loop, for one page. */
    method AddPage(result: Reply, urls: seq<Url>, ghost start: seq<Url>) returns (newUrls: seq<Url>)
      requires crawled == start + urls
      modifies this
      ensures crawled == AddAll(old(crawled), Links(result)) == start + newUrls
      ensures videoLinks == old(videoLinks) + Videos(result)
    {
      ghost var before := crawled;
      videoLinks := videoLinks + Videos(result);
      newUrls := AddLinks(Links(result), urls);
      assert crawled == before + crawled[|before|..];
    }

    /** The outer loop. */
    method AddPages(results: seq<Reply>) returns (newUrls: seq<Url>)
      modifies this
      ensures crawled == AddAll(old(crawled), FlatLinks(results)) == old(crawled) + newUrls
      ensures videoLinks == old(videoLinks) + FlatVideos(results)
    {
      newUrls := [];
      ghost var start, videos := crawled, videoLinks;
      for i := 0 to |results|
        invariant crawled == start + newUrls && HasRead(start, videos, results[..i], crawled, videoLinks)
      {
        ghost var before, seen := crawled, videoLinks;
        newUrls := AddPage(results[i], newUrls, start);
        ReadOneMore(start, videos, results, i, before, seen, crawled, videoLinks);
      }
      assert results[..|results|] == results;
    }

    method OnBatch(results: seq<Reply>) returns (newUrls: seq<Url>)
      modifies this
      ensures crawled == old(crawled) + newUrls && newUrls == NewUrls(old(crawled), results)
      ensures videoLinks == old(videoLinks) + FlatVideos(results)
    {
      newUrls := AddPages(results);
      AddAllIsNewUrls(old(crawled), FlatLinks(results));
      SameTail(old(crawled), newUrls, NewUrls(old(crawled), results));
    }
  }

  lemma SameTail(a: seq<Url>, b: seq<Url>, c: seq<Url>)
    requires a + b == a + c
    ensures b == c
  {
    assert (a + b)[|a|..] == b && (a + c)[|a|..] == c;
  }

  /** What the fields hold once `results` have been read. */
  ghost predicate HasRead(start: seq<Url>, videos: seq<Url>, results: seq<Reply>, crawled: seq<Url>, videoLinks: seq<Url>) {
    crawled == AddAll(start, FlatLinks(results)) && videoLinks == videos + FlatVideos(results)
  }

  lemma ReadOneMore(start: seq<Url>, videos: seq<Url>, results: seq<Reply>, i: nat,
                    before: seq<Url>, seen: seq<Url>, crawled: seq<Url>, videoLinks: seq<Url>)
    requires i < |results| && HasRead(start, videos, results[..i], before, seen)
    requires crawled == AddAll(before, Links(results[i])) && videoLinks == seen + Videos(results[i])
    ensures HasRead(start, videos, results[..i + 1], crawled, videoLinks)
  {
    assert results[..i + 1][..i] == results[..i];
    AddAllAppend(start, FlatLinks(results[..i]), Links(results[i]));
  }

  lemma {:induction false} AddAllAppend(crawled: seq<Url>, a: seq<Url>, b: seq<Url>)
    ensures AddAll(crawled, a + b) == AddAll(AddAll(crawled, a), b)
    decreases |b|
  {
    if b == [] {
      assert a + b == a;
    } else {
      assert (a + b)[..|a + b| - 1] == a + b[..|b| - 1];
      AddAllAppend(crawled, a, b[..|b| - 1]);
    }
  }

  /** The greedy crawl returns just what the batched one does. */
  method Greedy(web: Web, ghost universe: set<Url>, payloadUrl: Url) returns (r: Result)
    requires Closed(web, universe) && StripSlash(payloadUrl) in universe
    ensures r == Batched(web, universe, payloadUrl)
  {
    var url := StripSlash(payloadUrl);
    var crawler := new GreedyCrawler(url);
    var batch := [url];
    while true
      invariant Bounded(web, universe, crawler.crawled, batch)
      invariant BatchedFrom(web, universe, crawler.crawled, crawler.videoLinks, batch) == Batched(web, universe, payloadUrl)
      decreases |universe| - |crawler.crawled|
    {
      LevelBounded(web, universe, crawler.crawled, batch);
      ghost var visited := crawler.crawled;
      var newUrls := crawler.OnBatch(Fetch(web, batch));
      if newUrls == [] {
        assert crawler.crawled == visited;
        return Result(crawler.crawled, crawler.videoLinks);
      }
      batch := newUrls;
    }
  }

  // ---- Levels ----

  datatype Level = Level(visited: seq<Url>, frontier: seq<Url>)

  /** After `k` batches. */
  function LevelAt(web: Web, start: Url, k: nat): Level {
    if k == 0 then Level([start], [start])
    else
      var l := LevelAt(web, start, k - 1);
      var newUrls := NewUrls(l.visited, Fetch(web, l.frontier));
      Level(l.visited + newUrls, newUrls)
  }

  ghost predicate IsPath(web: Web, start: Url, p: seq<Url>, u: Url) {
    && p != [] && p[0] == start && p[|p| - 1] == u
    && forall i :: 0 < i < |p| ==> p[i] in Links(web(p[i - 1]))
  }

  ghost predicate WithinDistance(web: Web, start: Url, u: Url, k: nat) {
    exists p :: IsPath(web, start, p, u) && |p| - 1 <= k
  }

  ghost predicate Reachable(web: Web, start: Url, u: Url) {
    exists p :: IsPath(web, start, p, u)
  }

  lemma ExtendPath(web: Web, start: Url, u: Url, v: Url, k: nat)
    requires WithinDistance(web, start, u, k) && v in Links(web(u))
    ensures WithinDistance(web, start, v, k + 1)
  {
    var p :| IsPath(web, start, p, u) && |p| - 1 <= k;
    assert IsPath(web, start, p + [v], v);
  }

  lemma SplitPath(web: Web, start: Url, v: Url, k: nat) returns (u: Url)
    requires WithinDistance(web, start, v, k + 1) && !WithinDistance(web, start, v, k)
    ensures WithinDistance(web, start, u, k) && v in Links(web(u))
  {
    var p :| IsPath(web, start, p, v) && |p| - 1 <= k + 1;
    u := p[|p| - 2];
    assert IsPath(web, start, p[..|p| - 1], u);
  }

  /** All links of pages already crawled, the frontier apart, have been seen. */
  ghost predicate Settled(web: Web, l: Level) {
    && (forall u :: u in l.frontier ==> u in l.visited)
    && forall u, v :: u in l.visited && u !in l.frontier && v in Links(web(u)) ==> v in l.visited
  }

  ghost predicate InBall(web: Web, start: Url, l: Level, k: nat, u: Url) {
    u in l.visited <==> WithinDistance(web, start, u, k)
  }

  ghost predicate IsBall(web: Web, start: Url, l: Level, k: nat) {
    && Settled(web, l) && Distinct(l.visited)
    && forall u {:trigger InBall(web, start, l, k, u)} :: InBall(web, start, l, k, u)
  }

  lemma NextVisited(web: Web, start: Url, l: Level, k: nat, new': seq<Url>, v: Url)
    requires IsBall(web, start, l, k)
    requires v in new' <==> LinkedFrom(web, l.frontier, v) && v !in l.visited
    ensures v in l.visited || v in new' <==> WithinDistance(web, start, v, k + 1)
  {
    assert InBall(web, start, l, k, v);
    if v in l.visited {
      var p :| IsPath(web, start, p, v) && |p| - 1 <= k;
      assert IsPath(web, start, p, v) && |p| - 1 <= k + 1;
    } else {
      if LinkedFrom(web, l.frontier, v) {
        var u :| u in l.frontier && v in Links(web(u));
        assert InBall(web, start, l, k, u);
        ExtendPath(web, start, u, v, k);
      }
      if WithinDistance(web, start, v, k + 1) {
        var u := SplitPath(web, start, v, k);
        assert InBall(web, start, l, k, u);
        assert u in l.frontier;
      }
    }
  }

  lemma NextSettled(web: Web, l: Level, next: Level, new': seq<Url>)
    requires Settled(web, l) && next == Level(l.visited + new', new')
    requires forall v :: v in new' <==> LinkedFrom(web, l.frontier, v) && v !in l.visited
    ensures Settled(web, next)
  {
    forall u, v | u in next.visited && u !in next.frontier && v in Links(web(u)) ensures v in next.visited {
      if u in l.frontier {
        assert LinkedFrom(web, l.frontier, v);
      }
    }
  }

  lemma NextBall(web: Web, start: Url, l: Level, k: nat, new': seq<Url>, next: Level)
    requires k > 0 && IsBall(web, start, l, k - 1) && new' == NewUrls(l.visited, Fetch(web, l.frontier))
    requires next == Level(l.visited + new', new')
    ensures IsBall(web, start, next, k)
  {
    NewUrlsAre(web, l.visited, l.frontier);
    JoinDistinct(l.visited, new');
    NextSettled(web, l, next, new');
    forall v ensures InBall(web, start, next, k, v) {
      NextVisited(web, start, l, k - 1, new', v);
    }
  }

  lemma FirstBall(web: Web, start: Url)
    ensures IsBall(web, start, Level([start], [start]), 0)
  {
    assert IsPath(web, start, [start], start);
    forall u ensures InBall(web, start, Level([start], [start]), 0, u) {
    }
  }

  lemma NextLevel(web: Web, start: Url, k: nat, l: Level, next: Level)
    requires k > 0 && l == LevelAt(web, start, k - 1) && next == LevelAt(web, start, k) && IsBall(web, start, l, k - 1)
    ensures IsBall(web, start, next, k)
  {
    NextBall(web, start, l, k, NewUrls(l.visited, Fetch(web, l.frontier)), next);
  }

  /** After `k` batches exactly the URLs within link distance `k` have been visited, each once. */
  lemma {:induction false} LevelsAreDistances(web: Web, start: Url, k: nat)
    ensures IsBall(web, start, LevelAt(web, start, k), k)
    decreases k
  {
    if k == 0 {
      FirstBall(web, start);
    } else {
      LevelsAreDistances(web, start, k - 1);
      NextLevel(web, start, k, LevelAt(web, start, k - 1), LevelAt(web, start, k));
    }
  }

  lemma {:induction false} ClosedReaches(web: Web, start: Url, visited: seq<Url>, p: seq<Url>, u: Url)
    requires start in visited && IsPath(web, start, p, u)
    requires forall x, y :: x in visited && y in Links(web(x)) ==> y in visited
    ensures u in visited
    decreases |p|
  {
    if |p| > 1 { ClosedReaches(web, start, visited, p[..|p| - 1], p[|p| - 2]); }
  }

  ghost predicate EndsAt(web: Web, start: Url, r: Result, last: nat) {
    && r.crawled == LevelAt(web, start, last).visited && LevelAt(web, start, last + 1).frontier == []
    && r.videoLinks == FlatVideos(Fetch(web, r.crawled))
  }

  lemma NextVideos(web: Web, visited: seq<Url>, videoLinks: seq<Url>, frontier: seq<Url>, new': seq<Url>)
    requires videoLinks + FlatVideos(Fetch(web, frontier)) == FlatVideos(Fetch(web, visited))
    ensures videoLinks + FlatVideos(Fetch(web, frontier)) + FlatVideos(Fetch(web, new')) == FlatVideos(Fetch(web, visited + new'))
  {
    var a, b := Fetch(web, visited), Fetch(web, new');
    assert Fetch(web, visited + new') == a + b;
    RepliesAppend(a, b);
  }

  /** The rest of a crawl from level `k` on. */
  lemma {:induction false} FromLevel(web: Web, universe: set<Url>, start: Url, k: nat, l: Level, videoLinks: seq<Url>) returns (last: nat)
    requires l == LevelAt(web, start, k) && Bounded(web, universe, l.visited, l.frontier)
    requires videoLinks + FlatVideos(Fetch(web, l.frontier)) == FlatVideos(Fetch(web, l.visited))
    ensures EndsAt(web, start, BatchedFrom(web, universe, l.visited, videoLinks, l.frontier), last)
    decreases |universe| - |l.visited|
  {
    var new' := NewUrls(l.visited, Fetch(web, l.frontier));
    LevelBounded(web, universe, l.visited, l.frontier);
    if new' == [] {
      last := k;
    } else {
      NextVideos(web, l.visited, videoLinks, l.frontier, new');
      last := FromLevel(web, universe, start, k + 1, Level(l.visited + new', new'), videoLinks + FlatVideos(Fetch(web, l.frontier)));
    }
  }

  lemma LastLevelClosed(web: Web, start: Url, l: Level, x: Url, y: Url)
    requires Settled(web, l) && NewUrls(l.visited, Fetch(web, l.frontier)) == []
    requires x in l.visited && y in Links(web(x))
    ensures y in l.visited
  {
    NewUrlsAre(web, l.visited, l.frontier);
    if x in l.frontier {
      assert LinkedFrom(web, l.frontier, y);
      assert y !in NewUrls(l.visited, Fetch(web, l.frontier));
    }
  }

  /** A crawl ends with exactly the reachable URLs, each crawled once, and with the video links of all their
      pages in the order of crawling. */
  lemma CrawlIsClosure(web: Web, universe: set<Url>, payloadUrl: Url)
    requires Closed(web, universe) && StripSlash(payloadUrl) in universe
    ensures var start, r := StripSlash(payloadUrl), Batched(web, universe, payloadUrl);
            && Distinct(r.crawled)
            && (forall u :: u in r.crawled <==> Reachable(web, start, u))
            && r.videoLinks == FlatVideos(Fetch(web, r.crawled))
  {
    var start := StripSlash(payloadUrl);
    var last := FromLevel(web, universe, start, 0, LevelAt(web, start, 0), []);
    LevelsAreDistances(web, start, last);
    var l := LevelAt(web, start, last);
    forall u ensures u in l.visited <==> Reachable(web, start, u) {
      LastBallReaches(web, start, l, last, u);
    }
  }

  /** A ball out of which no link leads holds what is reachable. */
  lemma LastBallReaches(web: Web, start: Url, l: Level, k: nat, u: Url)
    requires IsBall(web, start, l, k) && NewUrls(l.visited, Fetch(web, l.frontier)) == []
    ensures u in l.visited <==> Reachable(web, start, u)
  {
    assert InBall(web, start, l, k, u) && InBall(web, start, l, k, start);
    StartVisited(web, start, k);
    forall x, y | x in l.visited && y in Links(web(x)) ensures y in l.visited {
      LastLevelClosed(web, start, l, x, y);
    }
    if Reachable(web, start, u) {
      var p :| IsPath(web, start, p, u);
      ClosedReaches(web, start, l.visited, p, u);
    }
  }

  lemma StartVisited(web: Web, start: Url, k: nat)
    ensures WithinDistance(web, start, start, k)
  {
    assert IsPath(web, start, [start], start);
  }
}
