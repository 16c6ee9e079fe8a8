/**
 * The crawl of task2/solution.py: `parse_beast_links`, which adds the titles of
 * one page to the global tally, and `main`, the `while url` loop that fetches
 * page after page and follows the next-page link.
 *
 * Fetching and HTML parsing are outside the model: `fetch(url, n)` is the body
 * the n-th request of the run (counting from 0) returns for `url`, None when the
 * request failed, and `parse(html)` is the page BeautifulSoup makes of a body.
 */
module Crawl {
  import opened Wrappers
  import opened Aggregator
  import opened PageParser

  const BaseUrl: string := "https://ru.wikipedia.org/"
  const SubUrl: string := "wiki/Категория:Животные_по_алфавиту"
  /** The URL the script starts from. */
  const StartUrl: string := BaseUrl + SubUrl

  /** Python truthiness of `str | None`: present and non-empty. */
  predicate Truthy(s: Option<string>)
  {
    s.Some? && s.value != ""
  }

  /** The cursor after a fetched page: `base_url + next` when `next` is truthy, else None. */
  function Advance(next: Option<string>): (cursor: Option<string>)
    ensures cursor.None? <==> !Truthy(next)
    ensures cursor.Some? ==> Truthy(cursor) && cursor.value == BaseUrl + next.value
  {
    if Truthy(next) then Some(BaseUrl + next.value) else None
  }

  /** The state of a run: the cursor, the tally, and the URLs requested so far, in order. */
  datatype CrawlState = CrawlState(cursor: Option<string>, counts: map<string, int>, fetched: seq<string>)

  /** One iteration of `while url`. */
  function Step(s: CrawlState, fetch: (string, nat) -> Option<string>, parse: string -> Page, upper: char -> string): (r: CrawlState)
    requires Truthy(s.cursor)
    ensures r.fetched == s.fetched + [s.cursor.value]
    ensures !Truthy(fetch(s.cursor.value, |s.fetched|)) ==> r.cursor == s.cursor && r.counts == s.counts
    ensures Truthy(fetch(s.cursor.value, |s.fetched|)) ==>
              var page := parse(fetch(s.cursor.value, |s.fetched|).value);
              && r.counts == Record(s.counts, page.titles, upper)
              && r.cursor == Advance(FindNextLink(page.elements))
  {
    var url := s.cursor.value;
    var html := fetch(url, |s.fetched|);
    if Truthy(html) then
      var page := parse(html.value);
      CrawlState(Advance(FindNextLink(page.elements)), Record(s.counts, page.titles, upper), s.fetched + [url])
    else
      s.(fetched := s.fetched + [url])
  }

  /** At most `fuel` iterations of `while url`, stopping early once the cursor is falsy. */
  function Run(s: CrawlState, fetch: (string, nat) -> Option<string>, parse: string -> Page, upper: char -> string, fuel: nat): CrawlState
    decreases fuel
  {
    if fuel == 0 || !Truthy(s.cursor) then s
    else Run(Step(s, fetch, parse, upper), fetch, parse, upper, fuel - 1)
  }

  /** The owner of the `beasts` tally and of the crawl that fills it. */
  class Crawler {
    /** Python's `str.upper` on one character. */
    const upper: char -> string
    /** `beasts`: first letter to number of entries. */
    var counts: map<string, int>

    constructor (upper: char -> string)
      ensures this.upper == upper && counts == map[]
    {
      this.upper := upper;
      counts := map[];
    }

    /** `parse_beast_links`: count the titles of one page, in document order. */
    method ParseBeastLinks(titles: seq<string>)
      modifies this
      ensures counts == Record(old(counts), titles, upper)
    {
      for i := 0 to |titles|
        invariant counts == Record(old(counts), titles[..i], upper)
      {
        assert titles[..i + 1][..i] == titles[..i];
        var title := titles[i];
        if title != "" {
          var firstChar := upper(title[0]);
          counts := counts[firstChar := Get(counts, firstChar) + 1];
        }
      }
      assert titles[..|titles|] == titles;
    }

    /**
     * `main`: follow the cursor from `startUrl` for at most `fuel` iterations.
     * Returns the final cursor and the URLs requested, in order.
     */
    method CrawlFrom(startUrl: string, fetch: (string, nat) -> Option<string>, parse: string -> Page, fuel: nat)
      returns (cursor: Option<string>, fetched: seq<string>)
      modifies this
      ensures CrawlState(cursor, counts, fetched) == Run(CrawlState(Some(startUrl), old(counts), []), fetch, parse, upper, fuel)
    {
      var url := Some(startUrl);
      fetched := [];
      var steps := fuel;
      while Truthy(url) && steps > 0
        invariant Run(CrawlState(url, counts, fetched), fetch, parse, upper, steps)
               == Run(CrawlState(Some(startUrl), old(counts), []), fetch, parse, upper, fuel)
        decreases steps
      {
        var html := fetch(url.value, |fetched|);
        fetched := fetched + [url.value];
        if Truthy(html) {
          var page := parse(html.value);
          ParseBeastLinks(page.titles);
          var next := FindNextLink(page.elements);
          url := Advance(next);
        }
        steps := steps - 1;
      }
      cursor := url;
    }
  }

  /** `[u, u, ..., u]`, n times. */
  function Repeat(u: string, n: nat): (r: seq<string>)
    ensures |r| == n && forall i :: 0 <= i < n ==> r[i] == u
  {
    if n == 0 then [] else Repeat(u, n - 1) + [u]
  }

  /**
   * A URL whose every fetch fails is requested again and again: however many
   * iterations run, the cursor stays on it and the tally does not change.
   */
  lemma {:induction false} FailingUrlRetriedForever(s: CrawlState, fetch: (string, nat) -> Option<string>, parse: string -> Page, upper: char -> string, fuel: nat)
    requires Truthy(s.cursor)
    requires forall n :: !Truthy(fetch(s.cursor.value, n))
    ensures Run(s, fetch, parse, upper, fuel) == s.(fetched := s.fetched + Repeat(s.cursor.value, fuel))
    decreases fuel
  {
    if fuel > 0 {
      var next := Step(s, fetch, parse, upper);
      FailingUrlRetriedForever(next, fetch, parse, upper, fuel - 1);
      assert s.fetched + Repeat(s.cursor.value, fuel) == next.fetched + Repeat(s.cursor.value, fuel - 1) by {
        assert Repeat(s.cursor.value, fuel) == [s.cursor.value] + Repeat(s.cursor.value, fuel - 1);
      }
    }
  }

  /**
   * A page that links to itself is requested again and again: the cursor never
   * moves and every iteration makes one more request, whatever the fuel.
   */
  lemma {:induction false} SelfLinkLoopsForever(s: CrawlState, fetch: (string, nat) -> Option<string>, parse: string -> Page, upper: char -> string, fuel: nat)
    requires Truthy(s.cursor)
    requires forall n :: Truthy(fetch(s.cursor.value, n))
                         && Advance(FindNextLink(parse(fetch(s.cursor.value, n).value).elements)) == s.cursor
    ensures var r := Run(s, fetch, parse, upper, fuel);
            && r.cursor == s.cursor
            && r.fetched == s.fetched + Repeat(s.cursor.value, fuel)
    decreases fuel
  {
    if fuel > 0 {
      var next := Step(s, fetch, parse, upper);
      SelfLinkLoopsForever(next, fetch, parse, upper, fuel - 1);
      assert s.fetched + Repeat(s.cursor.value, fuel) == next.fetched + Repeat(s.cursor.value, fuel - 1) by {
        assert Repeat(s.cursor.value, fuel) == [s.cursor.value] + Repeat(s.cursor.value, fuel - 1);
      }
    }
  }

  /** The cursor is either None or a non-empty URL; `Step` keeps it so. */
  predicate CursorWellFormed(s: CrawlState)
  {
    s.cursor.None? || Truthy(s.cursor)
  }

  /**
   * The loop stops exactly when the cursor is None: a run that ends before its
   * fuel is used up ends with cursor None, and otherwise every iteration made
   * one request.
   */
  lemma {:induction false} RunStopsOnlyAtNone(s: CrawlState, fetch: (string, nat) -> Option<string>, parse: string -> Page, upper: char -> string, fuel: nat)
    requires CursorWellFormed(s)
    ensures var r := Run(s, fetch, parse, upper, fuel);
            && CursorWellFormed(r)
            && (r.cursor.None? || |r.fetched| == |s.fetched| + fuel)
            && |r.fetched| <= |s.fetched| + fuel
    decreases fuel
  {
    if fuel > 0 && Truthy(s.cursor) {
      RunStopsOnlyAtNone(Step(s, fetch, parse, upper), fetch, parse, upper, fuel - 1);
    }
  }

  /** Over a whole run no key is removed and no count decreases. */
  lemma {:induction false} RunMonotone(s: CrawlState, fetch: (string, nat) -> Option<string>, parse: string -> Page, upper: char -> string, fuel: nat)
    ensures var r := Run(s, fetch, parse, upper, fuel);
            forall k :: k in s.counts ==> k in r.counts && r.counts[k] >= s.counts[k]
    decreases fuel
  {
    if fuel > 0 && Truthy(s.cursor) {
      var next := Step(s, fetch, parse, upper);
      var html := fetch(s.cursor.value, |s.fetched|);
      if Truthy(html) {
        RecordMonotone(s.counts, parse(html.value).titles, upper);
      }
      RunMonotone(next, fetch, parse, upper, fuel - 1);
    }
  }

  /** The entry titles of a sequence of page bodies, concatenated in order. */
  function AllTitles(htmls: seq<string>, parse: string -> Page): seq<string>
    decreases |htmls|
  {
    if htmls == [] then [] else parse(htmls[0]).titles + AllTitles(htmls[1..], parse)
  }

  /** The tally after recording the pages of the bodies one after the other. */
  function RecordPages(counts: map<string, int>, htmls: seq<string>, parse: string -> Page, upper: char -> string): map<string, int>
    decreases |htmls|
  {
    if htmls == [] then counts else RecordPages(Record(counts, parse(htmls[0]).titles, upper), htmls[1..], parse, upper)
  }

  /** Recording pages one by one is recording all their titles at once. */
  lemma {:induction false} RecordPagesAll(counts: map<string, int>, htmls: seq<string>, parse: string -> Page, upper: char -> string)
    ensures RecordPages(counts, htmls, parse, upper) == Record(counts, AllTitles(htmls, parse), upper)
    decreases |htmls|
  {
    if htmls == [] {
      assert Record(counts, [], upper) == counts;
    } else {
      var titles, rest := parse(htmls[0]).titles, AllTitles(htmls[1..], parse);
      RecordPagesAll(Record(counts, titles, upper), htmls[1..], parse, upper);
      RecordAppend(counts, titles, rest, upper);
    }
  }

  /**
   * A chain of pages: the request numbered `start` for `urls[0]` returns the
   * non-empty body `htmls[0]`, whose next link leads to `urls[1]`, fetched by
   * the following request, and so on; the last page has no (truthy) next link.
   */
  predicate Chain(urls: seq<string>, htmls: seq<string>, fetch: (string, nat) -> Option<string>, parse: string -> Page, start: nat)
    decreases |urls|
  {
    && |urls| == |htmls| > 0
    && fetch(urls[0], start) == Some(htmls[0]) && htmls[0] != ""
    && if |urls| == 1 then Advance(FindNextLink(parse(htmls[0]).elements)) == None
       else Advance(FindNextLink(parse(htmls[0]).elements)) == Some(urls[1])
            && Chain(urls[1..], htmls[1..], fetch, parse, start + 1)
  }

  /**
   * With no failed fetch and a chain of K pages whose K-th has no next link,
   * the loop requests exactly those K URLs in chain order, counts the titles of
   * all K pages, and stops with cursor None.
   */
  lemma {:induction false} ChainIsFollowed(s: CrawlState, urls: seq<string>, htmls: seq<string>, fetch: (string, nat) -> Option<string>, parse: string -> Page, upper: char -> string, fuel: nat)
    requires Chain(urls, htmls, fetch, parse, |s.fetched|)
    requires s.cursor == Some(urls[0]) && urls[0] != ""
    requires fuel >= |urls|
    ensures Run(s, fetch, parse, upper, fuel) == CrawlState(None, RecordPages(s.counts, htmls, parse, upper), s.fetched + urls)
    decreases |urls|
  {
    var next := Step(s, fetch, parse, upper);
    ChainHead(s, urls, htmls, fetch, parse, upper);
    assert Run(s, fetch, parse, upper, fuel) == Run(next, fetch, parse, upper, fuel - 1);
    if |urls| > 1 {
      ChainIsFollowed(next, urls[1..], htmls[1..], fetch, parse, upper, fuel - 1);
      assert s.fetched + urls == next.fetched + urls[1..];
    }
  }

  /** The first iteration over a chain fetches its first page, counts it and moves to its link. */
  lemma ChainHead(s: CrawlState, urls: seq<string>, htmls: seq<string>, fetch: (string, nat) -> Option<string>, parse: string -> Page, upper: char -> string)
    requires Chain(urls, htmls, fetch, parse, |s.fetched|)
    requires s.cursor == Some(urls[0]) && urls[0] != ""
    ensures Step(s, fetch, parse, upper)
         == CrawlState(if |urls| == 1 then None else Some(urls[1]), Record(s.counts, parse(htmls[0]).titles, upper), s.fetched + [urls[0]])
  {
  }

  /**
   * A fetched page whose first next-page anchor has no `href` sends the crawl
   * to `base_url + "None"`: the missing attribute is printed, not treated as absent.
   */
  lemma MissingHrefFollowed(s: CrawlState, fetch: (string, nat) -> Option<string>, parse: string -> Page, upper: char -> string, i: nat)
    requires Truthy(s.cursor) && Truthy(fetch(s.cursor.value, |s.fetched|))
    requires var elements := parse(fetch(s.cursor.value, |s.fetched|).value).elements;
             && i < |elements| && IsNextLink(elements[i]) && elements[i].href.None?
             && (forall j :: 0 <= j < i ==> !IsNextLink(elements[j]))
    ensures Step(s, fetch, parse, upper).cursor == Some(BaseUrl + "None")
  {
    MissingHrefGivesNoneString(parse(fetch(s.cursor.value, |s.fetched|).value).elements, i);
  }

  /**
   * An example: a first page listing "Ant", "Aardvark", "Bee" and a
   * second listing "Bat" leave the tally {A: 2, B: 2}.
   */
  lemma TwoPageExample(upper: char -> string)
    requires upper('A') == "A" && upper('B') == "B"
    ensures Record(Record(map[], ["Ant", "Aardvark", "Bee"], upper), ["Bat"], upper) == map["A" := 2, "B" := 2]
  {
    var first := Record(map[], ["Ant", "Aardvark", "Bee"], upper);
    assert ["Ant", "Aardvark", "Bee"][..2] == ["Ant", "Aardvark"];
    assert ["Ant", "Aardvark"][..1] == ["Ant"];
    assert ["Ant"][..0] == [];
    assert first == map["A" := 2, "B" := 1];
    assert ["Bat"][..0] == [];
  }
}
