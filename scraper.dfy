/**
 * `TenderScraper` of scrape.py: the crawl over the listing pages, the detail fetch of
 * each listed tender, the cleaning pass, and the bookkeeping each of them reports to the
 * run tracker.
 *
 * The network and the HTML parser are parameters: `fetch` is `Fetcher.get` (None when
 * every retry failed, else the page text), `parseListing`, `hasNext` and `parseDetail`
 * are `parse_listing_page`, `get_pagination_info(...)['has_next']` and
 * `parse_detail_page`, `clean` is `DataCleaner.clean_tender`, and `saveBatch` is the
 * counts `save_tenders_batch` reports.
 * Each is a function, so the model assumes that fetching the same URL twice gives the
 * same answer.
 *
 * Every operation is specified by a function that returns what it produces together
 * with the tracker calls it makes, in order; a method's effect on the tracker is the
 * replay of those calls.
 */
module Scraper {
  import opened Wrappers
  import opened Decimal
  import opened Records
  import opened Cleaner
  import opened Tracker

  type Html = string

  /** A listing stub: `_fetch_tender_detail` indexes `tender_id` and `source_url` directly. */
  type Stub = r: Record | TenderId in r && SourceUrl in r
    witness map[TenderId := Null, SourceUrl := Null]

  /** The two keys of the run configuration the crawl reads, each `None` when absent. */
  datatype Config = Config(maxPages: Option<int>, limit: Option<int>)

  /** What `save_tenders_batch` reports. */
  datatype SaveStats = SaveStats(saved: int, deduped: int, failed: int)

  /** `"/?page={page}"` past the first page, `"/"` for it. */
  function ListingUrl(page: int): (url: string)
    ensures url != []
  {
    if page > 1 then "/?page=" + Show(page) else "/"
  }

  /** Different pages from 1 on are fetched from different URLs. */
  lemma ListingUrlsDistinct(p: int, q: int)
    requires 1 <= p && 1 <= q && p != q
    ensures ListingUrl(p) != ListingUrl(q)
  {
    if p > 1 {
      assert ListingUrl(p)[7..] == Show(p);
    }
    if q > 1 {
      assert ListingUrl(q)[7..] == Show(q);
    }
    if p > 1 && q > 1 && Show(p) == Show(q) {
      ShowInjective(p, q);
    }
  }

  /** `config.get('limit') and len(all_tenders) >= config['limit']`: 0 and None mean no limit. */
  predicate LimitReached(limit: Option<int>, count: int) {
    limit.Some? && limit.value != 0 && count >= limit.value
  }

  /**
   * The record `_fetch_tender_detail` returns: the parsed detail with `source_url` set to
   * the stub's, after which every stub key the detail lacks, or holds a falsy value
   * under, takes the stub's value.
   */
  function Merge(stub: Stub, detail: Record): Record {
    MergeKeys(detail[SourceUrl := stub[SourceUrl]], stub, stub.Keys)
  }

  /** `d` after the merge loop has visited the stub keys in `done`. */
  function MergeKeys(d: Record, stub: Stub, done: set<Field>): Record
    requires done <= stub.Keys
  {
    map k | k in d.Keys + done :: if k in done && (k !in d || !Truthy(d[k])) then stub[k] else d[k]
  }

  /**
   * What the merge keeps and what it fills in: `source_url` always comes from the stub,
   * a truthy detail value wins, and every other stub value fills the gap; the keys are
   * those of both.
   */
  lemma MergeFields(stub: Stub, detail: Record)
    ensures Merge(stub, detail).Keys == detail.Keys + stub.Keys
    ensures Merge(stub, detail)[SourceUrl] == stub[SourceUrl]
    ensures forall k :: k in detail && k != SourceUrl && Truthy(detail[k]) ==>
              Merge(stub, detail)[k] == detail[k]
    ensures forall k :: k in stub && (k !in detail || !Truthy(detail[k])) ==>
              Merge(stub, detail)[k] == stub[k]
    ensures forall k :: k in detail && k !in stub ==> Merge(stub, detail)[k] == detail[k]
  {
  }

  /** Merging the same stub in again changes nothing. */
  lemma MergeIdempotent(stub: Stub, detail: Record)
    ensures Merge(stub, Merge(stub, detail)) == Merge(stub, detail)
  {
    var m := Merge(stub, detail);
    MergeFields(stub, detail);
    MergeFields(stub, m);
    forall k | k in m ensures Merge(stub, m)[k] == m[k] {
      if k in stub && !Truthy(m[k]) && k != SourceUrl {
        assert k !in detail || !Truthy(detail[k]);
      }
    }
  }

  /** What one detail fetch yields, and the tracker calls it makes, in order. */
  datatype Fetched = Fetched(record: Option<Record>, calls: seq<Call>)

  /** The records collected from one listing page; `stopped` when the limit ended the crawl. */
  datatype Batch = Batch(tenders: seq<Record>, calls: seq<Call>, handled: nat, stopped: bool)

  /** What one pass of the page loop yields; `more` when the loop goes on to the next page. */
  datatype Step = Step(tenders: seq<Record>, calls: seq<Call>, handled: nat, more: bool)

  /** The records of a whole crawl, its tracker calls, and the listing pages it requested. */
  datatype Crawl = Crawl(tenders: seq<Record>, calls: seq<Call>, pages: seq<int>)

  /** The configuration and the collaborators of one scraper. */
  datatype Pipeline = Pipeline(
    config: Config,
    fetch: Value -> Option<Html>,
    parseListing: Html -> seq<Stub>,
    hasNext: Html -> bool,
    parseDetail: (Html, Value) -> Option<Record>,
    clean: Record -> Option<Record>,
    saveBatch: seq<Record> -> SaveStats)
  {
    /** `config.get('max_pages', 10)` */
    function MaxPages(): int {
      config.maxPages.GetOr(10)
    }

    /** `_fetch_tender_detail(stub)` */
    function FetchDetail(stub: Stub): Fetched {
      match fetch(stub[SourceUrl])
      case None => Fetched(None, [RecordError("detail_fetch_error")])
      case Some(html) =>
        match parseDetail(html, stub[TenderId])
        case None => Fetched(None, [IncrementPages(1), RecordError("parse_error")])
        case Some(detail) => Fetched(Some(Merge(stub, detail)), [IncrementPages(1), IncrementParsed(1)])
    }

    /**
     * The loop over the stubs of one listing page, from the records gathered so far:
     * each stub's detail is fetched and, when it parsed, appended; after every stub the
     * limit is checked, and reaching it ends the crawl.
     */
    function ProcessStubs(stubs: seq<Stub>, acc: seq<Record>): Batch
      decreases |stubs|
    {
      if stubs == [] then Batch(acc, [], 0, false)
      else
        var b := ProcessStubs(stubs[..|stubs| - 1], acc);
        if b.stopped then b
        else
          var f := FetchDetail(stubs[|stubs| - 1]);
          var tenders := if f.record.Some? then b.tenders + [f.record.value] else b.tenders;
          Batch(tenders, b.calls + f.calls, b.handled + 1, LimitReached(config.limit, |tenders|))
    }

    /**
     * One pass of the `while page <= max_pages` loop: a failed listing fetch records a
     * `fetch_error` and ends the crawl; otherwise the page counts as visited, and the
     * crawl ends on a page without stubs, on reaching the limit, or when the page has no
     * next page.
     */
    function PageStep(page: int, acc: seq<Record>): Step {
      match fetch(Str(ListingUrl(page)))
      case None => Step(acc, [RecordError("fetch_error")], 0, false)
      case Some(html) =>
        var stubs := parseListing(html);
        if stubs == [] then Step(acc, [IncrementPages(1)], 0, false)
        else
          var b := ProcessStubs(stubs, acc);
          Step(b.tenders, [IncrementPages(1)] + b.calls, b.handled, !b.stopped && hasNext(html))
    }

    /** The listing of `page` was fetched, held stubs and has a next page. */
    predicate LeadsOn(page: int) {
      var response := fetch(Str(ListingUrl(page)));
      response.Some? && parseListing(response.value) != [] && hasNext(response.value)
    }

    /** `_scrape_tenders` from listing page `page` on, with `acc` already collected. */
    function CrawlFrom(page: int, acc: seq<Record>): Crawl
      decreases if page <= MaxPages() then MaxPages() - page + 1 else 0
    {
      if page > MaxPages() then Crawl(acc, [], [])
      else
        var step := PageStep(page, acc);
        if !step.more then Crawl(step.tenders, step.calls, [page])
        else
          var rest := CrawlFrom(page + 1, step.tenders);
          Crawl(rest.tenders, step.calls + rest.calls, [page] + rest.pages)
    }

    /** `_scrape_tenders()` */
    function Scrape(): Crawl {
      CrawlFrom(1, [])
    }

    /** The records `_clean_tenders` keeps: the cleaned form of each accepted tender, in order. */
    function CleanAll(tenders: seq<Record>): seq<Record>
      decreases |tenders|
    {
      if tenders == [] then []
      else
        var kept := CleanAll(tenders[..|tenders| - 1]);
        match clean(tenders[|tenders| - 1])
        case Some(c) => kept + [c]
        case None => kept
    }

    /** The tracker calls of `_clean_tenders`: one `validation_error` per rejected tender. */
    function CleanCalls(tenders: seq<Record>): seq<Call>
      decreases |tenders|
    {
      if tenders == [] then []
      else
        var calls := CleanCalls(tenders[..|tenders| - 1]);
        if clean(tenders[|tenders| - 1]).Some? then calls else calls + [RecordError("validation_error")]
    }

    /** `_save_tenders(batch)`'s one tracker call. */
    function SaveCall(batch: seq<Record>): Call {
      var stats := saveBatch(batch);
      UpdateStats(map["saved" := stats.saved, "deduped" := stats.deduped, "failed" := stats.failed])
    }

    /** The batch `run()` hands to storage: nothing when the crawl or the cleaning came out empty. */
    function SavedBatch(): seq<Record> {
      var tenders := Scrape().tenders;
      if tenders == [] then [] else CleanAll(tenders)
    }

    /** Every tracker call of `run()` between `start_run` and `complete_run`, in order. */
    function RunCalls(): seq<Call> {
      var crawl := Scrape();
      if crawl.tenders == [] then crawl.calls
      else
        var cleaned := CleanAll(crawl.tenders);
        if cleaned == [] then crawl.calls + CleanCalls(crawl.tenders)
        else crawl.calls + CleanCalls(crawl.tenders) + [SaveCall(cleaned)]
    }
  }

  /** Once the limit has stopped a page's loop, later stubs change nothing. */
  lemma {:induction false} StoppedStays(p: Pipeline, stubs: seq<Stub>, acc: seq<Record>, n: nat)
    requires n <= |stubs|
    requires p.ProcessStubs(stubs[..n], acc).stopped
    ensures p.ProcessStubs(stubs, acc) == p.ProcessStubs(stubs[..n], acc)
    decreases |stubs| - n
  {
    if n < |stubs| {
      var longer := stubs[..n + 1];
      assert longer[..|longer| - 1] == stubs[..n];
      StoppedStays(p, stubs, acc, n + 1);
    } else {
      assert stubs[..n] == stubs;
    }
  }

  /**
   * A page's loop stops early only on reaching the limit: after at least one stub it has
   * stopped exactly when the records gathered reach the limit, and it never stops when
   * there is no limit (`None` or 0).
   */
  lemma {:induction false} BatchStopsAtLimit(p: Pipeline, stubs: seq<Stub>, acc: seq<Record>)
    ensures var b := p.ProcessStubs(stubs, acc);
      && (b.stopped ==> LimitReached(p.config.limit, |b.tenders|))
      && (stubs != [] ==> (b.stopped <==> LimitReached(p.config.limit, |b.tenders|)))
      && (p.config.limit.None? || p.config.limit.value == 0 ==> !b.stopped)
    decreases |stubs|
  {
    if stubs != [] {
      BatchStopsAtLimit(p, stubs[..|stubs| - 1], acc);
    }
  }

  /**
   * The bookkeeping of one page's loop: the records gathered so far stay in front, and
   * each handled stub either adds one record and one parsed tender, or records one
   * failure; each handled stub counts either one visited page or one
   * `detail_fetch_error`; the loop handles every stub unless the limit stopped it.
   */
  lemma {:induction false} BatchAccounting(p: Pipeline, stubs: seq<Stub>, acc: seq<Record>, s: RunStats)
    ensures var b := p.ProcessStubs(stubs, acc);
      && |acc| <= |b.tenders| && b.tenders[..|acc|] == acc
      && b.handled <= |stubs| && (!b.stopped ==> b.handled == |stubs|)
      && Replay(s, b.calls).tendersParsed == s.tendersParsed + |b.tenders| - |acc|
      && Replay(s, b.calls).failures == s.failures + b.handled - (|b.tenders| - |acc|)
      && Replay(s, b.calls).pagesVisited - s.pagesVisited
         + Replay(s, b.calls).errorSummary["detail_fetch_error"] - s.errorSummary["detail_fetch_error"] == b.handled
      && Replay(s, b.calls).errorSummary["fetch_error"] == s.errorSummary["fetch_error"]
    decreases |stubs|
  {
    if stubs != [] {
      var b := p.ProcessStubs(stubs[..|stubs| - 1], acc);
      BatchAccounting(p, stubs[..|stubs| - 1], acc, s);
      if !b.stopped {
        var f := p.FetchDetail(stubs[|stubs| - 1]);
        var t := Replay(s, b.calls);
        ReplayAppend(s, b.calls, f.calls);
        FetchAccounting(p, stubs[|stubs| - 1], t);
        if f.record.Some? {
          assert (b.tenders + [f.record.value])[..|acc|] == b.tenders[..|acc|];
        }
      }
    }
  }

  /**
   * One stub: a fetched record counts as parsed; otherwise exactly one failure is
   * recorded, a `detail_fetch_error` when the page could not be fetched and a
   * `parse_error` when it could; a fetched page counts as one visited page.
   */
  lemma FetchAccounting(p: Pipeline, stub: Stub, s: RunStats)
    ensures var f := p.FetchDetail(stub);
      && Replay(s, f.calls).tendersParsed == s.tendersParsed + (if f.record.Some? then 1 else 0)
      && Replay(s, f.calls).failures == s.failures + (if f.record.Some? then 0 else 1)
      && Replay(s, f.calls).pagesVisited == s.pagesVisited + (if p.fetch(stub[SourceUrl]).Some? then 1 else 0)
      && Replay(s, f.calls).errorSummary["detail_fetch_error"]
           == s.errorSummary["detail_fetch_error"] + (if p.fetch(stub[SourceUrl]).None? then 1 else 0)
      && Replay(s, f.calls).errorSummary["parse_error"]
           == s.errorSummary["parse_error"] + (if p.fetch(stub[SourceUrl]).Some? && f.record.None? then 1 else 0)
      && Replay(s, f.calls).errorSummary["fetch_error"] == s.errorSummary["fetch_error"]
  {
    var f := p.FetchDetail(stub);
    if |f.calls| == 1 {
      ReplayOne(s, f.calls[0]);
    } else {
      ReplayTwo(s, f.calls[0], f.calls[1]);
    }
  }

  /** Every merged record keeps the stub's `source_url`, so `if tender_detail:` always holds. */
  lemma FetchedRecordsKeepUrl(p: Pipeline, stub: Stub)
    requires p.FetchDetail(stub).record.Some?
    ensures SourceUrl in p.FetchDetail(stub).record.value
    ensures p.FetchDetail(stub).record.value[SourceUrl] == stub[SourceUrl]
  {
    var html := p.fetch(stub[SourceUrl]).value;
    MergeFields(stub, p.parseDetail(html, stub[TenderId]).value);
  }

  /** With a positive limit, a page's loop never gathers more records than the limit. */
  lemma {:induction false} BatchWithinLimit(p: Pipeline, stubs: seq<Stub>, acc: seq<Record>)
    requires p.config.limit.Some? && p.config.limit.value > 0 && |acc| < p.config.limit.value
    ensures var b := p.ProcessStubs(stubs, acc);
      |b.tenders| <= p.config.limit.value && (!b.stopped ==> |b.tenders| < p.config.limit.value)
    decreases |stubs|
  {
    if stubs != [] {
      BatchWithinLimit(p, stubs[..|stubs| - 1], acc);
    }
  }

  /** ... nor does the crawl. */
  lemma {:induction false} CrawlWithinLimit(p: Pipeline, page: int, acc: seq<Record>)
    requires p.config.limit.Some? && p.config.limit.value > 0 && |acc| < p.config.limit.value
    ensures |p.CrawlFrom(page, acc).tenders| <= p.config.limit.value
    decreases if page <= p.MaxPages() then p.MaxPages() - page + 1 else 0
  {
    if page <= p.MaxPages() && p.fetch(Str(ListingUrl(page))).Some? {
      var html := p.fetch(Str(ListingUrl(page))).value;
      var stubs := p.parseListing(html);
      if stubs != [] {
        BatchWithinLimit(p, stubs, acc);
        var step := p.PageStep(page, acc);
        if step.more {
          CrawlWithinLimit(p, page + 1, step.tenders);
        }
      }
    }
  }

  /**
   * The listing pages requested are `page`, `page + 1`, ... in order, none beyond
   * `max_pages`; every page but the last was fetched, held stubs and had a next link,
   * so a fetch failure, a page without stubs or one without a next link ends the crawl.
   */
  lemma {:induction false} CrawlPages(p: Pipeline, page: int, acc: seq<Record>)
    ensures var c := p.CrawlFrom(page, acc);
      && (forall i :: 0 <= i < |c.pages| ==> c.pages[i] == page + i && c.pages[i] <= p.MaxPages())
      && (page <= p.MaxPages() <==> c.pages != [])
      && (forall i :: 0 <= i < |c.pages| - 1 ==> p.LeadsOn(c.pages[i]))
    decreases if page <= p.MaxPages() then p.MaxPages() - page + 1 else 0
  {
    var c := p.CrawlFrom(page, acc);
    if page <= p.MaxPages() {
      var step := p.PageStep(page, acc);
      if step.more {
        var rest := p.CrawlFrom(page + 1, step.tenders);
        assert c.pages == [page] + rest.pages;
        CrawlPages(p, page + 1, step.tenders);
        PageGoesOn(p, page, acc);
        forall i | 0 <= i < |c.pages|
          ensures c.pages[i] == page + i && c.pages[i] <= p.MaxPages()
          ensures i < |c.pages| - 1 ==> p.LeadsOn(c.pages[i])
        {
          if i > 0 {
            assert c.pages[i] == rest.pages[i - 1];
          }
        }
      } else {
        assert c.pages == [page];
      }
    }
  }

  /**
   * The crawl's bookkeeping: every collected record was counted as parsed, and at most
   * one listing fetch failed.
   */
  lemma {:induction false} CrawlAccounting(p: Pipeline, page: int, acc: seq<Record>, s: RunStats)
    ensures var c := p.CrawlFrom(page, acc);
      && |acc| <= |c.tenders| && c.tenders[..|acc|] == acc
      && Replay(s, c.calls).tendersParsed == s.tendersParsed + |c.tenders| - |acc|
      && Replay(s, c.calls).errorSummary["fetch_error"] <= s.errorSummary["fetch_error"] + 1
    decreases if page <= p.MaxPages() then p.MaxPages() - page + 1 else 0
  {
    if page <= p.MaxPages() {
      var step := p.PageStep(page, acc);
      PageAccounting(p, page, acc, s);
      if step.more {
        var rest := p.CrawlFrom(page + 1, step.tenders);
        CrawlAccounting(p, page + 1, step.tenders, Replay(s, step.calls));
        ReplayAppend(s, step.calls, rest.calls);
        assert rest.tenders[..|acc|] == rest.tenders[..|step.tenders|][..|acc|];
      }
    }
  }

  /**
   * Sequence concatenation regroups. Stated apart so that the crawl loop of
   * `ScrapeTenders` sees this one equation and not the sequence axioms behind it.
   */
  lemma AppendAssoc<T>(a: seq<T>, b: seq<T>, c: seq<T>)
    ensures a + (b + c) == (a + b) + c
  {
  }

  /** The crawl from a page up to `max_pages` is that page's pass, then the rest when it goes on. */
  lemma CrawlStep(p: Pipeline, page: int, acc: seq<Record>)
    requires page <= p.MaxPages()
    ensures var step := p.PageStep(page, acc);
      && (!step.more ==> p.CrawlFrom(page, acc).tenders == step.tenders
                          && p.CrawlFrom(page, acc).calls == step.calls)
      && (step.more ==> p.CrawlFrom(page, acc).tenders == p.CrawlFrom(page + 1, step.tenders).tenders
                         && p.CrawlFrom(page, acc).calls == step.calls + p.CrawlFrom(page + 1, step.tenders).calls)
  {
  }

  /**
   * One pass of the page loop: the records gathered so far stay in front, each new one
   * was counted as parsed, a `fetch_error` is recorded exactly when the listing fetch
   * fails, every handled stub that gave no record is one failure (an empty listing
   * records none), each successful fetch counts one page and each failed detail fetch
   * one `detail_fetch_error`, and the loop goes on only after a listing that leads on.
   */
  lemma PageAccounting(p: Pipeline, page: int, acc: seq<Record>, s: RunStats)
    ensures var step := p.PageStep(page, acc);
      && |acc| <= |step.tenders| && step.tenders[..|acc|] == acc
      && Replay(s, step.calls).tendersParsed == s.tendersParsed + |step.tenders| - |acc|
      && Replay(s, step.calls).errorSummary["fetch_error"]
           == s.errorSummary["fetch_error"] + (if p.fetch(Str(ListingUrl(page))).None? then 1 else 0)
      && Replay(s, step.calls).failures
           == s.failures + (if p.fetch(Str(ListingUrl(page))).None? then 1 else 0) + step.handled - (|step.tenders| - |acc|)
      && Replay(s, step.calls).pagesVisited - s.pagesVisited
         + Replay(s, step.calls).errorSummary["detail_fetch_error"] - s.errorSummary["detail_fetch_error"]
           == (if p.fetch(Str(ListingUrl(page))).Some? then 1 else 0) + step.handled
      && (step.more ==> p.LeadsOn(page))
  {
    match p.fetch(Str(ListingUrl(page)))
    case None =>
      ReplayOne(s, RecordError("fetch_error"));
    case Some(html) =>
      var stubs := p.parseListing(html);
      ReplayOne(s, IncrementPages(1));
      if stubs != [] {
        var b := p.ProcessStubs(stubs, acc);
        var s1 := Apply(s, IncrementPages(1));
        BatchAccounting(p, stubs, acc, s1);
        ReplayAppend(s, [IncrementPages(1)], b.calls);
      }
  }

  /**
   * The page loop goes on after a page exactly when that page leads on and its stubs did
   * not reach the limit; without a limit, exactly when it leads on.
   */
  lemma PageGoesOn(p: Pipeline, page: int, acc: seq<Record>)
    ensures p.PageStep(page, acc).more <==>
      p.LeadsOn(page) && !p.ProcessStubs(p.parseListing(p.fetch(Str(ListingUrl(page))).value), acc).stopped
    ensures p.config.limit.None? || p.config.limit.value == 0 ==> (p.PageStep(page, acc).more <==> p.LeadsOn(page))
  {
    var response := p.fetch(Str(ListingUrl(page)));
    if response.Some? {
      BatchStopsAtLimit(p, p.parseListing(response.value), acc);
    }
  }

  /**
   * Where the crawl ends: its last page is `max_pages`, or a page that does not lead on,
   * or the records gathered have reached the limit. So without a limit the crawl goes on
   * through every page that leads on, up to `max_pages`.
   */
  lemma {:induction false} CrawlEnds(p: Pipeline, page: int, acc: seq<Record>)
    ensures var c := p.CrawlFrom(page, acc);
      c.pages != [] ==>
        var last := c.pages[|c.pages| - 1];
        last == p.MaxPages() || !p.LeadsOn(last) || LimitReached(p.config.limit, |c.tenders|)
    decreases if page <= p.MaxPages() then p.MaxPages() - page + 1 else 0
  {
    if page <= p.MaxPages() {
      var c := p.CrawlFrom(page, acc);
      var step := p.PageStep(page, acc);
      if step.more {
        var rest := p.CrawlFrom(page + 1, step.tenders);
        assert c.pages == [page] + rest.pages && c.tenders == rest.tenders;
        CrawlEnds(p, page + 1, step.tenders);
        if rest.pages != [] {
          assert c.pages[|c.pages| - 1] == rest.pages[|rest.pages| - 1];
        }
      } else {
        assert c.pages == [page] && c.tenders == step.tenders;
        PageGoesOn(p, page, acc);
        if p.LeadsOn(page) {
          LeadingStep(p, page, acc);
        }
      }
    }
  }

  /** On a page that leads on, the page's records are those of its stub loop. */
  lemma LeadingStep(p: Pipeline, page: int, acc: seq<Record>)
    requires p.LeadsOn(page)
    ensures var b := p.ProcessStubs(p.parseListing(p.fetch(Str(ListingUrl(page))).value), acc);
      p.PageStep(page, acc).tenders == b.tenders && (b.stopped ==> LimitReached(p.config.limit, |b.tenders|))
  {
    BatchStopsAtLimit(p, p.parseListing(p.fetch(Str(ListingUrl(page))).value), acc);
  }

  /**
   * `_clean_tenders`: every tender is either kept, cleaned and canonical, or counted as
   * one `validation_error`; the order of the kept ones is the input order.
   */
  lemma {:induction false} CleanAccounting(p: Pipeline, tenders: seq<Record>, s: RunStats)
    ensures |p.CleanAll(tenders)| + |p.CleanCalls(tenders)| == |tenders|
    ensures Replay(s, p.CleanCalls(tenders)).failures == s.failures + |tenders| - |p.CleanAll(tenders)|
    ensures Replay(s, p.CleanCalls(tenders)).errorSummary
              == s.errorSummary + multiset{}["validation_error" := |tenders| - |p.CleanAll(tenders)|]
    decreases |tenders|
  {
    if tenders != [] {
      var init := tenders[..|tenders| - 1];
      CleanAccounting(p, init, s);
      if p.clean(tenders[|tenders| - 1]).None? {
        ReplayAppend(s, p.CleanCalls(init), [RecordError("validation_error")]);
        ReplayOne(Replay(s, p.CleanCalls(init)), RecordError("validation_error"));
      }
    }
  }

  /** The pipeline cleans with the cleaner of this model. */
  ghost predicate UsesDataCleaner(p: Pipeline) {
    forall t {:trigger CleanTender(t)} :: p.clean(t) == CleanTender(t)
  }

  /** Every record of `ts` is in the cleaner's canonical form. */
  predicate AllCanonical(ts: seq<Record>) {
    forall i :: 0 <= i < |ts| ==> IsCanonical(ts[i])
  }

  /** Every record `_clean_tenders` keeps is in the cleaner's canonical form. */
  lemma {:induction false} CleanAllCanonical(p: Pipeline, tenders: seq<Record>)
    requires UsesDataCleaner(p)
    ensures AllCanonical(p.CleanAll(tenders))
    decreases |tenders|
  {
    if tenders != [] {
      var init := tenders[..|tenders| - 1];
      var last := tenders[|tenders| - 1];
      CleanAllCanonical(p, init);
      CleanedIsCanonical(p, last);
      if p.clean(last).Some? {
        AppendCanonical(p.CleanAll(init), p.clean(last).value);
      }
    }
  }

  lemma CleanedIsCanonical(p: Pipeline, t: Record)
    requires UsesDataCleaner(p)
    ensures p.clean(t).Some? ==> IsCanonical(p.clean(t).value)
  {
    assert p.clean(t) == CleanTender(t);
  }

  lemma AppendCanonical(ts: seq<Record>, c: Record)
    requires AllCanonical(ts) && IsCanonical(c)
    ensures AllCanonical(ts + [c])
  {
  }

  /** Storage receives exactly the cleaned crawl, duplicates and all: `run()` never deduplicates. */
  lemma SavedBatchIsCleanedCrawl(p: Pipeline)
    requires UsesDataCleaner(p)
    ensures p.SavedBatch() == p.CleanAll(p.Scrape().tenders)
    ensures AllCanonical(p.SavedBatch())
    ensures |p.SavedBatch()| <= |p.Scrape().tenders|
  {
    CleanAccounting(p, p.Scrape().tenders, Initial);
    CleanAllCanonical(p, p.Scrape().tenders);
    if p.Scrape().tenders == [] {
      assert p.CleanAll([]) == [];
    }
  }

  /** The orchestrator: its collaborators and its run tracker. */
  class TenderScraper {
    const pipeline: Pipeline
    const tracker: RunTracker

    constructor(pipeline: Pipeline)
      ensures this.pipeline == pipeline
      ensures fresh(tracker) && tracker.Summary() == Initial
    {
      this.pipeline := pipeline;
      tracker := new RunTracker();
    }

    /** The merge loop of `_fetch_tender_detail`, over the stub's keys in any order. */
    static method MergeDetail(stub: Stub, detail: Record) returns (merged: Record)
      ensures merged == Merge(stub, detail)
    {
      merged := detail[SourceUrl := stub[SourceUrl]];
      ghost var start := merged;
      var todo := stub.Keys;
      while todo != {}
        invariant todo <= stub.Keys
        invariant merged.Keys == start.Keys + (stub.Keys - todo)
        invariant forall j :: j in merged ==>
          merged[j] == if j !in todo && j in stub && (j !in start || !Truthy(start[j])) then stub[j] else start[j]
        decreases |todo|
      {
        var k :| k in todo;
        if k !in merged || !Truthy(merged[k]) {
          merged := merged[k := stub[k]];
        }
        todo := todo - {k};
      }
      assert merged == MergeKeys(start, stub, stub.Keys);
    }

    method FetchTenderDetail(stub: Stub) returns (detail: Option<Record>)
      modifies tracker
      ensures detail == pipeline.FetchDetail(stub).record
      ensures tracker.Summary() == Replay(old(tracker.Summary()), pipeline.FetchDetail(stub).calls)
    {
      var response := pipeline.fetch(stub[SourceUrl]);
      if response.None? {
        tracker.RecordError("detail_fetch_error");
        ReplayOne(old(tracker.Summary()), RecordError("detail_fetch_error"));
        return None;
      }
      tracker.IncrementPages(1);
      var parsed := pipeline.parseDetail(response.value, stub[TenderId]);
      if parsed.None? {
        tracker.RecordError("parse_error");
        ReplayTwo(old(tracker.Summary()), IncrementPages(1), RecordError("parse_error"));
        return None;
      }
      var merged := MergeDetail(stub, parsed.value);
      tracker.IncrementParsed(1);
      ReplayTwo(old(tracker.Summary()), IncrementPages(1), IncrementParsed(1));
      return Some(merged);
    }

    /** The `for tender_summary in tender_list` loop of one listing page. */
    method ScrapeListing(stubs: seq<Stub>, acc: seq<Record>) returns (tenders: seq<Record>, stopped: bool)
      modifies tracker
      ensures tenders == pipeline.ProcessStubs(stubs, acc).tenders
      ensures stopped == pipeline.ProcessStubs(stubs, acc).stopped
      ensures tracker.Summary() == Replay(old(tracker.Summary()), pipeline.ProcessStubs(stubs, acc).calls)
    {
      tenders := acc;
      for i := 0 to |stubs|
        invariant pipeline.ProcessStubs(stubs[..i], acc).tenders == tenders
        invariant !pipeline.ProcessStubs(stubs[..i], acc).stopped
        invariant tracker.Summary() == Replay(old(tracker.Summary()), pipeline.ProcessStubs(stubs[..i], acc).calls)
      {
        ghost var before := tracker.Summary();
        ghost var b := pipeline.ProcessStubs(stubs[..i], acc);
        var detail := FetchTenderDetail(stubs[i]);
        if detail.Some? {
          tenders := tenders + [detail.value];
        }
        assert stubs[..i + 1][..i] == stubs[..i];
        ReplayAppend(old(tracker.Summary()), b.calls, pipeline.FetchDetail(stubs[i]).calls);
        if LimitReached(pipeline.config.limit, |tenders|) {
          StoppedStays(pipeline, stubs, acc, i + 1);
          return tenders, true;
        }
      }
      assert stubs[..|stubs|] == stubs;
      stopped := false;
    }

    /** The body of the `while page <= max_pages` loop, for page `page`. */
    method ScrapePage(page: int, acc: seq<Record>) returns (tenders: seq<Record>, more: bool, ghost calls: seq<Call>)
      requires page <= pipeline.MaxPages()
      modifies tracker
      ensures tracker.Summary() == Replay(old(tracker.Summary()), calls)
      ensures !more ==> pipeline.CrawlFrom(page, acc).tenders == tenders
      ensures !more ==> pipeline.CrawlFrom(page, acc).calls == calls
      ensures more ==> pipeline.CrawlFrom(page, acc).tenders == pipeline.CrawlFrom(page + 1, tenders).tenders
      ensures more ==> pipeline.CrawlFrom(page, acc).calls == calls + pipeline.CrawlFrom(page + 1, tenders).calls
    {
      CrawlStep(pipeline, page, acc);
      calls := pipeline.PageStep(page, acc).calls;
      var response := pipeline.fetch(Str(ListingUrl(page)));
      if response.None? {
        tracker.RecordError("fetch_error");
        ReplayOne(old(tracker.Summary()), RecordError("fetch_error"));
        return acc, false, calls;
      }
      tracker.IncrementPages(1);
      ReplayOne(old(tracker.Summary()), IncrementPages(1));
      var stubs := pipeline.parseListing(response.value);
      if stubs == [] {
        return acc, false, calls;
      }
      ghost var visited := tracker.Summary();
      var stopped;
      tenders, stopped := ScrapeListing(stubs, acc);
      ReplayAppend(old(tracker.Summary()), [IncrementPages(1)], pipeline.ProcessStubs(stubs, acc).calls);
      more := !stopped && pipeline.hasNext(response.value);
    }


    method ScrapeTenders() returns (all: seq<Record>)
      modifies tracker
      ensures all == pipeline.Scrape().tenders
      ensures tracker.Summary() == Replay(old(tracker.Summary()), pipeline.Scrape().calls)
    {
      all := [];
      var page := 1;
      var maxPages := pipeline.MaxPages();
      ghost var crawl := pipeline.Scrape();
      ghost var done: seq<Call> := [];
      while page <= maxPages
        invariant crawl.tenders == pipeline.CrawlFrom(page, all).tenders
        invariant crawl.calls == done + pipeline.CrawlFrom(page, all).calls
        invariant tracker.Summary() == Replay(old(tracker.Summary()), done)
        decreases maxPages - page
      {
        var more;
        ghost var calls;
        all, more, calls := ScrapePage(page, all);
        ReplayAppend(old(tracker.Summary()), done, calls);
        if !more {
          done := done + calls;
          return;
        }
        AppendAssoc(done, calls, pipeline.CrawlFrom(page + 1, all).calls);
        done := done + calls;
        page := page + 1;
      }
      assert done + [] == done;
    }

    method CleanTenders(tenders: seq<Record>) returns (cleaned: seq<Record>)
      modifies tracker
      ensures cleaned == pipeline.CleanAll(tenders)
      ensures tracker.Summary() == Replay(old(tracker.Summary()), pipeline.CleanCalls(tenders))
    {
      cleaned := [];
      for i := 0 to |tenders|
        invariant cleaned == pipeline.CleanAll(tenders[..i])
        invariant tracker.Summary() == Replay(old(tracker.Summary()), pipeline.CleanCalls(tenders[..i]))
      {
        assert tenders[..i + 1][..i] == tenders[..i];
        var c := pipeline.clean(tenders[i]);
        if c.Some? {
          cleaned := cleaned + [c.value];
        } else {
          ghost var calls := pipeline.CleanCalls(tenders[..i]);
          tracker.RecordError("validation_error");
          ReplayAppend(old(tracker.Summary()), calls, [RecordError("validation_error")]);
          ReplayOne(Replay(old(tracker.Summary()), calls), RecordError("validation_error"));
        }
      }
      assert tenders[..|tenders|] == tenders;
    }

    method SaveTenders(batch: seq<Record>)
      modifies tracker
      ensures tracker.Summary() == Apply(old(tracker.Summary()), pipeline.SaveCall(batch))
    {
      var stats := pipeline.saveBatch(batch);
      tracker.UpdateStats(map["saved" := stats.saved, "deduped" := stats.deduped, "failed" := stats.failed]);
    }

    /** `run()` between `start_run` and `complete_run`; returns the batch handed to storage. */
    method Run() returns (saved: seq<Record>)
      modifies tracker
      ensures saved == pipeline.SavedBatch()
      ensures tracker.Summary() == Replay(old(tracker.Summary()), pipeline.RunCalls())
    {
      var tenders := ScrapeTenders();
      if tenders == [] {
        return [];
      }
      ghost var afterCrawl := tracker.Summary();
      var cleaned := CleanTenders(tenders);
      ReplayAppend(old(tracker.Summary()), pipeline.Scrape().calls, pipeline.CleanCalls(tenders));
      if cleaned == [] {
        return [];
      }
      ghost var afterClean := tracker.Summary();
      SaveTenders(cleaned);
      ReplayAppend(old(tracker.Summary()), pipeline.Scrape().calls + pipeline.CleanCalls(tenders), [pipeline.SaveCall(cleaned)]);
      ReplayOne(afterClean, pipeline.SaveCall(cleaned));
      saved := cleaned;
    }
  }

  lemma ReplayTwo(s: RunStats, a: Call, b: Call)
    ensures Replay(s, [a, b]) == Apply(Apply(s, a), b)
  {
    ReplayAppend(s, [a], [b]);
    assert [a] + [b] == [a, b];
    ReplayOne(s, a);
    ReplayOne(Apply(s, a), b);
  }
}
