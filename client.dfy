/**
  MerakiClient (client.go): the configuration object and the operations built
  on the shared retrying executor. The network, the clock and cancellation
  come in as a World; each operation also returns what it did to the world
  (the transport calls and waits, or the pages requested).
 */
module Client {

  import opened Results
  import opened Json
  import opened Http
  import opened RetryPolicy
  import opened Requests
  import opened Links
  import opened Pages

  class MerakiClient {
    var apiKey: string
    var baseUrl: string
    var maxRetries: int

    /** NewClient: the credential, the base address and the default budget of 3 retries. */
    constructor (apiKey: string, baseUrl: string)
      ensures this.apiKey == apiKey && this.baseUrl == baseUrl && maxRetries == 3
    {
      this.apiKey := apiKey;
      this.baseUrl := baseUrl;
      maxRetries := 3;
    }

    /** SetMaxRetries: replaces the retry budget, any int (a negative one disables sending). */
    method SetMaxRetries(maxRetries: int)
      modifies this
      ensures this.maxRetries == maxRetries
      ensures apiKey == old(apiKey) && baseUrl == old(baseUrl)
    {
      this.maxRetries := maxRetries;
    }

    /**
      doRequestWithRetry: up to maxRetries + 1 attempts; a transport error or
      a final status ends the loop at once, a retried response is closed,
      and a cancelled backoff wait aborts. The run is exactly the one Retry
      describes (see the lemmas of module RetryPolicy for what that means).
     */
    method DoRequestWithRetry(w: World, req: Request) returns (run: RetryRun)
      ensures run == Retry(maxRetries, w, req)
    {
      var last: Exchange := NothingSent;
      var sends: nat := 0;
      var waits: seq<int> := [];
      var attempt: nat := 0;
      while attempt <= maxRetries
        invariant attempt == 0 || attempt <= maxRetries + 1
        invariant Retry(maxRetries, w, req) == After(sends, waits, RetryFrom(maxRetries, w, req, attempt, last))
        decreases maxRetries + 1 - attempt
      {
        var outcome := w.send(req, attempt);
        sends := sends + 1;
        match outcome
        case Failed(e) =>
          assert RetryFrom(maxRetries, w, req, attempt, last) == RetryRun(Aborted(TransportFailure(e)), 1, []);
          return RetryRun(Aborted(TransportFailure(e)), sends, waits);
        case Replied(resp) =>
          if resp.status < 300 {
            assert RetryFrom(maxRetries, w, req, attempt, last) == RetryRun(Delivered(resp, false), 1, []);
            return RetryRun(Delivered(resp, false), sends, waits);
          }
          if resp.status >= 400 && resp.status < 500 && resp.status != 429 {
            assert RetryFrom(maxRetries, w, req, attempt, last) == RetryRun(Delivered(resp, false), 1, []);
            return RetryRun(Delivered(resp, false), sends, waits);
          }
          if attempt < maxRetries {
            var totalWait := BackoffMs(attempt, w.clock(req, attempt));
            if w.cancelled(req, attempt) {
              assert RetryFrom(maxRetries, w, req, attempt, last) == RetryRun(Aborted(Cancelled), 1, []);
              return RetryRun(Aborted(Cancelled), sends, waits);
            }
            assert RetryFrom(maxRetries, w, req, attempt, last)
              == After(1, [totalWait], RetryFrom(maxRetries, w, req, attempt + 1, Delivered(resp, true)));
            waits := waits + [totalWait];
          } else {
            assert RetryFrom(maxRetries, w, req, attempt, last)
              == After(1, [], RetryFrom(maxRetries, w, req, attempt + 1, Delivered(resp, true)));
          }
          last := Delivered(resp, true);
        attempt := attempt + 1;
      }
      run := RetryRun(last, sends, waits);
    }

    /**
      CreateSecureConnectSite: POSTs the one-enrollment batch through the
      executor. It fails exactly when no response comes back or the final
      status is 300 or more; an executor error is returned as is.
     */
    method CreateSecureConnectSite(w: World, orgId: string, siteId: string, regionType: string,
                                   regionId: string, regionName: string)
      returns (err: Option<ClientError>, run: RetryRun)
      ensures run == Retry(maxRetries, w, CreateRequest(baseUrl, apiKey, orgId, siteId, regionType, regionId, regionName))
      ensures err.None? <==> run.result.Delivered? && run.result.resp.status < 300
      ensures run.result.Aborted? ==> err == Some(run.result.err)
      ensures run.result.Delivered? && run.result.resp.status >= 300 ==> err == Some(CreateFailed(run.result.resp.status))
      ensures run.result.NothingSent? ==> err == Some(NilResponse)
    {
      var req := CreateRequest(baseUrl, apiKey, orgId, siteId, regionType, regionId, regionName);
      run := DoRequestWithRetry(w, req);
      match run.result
      case Aborted(e) => err := Some(e);
      case NothingSent => err := Some(NilResponse);
      case Delivered(resp, _) =>
        if resp.status >= 300 {
          err := Some(CreateFailed(resp.status));
        } else {
          err := None;
        }
    }

    /**
      DeleteSecureConnectSites: DELETEs with the one-element sites list, and
      fails on the same conditions as create.
     */
    method DeleteSecureConnectSites(w: World, orgId: string, siteId: string)
      returns (err: Option<ClientError>, run: RetryRun)
      ensures run == Retry(maxRetries, w, DeleteRequest(baseUrl, apiKey, orgId, siteId))
      ensures err.None? <==> run.result.Delivered? && run.result.resp.status < 300
      ensures run.result.Aborted? ==> err == Some(run.result.err)
      ensures run.result.Delivered? && run.result.resp.status >= 300 ==> err == Some(DeleteFailed(run.result.resp.status))
      ensures run.result.NothingSent? ==> err == Some(NilResponse)
    {
      var req := DeleteRequest(baseUrl, apiKey, orgId, siteId);
      run := DoRequestWithRetry(w, req);
      match run.result
      case Aborted(e) => err := Some(e);
      case NothingSent => err := Some(NilResponse);
      case Delivered(resp, _) =>
        if resp.status >= 300 {
          err := Some(DeleteFailed(resp.status));
        } else {
          err := None;
        }
    }

    /**
      The body of the listing loop once the executor has answered: read the
      body, require 200, decode it (wrapped shape first, then the bare array),
      then decide from the Link header and the page size whether another page
      follows. It computes ReadPage (see ReadPageMeaning).
     */
    static method ReadResponse(ex: Exchange) returns (step: PageStep)
      ensures step == ReadPage(ex)
    {
      match ex {
        case NothingSent =>
          return PageFailed(NilResponse);
        case Aborted(e) =>
          return PageFailed(SendingRequest(e));
        case Delivered(resp, closed) =>
          if (closed && !resp.body.Empty?) || resp.body.Unreadable? {
            return PageFailed(ReadingResponse);
          }
          if resp.status != 200 {
            return PageFailed(BadResponse(resp.status, resp.body));
          }
          var currentSites: seq<Record>;
          var wrapped := if resp.body.Document? then DecodeWrapped(resp.body.value) else None;
          if wrapped.Some? {
            currentSites := wrapped.value;
          } else {
            var direct := if resp.body.Document? then DecodeBare(resp.body.value) else None;
            if direct.Some? {
              currentSites := direct.value;
            } else {
              return PageFailed(UnexpectedFormat);
            }
          }
          if resp.link == "" {
            return LastPage(currentSites);
          }
          var nextUrl := ScanNextLink(resp.link);
          if nextUrl == "" || |currentSites| < PerPage {
            return LastPage(currentSites);
          }
          return NextPage(currentSites, nextUrl);
      }
    }

    /** One pass of the listing loop: the retried GET of url, then ReadResponse. */
    method FetchOnePage(w: World, url: string, ghost fetch: string -> PageStep) returns (step: PageStep)
      requires Serves(fetch, maxRetries, w, apiKey)
      ensures step == fetch(url)
    {
      var run := DoRequestWithRetry(w, ListRequest(url, apiKey));
      step := ReadResponse(run.result);
      assert step == FetchPage(maxRetries, w, apiKey, url);
    }

    /**
      GetSecureConnectSites: walks the pages from ?perPage=1000 on, appending
      each page's records, until a page without Link header, without a next
      link, or with fewer than 1000 records (at most maxPages pages). The
      result and the pages requested are those ListFrom describes (see the
      lemmas of module Pages), and the first page requested is the listing
      address of the organization.
     */
    method GetSecureConnectSites(w: World, orgId: string, maxPages: nat)
      returns (sites: Result<seq<Record>, ClientError>, urls: seq<string>)
      ensures Listing(sites, urls) == ListFrom(Fetcher(maxRetries, w, apiKey), ListUrl(baseUrl, orgId), maxPages)
      ensures maxPages > 0 ==> |urls| >= 1 && urls[0] == ListUrl(baseUrl, orgId)
    {
      ghost var fetch := FetcherServes(maxRetries, w, apiKey);
      var url := ListUrl(baseUrl, orgId);
      ghost var first := url;
      var allSites: seq<Record> := [];
      var budget: nat := maxPages;
      urls := [];
      WalkStarts(fetch, first, maxPages);
      while true
        invariant budget <= maxPages
        invariant budget < maxPages ==> |urls| >= 1 && urls[0] == first
        invariant budget == maxPages ==> urls == [] && url == first
        invariant WalkedTo(fetch, first, maxPages, allSites, urls, url, budget)
        decreases budget
      {
        if budget == 0 {
          WalkRunsOutOfBudget(fetch, first, maxPages, allSites, urls, url);
          ServedListing(fetch, maxRetries, w, apiKey, first, maxPages);
          sites := Err(PageBudgetExhausted);
          return;
        }
        var step := FetchOnePage(w, url, fetch);
        match step {
          case PageFailed(e) =>
            WalkFails(fetch, first, maxPages, allSites, urls, url, budget, e);
            ServedListing(fetch, maxRetries, w, apiKey, first, maxPages);
            urls := urls + [url];
            sites := Err(e);
            return;
          case LastPage(currentSites) =>
            WalkEndsAtLastPage(fetch, first, maxPages, allSites, urls, url, budget, currentSites);
            urls := urls + [url];
            allSites := allSites + currentSites;
            break;
          case NextPage(currentSites, nextUrl) =>
            WalkAdvances(fetch, first, maxPages, allSites, urls, url, budget, currentSites, nextUrl);
            urls := urls + [url];
            allSites := allSites + currentSites;
            url := nextUrl;
            budget := budget - 1;
        }
      }
      ServedListing(fetch, maxRetries, w, apiKey, first, maxPages);
      sites := Ok(allSites);
    }
  }
}
