/**
  One page of the site listing (GetSecureConnectSites, client.go): decoding
  the body in the wrapped {"data": [...]} shape or as a bare array, deciding
  whether another page follows, and the listing as a whole.
 */
module Pages {

  import opened Results
  import opened Json
  import opened Http
  import opened RetryPolicy
  import opened Requests
  import opened Links

  /**
    json.Unmarshal of the items of a JSON array into []map[string]interface{}:
    every item must be an object or null (a nil map, which behaves as an
    empty record); any other item makes the whole decoding fail.
   */
  function AsRecords(items: seq<Json>): (r: Option<seq<Record>>)
    ensures r.Some? <==> forall i :: 0 <= i < |items| ==> items[i].JObject? || items[i].JNull?
    ensures r.Some? ==> (|r.value| == |items|
      && forall i :: 0 <= i < |items| ==> r.value[i] == if items[i].JObject? then items[i].fields else map[])
  {
    if |items| == 0 then Some([])
    else
      var head: Option<Record> :=
        match items[0]
        case JObject(f) => Some(f)
        case JNull => Some(map[])
        case _ => None;
      match (head, AsRecords(items[1..]))
      case (Some(h), Some(t)) => Some([h] + t)
      case _ => None
  }

  /** json.Unmarshal into []map[string]interface{}: null gives no records, an array its items. */
  function DecodeBare(v: Json): Option<seq<Record>> {
    match v
    case JNull => Some([])
    case JArray(items) => AsRecords(items)
    case _ => None
  }

  /**
    json.Unmarshal into struct { Data []map[string]interface{} `json:"data"` }:
    null and any object succeed; a "data" member, if present, must decode as
    a list of records. An object without "data" yields no records.
   */
  function DecodeWrapped(v: Json): Option<seq<Record>> {
    match v
    case JNull => Some([])
    case JObject(fields) => if "data" in fields then DecodeBare(fields["data"]) else Some([])
    case _ => None
  }

  /** The records of a page: the wrapped shape first, then the bare array. */
  function DecodePage(v: Json): Option<seq<Record>> {
    match DecodeWrapped(v)
    case Some(records) => Some(records)
    case None => DecodeBare(v)
  }

  /** A JSON value that is null or an array of objects and nulls. */
  predicate RecordList(v: Json) {
    v.JNull? || (v.JArray? && forall i :: 0 <= i < |v.items| ==> v.items[i].JObject? || v.items[i].JNull?)
  }

  /**
    A page body is rejected with the format error exactly when it is neither
    an object (whose "data", if any, is a list of records) nor a list of
    records: a bare string, number or boolean, an array with an item that is
    not an object, or an object whose "data" is not a list of records.
   */
  lemma DecodePageAccepts(v: Json)
    ensures DecodePage(v).Some? <==>
      (RecordList(v) || (v.JObject? && ("data" in v.fields ==> RecordList(v.fields["data"]))))
  {
  }

  /** The JSON array of a list of records. */
  function Encode(records: seq<Record>): (v: Json)
    ensures v.JArray? && |v.items| == |records|
    ensures forall i :: 0 <= i < |records| ==> v.items[i] == JObject(records[i])
  {
    JArray(seq(|records|, i requires 0 <= i < |records| => JObject(records[i])))
  }

  /**
    Both documented shapes of a page decode to the records they carry, in
    order: {"data": [...]} through the wrapped branch and a bare [...]
    through the fallback.
   */
  lemma DecodePageRoundTrip(records: seq<Record>)
    ensures DecodePage(JObject(map["data" := Encode(records)])) == Some(records)
    ensures DecodePage(Encode(records)) == Some(records)
  {
    var v := Encode(records);
    var r := AsRecords(v.items);
    assert r.Some?;
    assert r.value == records;
  }

  /** An object without a "data" member decodes through the wrapped branch to no records. */
  lemma ObjectWithoutDataIsEmptyPage(fields: map<string, Json>)
    requires "data" !in fields
    ensures DecodePage(JObject(fields)) == Some([])
  {
  }

  /** The records of a page body, if it can be read and decoded. */
  function DecodeBody(body: Body): Option<seq<Record>> {
    match body
    case Document(v) => DecodePage(v)
    case _ => None
  }

  /** What one iteration of the listing loop ends with. */
  datatype PageStep =
    | LastPage(records: seq<Record>)
    | NextPage(records: seq<Record>, next: string)
    | PageFailed(err: ClientError)

  /**
    One iteration of the listing loop after the request: read the body, check
    for 200, decode, then look for the next page (ReadPageMeaning states the
    outcome).
   */
  function ReadPage(ex: Exchange): PageStep {
    match ex
    case NothingSent => PageFailed(NilResponse)
    case Aborted(e) => PageFailed(SendingRequest(e))
    case Delivered(resp, closed) =>
      if (closed && !resp.body.Empty?) || resp.body.Unreadable? then PageFailed(ReadingResponse)
      else if resp.status != 200 then PageFailed(BadResponse(resp.status, resp.body))
      else
        match DecodeBody(resp.body)
        case None => PageFailed(UnexpectedFormat)
        case Some(records) =>
          if resp.link == "" then LastPage(records)
          else
            var next := NextLink(resp.link);
            if next == "" || |records| < PerPage then LastPage(records)
            else NextPage(records, next)
  }

  /**
    The loop goes on only after a 200 page that decodes, has a Link header
    naming a next page, and holds at least 1000 records; the next address is
    the one the Link header names. A page is kept exactly when it is a 200
    page that decodes, and then its records are the decoded ones. A response
    whose non-empty body was already closed fails to be read; a readable
    non-200 response (an empty body is always readable) is the "bad
    response" error with its code and body; an empty 200 body does not
    decode; an executor error is wrapped as "sending request".
   */
  lemma ReadPageMeaning(ex: Exchange)
    ensures ReadPage(ex).NextPage? <==>
      && ex.Delivered? && !ex.bodyClosed && ex.resp.status == 200
      && DecodeBody(ex.resp.body).Some? && |DecodeBody(ex.resp.body).value| >= PerPage
      && ex.resp.link != "" && NextLink(ex.resp.link) != ""
    ensures ReadPage(ex).NextPage? ==> ReadPage(ex).next == NextLink(ex.resp.link)
    ensures !ReadPage(ex).PageFailed? <==>
      ex.Delivered? && !ex.bodyClosed && ex.resp.status == 200 && DecodeBody(ex.resp.body).Some?
    ensures !ReadPage(ex).PageFailed? ==> ReadPage(ex).records == DecodeBody(ex.resp.body).value
    ensures ex.Delivered? && ex.bodyClosed && !ex.resp.body.Empty? ==> ReadPage(ex) == PageFailed(ReadingResponse)
    ensures ex.Delivered? && (!ex.bodyClosed || ex.resp.body.Empty?) && !ex.resp.body.Unreadable?
      && ex.resp.status != 200
      ==> ReadPage(ex) == PageFailed(BadResponse(ex.resp.status, ex.resp.body))
    ensures ex.Delivered? && ex.resp.body.Empty? && ex.resp.status == 200 ==> ReadPage(ex) == PageFailed(UnexpectedFormat)
    ensures ex.Aborted? ==> ReadPage(ex) == PageFailed(SendingRequest(ex.err))
  {
  }

  /** Fetching one page: the retried GET, then ReadPage. */
  function FetchPage(maxRetries: int, w: World, apiKey: string, url: string): PageStep {
    ReadPage(Retry(maxRetries, w, ListRequest(url, apiKey)).result)
  }

  /**
    When every attempt for a page answers a status worth retrying, the
    executor hands back the last response with its body already closed, so
    reading a non-empty body fails: the listing reports a read error, not
    the status.
   */
  lemma ExhaustedPageFailsToRead(maxRetries: int, w: World, apiKey: string, url: string)
    requires maxRetries >= 0
    requires forall j :: 0 <= j < maxRetries ==> RetriedQuietly(w, ListRequest(url, apiKey), j)
    requires w.send(ListRequest(url, apiKey), maxRetries).Replied?
    requires !IsFinal(w.send(ListRequest(url, apiKey), maxRetries).resp.status)
    requires !w.send(ListRequest(url, apiKey), maxRetries).resp.body.Empty?
    ensures FetchPage(maxRetries, w, apiKey, url) == PageFailed(ReadingResponse)
  {
    ExhaustionReturnsLastResponse(maxRetries, w, ListRequest(url, apiKey));
    ReadPageMeaning(Retry(maxRetries, w, ListRequest(url, apiKey)).result);
  }

  /**
    The same exhaustion with an empty last body: closing an empty body does
    not make it unreadable, so the listing reports the status with an empty
    body, as "bad response (<code>): ".
   */
  lemma ExhaustedEmptyPageIsBadResponse(maxRetries: int, w: World, apiKey: string, url: string)
    requires maxRetries >= 0
    requires forall j :: 0 <= j < maxRetries ==> RetriedQuietly(w, ListRequest(url, apiKey), j)
    requires w.send(ListRequest(url, apiKey), maxRetries).Replied?
    requires !IsFinal(w.send(ListRequest(url, apiKey), maxRetries).resp.status)
    requires w.send(ListRequest(url, apiKey), maxRetries).resp.body.Empty?
    ensures FetchPage(maxRetries, w, apiKey, url)
      == PageFailed(BadResponse(w.send(ListRequest(url, apiKey), maxRetries).resp.status, Empty))
  {
    ExhaustionReturnsLastResponse(maxRetries, w, ListRequest(url, apiKey));
    ReadPageMeaning(Retry(maxRetries, w, ListRequest(url, apiKey)).result);
  }

  /** The listing: its result and the addresses of the pages requested, in order. */
  datatype Listing = Listing(result: Result<seq<Record>, ClientError>, urls: seq<string>)

  /** records in front of a result; an error discards what was gathered. */
  function Prepend(records: seq<Record>, r: Result<seq<Record>, ClientError>): (p: Result<seq<Record>, ClientError>)
    ensures records == [] ==> p == r
  {
    assert r.Ok? ==> records + r.value == if records == [] then r.value else records + r.value;
    match r
    case Ok(rest) => Ok(records + rest)
    case Err(e) => Err(e)
  }

  /** The pages of the server as the listing sees them: FetchPage for each address. */
  function Fetcher(maxRetries: int, w: World, apiKey: string): string -> PageStep {
    url => FetchPage(maxRetries, w, apiKey, url)
  }

  /** fetch gives, at every address, what FetchPage gives there. */
  ghost predicate Serves(fetch: string -> PageStep, maxRetries: int, w: World, apiKey: string) {
    forall url {:trigger FetchPage(maxRetries, w, apiKey, url)} :: fetch(url) == FetchPage(maxRetries, w, apiKey, url)
  }

  lemma FetcherServes(maxRetries: int, w: World, apiKey: string) returns (fetch: string -> PageStep)
    ensures Serves(fetch, maxRetries, w, apiKey)
  {
    fetch := Fetcher(maxRetries, w, apiKey);
  }

  lemma PrependTwice(a: seq<Record>, b: seq<Record>, r: Result<seq<Record>, ClientError>)
    ensures Prepend(a, Prepend(b, r)) == Prepend(a + b, r)
  {
    if r.Ok? {
      assert a + (b + r.value) == (a + b) + r.value;
    }
  }

  /**
    The listing from url on, fetch giving the outcome of each page, with
    room for at most maxPages more pages (the source itself has no such bound).
   */
  function ListFrom(fetch: string -> PageStep, url: string, maxPages: nat): Listing
    decreases maxPages
  {
    if maxPages == 0 then Listing(Err(PageBudgetExhausted), [])
    else
      match fetch(url)
      case PageFailed(e) => Listing(Err(e), [url])
      case LastPage(records) => Listing(Ok(records), [url])
      case NextPage(records, next) =>
        var rest := ListFrom(fetch, next, maxPages - 1);
        Listing(Prepend(records, rest.result), [url] + rest.urls)
  }

  /**
    A walk over the pages that has gathered sites from the pages at urls and
    is about to request url with budget pages left is on course: finishing
    it from url gives the listing from first.
   */
  ghost predicate WalkedTo(fetch: string -> PageStep, first: string, maxPages: nat,
                           sites: seq<Record>, urls: seq<string>, url: string, budget: nat)
  {
    var tail := ListFrom(fetch, url, budget);
    ListFrom(fetch, first, maxPages) == Listing(Prepend(sites, tail.result), urls + tail.urls)
  }

  lemma WalkStarts(fetch: string -> PageStep, first: string, maxPages: nat)
    ensures WalkedTo(fetch, first, maxPages, [], [], first, maxPages)
  {
  }

  lemma WalkRunsOutOfBudget(fetch: string -> PageStep, first: string, maxPages: nat,
                            sites: seq<Record>, urls: seq<string>, url: string)
    requires WalkedTo(fetch, first, maxPages, sites, urls, url, 0)
    ensures ListFrom(fetch, first, maxPages) == Listing(Err(PageBudgetExhausted), urls)
  {
  }

  lemma WalkFails(fetch: string -> PageStep, first: string, maxPages: nat,
                  sites: seq<Record>, urls: seq<string>, url: string, budget: nat, e: ClientError)
    requires budget > 0 && fetch(url) == PageFailed(e)
    requires WalkedTo(fetch, first, maxPages, sites, urls, url, budget)
    ensures ListFrom(fetch, first, maxPages) == Listing(Err(e), urls + [url])
  {
  }

  lemma WalkEndsAtLastPage(fetch: string -> PageStep, first: string, maxPages: nat,
                           sites: seq<Record>, urls: seq<string>, url: string, budget: nat,
                           records: seq<Record>)
    requires budget > 0 && fetch(url) == LastPage(records)
    requires WalkedTo(fetch, first, maxPages, sites, urls, url, budget)
    ensures ListFrom(fetch, first, maxPages) == Listing(Ok(sites + records), urls + [url])
  {
  }

  lemma WalkAdvances(fetch: string -> PageStep, first: string, maxPages: nat,
                     sites: seq<Record>, urls: seq<string>, url: string, budget: nat,
                     records: seq<Record>, next: string)
    requires budget > 0 && fetch(url) == NextPage(records, next)
    requires WalkedTo(fetch, first, maxPages, sites, urls, url, budget)
    ensures WalkedTo(fetch, first, maxPages, sites + records, urls + [url], next, budget - 1)
  {
    var rest := ListFrom(fetch, next, budget - 1);
    PrependTwice(sites, records, rest.result);
    assert urls + ([url] + rest.urls) == (urls + [url]) + rest.urls;
  }

  /** The listing depends only on what fetch gives at each address. */
  lemma {:induction false} ListFromAgrees(f: string -> PageStep, g: string -> PageStep, url: string, maxPages: nat)
    requires forall u :: f(u) == g(u)
    ensures ListFrom(f, url, maxPages) == ListFrom(g, url, maxPages)
    decreases maxPages
  {
    if maxPages > 0 && f(url).NextPage? {
      ListFromAgrees(f, g, f(url).next, maxPages - 1);
    }
  }

  lemma ServedListing(fetch: string -> PageStep, maxRetries: int, w: World, apiKey: string, url: string, maxPages: nat)
    requires Serves(fetch, maxRetries, w, apiKey)
    ensures ListFrom(fetch, url, maxPages) == ListFrom(Fetcher(maxRetries, w, apiKey), url, maxPages)
  {
    ListFromAgrees(fetch, Fetcher(maxRetries, w, apiKey), url, maxPages);
  }

  /** The records of the pages at urls, concatenated in order. */
  function Gathered(fetch: string -> PageStep, urls: seq<string>): seq<Record> {
    if |urls| == 0 then []
    else
      var step := fetch(urls[0]);
      (if step.PageFailed? then [] else step.records) + Gathered(fetch, urls[1..])
  }

  /**
    The listing walks a chain of pages: it starts at url, each page it
    requests after the first is the next page named by the one before (so
    every page but the last said to go on), and at most maxPages pages are
    requested.
   */
  lemma {:induction false} ListingFollowsNextLinks(fetch: string -> PageStep, url: string, maxPages: nat)
    ensures var l := ListFrom(fetch, url, maxPages);
      && |l.urls| <= maxPages
      && (maxPages > 0 ==> |l.urls| >= 1 && l.urls[0] == url)
      && (forall i :: 0 <= i < |l.urls| - 1 ==>
            fetch(l.urls[i]).NextPage?
            && fetch(l.urls[i]).next == l.urls[i + 1])
    decreases maxPages
  {
    if maxPages > 0 {
      var step := fetch(url);
      if step.NextPage? {
        var l := ListFrom(fetch, url, maxPages);
        var rest := ListFrom(fetch, step.next, maxPages - 1);
        ListingFollowsNextLinks(fetch, step.next, maxPages - 1);
        assert l.urls == [url] + rest.urls;
        forall i | 0 <= i < |l.urls| - 1
          ensures fetch(l.urls[i]).NextPage?
            && fetch(l.urls[i]).next == l.urls[i + 1]
        {
          if i > 0 {
            assert l.urls[i] == rest.urls[i - 1] && l.urls[i + 1] == rest.urls[i];
          }
        }
      }
    }
  }

  /**
    A successful listing is the concatenation, in order, of the records of
    every page requested, and the last page requested said to stop.
   */
  lemma {:induction false} ListingConcatenatesPages(fetch: string -> PageStep, url: string, maxPages: nat)
    requires ListFrom(fetch, url, maxPages).result.Ok?
    ensures var l := ListFrom(fetch, url, maxPages);
      && |l.urls| >= 1
      && fetch(l.urls[|l.urls| - 1]).LastPage?
      && l.result.value == Gathered(fetch, l.urls)
    decreases maxPages
  {
    var l := ListFrom(fetch, url, maxPages);
    var step := fetch(url);
    if step.NextPage? {
      var rest := ListFrom(fetch, step.next, maxPages - 1);
      ListingConcatenatesPages(fetch, step.next, maxPages - 1);
      assert l.urls == [url] + rest.urls;
      assert l.urls[1..] == rest.urls;
      assert Gathered(fetch, l.urls) == step.records + Gathered(fetch, rest.urls);
    } else {
      assert l.urls == [url];
      assert Gathered(fetch, l.urls) == step.records + Gathered(fetch, []);
    }
  }

  /**
    A failed listing reports the failure of the last page requested, or that
    the page budget ran out after maxPages pages; nothing gathered before is
    returned.
   */
  lemma {:induction false} ListingFailsWithLastPage(fetch: string -> PageStep, url: string, maxPages: nat)
    requires ListFrom(fetch, url, maxPages).result.Err?
    ensures var l := ListFrom(fetch, url, maxPages);
      || (l.result.error == PageBudgetExhausted && |l.urls| == maxPages)
      || (|l.urls| >= 1 && fetch(l.urls[|l.urls| - 1]) == PageFailed(l.result.error))
    decreases maxPages
  {
    if maxPages > 0 {
      var step := fetch(url);
      if step.NextPage? {
        var l := ListFrom(fetch, url, maxPages);
        var rest := ListFrom(fetch, step.next, maxPages - 1);
        ListingFailsWithLastPage(fetch, step.next, maxPages - 1);
        assert l.urls == [url] + rest.urls;
      }
    }
  }

  /**
    A 200 page listing records, with a Link header whose first link is
    `<u>; rel="next"`, continues to u when it holds at least 1000 records and
    is the last page when it holds fewer.
   */
  lemma PageWithNextLink(records: seq<Record>, u: string, rest: string)
    requires '>' !in u && ',' !in u && u != ""
    requires rest == [] || rest[0] == ','
    ensures var page := Delivered(Response(200, Document(JObject(map["data" := Encode(records)])),
                                           "<" + u + ">; " + NextQuoted + rest), false);
      ReadPage(page) == if |records| >= PerPage then NextPage(records, u) else LastPage(records)
  {
    DecodePageRoundTrip(records);
    NextLinkOfLeadingNext(u, rest);
    assert DecodeBody(Document(JObject(map["data" := Encode(records)]))) == Some(records);
    assert NextLink("<" + u + ">; " + NextQuoted + rest) == u;
  }

  /** A 200 page without a Link header is the last page, whatever its size. */
  lemma PageWithoutLinkIsLast(records: seq<Record>)
    ensures ReadPage(Delivered(Response(200, Document(Encode(records)), ""), false)) == LastPage(records)
  {
  }

  /**
    Three pages, the first two pointing to the next one and the third the
    last: the listing requests the three in order and returns their records
    concatenated.
   */
  lemma ThreePageListing(fetch: string -> PageStep, a: string, b: string, c: string, maxPages: nat,
                         r1: seq<Record>, r2: seq<Record>, r3: seq<Record>)
    requires maxPages >= 3
    requires fetch(a) == NextPage(r1, b) && fetch(b) == NextPage(r2, c) && fetch(c) == LastPage(r3)
    ensures ListFrom(fetch, a, maxPages) == Listing(Ok(r1 + r2 + r3), [a, b, c])
  {
    assert ListFrom(fetch, c, maxPages - 2) == Listing(Ok(r3), [c]);
    assert ListFrom(fetch, b, maxPages - 1) == Listing(Ok(r2 + r3), [b, c]);
    assert r1 + (r2 + r3) == r1 + r2 + r3;
  }
}
