# Cisco Secure Connect site client, modelled in Dafny

This project models the API client behind a Terraform provider for Cisco
Meraki Secure Connect sites, and the read of its `secure_connect_site` data
source. It covers:

- `MerakiClient`, modelled as a class with the source's `apiKey`, `baseURL`
  and `maxRetries` fields. Its `httpClient` field is not kept: the transport
  it stands for is the `World` parameter of every operation (below). The
  client is built with a default budget of 3 retries, and `SetMaxRetries`
  changes the budget.
- The shared retrying executor `doRequestWithRetry`. It makes up to
  maxRetries + 1 attempts. A transport error ends the run at once. A status
  below 300, or a 4xx other than 429, is returned at once. Any other status
  is retried after 2^attempt seconds plus a jitter of `UnixNano % 1000` ms.
  A cancelled wait aborts. When the retries run out, the last response comes
  back with no error, but its body has already been closed.
- Site enrollment (POST of a one-enrollment batch) and site removal (DELETE
  of a one-site list). Each fails exactly when the executor returns no
  response (its error is passed on) or the final status is 300 or more.
- The paginated listing. It starts at `?perPage=1000` and requires status
  200. It decodes `{"data": [...]}` first and falls back to a bare array.
  It follows the first `rel="next"` / `rel=next` link of the `Link` header.
  It stops on a missing header, on a missing next link, or on a page of
  fewer than 1000 records.
- The data-source read. It lists the sites and picks the single record whose
  `"name"` is the requested one. It fails on no match or on two matches, and
  it publishes the record's `"id"` and `"region"`.

The network, the clock and cancellation are a `World` value: three oracle
functions indexed by the request and the attempt number. Every operation is
given one. Each imperative method (the executor loop, the Link-header scan,
the page loop, the selection loop) is proved equal to a specification
function. The lemmas then state what that function guarantees.

Modules: `Results` (Option/Result), `Json` (decoded JSON values and site
records), `GoStrings` (the Go string functions the Link parser uses),
`Http` (requests, responses, the world, the client's errors), `RetryPolicy`
(the executor), `Requests` (addresses and bodies), `Links` (the Link header),
`Pages` (one page and the listing), `Client` (the `MerakiClient` class),
`SiteLookup` (the data-source read).

Where the documented behaviour and the code differ, the model follows the code:

- When every attempt answers a status worth retrying (3xx, 429, or 500 and
  above), the executor returns the last response after `resp.Body.Close()`
  (client.go:74). If that body is not empty, the listing then fails with the
  "reading response" error, not "bad response (503)"
  (`Pages.ExhaustedPageFailsToRead`). An empty body (Go's `http.NoBody`)
  still reads as empty after closing, so then the listing reports
  "bad response (503): " with an empty body
  (`Pages.ExhaustedEmptyPageIsBadResponse`). Create and delete only look at
  the status, so they still report "create failed" / "delete failed".
- A page body that is `null`, or any JSON object without a `"data"` member
  (or with `"data": null`), decodes through the wrapped branch to zero
  records. It is not a format error. A body is rejected exactly when it is
  none of: `null`, an array whose items are all objects or `null`, or an
  object whose `"data"` member is missing, `null` or such an array. So
  `{"data": 5}` and `{"data": ["x"]}` are rejected as well as `5` or `"x"`
  (`Pages.DecodePageAccepts`).
- A negative retry budget makes the executor return neither a response nor
  an error. The callers then dereference a nil response. The model reports
  this as the `NilResponse` error.

## Model

| member | source | states |
|---|---|---|
| GoStrings.IndexChar | client.go:220-221 | the index of the first occurrence of a character, -1 exactly when it does not occur |
| GoStrings.Contains | client.go:218 | true exactly when the substring occurs at some position |
| GoStrings.Split | client.go:215 | at least one piece, no piece holds the separator, and joining the pieces with it gives the input back |
| GoStrings.TrimLeftMeaning | client.go:217 | the left trim is a suffix of the input, everything it drops is white space, and it does not start with white space |
| GoStrings.TrimRightMeaning | client.go:217 | the right trim is a prefix of the input, everything it drops is white space, and it does not end with white space |
| GoStrings.TrimSpace | client.go:217 | strings.TrimSpace, the right trim of the left trim (TrimSpaceMeaning) |
| GoStrings.TrimSpaceMeaning | client.go:217 | TrimSpace gives a contiguous part of the input with no leading or trailing white space, only leading and trailing white space was dropped, and every character of the result is one of the input |
| Json.Field | data_source_secure_connect_site.go:57-84 | a map lookup yields a value exactly when the key is present, and then the stored value |
| RetryPolicy.IsFinal | client.go:47-55 | the statuses handed back at once: below 300, or 4xx other than 429 (ReturnsFinalStatus; every other status is retried, RetryReaches and ExhaustionReturnsLastResponse) |
| RetryPolicy.RetryFrom | client.go:41-77 | the executor loop from attempt a on, given the previous exchange: its result, number of calls and waits (RetryReaches, RetryFromShape, ReturnsFinalStatus, TransportErrorIsNotRetried, CancellationAborts) |
| RetryPolicy.Retry | client.go:37-78 | the whole executor run from attempt 0, nil, nil when no attempt is made (RetryBounds, ExhaustionReturnsLastResponse, WaitsWithinWindow) |
| RetryPolicy.JitterMs | client.go:61 | Go's truncated remainder: differs from UnixNano by a multiple of 1000, lies in [0, 999] for a non-negative clock and in [-999, 0] for a negative one |
| RetryPolicy.BackoffMs | client.go:57-62 | the wait before the next attempt is at least 2^attempt s and below 2^attempt + 1 s for a non-negative clock (shifted down by under a second otherwise) |
| RetryPolicy.RetryReaches | client.go:41-75 | if attempts 0..k-1 were all retried, the run is k calls and their k waits followed by the loop from attempt k |
| RetryPolicy.ReturnsFinalStatus | client.go:47-55 | a final status (below 300, or 4xx other than 429) on attempt k is returned with an open body after k + 1 calls and k waits |
| RetryPolicy.TransportErrorIsNotRetried | client.go:42-45 | a transport error on attempt k is returned as is, with no response, after k + 1 calls |
| RetryPolicy.CancellationAborts | client.go:64-70 | cancellation during the wait after attempt k returns the cancellation error and no later attempt is made |
| RetryPolicy.ExhaustionReturnsLastResponse | client.go:72-77 | after maxRetries + 1 retryable answers, the last response is returned with no error and its body already closed, after maxRetries waits |
| RetryPolicy.RetryFromShape | client.go:41-75 | from any attempt, the loop calls the transport at least once and at most the remaining budget, with one wait between consecutive calls, each of the backoff of its attempt |
| RetryPolicy.RetryBounds | client.go:37-78 | with a budget >= 0, between 1 and maxRetries + 1 calls, one wait fewer than calls, wait i = BackoffMs(i, clock), and a response or error; with a negative budget nothing is sent and nil, nil comes back |
| RetryPolicy.WaitsWithinWindow | client.go:57-70 | with a clock after 1970 every completed wait i lies in [2^i s, 2^i + 1 s) |
| Requests.Enrollment | client.go:84-93 | the enrollment always has siteId and regionType, has regionId / regionName exactly when they are non-empty, nothing else, and reading them back gives the arguments |
| Requests.SitesUrl | client.go:82 | the sites collection of an organization, `{base}/organizations/{org}/secureConnect/sites`, used by create and delete (CreateRequest, DeleteRequest; client.go:125 for delete) |
| Requests.ListUrl | client.go:160 | the first page of the listing: the sites collection with `?perPage=1000` (GetSecureConnectSites, which requests it first) |
| Requests.ListRequest | client.go:163-169 | the GET of one page: no body, the API key header (FetchPage, FetchOnePage) |
| Requests.CreateRequest | client.go:82-108 | a POST to the organization's sites collection carrying the API key and a batch of exactly one enrollment |
| Requests.DeleteRequest | client.go:125-140 | a DELETE to the same collection carrying the API key and a sites list of exactly the one identifier |
| Links.FirstAnglesOrdered | client.go:220-222 | the index test succeeds exactly when some '<' precedes some '>' and no '>' precedes that '<' |
| Links.Target | client.go:217-225 | the target of one trimmed piece of the header, if it is a usable next link (TargetMeaning, TargetWithin, TargetOfNextLink) |
| Links.FirstNext | client.go:216-227 | the target of the first usable piece, or "" (FirstUsablePieceWins, NoUsablePieceNoLink, FirstNextShape) |
| Links.NextLink | client.go:214-227 | the next address named by a Link header, or "" (ScanNextLink, NextLinkShape, NextLinkOfLeadingNext) |
| Links.TargetMeaning | client.go:218-225 | a trimmed piece yields a target exactly when it mentions rel="next" or rel=next and its angles are ordered; the target is the text between the first '<' and the first '>' |
| Links.TargetWithin | client.go:223 | every character of a target comes from the piece and is not '>' |
| Links.ScanNextLink | client.go:213-227 | the scan loop returns NextLink of the header: the target of the first usable piece, or "" |
| Links.FirstNextAt | client.go:216-226 | from piece k on, the scan gives piece k's target when it has one and otherwise goes on with piece k + 1 |
| Links.FirstUsablePieceWins | client.go:216-226 | the target of the first usable piece is returned, even after pieces that mention next without a usable <...> |
| Links.NoUsablePieceNoLink | client.go:214-227 | with no usable piece the next address is "" |
| Links.FirstNextShape | client.go:215-227 | over comma-free pieces, the scan's result holds neither '>' nor ',' |
| Links.NextLinkShape | client.go:214-227 | the next address never holds '>' or ',' |
| Links.SplitLeading | client.go:215 | the first piece of a header is its text up to the first comma |
| Links.TargetOfNextLink | client.go:218-224 | `<u>; rel="next"` yields u |
| Links.NextLinkOfLeading | client.go:214-227 | a header whose first piece is a trimmed, comma-free, usable link names that link's target |
| Links.NextLinkOfLeadingNext | client.go:207-227 | a header whose first link is `<u>; rel="next"` names u as the next page |
| Pages.DecodeWrapped | client.go:186-195 | decoding into the `{"data": [...]}` shape: null, an object without data or with data null give no records, an object whose data is an array of objects and nulls gives them (DecodePageAccepts, DecodePageRoundTrip, ObjectWithoutDataIsEmptyPage) |
| Pages.DecodeBare | client.go:196-201 | the fallback decoding into a bare array of objects and nulls (DecodePageAccepts, DecodePageRoundTrip) |
| Pages.DecodeBody | client.go:177-204 | the records of a read body: a JSON document goes through DecodePage, non-JSON bytes and an empty body fail both decodings (ReadPageMeaning) |
| Pages.DecodePage | client.go:186-205 | the wrapped shape first, the bare array only when it fails, a format error when both fail (DecodePageAccepts, DecodePageRoundTrip) |
| Pages.AsRecords | client.go:193-201 | an array decodes to records exactly when every item is an object or null, item by item, null giving an empty record |
| Pages.DecodePageAccepts | client.go:186-205 | a page decodes exactly when it is null, an array of objects and nulls, or an object whose "data" (if any) is such a value |
| Pages.DecodePageRoundTrip | client.go:186-205 | both `{"data": [...]}` and a bare array decode to the records they carry, in order |
| Pages.ObjectWithoutDataIsEmptyPage | client.go:187-195 | an object without "data" decodes to zero records |
| Pages.ReadPageMeaning | client.go:171-238 | a page continues exactly when it is 200, decodes, has a Link header with a next link and at least 1000 records, and it continues to that link; a page is kept exactly when it is 200 and decodes; the errors: closed non-empty body, non-200 with code and body (an empty body is always readable), empty 200 body as a format error, executor error |
| Pages.ReadPage | client.go:171-238 | one pass of the page loop after the executor: read, check 200, decode, find the next page (ReadPageMeaning, PageWithNextLink, PageWithoutLinkIsLast) |
| Pages.FetchPage | client.go:163-238 | one pass of the page loop: the retried GET of an address, then ReadPage (ExhaustedPageFailsToRead, ExhaustedEmptyPageIsBadResponse, FetchOnePage) |
| Pages.ExhaustedPageFailsToRead | client.go:171-180 | a page whose attempts all answered a status worth retrying, with a non-empty last body, fails with the read error |
| Pages.ExhaustedEmptyPageIsBadResponse | client.go:171-184 | the same page with an empty last body fails with "bad response" carrying the last status and the empty body |
| Pages.PageWithNextLink | client.go:207-238 | a 200 page with a leading `<u>; rel="next"` continues to u with 1000 or more records and is the last page with fewer |
| Pages.PageWithoutLinkIsLast | client.go:207-211 | a 200 page without a Link header is the last page whatever its size |
| Pages.ListFrom | client.go:156-242 | the listing from an address with a page budget, over any page fetch (ListingFollowsNextLinks, ListingConcatenatesPages, ListingFailsWithLastPage, GetSecureConnectSites) |
| Pages.ListFromAgrees | client.go:162-239 | the listing depends only on what each page fetch gives |
| Pages.WalkStarts | client.go:157-160 | the page loop starts on course with nothing gathered at the first address |
| Pages.WalkRunsOutOfBudget | client.go:162 | a walk out of page budget ends the listing with the budget error and the pages requested so far |
| Pages.WalkFails | client.go:163-204 | a failing page ends the listing with its error, after requesting that page |
| Pages.WalkEndsAtLastPage | client.go:207-241 | a last page ends the listing with everything gathered plus its records |
| Pages.WalkAdvances | client.go:191-233 | a page that continues keeps the walk on course with its records appended and its next address |
| Pages.ListingFollowsNextLinks | client.go:160-239 | the listing starts at its first address, each later page is the next page named by the one before, at most maxPages pages |
| Pages.ListingConcatenatesPages | client.go:191-241 | a successful listing is the in-order concatenation of the records of every page requested, and the last page said to stop |
| Pages.ListingFailsWithLastPage | client.go:162-204 | a failed listing reports the failure of the last page requested (or the page budget), gathered records discarded |
| Pages.ThreePageListing | client.go:156-242 | pages pointing a to b to c, c the last, give the three records concatenated after requesting a, b, c |
| Client.MerakiClient.constructor | client.go:22-29 | the key and base address as given, and 3 retries |
| Client.MerakiClient.SetMaxRetries | client.go:31-34 | the budget is replaced, nothing else changes |
| Client.MerakiClient.DoRequestWithRetry | client.go:36-78 | the loop's result, calls and waits are exactly the run Retry describes |
| Client.MerakiClient.CreateSecureConnectSite | client.go:80-121 | sends the one-enrollment POST through the executor; no error exactly when a response with status below 300 comes back; executor errors as is; status >= 300 is "create failed" |
| Client.MerakiClient.DeleteSecureConnectSites | client.go:123-153 | sends the one-site DELETE through the executor; fails on the same conditions, with "delete failed" |
| Client.MerakiClient.ReadResponse | client.go:172-238 | the body of the page loop after the executor computes ReadPage |
| Client.MerakiClient.FetchOnePage | client.go:163-238 | one pass of the page loop gives what the page fetch describes |
| Client.MerakiClient.GetSecureConnectSites | client.go:155-242 | the result and the pages requested are those of ListFrom over the page fetch, starting at the `?perPage=1000` address |
| SiteLookup.NameOf | data_source_secure_connect_site.go:57-63 | a site has a name exactly when its "name" member is a JSON string |
| SiteLookup.Matches | data_source_secure_connect_site.go:56-71 | the positions of the records carrying the name: all of them, only them, increasing |
| SiteLookup.NoneNamed | data_source_secure_connect_site.go:73-75 | no record carries the name exactly when no position matches |
| SiteLookup.TwoNamed | data_source_secure_connect_site.go:65-68 | two different records carry the name exactly when two or more positions match |
| SiteLookup.OneNamed | data_source_secure_connect_site.go:55-75 | exactly one record carries the name exactly when one position matches, and it is that record |
| SiteLookup.Lookup | data_source_secure_connect_site.go:55-75 | the record selected by name, or the "no site" / "multiple sites" error (LookupMeaning, SelectSite) |
| SiteLookup.LookupMeaning | data_source_secure_connect_site.go:55-75 | a site is selected exactly when exactly one record carries the name, and it is that record; "no site" exactly when none does; "multiple sites" exactly when two different records do |
| SiteLookup.UnnamedTailIgnored | data_source_secure_connect_site.go:57-63 | records without that name added after the list do not change the matches |
| SiteLookup.MatchesOfPrefix | data_source_secure_connect_site.go:56-70 | the matches within a prefix are the first matches of the whole list |
| SiteLookup.SelectSite | data_source_secure_connect_site.go:55-75 | the loop, which skips nameless records and stops at the second match, returns Lookup |
| SiteLookup.ReadOutcome | data_source_secure_connect_site.go:45-84 | what the read does with a listing: its diagnostics or the state it sets (ReadOutcomeMeaning, ReadSecureConnectSite) |
| SiteLookup.ReadOutcomeMeaning | data_source_secure_connect_site.go:45-84 | a listing error is reported as is; state is set exactly when one record carries the name and has a string id, and then it holds that record's id and region; none or several matches give the lookup's diagnostics |
| SiteLookup.ReadSecureConnectSite | data_source_secure_connect_site.go:36-92 | the read lists with the client's configuration and gives ReadOutcome of that listing |

## Left out

- The network, the clock and context cancellation are oracle functions in a `World`; the real sleep is not modelled, only its length.
- The World does not tie the outcome of a re-sent POST or DELETE to its request body having been read already by the previous attempt; whatever the transport does then is one of the outcomes the World allows.
- RetryPolicy.BackoffMs: does not model the int64 overflow of `time.Duration` for attempts of 34 and more, nor the float64 rounding of `math.Pow`, because both lie far beyond any realistic retry budget.
- Client.MerakiClient.GetSecureConnectSites: takes a page budget maxPages that the source does not have; the source keeps following next links as long as the server supplies them, and the model reports the budget error if they outlast the budget.
- Client.MerakiClient.GetSecureConnectSites: the `defer resp.Body.Close()` inside the loop (bodies stay open until the listing returns) and body release in general are not modelled.
- Client.MerakiClient.CreateSecureConnectSite: errors carry the status code, not Go's status text; the failure of `http.NewRequestWithContext` on an unparsable address and the ignored error of `json.Marshal` (which cannot fail on string maps) are not modelled.
- Client.MerakiClient.DeleteSecureConnectSites: same as create.
- Client.MerakiClient.GetSecureConnectSites: the "creating request" error of `http.NewRequestWithContext` (client.go:163-166) is not modelled. A next address taken from the server's Link header can be unparsable (a bad port, or a target with spaces around it), and the source then fails without calling the transport; the model sends that address to the World like any other.
- A Link header that appears on several lines: only the first line is read (`resp.Header.Get`), and the model's `link` field is that line; the other lines are not modelled.
- Go strings are bytes, while `GoStrings` works on Unicode characters: header bytes that are not valid UTF-8 cannot be represented, and positions are counted in characters rather than bytes (they agree for the ASCII '<', '>' and ',' the scan looks for).
- The Content-Type and Accept headers are constant and are not part of the Request value.
- JSON is taken as already parsed: non-empty bytes that are not JSON are one Body case and an empty body another, numbers are integers, and encoding/json's case-insensitive matching of the "data" key (a "Data" or "DATA" member) is not modelled.
- A null array item decodes in Go to a nil map; the model gives an empty record, which behaves the same in everything downstream.
- SiteLookup.ReadSecureConnectSite: `d.Set` is taken to succeed, the state holds the raw "region" value, and the SDK's conversion of non-string values and its errors are not modelled; logging (tflog) is left out.
- The resource CRUD functions, the provider schema and configuration are not part of this model.
