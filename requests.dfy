/** The requests the client builds: addresses and JSON bodies (client.go). */
module Requests {

  import opened Results
  import opened Http

  /** The number of records asked for per page. */
  const PerPage := 1000

  /** {base}/organizations/{orgID}/secureConnect/sites */
  function SitesUrl(baseUrl: string, orgId: string): string {
    baseUrl + "/organizations/" + orgId + "/secureConnect/sites"
  }

  /** The address of the first page of the listing. */
  function ListUrl(baseUrl: string, orgId: string): string {
    SitesUrl(baseUrl, orgId) + "?perPage=1000"
  }

  /** The value of an optional string field, "" when the field is absent. */
  function FieldOrEmpty(m: map<string, string>, key: string): string {
    if key in m then m[key] else ""
  }

  /**
    The single enrollment object of a create request. It always carries
    siteId and regionType, carries regionId exactly when regionId is not
    empty and regionName exactly when regionName is not empty, and nothing
    else; reading the optional fields back with "" for a missing one gives
    the arguments again.
   */
  function Enrollment(siteId: string, regionType: string, regionId: string, regionName: string)
    : (e: map<string, string>)
    ensures e.Keys == {"siteId", "regionType"}
      + (if regionId != "" then {"regionId"} else {})
      + (if regionName != "" then {"regionName"} else {})
    ensures e["siteId"] == siteId && e["regionType"] == regionType
    ensures FieldOrEmpty(e, "regionId") == regionId && FieldOrEmpty(e, "regionName") == regionName
  {
    var base := map["siteId" := siteId, "regionType" := regionType];
    var withId := if regionId != "" then base["regionId" := regionId] else base;
    if regionName != "" then withId["regionName" := regionName] else withId
  }

  /**
    The POST of CreateSecureConnectSite: to the sites collection, with a
    batch of exactly one enrollment.
   */
  function CreateRequest(baseUrl: string, apiKey: string, orgId: string,
                         siteId: string, regionType: string, regionId: string, regionName: string)
    : (r: Request)
    ensures r.verb == Post && r.url == SitesUrl(baseUrl, orgId) && r.apiKey == apiKey
    ensures r.payload.Some? && r.payload.value.EnrollmentBatch?
    ensures r.payload.value.enrollments == [Enrollment(siteId, regionType, regionId, regionName)]
  {
    Request(Post, SitesUrl(baseUrl, orgId),
            Some(EnrollmentBatch([Enrollment(siteId, regionType, regionId, regionName)])), apiKey)
  }

  /**
    The DELETE of DeleteSecureConnectSites: to the same collection, with a
    sites list holding exactly the one site identifier.
   */
  function DeleteRequest(baseUrl: string, apiKey: string, orgId: string, siteId: string): (r: Request)
    ensures r.verb == Delete && r.url == SitesUrl(baseUrl, orgId) && r.apiKey == apiKey
    ensures r.payload == Some(SiteIds([siteId]))
  {
    Request(Delete, SitesUrl(baseUrl, orgId), Some(SiteIds([siteId])), apiKey)
  }

  /** The GET of one page of the listing: no body. */
  function ListRequest(url: string, apiKey: string): Request {
    Request(Get, url, None, apiKey)
  }
}
