/**
  The read of the secure_connect_site data source
  (data_source_secure_connect_site.go): list the organization's sites, pick
  the one record whose "name" is the requested site name, and publish its
  "id" and "region". Terraform's ResourceData is abstracted into the
  ReadResult value the read produces.
 */
module SiteLookup {

  import opened Results
  import opened Json
  import opened Http
  import opened Requests
  import opened Pages
  import opened Client

  /** The site's name: present only when the "name" member is a JSON string. */
  function NameOf(site: Record): (name: Option<string>)
    ensures name.Some? <==> "name" in site && site["name"].JString?
    ensures name.Some? ==> site["name"] == JString(name.value)
  {
    match Field(site, "name")
    case Some(JString(s)) => Some(s)
    case _ => None
  }

  /** Record i of sites carries the name name. */
  predicate Selects(sites: seq<Record>, name: string, i: int) {
    0 <= i < |sites| && NameOf(sites[i]) == Some(name)
  }

  /** Record i is the only record of sites that carries the name name. */
  predicate NamedOnly(sites: seq<Record>, name: string, i: int) {
    Selects(sites, name, i) && forall j :: 0 <= j < |sites| && Selects(sites, name, j) ==> j == i
  }

  /** The positions of the records named name, in increasing order. */
  function Matches(sites: seq<Record>, name: string): (m: seq<nat>)
    ensures forall k :: 0 <= k < |m| ==> Selects(sites, name, m[k])
    ensures forall i :: Selects(sites, name, i) ==> i in m
    ensures forall k, l :: 0 <= k < l < |m| ==> m[k] < m[l]
    decreases |sites|
  {
    if |sites| == 0 then []
    else
      var init := sites[..|sites| - 1];
      var before := Matches(init, name);
      SelectsInInit(sites, name);
      if NameOf(sites[|sites| - 1]) == Some(name) then before + [|sites| - 1] else before
  }

  /** Below the last position, a list and its initial part name the same positions. */
  lemma SelectsInInit(sites: seq<Record>, name: string)
    requires |sites| > 0
    ensures forall i :: 0 <= i < |sites| - 1 ==>
      (Selects(sites, name, i) <==> Selects(sites[..|sites| - 1], name, i))
  {
    var init := sites[..|sites| - 1];
    forall i | 0 <= i < |sites| - 1
      ensures Selects(sites, name, i) <==> Selects(init, name, i)
    {
      assert init[i] == sites[i];
    }
  }

  /** Why no site was selected. */
  datatype LookupError =
    | MultipleSites(name: string)           // "multiple sites found with name %q"
    | NoSite(name: string, orgId: string)   // "no site found with name %q in organization %q"

  /** The selection loop over the listed sites: the single record named siteName. */
  function Lookup(sites: seq<Record>, siteName: string, orgId: string): Result<Record, LookupError> {
    var m := Matches(sites, siteName);
    if |m| == 0 then Err(NoSite(siteName, orgId))
    else if |m| >= 2 then Err(MultipleSites(siteName))
    else Ok(sites[m[0]])
  }

  /** No position is named exactly when Matches is empty. */
  lemma NoneNamed(sites: seq<Record>, siteName: string)
    ensures |Matches(sites, siteName)| == 0 <==> forall i :: !Selects(sites, siteName, i)
  {
    var m := Matches(sites, siteName);
    if |m| > 0 {
      assert Selects(sites, siteName, m[0]);
    }
  }

  /** Two different positions are named exactly when Matches holds two or more. */
  lemma TwoNamed(sites: seq<Record>, siteName: string)
    ensures |Matches(sites, siteName)| >= 2 <==>
      exists i, j :: i != j && Selects(sites, siteName, i) && Selects(sites, siteName, j)
  {
    var m := Matches(sites, siteName);
    if |m| >= 2 {
      assert m[0] != m[1] && Selects(sites, siteName, m[0]) && Selects(sites, siteName, m[1]);
    }
    if exists i, j :: i != j && Selects(sites, siteName, i) && Selects(sites, siteName, j) {
      var i, j :| i != j && Selects(sites, siteName, i) && Selects(sites, siteName, j);
      assert i in m && j in m;
      var k :| 0 <= k < |m| && m[k] == i;
      var l :| 0 <= l < |m| && m[l] == j;
      assert k != l;
    }
  }

  /** Exactly one position is named exactly when Matches holds exactly one, that position. */
  lemma OneNamed(sites: seq<Record>, siteName: string)
    ensures |Matches(sites, siteName)| == 1 <==>
      exists i :: NamedOnly(sites, siteName, i)
    ensures |Matches(sites, siteName)| == 1 ==> NamedOnly(sites, siteName, Matches(sites, siteName)[0])
  {
    var m := Matches(sites, siteName);
    assert |m| < 2 || m[0] < m[1];
    if |m| == 1 {
      forall j | Selects(sites, siteName, j)
        ensures j == m[0]
      {
        assert j in m;
      }
      assert NamedOnly(sites, siteName, m[0]);
    }
    if exists i :: NamedOnly(sites, siteName, i) {
      var i :| NamedOnly(sites, siteName, i);
      assert i in m;
      forall k | 0 <= k < |m|
        ensures m[k] == i
      {
        assert Selects(sites, siteName, m[k]);
      }
    }
  }

  /**
    A site is selected exactly when one record, and only one, carries the
    name, and then it is that record; the lookup reports no site exactly when
    no record carries the name, and several sites exactly when two different
    records carry it. Records without a string "name" never take part.
   */
  lemma LookupMeaning(sites: seq<Record>, siteName: string, orgId: string)
    ensures Lookup(sites, siteName, orgId).Ok? <==>
      exists i :: NamedOnly(sites, siteName, i)
    ensures Lookup(sites, siteName, orgId).Ok? ==>
      exists i :: Selects(sites, siteName, i) && Lookup(sites, siteName, orgId).value == sites[i]
    ensures Lookup(sites, siteName, orgId) == Err(NoSite(siteName, orgId)) <==>
      forall i :: !Selects(sites, siteName, i)
    ensures Lookup(sites, siteName, orgId) == Err(MultipleSites(siteName)) <==>
      exists i, j :: i != j && Selects(sites, siteName, i) && Selects(sites, siteName, j)
  {
    var m := Matches(sites, siteName);
    NoneNamed(sites, siteName);
    TwoNamed(sites, siteName);
    OneNamed(sites, siteName);
    if |m| == 1 {
      assert Lookup(sites, siteName, orgId) == Ok(sites[m[0]]);
    } else if |m| == 0 {
      assert Lookup(sites, siteName, orgId) == Err(NoSite(siteName, orgId));
    } else {
      assert Lookup(sites, siteName, orgId) == Err(MultipleSites(siteName));
    }
  }

  /** Records that do not carry the name can be added after the list without changing the choice. */
  lemma {:induction false} UnnamedTailIgnored(sites: seq<Record>, extra: seq<Record>, siteName: string)
    requires forall k :: 0 <= k < |extra| ==> NameOf(extra[k]) != Some(siteName)
    ensures Matches(sites + extra, siteName) == Matches(sites, siteName)
    decreases |extra|
  {
    if |extra| > 0 {
      var shorter := extra[..|extra| - 1];
      assert (sites + extra)[..|sites + extra| - 1] == sites + shorter;
      UnnamedTailIgnored(sites, shorter, siteName);
      assert NameOf((sites + extra)[|sites + extra| - 1]) == NameOf(extra[|extra| - 1]);
    } else {
      assert sites + extra == sites;
    }
  }

  /** The positions named within a prefix are the first of the positions named in the whole list. */
  lemma {:induction false} MatchesOfPrefix(sites: seq<Record>, siteName: string, k: nat)
    requires k <= |sites|
    ensures Matches(sites[..k], siteName) <= Matches(sites, siteName)
    decreases |sites| - k
  {
    if k < |sites| {
      MatchesOfPrefix(sites, siteName, k + 1);
      assert sites[..k + 1][..k] == sites[..k];
    } else {
      assert sites[..k] == sites;
    }
  }

  /**
    The selection loop: records whose "name" is not a string are skipped,
    the first record named siteName is kept, and a second one stops the loop
    with the "multiple sites" error at once.
   */
  method SelectSite(sites: seq<Record>, siteName: string, orgId: string)
    returns (found: Result<Record, LookupError>)
    ensures found == Lookup(sites, siteName, orgId)
  {
    var foundSite: Option<Record> := None;
    var i := 0;
    while i < |sites|
      invariant 0 <= i <= |sites|
      invariant |Matches(sites[..i], siteName)| <= 1
      invariant foundSite.None? <==> |Matches(sites[..i], siteName)| == 0
      invariant foundSite.Some? ==> foundSite.value == sites[Matches(sites[..i], siteName)[0]]
    {
      assert sites[..i + 1][..i] == sites[..i];
      var site := sites[i];
      var name := NameOf(site);
      if name.Some? && name.value == siteName {
        if foundSite.Some? {
          MatchesOfPrefix(sites, siteName, i + 1);
          return Err(MultipleSites(siteName));
        }
        foundSite := Some(site);
      }
      i := i + 1;
    }
    assert sites[..i] == sites;
    if foundSite.None? {
      return Err(NoSite(siteName, orgId));
    }
    return Ok(foundSite.value);
  }

  /** The diagnostics the read returns. */
  datatype Diagnostic =
    | ListFailed(err: ClientError)     // "error fetching sites: %v"
    | NotSelected(why: LookupError)

  /**
    The outcome of a read: the Terraform state it sets (the resource id, and
    the "region" attribute as the record holds it, None for a missing member),
    a diagnostic, or the panic of the type assertion on a selected record whose
    "id" is not a string.
   */
  datatype ReadResult =
    | SiteState(id: string, region: Option<Json>)
    | Diagnosed(diagnostic: Diagnostic)
    | IdNotString

  /** What the read makes of the listing's outcome. */
  function ReadOutcome(listing: Result<seq<Record>, ClientError>, siteName: string, orgId: string): ReadResult {
    match listing
    case Err(e) => Diagnosed(ListFailed(e))
    case Ok(sites) =>
      match Lookup(sites, siteName, orgId)
      case Err(why) => Diagnosed(NotSelected(why))
      case Ok(site) =>
        match Field(site, "id")
        case Some(JString(id)) => SiteState(id, Field(site, "region"))
        case _ => IdNotString
  }

  /**
    The read sets state exactly when the listing succeeded and exactly one
    record carries the name with a string "id"; the state then holds that
    record's id and region. A listing error is reported as is, and every
    other failure is the lookup's.
   */
  lemma ReadOutcomeMeaning(listing: Result<seq<Record>, ClientError>, siteName: string, orgId: string)
    ensures listing.Err? ==> ReadOutcome(listing, siteName, orgId) == Diagnosed(ListFailed(listing.error))
    ensures ReadOutcome(listing, siteName, orgId).SiteState? ==>
      listing.Ok? &&
      exists i :: NamedOnly(listing.value, siteName, i)
        && Field(listing.value[i], "id") == Some(JString(ReadOutcome(listing, siteName, orgId).id))
        && Field(listing.value[i], "region") == ReadOutcome(listing, siteName, orgId).region
    ensures listing.Ok? &&
      (exists i :: (NamedOnly(listing.value, siteName, i)
        && "id" in listing.value[i] && listing.value[i]["id"].JString?))
      ==> ReadOutcome(listing, siteName, orgId).SiteState?
    ensures listing.Ok? && (forall i :: !Selects(listing.value, siteName, i))
      ==> ReadOutcome(listing, siteName, orgId) == Diagnosed(NotSelected(NoSite(siteName, orgId)))
    ensures listing.Ok? && (exists i, j :: i != j && Selects(listing.value, siteName, i) && Selects(listing.value, siteName, j))
      ==> ReadOutcome(listing, siteName, orgId) == Diagnosed(NotSelected(MultipleSites(siteName)))
  {
    if listing.Ok? {
      var sites := listing.value;
      NoneNamed(sites, siteName);
      TwoNamed(sites, siteName);
      OneNamed(sites, siteName);
    }
  }

  /**
    dataSourceSecureConnectSiteRead: list the organization's sites with the
    configured client, then select the site and publish it.
   */
  method ReadSecureConnectSite(client: MerakiClient, w: World, orgId: string, siteName: string, maxPages: nat)
    returns (result: ReadResult)
    ensures result == ReadOutcome(
      ListFrom(Fetcher(client.maxRetries, w, client.apiKey), ListUrl(client.baseUrl, orgId), maxPages).result,
      siteName, orgId)
  {
    var sites, _ := client.GetSecureConnectSites(w, orgId, maxPages);
    if sites.Err? {
      return Diagnosed(ListFailed(sites.error));
    }
    var found := SelectSite(sites.value, siteName, orgId);
    if found.Err? {
      return Diagnosed(NotSelected(found.error));
    }
    var site := found.value;
    var id := Field(site, "id");
    if id.Some? && id.value.JString? {
      return SiteState(id.value.s, Field(site, "region"));
    }
    return IdNotString;
  }
}
