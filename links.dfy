/**
  The search for the next page's address in a Link header
  (GetSecureConnectSites, client.go). It is a simplified, substring-based
  reading of the Link header of section 3 of RFC 8288: the header is split on
  commas, each piece is trimmed, and the first piece that mentions
  rel="next" or rel=next and has its first '<' before its first '>' gives
  the text between those two characters.
 */
module Links {

  import opened Results
  import opened GoStrings

  const NextQuoted := "rel=\"next\""
  const NextBare := "rel=next"

  predicate MentionsNext(link: string) {
    Contains(link, NextQuoted) || Contains(link, NextBare)
  }

  /** u stands between the '<' at position i, the first '<' of link, and the first '>' of link. */
  predicate Bracketed(link: string, u: string, i: int) {
    && 0 <= i && i + |u| + 1 < |link|
    && link[i] == '<' && link[i + |u| + 1] == '>'
    && link[i + 1..i + |u| + 1] == u
    && '<' !in link[..i] && '>' !in link[..i + |u| + 1]
  }

  /**
    The target of one trimmed piece of the header, if it is a usable "next"
    link: the text strictly between its first '<' and its first '>'.
    TargetMeaning states when there is one and what it is.
   */
  function Target(link: string): (r: Option<string>)
  {
    if !MentionsNext(link) then None
    else
      var start := IndexChar(link, '<');
      var end := IndexChar(link, '>');
      if start != -1 && end != -1 && end > start then
        Some(link[start + 1..end])
      else None
  }

  /** Some '<' of link comes before some '>', and no '>' comes before that '<'. */
  predicate OpensBeforeCloses(link: string) {
    exists i, j :: 0 <= i < j < |link| && link[i] == '<' && link[j] == '>' && '>' !in link[..i]
  }

  lemma FirstAnglesOrdered(link: string)
    ensures OpensBeforeCloses(link) <==>
      (IndexChar(link, '<') != -1 && IndexChar(link, '>') != -1 && IndexChar(link, '>') > IndexChar(link, '<'))
  {
  }

  /**
    A piece is usable exactly when it mentions rel="next" or rel=next and
    some '<' comes before some '>' with no '>' ahead of that '<'; its target
    is then the text between its first '<' and its first '>', and holds no '>'.
   */
  lemma TargetMeaning(link: string)
    ensures Target(link).Some? <==> MentionsNext(link) && OpensBeforeCloses(link)
    ensures Target(link).Some? ==> Bracketed(link, Target(link).value, IndexChar(link, '<'))
    ensures Target(link).Some? ==> '>' !in Target(link).value
  {
    FirstAnglesOrdered(link);
    if Target(link).Some? {
      BetweenFirstAngles(link, IndexChar(link, '<'), IndexChar(link, '>'));
    }
  }

  /** The text between a first '<' and a later first '>' is bracketed by them and holds no '>'. */
  lemma BetweenFirstAngles(link: string, i: int, j: int)
    requires 0 <= i < j < |link| && link[i] == '<' && link[j] == '>'
    requires '<' !in link[..i] && '>' !in link[..j]
    ensures Bracketed(link, link[i + 1..j], i) && '>' !in link[i + 1..j]
  {
    assert link[..j] == link[..i + 1] + link[i + 1..j];
  }

  /** A piece of the header that, once trimmed, has a target. */
  predicate Usable(piece: string) {
    Target(TrimSpace(piece)).Some?
  }

  /** The scan over the pieces of the header: the first usable target, or "". */
  function FirstNext(links: seq<string>): string {
    if |links| == 0 then ""
    else
      match Target(TrimSpace(links[0]))
      case Some(u) => u
      case None => FirstNext(links[1..])
  }

  /** The address of the next page named by a Link header, "" when there is none. */
  function NextLink(header: string): string {
    FirstNext(Split(header, ','))
  }

  /**
    The loop of GetSecureConnectSites that looks for the next page: it walks
    the pieces in order and stops at the first usable one.
   */
  method ScanNextLink(linkHeader: string) returns (nextUrl: string)
    ensures nextUrl == NextLink(linkHeader)
  {
    nextUrl := "";
    var links := Split(linkHeader, ',');
    var k := 0;
    while k < |links|
      invariant 0 <= k <= |links|
      invariant FirstNext(links) == FirstNext(links[k..])
    {
      var link := TrimSpace(links[k]);
      FirstNextAt(links, k);
      if Contains(link, NextQuoted) || Contains(link, NextBare) {
        var start := IndexChar(link, '<');
        var end := IndexChar(link, '>');
        if start != -1 && end != -1 && end > start {
          nextUrl := link[start + 1..end];
          assert Target(link) == Some(nextUrl);
          return;
        }
      }
      assert Target(link).None?;
      k := k + 1;
    }
  }

  /** The scan from piece k on: the target of piece k, if it has one, else the scan from k + 1. */
  lemma FirstNextAt(links: seq<string>, k: nat)
    requires k < |links|
    ensures Target(TrimSpace(links[k])).Some? ==> FirstNext(links[k..]) == Target(TrimSpace(links[k])).value
    ensures Target(TrimSpace(links[k])).None? ==> FirstNext(links[k..]) == FirstNext(links[k + 1..])
  {
    assert links[k..][0] == links[k] && links[k..][1..] == links[k + 1..];
  }

  /**
    The scan returns the target of the first usable piece, even when a piece
    before it mentions "next" without a usable <...>: such a piece is
    skipped, it does not end the scan.
   */
  lemma {:induction false} FirstUsablePieceWins(links: seq<string>, k: nat)
    requires k < |links|
    requires Usable(links[k])
    requires forall j :: 0 <= j < k ==> !Usable(links[j])
    ensures FirstNext(links) == Target(TrimSpace(links[k])).value
  {
    if k > 0 {
      FirstNextAt(links, 0);
      assert links[0..] == links && links[1..][k - 1] == links[k];
      FirstUsablePieceWins(links[1..], k - 1);
    }
  }

  /** Without a usable piece the scan finds nothing. */
  lemma {:induction false} NoUsablePieceNoLink(links: seq<string>)
    requires forall j :: 0 <= j < |links| ==> !Usable(links[j])
    ensures FirstNext(links) == ""
  {
    if |links| > 0 {
      assert !Usable(links[0]);
      NoUsablePieceNoLink(links[1..]);
    }
  }

  /** The next address never holds a '>' and, coming from one piece, never a ','. */
  lemma {:induction false} NextLinkShape(header: string)
    ensures '>' !in NextLink(header) && ',' !in NextLink(header)
  {
    var links := Split(header, ',');
    FirstNextShape(links);
  }

  lemma TargetWithin(link: string)
    requires Target(link).Some?
    ensures forall c :: c in Target(link).value ==> c in link && c != '>'
  {
  }

  lemma {:induction false} FirstNextShape(links: seq<string>)
    requires forall k :: 0 <= k < |links| ==> ',' !in links[k]
    ensures '>' !in FirstNext(links) && ',' !in FirstNext(links)
  {
    if |links| > 0 {
      if Usable(links[0]) {
        TargetWithin(TrimSpace(links[0]));
        TrimSpaceMeaning(links[0]);
        assert ',' !in links[0];
      } else {
        assert FirstNext(links) == FirstNext(links[1..]);
        FirstNextShape(links[1..]);
      }
    }
  }

  /** The first piece of `link + rest` is link, when link has no comma and rest starts with one. */
  lemma SplitLeading(link: string, rest: string)
    requires ',' !in link
    requires rest == [] || rest[0] == ','
    ensures Split(link + rest, ',')[0] == link
  {
    var header := link + rest;
    if rest == [] {
      assert header == link;
    } else {
      assert header[|link|] == ',' && header[..|link|] == link;
    }
  }

  /** `<u>; rel="next"` is a usable link whose target is u. */
  lemma TargetOfNextLink(u: string)
    requires '>' !in u
    ensures Target("<" + u + ">; " + NextQuoted) == Some(u)
  {
    var link := "<" + u + ">; " + NextQuoted;
    assert OccursAt(link, NextQuoted, |u| + 4);
    IndexCharAt(link, '<', 0);
    assert link[..|u| + 1] == "<" + u;
    IndexCharAt(link, '>', |u| + 1);
    assert link[1..|u| + 1] == u;
  }

  /** A header whose first piece is a trimmed, usable link names that link's target. */
  lemma NextLinkOfLeading(link: string, rest: string)
    requires ',' !in link && TrimSpace(link) == link && Target(link).Some?
    requires rest == [] || rest[0] == ','
    ensures NextLink(link + rest) == Target(link).value
  {
    SplitLeading(link, rest);
  }

  /** A header whose first link is `<u>; rel="next"` names u as the next page. */
  lemma NextLinkOfLeadingNext(u: string, rest: string)
    requires '>' !in u && ',' !in u
    requires rest == [] || rest[0] == ','
    ensures NextLink("<" + u + ">; " + NextQuoted + rest) == u
  {
    var link := "<" + u + ">; " + NextQuoted;
    assert ',' !in link;
    TrimSpaceOfTrimmed(link);
    TargetOfNextLink(u);
    NextLinkOfLeading(link, rest);
  }
}
