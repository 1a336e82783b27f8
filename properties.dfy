/** What one `search()` call promises about the result list, proved of the
    function `SearchOutcome` that `Provider.Search` is verified against. */
module SearchProperties {
  import opened Text
  import opened Content
  import opened PhotoAlbums

  /** A closed gate leaves the list as it was. */
  lemma GateClosedKeepsResults(before: seq<Result>, query: string, host: Host, albumRows: seq<Item>, photoRows: seq<Item>)
    requires !IsInstalledAndEnabled(host)
    ensures SearchOutcome(before, query, host, albumRows, photoRows) == before
  {
  }

  /** The three parts of a concatenation, recovered by slicing. */
  lemma ThreeParts(a: seq<Result>, b: seq<Result>, c: seq<Result>)
    ensures |a + b + c| == |a| + |b| + |c|
    ensures (a + b + c)[..|a|] == a
    ensures (a + b + c)[|a|..|a| + |b|] == b
    ensures (a + b + c)[|a| + |b|..] == c
  {
    assert (a + b + c)[..|a|] == a;
    assert (a + b + c)[|a|..|a| + |b|] == b;
    assert (a + b + c)[|a| + |b|..] == c;
  }

  /** An open gate appends the results of the album hits, then those of the
      photo hits, and leaves the earlier results alone. */
  lemma SearchAppends(before: seq<Result>, query: string, host: Host, albumRows: seq<Item>, photoRows: seq<Item>)
    requires IsInstalledAndEnabled(host)
    ensures var out := SearchOutcome(before, query, host, albumRows, photoRows);
      var hitsA := QueryResult(albumRows, query);
      var hitsP := QueryResult(photoRows, query);
      && |out| == |before| + |hitsA| + |hitsP|
      && out[..|before|] == before
      && out[|before|..|before| + |hitsA|] == ResultsFor(query, hitsA, Albums, host)
      && out[|before| + |hitsA|..] == ResultsFor(query, hitsP, Photos, host)
  {
    var hitsA := QueryResult(albumRows, query);
    var hitsP := QueryResult(photoRows, query);
    ResultsForAt(query, hitsA, Albums, host);
    ResultsForAt(query, hitsP, Photos, host);
    ThreeParts(before, ResultsFor(query, hitsA, Albums, host), ResultsFor(query, hitsP, Photos, host));
  }

  /** The results of one category's hits follow the hits: each is the result
      of the hit at the same place, about a stored row that matches the query,
      newest first, with the category's thumbnail. */
  lemma HitResults(query: string, rows: seq<Item>, c: Category, host: Host)
    ensures var hits := QueryResult(rows, query);
      var rs := ResultsFor(query, hits, c, host);
      && |rs| == |hits|
      && (forall k :: 0 <= k < |rs| ==> rs[k] == SearchResult(query, hits[k], c, host))
      && (forall k :: 0 <= k < |rs| ==> rs[k].model in rows && Matches(rs[k].model, query))
      && (forall k :: 0 <= k < |rs| ==> rs[k].thumb == (if c == Albums then host.cover(rs[k].model) else rs[k].model.image))
      && (forall i, j :: 0 <= i < j < |rs| ==> rs[i].meta >= rs[j].meta)
  {
    var hits := QueryResult(rows, query);
    var rs := ResultsFor(query, hits, c, host);
    ResultsForAt(query, hits, c, host);
    QueryResultSpec(rows, query);
    forall k | 0 <= k < |rs|
      ensures rs[k].model == hits[k] && rs[k].meta == hits[k].createdAt
      ensures rs[k].model in rows && Matches(rs[k].model, query)
      ensures rs[k].thumb == (if c == Albums then host.cover(rs[k].model) else rs[k].model.image)
    {
      SearchResultFields(query, hits[k], c, host);
      assert hits[k] in hits;
    }
    forall i, j | 0 <= i < j < |rs| ensures rs[i].meta >= rs[j].meta {
      assert hits[i].createdAt >= hits[j].createdAt;
    }
  }

  /** Every result appended by one search is about a stored row that matches
      the query, carries the query, copies the row's fields, and has relevance
      2 exactly when the query is in the title and 1 otherwise. */
  lemma AppendedResultsFaithful(before: seq<Result>, query: string, host: Host, albumRows: seq<Item>, photoRows: seq<Item>)
    ensures var out := SearchOutcome(before, query, host, albumRows, photoRows);
      forall k :: |before| <= k < |out| ==>
        && out[k].query == query
        && (out[k].model in albumRows || out[k].model in photoRows)
        && Matches(out[k].model, query)
        && out[k].title == out[k].model.title
        && out[k].text == out[k].model.description
        && out[k].meta == out[k].model.createdAt
        && (out[k].relevance == 1 || out[k].relevance == 2)
        && (out[k].relevance == 2 <==> ContainsFolded(out[k].title, query))
  {
    var out := SearchOutcome(before, query, host, albumRows, photoRows);
    if IsInstalledAndEnabled(host) {
      var b, nA := |before|, |QueryResult(albumRows, query)|;
      SearchAppends(before, query, host, albumRows, photoRows);
      HitResults(query, albumRows, Albums, host);
      HitResults(query, photoRows, Photos, host);
      forall k | b <= k < |out|
        ensures out[k].query == query
        ensures out[k].model in albumRows || out[k].model in photoRows
        ensures Matches(out[k].model, query)
        ensures out[k].title == out[k].model.title
        ensures out[k].text == out[k].model.description
        ensures out[k].meta == out[k].model.createdAt
        ensures out[k].relevance == 1 || out[k].relevance == 2
        ensures out[k].relevance == 2 <==> ContainsFolded(out[k].title, query)
      {
        var c := if k < b + nA then Albums else Photos;
        if k < b + nA {
          assert out[k] == out[b..b + nA][k - b];
        } else {
          assert out[k] == out[b + nA..][k - b - nA];
        }
        SearchResultFields(query, out[k].model, c, host);
      }
    }
  }

  /** Album results come first, newest first, with the album's cover as
      thumbnail; photo results follow, newest first, with the photo's own
      image. */
  lemma SearchOrder(before: seq<Result>, query: string, host: Host, albumRows: seq<Item>, photoRows: seq<Item>)
    requires IsInstalledAndEnabled(host)
    ensures var out := SearchOutcome(before, query, host, albumRows, photoRows);
      var albumPart := out[|before|..|before| + |QueryResult(albumRows, query)|];
      var photoPart := out[|before| + |QueryResult(albumRows, query)|..];
      && (forall i, j :: 0 <= i < j < |albumPart| ==> albumPart[i].meta >= albumPart[j].meta)
      && (forall i, j :: 0 <= i < j < |photoPart| ==> photoPart[i].meta >= photoPart[j].meta)
      && (forall k :: 0 <= k < |albumPart| ==> albumPart[k].model in albumRows && albumPart[k].thumb == host.cover(albumPart[k].model))
      && (forall k :: 0 <= k < |photoPart| ==> photoPart[k].model in photoRows && photoPart[k].thumb == photoPart[k].model.image)
  {
    SearchAppends(before, query, host, albumRows, photoRows);
    HitResults(query, albumRows, Albums, host);
    HitResults(query, photoRows, Photos, host);
  }

  /** A query that appears verbatim in a title always ranks 2, whatever the
      description holds. */
  lemma VerbatimTitleRanksHigh(query: string, item: Item, c: Category, host: Host)
    requires Contains(item.title, query)
    ensures SearchResult(query, item, c, host).relevance == 2
  {
    ContainsThenFolded(item.title, query);
    SearchResultFields(query, item, c, host);
  }

  /** A hit found only through its description ranks 1. */
  lemma DescriptionOnlyRanksLow(query: string, item: Item, c: Category, host: Host)
    requires !ContainsFolded(item.title, query) && ContainsFolded(item.description, query)
    ensures Matches(item, query)
    ensures SearchResult(query, item, c, host).relevance == 1
  {
    SearchResultFields(query, item, c, host);
  }

  /** The empty query matches every row and ranks every result 2. */
  lemma EmptyQueryRanksEverythingHigh(before: seq<Result>, host: Host, albumRows: seq<Item>, photoRows: seq<Item>)
    requires IsInstalledAndEnabled(host)
    ensures var out := SearchOutcome(before, [], host, albumRows, photoRows);
      && |out| == |before| + |albumRows| + |photoRows|
      && forall k :: |before| <= k < |out| ==> out[k].relevance == 2
  {
    var out := SearchOutcome(before, [], host, albumRows, photoRows);
    SearchAppends(before, [], host, albumRows, photoRows);
    EmptyQueryReturnsAll(albumRows);
    EmptyQueryReturnsAll(photoRows);
    assert |multiset(QueryResult(albumRows, []))| == |multiset(albumRows)|;
    assert |multiset(QueryResult(photoRows, []))| == |multiset(photoRows)|;
    AppendedResultsFaithful(before, [], host, albumRows, photoRows);
    forall k | |before| <= k < |out| ensures out[k].relevance == 2 {
      EmptyOccursEverywhere(out[k].title);
    }
  }
}

/** The two-album example: "Summer Trip" (older) and "Winter Trip" (newer),
    searched for "Trip". */
module TripScenario {
  import opened Text
  import opened Content
  import opened PhotoAlbums
  import opened SearchProperties
  import Settings

  const Summer: Item := Item(1, "Summer Trip", "", 2, None)
  const Winter: Item := Item(2, "Winter Trip", "", 5, None)

  lemma TitleHasTrip(title: string)
    requires |title| == 11 && title[7..] == "Trip"
    ensures ContainsFolded(title, "Trip")
  {
    LowerStrSlice(title, 7, 11);
    assert OccursAt(LowerStr(title), LowerStr("Trip"), 7);
  }

  /** With the source enabled, both albums are found, newer first, and both
      rank 2. */
  lemma TripEnabled(host: Host)
    requires IsInstalledAndEnabled(host)
    ensures QueryResult([Summer, Winter], "Trip") == [Winter, Summer]
    ensures var out := SearchOutcome([], "Trip", host, [Summer, Winter], []);
      |out| == 2 && out[0].model == Winter && out[1].model == Summer
      && out[0].relevance == 2 && out[1].relevance == 2
  {
    TitleHasTrip(Summer.title);
    TitleHasTrip(Winter.title);
    assert [Summer, Winter][1..] == [Winter] && [Winter][1..] == [];
    assert Filter([Winter], "Trip") == [Winter];
    assert Filter([Summer, Winter], "Trip") == [Summer, Winter];
    assert SortNewestFirst([Winter]) == [Winter];
    assert Insert(Summer, [Winter]) == [Winter, Summer];
    assert SortNewestFirst([Summer, Winter]) == [Winter, Summer];
    assert QueryResult([], "Trip") == [];
    SearchAppends([], "Trip", host, [Summer, Winter], []);
    ResultsForAt("Trip", [Winter, Summer], Albums, host);
    SearchResultFields("Trip", Winter, Albums, host);
    SearchResultFields("Trip", Summer, Albums, host);
  }

  /** With the enabled switch off, the search adds nothing. */
  lemma TripDisabled(host: Host)
    requires EnabledKey in host.settings && host.settings[EnabledKey] == Settings.Flag(false)
    ensures SearchOutcome([], "Trip", host, [Summer, Winter], []) == []
  {
  }
}
