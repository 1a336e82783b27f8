/** The photo-album results provider: it gates on the plugin being installed
    and switched on, runs the album query and the photo query, turns every hit
    into a `Result` and appends it to its result list. */
module PhotoAlbums {
  import opened Text
  import opened Content
  import Settings

  type Url = string

  /** One search hit, as handed to the aggregating search page. */
  datatype Result = Result(
    query: string,
    relevance: int,
    title: string,
    text: string,
    meta: int,
    url: Url,
    thumb: Option<ImageRef>,
    model: Item)

  /** What the provider consults outside itself: the installed plugins, the
      settings, the models' URL builder (`Album::setUrl` or `Photo::setUrl`,
      chosen by the category, given the row and a page name) and an album's
      cover image (`getImage`). */
  datatype Host = Host(
    plugins: set<string>,
    settings: Settings.Store,
    setUrl: (Category, Item, Settings.Value) -> Url,
    cover: Item -> Option<ImageRef>)

  const EnabledKey: string := "graker_photoalbums_enabled"
  const LabelKey: string := "graker_photoalbums_label"
  const DefaultLabel: string := "Photoalbums"

  /** The settings key naming the CMS page that shows one item of `c`. */
  function PageKey(c: Category): (key: string)
    ensures key == (if c == Albums then "graker_photoalbums_album_page"
                    else "graker_photoalbums_photo_page")
  {
    "graker_photoalbums_" + TypeName(c) + "_page"
  }

  /** The plugin this provider searches. */
  function Identifier(): (id: string)
    ensures id == "Graker.PhotoAlbums"
  {
    "Graker.PhotoAlbums"
  }

  /** The label of this provider's results: the configured one, else the default. */
  function DisplayName(settings: Settings.Store): (name: Settings.Value)
    ensures LabelKey in settings ==> name == settings[LabelKey]
    ensures LabelKey !in settings ==> name == Settings.Text("Photoalbums")
  {
    Settings.Get(settings, LabelKey, Settings.Text(DefaultLabel))
  }

  /** The gate: the plugin is installed and the enabled switch, which defaults
      to on, is on. */
  function IsInstalledAndEnabled(host: Host): (open: bool)
    ensures open <==> "Graker.PhotoAlbums" in host.plugins
                      && (EnabledKey !in host.settings || Settings.Truthy(host.settings[EnabledKey]))
  {
    Identifier() in host.plugins
    && Settings.Truthy(Settings.Get(host.settings, EnabledKey, Settings.Flag(true)))
  }

  /** 2 when the query occurs case-insensitively in the title, 1 otherwise. */
  function Relevance(title: string, query: string): (r: int)
    ensures r == 2 <==> ContainsFolded(title, query)
    ensures r == 1 <==> !ContainsFolded(title, query)
  {
    if PositionFolded(title, query).None? then 1 else 2
  }

  /** The URL of an item, from the page configured for its category. */
  function UrlOf(host: Host, item: Item, c: Category): (url: Url)
    ensures PageKey(c) in host.settings ==> url == host.setUrl(c, item, host.settings[PageKey(c)])
    ensures PageKey(c) !in host.settings ==> url == host.setUrl(c, item, Settings.Text(""))
  {
    host.setUrl(c, item, Settings.Get(host.settings, PageKey(c), Settings.Text("")))
  }

  /** The result a hit of category `c` becomes. */
  function SearchResult(query: string, item: Item, c: Category, host: Host): (r: Result)
    ensures r.query == query && r.model == item
    ensures r.relevance == 1 || r.relevance == 2
  {
    Result(query, Relevance(item.title, query), item.title, item.description, item.createdAt,
           UrlOf(host, item, c),
           match c { case Albums => host.cover(item) case Photos => item.image },
           item)
  }

  /** A result carries the provider's query and the hit itself; its relevance
      says whether the query is in the title; title, text and meta are the
      hit's title, description and creation time; the URL comes from the page
      configured for the category, and the thumbnail is an album's cover or a
      photo's own image. */
  lemma SearchResultFields(query: string, item: Item, c: Category, host: Host)
    ensures var r := SearchResult(query, item, c, host);
      && r.query == query && r.model == item
      && r.relevance == (if ContainsFolded(item.title, query) then 2 else 1)
      && r.title == item.title && r.text == item.description && r.meta == item.createdAt
      && r.url == host.setUrl(c, item, Settings.Get(host.settings, PageKey(c), Settings.Text("")))
      && r.thumb == (if c == Albums then host.cover(item) else item.image)
  {
  }

  /** The results of a run of hits. */
  function ResultsFor(query: string, hits: seq<Item>, c: Category, host: Host): seq<Result> {
    seq(|hits|, i requires 0 <= i < |hits| => SearchResult(query, hits[i], c, host))
  }

  /** One result per hit, in the hits' order. */
  lemma ResultsForAt(query: string, hits: seq<Item>, c: Category, host: Host)
    ensures |ResultsFor(query, hits, c, host)| == |hits|
    ensures forall i :: 0 <= i < |hits| ==> ResultsFor(query, hits, c, host)[i] == SearchResult(query, hits[i], c, host)
  {
  }

  /** Appending a hit appends its result. */
  lemma ResultsForSnoc(query: string, hits: seq<Item>, x: Item, c: Category, host: Host)
    ensures ResultsFor(query, hits + [x], c, host) == ResultsFor(query, hits, c, host) + [SearchResult(query, x, c, host)]
  {
  }

  /** The result list after `search()`, given the list before it. */
  function SearchOutcome(before: seq<Result>, query: string, host: Host, albumRows: seq<Item>, photoRows: seq<Item>): (out: seq<Result>)
    ensures |before| <= |out| && out[..|before|] == before
    ensures !IsInstalledAndEnabled(host) ==> out == before
  {
    if !IsInstalledAndEnabled(host) then before
    else before + ResultsFor(query, QueryResult(albumRows, query), Albums, host)
                + ResultsFor(query, QueryResult(photoRows, query), Photos, host)
  }

  class Provider {
    const query: string
    var results: seq<Result>

    constructor (query: string)
      ensures this.query == query && results == []
    {
      this.query := query;
      results := [];
    }

    /** `addResult`: appends one result. */
    method AddResult(r: Result)
      modifies this`results
      ensures results == old(results) + [r]
    {
      results := results + [r];
    }

    /** `addSearchResult`: builds the result of one hit and appends it. */
    method AddSearchResult(item: Item, c: Category, host: Host)
      modifies this`results
      ensures results == old(results) + [SearchResult(query, item, c, host)]
    {
      var relevance := if PositionFolded(item.title, query).None? then 1 else 2;
      var title := item.title;
      var text := item.description;
      var meta := item.createdAt;
      var url := host.setUrl(c, item, Settings.Get(host.settings, "graker_photoalbums_" + TypeName(c) + "_page", Settings.Text("")));
      var thumb: Option<ImageRef> := None;
      if c == Albums {
        thumb := host.cover(item);
      } else if c == Photos {
        thumb := item.image;
      }
      AddResult(Result(query, relevance, title, text, meta, url, thumb, item));
    }

    /** One `foreach` of `search`: the results of `hits`, in their order. */
    method AddSearchResults(hits: seq<Item>, c: Category, host: Host)
      modifies this`results
      ensures results == old(results) + ResultsFor(query, hits, c, host)
    {
      for i := 0 to |hits|
        invariant results == old(results) + ResultsFor(query, hits[..i], c, host)
      {
        assert hits[..i + 1] == hits[..i] + [hits[i]];
        ResultsForSnoc(query, hits[..i], hits[i], c, host);
        AddSearchResult(hits[i], c, host);
      }
      assert hits[..|hits|] == hits;
    }

    /** `search`: nothing when the gate is closed; otherwise every album hit,
        then every photo hit, appended in query order. */
    method Search(host: Host, store: ContentStore)
      modifies this`results, store`issued
      ensures results == SearchOutcome(old(results), query, host, store.albumRows, store.photoRows)
      ensures store.issued == old(store.issued) + (if IsInstalledAndEnabled(host) then [Albums, Photos] else [])
    {
      if !IsInstalledAndEnabled(host) {
        return;
      }
      var albums := store.Select(Albums, query);
      AddSearchResults(albums, Albums, host);
      var photos := store.Select(Photos, query);
      AddSearchResults(photos, Photos, host);
    }
  }
}
