# Photo-album results provider of the site-search plugin

This project models, in Dafny, the results provider that the site-search
plugin uses to search the Graker.PhotoAlbums plugin.

`search()` first checks a gate: the plugin must be installed, and the
`graker_photoalbums_enabled` setting, which defaults to on, must be on. If the
gate is closed, the provider does nothing. Otherwise it runs two database
queries, one on albums and one on photos. Each query selects the rows whose
title or description contains the query and orders them by `created_at`,
newest first. Every hit becomes a `Result`:

- relevance is 2 if the query occurs case-insensitively in the title, else 1;
- title, text and meta are the hit's title, description and creation time;
- the URL is built from the page configured for the hit's category;
- the thumbnail is the album's cover, or the photo's own image.

The results go onto the provider's list: all album results first, then all
photo results.

Files and modules:

- `text.dfy`, module `Text`: the case fold, substring occurrence and
  `mb_stripos` as a first-occurrence search.
- `settings.dfy`, module `Settings`: `Settings::get` with a default, and PHP
  truthiness.
- `content.dfy`, module `Content`: rows, the query's filter and its
  newest-first order, and the database as a class `ContentStore`. The class
  keeps a log of the queries run on it.
- `provider.dfy`, module `PhotoAlbums`: `Result`, the gate, the relevance
  rule, the result an item becomes, and the class `Provider`. Its field
  `results` is extended by `AddResult`, `AddSearchResult`,
  `AddSearchResults` (one `foreach`) and `Search`.
- `properties.dfy`, modules `SearchProperties` and `TripScenario`: lemmas
  about the result list after one search, and a worked two-album example.
- `like.dfy`, module `LikeFilter`: the `LIKE '%q%'` filter as the query
  builder writes it, apart from the database's escape character and under
  the model's fold, for the finding below.

The outside world is passed in as values (`PhotoAlbums.Host`):

- the set of installed plugin identifiers;
- the settings map;
- the models' `setUrl`, as a function of the category (which picks
  `Album::setUrl` or `Photo::setUrl`), the row and the configured page name;
- `Album::getImage`, as a function from an album to its cover.

Case folding is ASCII lower-casing. The database collation uses the same
fold.

## Model

| member | source | states |
|---|---|---|
| `Text.PositionFrom` | classes/providers/GrakerPhotoAlbumsResultsProvider.php:69 | the index found is the first occurrence of the needle at or after the start; None means it occurs at no index from the start on |
| `Text.PositionFolded` | classes/providers/GrakerPhotoAlbumsResultsProvider.php:69 | `mb_stripos` reports no match exactly when the query does not occur case-insensitively; a found index leaves room for the needle; an empty needle is found at 0 |
| `Text.ContainsThenFolded` | classes/providers/GrakerPhotoAlbumsResultsProvider.php:69 | a verbatim occurrence is also a case-insensitive one |
| `Text.EmptyOccursEverywhere` | classes/providers/GrakerPhotoAlbumsResultsProvider.php:69 | the empty query occurs in every string |
| `Content.FilterCount` | classes/providers/GrakerPhotoAlbumsResultsProvider.php:95-98 | the title-or-description filter keeps every matching row as often as it is stored, and drops every other row |
| `Content.InsertPermutes` | classes/providers/GrakerPhotoAlbumsResultsProvider.php:94 | inserting a row into the ordering adds exactly that row |
| `Content.InsertSorted` | classes/providers/GrakerPhotoAlbumsResultsProvider.php:94 | inserting into a newest-first sequence keeps it newest first |
| `Content.SortSpec` | classes/providers/GrakerPhotoAlbumsResultsProvider.php:94 | `orderBy('created_at', 'desc')` yields a newest-first permutation of its input |
| `Content.QueryResultSpec` | classes/providers/GrakerPhotoAlbumsResultsProvider.php:94-98 | a query returns exactly the rows whose title or description contains the query, each as often as stored, newest first, with no limit |
| `Content.EmptyQueryReturnsAll` | classes/providers/GrakerPhotoAlbumsResultsProvider.php:94-98 | the empty query returns every row of the table |
| `Content.ContentStore.Select` | classes/providers/GrakerPhotoAlbumsResultsProvider.php:92-120 | running the album or photo query returns that table's query result and logs one query of that category |
| `PhotoAlbums.PageKey` | classes/providers/GrakerPhotoAlbumsResultsProvider.php:75 | the settings key of the page for a category is `graker_photoalbums_album_page` or `graker_photoalbums_photo_page` |
| `PhotoAlbums.Identifier` | classes/providers/GrakerPhotoAlbumsResultsProvider.php:149-152 | the provider's identifier is always "Graker.PhotoAlbums" |
| `PhotoAlbums.DisplayName` | classes/providers/GrakerPhotoAlbumsResultsProvider.php:139-142 | the display name is the configured label, or "Photoalbums" when no label is configured |
| `PhotoAlbums.IsInstalledAndEnabled` | classes/providers/GrakerPhotoAlbumsResultsProvider.php:128-132 | the gate is open exactly when "Graker.PhotoAlbums" is installed and the enabled setting is missing or truthy |
| `PhotoAlbums.Relevance` | classes/providers/GrakerPhotoAlbumsResultsProvider.php:69 | relevance is 2 exactly when the query occurs case-insensitively in the title, and 1 exactly when it does not |
| `PhotoAlbums.SearchResultFields` | classes/providers/GrakerPhotoAlbumsResultsProvider.php:69-82 | a hit's result carries the query and the hit, has the title rule's relevance, copies title, description and creation time, takes its URL from the category's page, and has the album cover or the photo image as thumbnail |
| `PhotoAlbums.ResultsForAt` | classes/providers/GrakerPhotoAlbumsResultsProvider.php:49-55 | a run of hits yields one result per hit, in the hits' order |
| `PhotoAlbums.Provider.constructor` | classes/providers/GrakerPhotoAlbumsResultsProvider.php:32-36 | a new provider holds its query and an empty result list |
| `PhotoAlbums.Provider.AddResult` | classes/providers/GrakerPhotoAlbumsResultsProvider.php:84 | adding a result appends it to the list |
| `PhotoAlbums.Provider.AddSearchResult` | classes/providers/GrakerPhotoAlbumsResultsProvider.php:66-85 | building a hit field by field and adding it appends exactly that hit's result |
| `PhotoAlbums.Provider.AddSearchResults` | classes/providers/GrakerPhotoAlbumsResultsProvider.php:49-55 | one `foreach` appends the results of its hits, in order, to the old list |
| `PhotoAlbums.Provider.Search` | classes/providers/GrakerPhotoAlbumsResultsProvider.php:43-58 | with the gate closed, the list is unchanged and no query runs; with it open, the album query and then the photo query run, and the list becomes the old list, then the album results, then the photo results |
| `SearchProperties.GateClosedKeepsResults` | classes/providers/GrakerPhotoAlbumsResultsProvider.php:45-47 | a closed gate leaves the result list as it was |
| `SearchProperties.SearchAppends` | classes/providers/GrakerPhotoAlbumsResultsProvider.php:49-57 | with the gate open, the list grows by the number of album hits plus photo hits; the old list is its unchanged prefix, then come the album results, then the photo results |
| `SearchProperties.HitResults` | classes/providers/GrakerPhotoAlbumsResultsProvider.php:49-55 | the results of one category are those of its hits in order; each is about a stored row that matches the query; they are newest first; each has the category's thumbnail |
| `SearchProperties.AppendedResultsFaithful` | classes/providers/GrakerPhotoAlbumsResultsProvider.php:69-76 | every appended result carries the query, is about a stored matching row, copies its title, description and time, and has relevance 1 or 2, 2 exactly when the query is in the title |
| `SearchProperties.SearchOrder` | classes/providers/GrakerPhotoAlbumsResultsProvider.php:49-55 | the album part comes first, newest first, holding albums with their cover; the photo part follows, newest first, holding photos with their image |
| `SearchProperties.VerbatimTitleRanksHigh` | classes/providers/GrakerPhotoAlbumsResultsProvider.php:69 | a query that occurs verbatim in the title gives relevance 2, whatever the description holds |
| `SearchProperties.DescriptionOnlyRanksLow` | classes/providers/GrakerPhotoAlbumsResultsProvider.php:69 | a row found only through its description is a hit with relevance 1 |
| `SearchProperties.EmptyQueryRanksEverythingHigh` | classes/providers/GrakerPhotoAlbumsResultsProvider.php:69 | with the gate open, the empty query appends one result per stored album and photo, each with relevance 2 |
| `TripScenario.TripEnabled` | classes/providers/GrakerPhotoAlbumsResultsProvider.php:43-58 | albums "Summer Trip" (older) and "Winter Trip" (newer), searched for "Trip", give two results, Winter first, both with relevance 2 |
| `TripScenario.TripDisabled` | classes/providers/GrakerPhotoAlbumsResultsProvider.php:128-132 | with the enabled setting switched off, the same search adds nothing |
| `Settings.Get` | classes/providers/GrakerPhotoAlbumsResultsProvider.php:131 | a key that is set gives its stored value; a missing key gives the default |
| `Settings.Truthy` | classes/providers/GrakerPhotoAlbumsResultsProvider.php:130-131 | a switch is true when on; a string is true unless it is "" or "0" |
| `Content.QueryResult` | classes/providers/GrakerPhotoAlbumsResultsProvider.php:94-98 | the rows one query returns are stored rows that match the query, newest first |
| `Content.ContentStore.constructor` | classes/providers/GrakerPhotoAlbumsResultsProvider.php:94 | a new store holds the given album and photo tables and has run no query |
| `PhotoAlbums.UrlOf` | classes/providers/GrakerPhotoAlbumsResultsProvider.php:75 | the URL is built by the category's `setUrl` from the row and the configured page name, or "" when no page is configured |
| `PhotoAlbums.SearchResult` | classes/providers/GrakerPhotoAlbumsResultsProvider.php:69-82 | the result of a hit carries the query and the hit itself and has relevance 1 or 2 |
| `PhotoAlbums.SearchOutcome` | classes/providers/GrakerPhotoAlbumsResultsProvider.php:43-58 | the list after a search starts with the list before it, and equals it when the gate is closed |
| `LikeFilter.Like` | classes/providers/GrakerPhotoAlbumsResultsProvider.php:96-97 | the empty pattern matches only the empty string; a match of a pattern without `%` is exactly as long as the pattern |
| `LikeFilter.LikeMatches` | classes/providers/GrakerPhotoAlbumsResultsProvider.php:115-119 | for a query without wildcards, the filter as written selects exactly the rows whose title or description contains the query |
| `LikeFilter.LikeIsContainsForLiterals` | classes/providers/GrakerPhotoAlbumsResultsProvider.php:96-97 | for a query without `%` or `_`, `LIKE '%q%'` holds exactly when the query is a substring |
| `LikeFilter.LikeAgreesForLiterals` | classes/providers/GrakerPhotoAlbumsResultsProvider.php:115-119 | for a query without wildcards, the filter as written selects the same rows as the substring filter the model uses |
| `LikeFilter.UnderscoreSelectsNonMatch` | classes/providers/GrakerPhotoAlbumsResultsProvider.php:96-97 | the filter as written selects an album titled "x" for the query "_", though "_" occurs in neither field |

## Left out

- components/SiteSearchInclude.php: an empty marker component that returns two fixed strings and no properties. It has no behaviour to model.
- Eager loading of `latestPhoto` and `front` with their images (lines 99-104): ORM detail that does not change which rows are returned or their order.
- Unicode case folding of `mb_stripos` and the database collation: both are modelled as one ASCII lower-casing.
- `LIKE` wildcards: the model's queries use substring containment. The filter as written is modelled only in `LikeFilter`, which knows `%` and `_` but not the database's escape character.
- Rows with equal `created_at`: SQL leaves their order open. The model keeps them in table order.
- `setUrl`, `Settings::get` of the page name and the CMS controller: the model passes a function from the item and the page-name setting to a URL string. The side effect of `setUrl` on the model object is not modelled.
- `Album::getImage` (line 79): foreign model code, passed in as a function from an album to its cover.
- The base `ResultsProvider`, `Result` and `isPluginAvailable`: not part of this source. `addResult` is modelled as an append. Availability is membership in a set of installed plugin identifiers. The gate passes `identifier()`, assuming the base class's `identifier` property holds that value.
- `search()` returning `$this` for chaining: `Provider.Search` returns nothing.
- Query failures: database errors propagate uncaught in the source. The model's queries always succeed.
- `created_at` is an integer timestamp, and `meta` holds it as it is.
- NULL columns: `description` and `created_at` may be NULL in the tables, but the model's rows always have a string and an integer. In SQL `NULL LIKE '%%'` is not true and NULLs sort last under `desc`, so `EmptyQueryReturnsAll` and the order lemmas hold only for rows without NULLs.
- URL and cover: `setUrl` uses the row's id and slug, and `getImage` the album's photo relations. The model passes both as functions of the category and the row (with its key `id`); the slug and the relations are not modelled apart from the row.
- The thumbnail staying unset for a type other than album or photo (lines 78-82): unreachable, since the model has exactly these two categories.
- Settings values: only switches and strings are modelled, with PHP truthiness for the enabled switch.
- The empty needle of `mb_stripos` is found at position 0, as in PHP 8. Under PHP 7 it returned false, which would give relevance 1.
- The two `foreach` loops of `search()` live in `AddSearchResults`, called once for albums and once for photos. The effect on the list is the same.

The closed gate leaves the result list unchanged rather than clearing it. For a freshly constructed provider that is the empty list.

## Findings

| source | as written | input that shows it | evidently intended | confidence | as-written member | corrected member |
|---|---|---|---|---|---|---|
| classes/providers/GrakerPhotoAlbumsResultsProvider.php:96-97 | the query is pasted unescaped into `LIKE '%q%'`, so `%` and `_` in it act as wildcards (also lines 117-118) | query "_" with an album titled "x" and an empty description: the album is selected, with relevance 1, though "_" occurs in neither field | select the rows whose title or description contains the query text | medium; not executed | `LikeFilter.UnderscoreSelectsNonMatch` | `Content.QueryResultSpec` |
