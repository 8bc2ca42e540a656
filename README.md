# Fyyur booking directory: show classification, summaries, listing and search

Fyyur is a web directory of venues, artists and the shows that link them.
This project models its domain logic in Dafny. That logic lives in `app.py`
and consists of:

- **The show classifier** (`identify_shows`). It splits the shows of one venue
  or artist into past shows (start time before now) and upcoming shows (start
  time after now). Both lists keep their original order. Each show is described
  by the party at its other end: the artist on a venue page, the venue on an
  artist page. The result also holds the length of each list.
- **The summary builders.** `get_venue_show_summary` and
  `get_artist_show_summary` describe one show. `get_venue_summary` and
  `get_artist_summary` give the id, the name and the number of upcoming shows.
- **The venues page.** It has one group per distinct (city, state) pair. Each
  group lists the summaries of the venues in that city and state.
- **The artists and shows pages.** These are flat lists.
- **Search by name.** `name ILIKE '%' + term + '%'` is a case-insensitive
  match. The term is not escaped, so `%`, `_` and backslash inside it keep
  their LIKE meaning.

Files:

- `seqs.dfy` (module `Seqs`): order-preserving selection. `Pick(s, keep)` keeps
  the elements at the positions a mask selects. `Kept(keep)` lists those
  positions in ascending order. The lemmas say that Pick returns exactly the
  elements at the positions Kept lists, in that order. They also count
  positions.
- `schema.dfy` (module `Schema`): the `Venue`, `Artist` and `Show` records.
  A show stores `Party` snapshots (id, name, image link) of its venue and
  artist, because a datatype cannot hold a record that contains itself.
- `classifier.dfy` (module `Classifier`): `identify_shows` and the four
  summary builders.
- `listing.dfy` (module `Listing`): the venues, artists and shows pages.
- `search.dfy` (module `Search`): LIKE patterns, ILIKE matching and the two
  search handlers.

**The clock.** `identify_shows` calls `datetime.now()` once for every
comparison. The past filter runs over all shows before the upcoming filter
starts. The model therefore takes two sequences of clock readings:
`pastReads[i]` is the time read when the past filter looks at `shows[i]`, and
`upcomingReads[i]` is the time read when the upcoming filter does. The two
lists are guaranteed disjoint only while the clock does not run backwards
(`ClockReadsInOrder`). `ClockSteppingBackCountsShowTwice` shows one show
landing in both lists when the wall clock is set back between the two filters.
A show whose start time lies between its two readings is in neither list. With
a steady clock, those are the shows starting exactly at `now`.

**What follows from the clock reads.** With one `now` per call the two lists
would be disjoint, and the counts would add up to the number of shows unless a
show starts exactly at `now`. Because the code reads the clock for every
comparison, disjointness is proved under `ClockReadsInOrder`
(`PastAndUpcomingDisjoint`) and the count equation under a steady clock
(`CountsCoverAllShows`).

## Model

| member | source | states |
|---|---|---|
| `Classifier.IdentifyShows` | app.py:106-131 | The counts equal the lengths of the two lists. The past list describes, one for one and in order, the shows at the positions the past filter keeps. The upcoming list does the same for the upcoming filter. Each entry is the summary of the other party of its show. |
| `Classifier.PastShowsExactly` | app.py:107-115 | The past list holds exactly the shows whose start time is before their clock reading, in ascending position order. |
| `Classifier.UpcomingShowsExactly` | app.py:111-116 | The upcoming list holds exactly the shows whose start time is after their clock reading, in ascending position order. |
| `Classifier.PastAndUpcomingDisjoint` | app.py:106-116 | While the clock does not run backwards, no show is in both lists. The two counts add up to at most the number of shows. |
| `Classifier.ShowAtNowInNeither` | app.py:107-113 | A show starting between its two clock readings is in neither list. This includes a show starting exactly at a steady `now`. |
| `Classifier.CountsCoverAllShows` | app.py:115-130 | With a steady clock, past count plus upcoming count equals the number of shows if and only if no show starts exactly at `now`. |
| `Classifier.ClockSteppingBackCountsShowTwice` | app.py:106-116 | If the clock goes back between the two filters, one show can appear in both lists. |
| `Classifier.SummariesFollowSide` | app.py:118-147 | On a venue page every entry is an artist summary. On an artist page every entry is a venue summary. Each entry carries the start time of the show at its position. |
| `Classifier.ArtistShowSummary` | app.py:141-147 | The summary is an artist entry carrying the show's artist id, name and image link and the show's start time. |
| `Classifier.VenueShowSummary` | app.py:133-139 | The summary is a venue entry carrying the show's venue id, name and image link and the show's start time. |
| `Classifier.SummaryOf` | app.py:118-130 | On a venue page (`is_venue`) a show is described by its artist's id, name and image link, otherwise by its venue's; either way with the show's start time. |
| `Classifier.GetVenueSummary` | app.py:149-154 | The id and name are copied from the venue. The upcoming count is the number of the venue's shows that start after their clock reading. |
| `Classifier.GetArtistSummary` | app.py:156-161 | The id and name are copied from the artist. The upcoming count is the number of the artist's shows that start after their clock reading. |
| `Classifier.VenueSummaryAt` | app.py:149-154 | With a steady clock, the upcoming count is the number of the venue's shows starting after `now`. |
| `Classifier.ArtistSummaryAt` | app.py:156-161 | With a steady clock, the upcoming count is the number of the artist's shows starting after `now`. |
| `Listing.DistinctCityStates` | app.py:183 | Every pair occurs once. A pair is listed if and only if some venue has it. |
| `Listing.VenuesIn` | app.py:187 | The group is exactly the venues with the requested city and state, in table order: a venue is returned if and only if it has the pair, and the k-th venue returned is the one at the k-th matching position. |
| `Listing.VenueSummaries` | app.py:191 | Gives one summary per venue, in order. Each summary is that venue's summary at `now`. |
| `Listing.ListVenues` | app.py:183-192 | Gives one group per distinct pair, in the pairs' order. Each group carries its city and state and the summaries of exactly the venues filtered by that pair. |
| `Listing.GroupMembersShareCityState` | app.py:186-191 | Every venue in a group has that group's city and state. |
| `Listing.EveryVenueInOwnGroup` | app.py:183-191 | Every venue's (city, state) pair is listed, and the venue appears in that pair's group. |
| `Listing.NoVenueInTwoGroups` | app.py:183-191 | If a venue appears in the groups at positions a and b, then a and b are the same position. |
| `Listing.GroupsCoverAllVenues` | app.py:183-192 | The group sizes add up to the number of venues, so the groups partition the table. |
| `Listing.ListArtists` | app.py:302-303 | Gives one summary per artist, in order, with the artist's id and name and the number of its shows starting after `now`. |
| `Listing.ListShows` | app.py:440-450 | Gives one row per show, in order, carrying the show's venue id and name, artist id, name and image link, and start time. |
| `Search.ContainsPattern` | app.py:203 | The pattern is `%`, then the term unchanged, then `%`. |
| `Search.Tokenize` | app.py:203 | A LIKE pattern is rejected only when it ends in a backslash. A pattern without backslashes reads one token per character, `%` as a run and `_` as one character. |
| `Search.Matches` | app.py:203 | A non-empty pattern of runs alone matches every name. A pattern without runs matches only names of its own length. |
| `Search.ILike` | app.py:203 | `name ILIKE pattern` is rejected only for a pattern ending in a backslash. A non-empty pattern of `%` signs matches every name. |
| `Search.SearchPatternAccepted` | app.py:203 | The search pattern passes LIKE's escape grammar for every term, including terms with `%`, `_` or backslashes. |
| `Search.PlainSearchTokens` | app.py:203 | For a term without `%`, `_` or backslash, the search pattern reads as a run, the term's characters as literals, and a run. |
| `Search.FoundAt` | app.py:203 | A term without `%`, `_` or backslash whose characters, ignoring case, stand in a name at some position makes the name match the search pattern. |
| `Search.PlainTermMatchesSubstring` | app.py:203 | For a term without `%`, `_` or backslash, a name matches if and only if the lower-cased term occurs in the lower-cased name. |
| `Search.Hits` | app.py:314 | The hit positions are ascending, and a position is a hit if and only if its name matches the pattern. |
| `Search.HitsAreSubstringMatches` | app.py:314 | For a term without wildcards or escapes, a name is a hit if and only if the term occurs in it, ignoring case. |
| `Search.SearchVenues` | app.py:196-208 | A form without `search_term` is an error. Otherwise, as far as the model goes (see "Left out"), the search succeeds. The count equals the number of returned summaries. The k-th summary is that of the k-th matching venue. |
| `Search.SearchArtists` | app.py:307-319 | The artist analogue of `SearchVenues`. |
| `Search.EmptyTermMatchesAll` | app.py:202-207 | The empty term returns every venue: the count is the number of venues, and the k-th summary is that of the k-th venue. |
| `Search.PercentTermMatchesAll` | app.py:203 | The term `%` acts as a wildcard and matches every name. |
| `Search.UnderscoreTermMatchesNonEmpty` | app.py:314 | The term `_` acts as a wildcard and matches exactly the non-empty names. |
| `Search.HopFindsTheMusicalHop` | app.py:199 | Searching "Hop" matches "The Musical Hop". |
| `Search.MusicFindsTheMusicalHop` | app.py:200 | Searching "Music" matches "The Musical Hop". |
| `Search.MusicFindsParkSquare` | app.py:200 | Searching "Music" matches "Park Square Live Music & Coffee". |
| `Search.BandFindsTheWildSaxBand` | app.py:311 | Searching "band" matches "The Wild Sax Band" but not "Guns N Petals". |
| `Search.AFindsThreeArtists` | app.py:310 | Searching "A" matches "Guns N Petals", "Matt Quevado" and "The Wild Sax Band". |

## Left out

- Flask routing, `render_template`, `flash`, `redirect`, `jsonify`, the landing page, the form classes, the 404/500 handlers and the logging setup (app.py:170-172, 491-508). These are web plumbing with no domain logic.
- Create and delete handlers for venues, artists and shows (app.py:232-291, 397-489). They are transactions against an external database: add, commit, rollback and close. Cascade delete and the composite-key uniqueness of shows are enforced by the storage engine, not by this code.
- Edit handlers (app.py:337-387). They return fixed dictionaries and write nothing.
- Detail pages (app.py:211-222, 322-333). They look up one row and attach the `IdentifyShows` result to it. When no row has the id, `first()` returns None and `identify_shows` raises on `None.shows` (app.py:115), a server error. `IdentifyShows` takes a sequence of shows and cannot represent this.
- Date formatting (`format_datetime`, `strftime` at app.py:92-98, 138, 146, 449). Summaries and show rows carry the integer start time instead of its formatted text.
- The ORM mapping itself. Records are plain datatypes. A venue's `shows` relationship is a sequence, and its order is the order the model is given.
- `Classifier.VenueSummaryAt`: the venues page, the artists page and both searches use one instant `now` for the whole request, while the source reads the clock for every comparison. Per-read behaviour is modelled only for a single `IdentifyShows` / `GetVenueSummary` / `GetArtistSummary` call.
- `Classifier.ArtistSummaryAt`: one instant `now` per request, for the same reason as `VenueSummaryAt`.
- `Search.Lower`: ILIKE case folding (`Lower`, used by `Matches`) is modelled for ASCII letters only. Locale-dependent folding of other characters is not modelled.
- `Search.Tokenize`: a pattern ending in a lone backslash is rejected before matching starts. PostgreSQL raises that error only when matching reaches the trailing escape. The search pattern always ends in `%`, so the searches are not affected.
- `Search.SearchVenues`: the query can still fail inside the database. A `search_term` containing a NUL character cannot be sent as PostgreSQL text, and a failed database call ends the request. Both end in a server error, which the model does not represent.
- `Search.SearchArtists`: the same database-side failures as `SearchVenues` are not modelled.
- `Listing.ListVenues`: the venues page runs several queries: the `DISTINCT ON` query (app.py:183), one `filter_by` query per pair (app.py:187), and the lazy loads of each venue's shows. The model gives all of them one snapshot of the table. Under PostgreSQL's default READ COMMITTED isolation each query can see rows committed after the previous one, so a venue created during the request with a new (city, state) pair can land in no group. Concurrent writes are not modelled, and `EveryVenueInOwnGroup` and `GroupsCoverAllVenues` hold for a single snapshot only.
- `Listing.DistinctCityStates`: `DISTINCT ON` without `ORDER BY` returns the pairs in an order the database chooses. The model uses order of first appearance, and the group lemmas do not depend on that order.
- Query result order (filter by city/state, search, all artists, all shows) is the table order given to the model. The database promises no order.
