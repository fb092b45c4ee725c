# Commit statistics service, modelled in Dafny

The service answers two questions about the commits of the GitHub
repository `teradici/deploy` within a date window `[start, end]`:

- `GET /users`: the distinct commit authors, one per e-mail address;
- `GET /most-frequent`: the authors ranked by number of commits, most first.

Each handler does the same things in order:

1. It takes `start` and `end` from the query string, falling back to
   `2019-06-01` and `2020-05-31`.
2. It rejects a window that does not parse or is not strictly increasing
   with 400 `Invalid date range`.
3. It looks the window up in a Redis cache, under the key
   `users:<start>:<end>` or `most-frequent:<start>:<end>`.
4. On a hit it returns the cached value. On a miss it fetches the commit
   listing, aggregates it, stores the result for 120 seconds and returns it.
5. Any rejection along the way (cache read, fetch, cache write) gives 500
   with the error's message.

The modules are:

- `Wrappers`: `Option` and `Result`.
- `Sequences`: first and last occurrence, counting, sums, and the
  "distinct elements in order of first occurrence" predicate.
- `OrderedMaps`: the JavaScript `Map`. Its keys keep their order of first
  insertion, and setting an existing key keeps that key's place.
- `DateRange`: the query defaults and the date-window check. A JavaScript
  `Date` is modelled as NaN or a time value, and a comparison involving NaN
  is false.
- `Contributors`: the `/users` aggregation, which de-duplicates authors by
  e-mail through a `Map`.
- `Ranking`: the `/most-frequent` aggregation. It has three imperative loops:
  - counting commits per author name into a `Map`;
  - pushing the map's entries onto an array;
  - sorting that array in place, with a stable insertion sort.

  Each loop is proved against a specification function. The lemmas prove:
  - the counts are exact and sum to the number of commits;
  - the result is sorted and is a permutation of the entries;
  - ties keep first-occurrence order;
  - any stable sort by this comparator yields exactly this list.
- `Server`: cache keys, `Handle` (one request as a function of the cache
  and the outcomes of the network calls), and the class
  `CommitStatsServer`. Its methods `GetUsers` and `GetMostFrequent` update
  the cache field and are proved equal to `Handle`.

The cache holds structured values (`Entry(value, ttl)`) rather than JSON
text, so each entry records the time to live passed to the cache write.

Every rejection inside the `get(...).then(...)` chain, including a failing
cache read or cache write, answers 500 with the error's message
(`Server.HandleFailure`).

The `/most-frequent` handler is documented as returning the top five
contributors. At line 130 the code takes a five-entry slice of the sorted
list and discards it, so the whole sorted list is cached and returned. The
model follows the code here: `Server.Aggregate`, `Server.Handle` and
`GetMostFrequent` return the whole list, as `Ranking.MostFrequent` and
`Ranking.RankContributors` compute it. The evidently intended list is
`Ranking.TopFive`, listed under Findings.

## Model

| member | source | states |
|---|---|---|
| DateRange.QueryParam | server.js:26-27 | A given non-empty parameter is used as is; an absent or empty one (falsy) becomes the default; a non-empty default never yields an empty value |
| DateRange.IsValidDateRange | server.js:152-157 | The window is valid exactly when both dates parse and start is strictly before end (NaN compares false); equal dates are never valid |
| Contributors.ToUsers | server.js:55-59 | One user per commit, in listing order, carrying that commit's author name and e-mail |
| Contributors.ByEmailSpec | server.js:62 | The e-mail map's keys are the distinct e-mails in order of first occurrence, and each maps to the last user listed with that e-mail |
| Contributors.UniqueUsersSpec | server.js:62 | The `/users` list has exactly one user per distinct e-mail, ordered by first occurrence, each being the last user listed with that e-mail |
| Contributors.UniqueUsersExample | test/server.js:57-70 | Three commits, the second author twice, give the two users in listing order |
| OrderedMaps.OrderedMap.Set | server.js:115-119 | Setting updates exactly that key's value, keeps the key order when the key exists and appends the key last otherwise |
| OrderedMaps.SetValid | server.js:115-119 | Setting a key keeps every key listed once and exactly the stored keys listed |
| OrderedMaps.OrderedMap.Values | server.js:62 | The values are listed in key insertion order, one per key |
| Ranking.TallySpec | server.js:111-120 | The counting map's keys are the distinct author names in order of first occurrence, each mapped to its exact number of commits (at least 1) |
| Ranking.TallyOrder | server.js:111-120 | The counting map's keys are the distinct author names, each once, in order of first occurrence |
| Ranking.TallyCounts | server.js:111-120 | Every author is a key, every key is an author, and each is mapped to exactly its number of commits, at least 1 |
| Ranking.TallySum | server.js:111-120 | The counts add up to the number of commits |
| Ranking.TallyKeysDistinct | server.js:111-120 | When no name repeats, the keys are the names in listing order |
| Ranking.CountCommits | server.js:113-120 | The counting loop leaves exactly the map the per-commit set-or-increment fold specifies |
| Ranking.ListEntries | server.js:123-129 | The push loop yields one {name, commits} entry per map key, in map iteration order |
| Ranking.StableSortSpec | server.js:130 | The sorted array is ordered by commits, most first, and keeps the relative order of equal counts |
| Ranking.StableSortPermutes | server.js:130 | Sorting neither adds nor drops entries: the result is a permutation |
| Ranking.StableSortIsUnique | server.js:130 | Any arrangement that is sorted by commits and stable equals this sort's result, so the engine's stable sort gives the same list |
| Ranking.InsertInPlace | server.js:130 | One insertion pass moves an element left past those with fewer commits, leaving the sorted insertion of it followed by the untouched rest |
| Ranking.SortByCommits | server.js:130 | Sorting the array in place leaves exactly the stable sort of its old contents |
| Ranking.RankContributors | server.js:111-130 | Counting, flattening and sorting in place produce the specified ranked list |
| Ranking.MostFrequentSorted | server.js:111-130 | The ranked list is sorted by commits, is a permutation of the map's entries, is stable, and has one entry per distinct author |
| Ranking.MostFrequentCounts | server.js:111-130 | Each entry carries an author's name and that author's exact commit count |
| Ranking.MostFrequentTies | server.js:111-130 | Authors with equal counts appear in the order they first appear in the commit listing |
| Ranking.MostFrequentCoversAuthors | server.js:111-130 | Every commit author appears in the ranked list |
| Ranking.MostFrequentAuthorsDistinct | server.js:111-130 | No author appears twice in the ranked list |
| Ranking.MostFrequentExample | test/server.js:108-121 | Commits by TestUser once and TestUser2 twice rank TestUser2 (2) before TestUser (1) |
| Ranking.MostFrequentNotTruncated | server.js:130 | As written, six distinct authors give a six-entry list: the documented top five is not applied |
| Ranking.TopFive | server.js:130 | At most five entries, a prefix of the ranked list, the whole list when it is shorter, and none of the omitted entries has more commits than a kept one |
| DateRange.ToDate | server.js:153-154 | Defines a date as NaN when its string does not parse and as the parsed time value otherwise; IsValidDateRange states the resulting comparison |
| DateRange.Less | server.js:155-156 | Defines `<` on dates: false whenever either side is NaN, else the time values' order; IsValidDateRange states it in terms of the parser |
| Contributors.ByEmail | server.js:62 | The e-mail map built by one set per user in list order is always well formed; ByEmailSpec states its keys and values |
| Contributors.UniqueUsers | server.js:62 | Defines the /users list as the e-mail map's values; UniqueUsersSpec states its properties |
| Ranking.Record | server.js:115-119 | Defines one counting step: a new name set to 1, a known one incremented; RecordNew and RecordSeen state both cases |
| Ranking.Tally | server.js:113-120 | Defines the counting map after the whole listing as the fold of Record; TallyOrder, TallyCounts and TallySum state its properties |
| Ranking.Entries | server.js:124-129 | Defines the pushed array as one {name, commits} per key in map order; ListEntries computes it |
| Ranking.Insert | server.js:130 | Defines one insertion step of the stable sort; InsertSorted, InsertPermutes and InsertWithCommits state its properties |
| Ranking.StableSort | server.js:130 | Defines the sorted array; StableSortSpec, StableSortPermutes and StableSortIsUnique state its properties |
| Ranking.MakeRoom | server.js:130 | One scan of an insertion pass shifts right the elements with fewer commits and leaves a hole exactly where Insert places the element |
| Ranking.MostFrequent | server.js:111-130 | Defines the list the /most-frequent handler caches and returns, untruncated; MostFrequentSorted, MostFrequentCounts and MostFrequentTies state its properties |
| Server.CacheKey | server.js:45-102 | Defines the route-prefixed key; CacheKeysDisjoint, CacheKeyInjective and CacheKeyCollision state its properties |
| Server.Aggregate | server.js:55-130 | Defines what each route computes from the listing on a miss: the de-duplicated users, or the whole ranked list |
| Server.Handle | server.js:25-142 | One request answers 200, 400 or 500; any answer but 200 leaves the cache as it was; a fetch, when made, asks for exactly the requested window (with the defaults applied) |
| Server.CacheKeysDisjoint | server.js:45-102 | A /users key never equals a /most-frequent key, whatever the windows |
| Server.CacheKeyInjective | server.js:45 | Within a route, keys determine the window when the start contains no colon |
| Server.CacheKeyCollision | server.js:45 | With a colon in the start, two different windows share a key |
| Server.HandleDefaults | server.js:26-27 | A request with absent or empty dates behaves exactly like one naming the default dates |
| Server.HandleRejectsInvalidRange | server.js:29-33 | An invalid window answers 400 "Invalid date range" without touching the cache or GitHub |
| Server.HandleHit | server.js:45-48 | A cache hit returns the stored value, fetches nothing and writes nothing |
| Server.HandleMiss | server.js:49-136 | A miss fetches exactly the requested window, stores the aggregate under the route's key for 120 seconds, returns that same value and changes no other key |
| Server.HandleFailure | server.js:70-73 | A failing cache read, fetch or cache write answers 500 with that error's message, and a 500 never changes the cache |
| Server.HandleStatus | server.js:25-74 | 200 exactly when the window is valid, the cache read succeeds and the key is cached or both fetch and write succeed; 400 exactly for an invalid window; otherwise 500 |
| Server.RepeatServedFromCache | server.js:45-68 | After a 200, the same request is served from the cache with the same response and no fetch, whatever GitHub would now return |
| Server.CommitStatsServer.constructor | server.js:37-43 | The server starts with an empty cache and no upstream requests. The source creates a new client per request against a store that persists; an empty store at start is an assumption of the model |
| Server.CommitStatsServer.GetUsers | server.js:25-74 | The /users handler's response, new cache and upstream request log are those of Handle |
| Server.CommitStatsServer.GetMostFrequent | server.js:82-142 | The /most-frequent handler's response, new cache and upstream request log are those of Handle; on a miss it counts, flattens and sorts in place and caches and returns the whole sorted list |
| Server.CommitStatsServer.Expire | server.js:65 | Expiry of a key removes exactly that key from the cache |

## Left out

- The `GET /` greeting route, `server.listen` and the port setting: fixed text and process start-up, no logic.
- Redis client creation, `connect`, the error listener and its logging are left out. A failing `connect` rejects outside the `get(...).then(...).catch(...)` chain and leaves the request unanswered, and the model does not cover that.
- Time: entries are stored with their time to live, and `Expire` removes a key, but no clock decides when.
- HTTP to GitHub: the fetch outcome is a parameter (`Backend.upstream`), a listing or a rejection message. Paging of the GitHub listing is not modelled; the model aggregates whatever listing is returned.
- Date-string parsing by the JavaScript engine is a parameter (`parse`), not a model of the engine's date grammar.
- JSON serialisation: the cache stores structured values, and reading one back is taken to return what was written. A serialised list is never the empty string, so no stored entry reads as a miss.
- Commits whose `commit.author` is missing would throw inside the `then` callback and answer 500. The model assumes every commit has an author name and e-mail.
- Query parameters given several times (arrays in Express) are not modelled. Each parameter is absent or one string.
- Concurrency: requests are handled one after another. Interleavings at `await` points, such as two misses for the same key racing to write it, are not modelled.

## Findings

| source | as written | input that shows it | evidently intended | confidence | as-written member | corrected member |
|---|---|---|---|---|---|---|
| server.js:130 | `slice(0, 5)` copies the first five entries of the sorted array and the copy is discarded. The whole sorted list is cached and returned | Six commits by six distinct authors give a six-entry response | The five contributors with the most commits, as the handler's documentation says | high (not executed) | Ranking.MostFrequentNotTruncated | Ranking.TopFive |
