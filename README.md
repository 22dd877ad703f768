# WoW PvP pipeline core, modelled in Dafny

This project models the selection and reshaping logic of a batch pipeline
that pulls World of Warcraft PvP data from the Blizzard Battle.net API.
The pipeline has these steps:

1. It reads the current PvP season out of the season index.
2. It flattens each bracket's leaderboard payload into raw rows and writes
   them to a landing file named `pvp_leaderboard_s{season}_{bracket}_{date}.parquet`.
3. It loads the landing files of a run into a raw table, after parsing each
   file name back into its season, bracket and date and fixing the column
   order.
4. From the curated leaderboard it selects the top characters. The
   selection numbers rows per bracket, keeps each character's best row
   with `3v3` winning ties, orders by `(ranking, bracket_id)` and applies a
   `LIMIT`.
5. It fetches each selected character's profile and normalises the
   profiles into one row per character that answered.
6. It writes those rows as `ch_profile_{date}.parquet` and loads that file
   into a raw table, after checking the expected columns.

Modules:

- Modules that follow the program:
  - `CharacterSelection`: the query in `get_top_pvp_characters`.
  - `ProfileClient`: `ch_profile_client.py`.
  - `Endpoints`: `endpoints.py`.
  - `ExtractLeaderboard`: the pure parts of `extract_leaderboard_to_landing.py`.
  - `LoadLeaderboard`: `load_leaderboard_raw_to_db.py`.
  - `LoadChinfo`: `load_chinfo_raw_to_db.py`.
- Supporting modules for the pieces of Python, pandas and SQL the program
  leans on:
  - `Json`: decoded JSON, truthiness, `dict.get`.
  - `Text`: ASCII `lower`, `split`/`join`, `lstrip`, `rfind`, `int`/`str` on
    decimals, and code-point string order.
  - `Sorting`: a stable sort by a total preorder, which stands for `sorted`
    and `ORDER BY`.
  - `Window`: SQL `ROW_NUMBER() OVER (PARTITION BY … ORDER BY …)`.
  - `Frames`: a DataFrame as a class with in-place column assignment.
  - `Landing`: the entries of the landing directory.
  - `Seqs`: distinctness and subsequences.
  - `Errors`: `Result`/`Option` and the exceptions the code raises.

Several inputs become parameters:

- **Environment.** The four environment-variable defaults of `endpoints.py`
  are a `Config` value, with `DefaultConfig` holding the literal fallbacks.
- **HTTP.** An HTTP GET is a function from a request to a response, which
  is either a connection error or a status and a body that may or may not
  decode as JSON.
- **Directory listing.** The landing directory is a flag saying whether it
  exists, plus its entries in whatever order the file system lists them.
- **Parquet reading.** `pd.read_parquet` is a function from a file name to a
  frame.

Some behaviours of the code that a reader might not expect:

- A leaderboard entry that is not a dict, or whose character, realm,
  faction or statistics value is truthy but not a dict, raises
  `AttributeError` and ends the whole normalisation.
  `ExtractLeaderboard.NormalizeEntry` and `ExtractLeaderboard.RowsOfEntries`
  state this.
- `ProfileClient.NormalizeProfileRow` raises in the same way for a truthy
  non-dict payload.
- The result of `fetch_profiles_concurrently` is in completion order, not
  record order.
- `resp.json()` in `fetch_single_character_profile` is outside the `try`.
  A 200 answer whose body is not JSON therefore raises, and
  `fetch_profiles_concurrently` re-raises it and returns nothing.
- The `id` column of a profile row comes from the payload, not from the
  selected record. So the model does not claim that profile ids are unique.

## Model

| member | source | states |
|---|---|---|
| CharacterSelection.Filtered | src/tp2025/services/character_selection.py:41-42 | a row is kept exactly when it is in the table, has the processing date and is in bracket 2v2 or 3v3; no more rows than the table |
| CharacterSelection.SelectedRowsEligible | src/tp2025/services/character_selection.py:41-42 | every selected candidate has the processing date, a 2v2 or 3v3 bracket, and comes from an eligible table row of its char_id |
| CharacterSelection.PerBracket | src/tp2025/services/character_selection.py:44-57 | each filtered row with its ROW_NUMBER within its bracket, ordered by ranking, games_won descending and games_lost ascending. `BracketRankIsPermutation`, `BracketRankOnto` and `BracketRankOrder` carry its properties |
| CharacterSelection.BracketRankIsPermutation | src/tp2025/services/character_selection.py:52-55 | within a bracket of n rows, bracket_rank lies in 1..n and no two rows share a rank |
| CharacterSelection.BracketRankOnto | src/tp2025/services/character_selection.py:52-55 | every rank 1..n of a bracket is given to some row of that bracket |
| CharacterSelection.BracketRankOrder | src/tp2025/services/character_selection.py:52-55 | a smaller bracket_rank means (iff) smaller ranking, then more games won, then fewer games lost, then earlier row position as the stand-in for SQL's unspecified tie order |
| Window.RowNumberWithoutTies | src/tp2025/services/character_selection.py:52-55 | when no other row of its partition shares a row's key, its number is one plus the count of rows with a smaller key, whatever the tie order |
| CharacterSelection.CharRank | src/tp2025/services/character_selection.py:58-67 | rn_char: the ROW_NUMBER of a row among its character's rows, ordered by bracket rank and then 3v3 before 2v2. `BestRowWins` and `EveryCharHasBest` carry its properties |
| CharacterSelection.BestPerChar | src/tp2025/services/character_selection.py:68-79 | the rows with rn_char = 1, with bracket_rank as the ranking. `RnCharOneMembers`, `RnCharOneUnique` and `BestFromRow` carry its properties |
| CharacterSelection.Best | src/tp2025/services/character_selection.py:38-79 | the CTE chain applied to the table: filter, rank per bracket, keep each character's best row. `EveryEligibleCharIsCandidate` and `SelectedAreBest` carry its properties |
| CharacterSelection.RnCharOneMembers | src/tp2025/services/character_selection.py:68-78 | the deduplicated set holds exactly the projections of the rows whose rn_char is 1, with the bracket rank as ranking |
| CharacterSelection.RnCharOneUnique | src/tp2025/services/character_selection.py:61-62 | rn_char = 1 picks at most one row per char_id |
| CharacterSelection.BestRowWins | src/tp2025/services/character_selection.py:61-64 | the row kept for a character has a smaller bracket rank than its other row, or the same rank and bracket 3v3 |
| CharacterSelection.EveryCharHasBest | src/tp2025/services/character_selection.py:61-65 | every character with an eligible row has a row with rn_char = 1 |
| CharacterSelection.EveryEligibleCharIsCandidate | src/tp2025/services/character_selection.py:68-78 | every character with an eligible row is among the deduplicated candidates |
| CharacterSelection.CandidateLeIsTotalPreorder | src/tp2025/services/character_selection.py:89 | ORDER BY ranking, then bracket_id compared as a string, is total and transitive |
| CharacterSelection.Ordered | src/tp2025/services/character_selection.py:89 | the ordered candidates are a permutation of the deduplicated ones |
| CharacterSelection.SelectTop | src/tp2025/services/character_selection.py:17-101 | a successful result has between 1 and limit_total rows; the only error is the RuntimeError for the processing date |
| CharacterSelection.SelectTopFailsIffEmpty | src/tp2025/services/character_selection.py:94-99 | the RuntimeError is raised exactly when no row is eligible or the limit is 0 |
| CharacterSelection.DefaultLimitSelection | src/tp2025/services/character_selection.py:17 | with the default limit_total of 500, the result is the first candidates of the ordering, at most 500 of them, and all of them when there are no more than 500 |
| CharacterSelection.SelectedAreBest | src/tp2025/services/character_selection.py:80-90 | every selected row is a deduplicated candidate |
| CharacterSelection.BestFromRow | src/tp2025/services/character_selection.py:68-78 | a deduplicated candidate is the projection of an eligible row whose rn_char is 1, with ranking = that row's bracket_rank |
| CharacterSelection.SelectedCharsUnique | src/tp2025/services/character_selection.py:61-62 | no char_id appears twice in the result |
| CharacterSelection.UniqueCharsPermutation | src/tp2025/services/character_selection.py:89 | reordering does not break char_id uniqueness |
| CharacterSelection.SelectedRowWinsTieBreak | src/tp2025/services/character_selection.py:63-64 | a selected row's ranking is at most the bracket rank of each eligible row of its character; on equal rank in the other bracket, the selected row is 3v3 and the other is 2v2 |
| CharacterSelection.SelectedInOrder | src/tp2025/services/character_selection.py:89 | the result is sorted by (ranking, bracket_id as a string), and no two rows tie on that pair |
| CharacterSelection.SelectedAreTheFirst | src/tp2025/services/character_selection.py:89-90 | a deduplicated candidate that was left out was cut by LIMIT: the result is full, and every kept row sorts no later than it |
| Endpoints.BaseUrl | src/tp2025/blizzard_api/endpoints.py:15-19 | the base URL is https://, then the configured region, which can be read back from between the two fixed parts, then the API host suffix |
| Endpoints.OrDefault | src/tp2025/blizzard_api/endpoints.py:90-91 | a None or empty namespace or locale falls back to the default; a non-empty one is used verbatim |
| Endpoints.NormalizeCharacterName | src/tp2025/blizzard_api/endpoints.py:69-73 | the name keeps its length, has no upper-case letter, and is equal to the given name ignoring ASCII case |
| Endpoints.PvpSeasonIndexUrl | src/tp2025/blizzard_api/endpoints.py:26-40 | the base, the path data/wow/pvp-season/index, and the PvP namespace and locale with their `or` fallbacks. `ParsePvpSeasonIndexUrl` reads it back |
| Endpoints.PvpLeaderboardUrl | src/tp2025/blizzard_api/endpoints.py:43-62 | the base, the path data/wow/pvp-season/{season}/pvp-leaderboard/{bracket}, and the PvP namespace and locale. `ParsePvpLeaderboardUrl` and `PvpLeaderboardUrlInjective` carry its properties |
| Endpoints.CharacterProfileUrl | src/tp2025/blizzard_api/endpoints.py:76-97 | the base, the path profile/wow/character/{realm}/{lower-cased name}, and the profile namespace and locale. `ParseCharacterUrl` and `CharacterProfileUrlIgnoresCase` carry its properties |
| Endpoints.CharacterProfessionsUrl | src/tp2025/blizzard_api/endpoints.py:100-118 | the profile path followed by `professions`, as `CharacterSubresourceUrls` states |
| Endpoints.CharacterAchievementsUrl | src/tp2025/blizzard_api/endpoints.py:121-139 | the profile path followed by `achievements`, as `CharacterSubresourceUrls` states |
| Endpoints.ParseResourceUrl | src/tp2025/blizzard_api/endpoints.py:40 | splitting a built URL at '?', '/' and '&' gives back region, path segments, namespace and locale |
| Endpoints.ResourceUrlInjective | src/tp2025/blizzard_api/endpoints.py:59-62 | two different sets of separator-free URL parts never give the same URL |
| Endpoints.ParsePvpSeasonIndexUrl | src/tp2025/blizzard_api/endpoints.py:26-40 | the season-index URL is the base, the path data/wow/pvp-season/index, and the PvP namespace and the locale, each defaulted |
| Endpoints.DefaultSeasonIndexUrl | src/tp2025/blizzard_api/endpoints.py:5-12 | with every environment variable unset, the season-index URL reads back as region us, namespace dynamic-us and locale en_US |
| Endpoints.ParsePvpLeaderboardUrl | src/tp2025/blizzard_api/endpoints.py:43-62 | the leaderboard URL is the base, the path data/wow/pvp-season/{season}/pvp-leaderboard/{bracket}, and the PvP namespace and the locale, each defaulted |
| Endpoints.PvpLeaderboardUrlInjective | src/tp2025/blizzard_api/endpoints.py:59-62 | two leaderboard URLs are equal iff season and bracket are; the fourth path segment parses back to the season id |
| Endpoints.ParseCharacterUrl | src/tp2025/blizzard_api/endpoints.py:76-97 | the profile URL is the base, the path profile/wow/character/{realm}/{lower-cased name}, and the profile namespace and the locale, each defaulted |
| Endpoints.CharacterSubresourceUrls | src/tp2025/blizzard_api/endpoints.py:100-139 | for any strings, the professions and achievements URLs are the profile path followed by /professions or /achievements, then the same query |
| Endpoints.ParseCharacterSubresourceUrls | src/tp2025/blizzard_api/endpoints.py:100-139 | with separator-free parts, the professions and achievements URLs read back as the profile's parts with one more path segment |
| Endpoints.CharacterProfileUrlIgnoresCase | src/tp2025/blizzard_api/endpoints.py:69-97 | for any strings, two names give the same profile URL exactly when they differ at most in letter case |
| ProfileClient.FetchSingleCharacterProfile | src/tp2025/services/ch_profile_client.py:38-66 | None on a connection error or any status other than 200; the decoded body on a 200; a JSON decode error, raised outside the try, on a 200 whose body is not JSON |
| ProfileClient.LowerCasedNameSameRequest | src/tp2025/services/ch_profile_client.py:98-104 | lower-casing the name before the call changes nothing about the request sent |
| ProfileClient.Submitted | src/tp2025/services/ch_profile_client.py:89-105 | one future per record, holding the record's meta and the outcome of the fetch for its slug and lower-cased name |
| ProfileClient.FetchProfilesConcurrently | src/tp2025/services/ch_profile_client.py:69-112 | the call raises exactly when some fetch raises, and the error is the JSON decode error; otherwise one result per record, and the results are a permutation of the submitted pairs, in whatever order they completed |
| ProfileClient.FetchedOncePerRecord | src/tp2025/services/ch_profile_client.py:89-110 | in a successful collection, each record's fetch succeeded, and its meta together with the payload for its name is among the results |
| ProfileClient.NormalizeProfileRow | src/tp2025/services/ch_profile_client.py:117-137 | id, name, a_ilvl and e_ilvl come from the payload; realm_slug and fecha_proceso from meta; faction, class and spec are the parent's name, or None when the parent is missing or falsy; AttributeError exactly when the payload or a truthy parent is not a dict |
| ProfileClient.Survivors | src/tp2025/services/ch_profile_client.py:146-152 | a pair is kept exactly when its payload is truthy |
| ProfileClient.ProfilesDataframe | src/tp2025/services/ch_profile_client.py:141-158 | what build_profiles_dataframe returns or raises: the rows of the pairs with a truthy payload, or the no-records error when there are none. Its properties are carried by `AssembledOkIff`, `AssembledIsMapOfSurvivors`, `NoProfileRecordsIffNoSurvivors` and `ProfilesDataframeBounded` |
| ProfileClient.BuildProfilesDataframe | src/tp2025/services/ch_profile_client.py:141-158 | the loop computes the rows, or the error, that the filter-then-map specification gives |
| ProfileClient.AssembledOkIff | src/tp2025/services/ch_profile_client.py:146-153 | the loop succeeds exactly when every kept payload can be normalised |
| ProfileClient.AssembledIsMapOfSurvivors | src/tp2025/services/ch_profile_client.py:146-153 | one row per pair with a truthy payload, in input order; row k is the normalised k-th kept pair |
| ProfileClient.AssembledFailsOnlyByAttribute | src/tp2025/services/ch_profile_client.py:146-153 | the loop can fail only with AttributeError |
| ProfileClient.NoProfileRecordsIffNoSurvivors | src/tp2025/services/ch_profile_client.py:155-156 | the "no profile row" RuntimeError is raised exactly when no pair has a truthy payload |
| ProfileClient.ProfilesDataframeBounded | src/tp2025/services/ch_profile_client.py:146-156 | a successful build has at least one row and no more rows than pairs |
| ExtractLeaderboard.Index | src/tp2025/jobs/extract_leaderboard_to_landing.py:54 | d[k] succeeds exactly when d is a dict holding k, and then returns the value under k; KeyError for a missing key, TypeError when d is not a dict |
| ExtractLeaderboard.ToInt | src/tp2025/jobs/extract_leaderboard_to_landing.py:54 | int() returns a number unchanged, a bool as 1 or 0, and a decimal-integer string as its value; ValueError for any other string, TypeError for None, lists and dicts |
| ExtractLeaderboard.GetCurrentSeasonId | src/tp2025/jobs/extract_leaderboard_to_landing.py:53-56 | succeeds exactly when current_season and then id are present and int() accepts the id, and then returns int(current_season.id) whatever other keys the payload has; every failure becomes the one RuntimeError |
| ExtractLeaderboard.CurrentSeasonIdRoundTrip | src/tp2025/jobs/extract_leaderboard_to_landing.py:53-54 | a payload carrying season n, as a number or as its decimal string, gives back n |
| ExtractLeaderboard.EntriesOf | src/tp2025/jobs/extract_leaderboard_to_landing.py:77 | a payload without entries gives no entries; a list of entries is iterated as is |
| ExtractLeaderboard.NormalizeEntry | src/tp2025/jobs/extract_leaderboard_to_landing.py:81-96 | id and name from character; slug from character.realm; faction from faction.type; rank and rating from the entry; played, won and lost from season_match_statistics; a missing or falsy parent gives None; AttributeError exactly when a truthy parent is not a dict |
| ExtractLeaderboard.LeaderboardRows | src/tp2025/jobs/extract_leaderboard_to_landing.py:71-99 | what normalize_leaderboard_entries returns or raises: the entries of the payload, each normalised, collected in order. Its properties are carried by `RowsOfEntries` and `LeaderboardRowsPerEntry` |
| ExtractLeaderboard.NormalizeLeaderboardEntries | src/tp2025/jobs/extract_leaderboard_to_landing.py:71-99 | the loop computes the rows, or the error, of the per-entry specification |
| Errors.CollectOk | src/tp2025/jobs/extract_leaderboard_to_landing.py:80-99 | accumulating the per-element results succeeds exactly when each succeeds, keeping every value in order; a failure carries the error of the first element that failed, every earlier one having succeeded. It serves the entry loop here and the list comprehension of load_chinfo_raw_to_db.py:112 |
| Errors.CollectErrPersists | src/tp2025/jobs/extract_leaderboard_to_landing.py:80-97 | an exception raised on one entry ends the loop: no later entry changes the outcome |
| ExtractLeaderboard.RowsOfEntries | src/tp2025/jobs/extract_leaderboard_to_landing.py:80-97 | one row per entry, in order, exactly when every entry can be read; otherwise AttributeError |
| ExtractLeaderboard.LeaderboardRowsPerEntry | src/tp2025/jobs/extract_leaderboard_to_landing.py:77-97 | no entries key or an empty list gives zero rows and no error; a list gives one row per entry in order |
| ExtractLeaderboard.LandingFileName | src/tp2025/jobs/extract_leaderboard_to_landing.py:113 | the landing name `pvp_leaderboard_s{season}_{bracket}_{date}.parquet`. `LoadLeaderboard.MetadataRoundTrip` proves that the loader parses it back into the same season, bracket and date |
| LoadLeaderboard.RunFiles | src/tp2025/jobs/load_leaderboard_raw_to_db.py:36-42 | a name is kept exactly when its entry is a file, ends in .parquet, starts with pvp_leaderboard_s and contains the date |
| LoadLeaderboard.ListParquetForProcessingDate | src/tp2025/jobs/load_leaderboard_raw_to_db.py:26-44 | FileNotFoundError exactly when the landing directory is missing; otherwise the filtered names, sorted, as a permutation of the filter's result |
| LoadLeaderboard.StrLeIsTotalPreorder | src/tp2025/jobs/load_leaderboard_raw_to_db.py:44 | the order sorted() uses on the names is total and transitive |
| LoadLeaderboard.Stem | src/tp2025/jobs/load_leaderboard_raw_to_db.py:56 | the stem is a prefix of the name |
| LoadLeaderboard.ParseMetadata | src/tp2025/jobs/load_leaderboard_raw_to_db.py:47-65 | IndexError when the stem has fewer than five '_' parts; otherwise the season is int() of part 2 with its leading s removed, ValueError exactly when that fails, and bracket and date are parts 3 and 4, which contain no '_' |
| LoadLeaderboard.MetadataRoundTrip | src/tp2025/jobs/load_leaderboard_raw_to_db.py:56-65 | parsing the name the extraction writes gives back (season, bracket, date) for every season id, when bracket and date contain no '_' |
| LoadLeaderboard.LandingStemParts | src/tp2025/jobs/load_leaderboard_raw_to_db.py:57 | the landing stem splits into pvp, leaderboard, s{season}, bracket and date |
| LoadLeaderboard.Remaining | src/tp2025/jobs/load_leaderboard_raw_to_db.py:88 | a column is left over exactly when it is in the frame and not a fixed column |
| LoadLeaderboard.RemainingKeepsOrder | src/tp2025/jobs/load_leaderboard_raw_to_db.py:88 | the leftover columns keep their original order |
| LoadLeaderboard.ColumnOrder | src/tp2025/jobs/load_leaderboard_raw_to_db.py:81-89 | the twelve fixed columns come first, and a column is in the result exactly when it is fixed or in the frame |
| LoadLeaderboard.ColumnOrderIsPermutation | src/tp2025/jobs/load_leaderboard_raw_to_db.py:81-89 | with every fixed column present, the new order is a permutation of the frame's columns: none lost |
| LoadLeaderboard.ColumnOrderDistinct | src/tp2025/jobs/load_leaderboard_raw_to_db.py:81-89 | reordering repeats no column |
| LoadLeaderboard.LandingFrameColumns | src/tp2025/jobs/load_leaderboard_raw_to_db.py:73-89 | a landing frame with s_id, bracket and fecha_proceso appended comes out as exactly the twelve fixed columns, which differs from the appended order |
| LoadLeaderboard.LoadParquetToDataframe | src/tp2025/jobs/load_leaderboard_raw_to_db.py:68-89 | parse errors come first and leave the frame alone; then the three columns are assigned in place; the result is the columns in the fixed order with their cells, or KeyError when a fixed column is missing |
| Frames.DataFrame.Assign | src/tp2025/jobs/load_leaderboard_raw_to_db.py:73-75 | every row of the column holds the value; an existing column stays in place, a new one is appended |
| Frames.DataFrame.Select | src/tp2025/jobs/load_leaderboard_raw_to_db.py:89 | the named columns in the given order with their cells; KeyError exactly when a name is not a column |
| LoadChinfo.ListParquetForProcessingDate | src/tp2025/jobs/load_chinfo_raw_to_db.py:35-42 | the listing holds exactly ch_profile_{date}.parquet when such an entry exists, and nothing when the directory is missing; at most one name |
| LoadChinfo.ChinfoFileName | src/tp2025/jobs/load_chinfo_raw_to_db.py:41 | the pattern `ch_profile_{date}.parquet`, the same name the extractor saves under at extract_chinfo_to_landing.py:42. `ChinfoFileNameInjective` proves that different dates give different names |
| LoadChinfo.ChinfoFileNameInjective | src/tp2025/jobs/extract_chinfo_to_landing.py:42 | two dates never share a snapshot name |
| LoadChinfo.SavedSnapshotIsListed | src/tp2025/jobs/load_chinfo_raw_to_db.py:41-42 | the snapshot saved for a date is the one file listed for that date, and is never listed for another date |
| LoadChinfo.MissingIsExact | src/tp2025/jobs/load_chinfo_raw_to_db.py:64 | the missing list holds each absent expected column exactly once, in expected order, and nothing else |
| LoadChinfo.LoadParquetToDataframe | src/tp2025/jobs/load_chinfo_raw_to_db.py:45-72 | the error listing the missing columns exactly when some expected column is absent; otherwise exactly the nine expected columns in the fixed order, with their cells |
| LoadChinfo.LoadAll | src/tp2025/jobs/load_chinfo_raw_to_db.py:112 | succeeds exactly when every listed file passes the column check, and then holds each file's projection in listing order; a failure is the column error of the first failing file, every earlier file having passed |
| LoadChinfo.Concat | src/tp2025/jobs/load_chinfo_raw_to_db.py:113 | the concatenation keeps the nine columns; each column holds the cells of every frame, one frame after another, and the height is the sum of the heights |
| LoadChinfo.LoadIntoDb | src/tp2025/jobs/load_chinfo_raw_to_db.py:100-113 | nothing is inserted exactly when no file is listed. Otherwise the inserted frame has the nine expected columns, or the column error is raised. With unique names in the landing directory, the inserted frame is exactly the projected `ch_profile_<date>.parquet`, or that file's column error |
| LoadChinfo.NothingInsertedWithoutFile | src/tp2025/jobs/load_chinfo_raw_to_db.py:104-110 | with the landing directory missing, or no entry named for the date, nothing is inserted |

## Left out

- HTTP and credentials are not modelled. This covers `get_bearer_token` (a file read), the OAuth client, sessions, timeouts and `raise_for_status`. A fetch is a function from request to response.
- The thread pool of `fetch_profiles_concurrently` is not modelled. Completion order is left open: any pending request may finish next.
- Database code is not modelled: DuckDB connections, DDL, `INSERT … SELECT` and the printed messages. `LoadChinfo.LoadIntoDb` stops at the frame that would be inserted.
- `load_into_duckdb` of the leaderboard loader (load_leaderboard_raw_to_db.py:115-135) is not modelled. It is the same list, load, concatenate and insert pattern, and its only logic beyond the listing is database I/O.
- Parquet reading and writing, `mkdir`, `date.today()` and the `run_*` orchestration functions are not modelled.
- `astype(str)` is not modelled. Cells keep their decoded JSON values, and the assigned s_id is already its decimal text.
- Unicode case mapping is not modelled. `lower` maps ASCII A-Z only.
- `int()` on strings accepts an optional sign and ASCII digits only. Python also accepts surrounding whitespace, underscores and non-ASCII digits.
- Floating-point JSON numbers are not modelled: JSON numbers are integers.
- A negative `LIMIT` is not modelled: `limit_total` is a natural number.
- SQL leaves the order of ROW_NUMBER ties unspecified. The model breaks such ties by row position, and `Window.RowNumberWithoutTies` shows the position plays no part when the keys are distinct.
- `LoadChinfo.ListParquetForProcessingDate` treats the glob pattern as a literal name. A date containing `*`, `?` or `[` would be matched as a pattern by `Path.glob`.
- `LoadLeaderboard.Stem` follows the classic `Path.stem` rule: the last dot, unless it is the name's first or last character. Newer Python versions treat names made of dots differently.
- `LoadLeaderboard.ColumnOrderIsPermutation` requires the frame's column names are distinct, as they are for a frame read from parquet. pandas would allow repeated names.
- The concrete default URLs are not stated as literal strings. `Endpoints.DefaultSeasonIndexUrl` reads the default season-index URL back into its parts instead.
