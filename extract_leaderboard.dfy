/** The pure parts of the leaderboard extraction job
    (src/tp2025/jobs/extract_leaderboard_to_landing.py): reading the
    current season id out of the season-index payload, flattening a
    leaderboard payload into raw rows, and naming the landing file. */
module ExtractLeaderboard {
  import opened Errors
  import opened Json
  import opened Text

  /** A raw leaderboard row: the nine columns id, name, slug, faction,
      rank, rating, played, won and lost, copied from the payload. */
  datatype RawRow = RawRow(
    id: Json,
    name: Json,
    slug: Json,
    faction: Json,
    rank: Json,
    rating: Json,
    played: Json,
    won: Json,
    lost: Json)

  /** The value under key k when j is a dict, None otherwise: one step of
      a path into the payload. */
  function At(j: Json, k: string): Json {
    if j.Obj? then Lookup(j.fields, k) else Null
  }

  // -----------------------------------------------------------------------
  // get_current_season_id
  // -----------------------------------------------------------------------

  /** `d[k]`: KeyError for a missing key, TypeError when `d` is not a dict. */
  function Index(d: Json, k: string): (r: Result<Json>)
    ensures r.Ok? <==> d.Obj? && k in d.fields
    ensures r.Ok? ==> r.value == d.fields[k]
    ensures d.Obj? && k !in d.fields ==> r == Err(KeyError(k))
    ensures !d.Obj? ==> r == Err(TypeError)
  {
    if !d.Obj? then Err(TypeError)
    else if k !in d.fields then Err(KeyError(k))
    else Ok(d.fields[k])
  }

  /** Python's `int(v)` on a decoded JSON value: an integer as is, a bool
      as 0 or 1, a string through its decimal digits (ValueError
      otherwise); None, lists and dicts raise TypeError. */
  function ToInt(v: Json): (r: Result<int>)
    ensures v.Num? ==> r == Ok(v.n)
    ensures v.Bool? ==> r == Ok(if v.b then 1 else 0)
    ensures v.Str? ==> (r.Ok? <==> ParseInt(v.s).Some?)
    ensures v.Str? && ParseInt(v.s).Some? ==> r == Ok(ParseInt(v.s).value)
    ensures v.Str? && ParseInt(v.s).None? ==> r == Err(ValueError)
    ensures v.Null? || v.Arr? || v.Obj? ==> r == Err(TypeError)
  {
    match v
    case Num(n) => Ok(n)
    case Bool(b) => Ok(if b then 1 else 0)
    case Str(s) =>
      (match ParseInt(s)
       case Some(n) => Ok(n)
       case None => Err(ValueError))
    case _ => Err(TypeError)
  }

  /** The body of the try block: `int(data["current_season"]["id"])`. */
  function SeasonIdOf(data: Json): Result<int> {
    var season :- Index(data, "current_season");
    var id :- Index(season, "id");
    ToInt(id)
  }

  /** The season id, or the RuntimeError that replaces any KeyError,
      TypeError or ValueError. */
  function GetCurrentSeasonId(data: Json): (r: Result<int>)
    ensures r.Err? ==> r.error == SeasonIdUnavailable
    ensures r.Ok? <==>
      && data.Obj? && "current_season" in data.fields
      && data.fields["current_season"].Obj? && "id" in data.fields["current_season"].fields
      && ToInt(data.fields["current_season"].fields["id"]).Ok?
    ensures r.Ok? ==> Ok(r.value) == ToInt(data.fields["current_season"].fields["id"])
  {
    match SeasonIdOf(data)
    case Ok(n) => Ok(n)
    case Err(_) => Err(SeasonIdUnavailable)
  }

  /** The season-index payload for season n, whether the id is sent as a
      number or as its decimal string, gives back n. */
  lemma CurrentSeasonIdRoundTrip(n: int)
    ensures GetCurrentSeasonId(Obj(map["current_season" := Obj(map["id" := Num(n)])])) == Ok(n)
    ensures GetCurrentSeasonId(Obj(map["current_season" := Obj(map["id" := Str(IntToDecimal(n))])])) == Ok(n)
  {
    IntDecimalRoundTrip(n);
  }

  // -----------------------------------------------------------------------
  // normalize_leaderboard_entries
  // -----------------------------------------------------------------------

  /** `payload.get("entries", [])` and what `for e in ...` iterates:
      AttributeError when the payload is not a dict; no entries when the
      key is missing; a list's items; nothing for an empty dict or string;
      a non-empty dict or string yields string elements, on which
      `e.get` raises AttributeError; None, bools and numbers are not
      iterable (TypeError). */
  function EntriesOf(payload: Json): (r: Result<seq<Json>>)
    ensures payload.Obj? && "entries" !in payload.fields ==> r == Ok([])
    ensures payload.Obj? && "entries" in payload.fields && payload.fields["entries"].Arr?
            ==> r == Ok(payload.fields["entries"].items)
  {
    if !payload.Obj? then Err(AttributeError)
    else if "entries" !in payload.fields then Ok([])
    else
      match payload.fields["entries"]
      case Arr(items) => Ok(items)
      case Obj(m) => if m == map[] then Ok([]) else Err(AttributeError)
      case Str(s) => if s == [] then Ok([]) else Err(AttributeError)
      case _ => Err(TypeError)
  }

  /** An entry the loop body reads without raising: a dict whose
      character, faction and season_match_statistics are each missing,
      falsy or a dict, and likewise the character's realm. */
  predicate EntryReadable(e: Json) {
    && e.Obj?
    && Readable(Lookup(e.fields, "character"))
    && Readable(At(Lookup(e.fields, "character"), "realm"))
    && Readable(Lookup(e.fields, "faction"))
    && Readable(Lookup(e.fields, "season_match_statistics"))
  }

  /** The loop body for one entry. `x or {}` turns a missing or falsy
      parent into an empty dict, whose `.get` gives None; a truthy parent
      that is not a dict raises AttributeError. */
  function NormalizeEntry(e: Json): (r: Result<RawRow>)
    ensures r.Ok? <==> EntryReadable(e)
    ensures r.Err? ==> r.error == AttributeError
    ensures r.Ok? ==>
      && r.value.id == At(At(e, "character"), "id")
      && r.value.name == At(At(e, "character"), "name")
      && r.value.slug == At(At(At(e, "character"), "realm"), "slug")
      && r.value.faction == At(At(e, "faction"), "type")
      && r.value.rank == At(e, "rank")
      && r.value.rating == At(e, "rating")
      && r.value.played == At(At(e, "season_match_statistics"), "played")
      && r.value.won == At(At(e, "season_match_statistics"), "won")
      && r.value.lost == At(At(e, "season_match_statistics"), "lost")
  {
    if !e.Obj? then Err(AttributeError)
    else
      var character := OrEmpty(Lookup(e.fields, "character"));
      var realm := if character.Obj? then OrEmpty(Lookup(character.fields, "realm")) else EmptyObj;
      var stats := OrEmpty(Lookup(e.fields, "season_match_statistics"));
      var faction := OrEmpty(Lookup(e.fields, "faction"));
      if !character.Obj? || !realm.Obj? || !faction.Obj? || !stats.Obj? then Err(AttributeError)
      else
        Ok(RawRow(
          Lookup(character.fields, "id"),
          Lookup(character.fields, "name"),
          Lookup(realm.fields, "slug"),
          Lookup(faction.fields, "type"),
          Lookup(e.fields, "rank"),
          Lookup(e.fields, "rating"),
          Lookup(stats.fields, "played"),
          Lookup(stats.fields, "won"),
          Lookup(stats.fields, "lost")))
  }

  /** The loop body applied to every entry, in order. */
  function Normalized(entries: seq<Json>): (r: seq<Result<RawRow>>)
    ensures |r| == |entries|
    ensures forall k :: 0 <= k < |entries| ==> r[k] == NormalizeEntry(entries[k])
  {
    seq(|entries|, k requires 0 <= k < |entries| => NormalizeEntry(entries[k]))
  }

  /** What normalize_leaderboard_entries returns or raises. */
  function LeaderboardRows(payload: Json): Result<seq<RawRow>> {
    var entries :- EntriesOf(payload);
    Collect(Normalized(entries))
  }

  method NormalizeLeaderboardEntries(payload: Json) returns (r: Result<seq<RawRow>>)
    ensures r == LeaderboardRows(payload)
  {
    var entries := EntriesOf(payload);
    if entries.Err? {
      return Err(entries.error);
    }
    var es := entries.value;
    ghost var results := Normalized(es);
    var rows: seq<RawRow> := [];
    var i := 0;
    while i < |es|
      invariant 0 <= i <= |es|
      invariant Collect(results[..i]) == Ok(rows)
    {
      var row := NormalizeEntry(es[i]);
      assert results[..i + 1][..i] == results[..i];
      if row.Err? {
        CollectErrPersists(results, i + 1, |es|);
        assert results[..|es|] == results;
        return Err(row.error);
      }
      rows := rows + [row.value];
      i := i + 1;
    }
    assert results[..i] == results;
    return Ok(rows);
  }

  /** One row per entry, in entry order, when every entry is readable;
      otherwise an AttributeError. */
  lemma RowsOfEntries(entries: seq<Json>)
    ensures Collect(Normalized(entries)).Ok? <==> forall k :: 0 <= k < |entries| ==> EntryReadable(entries[k])
    ensures Collect(Normalized(entries)).Err? ==> Collect(Normalized(entries)).error == AttributeError
    ensures Collect(Normalized(entries)).Ok? ==>
      && |Collect(Normalized(entries)).value| == |entries|
      && forall k :: 0 <= k < |entries| ==> NormalizeEntry(entries[k]) == Ok(Collect(Normalized(entries)).value[k])
  {
    CollectOk(Normalized(entries));
  }

  /** A payload whose entries are a list of readable entries gives exactly
      one row per entry, in the same order; a payload without entries, or
      with an empty list, gives no rows and no error. */
  lemma LeaderboardRowsPerEntry(payload: Json)
    requires payload.Obj?
    ensures "entries" !in payload.fields ==> LeaderboardRows(payload) == Ok([])
    ensures "entries" in payload.fields && payload.fields["entries"] == Arr([])
            ==> LeaderboardRows(payload) == Ok([])
    ensures "entries" in payload.fields && payload.fields["entries"].Arr? ==>
      var items := payload.fields["entries"].items;
      && (LeaderboardRows(payload).Ok? <==> forall k :: 0 <= k < |items| ==> EntryReadable(items[k]))
      && (LeaderboardRows(payload).Ok? ==>
            && |LeaderboardRows(payload).value| == |items|
            && forall k :: 0 <= k < |items| ==> NormalizeEntry(items[k]) == Ok(LeaderboardRows(payload).value[k]))
  {
    if "entries" in payload.fields && payload.fields["entries"].Arr? {
      RowsOfEntries(payload.fields["entries"].items);
    }
  }

  /** An entry with no character, faction or statistics objects still
      gives a row: every field that depends on them is None. */
  lemma MissingParentsGiveNulls(rank: Json, rating: Json)
    ensures NormalizeEntry(Obj(map["rank" := rank, "rating" := rating]))
         == Ok(RawRow(Null, Null, Null, Null, rank, rating, Null, Null, Null))
  {
  }

  // -----------------------------------------------------------------------
  // save_leaderboard_to_parquet
  // -----------------------------------------------------------------------

  /** `pvp_leaderboard_s{season_id}_{bracket}_{processing_date}.parquet` */
  function LandingFileName(seasonId: int, bracket: string, processingDate: string): string {
    "pvp_leaderboard_s" + IntToDecimal(seasonId) + "_" + bracket + "_" + processingDate + ".parquet"
  }
}
