/** The character-profile client (src/tp2025/services/ch_profile_client.py):
    one profile request per selected character, and the assembly of the
    answers into flat profile rows.

    The HTTP session is a parameter `http` mapping a request to what
    `session.get` gives back: a response, or a connection error. */
module ProfileClient {
  import opened Errors
  import opened Json
  import opened Text
  import opened Endpoints
  import CharacterSelection

  /** The `meta` dict kept beside each request: six fields of the
      character record. */
  datatype Meta = Meta(
    charId: int,
    charName: string,
    slugName: string,
    bracketId: string,
    seasonId: int,
    fechaProceso: string)

  /** A GET request: the URL and the Authorization header. */
  datatype Request = Request(url: string, authorization: string)

  /** What `session.get` yields: a `requests.RequestException`, or a
      response with its status code and its body, which is None when the
      body is not valid JSON. */
  datatype Response = ConnectionError | Response(status: int, body: Option<Json>)

  /** A flat profile row, with its nine columns. */
  datatype ProfileRow = ProfileRow(
    id: Json,
    name: Json,
    realmSlug: string,
    faction: Json,
    charClass: Json,
    spec: Json,
    aIlvl: Json,
    eIlvl: Json,
    fechaProceso: string)

  // -----------------------------------------------------------------------
  // fetch_single_character_profile
  // -----------------------------------------------------------------------

  /** The request sent for one character: its profile URL with the
      default namespace and locale, and a bearer token. */
  function ProfileRequest(cfg: Config, token: string, realmSlug: string, characterName: string): Request {
    Request(CharacterProfileUrl(cfg, realmSlug, characterName, None, None), "Bearer " + token)
  }

  /** The decoded body of a 200 answer; None (Null) after a connection
      error or for any other status. `resp.json()` is outside the `try`,
      so a 200 answer whose body is not JSON raises. */
  function FetchSingleCharacterProfile(http: Request -> Response, cfg: Config, token: string,
                                       realmSlug: string, characterName: string): (payload: Result<Json>)
    ensures var resp := http(ProfileRequest(cfg, token, realmSlug, characterName));
      && (resp.ConnectionError? ==> payload == Ok(Null))
      && (resp.Response? && resp.status != 200 ==> payload == Ok(Null))
      && (resp.Response? && resp.status == 200 && resp.body.Some? ==> payload == Ok(resp.body.value))
      && (resp.Response? && resp.status == 200 && resp.body.None? ==> payload == Err(JsonDecodeError))
  {
    match http(ProfileRequest(cfg, token, realmSlug, characterName))
    case ConnectionError => Ok(Null)
    case Response(status, body) =>
      if status != 200 then Ok(Null)
      else if body.None? then Err(JsonDecodeError)
      else Ok(body.value)
  }

  /** The caller lower-cases the name and the URL builder lower-cases it
      again; the second pass changes nothing, so the request is the one
      for the name as given. */
  lemma LowerCasedNameSameRequest(cfg: Config, token: string, realmSlug: string, characterName: string)
    ensures ProfileRequest(cfg, token, realmSlug, Lower(characterName))
         == ProfileRequest(cfg, token, realmSlug, characterName)
  {
    LowerIdempotent(characterName);
  }

  // -----------------------------------------------------------------------
  // fetch_profiles_concurrently
  // -----------------------------------------------------------------------

  function MetaOf(rec: CharacterSelection.Candidate): Meta {
    Meta(rec.charId, rec.charName, rec.slugName, rec.bracketId, rec.seasonId, rec.fechaProceso)
  }

  /** What each submitted future holds: the record's meta, and the
      outcome of the fetch for its `slug_name` and lower-cased
      `char_name`. */
  function Submitted(http: Request -> Response, cfg: Config, token: string,
                     records: seq<CharacterSelection.Candidate>): (futures: seq<(Meta, Result<Json>)>)
    ensures |futures| == |records|
    ensures forall i :: 0 <= i < |records| ==>
      futures[i] == (MetaOf(records[i]),
                     FetchSingleCharacterProfile(http, cfg, token, records[i].slugName, Lower(records[i].charName)))
  {
    seq(|records|, i requires 0 <= i < |records| =>
      (MetaOf(records[i]),
       FetchSingleCharacterProfile(http, cfg, token, records[i].slugName, Lower(records[i].charName))))
  }

  /** A (meta, payload) result as the outcome of a future that returned. */
  function Returned(results: seq<(Meta, Json)>): (futures: seq<(Meta, Result<Json>)>)
    ensures |futures| == |results|
    ensures forall k :: 0 <= k < |results| ==> futures[k] == (results[k].0, Ok(results[k].1))
  {
    seq(|results|, k requires 0 <= k < |results| => (results[k].0, Ok(results[k].1)))
  }

  /** One request per record; the answers are collected in completion
      order, which the model leaves open: any pending request may be the
      next to complete. `fut.result()` re-raises a fetch's exception, which
      ends the collection with no result, so the call fails exactly when
      some fetch fails. Otherwise the results are a permutation of the
      per-record pairs: nothing dropped, nothing repeated. */
  method FetchProfilesConcurrently(http: Request -> Response, cfg: Config,
                                   records: seq<CharacterSelection.Candidate>, token: string)
    returns (r: Result<seq<(Meta, Json)>>)
    ensures r.Err? <==> exists i :: 0 <= i < |records| && Submitted(http, cfg, token, records)[i].1.Err?
    ensures r.Err? ==> r.error == JsonDecodeError
    ensures r.Ok? ==>
      && |r.value| == |records|
      && multiset(Returned(r.value)) == multiset(Submitted(http, cfg, token, records))
  {
    var all := Submitted(http, cfg, token, records);
    // submission: one pending future per record, with its meta
    var pending: seq<(Meta, Result<Json>)> := [];
    var i := 0;
    while i < |records|
      invariant 0 <= i <= |records|
      invariant pending == all[..i]
    {
      var meta := MetaOf(records[i]);
      var payload := FetchSingleCharacterProfile(http, cfg, token, records[i].slugName, Lower(records[i].charName));
      pending := pending + [(meta, payload)];
      i := i + 1;
    }
    assert pending == all;
    // as_completed: any pending future may complete next
    var results: seq<(Meta, Json)> := [];
    while pending != []
      invariant multiset(Returned(results)) + multiset(pending) == multiset(all)
      decreases |pending|
    {
      var k :| 0 <= k < |pending|;
      assert pending == pending[..k] + [pending[k]] + pending[k + 1..];
      var (meta, outcome) := pending[k];
      if outcome.Err? {
        assert pending[k] in multiset(all);
        assert outcome.error == JsonDecodeError;
        return Err(outcome.error);
      }
      assert Returned(results + [(meta, outcome.value)]) == Returned(results) + [pending[k]];
      results := results + [(meta, outcome.value)];
      pending := pending[..k] + pending[k + 1..];
    }
    assert |results| == |multiset(Returned(results))| == |multiset(all)| == |all|;
    forall j | 0 <= j < |all|
      ensures all[j].1.Ok?
    {
      assert all[j] in multiset(all);
      var k :| 0 <= k < |results| && Returned(results)[k] == all[j];
    }
    return Ok(results);
  }

  /** When every fetch succeeds, each record's meta, with the payload for
      its name, is among the results. */
  lemma FetchedOncePerRecord(http: Request -> Response, cfg: Config,
                             records: seq<CharacterSelection.Candidate>, token: string,
                             results: seq<(Meta, Json)>, i: int)
    requires multiset(Returned(results)) == multiset(Submitted(http, cfg, token, records))
    requires 0 <= i < |records|
    ensures FetchSingleCharacterProfile(http, cfg, token, records[i].slugName, records[i].charName).Ok?
    ensures (MetaOf(records[i]),
             FetchSingleCharacterProfile(http, cfg, token, records[i].slugName, records[i].charName).value) in results
  {
    var all := Submitted(http, cfg, token, records);
    LowerCasedNameSameRequest(cfg, token, records[i].slugName, records[i].charName);
    assert all[i] in multiset(all);
    var k :| 0 <= k < |results| && Returned(results)[k] == all[i];
  }

  // -----------------------------------------------------------------------
  // normalize_profile_row
  // -----------------------------------------------------------------------

  /** `(payload.get(parent) or {}).get("name")` */
  function NestedName(payload: Json, parent: string): Result<Json> {
    var p :- Get(payload, parent);
    NestedGet(p, "name")
  }

  /** A payload that normalize_profile_row reads without raising: a dict
      whose faction, character_class and active_spec are each missing,
      falsy or a dict. */
  predicate WellFormed(payload: Json) {
    && payload.Obj?
    && Readable(Lookup(payload.fields, "faction"))
    && Readable(Lookup(payload.fields, "character_class"))
    && Readable(Lookup(payload.fields, "active_spec"))
  }

  /** The nested `name` of a parent value: its name when it is a dict,
      None when it is missing or falsy. */
  predicate NameOf(parent: Json, v: Json) {
    && (parent.Obj? ==> v == Lookup(parent.fields, "name"))
    && (!Truthy(parent) ==> v == Null)
  }

  function NormalizeProfileRow(meta: Meta, payload: Json): (r: Result<ProfileRow>)
    ensures r.Ok? <==> WellFormed(payload)
    ensures r.Err? ==> r.error == AttributeError
    ensures r.Ok? ==>
      var f := payload.fields;
      && r.value.id == Lookup(f, "id")
      && r.value.name == Lookup(f, "name")
      && r.value.realmSlug == meta.slugName
      && NameOf(Lookup(f, "faction"), r.value.faction)
      && NameOf(Lookup(f, "character_class"), r.value.charClass)
      && NameOf(Lookup(f, "active_spec"), r.value.spec)
      && r.value.aIlvl == Lookup(f, "average_item_level")
      && r.value.eIlvl == Lookup(f, "equipped_item_level")
      && r.value.fechaProceso == meta.fechaProceso
  {
    var faction :- NestedName(payload, "faction");
    var charClass :- NestedName(payload, "character_class");
    var spec :- NestedName(payload, "active_spec");
    // the reads above succeeded, so the payload is a dict
    var f := payload.fields;
    Ok(ProfileRow(Lookup(f, "id"), Lookup(f, "name"), meta.slugName, faction, charClass, spec,
                  Lookup(f, "average_item_level"), Lookup(f, "equipped_item_level"), meta.fechaProceso))
  }

  // -----------------------------------------------------------------------
  // build_profiles_dataframe
  // -----------------------------------------------------------------------

  /** The pairs the loop keeps: those with a truthy payload, in order. */
  function Survivors(pairs: seq<(Meta, Json)>): (kept: seq<(Meta, Json)>)
    ensures |kept| <= |pairs|
    ensures forall p :: p in kept <==> p in pairs && Truthy(p.1)
  {
    if pairs == [] then []
    else
      var last := pairs[|pairs| - 1];
      assert pairs == pairs[..|pairs| - 1] + [last];
      Survivors(pairs[..|pairs| - 1]) + (if Truthy(last.1) then [last] else [])
  }

  /** The rows of the first n pairs, or the error of the first pair whose
      payload cannot be read. */
  function AssembledRows(pairs: seq<(Meta, Json)>, n: int): Result<seq<ProfileRow>>
    requires 0 <= n <= |pairs|
  {
    if n == 0 then Ok([])
    else
      var rows :- AssembledRows(pairs, n - 1);
      var (meta, payload) := pairs[n - 1];
      if !Truthy(payload) then Ok(rows)
      else
        var row :- NormalizeProfileRow(meta, payload);
        Ok(rows + [row])
  }

  /** What build_profiles_dataframe returns or raises. */
  function ProfilesDataframe(pairs: seq<(Meta, Json)>): Result<seq<ProfileRow>> {
    var rows :- AssembledRows(pairs, |pairs|);
    if rows == [] then Err(NoProfileRecords) else Ok(rows)
  }

  method BuildProfilesDataframe(pairs: seq<(Meta, Json)>) returns (r: Result<seq<ProfileRow>>)
    ensures r == ProfilesDataframe(pairs)
  {
    var rows: seq<ProfileRow> := [];
    var i := 0;
    while i < |pairs|
      invariant 0 <= i <= |pairs|
      invariant AssembledRows(pairs, i) == Ok(rows)
    {
      var (meta, payload) := pairs[i];
      if !Truthy(payload) {
        i := i + 1;
        continue;
      }
      var row := NormalizeProfileRow(meta, payload);
      if row.Err? {
        assert AssembledRows(pairs, i + 1) == Err(row.error);
        AssembledErrorPersists(pairs, i + 1, |pairs|);
        return Err(row.error);
      }
      rows := rows + [row.value];
      i := i + 1;
    }
    if rows == [] {
      return Err(NoProfileRecords);
    }
    return Ok(rows);
  }

  /** Once a pair fails, the later pairs are not looked at. */
  lemma {:induction false} AssembledErrorPersists(pairs: seq<(Meta, Json)>, n: int, m: int)
    requires 0 <= n <= m <= |pairs|
    requires AssembledRows(pairs, n).Err?
    ensures AssembledRows(pairs, m) == AssembledRows(pairs, n)
    decreases m - n
  {
    if n < m {
      AssembledErrorPersists(pairs, n + 1, m);
    }
  }

  lemma SurvivorsStep(pairs: seq<(Meta, Json)>, n: int)
    requires 0 < n <= |pairs|
    ensures Survivors(pairs[..n])
         == Survivors(pairs[..n - 1]) + (if Truthy(pairs[n - 1].1) then [pairs[n - 1]] else [])
  {
    assert pairs[..n][..n - 1] == pairs[..n - 1];
    assert pairs[..n][n - 1] == pairs[n - 1];
  }

  /** The loop succeeds exactly when every kept payload is well formed. */
  lemma {:induction false} AssembledOkIff(pairs: seq<(Meta, Json)>, n: int)
    requires 0 <= n <= |pairs|
    ensures AssembledRows(pairs, n).Ok? <==> forall p :: p in Survivors(pairs[..n]) ==> WellFormed(p.1)
  {
    if n > 0 {
      AssembledOkIff(pairs, n - 1);
      SurvivorsStep(pairs, n);
      if Truthy(pairs[n - 1].1) {
        assert pairs[n - 1] in Survivors(pairs[..n]);
      }
    }
  }

  /** The loop is filter-then-map: row k is the normalised k-th kept pair,
      so there is one row per truthy payload, in input order. */
  lemma {:induction false} AssembledIsMapOfSurvivors(pairs: seq<(Meta, Json)>, n: int)
    requires 0 <= n <= |pairs|
    requires AssembledRows(pairs, n).Ok?
    ensures var kept, rows := Survivors(pairs[..n]), AssembledRows(pairs, n).value;
      && |rows| == |kept|
      && forall k :: 0 <= k < |kept| ==> NormalizeProfileRow(kept[k].0, kept[k].1) == Ok(rows[k])
  {
    if n > 0 {
      AssembledIsMapOfSurvivors(pairs, n - 1);
      SurvivorsStep(pairs, n);
    }
  }

  /** The RuntimeError "no profile row" is raised exactly when no pair has
      a truthy payload. */
  lemma NoProfileRecordsIffNoSurvivors(pairs: seq<(Meta, Json)>)
    ensures ProfilesDataframe(pairs) == Err(NoProfileRecords) <==> Survivors(pairs) == []
  {
    AssembledOkIff(pairs, |pairs|);
    assert pairs[..|pairs|] == pairs;
    if AssembledRows(pairs, |pairs|).Ok? {
      AssembledIsMapOfSurvivors(pairs, |pairs|);
    } else {
      AssembledFailsOnlyByAttribute(pairs, |pairs|);
      if Survivors(pairs) == [] {
        assert false;
      }
    }
  }

  lemma {:induction false} AssembledFailsOnlyByAttribute(pairs: seq<(Meta, Json)>, n: int)
    requires 0 <= n <= |pairs|
    ensures AssembledRows(pairs, n).Err? ==> AssembledRows(pairs, n).error == AttributeError
  {
    if n > 0 {
      AssembledFailsOnlyByAttribute(pairs, n - 1);
    }
  }

  /** A successful build never has more rows than pairs. */
  lemma ProfilesDataframeBounded(pairs: seq<(Meta, Json)>)
    ensures ProfilesDataframe(pairs).Ok? ==> 1 <= |ProfilesDataframe(pairs).value| <= |pairs|
  {
    if AssembledRows(pairs, |pairs|).Ok? {
      AssembledIsMapOfSurvivors(pairs, |pairs|);
    }
    assert pairs[..|pairs|] == pairs;
  }
}
