/** The leaderboard loader (src/tp2025/jobs/load_leaderboard_raw_to_db.py):
    choosing the landing files of one run, reading season, bracket and
    date back out of a landing file's name, and putting the columns of a
    loaded frame in their fixed order. */
module LoadLeaderboard {
  import opened Errors
  import opened Json
  import opened Text
  import opened Sorting
  import opened Frames
  import opened Seqs
  import opened Landing
  import ExtractLeaderboard

  // -----------------------------------------------------------------------
  // list_parquet_for_processing_date
  // -----------------------------------------------------------------------

  /** A regular file whose name ends in `.parquet`, starts with
      `pvp_leaderboard_s` and holds the processing date somewhere. */
  predicate IsRunFile(e: DirEntry, processingDate: string) {
    && e.isFile
    && EndsWith(e.name, ".parquet")
    && StartsWith(e.name, "pvp_leaderboard_s")
    && Contains(e.name, processingDate)
  }

  /** The names of the run files among the entries, in listing order. */
  function RunFiles(entries: seq<DirEntry>, processingDate: string): (r: seq<string>)
    ensures forall n :: n in r <==> exists e :: e in entries && IsRunFile(e, processingDate) && e.name == n
    ensures |r| <= |entries|
  {
    if entries == [] then []
    else
      var last := entries[|entries| - 1];
      assert entries == entries[..|entries| - 1] + [last];
      RunFiles(entries[..|entries| - 1], processingDate) + (if IsRunFile(last, processingDate) then [last.name] else [])
  }

  /** Paths in one directory compare by their names, code point by code
      point. */
  lemma StrLeIsTotalPreorder()
    ensures TotalPreorder(StrLe)
  {
    forall a, b
      ensures StrLe(a, b) || StrLe(b, a)
    {
      StrLeTotal(a, b);
    }
    forall a, b, c | StrLe(a, b) && StrLe(b, c)
      ensures StrLe(a, c)
    {
      StrLeTransitive(a, b, c);
    }
  }

  /** The run files, sorted; FileNotFound when the landing directory does
      not exist. The directory's entries are a parameter, in whatever
      order the file system lists them. */
  method ListParquetForProcessingDate(landingExists: bool, entries: seq<DirEntry>, processingDate: string)
    returns (r: Result<seq<string>>)
    ensures r.Err? <==> !landingExists
    ensures r.Err? ==> r.error == FileNotFound
    ensures r.Ok? ==>
      && SortedBy(r.value, StrLe)
      && multiset(r.value) == multiset(RunFiles(entries, processingDate))
      && forall n :: n in r.value <==> exists e :: e in entries && IsRunFile(e, processingDate) && e.name == n
  {
    if !landingExists {
      return Err(FileNotFound);
    }
    var files: seq<string> := [];
    var i := 0;
    while i < |entries|
      invariant 0 <= i <= |entries|
      invariant files == RunFiles(entries[..i], processingDate)
    {
      var e := entries[i];
      assert entries[..i + 1][..i] == entries[..i];
      if !e.isFile || !EndsWith(e.name, ".parquet") {
        i := i + 1;
        continue;
      }
      if !StartsWith(e.name, "pvp_leaderboard_s") {
        i := i + 1;
        continue;
      }
      if Contains(e.name, processingDate) {
        files := files + [e.name];
      }
      i := i + 1;
    }
    assert entries[..i] == entries;
    StrLeIsTotalPreorder();
    SortIsSorted(files, StrLe);
    var sorted := Sort(files, StrLe);
    forall n
      ensures n in sorted <==> n in files
    {
      assert n in sorted <==> n in multiset(sorted);
      assert n in files <==> n in multiset(files);
    }
    return Ok(sorted);
  }

  // -----------------------------------------------------------------------
  // parse_metadata
  // -----------------------------------------------------------------------

  /** `Path(name).stem`: the name without its last suffix; a name whose
      only dot is its first or last character has no suffix. */
  function Stem(name: string): (r: string)
    ensures r <= name
  {
    var i := LastIndexOf(name, '.');
    if 0 < i < |name| - 1 then name[..i] else name
  }

  /** (season id, bracket, date) from a landing file name: the stem split
      on `_`, with parts 2, 3 and 4 read as season (leading `s` removed,
      then `int`), bracket and date. IndexError when the stem has fewer
      than five parts, ValueError when the season is not an integer. */
  function ParseMetadata(name: string): (r: Result<(int, string, string)>)
    ensures |Split(Stem(name), '_')| < 5 ==> r == Err(IndexError)
    ensures r.Err? ==> r.error == IndexError || r.error == ValueError
    ensures r.Ok? ==> '_' !in r.value.1 && '_' !in r.value.2
    ensures r.Ok? ==> Split(Stem(name), '_')[3..5] == [r.value.1, r.value.2]
    ensures |Split(Stem(name), '_')| >= 5 ==>
      var season := ParseInt(LStrip(Split(Stem(name), '_')[2], 's'));
      && (r.Ok? <==> season.Some?)
      && (r.Ok? ==> r.value.0 == season.value)
      && (r.Err? ==> r.error == ValueError)
  {
    var parts := Split(Stem(name), '_');
    if |parts| < 5 then Err(IndexError)
    else
      assert parts[3] in parts && parts[4] in parts;
      match ParseInt(LStrip(parts[2], 's'))
      case Some(seasonId) => Ok((seasonId, parts[3], parts[4]))
      case None => Err(ValueError)
  }

  lemma StemOfSuffixed(x: string, ext: string)
    requires x != [] && ext != [] && '.' !in ext
    ensures Stem(x + ['.'] + ext) == x
  {
    var name := x + ['.'] + ext;
    var i := LastIndexOf(name, '.');
    assert name[|x|] == '.';
    forall k | |x| < k < |name|
      ensures name[k] != '.'
    {
      assert name[k] == ext[k - |x| - 1];
    }
    assert i == |x|;
    assert name[..i] == x;
  }

  lemma DecimalHasNoUnderscore(n: int)
    ensures '_' !in IntToDecimal(n)
    ensures IntToDecimal(n)[0] != 's'
  {
    var s := IntToDecimal(n);
    if n < 0 {
      forall k | 0 <= k < |s|
        ensures s[k] != '_'
      {
        if k > 0 {
          assert s[k] == s[1..][k - 1];
        }
      }
    }
  }

  lemma LStripSeason(dec: string)
    requires dec != [] && dec[0] != 's'
    ensures LStrip("s" + dec, 's') == dec
  {
    assert ("s" + dec)[1..] == dec;
  }

  /** The landing file name splits into the five parts its writer joined. */
  lemma LandingStemParts(seasonId: int, bracket: string, processingDate: string)
    requires '_' !in bracket && '_' !in processingDate
    ensures Split("pvp_leaderboard_s" + IntToDecimal(seasonId) + "_" + bracket + "_" + processingDate, '_')
         == ["pvp", "leaderboard", "s" + IntToDecimal(seasonId), bracket, processingDate]
  {
    var dec := IntToDecimal(seasonId);
    var tail := bracket + ['_'] + processingDate;
    var third := ("s" + dec) + ['_'] + tail;
    var second := "leaderboard" + ['_'] + third;
    var whole := "pvp" + ['_'] + second;
    assert "pvp_leaderboard_s" == "pvp" + ['_'] + "leaderboard" + ['_'] + "s";
    assert "pvp_leaderboard_s" + dec + "_" + bracket + "_" + processingDate == whole;
    DecimalHasNoUnderscore(seasonId);
    SplitNone(processingDate, '_');
    SplitAfter(bracket, processingDate, '_');
    SplitAfter("s" + dec, tail, '_');
    SplitAfter("leaderboard", third, '_');
    SplitAfter("pvp", second, '_');
  }

  /** Reading back a name the leaderboard extraction wrote gives the
      season, bracket and date it was written with, for every season id
      (negative ones too) as long as bracket and date hold no `_`. */
  lemma MetadataRoundTrip(seasonId: int, bracket: string, processingDate: string)
    requires '_' !in bracket && '_' !in processingDate
    ensures ParseMetadata(ExtractLeaderboard.LandingFileName(seasonId, bracket, processingDate))
         == Ok((seasonId, bracket, processingDate))
  {
    var dec := IntToDecimal(seasonId);
    var stem := "pvp_leaderboard_s" + dec + "_" + bracket + "_" + processingDate;
    assert ".parquet" == ['.'] + "parquet";
    StemOfSuffixed(stem, "parquet");
    assert ExtractLeaderboard.LandingFileName(seasonId, bracket, processingDate) == stem + ['.'] + "parquet";
    LandingStemParts(seasonId, bracket, processingDate);
    DecimalHasNoUnderscore(seasonId);
    LStripSeason(dec);
    IntDecimalRoundTrip(seasonId);
  }

  // -----------------------------------------------------------------------
  // load_parquet_to_dataframe
  // -----------------------------------------------------------------------

  /** The fixed leading columns of a loaded leaderboard frame. */
  const OrderedColumns: seq<string> :=
    ["id", "name", "slug", "faction", "rank", "rating", "played", "won", "lost", "bracket", "s_id", "fecha_proceso"]

  /** `[c for c in columns if c not in ordered]` */
  function Remaining(columns: seq<string>): (r: seq<string>)
    ensures forall c :: c in r <==> c in columns && c !in OrderedColumns
  {
    if columns == [] then []
    else (if columns[0] in OrderedColumns then [] else [columns[0]]) + Remaining(columns[1..])
  }

  /** `ordered + remaining` */
  function ColumnOrder(columns: seq<string>): (r: seq<string>)
    ensures OrderedColumns <= r
    ensures forall c :: c in r <==> c in columns || c in OrderedColumns
  {
    OrderedColumns + Remaining(columns)
  }

  /** The columns after the fixed ones keep their original order. */
  lemma {:induction false} RemainingKeepsOrder(columns: seq<string>)
    ensures IsSubsequence(Remaining(columns), columns)
  {
    if columns != [] {
      RemainingKeepsOrder(columns[1..]);
      var rest := Remaining(columns[1..]);
      if columns[0] !in OrderedColumns {
        assert Remaining(columns) == [columns[0]] + rest;
        assert Remaining(columns)[1..] == rest;
      } else {
        assert Remaining(columns) == rest;
      }
    }
  }

  lemma {:induction false} RemainingCount(columns: seq<string>, x: string)
    ensures multiset(Remaining(columns))[x] == if x in OrderedColumns then 0 else multiset(columns)[x]
  {
    if columns != [] {
      RemainingCount(columns[1..], x);
      assert columns == [columns[0]] + columns[1..];
    }
  }

  lemma {:induction false} RemainingDistinct(columns: seq<string>)
    requires Distinct(columns)
    ensures Distinct(Remaining(columns))
  {
    if columns != [] {
      DistinctTail(columns);
      RemainingDistinct(columns[1..]);
    }
  }

  lemma OrderedColumnsDistinct()
    ensures Distinct(OrderedColumns)
  {
  }

  /** A distinct list followed by the other elements of a distinct
      list that holds all of it is a permutation of that list. */
  lemma {:induction false} FixedThenRest(fixed: seq<string>, rest: seq<string>, columns: seq<string>)
    requires Distinct(fixed) && Distinct(columns)
    requires forall c :: c in fixed ==> c in columns
    requires forall x :: multiset(rest)[x] == if x in fixed then 0 else multiset(columns)[x]
    ensures multiset(fixed + rest) == multiset(columns)
  {
    forall x
      ensures multiset(fixed + rest)[x] == multiset(columns)[x]
    {
      DistinctCount(fixed, x);
      DistinctCount(columns, x);
    }
  }

  /** When every fixed column is present and no name repeats, reordering
      loses no column. */
  lemma ColumnOrderIsPermutation(columns: seq<string>)
    requires Distinct(columns)
    requires forall c :: c in OrderedColumns ==> c in columns
    ensures multiset(ColumnOrder(columns)) == multiset(columns)
  {
    forall x
      ensures multiset(Remaining(columns))[x] == if x in OrderedColumns then 0 else multiset(columns)[x]
    {
      RemainingCount(columns, x);
    }
    OrderedColumnsDistinct();
    FixedThenRest(OrderedColumns, Remaining(columns), columns);
  }

  /** Reordering duplicates no column. */
  lemma ColumnOrderDistinct(columns: seq<string>)
    requires Distinct(columns)
    ensures Distinct(ColumnOrder(columns))
  {
    var r := ColumnOrder(columns);
    var rest := Remaining(columns);
    var n := |OrderedColumns|;
    OrderedColumnsDistinct();
    RemainingDistinct(columns);
    forall i, j | 0 <= i < j < |r|
      ensures r[i] != r[j]
    {
      if j >= n {
        assert r[j] == rest[j - n];
        if i >= n {
          assert r[i] == rest[i - n];
        } else {
          assert r[i] == OrderedColumns[i];
          assert r[j] in rest;
        }
      } else {
        assert r[i] == OrderedColumns[i] && r[j] == OrderedColumns[j];
      }
    }
  }

  /** The nine columns the leaderboard extraction writes. */
  const LandingColumns: seq<string> := ["id", "name", "slug", "faction", "rank", "rating", "played", "won", "lost"]

  lemma {:induction false} NoneRemaining(columns: seq<string>)
    requires forall c :: c in columns ==> c in OrderedColumns
    ensures Remaining(columns) == []
  {
    if columns != [] {
      assert columns[0] in columns;
      NoneRemaining(columns[1..]);
    }
  }

  /** The landing columns followed by s_id, bracket and fecha_proceso,
      in the order the loader assigns them. */
  const LoadedColumns: seq<string> := LandingColumns + ["s_id", "bracket", "fecha_proceso"]

  lemma AppendedMetadataColumns()
    ensures WithColumn(WithColumn(WithColumn(LandingColumns, "s_id"), "bracket"), "fecha_proceso") == LoadedColumns
  {
    var c1 := LandingColumns + ["s_id"];
    var c2 := c1 + ["bracket"];
    assert "s_id" !in LandingColumns;
    assert "bracket" !in c1;
    assert "fecha_proceso" !in c2;
  }

  lemma LoadedColumnsDistinct()
    ensures Distinct(LoadedColumns)
  {
  }

  lemma LoadedColumnsAreFixed()
    ensures forall c :: c in LoadedColumns <==> c in OrderedColumns
  {
  }

  /** A frame read from a landing file gets s_id, bracket and
      fecha_proceso appended in that order, and the reordering moves
      bracket before s_id: the result is exactly the twelve fixed columns,
      none lost and none repeated. */
  lemma LandingFrameColumns()
    ensures var cols := WithColumn(WithColumn(WithColumn(LandingColumns, "s_id"), "bracket"), "fecha_proceso");
      && cols != OrderedColumns
      && ColumnOrder(cols) == OrderedColumns
      && multiset(cols) == multiset(OrderedColumns)
  {
    AppendedMetadataColumns();
    assert LoadedColumns[9] != OrderedColumns[9];
    LoadedColumnsAreFixed();
    NoneRemaining(LoadedColumns);
    LoadedColumnsDistinct();
    ColumnOrderIsPermutation(LoadedColumns);
  }

  /** Reads season, bracket and date from the file name (its errors
      first), assigns them as the columns s_id (as decimal text), bracket
      and fecha_proceso, then selects the fixed columns followed by the
      others; KeyError when a fixed column is missing. */
  method LoadParquetToDataframe(df: DataFrame, fileName: string) returns (r: Result<DataFrame>)
    requires df.Valid()
    modifies df
    ensures ParseMetadata(fileName).Err? ==> r == Err(ParseMetadata(fileName).error) && unchanged(df)
    ensures ParseMetadata(fileName).Ok? ==>
      var (seasonId, bracket, fecha) := ParseMetadata(fileName).value;
      && df.Valid() && df.height == old(df.height)
      && df.columns == WithColumn(WithColumn(WithColumn(old(df.columns), "s_id"), "bracket"), "fecha_proceso")
      && df.data == old(df.data)["s_id" := seq(df.height, _ => Str(IntToDecimal(seasonId)))]
                                ["bracket" := seq(df.height, _ => Str(bracket))]
                                ["fecha_proceso" := seq(df.height, _ => Str(fecha))]
      && (r.Ok? <==> forall c :: c in OrderedColumns ==> c in df.columns)
      && (r.Err? ==> r.error.KeyError?)
      && (r.Ok? ==>
            && fresh(r.value) && r.value.Valid()
            && r.value.columns == ColumnOrder(df.columns)
            && r.value.height == df.height
            && forall c :: c in r.value.columns ==> r.value.data[c] == df.data[c])
  {
    var meta := ParseMetadata(fileName);
    if meta.Err? {
      return Err(meta.error);
    }
    var (seasonId, bracket, fecha) := meta.value;
    df.Assign("s_id", Str(IntToDecimal(seasonId)));
    df.Assign("bracket", Str(bracket));
    df.Assign("fecha_proceso", Str(fecha));
    var remaining := Remaining(df.columns);
    r := df.Select(OrderedColumns + remaining);
  }
}
