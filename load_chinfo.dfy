/** The character-info loader (src/tp2025/jobs/load_chinfo_raw_to_db.py):
    finding the run's landing file, checking and projecting its columns,
    and what goes into the raw table. */
module LoadChinfo {
  import opened Errors
  import opened Json
  import opened Seqs
  import opened Landing

  // -----------------------------------------------------------------------
  // list_parquet_for_processing_date
  // -----------------------------------------------------------------------

  /** `ch_profile_{processing_date}.parquet`: the name the character-info
      extraction saves its snapshot under, and the pattern this loader
      looks for. */
  function ChinfoFileName(processingDate: string): string {
    "ch_profile_" + processingDate + ".parquet"
  }

  /** The entries called `name`, as names. */
  function Matching(entries: seq<DirEntry>, name: string): (r: seq<string>)
    ensures forall n :: n in r <==> n == name && exists e :: e in entries && e.name == name
  {
    if entries == [] then []
    else
      assert forall e :: e in entries <==> e == entries[0] || e in entries[1..];
      (if entries[0].name == name then [name] else []) + Matching(entries[1..], name)
  }

  /** A directory holds at most one entry of a given name. */
  lemma {:induction false} MatchingAtMostOne(entries: seq<DirEntry>, name: string)
    requires NamesUnique(entries)
    ensures |Matching(entries, name)| <= 1
  {
    if entries != [] {
      var rest := Matching(entries[1..], name);
      assert NamesUnique(entries[1..]) by {
        forall i, j | 0 <= i < j < |entries[1..]|
          ensures entries[1..][i].name != entries[1..][j].name
        {
          assert entries[1..][i] == entries[i + 1] && entries[1..][j] == entries[j + 1];
        }
      }
      MatchingAtMostOne(entries[1..], name);
      if entries[0].name == name {
        forall e | e in entries[1..]
          ensures e.name != name
        {
          var k :| 0 <= k < |entries[1..]| && entries[1..][k] == e;
          assert entries[k + 1] == e;
        }
        NonEmptyHasFirst(rest);
      }
    }
  }

  /** `list(LANDING_DIR.glob(pattern))`: the entry named exactly like the
      run's file, file or directory, if there is one; nothing when the
      landing directory does not exist. */
  function ListParquetForProcessingDate(landingExists: bool, entries: seq<DirEntry>, processingDate: string)
    : (r: seq<string>)
    ensures forall n :: n in r <==>
      landingExists && n == ChinfoFileName(processingDate) && exists e :: e in entries && e.name == n
    ensures NamesUnique(entries) ==> |r| <= 1
  {
    if landingExists then
      if NamesUnique(entries) then
        MatchingAtMostOne(entries, ChinfoFileName(processingDate));
        Matching(entries, ChinfoFileName(processingDate))
      else Matching(entries, ChinfoFileName(processingDate))
    else []
  }

  /** Two processing dates never share a file name. */
  lemma ChinfoFileNameInjective(d1: string, d2: string)
    requires ChinfoFileName(d1) == ChinfoFileName(d2)
    ensures d1 == d2
  {
    var n1 := ChinfoFileName(d1);
    assert |d1| == |d2|;
    assert n1[11..11 + |d1|] == d1;
    assert ChinfoFileName(d2)[11..11 + |d2|] == d2;
  }

  /** The snapshot the extraction saved for a date is the one file the
      loader finds for that date, and is never found for another date. */
  lemma SavedSnapshotIsListed(entries: seq<DirEntry>, saved: string, processingDate: string)
    requires NamesUnique(entries)
    requires exists e :: e in entries && e.name == ChinfoFileName(saved)
    ensures saved == processingDate <==>
      ListParquetForProcessingDate(true, entries, processingDate) == [ChinfoFileName(saved)]
    ensures saved != processingDate ==>
      ChinfoFileName(saved) !in ListParquetForProcessingDate(true, entries, processingDate)
  {
    var r := ListParquetForProcessingDate(true, entries, processingDate);
    if saved == processingDate {
      assert ChinfoFileName(saved) in r;
    } else {
      if ChinfoFileName(saved) in r {
        ChinfoFileNameInjective(saved, processingDate);
      }
    }
  }

  // -----------------------------------------------------------------------
  // load_parquet_to_dataframe
  // -----------------------------------------------------------------------

  /** The raw character-info columns, in table order. */
  const ExpectedColumns: seq<string> :=
    ["id", "name", "realm_slug", "faction", "class", "spec", "a_ilvl", "e_ilvl", "fecha_proceso"]

  /** A frame read from a parquet file, as a value. */
  datatype Frame = Frame(columns: seq<string>, data: map<string, seq<Json>>, height: nat)

  /** Every listed column has cells, one per row. */
  predicate Rectangular(f: Frame) {
    forall c :: c in f.columns ==> c in f.data && |f.data[c]| == f.height
  }

  /** The names of `expected` that are not columns, in `expected` order. */
  function MissingFrom(expected: seq<string>, columns: seq<string>): (r: seq<string>)
    ensures forall c :: c in r <==> c in expected && c !in columns
  {
    if expected == [] then []
    else (if expected[0] in columns then [] else [expected[0]]) + MissingFrom(expected[1..], columns)
  }

  lemma {:induction false} MissingFromInOrder(expected: seq<string>, columns: seq<string>)
    requires Distinct(expected)
    ensures IsSubsequence(MissingFrom(expected, columns), expected)
    ensures Distinct(MissingFrom(expected, columns))
  {
    if expected != [] {
      DistinctTail(expected);
      MissingFromInOrder(expected[1..], columns);
      var rest := MissingFrom(expected[1..], columns);
      if expected[0] !in columns {
        var r := [expected[0]] + rest;
        assert MissingFrom(expected, columns) == r;
        assert r[1..] == rest;
        forall i, j | 0 <= i < j < |r|
          ensures r[i] != r[j]
        {
          if i == 0 {
            assert r[j] == rest[j - 1] && r[j] in rest;
          } else {
            assert r[i] == rest[i - 1] && r[j] == rest[j - 1];
          }
        }
      } else {
        assert MissingFrom(expected, columns) == rest;
      }
    }
  }

  /** `[c for c in expected_cols if c not in df.columns]` */
  function Missing(columns: seq<string>): seq<string> {
    MissingFrom(ExpectedColumns, columns)
  }

  lemma ExpectedColumnsDistinct()
    ensures Distinct(ExpectedColumns)
  {
  }

  /** The missing-column list names every absent expected column exactly
      once, in expected-column order, and nothing else. */
  lemma MissingIsExact(columns: seq<string>)
    ensures forall c :: c in Missing(columns) <==> c in ExpectedColumns && c !in columns
    ensures IsSubsequence(Missing(columns), ExpectedColumns)
    ensures Distinct(Missing(columns))
  {
    ExpectedColumnsDistinct();
    MissingFromInOrder(ExpectedColumns, columns);
  }

  /** The ValueError listing the missing columns when one is absent;
      otherwise the frame cut down to the nine expected columns in their
      order, every other column dropped. */
  function LoadParquetToDataframe(f: Frame): (r: Result<Frame>)
    requires Rectangular(f)
    ensures r.Err? <==> exists c :: c in ExpectedColumns && c !in f.columns
    ensures r.Err? ==> r.error == MissingColumns(Missing(f.columns)) && Missing(f.columns) != []
    ensures r.Ok? ==>
      && Rectangular(r.value)
      && r.value.columns == ExpectedColumns
      && r.value.height == f.height
      && forall c :: c in ExpectedColumns ==> r.value.data[c] == f.data[c]
  {
    var missing := Missing(f.columns);
    if missing != [] then
      assert missing[0] in missing;
      Err(MissingColumns(missing))
    else
      assert forall c :: c in ExpectedColumns ==> c !in missing;
      Ok(Frame(ExpectedColumns, map c | c in ExpectedColumns :: f.data[c], f.height))
  }

  // -----------------------------------------------------------------------
  // load_into_duckdb
  // -----------------------------------------------------------------------

  /** A frame with the nine expected columns. */
  predicate Projected(f: Frame) {
    Rectangular(f) && f.columns == ExpectedColumns
  }

  function TotalHeight(frames: seq<Frame>): nat {
    if frames == [] then 0 else TotalHeight(frames[..|frames| - 1]) + frames[|frames| - 1].height
  }

  /** The cells of column c of every frame, the first frame's first. */
  function ColumnCells(frames: seq<Frame>, c: string): seq<Json>
    requires c in ExpectedColumns
    requires forall k :: 0 <= k < |frames| ==> Projected(frames[k])
  {
    if frames == [] then []
    else
      assert Projected(frames[0]);
      frames[0].data[c] + ColumnCells(frames[1..], c)
  }

  /** Column c of a non-empty list of frames is that of all but the last,
      followed by the last frame's. */
  lemma {:induction false} ColumnCellsSnoc(frames: seq<Frame>, c: string)
    requires |frames| > 0 && c in ExpectedColumns
    requires forall k :: 0 <= k < |frames| ==> Projected(frames[k])
    ensures ColumnCells(frames, c) == ColumnCells(frames[..|frames| - 1], c) + frames[|frames| - 1].data[c]
  {
    var n := |frames|;
    if n == 1 {
      assert frames[..0] == [];
      assert ColumnCells(frames[1..], c) == [];
    } else {
      var tail := frames[1..];
      ColumnCellsSnoc(tail, c);
      assert tail[..|tail| - 1] == frames[..n - 1][1..];
      assert tail[|tail| - 1] == frames[n - 1];
    }
  }

  /** `pd.concat(dfs, ignore_index=True)` of frames sharing the expected
      columns: each column's cells one frame after another. */
  function Concat(frames: seq<Frame>): (r: Frame)
    requires |frames| > 0
    requires forall k :: 0 <= k < |frames| ==> Projected(frames[k])
    ensures Projected(r)
    ensures r.height == TotalHeight(frames)
    ensures forall c :: c in ExpectedColumns ==> r.data[c] == ColumnCells(frames, c)
  {
    var last := frames[|frames| - 1];
    assert Projected(last);
    if |frames| == 1 then
      assert forall c :: c in ExpectedColumns ==> ColumnCells(frames[1..], c) == [];
      last
    else
      var init := Concat(frames[..|frames| - 1]);
      assert forall c :: c in ExpectedColumns ==> ColumnCells(frames, c) == init.data[c] + last.data[c] by {
        forall c | c in ExpectedColumns
          ensures ColumnCells(frames, c) == init.data[c] + last.data[c]
        {
          ColumnCellsSnoc(frames, c);
        }
      }
      Frame(ExpectedColumns, map c | c in ExpectedColumns :: init.data[c] + last.data[c], init.height + last.height)
  }

  /** Each file read and checked, in order. */
  function Loaded(files: seq<string>, read: string -> Frame): (r: seq<Result<Frame>>)
    requires forall n :: Rectangular(read(n))
    ensures |r| == |files|
    ensures forall k :: 0 <= k < |files| ==> r[k] == LoadParquetToDataframe(read(files[k]))
  {
    seq(|files|, k requires 0 <= k < |files| => LoadParquetToDataframe(read(files[k])))
  }

  /** `[load_parquet_to_dataframe(p) for p in files]`: the first failure
      stops the load. */
  function LoadAll(files: seq<string>, read: string -> Frame): (r: Result<seq<Frame>>)
    requires forall n :: Rectangular(read(n))
    ensures r.Ok? <==> forall k :: 0 <= k < |files| ==> LoadParquetToDataframe(read(files[k])).Ok?
    ensures r.Ok? ==>
      && |r.value| == |files|
      && forall k :: 0 <= k < |files| ==> LoadParquetToDataframe(read(files[k])) == Ok(r.value[k])
    ensures r.Ok? ==> forall k :: 0 <= k < |files| ==> Projected(r.value[k])
    ensures r.Err? ==>
      exists k :: && 0 <= k < |files| && LoadParquetToDataframe(read(files[k])) == Err(r.error)
                  && forall j :: 0 <= j < k ==> LoadParquetToDataframe(read(files[j])).Ok?
    ensures r.Err? ==> r.error.MissingColumns?
  {
    var results := Loaded(files, read);
    CollectOk(results);
    Collect(results)
  }

  /** With unique names in the landing directory, the listing is empty or
      is the one file named for the date. */
  lemma UniqueListing(landingExists: bool, entries: seq<DirEntry>, processingDate: string)
    ensures var files := ListParquetForProcessingDate(landingExists, entries, processingDate);
      NamesUnique(entries) ==> files == [] || files == [ChinfoFileName(processingDate)]
  {
    var files := ListParquetForProcessingDate(landingExists, entries, processingDate);
    if NamesUnique(entries) && files != [] {
      assert files[0] in files;
    }
  }

  /** Loading the one file of the date gives that file's projection, or
      its error. */
  lemma LoadOneFile(name: string, read: string -> Frame)
    requires forall n :: Rectangular(read(n))
    ensures var loaded := LoadParquetToDataframe(read(name));
      && (loaded.Ok? ==> LoadAll([name], read) == Ok([loaded.value]))
      && (loaded.Err? ==> LoadAll([name], read) == Err(loaded.error))
  {
    var r := LoadAll([name], read);
    if r.Ok? {
      assert r.value == [r.value[0]];
    }
  }

  /** The rows inserted into the raw table, or None when no landing file
      matches the date and nothing is inserted. `read` stands for
      `pd.read_parquet`. With unique names in the landing directory, what
      is inserted is exactly the projected landing file of the date, or
      the load fails with that file's missing-column error. */
  function LoadIntoDb(landingExists: bool, entries: seq<DirEntry>, processingDate: string, read: string -> Frame)
    : (r: Result<Option<Frame>>)
    requires forall n :: Rectangular(read(n))
    ensures r == Ok(None) <==> ListParquetForProcessingDate(landingExists, entries, processingDate) == []
    ensures r.Err? ==> r.error.MissingColumns?
    ensures r.Ok? && r.value.Some? ==> Projected(r.value.value)
    ensures NamesUnique(entries) && ListParquetForProcessingDate(landingExists, entries, processingDate) != [] ==>
      var loaded := LoadParquetToDataframe(read(ChinfoFileName(processingDate)));
      && (loaded.Ok? ==> r == Ok(Some(loaded.value)))
      && (loaded.Err? ==> r == Err(loaded.error))
  {
    var files := ListParquetForProcessingDate(landingExists, entries, processingDate);
    UniqueListing(landingExists, entries, processingDate);
    LoadOneFile(ChinfoFileName(processingDate), read);
    if files == [] then Ok(None)
    else
      var frames :- LoadAll(files, read);
      Ok(Some(Concat(frames)))
  }

  /** With the landing directory missing, or no entry named for the date,
      nothing is inserted. */
  lemma NothingInsertedWithoutFile(landingExists: bool, entries: seq<DirEntry>, processingDate: string,
                                   read: string -> Frame)
    requires forall n :: Rectangular(read(n))
    requires !landingExists || forall e :: e in entries ==> e.name != ChinfoFileName(processingDate)
    ensures LoadIntoDb(landingExists, entries, processingDate, read) == Ok(None)
  {
    var files := ListParquetForProcessingDate(landingExists, entries, processingDate);
    NonEmptyHasFirst(files);
  }
}
