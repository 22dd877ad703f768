/** The top-character selection query of `get_top_pvp_characters`
    (src/tp2025/services/character_selection.py), one function per CTE:

      ranked        -> Filtered     (processing date and the 2v2/3v3 brackets)
      per_bracket   -> PerBracket   (ROW_NUMBER per bracket: bracket_rank)
      scored        -> CharRank     (ROW_NUMBER per char_id: rn_char)
      best_per_char -> BestPerChar  (rn_char = 1, bracket_rank renamed ranking)
      final SELECT  -> SelectTop    (ORDER BY ranking, bracket_id; LIMIT;
                                     RuntimeError when the result is empty)
*/
module CharacterSelection {
  import opened Errors
  import opened Text
  import opened Window
  import opened Sorting

  /** The columns of `cur_pvp_leaderboard` that the query reads. */
  datatype LeaderboardRow = LeaderboardRow(
    charId: int,
    charName: string,
    slugName: string,
    bracketId: string,
    seasonId: int,
    fechaProceso: string,
    ranking: int,
    gamesWon: int,
    gamesLost: int)

  /** A row of the `per_bracket` CTE: a leaderboard row with its
      `bracket_rank`. */
  datatype RankedRow = RankedRow(row: LeaderboardRow, bracketRank: nat)

  /** A row of the query's result; `ranking` holds the chosen row's
      `bracket_rank`, not the leaderboard's own rank. */
  datatype Candidate = Candidate(
    charId: int,
    charName: string,
    slugName: string,
    bracketId: string,
    seasonId: int,
    fechaProceso: string,
    ranking: int)

  /** The default `limit_total`. */
  const DefaultLimit: nat := 500

  predicate InBrackets(bracketId: string) {
    bracketId == "2v2" || bracketId == "3v3"
  }

  /** `WHERE fecha_proceso = ? AND bracket_id IN ('2v2', '3v3')` */
  predicate Eligible(r: LeaderboardRow, processingDate: string) {
    r.fechaProceso == processingDate && InBrackets(r.bracketId)
  }

  // -----------------------------------------------------------------------
  // ranked: the WHERE clause
  // -----------------------------------------------------------------------

  /** The table's eligible rows, in table order. */
  function Filtered(table: seq<LeaderboardRow>, processingDate: string): (rows: seq<LeaderboardRow>)
    ensures |rows| <= |table|
    ensures forall r :: r in rows <==> r in table && Eligible(r, processingDate)
  {
    if table == [] then []
    else
      (if Eligible(table[0], processingDate) then [table[0]] else [])
      + Filtered(table[1..], processingDate)
  }

  // -----------------------------------------------------------------------
  // per_bracket: ROW_NUMBER() OVER (PARTITION BY bracket_id
  //                                 ORDER BY ranking, games_won DESC, games_lost ASC)
  // -----------------------------------------------------------------------

  function BracketParts(rows: seq<LeaderboardRow>): (parts: seq<string>)
    ensures |parts| == |rows|
  {
    seq(|rows|, i requires 0 <= i < |rows| => rows[i].bracketId)
  }

  /** The window's ordering key; `games_won DESC` is stored negated. */
  function BracketKey(r: LeaderboardRow): SortKey {
    SortKey(r.ranking, -r.gamesWon, r.gamesLost)
  }

  function BracketKeys(rows: seq<LeaderboardRow>): (keys: seq<SortKey>)
    ensures |keys| == |rows|
  {
    seq(|rows|, i requires 0 <= i < |rows| => BracketKey(rows[i]))
  }

  function BracketRank(rows: seq<LeaderboardRow>, i: int): nat
    requires 0 <= i < |rows|
  {
    RowNumber(BracketParts(rows), BracketKeys(rows), i)
  }

  function PerBracket(rows: seq<LeaderboardRow>): (ranked: seq<RankedRow>)
    ensures |ranked| == |rows|
  {
    seq(|rows|, i requires 0 <= i < |rows| => RankedRow(rows[i], BracketRank(rows, i)))
  }

  /** The number of rows in bracket `b`. */
  function BracketSize(rows: seq<LeaderboardRow>, b: string): nat {
    |Partition(BracketParts(rows), b)|
  }

  /** Within bracket b the bracket ranks are exactly 1..n for the n rows
      of b, each given once. */
  lemma BracketRankIsPermutation(rows: seq<LeaderboardRow>, b: string)
    ensures forall i :: 0 <= i < |rows| && rows[i].bracketId == b
              ==> 1 <= BracketRank(rows, i) <= BracketSize(rows, b)
    ensures forall i, j :: 0 <= i < |rows| && 0 <= j < |rows| && i != j
              && rows[i].bracketId == b && rows[j].bracketId == b
              ==> BracketRank(rows, i) != BracketRank(rows, j)
  {
    var parts, keys := BracketParts(rows), BracketKeys(rows);
    forall i | 0 <= i < |rows| && rows[i].bracketId == b
      ensures 1 <= BracketRank(rows, i) <= BracketSize(rows, b)
    {
      assert parts[i] == b;
    }
    forall i, j | 0 <= i < |rows| && 0 <= j < |rows| && i != j
      && rows[i].bracketId == b && rows[j].bracketId == b
      ensures BracketRank(rows, i) != BracketRank(rows, j)
    {
      RowNumberInjective(parts, keys, i, j);
    }
  }

  /** Every rank from 1 to the size of bracket b is given to a row of b. */
  lemma BracketRankOnto(rows: seq<LeaderboardRow>, b: string, r: int)
    requires 1 <= r <= BracketSize(rows, b)
    ensures exists i :: 0 <= i < |rows| && rows[i].bracketId == b && BracketRank(rows, i) == r
  {
    var parts, keys := BracketParts(rows), BracketKeys(rows);
    RowNumberOnto(parts, keys, b, r);
    var i :| 0 <= i < |parts| && parts[i] == b && RowNumber(parts, keys, i) == r;
    assert rows[i].bracketId == b;
  }

  /** Within a bracket, a smaller bracket rank means: a smaller ranking; or
      the same ranking and more games won; or both equal and fewer games
      lost; or all three equal and an earlier row (the fixed stand-in for
      the order SQL leaves unspecified). */
  lemma BracketRankOrder(rows: seq<LeaderboardRow>, i: int, j: int)
    requires 0 <= i < |rows| && 0 <= j < |rows| && i != j
    requires rows[i].bracketId == rows[j].bracketId
    ensures BracketRank(rows, i) < BracketRank(rows, j) <==>
      || rows[i].ranking < rows[j].ranking
      || (rows[i].ranking == rows[j].ranking && rows[i].gamesWon > rows[j].gamesWon)
      || (rows[i].ranking == rows[j].ranking && rows[i].gamesWon == rows[j].gamesWon
          && rows[i].gamesLost < rows[j].gamesLost)
      || (rows[i].ranking == rows[j].ranking && rows[i].gamesWon == rows[j].gamesWon
          && rows[i].gamesLost == rows[j].gamesLost && i < j)
  {
    RowNumberOrder(BracketParts(rows), BracketKeys(rows), i, j);
  }

  // -----------------------------------------------------------------------
  // scored: ROW_NUMBER() OVER (PARTITION BY char_id
  //                            ORDER BY bracket_rank,
  //                                     CASE bracket_id WHEN '3v3' THEN 1 ELSE 2 END)
  // -----------------------------------------------------------------------

  /** The CASE expression: 3v3 sorts first among equal bracket ranks. */
  function Priority(bracketId: string): int {
    if bracketId == "3v3" then 1 else 2
  }

  function CharParts(ranked: seq<RankedRow>): (parts: seq<int>)
    ensures |parts| == |ranked|
  {
    seq(|ranked|, i requires 0 <= i < |ranked| => ranked[i].row.charId)
  }

  function CharKeys(ranked: seq<RankedRow>): (keys: seq<SortKey>)
    ensures |keys| == |ranked|
  {
    seq(|ranked|, i requires 0 <= i < |ranked|
      => SortKey(ranked[i].bracketRank, Priority(ranked[i].row.bracketId), 0))
  }

  /** `rn_char` of row i. */
  function CharRank(ranked: seq<RankedRow>, i: int): nat
    requires 0 <= i < |ranked|
  {
    RowNumber(CharParts(ranked), CharKeys(ranked), i)
  }

  // -----------------------------------------------------------------------
  // best_per_char: WHERE rn_char = 1, bracket_rank AS ranking
  // -----------------------------------------------------------------------

  function ToCandidate(x: RankedRow): Candidate {
    Candidate(x.row.charId, x.row.charName, x.row.slugName, x.row.bracketId,
              x.row.seasonId, x.row.fechaProceso, x.bracketRank)
  }

  /** The rows among the first n whose rn_char is 1, projected. */
  function RnCharOne(ranked: seq<RankedRow>, n: int): seq<Candidate>
    requires 0 <= n <= |ranked|
  {
    if n == 0 then []
    else
      RnCharOne(ranked, n - 1)
      + (if CharRank(ranked, n - 1) == 1 then [ToCandidate(ranked[n - 1])] else [])
  }

  function BestPerChar(ranked: seq<RankedRow>): seq<Candidate> {
    RnCharOne(ranked, |ranked|)
  }

  /** A collected candidate is exactly the projection of a row whose rn_char is 1. */
  lemma {:induction false} RnCharOneMembers(ranked: seq<RankedRow>, n: int)
    requires 0 <= n <= |ranked|
    ensures forall c :: c in RnCharOne(ranked, n) <==>
      exists i :: 0 <= i < n && CharRank(ranked, i) == 1 && c == ToCandidate(ranked[i])
  {
    if n > 0 {
      RnCharOneMembers(ranked, n - 1);
    }
  }

  predicate UniqueChars(s: seq<Candidate>) {
    forall a, b :: 0 <= a < b < |s| ==> s[a].charId != s[b].charId
  }

  /** rn_char = 1 holds for at most one row per char_id. */
  lemma {:induction false} RnCharOneUnique(ranked: seq<RankedRow>, n: int)
    requires 0 <= n <= |ranked|
    ensures UniqueChars(RnCharOne(ranked, n))
  {
    if n > 0 {
      RnCharOneUnique(ranked, n - 1);
      RnCharOneMembers(ranked, n - 1);
      var prev := RnCharOne(ranked, n - 1);
      if CharRank(ranked, n - 1) == 1 {
        var x := ToCandidate(ranked[n - 1]);
        forall a | 0 <= a < |prev|
          ensures prev[a].charId != x.charId
        {
          assert prev[a] in prev;
          var i :| 0 <= i < n - 1 && CharRank(ranked, i) == 1 && prev[a] == ToCandidate(ranked[i]);
          if prev[a].charId == x.charId {
            RowNumberInjective(CharParts(ranked), CharKeys(ranked), i, n - 1);
          }
        }
      }
    }
  }

  /** The row kept for a character beats each of its other eligible rows:
      a smaller bracket rank, or an equal one with 3v3 over 2v2. */
  lemma BestRowWins(rows: seq<LeaderboardRow>, i: int, j: int)
    requires forall k :: 0 <= k < |rows| ==> InBrackets(rows[k].bracketId)
    requires 0 <= i < |rows| && 0 <= j < |rows| && i != j
    requires rows[i].charId == rows[j].charId
    requires CharRank(PerBracket(rows), i) == 1
    ensures BracketRank(rows, i) < BracketRank(rows, j)
      || (BracketRank(rows, i) == BracketRank(rows, j)
          && rows[i].bracketId == "3v3" && rows[j].bracketId == "2v2")
  {
    var pb := PerBracket(rows);
    var parts, keys := CharParts(pb), CharKeys(pb);
    RowNumberInjective(parts, keys, i, j);
    RowNumberOrder(parts, keys, i, j);
    if keys[i] == keys[j] {
      assert rows[i].bracketId == rows[j].bracketId;
      RowNumberInjective(BracketParts(rows), BracketKeys(rows), i, j);
      assert false;
    }
  }

  /** Every character with an eligible row has a row whose rn_char is 1. */
  lemma EveryCharHasBest(rows: seq<LeaderboardRow>, k: int)
    requires 0 <= k < |rows|
    ensures exists i :: 0 <= i < |rows| && rows[i].charId == rows[k].charId
                        && CharRank(PerBracket(rows), i) == 1
  {
    var pb := PerBracket(rows);
    var parts, keys := CharParts(pb), CharKeys(pb);
    assert k in Partition(parts, rows[k].charId);
    RowNumberOnto(parts, keys, rows[k].charId, 1);
    var i :| 0 <= i < |parts| && parts[i] == rows[k].charId && RowNumber(parts, keys, i) == 1;
    assert rows[i].charId == rows[k].charId;
  }

  // -----------------------------------------------------------------------
  // Final SELECT: ORDER BY ranking, bracket_id LIMIT ?
  // -----------------------------------------------------------------------

  /** `ORDER BY ranking, bracket_id`: the bracket is compared as a string,
      so '2v2' sorts before '3v3' (the opposite of the dedup priority). */
  predicate CandidateLe(a: Candidate, b: Candidate) {
    a.ranking < b.ranking || (a.ranking == b.ranking && StrLe(a.bracketId, b.bracketId))
  }

  lemma CandidateLeIsTotalPreorder()
    ensures TotalPreorder(CandidateLe)
  {
    forall a, b
      ensures CandidateLe(a, b) || CandidateLe(b, a)
    {
      StrLeTotal(a.bracketId, b.bracketId);
    }
    forall a, b, c | CandidateLe(a, b) && CandidateLe(b, c)
      ensures CandidateLe(a, c)
    {
      if a.ranking == b.ranking == c.ranking {
        StrLeTransitive(a.bracketId, b.bracketId, c.bracketId);
      }
    }
  }

  /** The deduplicated candidates of the table, before ORDER BY. */
  function Best(table: seq<LeaderboardRow>, processingDate: string): seq<Candidate> {
    BestPerChar(PerBracket(Filtered(table, processingDate)))
  }

  /** The deduplicated candidates after ORDER BY. */
  function Ordered(table: seq<LeaderboardRow>, processingDate: string): (s: seq<Candidate>)
    ensures multiset(s) == multiset(Best(table, processingDate))
  {
    Sort(Best(table, processingDate), CandidateLe)
  }

  /** The query and the emptiness check of `get_top_pvp_characters`. */
  function SelectTop(table: seq<LeaderboardRow>, processingDate: string, limitTotal: nat)
    : (r: Result<seq<Candidate>>)
    ensures r.Ok? ==> 1 <= |r.value| <= limitTotal
    ensures r.Err? ==> r.error == NoLeaderboardRows(processingDate)
  {
    var ordered := Ordered(table, processingDate);
    var out := ordered[..if limitTotal < |ordered| then limitTotal else |ordered|];
    if out == [] then Err(NoLeaderboardRows(processingDate)) else Ok(out)
  }

  /** A call with the default `limit_total` returns the first candidates
      of the ordering, at most 500 of them, and all of them when there are
      no more than 500. */
  lemma DefaultLimitSelection(table: seq<LeaderboardRow>, processingDate: string)
    ensures var r, ordered := SelectTop(table, processingDate, DefaultLimit), Ordered(table, processingDate);
      && (r.Ok? ==> |r.value| <= 500 && r.value == ordered[..|r.value|])
      && (ordered != [] && |ordered| <= 500 ==> r == Ok(ordered))
  {
    var ordered := Ordered(table, processingDate);
    assert ordered[..|ordered|] == ordered;
  }

  // -----------------------------------------------------------------------
  // Properties of the result
  // -----------------------------------------------------------------------

  /** The selected candidates are deduplicated candidates. */
  lemma SelectedAreBest(table: seq<LeaderboardRow>, processingDate: string, limitTotal: nat, c: Candidate)
    requires SelectTop(table, processingDate, limitTotal).Ok?
    requires c in SelectTop(table, processingDate, limitTotal).value
    ensures c in Best(table, processingDate)
  {
    var ordered := Ordered(table, processingDate);
    var out := SelectTop(table, processingDate, limitTotal).value;
    assert out == ordered[..|out|];
    assert c in ordered;
    assert c in multiset(ordered);
  }

  /** A deduplicated candidate is the projection of a row whose rn_char
      is 1, with that row's bracket rank as its ranking. */
  lemma BestFromRow(rows: seq<LeaderboardRow>, c: Candidate)
    requires c in BestPerChar(PerBracket(rows))
    ensures exists i :: (0 <= i < |rows| && CharRank(PerBracket(rows), i) == 1
      && c == ToCandidate(PerBracket(rows)[i]) && c.ranking == BracketRank(rows, i))
  {
    var pb := PerBracket(rows);
    RnCharOneMembers(pb, |rows|);
    var i :| 0 <= i < |rows| && CharRank(pb, i) == 1 && c == ToCandidate(pb[i]);
    assert pb[i].bracketRank == BracketRank(rows, i);
  }

  /** Only rows of the processing date and of the 2v2 and 3v3 brackets
      reach the result. */
  lemma SelectedRowsEligible(table: seq<LeaderboardRow>, processingDate: string, limitTotal: nat)
    requires SelectTop(table, processingDate, limitTotal).Ok?
    ensures forall c :: c in SelectTop(table, processingDate, limitTotal).value ==>
      c.fechaProceso == processingDate && InBrackets(c.bracketId)
      && (exists r :: r in table && Eligible(r, processingDate) && r.charId == c.charId
            && r.bracketId == c.bracketId && r.charName == c.charName && r.slugName == c.slugName)
  {
    var rows := Filtered(table, processingDate);
    forall c | c in SelectTop(table, processingDate, limitTotal).value
      ensures c.fechaProceso == processingDate && InBrackets(c.bracketId)
      ensures exists r :: (r in table && Eligible(r, processingDate) && r.charId == c.charId
         && r.bracketId == c.bracketId && r.charName == c.charName && r.slugName == c.slugName)
    {
      SelectedAreBest(table, processingDate, limitTotal, c);
      BestFromRow(rows, c);
      var i :| 0 <= i < |rows| && CharRank(PerBracket(rows), i) == 1
        && c == ToCandidate(PerBracket(rows)[i]);
      assert rows[i] in rows;
    }
  }

  lemma TwoPositionsCount<T>(t: seq<T>, a: int, b: int)
    requires 0 <= a < b < |t| && t[a] == t[b]
    ensures multiset(t)[t[a]] >= 2
  {
    assert t == t[..b] + [t[b]] + t[b + 1..];
    assert t[a] in t[..b];
  }

  lemma CountTwoPositions<T>(s: seq<T>, x: T)
    requires multiset(s)[x] >= 2
    ensures exists i, j :: 0 <= i < j < |s| && s[i] == x && s[j] == x
  {
    assert x in multiset(s);
    var i :| 0 <= i < |s| && s[i] == x;
    var rest := s[..i] + s[i + 1..];
    assert s == s[..i] + [s[i]] + s[i + 1..];
    assert multiset(rest)[x] >= 1;
    assert x in rest;
    var k :| 0 <= k < |rest| && rest[k] == x;
    if k < i {
      assert s[k] == x;
    } else {
      assert s[k + 1] == x;
    }
  }

  /** Reordering candidates keeps their char_ids distinct. */
  lemma UniqueCharsPermutation(s: seq<Candidate>, t: seq<Candidate>)
    requires multiset(s) == multiset(t) && UniqueChars(s)
    ensures UniqueChars(t)
  {
    forall a, b | 0 <= a < b < |t|
      ensures t[a].charId != t[b].charId
    {
      if t[a] == t[b] {
        TwoPositionsCount(t, a, b);
        CountTwoPositions(s, t[a]);
        assert false;
      }
      assert t[a] in multiset(s) && t[b] in multiset(s);
      var i :| 0 <= i < |s| && s[i] == t[a];
      var j :| 0 <= j < |s| && s[j] == t[b];
      if i < j {
        assert s[i].charId != s[j].charId;
      } else {
        assert s[j].charId != s[i].charId;
      }
    }
  }

  /** No char_id appears twice in the result. */
  lemma SelectedCharsUnique(table: seq<LeaderboardRow>, processingDate: string, limitTotal: nat)
    requires SelectTop(table, processingDate, limitTotal).Ok?
    ensures UniqueChars(SelectTop(table, processingDate, limitTotal).value)
  {
    var rows := Filtered(table, processingDate);
    RnCharOneUnique(PerBracket(rows), |rows|);
    UniqueCharsPermutation(Best(table, processingDate), Ordered(table, processingDate));
  }

  /** The tie-break between brackets: the kept row of a character has the
      smallest bracket rank among all of that character's eligible rows,
      and when an eligible row of the other bracket has the same bracket
      rank, the kept row is the 3v3 one. */
  lemma SelectedRowWinsTieBreak(table: seq<LeaderboardRow>, processingDate: string, limitTotal: nat,
                                c: Candidate, j: int)
    requires SelectTop(table, processingDate, limitTotal).Ok?
    requires c in SelectTop(table, processingDate, limitTotal).value
    requires 0 <= j < |Filtered(table, processingDate)|
    requires Filtered(table, processingDate)[j].charId == c.charId
    ensures var rows := Filtered(table, processingDate);
      c.ranking <= BracketRank(rows, j)
      && (c.ranking == BracketRank(rows, j) && rows[j].bracketId != c.bracketId
          ==> c.bracketId == "3v3" && rows[j].bracketId == "2v2")
  {
    var rows := Filtered(table, processingDate);
    SelectedAreBest(table, processingDate, limitTotal, c);
    BestFromRow(rows, c);
    var i :| 0 <= i < |rows| && CharRank(PerBracket(rows), i) == 1
      && c == ToCandidate(PerBracket(rows)[i]) && c.ranking == BracketRank(rows, i);
    if i != j {
      forall k | 0 <= k < |rows|
        ensures InBrackets(rows[k].bracketId)
      {
        assert rows[k] in rows;
      }
      BestRowWins(rows, i, j);
    }
  }

  /** The result is in ORDER BY order, and no two selected rows tie on
      (ranking, bracket_id), so that order is fully determined. */
  lemma SelectedInOrder(table: seq<LeaderboardRow>, processingDate: string, limitTotal: nat)
    requires SelectTop(table, processingDate, limitTotal).Ok?
    ensures var out := SelectTop(table, processingDate, limitTotal).value;
      SortedBy(out, CandidateLe)
      && forall a, b :: 0 <= a < b < |out| ==>
           out[a].ranking != out[b].ranking || out[a].bracketId != out[b].bracketId
  {
    var rows := Filtered(table, processingDate);
    var out := SelectTop(table, processingDate, limitTotal).value;
    var ordered := Ordered(table, processingDate);
    CandidateLeIsTotalPreorder();
    SortIsSorted(Best(table, processingDate), CandidateLe);
    PrefixOfSorted(ordered, |out|, CandidateLe);
    SelectedCharsUnique(table, processingDate, limitTotal);
    forall a, b | 0 <= a < b < |out|
      ensures out[a].ranking != out[b].ranking || out[a].bracketId != out[b].bracketId
    {
      assert out[a] in out && out[b] in out;
      SelectedAreBest(table, processingDate, limitTotal, out[a]);
      BestFromRow(rows, out[a]);
      SelectedAreBest(table, processingDate, limitTotal, out[b]);
      BestFromRow(rows, out[b]);
      var i :| 0 <= i < |rows| && CharRank(PerBracket(rows), i) == 1
        && out[a] == ToCandidate(PerBracket(rows)[i]) && out[a].ranking == BracketRank(rows, i);
      var j :| 0 <= j < |rows| && CharRank(PerBracket(rows), j) == 1
        && out[b] == ToCandidate(PerBracket(rows)[j]) && out[b].ranking == BracketRank(rows, j);
      if out[a].ranking == out[b].ranking && out[a].bracketId == out[b].bracketId {
        assert i != j;
        RowNumberInjective(BracketParts(rows), BracketKeys(rows), i, j);
      }
    }
  }

  /** The result is the best part of the deduplicated set: a deduplicated
      candidate left out was cut by LIMIT and sorts after every kept one. */
  lemma SelectedAreTheFirst(table: seq<LeaderboardRow>, processingDate: string, limitTotal: nat, b: Candidate)
    requires SelectTop(table, processingDate, limitTotal).Ok?
    requires b in Best(table, processingDate)
    ensures var out := SelectTop(table, processingDate, limitTotal).value;
      b in out || (|out| == limitTotal && forall c :: c in out ==> CandidateLe(c, b))
  {
    var out := SelectTop(table, processingDate, limitTotal).value;
    var ordered := Ordered(table, processingDate);
    assert b in multiset(ordered);
    var j :| 0 <= j < |ordered| && ordered[j] == b;
    CandidateLeIsTotalPreorder();
    SortIsSorted(Best(table, processingDate), CandidateLe);
    PrefixOfSorted(ordered, |out|, CandidateLe);
    if j < |out| {
      assert out[j] == b;
    }
  }

  /** Every character with an eligible row is represented before LIMIT. */
  lemma EveryEligibleCharIsCandidate(table: seq<LeaderboardRow>, processingDate: string, r: LeaderboardRow)
    requires r in table && Eligible(r, processingDate)
    ensures exists c :: c in Best(table, processingDate) && c.charId == r.charId
  {
    var rows := Filtered(table, processingDate);
    var pb := PerBracket(rows);
    var k :| 0 <= k < |rows| && rows[k] == r;
    EveryCharHasBest(rows, k);
    var i :| 0 <= i < |rows| && rows[i].charId == r.charId && CharRank(pb, i) == 1;
    RnCharOneMembers(pb, |rows|);
    assert ToCandidate(pb[i]) in Best(table, processingDate);
  }

  /** The RuntimeError is raised exactly when no row is eligible or the
      limit is zero. */
  lemma SelectTopFailsIffEmpty(table: seq<LeaderboardRow>, processingDate: string, limitTotal: nat)
    ensures SelectTop(table, processingDate, limitTotal).Err? <==>
      limitTotal == 0 || forall r :: r in table ==> !Eligible(r, processingDate)
  {
    var rows := Filtered(table, processingDate);
    if rows != [] {
      assert rows[0] in rows;
    }
    if limitTotal > 0 && exists r :: r in table && Eligible(r, processingDate) {
      var r :| r in table && Eligible(r, processingDate);
      EveryEligibleCharIsCandidate(table, processingDate, r);
      var c :| c in Best(table, processingDate) && c.charId == r.charId;
      assert c in multiset(Ordered(table, processingDate));
    }
  }
}
