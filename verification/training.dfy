/** Model training (`ModelTraining` in components/model_training.py): the
    target-column check and feature/label split of `train_model`, and the
    leaderboard that `_save_report` derives from the grid-search results.

    The grid search itself is not modelled: its `cv_results_` rows are an
    input sequence. */
module Training {
  import opened Outcomes
  import opened Frames
  import ClfName

  // ---------------------------------------------------------------------
  // Feature / label split
  // ---------------------------------------------------------------------

  /** The error `train_model` raises before any fitting. */
  datatype Fault = TargetColumnMissing(column: string)

  /** `a` is `b` with some columns left out, the rest in their order. */
  predicate Subsequence(a: Frame, b: Frame)
    decreases |b|
  {
    |a| == 0 || (|b| > 0 && if a[0] == b[0] then Subsequence(a[1..], b[1..]) else Subsequence(a, b[1..]))
  }

  /** Every frame is a subsequence of itself. */
  lemma {:induction false} SubsequenceOfSelf(a: Frame)
    ensures Subsequence(a, a)
    decreases |a|
  {
    if |a| > 0 {
      SubsequenceOfSelf(a[1..]);
    }
  }

  /** Dropping the first column leaves a subsequence. */
  lemma {:induction false} TailIsSubsequence(df: Frame)
    requires |df| > 0
    ensures Subsequence(df[1..], df)
    decreases |df|
  {
    if |df| > 1 {
      if df[1] == df[0] {
        TailIsSubsequence(df[1..]);
        assert df[1..][1..] == df[2..];
      } else {
        SubsequenceOfSelf(df[1..]);
      }
    }
  }

  /** `df.drop(columns=name)`: every column called `name` removed. pandas
      raises `KeyError` for an absent column, so the column must be there. */
  function DropColumn(df: Frame, name: string): (r: Frame)
    requires HasColumn(df, name)
    ensures Subsequence(r, df)
    ensures forall i :: 0 <= i < |r| ==> r[i].name != name
    ensures |r| == |df| - Occurrences(df, name)
  {
    if df[0].name != name then
      assert HasColumn(df[1..], name) by { assert Names(df) == [df[0].name] + Names(df[1..]); }
      [df[0]] + DropColumn(df[1..], name)
    else if HasColumn(df[1..], name) then DropColumn(df[1..], name)
    else
      TailIsSubsequence(df);
      assert forall i :: 0 <= i < |df| - 1 ==> df[1..][i].name in Names(df[1..]);
      df[1..]
  }

  /** The split `train_model` performs before the grid search. */
  datatype Split = Split(features: Frame, labelColumn: Column)

  /** Check the target column and split features from the label. The frame
      comes from `read_csv`, whose header names are unique. */
  function SplitFeatures(df: Frame, target: string): (r: Result<Split, Fault>)
    requires UniqueNames(df)
    ensures r.Failure? <==> !HasColumn(df, target)
    ensures r.Failure? ==> r.error == TargetColumnMissing(target)
    ensures r.Success? ==>
      && r.value.labelColumn in df && r.value.labelColumn.name == target
      && |r.value.features| == |df| - 1
      && Subsequence(r.value.features, df)
      && (forall i :: 0 <= i < |r.value.features| ==> r.value.features[i].name != target)
  {
    if !HasColumn(df, target) then Failure(TargetColumnMissing(target))
    else
      UniqueOccurs(df, target);
      Success(Split(DropColumn(df, target), Find(df, target)))
  }

  lemma {:induction false} UniqueOccurs(df: Frame, name: string)
    requires UniqueNames(df) && HasColumn(df, name)
    ensures Occurrences(df, name) == 1
  {
    if df[0].name == name {
      assert !HasColumn(df[1..], name) by {
        if HasColumn(df[1..], name) {
          var j := IndexOf(df[1..], name);
          assert false;
        }
      }
    } else {
      assert HasColumn(df[1..], name) by {
        var j := IndexOf(df, name);
        assert df[1..][j - 1].name == name;
        assert df[1..][j - 1] in df[1..];
      }
      UniqueOccurs(df[1..], name);
    }
  }

  // ---------------------------------------------------------------------
  // Result rows and leaderboard records
  // ---------------------------------------------------------------------

  /** One row of `cv_results_`: the fields the report keeps, plus
      `meanScoreTime`, which it drops. `paramClf` is the string form of the
      estimator (the `astype(str)` step). */
  datatype CvRow = CvRow(
    paramClf: string,
    meanTestScore: real,
    stdTestScore: real,
    meanFitTime: real,
    meanScoreTime: real)

  /** A result row with the `clf_name` column added. */
  datatype TaggedRow = TaggedRow(clfName: string, row: CvRow)

  /** One record of the training report. */
  datatype Entry = Entry(
    clfName: string,
    meanTestScore: real,
    stdTestScore: real,
    meanFitTime: real,
    paramClf: string)

  /** Add the `clf_name` column. */
  function TagRows(rows: seq<CvRow>): (t: seq<TaggedRow>)
    ensures |t| == |rows|
    ensures forall i :: 0 <= i < |rows| ==>
      t[i].row == rows[i] && t[i].clfName == ClfName.ExtractClfName(rows[i].paramClf)
  {
    if |rows| == 0 then []
    else [TaggedRow(ClfName.ExtractClfName(rows[0].paramClf), rows[0])] + TagRows(rows[1..])
  }

  /** The five report fields of a row. */
  function Project(t: TaggedRow): (e: Entry)
    ensures e.clfName == t.clfName && e.meanTestScore == Score(t) && e.paramClf == t.row.paramClf
  {
    Entry(t.clfName, t.row.meanTestScore, t.row.stdTestScore, t.row.meanFitTime, t.row.paramClf)
  }

  function Score(t: TaggedRow): real
  {
    t.row.meanTestScore
  }

  // ---------------------------------------------------------------------
  // Group by family, arg-max per family
  // ---------------------------------------------------------------------

  /** Some row carries this family tag. */
  predicate HasFamily(t: seq<TaggedRow>, fam: string)
  {
    exists j :: 0 <= j < |t| && t[j].clfName == fam
  }

  /** The distinct family tags, in order of first occurrence. */
  function Families(t: seq<TaggedRow>): (fs: seq<string>)
    ensures forall i, j :: 0 <= i < j < |fs| ==> fs[i] != fs[j]
    ensures forall f :: f in fs <==> HasFamily(t, f)
  {
    if |t| == 0 then []
    else
      var init := t[..|t| - 1];
      var fs := Families(init);
      assert forall f :: HasFamily(t, f) <==> HasFamily(init, f) || t[|t| - 1].clfName == f by {
        forall f | HasFamily(init, f) ensures HasFamily(t, f) {
          var j :| 0 <= j < |init| && init[j].clfName == f;
          assert t[j].clfName == f;
        }
        forall f | HasFamily(t, f) && t[|t| - 1].clfName != f ensures HasFamily(init, f) {
          var j :| 0 <= j < |t| && t[j].clfName == f;
          assert init[j].clfName == f;
        }
      }
      if t[|t| - 1].clfName in fs then fs else fs + [t[|t| - 1].clfName]
  }

  /** Row `i` is what `groupby("clf_name")["mean_test_score"].idxmax()` picks
      for its family: no row of the family scores higher, and every earlier
      row of the family scores strictly lower. */
  predicate IsFamilyBest(t: seq<TaggedRow>, i: int)
  {
    && 0 <= i < |t|
    && (forall j :: 0 <= j < |t| && t[j].clfName == t[i].clfName ==> Score(t[j]) <= Score(t[i]))
    && (forall j :: 0 <= j < i && t[j].clfName == t[i].clfName ==> Score(t[j]) < Score(t[i]))
  }

  /** The arg-max of family `fam` among the first `n` rows: a later row
      replaces the current best only when it scores strictly higher. */
  function BestUpTo(t: seq<TaggedRow>, fam: string, n: nat): (b: Option<nat>)
    requires n <= |t|
    ensures b.None? <==> forall j :: 0 <= j < n ==> t[j].clfName != fam
    ensures b.Some? ==>
      && b.value < n && t[b.value].clfName == fam
      && (forall j :: 0 <= j < n && t[j].clfName == fam ==> Score(t[j]) <= Score(t[b.value]))
      && (forall j :: 0 <= j < b.value && t[j].clfName == fam ==> Score(t[j]) < Score(t[b.value]))
  {
    if n == 0 then None
    else
      var b := BestUpTo(t, fam, n - 1);
      if t[n - 1].clfName != fam then b
      else if b.None? || Score(t[b.value]) < Score(t[n - 1]) then Some(n - 1)
      else b
  }

  /** `idxmax` for one family. */
  function IdxMax(t: seq<TaggedRow>, fam: string): (i: nat)
    requires HasFamily(t, fam)
    ensures i < |t| && t[i].clfName == fam && IsFamilyBest(t, i)
  {
    BestUpTo(t, fam, |t|).value
  }

  /** A family has one `idxmax` row: the first row reaching its top score. */
  lemma FamilyBestUnique(t: seq<TaggedRow>, i: int, i': int)
    requires IsFamilyBest(t, i) && IsFamilyBest(t, i')
    requires t[i].clfName == t[i'].clfName
    ensures i == i'
  {
  }

  /** `results_df.loc[idxmax]`: one projected row per family, in family order. */
  function BestPerFamily(t: seq<TaggedRow>): (best: seq<Entry>)
    ensures |best| == |Families(t)|
    ensures forall k :: 0 <= k < |best| ==> best[k].clfName == Families(t)[k]
  {
    var fs := Families(t);
    seq(|fs|, k requires 0 <= k < |fs| => Project(t[IdxMax(t, fs[k])]))
  }

  /** Record `k` is the projection of the `idxmax` row of family `k`. */
  lemma BestPerFamilyRowsAreBest(t: seq<TaggedRow>)
    ensures forall k :: 0 <= k < |BestPerFamily(t)| ==>
      && HasFamily(t, Families(t)[k])
      && IsFamilyBest(t, IdxMax(t, Families(t)[k]))
      && BestPerFamily(t)[k] == Project(t[IdxMax(t, Families(t)[k])])
  {
  }

  // ---------------------------------------------------------------------
  // Sorting by score, descending
  // ---------------------------------------------------------------------

  predicate SortedDesc(s: seq<Entry>)
  {
    forall i, j :: 0 <= i < j < |s| ==> s[i].meanTestScore >= s[j].meanTestScore
  }

  function Insert(x: Entry, s: seq<Entry>): (r: seq<Entry>)
    requires SortedDesc(s)
    ensures SortedDesc(r)
    ensures multiset(r) == multiset(s) + multiset{x}
    ensures |r| == |s| + 1 && (r[0] == x || (|s| > 0 && r[0] == s[0]))
  {
    if |s| == 0 then [x]
    else if x.meanTestScore >= s[0].meanTestScore then [x] + s
    else
      var rest := Insert(x, s[1..]);
      assert s == [s[0]] + s[1..];
      SortedCons(s[0], rest);
      [s[0]] + rest
  }

  /** A record no lower than the head of a sorted sequence can go in front. */
  lemma SortedCons(h: Entry, r: seq<Entry>)
    requires SortedDesc(r) && |r| > 0 && r[0].meanTestScore <= h.meanTestScore
    ensures SortedDesc([h] + r)
  {
    assert forall k :: 0 < k <= |r| ==> ([h] + r)[k] == r[k - 1];
  }

  /** `sort_values(by="mean_test_score", ascending=False)`. */
  function SortDesc(s: seq<Entry>): (r: seq<Entry>)
    ensures SortedDesc(r)
    ensures multiset(r) == multiset(s)
  {
    if |s| == 0 then []
    else
      assert s == [s[0]] + s[1..];
      Insert(s[0], SortDesc(s[1..]))
  }

  // ---------------------------------------------------------------------
  // The leaderboard
  // ---------------------------------------------------------------------

  /** The report `_save_report` writes. */
  function Leaderboard(rows: seq<CvRow>): (r: seq<Entry>)
    ensures SortedDesc(r)
    ensures forall i, j :: 0 <= i < j < |r| ==> r[i].clfName != r[j].clfName
  {
    BoardOnePerFamily(TagRows(rows));
    Board(TagRows(rows))
  }

  /** The set of family tags the results carry. */
  function TagSet(rows: seq<CvRow>): set<string>
  {
    set i | 0 <= i < |rows| :: ClfName.ExtractClfName(rows[i].paramClf)
  }

  /** A distinct sequence has as many elements as its set. */
  lemma {:induction false} DistinctCardinality(s: seq<string>)
    requires forall i, j :: 0 <= i < j < |s| ==> s[i] != s[j]
    ensures |set x | x in s| == |s|
  {
    if |s| > 0 {
      DistinctCardinality(s[1..]);
      assert (set x | x in s) == {s[0]} + (set x | x in s[1..]);
      assert s[0] !in (set x | x in s[1..]);
    }
  }

  /** A value at two positions occurs at least twice in the multiset. */
  lemma TwiceInMultiset<T>(s: seq<T>, i: int, j: int)
    requires 0 <= i < j < |s| && s[i] == s[j]
    ensures multiset(s)[s[i]] >= 2
  {
    assert s == s[..j] + [s[j]] + s[j + 1..];
    assert s[i] in s[..j];
  }

  /** Pairwise-distinct elements occur at most once each. */
  lemma {:induction false} DistinctAtMostOnce<T>(s: seq<T>, x: T)
    requires forall i, j :: 0 <= i < j < |s| ==> s[i] != s[j]
    ensures multiset(s)[x] <= 1
  {
    if |s| > 0 {
      assert s == [s[0]] + s[1..];
      DistinctAtMostOnce(s[1..], x);
      if x == s[0] {
        assert x !in s[1..];
      }
    }
  }

  /** Distinct family names survive a permutation. */
  lemma PermutationKeepsFamiliesDistinct(a: seq<Entry>, b: seq<Entry>)
    requires multiset(a) == multiset(b)
    requires forall i, j :: 0 <= i < j < |a| ==> a[i].clfName != a[j].clfName
    ensures forall i, j :: 0 <= i < j < |b| ==> b[i].clfName != b[j].clfName
  {
    forall i, j | 0 <= i < j < |b|
      ensures b[i].clfName != b[j].clfName
    {
      if b[i].clfName == b[j].clfName {
        assert b[i] in multiset(a) && b[j] in multiset(a);
        var p :| 0 <= p < |a| && a[p] == b[i];
        var q :| 0 <= q < |a| && a[q] == b[j];
        assert p == q;
        TwiceInMultiset(b, i, j);
        DistinctAtMostOnce(a, b[i]);
      }
    }
  }

  /** The family sequence lists exactly the tags of the results. */
  lemma FamiliesAreTags(rows: seq<CvRow>)
    ensures |Families(TagRows(rows))| == |TagSet(rows)|
  {
    var t := TagRows(rows);
    var fs := Families(t);
    assert (set x | x in fs) == TagSet(rows) by {
      forall f | f in TagSet(rows) ensures f in fs {
        var i :| 0 <= i < |rows| && ClfName.ExtractClfName(rows[i].paramClf) == f;
        assert t[i].clfName == f;
      }
      forall f | f in fs ensures f in TagSet(rows) {
        var j :| 0 <= j < |t| && t[j].clfName == f;
      }
    }
    DistinctCardinality(fs);
  }

  /** The sorted per-family rows of a tagged result table. */
  function Board(t: seq<TaggedRow>): seq<Entry>
  {
    SortDesc(BestPerFamily(t))
  }

  /** Every family of the table has a record on its board. */
  lemma {:induction false} BoardCoversFamilies(t: seq<TaggedRow>, fam: string)
    requires HasFamily(t, fam)
    ensures exists k :: 0 <= k < |Board(t)| && Board(t)[k] == BestPerFamily(t)[IndexIn(Families(t), fam)]
    ensures exists k :: 0 <= k < |Board(t)| && Board(t)[k].clfName == fam
  {
    var best := BestPerFamily(t);
    var p := IndexIn(Families(t), fam);
    assert best[p] in multiset(Board(t));
  }

  /** Position of a member of a sequence. */
  function IndexIn(s: seq<string>, x: string): (p: nat)
    requires x in s
    ensures p < |s| && s[p] == x
  {
    if s[0] == x then 0 else 1 + IndexIn(s[1..], x)
  }

  /** Board-level form of `LeaderboardOnePerFamily`. */
  lemma BoardOnePerFamily(t: seq<TaggedRow>)
    ensures |Board(t)| == |Families(t)|
    ensures forall i, j :: 0 <= i < j < |Board(t)| ==> Board(t)[i].clfName != Board(t)[j].clfName
  {
    var best := BestPerFamily(t);
    assert |multiset(Board(t))| == |multiset(best)|;
    PermutationKeepsFamiliesDistinct(best, Board(t));
  }

  /** Board-level form of `LeaderboardRowsAreFamilyBest`. */
  lemma BoardRowsAreFamilyBest(t: seq<TaggedRow>)
    ensures forall k :: 0 <= k < |Board(t)| ==>
      && HasFamily(t, Board(t)[k].clfName)
      && Board(t)[k] == Project(t[IdxMax(t, Board(t)[k].clfName)])
  {
    BestPerFamilyRowsAreBest(t);
    var best := BestPerFamily(t);
    var board := Board(t);
    forall k | 0 <= k < |board|
      ensures HasFamily(t, board[k].clfName) && board[k] == Project(t[IdxMax(t, board[k].clfName)])
    {
      assert board[k] in multiset(best);
      var p :| 0 <= p < |best| && best[p] == board[k];
    }
  }

  /** Board-level form of `LeaderboardTopIsGlobalMax`. */
  lemma BoardTopIsGlobalMax(t: seq<TaggedRow>)
    requires |t| > 0
    ensures |Board(t)| > 0
    ensures forall i :: 0 <= i < |t| ==> Score(t[i]) <= Board(t)[0].meanTestScore
    ensures exists i :: 0 <= i < |t| && Score(t[i]) == Board(t)[0].meanTestScore
  {
    BestPerFamilyRowsAreBest(t);
    var best := BestPerFamily(t);
    var board := Board(t);
    assert HasFamily(t, t[0].clfName);
    BoardCoversFamilies(t, t[0].clfName);
    forall i | 0 <= i < |t|
      ensures Score(t[i]) <= board[0].meanTestScore
    {
      assert HasFamily(t, t[i].clfName);
      var p := IndexIn(Families(t), t[i].clfName);
      var b := IdxMax(t, t[i].clfName);
      assert best[p] == Project(t[b]);
      BoardCoversFamilies(t, t[i].clfName);
      var k :| 0 <= k < |board| && board[k] == best[p];
      assert Score(t[i]) <= Score(t[b]) == board[k].meanTestScore;
    }
    BoardRowsAreFamilyBest(t);
    var i0 := IdxMax(t, board[0].clfName);
    assert Score(t[i0]) == board[0].meanTestScore;
  }

  /** The leaderboard holds each family of the results exactly once, so it is
      as long as the number of distinct family tags, and no family is missed. */
  lemma LeaderboardOnePerFamily(rows: seq<CvRow>)
    ensures |Leaderboard(rows)| == |TagSet(rows)|
    ensures forall i, j :: 0 <= i < j < |Leaderboard(rows)| ==>
      Leaderboard(rows)[i].clfName != Leaderboard(rows)[j].clfName
    ensures forall i :: 0 <= i < |rows| ==>
      exists k :: 0 <= k < |Leaderboard(rows)|
        && Leaderboard(rows)[k].clfName == ClfName.ExtractClfName(rows[i].paramClf)
  {
    var t := TagRows(rows);
    BoardOnePerFamily(t);
    FamiliesAreTags(rows);
    forall i | 0 <= i < |rows|
      ensures exists k :: 0 <= k < |Board(t)| && Board(t)[k].clfName == t[i].clfName
    {
      assert HasFamily(t, t[i].clfName);
      BoardCoversFamilies(t, t[i].clfName);
    }
  }

  /** Every leaderboard record is the projection of its family's `idxmax`
      row, and the records are in non-increasing score order. */
  lemma LeaderboardRowsAreFamilyBest(rows: seq<CvRow>)
    ensures SortedDesc(Leaderboard(rows))
    ensures forall k :: 0 <= k < |Leaderboard(rows)| ==>
      && HasFamily(TagRows(rows), Leaderboard(rows)[k].clfName)
      && var i := IdxMax(TagRows(rows), Leaderboard(rows)[k].clfName);
         IsFamilyBest(TagRows(rows), i) && Leaderboard(rows)[k] == Project(TagRows(rows)[i])
  {
    BoardRowsAreFamilyBest(TagRows(rows));
  }

  /** With any results at all, the top record carries the highest mean test
      score over every result row. */
  lemma LeaderboardTopIsGlobalMax(rows: seq<CvRow>)
    requires |rows| > 0
    ensures |Leaderboard(rows)| > 0
    ensures forall i :: 0 <= i < |rows| ==> rows[i].meanTestScore <= Leaderboard(rows)[0].meanTestScore
    ensures exists i :: 0 <= i < |rows| && rows[i].meanTestScore == Leaderboard(rows)[0].meanTestScore
  {
    var t := TagRows(rows);
    BoardTopIsGlobalMax(t);
    assert Leaderboard(rows) == Board(t);
    assert forall j :: 0 <= j < |rows| ==> Score(t[j]) == rows[j].meanTestScore;
    var i :| 0 <= i < |t| && Score(t[i]) == Board(t)[0].meanTestScore;
  }

  // ---------------------------------------------------------------------
  // train_model
  // ---------------------------------------------------------------------

  /** What `train_model` produces apart from the fitted estimator. */
  datatype TrainingOutput = TrainingOutput(split: Split, report: seq<Entry>)

  /** `train_model`, with the grid search's result rows as an input. */
  function TrainModel(df: Frame, target: string, cvResults: seq<CvRow>): (r: Result<TrainingOutput, Fault>)
    requires UniqueNames(df)
    ensures r.Failure? <==> !HasColumn(df, target)
    ensures r.Failure? ==> r.error == TargetColumnMissing(target)
    ensures r.Success? ==>
      && r.value.split.labelColumn in df && r.value.split.labelColumn.name == target
      && |r.value.split.features| == |df| - 1
      && Subsequence(r.value.split.features, df)
      && (forall i :: 0 <= i < |r.value.split.features| ==> r.value.split.features[i].name != target)
    ensures r.Success? ==>
      && r.value.report == Leaderboard(cvResults)
      && |r.value.report| == |TagSet(cvResults)|
      && SortedDesc(r.value.report)
  {
    match SplitFeatures(df, target)
    case Failure(e) => Failure(e)
    case Success(split) =>
      LeaderboardOnePerFamily(cvResults);
      LeaderboardRowsAreFamilyBest(cvResults);
      Success(TrainingOutput(split, Leaderboard(cvResults)))
  }
}
