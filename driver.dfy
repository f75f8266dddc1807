/**
 * The clustering driver `src/main.py`: the comment frame, the stage fold of
 * `preprocess_dataframe`, the partition-map-concatenate of `process_data`, and the per-cluster
 * aggregations behind the word clouds and the bar graph.
 */
module Driver {
  import opened Wrappers
  import opened Seqs
  import opened PyStr
  import opened Nlp
  import opened Pipeline
  import LaterStages

  // ---------------------------------------------------------------------------------------
  // The frame and preprocess_dataframe

  /** A saved comment: its `like_count` and its `comment` text. */
  datatype Comment = Comment(likeCount: int, text: string)

  /** A frame row while cleaning: `like_count`, `pre_clean` and the `post_clean` cell. */
  datatype Row = Row(likeCount: int, preClean: string, postClean: Cell)

  /** The step function of the `tp.PROCESSES` the driver imports, with that module's table. */
  function Stages(tk: Toolkit): (LaterStages.Stage, Cell) -> Option<Cell>
  {
    LaterStages.Step(tk, LaterStages.ChatWords)
  }

  class Frame {
    var rows: seq<Row>

    /**
     * `pd.read_json(json_path, orient="index")`, the in-place rename of `comment` to
     * `pre_clean`, and the insertion of `post_clean` as a copy of `pre_clean`.
     */
    constructor Read(comments: seq<Comment>)
      ensures |rows| == |comments|
      ensures forall i :: 0 <= i < |rows| ==>
        rows[i].likeCount == comments[i].likeCount && rows[i].preClean == comments[i].text &&
        rows[i].postClean == Text(rows[i].preClean)
    {
      rows := seq(|comments|, i requires 0 <= i < |comments| =>
        Row(comments[i].likeCount, comments[i].text, Text(comments[i].text)));
    }

    /** A partition of a frame: a frame of its own holding a run of the rows. */
    constructor FromRows(rs: seq<Row>)
      ensures rows == rs
    {
      rows := rs;
    }
  }

  /**
   * `df["post_clean"].apply(func)` for one stage: the stage runs on every cell, in row order;
   * `None` when it raises on some cell.
   */
  function ApplyColumn<S>(step: (S, Cell) -> Option<Cell>, st: S, rows: seq<Row>): (r: Option<seq<Row>>)
    ensures r.Some? <==> forall i :: 0 <= i < |rows| ==> step(st, rows[i].postClean).Some?
    ensures r.Some? ==> |r.value| == |rows| && forall i :: 0 <= i < |rows| ==>
      r.value[i] == rows[i].(postClean := step(st, rows[i].postClean).value)
  {
    if rows == [] then Some([])
    else
      match step(st, rows[0].postClean)
      case None => None
      case Some(c) =>
        match ApplyColumn(step, st, rows[1..])
        case None => None
        case Some(rest) => Some([rows[0].(postClean := c)] + rest)
  }

  /**
   * The stages run row by row: every row's `post_clean` goes through the whole sequence on its
   * own; `None` when some row's run fails.
   */
  function FoldRows<S>(step: (S, Cell) -> Option<Cell>, stages: seq<S>, rows: seq<Row>): (r: Option<seq<Row>>)
    ensures r.Some? <==> forall i :: 0 <= i < |rows| ==> RunStages(step, stages, rows[i].postClean).Some?
    ensures r.Some? ==> |r.value| == |rows| && forall i :: 0 <= i < |rows| ==>
      r.value[i] == rows[i].(postClean := RunStages(step, stages, rows[i].postClean).value)
  {
    if rows == [] then Some([])
    else
      match RunStages(step, stages, rows[0].postClean)
      case None => None
      case Some(c) =>
        match FoldRows(step, stages, rows[1..])
        case None => None
        case Some(rest) => Some([rows[0].(postClean := c)] + rest)
  }

  /** Cleaning rows with `PROCESSES`, row by row. */
  function CleanRows(tk: Toolkit, rows: seq<Row>): Option<seq<Row>>
  {
    FoldRows(Stages(tk), LaterStages.Processes, rows)
  }

  /**
   * Stage-major and row-major order agree: applying one more stage to the whole column after a
   * prefix of the stages is the row-by-row run of the longer prefix.
   */
  lemma ColumnThenRows<S>(step: (S, Cell) -> Option<Cell>, stages: seq<S>, k: nat, rows: seq<Row>)
    requires k < |stages|
    ensures FoldRows(step, stages[..k + 1], rows) ==
      match FoldRows(step, stages[..k], rows)
      case None => None
      case Some(rs) => ApplyColumn(step, stages[k], rs)
  {
    forall i | 0 <= i < |rows| {
      RunStagesSnoc(step, stages, k, rows[i].postClean);
    }
    var before := FoldRows(step, stages[..k], rows);
    var after := FoldRows(step, stages[..k + 1], rows);
    if before.Some? {
      var col := ApplyColumn(step, stages[k], before.value);
      assert after.Some? <==> col.Some?;
      if after.Some? {
        assert after.value == col.value;
      }
    }
  }

  lemma NoStages<S>(step: (S, Cell) -> Option<Cell>, stages: seq<S>, rows: seq<Row>)
    ensures FoldRows(step, stages[..0], rows) == Some(rows)
  {
    assert stages[..0] == [];
    var r := FoldRows(step, stages[..0], rows);
    assert forall i :: 0 <= i < |rows| ==> RunStages(step, stages[..0], rows[i].postClean) == Some(rows[i].postClean);
    assert r.value == rows;
  }

  /** If a prefix of the stages fails on some row, the whole sequence fails on it. */
  lemma PrefixFailure<S>(step: (S, Cell) -> Option<Cell>, stages: seq<S>, k: nat, rows: seq<Row>)
    requires k <= |stages|
    ensures FoldRows(step, stages, rows).Some? ==> FoldRows(step, stages[..k], rows).Some?
  {
    if FoldRows(step, stages, rows).Some? {
      forall i | 0 <= i < |rows| ensures RunStages(step, stages[..k], rows[i].postClean).Some? {
        RunStagesPrefix(step, stages, k, rows[i].postClean);
      }
    }
  }

  /**
   * `preprocess_dataframe`: for each stage of `PROCESSES` in turn, the whole `post_clean`
   * column is replaced by the stage applied to it. The result is the row-by-row fold of the
   * stages; the number of rows, `like_count` and `pre_clean` are untouched.
   */
  method PreprocessDataframe(tk: Toolkit, df: Frame) returns (ok: bool)
    modifies df
    ensures ok <==> CleanRows(tk, old(df.rows)).Some?
    ensures ok ==> df.rows == CleanRows(tk, old(df.rows)).value
    ensures ok ==> |df.rows| == |old(df.rows)| && forall i :: 0 <= i < |df.rows| ==>
      df.rows[i].likeCount == old(df.rows)[i].likeCount && df.rows[i].preClean == old(df.rows)[i].preClean
  {
    var step := Stages(tk);
    var stages := LaterStages.Processes;
    NoStages(step, stages, df.rows);
    var k := 0;
    while k < |stages|
      invariant 0 <= k <= |stages|
      invariant FoldRows(step, stages[..k], old(df.rows)) == Some(df.rows)
    {
      ColumnThenRows(step, stages, k, old(df.rows));
      var next := ApplyColumn(step, stages[k], df.rows);
      if next.None? {
        PrefixFailure(step, stages, k + 1, old(df.rows));
        return false;
      }
      df.rows := next.value;
      k := k + 1;
    }
    assert stages[..k] == stages;
    return true;
  }

  /**
   * Every row whose `post_clean` is a string comes out of `PROCESSES` as the composition
   * `Clean` of that string; no stage raises.
   */
  lemma CleanRowsOfText(tk: Toolkit, rows: seq<Row>)
    requires forall i :: 0 <= i < |rows| ==> rows[i].postClean.Text?
    ensures CleanRows(tk, rows).Some?
    ensures forall i :: 0 <= i < |rows| ==> (CleanRows(tk, rows).value[i] ==
      rows[i].(postClean := Text(LaterStages.Clean(tk, LaterStages.ChatWords, rows[i].postClean.s))))
  {
    forall i | 0 <= i < |rows| {
      LaterStages.ProcessesCompose(tk, LaterStages.ChatWords, rows[i].postClean.s);
    }
  }

  /** Cleaning is row-local: cleaning two runs of rows and concatenating is cleaning both. */
  lemma CleanRowsAppend(tk: Toolkit, xs: seq<Row>, ys: seq<Row>)
    ensures CleanRows(tk, xs + ys) ==
      if CleanRows(tk, xs).Some? && CleanRows(tk, ys).Some?
      then Some(CleanRows(tk, xs).value + CleanRows(tk, ys).value)
      else None
  {
    FoldRowsAppend(Stages(tk), LaterStages.Processes, xs, ys);
  }

  lemma {:induction false} FoldRowsAppend<S>(step: (S, Cell) -> Option<Cell>, stages: seq<S>, xs: seq<Row>, ys: seq<Row>)
    ensures FoldRows(step, stages, xs + ys).Some? <==>
      FoldRows(step, stages, xs).Some? && FoldRows(step, stages, ys).Some?
    ensures FoldRows(step, stages, xs + ys).Some? ==>
      FoldRows(step, stages, xs + ys).value == FoldRows(step, stages, xs).value + FoldRows(step, stages, ys).value
  {
    if xs == [] {
      assert xs + ys == ys;
    } else {
      assert (xs + ys)[0] == xs[0];
      assert (xs + ys)[1..] == xs[1..] + ys;
      FoldRowsAppend(step, stages, xs[1..], ys);
      var head := RunStages(step, stages, xs[0].postClean);
      if head.Some? && FoldRows(step, stages, xs[1..] + ys).Some? {
        var row := xs[0].(postClean := head.value);
        AppendAssoc([row], FoldRows(step, stages, xs[1..]).value, FoldRows(step, stages, ys).value);
      }
    }
  }

  // ---------------------------------------------------------------------------------------
  // np.array_split and process_data

  /** The size of section `j` when each section has `q` rows and the first `extras` one more. */
  function SectionSize(q: nat, extras: nat, j: nat): nat
  {
    q + if j < extras then 1 else 0
  }

  /** The number of rows `n` such sections hold together. */
  function Total(q: nat, extras: nat, n: nat): nat
    decreases n
  {
    if n == 0 then 0 else SectionSize(q, extras, 0) + Total(q, if extras > 0 then extras - 1 else 0, n - 1)
  }

  /** With at most `n` longer sections, `n` sections hold `n * q + extras` rows. */
  lemma {:induction false} TotalIsProduct(q: nat, extras: nat, n: nat)
    requires extras <= n
    ensures Total(q, extras, n) == n * q + extras
    decreases n
  {
    if n > 0 {
      TotalIsProduct(q, if extras > 0 then extras - 1 else 0, n - 1);
      assert n * q == (n - 1) * q + q;
    }
  }

  /**
   * The sections `np.array_split` makes of `xs` when `n` sections remain, each of `q` rows
   * and the first `extras` of them one row more.
   */
  function Sections<T>(xs: seq<T>, q: nat, extras: nat, n: nat): (parts: seq<seq<T>>)
    requires |xs| == Total(q, extras, n)
    ensures |parts| == n
    ensures Flatten(parts) == xs
    decreases n
  {
    if n == 0 then []
    else
      var size := SectionSize(q, extras, 0);
      var rest := Sections(xs[size..], q, if extras > 0 then extras - 1 else 0, n - 1);
      SectionsCons(xs, size, rest);
      [xs[..size]] + rest
  }

  lemma SectionsCons<T>(xs: seq<T>, size: nat, rest: seq<seq<T>>)
    requires size <= |xs| && Flatten(rest) == xs[size..]
    ensures Flatten([xs[..size]] + rest) == xs
  {
    assert ([xs[..size]] + rest)[1..] == rest;
    assert xs[..size] + xs[size..] == xs;
  }

  /** Section `j` has `q` rows, plus one when it is among the first `extras`. */
  lemma {:induction false} SectionSizes<T>(xs: seq<T>, q: nat, extras: nat, n: nat)
    requires |xs| == Total(q, extras, n)
    ensures forall j :: 0 <= j < n ==> |Sections(xs, q, extras, n)[j]| == SectionSize(q, extras, j)
    decreases n
  {
    if n > 0 {
      var size := SectionSize(q, extras, 0);
      var extras' := if extras > 0 then extras - 1 else 0;
      var rest := Sections(xs[size..], q, extras', n - 1);
      SectionSizes(xs[size..], q, extras', n - 1);
      var parts := Sections(xs, q, extras, n);
      assert parts == [xs[..size]] + rest;
      forall j | 0 <= j < n ensures |parts[j]| == SectionSize(q, extras, j) {
        if j > 0 {
          assert parts[j] == rest[j - 1];
          assert SectionSize(q, extras', j - 1) == SectionSize(q, extras, j);
        }
      }
    }
  }

  /**
   * `np.array_split(xs, n)`: `n` contiguous sections in order, the first `|xs| % n` of them
   * with `|xs| / n + 1` rows and the others with `|xs| / n`.
   */
  function ArraySplit<T>(xs: seq<T>, n: nat): (parts: seq<seq<T>>)
    requires n >= 1
    ensures |parts| == n && Flatten(parts) == xs
  {
    TotalIsProduct(|xs| / n, |xs| % n, n);
    Sections(xs, |xs| / n, |xs| % n, n)
  }

  /** The first `|xs| % n` sections have `|xs| / n + 1` rows, the others `|xs| / n`. */
  lemma ArraySplitSizes<T>(xs: seq<T>, n: nat)
    requires n >= 1
    ensures forall j :: 0 <= j < n ==> |ArraySplit(xs, n)[j]| == |xs| / n + (if j < |xs| % n then 1 else 0)
  {
    TotalIsProduct(|xs| / n, |xs| % n, n);
    SectionSizes(xs, |xs| / n, |xs| % n, n);
  }

  lemma FlattenSnoc<T>(parts: seq<seq<T>>, j: nat)
    requires j < |parts|
    ensures Flatten(parts[..j + 1]) == Flatten(parts[..j]) + parts[j]
  {
    assert parts[..j + 1] == parts[..j] + [parts[j]];
    FlattenAppend(parts[..j], [parts[j]]);
    assert Flatten([parts[j]]) == parts[j] + Flatten([]);
  }

  /**
   * The cleaning part of `process_data`: the frame is read, `post_clean` is inserted, the frame
   * is split into `numPartitions` contiguous sections, each section is cleaned by
   * `preprocess_dataframe`, and the cleaned sections are concatenated in section order (the
   * pool's `map` keeps the order of its inputs). The outcome is every comment cleaned on its
   * own, in the original order.
   */
  method ProcessData(tk: Toolkit, comments: seq<Comment>, numPartitions: nat) returns (cleaned: seq<Row>)
    requires numPartitions >= 1
    ensures |cleaned| == |comments|
    ensures forall i :: 0 <= i < |comments| ==> (cleaned[i] ==
      Row(comments[i].likeCount, comments[i].text, Text(LaterStages.Clean(tk, LaterStages.ChatWords, comments[i].text))))
  {
    var df := new Frame.Read(comments);
    var rows := df.rows;
    var parts := ArraySplit(rows, numPartitions);
    TextRowsClean(tk, rows);
    cleaned := [];
    var j := 0;
    while j < numPartitions
      invariant 0 <= j <= numPartitions
      invariant CleanRows(tk, Flatten(parts[..j])) == Some(cleaned)
    {
      var part := new Frame.FromRows(parts[j]);
      SectionStep(Stages(tk), LaterStages.Processes, parts, j, cleaned);
      var ok := PreprocessDataframe(tk, part);
      cleaned := cleaned + part.rows;
      j := j + 1;
    }
    assert parts[..numPartitions] == parts;
    ReadThenClean(tk, comments, rows);
  }

  /** Rows whose `post_clean` cells are all strings clean without error. */
  lemma TextRowsClean(tk: Toolkit, rows: seq<Row>)
    requires forall i :: 0 <= i < |rows| ==> rows[i].postClean.Text?
    ensures CleanRows(tk, rows).Some?
  {
    CleanRowsOfText(tk, rows);
  }

  /** Cleaning the rows of a freshly read frame cleans every comment's text on its own. */
  lemma ReadThenClean(tk: Toolkit, comments: seq<Comment>, rows: seq<Row>)
    requires |rows| == |comments|
    requires forall i :: 0 <= i < |rows| ==>
      rows[i].likeCount == comments[i].likeCount && rows[i].preClean == comments[i].text &&
      rows[i].postClean == Text(rows[i].preClean)
    ensures CleanRows(tk, rows).Some?
    ensures |CleanRows(tk, rows).value| == |comments|
    ensures forall i :: 0 <= i < |comments| ==> (CleanRows(tk, rows).value[i] ==
      Row(comments[i].likeCount, comments[i].text, Text(LaterStages.Clean(tk, LaterStages.ChatWords, comments[i].text))))
  {
    CleanRowsOfText(tk, rows);
  }

  /** One more section cleaned and appended continues the concatenation of the cleaned sections. */
  lemma SectionStep<S>(step: (S, Cell) -> Option<Cell>, stages: seq<S>, parts: seq<seq<Row>>, j: nat, cleaned: seq<Row>)
    requires j < |parts| && FoldRows(step, stages, Flatten(parts)).Some?
    requires FoldRows(step, stages, Flatten(parts[..j])) == Some(cleaned)
    ensures FoldRows(step, stages, parts[j]).Some?
    ensures FoldRows(step, stages, Flatten(parts[..j + 1])) == Some(cleaned + FoldRows(step, stages, parts[j]).value)
  {
    FlattenSnoc(parts, j);
    PrefixRows(step, stages, parts, j + 1);
    FoldRowsAppend(step, stages, Flatten(parts[..j]), parts[j]);
  }

  /** Rows that all clean successfully clean successfully in every leading run of sections. */
  lemma PrefixRows<S>(step: (S, Cell) -> Option<Cell>, stages: seq<S>, parts: seq<seq<Row>>, j: nat)
    requires j <= |parts| && FoldRows(step, stages, Flatten(parts)).Some?
    ensures FoldRows(step, stages, Flatten(parts[..j])).Some?
  {
    assert parts == parts[..j] + parts[j..];
    FlattenAppend(parts[..j], parts[j..]);
    FoldRowsAppend(step, stages, Flatten(parts[..j]), Flatten(parts[j..]));
  }
}
