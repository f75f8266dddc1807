/** Running a `PROCESSES` tuple: each stage is applied to the previous stage's output. */
module Pipeline {
  import opened Wrappers
  import opened Nlp

  /**
   * The stages applied in order to one cell. `None` stands for the exception Python raises when
   * a stage receives a value of the wrong type.
   */
  function RunStages<S>(step: (S, Cell) -> Option<Cell>, stages: seq<S>, c: Cell): Option<Cell>
    decreases |stages|
  {
    if stages == [] then Some(c)
    else
      match RunStages(step, stages[..|stages| - 1], c)
      case None => None
      case Some(d) => step(stages[|stages| - 1], d)
  }

  /** Running one more stage continues from where the shorter run stopped. */
  lemma RunStagesSnoc<S>(step: (S, Cell) -> Option<Cell>, stages: seq<S>, k: nat, c: Cell)
    requires k < |stages|
    ensures RunStages(step, stages[..k + 1], c) ==
      match RunStages(step, stages[..k], c)
      case None => None
      case Some(d) => step(stages[k], d)
  {
    assert stages[..k + 1][..k] == stages[..k];
  }

  /** A failure is never undone: if the whole run succeeds, so does every prefix of it. */
  lemma {:induction false} RunStagesPrefix<S>(step: (S, Cell) -> Option<Cell>, stages: seq<S>, k: nat, c: Cell)
    requires k <= |stages|
    requires RunStages(step, stages, c).Some?
    ensures RunStages(step, stages[..k], c).Some?
    decreases |stages|
  {
    if k == |stages| {
      assert stages[..k] == stages;
    } else {
      RunStagesPrefix(step, stages[..|stages| - 1], k, c);
      assert stages[..|stages| - 1][..k] == stages[..k];
    }
  }

  /**
   * A run that passes through the cells `cells[0]`, `cells[1]`, ...: when every stage turns the
   * cell before it into the cell after it, the whole run ends in the last cell.
   */
  lemma {:induction false} RunStagesTrace<S>(step: (S, Cell) -> Option<Cell>, stages: seq<S>, cells: seq<Cell>)
    requires |cells| == |stages| + 1
    requires forall i :: 0 <= i < |stages| ==> step(stages[i], cells[i]) == Some(cells[i + 1])
    ensures RunStages(step, stages, cells[0]) == Some(cells[|stages|])
    decreases |stages|
  {
    if stages != [] {
      var n := |stages| - 1;
      RunStagesTrace(step, stages[..n], cells[..n + 1]);
    }
  }

  /** Running `xs + ys` is running `xs` and then, if that succeeded, running `ys` on its result. */
  lemma {:induction false} RunStagesAppend<S>(step: (S, Cell) -> Option<Cell>, xs: seq<S>, ys: seq<S>, c: Cell)
    ensures RunStages(step, xs + ys, c) ==
      match RunStages(step, xs, c)
      case None => None
      case Some(d) => RunStages(step, ys, d)
    decreases |ys|
  {
    if ys == [] {
      assert xs + ys == xs;
    } else {
      var n := |ys| - 1;
      assert (xs + ys)[..|xs + ys| - 1] == xs + ys[..n];
      RunStagesAppend(step, xs, ys[..n], c);
    }
  }

  /** One stage more after a run that ended in `d`. */
  lemma RunStagesLast<S>(step: (S, Cell) -> Option<Cell>, stages: seq<S>, st: S, c: Cell, d: Cell)
    requires RunStages(step, stages, c) == Some(d)
    ensures RunStages(step, stages + [st], c) == step(st, d)
  {
    assert (stages + [st])[..|stages|] == stages;
  }

  /** Four successful steps in a row make a successful run of those four stages. */
  lemma RunFourStages<S>(step: (S, Cell) -> Option<Cell>, a: S, b: S, x: S, y: S, c0: Cell, c1: Cell, c2: Cell, c3: Cell, c4: Cell)
    requires step(a, c0) == Some(c1) && step(b, c1) == Some(c2)
    requires step(x, c2) == Some(c3) && step(y, c3) == Some(c4)
    ensures RunStages(step, [a, b, x, y], c0) == Some(c4)
  {
    assert RunStages(step, [], c0) == Some(c0);
    RunStagesLast(step, [], a, c0, c0);
    assert [] + [a] == [a];
    RunStagesLast(step, [a], b, c0, c1);
    assert [a] + [b] == [a, b];
    RunStagesLast(step, [a, b], x, c0, c2);
    assert [a, b] + [x] == [a, b, x];
    RunStagesLast(step, [a, b, x], y, c0, c3);
    assert [a, b, x] + [y] == [a, b, x, y];
  }
}
