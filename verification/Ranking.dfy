/** The ranking table of one contest: how one judge result changes one participant's row. */
module Ranking {
  import opened Types
  import opened Submissions
  import opened Evaluation

  datatype Row = Row(problems: Cells, general: RankingCell, score: int, value1: int, value2: int)

  /** The tables of one contest. `columns` are the problems the ranking table has a column for. */
  datatype Tables = Tables(
    contest: Contest,
    submissions: map<Id, Submission>,
    columns: set<Id>,
    rows: map<Id, Row>)

  datatype Error = UnknownSubmission | UnknownProblem | NoSubmission
  datatype Result<+T> = Ok(value: T) | Failed(error: Error)

  // ---------------------------------------------------------------- row folding

  ghost function Folded(contest: Contest, problems: Cells): Row {
    var g := General(contest.kind, problems);
    Row(problems, g, g.score,
        Value1(contest.kind, g.score, g.penalty, contest.penalty, g.time),
        Value2(contest.kind, g.score, g.penalty, contest.penalty, g.time))
  }

  /** A new participant's row: no cell is valid and the folded columns have their defaults. */
  function FreshRow(columns: set<Id>): Row {
    Row(map p | p in columns :: INVALID_CELL, INVALID_CELL.(valid := true), 0, 0, 0)
  }

  // ---------------------------------------------------------------- one ranking update

  /** What to do with a cell when a result arrives. */
  datatype Choice = Ignore | Put(cell: RankingCell) | Refuse(error: Error)

  function Choose(t: Tables, iid: Id, pid: Id, cell: RankingCell, rc: RankingCell): Choice {
    if !cell.valid then Put(rc)
    else if cell.sid != rc.sid then
      if Before(rc.score, rc.sid, cell.score, cell.sid) then Put(rc) else Put(cell)
    else if cell.jid >= rc.jid then Ignore
    else if cell.score <= rc.score then Put(rc)
    else
      match MaximumScore(t.submissions, iid, pid)
      case None => Refuse(NoSubmission)
      case Some(sid) =>
        var sm := t.submissions[sid];
        // The score is the new result's, not the chosen submission's.
        Put(cell.(sid := sid, jid := sm.jid, time := sm.submitTime - t.contest.startTime, score := rc.score))
  }

  /** Wrong submissions up to the cell's own; its own counts only while it scores nothing. */
  function Penalty(t: Tables, iid: Id, pid: Id, sid: Id, score: int): int {
    var bound := if score > 0 then sid - 1 else sid;
    |CountedForPenalty(t.submissions, iid, pid, bound, CompileErrorPenalty(t.contest.kind))|
  }

  ghost function RankingUpdate(t: Tables, iid: Id, pid: Id, rc: RankingCell): Result<Tables> {
    if iid !in t.rows then Ok(t)
    else if pid !in t.rows[iid].problems then Failed(UnknownProblem)
    else
      match Choose(t, iid, pid, t.rows[iid].problems[pid], rc)
      case Ignore => Ok(t)
      case Refuse(error) => Failed(error)
      case Put(cell) =>
        var counted := cell.(penalty := Penalty(t, iid, pid, cell.sid, cell.score));
        Ok(t.(rows := t.rows[iid := Folded(t.contest, t.rows[iid].problems[pid := counted])]))
  }

  /** A new column reads back as an invalid cell in every row; an existing one is refused by the database. */
  function ProblemAdd(t: Tables, pid: Id): Tables {
    if pid in t.columns then t
    else t.(columns := t.columns + {pid},
            rows := map iid | iid in t.rows :: t.rows[iid].(problems := t.rows[iid].problems[pid := INVALID_CELL]))
  }

  function UserAdd(t: Tables, iid: Id): Tables {
    if iid in t.rows then t else t.(rows := t.rows[iid := FreshRow(t.columns)])
  }

  // ---------------------------------------------------------------- the cached fold is always current

  /** Every row has the table's columns, and its folded columns are those of its cells. */
  ghost predicate Folds(t: Tables) {
    forall iid :: iid in t.rows ==>
      && t.rows[iid].problems.Keys == t.columns
      && t.rows[iid] == Folded(t.contest, t.rows[iid].problems)
  }

  lemma {:induction false} NothingToAdd(cells: Cells, weight: RankingCell -> int)
    requires forall p :: p in cells ==> weight(cells[p]) == 0
    ensures Total(cells, weight) == 0
    decreases |cells|
  {
    if cells != map[] {
      var p :| p in cells;
      TotalTakesAny(cells, weight, p);
      NothingToAdd(cells - {p}, weight);
    }
  }

  lemma BlankCellTime(problems: Cells, pid: Id)
    requires pid !in problems
    ensures LatestTime(problems[pid := INVALID_CELL]) == LatestTime(problems)
  {
    var more := problems[pid := INVALID_CELL];
    assert forall p :: p in problems ==> p in more && more[p] == problems[p];
  }

  lemma BlankCellTotal(problems: Cells, pid: Id, weight: RankingCell -> int)
    requires pid !in problems && weight(INVALID_CELL) == 0
    ensures Total(problems[pid := INVALID_CELL], weight) == Total(problems, weight)
  {
    assert problems[pid := INVALID_CELL] - {pid} == problems;
    TotalTakesAny(problems[pid := INVALID_CELL], weight, pid);
  }

  lemma InvalidCellAddsNothing(contest: Contest, problems: Cells, pid: Id)
    requires pid !in problems
    ensures General(contest.kind, problems[pid := INVALID_CELL]) == General(contest.kind, problems)
  {
    BlankCellTotal(problems, pid, ScoreOf);
    BlankCellTotal(problems, pid, TimeOf);
    BlankCellTotal(problems, pid, PenaltyOf);
    BlankCellTime(problems, pid);
  }

  lemma FreshGeneral(kind: ContestType, columns: set<Id>)
    ensures General(kind, FreshRow(columns).problems) == INVALID_CELL.(valid := true)
  {
    var cells := FreshRow(columns).problems;
    NothingToAdd(cells, ScoreOf);
    NothingToAdd(cells, TimeOf);
    NothingToAdd(cells, PenaltyOf);
    assert LatestTime(cells) == 0;
  }

  lemma ValuesOfNothing(kind: ContestType, setting: int)
    ensures Value1(kind, 0, 0, setting, 0) == 0 && Value2(kind, 0, 0, setting, 0) == 0
  {
  }

  lemma FreshRowFolds(contest: Contest, columns: set<Id>)
    ensures FreshRow(columns) == Folded(contest, FreshRow(columns).problems)
  {
    FreshGeneral(contest.kind, columns);
    ValuesOfNothing(contest.kind, contest.penalty);
  }

  lemma UserAddFolds(t: Tables, iid: Id)
    requires Folds(t)
    ensures Folds(UserAdd(t, iid))
  {
    FreshRowFolds(t.contest, t.columns);
  }

  lemma ProblemAddFolds(t: Tables, pid: Id)
    requires Folds(t)
    ensures Folds(ProblemAdd(t, pid))
  {
    if pid !in t.columns {
      forall i | i in t.rows
        ensures ProblemAdd(t, pid).rows[i].problems.Keys == t.columns + {pid}
        ensures ProblemAdd(t, pid).rows[i] == Folded(t.contest, ProblemAdd(t, pid).rows[i].problems)
      {
        InvalidCellAddsNothing(t.contest, t.rows[i].problems, pid);
      }
    }
  }

  lemma RefoldedRow(t: Tables, iid: Id, cells: Cells, pid: Id, c: RankingCell)
    requires Folds(t) && iid in t.rows && cells == t.rows[iid].problems && pid in cells
    ensures Folds(t.(rows := t.rows[iid := Folded(t.contest, cells[pid := c])]))
  {
  }

  lemma RankingUpdateFolds(t: Tables, iid: Id, pid: Id, rc: RankingCell)
    requires Folds(t)
    ensures RankingUpdate(t, iid, pid, rc).Ok? ==> Folds(RankingUpdate(t, iid, pid, rc).value)
  {
    hide Folds, Folded, Choose, Penalty;
    if iid in t.rows && pid in t.rows[iid].problems {
      var choice := Choose(t, iid, pid, t.rows[iid].problems[pid], rc);
      if choice.Put? {
        var counted := choice.cell.(penalty := Penalty(t, iid, pid, choice.cell.sid, choice.cell.score));
        RefoldedRow(t, iid, t.rows[iid].problems, pid, counted);
      }
    }
  }

  /**
   * When an update fails: the participant's row has no such column, or the cell is demoted and the participant has no
   * submission to fall back on. A participant without a row is not an error.
   */
  lemma RankingUpdateFails(t: Tables, iid: Id, pid: Id, rc: RankingCell)
    ensures var u, found := RankingUpdate(t, iid, pid, rc), iid in t.rows && pid in t.rows[iid].problems;
      && (u == Failed(UnknownProblem) <==> iid in t.rows && !found)
      && (u == Failed(NoSubmission) <==>
            && found
            && (var c := t.rows[iid].problems[pid]; c.valid && c.sid == rc.sid && c.jid < rc.jid && c.score > rc.score)
            && forall s :: s in t.submissions ==> t.submissions[s].iid != iid || t.submissions[s].pid != pid)
      && u != Failed(UnknownSubmission)
  {
  }

  /** There is one first row, so it is the one the query returns. */
  lemma FirstIsMaximum(rows: map<Id, Submission>, iid: Id, pid: Id, sid: Id)
    requires IsFirst(rows, iid, pid, sid)
    ensures MaximumScore(rows, iid, pid) == Some(sid)
  {
    assert Belongs(rows[sid], iid, pid);
    var m := MaximumScore(rows, iid, pid);
    assert m.Some? && IsFirst(rows, iid, pid, m.value);
  }
}
