/**
 * The judge pipeline as a step system: submissions, dispatches, worker reports and ranking
 * updates of any number of dispatchers, workers and participants, interleaved freely.
 */
module Pipeline {
  import opened Types
  import opened Submissions
  import opened Ranking

  /** One judge run: the jid allotted to a submission. */
  datatype Run = Run(sid: Id, jid: Id)

  /** What a run's final result says. */
  datatype Verdict = Verdict(status: Status, score: int)

  /** A ranking update that the result handler still has to make: its second transaction. */
  datatype Report = Report(run: Run, score: int)

  /**
   * `dispatched` and `reported` are history. `delivered` is history too: for each submission the last
   * report of its newest run among those a ranking cell has been updated with. `voided` are the
   * submissions that were reset since that report.
   */
  datatype System = System(
    tables: Tables,
    dispatched: seq<Run>,
    reported: map<Run, Verdict>,
    pending: multiset<Report>,
    delivered: map<Id, Report>,
    voided: set<Id>)

  datatype Step =
    | Submit(sid: Id, iid: Id, pid: Id, submitTime: int)
    | Join(iid: Id)
    | AddProblem(pid: Id)
    | Dispatch(sid: Id)
    | ReportCase(run: Run, result: TestCase)
    | ReportResult(run: Run, status: Status, score: int, time: int, mem: int)
    | UpdateRanking(report: Report)
    | Rejudge(sids: set<Id>)

  function Start(contest: Contest): System {
    System(Tables(contest, map[], {}, map[]), [], map[], multiset{}, map[], {})
  }

  /** Sids are allotted upwards, workers report only runs they were sent, and a result is a final status. */
  predicate Enabled(s: System, step: Step) {
    match step
    case Submit(sid, _, _, _) => forall q :: q in s.tables.submissions ==> q < sid
    case Join(_) => true
    case AddProblem(_) => true
    case Dispatch(sid) => sid in s.tables.submissions
    case ReportCase(run, _) => run in s.dispatched && run.sid in s.tables.submissions
    case ReportResult(run, status, _, _, _) => run in s.dispatched && run.sid in s.tables.submissions &&
      status >= ACCEPTED
    case UpdateRanking(report) => report in s.pending && Known(s, report)
    case Rejudge(sids) => sids <= s.tables.submissions.Keys
  }

  function WithRow(t: Tables, sid: Id, row: Submission): Tables {
    t.(submissions := t.submissions[sid := row])
  }

  predicate OnTime(t: Tables, row: Submission) {
    t.contest.finishTime > row.submitTime
  }

  predicate Mine(t: Tables, sid: Id, iid: Id, pid: Id) {
    sid in t.submissions && Belongs(t.submissions[sid], iid, pid)
  }

  predicate HasCell(t: Tables, iid: Id, pid: Id) {
    iid in t.rows && pid in t.rows[iid].problems
  }

  function CellOf(t: Tables, iid: Id, pid: Id): RankingCell
    requires HasCell(t, iid, pid)
  {
    t.rows[iid].problems[pid]
  }

  predicate Known(s: System, r: Report) {
    r.run.sid in s.tables.submissions
  }

  /** The report has a cell to go to. */
  predicate Ranks(s: System, r: Report)
    requires Known(s, r)
  {
    HasCell(s.tables, s.tables.submissions[r.run.sid].iid, s.tables.submissions[r.run.sid].pid)
  }

  /** The cell the handler offers to the ranking for a report. */
  function Offered(t: Tables, r: Report): RankingCell
    requires r.run.sid in t.submissions
  {
    RankingCell(true, r.run.sid, r.run.jid, t.submissions[r.run.sid].submitTime - t.contest.startTime, r.score, 0)
  }

  /** A report is stale when a newer run of its submission reached the ranking before. */
  predicate Stale(s: System, r: Report) {
    r.run.sid in s.delivered && r.run.jid < s.delivered[r.run.sid].run.jid
  }

  function Delivered(s: System, r: Report): map<Id, Report> {
    if Stale(s, r) then s.delivered else s.delivered[r.run.sid := r]
  }

  function Voided(s: System, r: Report): set<Id> {
    if Stale(s, r) then s.voided else s.voided - {r.run.sid}
  }

  ghost function Ranked(s: System, r: Report): System
    requires Known(s, r)
  {
    var row := s.tables.submissions[r.run.sid];
    var updated := RankingUpdate(s.tables, row.iid, row.pid, Offered(s.tables, r));
    s.(tables := if updated.Ok? then updated.value else s.tables,
       pending := s.pending - multiset{r},
       delivered := if HasCell(s.tables, row.iid, row.pid) then Delivered(s, r) else s.delivered,
       voided := if HasCell(s.tables, row.iid, row.pid) then Voided(s, r) else s.voided)
  }

  function MessageOf(step: Step): Message
    requires step.ReportCase? || step.ReportResult?
  {
    match step
    case ReportCase(run, result) => CaseMessage(run.jid, result)
    case ReportResult(run, status, score, time, mem) => ResultMessage(run.jid, status, score, time, mem)
  }

  ghost function Next(s: System, step: Step): System
    requires Enabled(s, step)
  {
    var t := s.tables;
    match step
    case Submit(sid, iid, pid, submitTime) =>
      s.(tables := WithRow(t, sid, NewSubmission(iid, pid, submitTime)))
    case Join(iid) => s.(tables := UserAdd(t, iid))
    case AddProblem(pid) => s.(tables := ProblemAdd(t, pid))
    case Dispatch(sid) =>
      s.(tables := WithRow(t, sid, Reserve(t.submissions[sid])),
         dispatched := s.dispatched + [Run(sid, t.submissions[sid].usedJid + 1)])
    case ReportCase(run, result) =>
      s.(tables := WithRow(t, run.sid, Apply(t.submissions[run.sid], MessageOf(step))))
    case ReportResult(run, status, score, time, mem) =>
      s.(tables := WithRow(t, run.sid, Apply(t.submissions[run.sid], MessageOf(step))),
         reported := s.reported[run := Verdict(status, score)],
         pending := if OnTime(t, t.submissions[run.sid]) then s.pending + multiset{Report(run, score)} else s.pending)
    case UpdateRanking(report) => Ranked(s, report)
    case Rejudge(sids) =>
      s.(tables := t.(submissions := map q | q in t.submissions ::
           if q in sids then Reset(t.submissions[q]) else t.submissions[q]),
         voided := s.voided + sids)
  }

  // ---------------------------------------------------------------- version invariant, every run

  /** Jids dispatched for a submission strictly increase, so no two runs share one. */
  ghost predicate FreshRuns(s: System) {
    && (forall i :: 0 <= i < |s.dispatched| ==> RunInRange(s, s.dispatched[i]))
    && (forall i, j :: 0 <= i < j < |s.dispatched| && s.dispatched[i].sid == s.dispatched[j].sid
          ==> s.dispatched[i].jid < s.dispatched[j].jid)
  }

  predicate RunInRange(s: System, run: Run) {
    run.sid in s.tables.submissions && 1 <= run.jid <= s.tables.submissions[run.sid].usedJid
  }

  /** A row never claims a run that was not dispatched, and holds only cases its own run reported. */
  ghost predicate RowVersions(s: System) {
    forall q :: q in s.tables.submissions ==> RowVersion(s.tables.submissions[q])
  }

  ghost predicate RowVersion(row: Submission) {
    row.jid <= row.usedJid && forall i :: 0 <= i < |row.cases| ==> row.cases[i].run == row.jid
  }

  /** A report belongs to an on-time submission, and the row has seen its run. */
  predicate Traceable(s: System, r: Report) {
    && r.run.sid in s.tables.submissions
    && OnTime(s.tables, s.tables.submissions[r.run.sid])
    && r.run.jid <= s.tables.submissions[r.run.sid].jid
    && r.run in s.reported
  }

  ghost predicate ReportsTraceable(s: System) {
    && (forall r :: r in s.pending ==> Traceable(s, r))
    && (forall q :: q in s.delivered ==>
          && s.delivered[q].run.sid == q && Traceable(s, s.delivered[q])
          && HasCell(s.tables, s.tables.submissions[q].iid, s.tables.submissions[q].pid))
  }

  /** Every row of the ranking has exactly the table's columns. */
  ghost predicate Shaped(t: Tables) {
    forall iid :: iid in t.rows ==> t.rows[iid].problems.Keys == t.columns
  }

  ghost predicate Valid(s: System) {
    FreshRuns(s) && RowVersions(s) && ReportsTraceable(s) && Shaped(s.tables)
  }

  lemma StartValid(contest: Contest)
    ensures Valid(Start(contest))
  {
  }

  /** What an update of one cell leaves alone, and what it puts there. */
  lemma RankingUpdateEffect(t: Tables, iid: Id, pid: Id, rc: RankingCell)
    ensures var u := RankingUpdate(t, iid, pid, rc);
      u.Ok? ==>
        && u.value.contest == t.contest && u.value.submissions == t.submissions && u.value.columns == t.columns
        && u.value.rows.Keys == t.rows.Keys
        && (forall i, p :: HasCell(u.value, i, p) <==> HasCell(t, i, p))
        && (forall i, p :: HasCell(t, i, p) && (i != iid || p != pid) ==> CellOf(u.value, i, p) == CellOf(t, i, p))
        && (HasCell(t, iid, pid) ==>
              match Choose(t, iid, pid, CellOf(t, iid, pid), rc)
              case Ignore => CellOf(u.value, iid, pid) == CellOf(t, iid, pid)
              case Refuse(_) => false
              case Put(cell) =>
                CellOf(u.value, iid, pid) == cell.(penalty := Penalty(t, iid, pid, cell.sid, cell.score)))
  {
  }

  // ---------------------------------------------------------------- preservation

  /** Nothing a report or a run refers to disappears, and versions only go up. */
  ghost predicate Grows(t: Tables, t': Tables) {
    && t'.contest == t.contest
    && (forall q :: q in t.submissions ==> q in t'.submissions && RowGrows(t.submissions[q], t'.submissions[q]))
    && (forall i, p :: HasCell(t, i, p) ==> HasCell(t', i, p))
  }

  ghost predicate RowGrows(row: Submission, row': Submission) {
    && row'.iid == row.iid && row'.pid == row.pid && row'.submitTime == row.submitTime
    && row'.usedJid >= row.usedJid && row'.jid >= row.jid
  }

  lemma ValidGrows(s: System, s': System)
    requires Valid(s) && Grows(s.tables, s'.tables)
    requires RowVersions(s') && Shaped(s'.tables)
    requires s'.dispatched == s.dispatched && s.reported.Keys <= s'.reported.Keys
    requires s'.delivered == s.delivered && forall r :: r in s'.pending ==> r in s.pending || Traceable(s', r)
    ensures Valid(s')
  {
    forall i | 0 <= i < |s.dispatched| ensures RunInRange(s', s.dispatched[i]) {
      assert RunInRange(s, s.dispatched[i]);
    }
    forall r | Traceable(s, r) ensures Traceable(s', r) {
    }
  }

  lemma RowVersionKept(row: Submission, m: Message)
    requires RowVersion(row) && m.jid <= row.usedJid
    ensures RowVersion(Apply(row, m)) && RowGrows(row, Apply(row, m)) && Apply(row, m).jid >= m.jid
  {
  }

  lemma ValidSubmit(s: System, step: Step)
    requires Valid(s) && Enabled(s, step) && (step.Submit? || step.Rejudge?)
    ensures Valid(Next(s, step))
  {
    ValidGrows(s, Next(s, step));
  }

  /** What every step but a ranking update leaves alone. */
  ghost predicate LeavesCells(s: System, s': System) {
    && Grows(s.tables, s'.tables) && s'.delivered == s.delivered && s.voided <= s'.voided
    && (forall i, p :: HasCell(s'.tables, i, p) && !HasCell(s.tables, i, p) ==> CellOf(s'.tables, i, p) == INVALID_CELL)
    && (forall i, p :: HasCell(s.tables, i, p) ==> CellOf(s'.tables, i, p) == CellOf(s.tables, i, p))
  }

  lemma JoinEffect(t: Tables, iid: Id)
    requires Shaped(t)
    ensures Shaped(UserAdd(t, iid)) && UserAdd(t, iid).submissions == t.submissions &&
      UserAdd(t, iid).contest == t.contest
    ensures forall i, p :: HasCell(t, i, p) ==>
      HasCell(UserAdd(t, iid), i, p) && CellOf(UserAdd(t, iid), i, p) == CellOf(t, i, p)
    ensures forall i, p :: HasCell(UserAdd(t, iid), i, p) && !HasCell(t, i, p) ==>
      CellOf(UserAdd(t, iid), i, p) == INVALID_CELL
  {
  }

  lemma AddProblemEffect(t: Tables, pid: Id)
    requires Shaped(t)
    ensures Shaped(ProblemAdd(t, pid)) && ProblemAdd(t, pid).submissions == t.submissions &&
      ProblemAdd(t, pid).contest == t.contest
    ensures forall i, p :: HasCell(t, i, p) ==>
      HasCell(ProblemAdd(t, pid), i, p) && CellOf(ProblemAdd(t, pid), i, p) == CellOf(t, i, p)
    ensures forall i, p :: HasCell(ProblemAdd(t, pid), i, p) && !HasCell(t, i, p) ==>
      CellOf(ProblemAdd(t, pid), i, p) == INVALID_CELL
  {
  }

  /** Joining and adding a problem touch neither submissions nor existing cells. */
  ghost predicate Widens(s: System, s': System) {
    && s' == s.(tables := s'.tables)
    && s'.tables.submissions == s.tables.submissions && s'.tables.contest == s.tables.contest
    && Shaped(s'.tables) && LeavesCells(s, s')
  }

  lemma StepWidens(s: System, step: Step)
    requires Shaped(s.tables) && (step.Join? || step.AddProblem?)
    ensures Widens(s, Next(s, step))
  {
    if step.Join? {
      JoinEffect(s.tables, step.iid);
    } else {
      AddProblemEffect(s.tables, step.pid);
    }
  }

  lemma ValidRanking(s: System, step: Step)
    requires Valid(s) && Enabled(s, step) && (step.Join? || step.AddProblem?)
    ensures Valid(Next(s, step))
  {
    StepWidens(s, step);
    ValidGrows(s, Next(s, step));
  }

  lemma RunRows(s: System, run: Run)
    requires FreshRuns(s) && run in s.dispatched
    ensures run.sid in s.tables.submissions && run.jid <= s.tables.submissions[run.sid].usedJid
  {
    var i :| 0 <= i < |s.dispatched| && s.dispatched[i] == run;
    assert RunInRange(s, s.dispatched[i]);
  }

  /** One row moves on; the rest of the tables is as before. */
  lemma RowMovesOn(t: Tables, sid: Id, row: Submission)
    requires sid in t.submissions && RowGrows(t.submissions[sid], row)
    ensures Grows(t, WithRow(t, sid, row))
    ensures WithRow(t, sid, row).rows == t.rows
  {
  }

  lemma ReportMovesOn(s: System, step: Step)
    requires Valid(s) && Enabled(s, step) && (step.ReportCase? || step.ReportResult?)
    ensures var row := s.tables.submissions[step.run.sid];
      && RowVersion(Apply(row, MessageOf(step))) && Apply(row, MessageOf(step)).jid >= step.run.jid
      && Next(s, step).tables == WithRow(s.tables, step.run.sid, Apply(row, MessageOf(step)))
      && Grows(s.tables, Next(s, step).tables) && Next(s, step).tables.rows == s.tables.rows
      && Next(s, step).delivered == s.delivered
  {
    RunRows(s, step.run);
    var row := s.tables.submissions[step.run.sid];
    assert RowVersion(row);
    RowVersionKept(row, MessageOf(step));
    RowMovesOn(s.tables, step.run.sid, Apply(row, MessageOf(step)));
  }

  lemma ValidReported(s: System, s': System, sid: Id, row: Submission)
    requires Valid(s) && sid in s.tables.submissions && RowVersion(row)
    requires s'.tables == WithRow(s.tables, sid, row) && Grows(s.tables, s'.tables)
    requires s'.dispatched == s.dispatched && s.reported.Keys <= s'.reported.Keys && s'.delivered == s.delivered
    requires forall r :: r in s'.pending ==> r in s.pending || Traceable(s', r)
    ensures Valid(s')
  {
    ValidGrows(s, s');
  }

  lemma ValidReport(s: System, step: Step)
    requires Valid(s) && Enabled(s, step) && (step.ReportCase? || step.ReportResult?)
    ensures Valid(Next(s, step))
  {
    ReportMovesOn(s, step);
    ValidReported(s, Next(s, step), step.run.sid, Apply(s.tables.submissions[step.run.sid], MessageOf(step)));
  }

  lemma ValidAnotherRun(s: System, s': System, run: Run)
    requires Valid(s) && RunInRange(s, run)
    requires forall i :: 0 <= i < |s.dispatched| && s.dispatched[i].sid == run.sid ==> s.dispatched[i].jid < run.jid
    requires s' == s.(dispatched := s.dispatched + [run])
    ensures Valid(s')
  {
    assert forall r :: Traceable(s, r) ==> Traceable(s', r);
    forall i | 0 <= i < |s'.dispatched| ensures RunInRange(s', s'.dispatched[i]) {
      assert i < |s.dispatched| ==> RunInRange(s, s.dispatched[i]);
    }
  }

  lemma ValidDispatch(s: System, step: Step)
    requires Valid(s) && Enabled(s, step) && step.Dispatch?
    ensures Valid(Next(s, step))
  {
    var reserved := s.(tables := Next(s, step).tables);
    ValidGrows(s, reserved);
    var run := Run(step.sid, s.tables.submissions[step.sid].usedJid + 1);
    forall i | 0 <= i < |s.dispatched| && s.dispatched[i].sid == run.sid ensures s.dispatched[i].jid < run.jid {
      assert RunInRange(s, s.dispatched[i]);
    }
    ValidAnotherRun(reserved, Next(s, step), run);
  }

  /** The cell a report leads to, when the update is not refused. */
  function CellAfter(s: System, r: Report): RankingCell
    requires Known(s, r)
    requires Ranks(s, r)
  {
    var t, row := s.tables, s.tables.submissions[r.run.sid];
    Updated(t, row.iid, row.pid, CellOf(t, row.iid, row.pid), Offered(t, r))
  }

  /** The cell that an update of this cell leads to; a refused update leaves it alone. */
  function Updated(t: Tables, iid: Id, pid: Id, cell: RankingCell, rc: RankingCell): RankingCell {
    match Choose(t, iid, pid, cell, rc)
    case Put(chosen) => chosen.(penalty := Penalty(t, iid, pid, chosen.sid, chosen.score))
    case _ => cell
  }

  /** The tables differ in one cell at most. */
  ghost predicate Touches(t: Tables, u: Tables, iid: Id, pid: Id) {
    && u.contest == t.contest && u.submissions == t.submissions
    && (forall i, p :: HasCell(u, i, p) <==> HasCell(t, i, p))
    && (forall i, p :: HasCell(t, i, p) && (i != iid || p != pid) ==> CellOf(u, i, p) == CellOf(t, i, p))
  }

  ghost predicate Rewrites(t: Tables, u: Tables, iid: Id, pid: Id, rc: RankingCell) {
    && Touches(t, u, iid, pid)
    && (HasCell(t, iid, pid) ==> CellOf(u, iid, pid) == Updated(t, iid, pid, CellOf(t, iid, pid), rc))
  }

  /** What an executed ranking update may change: one cell, and the bookkeeping of its report. */
  ghost predicate Updates(s: System, s': System, r: Report)
    requires Known(s, r)
  {
    && (var row := s.tables.submissions[r.run.sid];
        Rewrites(s.tables, s'.tables, row.iid, row.pid, Offered(s.tables, r)))
    && Shaped(s'.tables)
    && s'.dispatched == s.dispatched && s'.reported == s.reported
    && s'.pending == s.pending - multiset{r}
    && s'.delivered == (if Ranks(s, r) then Delivered(s, r) else s.delivered)
    && s'.voided == (if Ranks(s, r) then Voided(s, r) else s.voided)
  }

  lemma UpdateRewrites(t: Tables, iid: Id, pid: Id, rc: RankingCell)
    ensures var u := RankingUpdate(t, iid, pid, rc); Rewrites(t, if u.Ok? then u.value else t, iid, pid, rc)
  {
    RankingUpdateEffect(t, iid, pid, rc);
  }

  lemma RankedUpdates(s: System, r: Report)
    requires Known(s, r) && Shaped(s.tables)
    ensures Updates(s, Ranked(s, r), r)
  {
    hide Rewrites, Ranking.RankingUpdate;
    var row := s.tables.submissions[r.run.sid];
    UpdateRewrites(s.tables, row.iid, row.pid, Offered(s.tables, r));
    RankingUpdateShape(s.tables, row.iid, row.pid, Offered(s.tables, r));
  }

  lemma RunsUpdated(s: System, s': System, r: Report)
    requires FreshRuns(s) && Known(s, r) && Updates(s, s', r)
    ensures FreshRuns(s')
  {
    forall i | 0 <= i < |s.dispatched| ensures RunInRange(s', s.dispatched[i]) {
      assert RunInRange(s, s.dispatched[i]);
    }
  }

  lemma ReportsUpdated(s: System, s': System, r: Report)
    requires ReportsTraceable(s) && r in s.pending && Known(s, r) && Updates(s, s', r)
    ensures ReportsTraceable(s')
  {
    assert Traceable(s, r);
    assert forall q :: Traceable(s, q) ==> Traceable(s', q);
  }

  lemma ValidUpdate(s: System, s': System, r: Report)
    requires Valid(s) && r in s.pending && Known(s, r) && Updates(s, s', r)
    ensures Valid(s')
  {
    RunsUpdated(s, s', r);
    ReportsUpdated(s, s', r);
  }

  lemma RankingUpdateShape(t: Tables, iid: Id, pid: Id, rc: RankingCell)
    requires Shaped(t)
    ensures RankingUpdate(t, iid, pid, rc).Ok? ==> Shaped(RankingUpdate(t, iid, pid, rc).value)
  {
  }

  lemma ValidStep(s: System, step: Step)
    requires Valid(s) && Enabled(s, step)
    ensures Valid(Next(s, step))
  {
    match step
    case Submit(_, _, _, _) => ValidSubmit(s, step);
    case Rejudge(_) => ValidSubmit(s, step);
    case Join(_) => ValidRanking(s, step);
    case AddProblem(_) => ValidRanking(s, step);
    case ReportCase(_, _) => ValidReport(s, step);
    case ReportResult(_, _, _, _, _) => ValidReport(s, step);
    case Dispatch(_) => ValidDispatch(s, step);
    case UpdateRanking(r) =>
      assert Traceable(s, r);
      RankedUpdates(s, r);
      ValidUpdate(s, Ranked(s, r), r);
  }

  // ---------------------------------------------------------------- cells and delivered reports

  /**
   * `c` is the cell of a delivered report that is ahead of every other one: score descending, then sid ascending.
   * Reports of the submissions `v` need not be behind it.
   */
  ghost predicate Leads(t: Tables, d: map<Id, Report>, v: set<Id>, iid: Id, pid: Id, c: RankingCell) {
    && c.sid in d && Mine(t, c.sid, iid, pid)
    && c.jid == d[c.sid].run.jid && c.score == d[c.sid].score
    && c.time == t.submissions[c.sid].submitTime - t.contest.startTime
    && Ahead(t, d, v, iid, pid, c.sid, c.score)
  }

  ghost predicate Ahead(t: Tables, d: map<Id, Report>, v: set<Id>, iid: Id, pid: Id, sid: Id, score: int) {
    forall q :: q in d && q !in v && Mine(t, q, iid, pid) && q != sid ==> Before(score, sid, d[q].score, q)
  }

  ghost predicate AgreesWith(t: Tables, d: map<Id, Report>, v: set<Id>, iid: Id, pid: Id, c: RankingCell) {
    if c.valid then Leads(t, d, v, iid, pid, c)
    else c == INVALID_CELL && forall q :: q in d ==> !Mine(t, q, iid, pid)
  }

  /** The submissions whose delivered reports are not held against a cell: those reset since, if they are forgiven. */
  function Forgiven(v: set<Id>, forgive: bool): set<Id> {
    if forgive then v else {}
  }

  /** Every cell is the best of the reports delivered for it (not forgiven), or blank when there is none. */
  ghost predicate Agrees(s: System, forgive: bool) {
    forall iid, pid :: HasCell(s.tables, iid, pid) ==>
      AgreesWith(s.tables, s.delivered, Forgiven(s.voided, forgive), iid, pid, CellOf(s.tables, iid, pid))
  }

  /** The report is a newer run of the submission the cell holds, and scores less. */
  predicate Demotes(s: System, r: Report)
    requires Known(s, r)
  {
    var row := s.tables.submissions[r.run.sid];
    && HasCell(s.tables, row.iid, row.pid)
    && var c := CellOf(s.tables, row.iid, row.pid);
       c.valid && c.sid == r.run.sid && c.jid < r.run.jid && r.score < c.score
  }

  /** The newest report of `q` that was delivered is the one its row shows. */
  predicate Shows(t: Tables, d: map<Id, Report>, q: Id) {
    q in t.submissions && q in d && d[q].run.jid == t.submissions[q].jid && d[q].score == t.submissions[q].score
  }

  /**
   * The row `m` a demotion falls back on can take the cell: its current run was delivered, with just the score
   * of the new result, and no other delivered report is ahead of it.
   */
  ghost predicate FitsDemotion(s: System, r: Report, forgive: bool, iid: Id, pid: Id, m: Id)
    requires m in s.tables.submissions
  {
    var d := Delivered(s, r);
    && m in d && d[m].run.jid == s.tables.submissions[m].jid && d[m].score == r.score
    && Ahead(s.tables, d, Forgiven(Voided(s, r), forgive), iid, pid, m, r.score)
  }

  /**
   * What keeps an update from spoiling the cell: a stale report must not beat a cell that holds another
   * submission, a second result of the run the cell holds must repeat its score, and a demotion must fall back
   * on a fitting row.
   */
  ghost predicate Harmless(s: System, r: Report, forgive: bool)
    requires Known(s, r)
  {
    var row := s.tables.submissions[r.run.sid];
    HasCell(s.tables, row.iid, row.pid) ==>
      var c := CellOf(s.tables, row.iid, row.pid);
      && (Stale(s, r) && c.valid && c.sid != r.run.sid ==> !Before(r.score, r.run.sid, c.score, c.sid))
      && (c.valid && c.sid == r.run.sid && c.jid == r.run.jid ==> r.score == c.score)
      && (Demotes(s, r) ==>
            forall m :: IsFirst(s.tables.submissions, row.iid, row.pid, m) ==>
              FitsDemotion(s, r, forgive, row.iid, row.pid, m))
  }

  /** Agreement depends only on who delivered what: not on statuses, scores or cases of rows. */
  lemma AgreesElsewhere(s: System, s': System, forgive: bool)
    requires ReportsTraceable(s) && Agrees(s, forgive)
    requires LeavesCells(s, s')
    ensures Agrees(s', forgive)
  {
    forall q | q in s.delivered
      ensures q in s.tables.submissions && q in s'.tables.submissions
      ensures RowGrows(s.tables.submissions[q], s'.tables.submissions[q])
      ensures HasCell(s.tables, s.tables.submissions[q].iid, s.tables.submissions[q].pid)
    {
      assert Traceable(s, s.delivered[q]);
    }
    forall i, p | HasCell(s'.tables, i, p)
      ensures AgreesWith(s'.tables, s'.delivered, Forgiven(s'.voided, forgive), i, p, CellOf(s'.tables, i, p))
    {
      if HasCell(s.tables, i, p) {
        assert AgreesWith(s.tables, s.delivered, Forgiven(s.voided, forgive), i, p, CellOf(s.tables, i, p));
      }
    }
  }

  lemma RowsGrow(s: System, step: Step)
    requires Enabled(s, step) && (step.Submit? || step.Dispatch? || step.Rejudge?)
    ensures var s' := Next(s, step);
      && s'.tables == s.tables.(submissions := s'.tables.submissions)
      && s'.delivered == s.delivered && s.voided <= s'.voided
      && forall q :: q in s.tables.submissions ==>
           q in s'.tables.submissions && RowGrows(s.tables.submissions[q], s'.tables.submissions[q])
  {
  }

  lemma TableStepLeavesCells(s: System, step: Step)
    requires Valid(s) && Enabled(s, step) && (step.Submit? || step.Dispatch? || step.Rejudge?)
    ensures LeavesCells(s, Next(s, step))
  {
    RowsGrow(s, step);
    hide Enabled, Next, Valid, RowGrows;
  }

  lemma ReportStepLeavesCells(s: System, step: Step)
    requires Valid(s) && Enabled(s, step) && (step.ReportCase? || step.ReportResult?)
    ensures LeavesCells(s, Next(s, step))
  {
    ReportMovesOn(s, step);
  }

  lemma StepLeavesCells(s: System, step: Step)
    requires Valid(s) && Enabled(s, step) && !step.UpdateRanking?
    ensures LeavesCells(s, Next(s, step))
  {
    if step.Join? || step.AddProblem? {
      StepWidens(s, step);
    } else if step.ReportCase? || step.ReportResult? {
      ReportStepLeavesCells(s, step);
    } else {
      TableStepLeavesCells(s, step);
    }
  }

  lemma AgreesKept(s: System, step: Step, forgive: bool)
    requires Valid(s) && Enabled(s, step) && !step.UpdateRanking?
    requires Agrees(s, forgive)
    ensures Agrees(Next(s, step), forgive)
  {
    StepLeavesCells(s, step);
    AgreesElsewhere(s, Next(s, step), forgive);
  }

  /** The report is counted as delivered, and one cell of its problem may have changed. */
  ghost predicate Delivers(s: System, s': System, r: Report)
    requires Known(s, r)
  {
    && var row := s.tables.submissions[r.run.sid];
       Touches(s.tables, s'.tables, row.iid, row.pid) && s'.delivered == Delivered(s, r) && s'.voided == Voided(s, r)
  }

  lemma OtherCellKept(s: System, s': System, r: Report, forgive: bool, i: Id, p: Id)
    requires Agrees(s, forgive) && Known(s, r) && Delivers(s, s', r)
    requires HasCell(s.tables, i, p) && !Mine(s.tables, r.run.sid, i, p)
    ensures AgreesWith(s'.tables, s'.delivered, Forgiven(s'.voided, forgive), i, p, CellOf(s'.tables, i, p))
  {
    assert AgreesWith(s.tables, s.delivered, Forgiven(s.voided, forgive), i, p, CellOf(s.tables, i, p));
    assert forall q :: Mine(s.tables, q, i, p) ==>
      && (q in s'.delivered <==> q in s.delivered) && (q in s.delivered ==> s'.delivered[q] == s.delivered[q])
      && (q in s'.voided <==> q in s.voided);
  }

  lemma OnlyThatCell(s: System, s': System, r: Report, forgive: bool)
    requires Agrees(s, forgive) && Known(s, r) && Delivers(s, s', r) && Ranks(s, r)
    ensures var row := s.tables.submissions[r.run.sid];
      && HasCell(s'.tables, row.iid, row.pid)
      && (Agrees(s', forgive) <==>
            AgreesWith(s.tables, Delivered(s, r), Forgiven(Voided(s, r), forgive), row.iid, row.pid,
                       CellOf(s'.tables, row.iid, row.pid)))
  {
    var t, row := s.tables, s.tables.submissions[r.run.sid];
    forall i, p | HasCell(t, i, p) && (i != row.iid || p != row.pid)
      ensures AgreesWith(s'.tables, s'.delivered, Forgiven(s'.voided, forgive), i, p, CellOf(s'.tables, i, p))
    {
      OtherCellKept(s, s', r, forgive, i, p);
    }
    assert HasCell(s'.tables, row.iid, row.pid);
  }

  /** An update that does not demote: a fresh report, a stale one, or a second result of the same run. */
  lemma ChoiceExact(s: System, r: Report, forgive: bool, iid: Id, pid: Id)
    requires Known(s, r) && Mine(s.tables, r.run.sid, iid, pid) && HasCell(s.tables, iid, pid)
    requires r.run.sid in s.delivered ==> s.delivered[r.run.sid].run.sid == r.run.sid
    requires AgreesWith(s.tables, s.delivered, Forgiven(s.voided, forgive), iid, pid, CellOf(s.tables, iid, pid))
    requires !Demotes(s, r)
    ensures Harmless(s, r, forgive) <==>
      AgreesWith(s.tables, Delivered(s, r), Forgiven(Voided(s, r), forgive), iid, pid, CellAfter(s, r))
  {
  }

  /** A demoted cell is right exactly when the row it falls back on fits. */
  lemma DemotedExact(s: System, r: Report, forgive: bool, iid: Id, pid: Id)
    requires Known(s, r) && Mine(s.tables, r.run.sid, iid, pid) && Demotes(s, r)
    ensures Harmless(s, r, forgive) <==>
      AgreesWith(s.tables, Delivered(s, r), Forgiven(Voided(s, r), forgive), iid, pid, CellAfter(s, r))
  {
    var m := MaximumScore(s.tables.submissions, iid, pid);
    assert m.Some? && IsFirst(s.tables.submissions, iid, pid, m.value);
    assert forall m' :: IsFirst(s.tables.submissions, iid, pid, m') ==> m' == m.value;
    var c := CellOf(s.tables, iid, pid);
    assert r.run.sid in s.delivered ==> r.run.sid in Delivered(s, r);
  }

  lemma HarmlessExact(s: System, r: Report, forgive: bool)
    requires Valid(s) && Agrees(s, forgive) && r in s.pending && Known(s, r) && Ranks(s, r)
    ensures var row := s.tables.submissions[r.run.sid];
      Harmless(s, r, forgive) <==>
        AgreesWith(s.tables, Delivered(s, r), Forgiven(Voided(s, r), forgive), row.iid, row.pid, CellAfter(s, r))
    ensures Harmless(s, r, forgive) ==> CellAfter(s, r).valid
  {
    var t, row := s.tables, s.tables.submissions[r.run.sid];
    assert Mine(t, r.run.sid, row.iid, row.pid);
    assert AgreesWith(t, s.delivered, Forgiven(s.voided, forgive), row.iid, row.pid, CellOf(t, row.iid, row.pid));
    assert r.run.sid in Delivered(s, r);
    if Demotes(s, r) {
      DemotedExact(s, r, forgive, row.iid, row.pid);
    } else {
      ChoiceExact(s, r, forgive, row.iid, row.pid);
    }
  }

  /**
   * One ranking update, exactly: when the cells agree with the reports delivered before it, they agree with
   * those delivered after it if and only if the update is harmless. So it is for agreement with all delivered
   * reports, and for agreement that forgives those of submissions reset since.
   */
  lemma UpdateExact(s: System, r: Report, forgive: bool)
    requires Valid(s) && Agrees(s, forgive) && r in s.pending && Known(s, r)
    ensures Agrees(Next(s, UpdateRanking(r)), forgive) <==> Harmless(s, r, forgive)
  {
    var t, row := s.tables, s.tables.submissions[r.run.sid];
    RankedUpdates(s, r);
    if !HasCell(t, row.iid, row.pid) {
      assert Ranked(s, r).tables == t && Ranked(s, r).delivered == s.delivered && Ranked(s, r).voided == s.voided;
    } else {
      OnlyThatCell(s, Ranked(s, r), r, forgive);
      HarmlessExact(s, r, forgive);
    }
  }

  // ---------------------------------------------------------------- guards on the tables alone

  predicate Judged(t: Tables, q: Id) {
    q in t.submissions && t.submissions[q].status >= ACCEPTED
  }

  /** A row the ranking still waits for: nothing was delivered for it, or it was reset since. */
  predicate Awaited(s: System, r: Report, forgive: bool, q: Id) {
    q !in Delivered(s, r) || q in Forgiven(Voided(s, r), forgive)
  }

  /**
   * No other result of the problem is on its way: judged on-time rows show what was delivered, the others are
   * awaited.
   */
  ghost predicate Settled(s: System, r: Report, forgive: bool, iid: Id, pid: Id) {
    forall q :: Mine(s.tables, q, iid, pid) && OnTime(s.tables, s.tables.submissions[q]) ==>
      if Judged(s.tables, q) then Shows(s.tables, Delivered(s, r), q) else Awaited(s, r, forgive, q)
  }

  lemma DeliveredOnTime(s: System, r: Report)
    requires Valid(s) && r in s.pending
    ensures forall q :: q in Delivered(s, r) ==> q in s.tables.submissions && OnTime(s.tables, s.tables.submissions[q])
    ensures forall q :: q in Delivered(s, r) ==> Delivered(s, r)[q].run.sid == q
  {
    assert Traceable(s, r);
    assert forall q :: q in s.delivered ==> Traceable(s, s.delivered[q]);
  }

  /**
   * The table knows a stale result: its row has moved on to a newer run. It is just that when the row shows a
   * delivery.
   */
  lemma StaleByTable(s: System, r: Report)
    requires Valid(s) && r in s.pending
    ensures Known(s, r)
    ensures Stale(s, r) ==> s.tables.submissions[r.run.sid].jid > r.run.jid
    ensures Shows(s.tables, Delivered(s, r), r.run.sid) ==>
      (Stale(s, r) <==> s.tables.submissions[r.run.sid].jid > r.run.jid)
  {
    assert Traceable(s, r);
    assert r.run.sid in s.delivered ==> Traceable(s, s.delivered[r.run.sid]);
  }

  /** The row a demotion may fall back on: on time, judged, and no better than the new result. */
  predicate MayFallBack(t: Tables, m: Id, score: int) {
    Judged(t, m) && OnTime(t, t.submissions[m]) && t.submissions[m].score <= score
  }

  /**
   * The guard of a demotion in terms of the table alone: on time, judged, and no better than the new result. It is
   * exact when no other result is on its way, but for a row that was reset after its delivery, whose old result
   * the table no longer has.
   */
  lemma DemotionExact(s: System, r: Report, forgive: bool, iid: Id, pid: Id, m: Id)
    requires Valid(s) && r in s.pending && Known(s, r) && Mine(s.tables, r.run.sid, iid, pid)
    requires Demotes(s, r) && !Stale(s, r) && IsFirst(s.tables.submissions, iid, pid, m)
    requires Settled(s, r, forgive, iid, pid)
    requires m in Delivered(s, r) ==> Judged(s.tables, m)
    ensures Harmless(s, r, forgive) <==> MayFallBack(s.tables, m, r.score)
  {
    DeliveredOnTime(s, r);
    assert Shows(s.tables, Delivered(s, r), r.run.sid);
    FitsExact(s.tables, Delivered(s, r), Forgiven(Voided(s, r), forgive), iid, pid, m, r.run.sid, r.score);
    assert forall m' :: IsFirst(s.tables.submissions, iid, pid, m') ==> m' == m;
    assert Harmless(s, r, forgive) <==> FitsDemotion(s, r, forgive, iid, pid, m);
  }

  lemma FitsExact(t: Tables, d: map<Id, Report>, v: set<Id>, iid: Id, pid: Id, m: Id, sid: Id, score: int)
    requires IsFirst(t.submissions, iid, pid, m)
    requires Mine(t, sid, iid, pid) && t.submissions[sid].score == score
    requires forall q :: q in d ==> q in t.submissions && OnTime(t, t.submissions[q])
    requires forall q :: Mine(t, q, iid, pid) && OnTime(t, t.submissions[q]) ==>
      if Judged(t, q) then Shows(t, d, q) else q !in d || q in v
    requires m in d ==> Judged(t, m)
    ensures m in d && d[m].run.jid == t.submissions[m].jid && d[m].score == score && Ahead(t, d, v, iid, pid, m, score)
      <==> MayFallBack(t, m, score)
  {
    assert t.submissions[m].score >= score;
    assert Mine(t, m, iid, pid);
    if MayFallBack(t, m, score) {
      assert Shows(t, d, m);
      forall q | q in d && q !in v && Mine(t, q, iid, pid) && q != m ensures Before(score, m, d[q].score, q) {
        assert Shows(t, d, q);
      }
    } else if m in d {
      assert Shows(t, d, m);
    }
  }

  /** The guard of an update in terms of the tables alone. */
  ghost predicate Passes(t: Tables, r: Report)
    requires r.run.sid in t.submissions
  {
    var sid, row := r.run.sid, t.submissions[r.run.sid];
    HasCell(t, row.iid, row.pid) ==>
      var c := CellOf(t, row.iid, row.pid);
      && (row.jid > r.run.jid && c.valid && c.sid != sid ==> !Before(r.score, sid, c.score, c.sid))
      && (c.valid && c.sid == sid && c.jid == r.run.jid ==> r.score == c.score)
      && (c.valid && c.sid == sid && c.jid < r.run.jid && r.score < c.score ==>
            forall m :: IsFirst(t.submissions, row.iid, row.pid, m) ==> MayFallBack(t, m, r.score))
  }

  /** The row that the query may return is not one reset after its delivery. */
  ghost predicate NoneReset(s: System, r: Report, iid: Id, pid: Id) {
    forall m :: IsFirst(s.tables.submissions, iid, pid, m) && m in Delivered(s, r) ==> Judged(s.tables, m)
  }

  /** Then the table knows a stale result exactly. */
  lemma StaleExact(s: System, r: Report, forgive: bool)
    requires Valid(s) && r in s.pending && Known(s, r)
    requires var row := s.tables.submissions[r.run.sid]; Settled(s, r, forgive, row.iid, row.pid)
    ensures Stale(s, r) <==> s.tables.submissions[r.run.sid].jid > r.run.jid
  {
    var row := s.tables.submissions[r.run.sid];
    StaleByTable(s, r);
    DeliveredOnTime(s, r);
    assert Mine(s.tables, r.run.sid, row.iid, row.pid);
    if !Stale(s, r) {
      assert Shows(s.tables, Delivered(s, r), r.run.sid);
    }
  }

  lemma HarmlessPasses(s: System, r: Report, forgive: bool)
    requires Valid(s) && Agrees(s, forgive) && r in s.pending && Known(s, r) && Ranks(s, r)
    requires var row := s.tables.submissions[r.run.sid];
      Settled(s, r, forgive, row.iid, row.pid) && (forgive ==> NoneReset(s, r, row.iid, row.pid))
    ensures Harmless(s, r, forgive) <==> Passes(s.tables, r)
  {
    var row := s.tables.submissions[r.run.sid];
    var c := CellOf(s.tables, row.iid, row.pid);
    StaleExact(s, r, forgive);
    DeliveredOnTime(s, r);
    assert AgreesWith(s.tables, s.delivered, Forgiven(s.voided, forgive), row.iid, row.pid, c);
    if Demotes(s, r) {
      assert !Stale(s, r);
      var m := MaximumScore(s.tables.submissions, row.iid, row.pid);
      assert Mine(s.tables, r.run.sid, row.iid, row.pid);
      assert m.Some? && IsFirst(s.tables.submissions, row.iid, row.pid, m.value);
      assert forall m' :: IsFirst(s.tables.submissions, row.iid, row.pid, m') ==> m' == m.value;
      DemotionExact(s, r, forgive, row.iid, row.pid, m.value);
    }
  }

  /**
   * Without a demotion, in every valid state, whatever is on its way: an update that passes keeps the cells in
   * agreement; and only such an update does, if the row has not moved on or a newer run was delivered.
   */
  lemma ChoiceGuardExact(s: System, r: Report, forgive: bool)
    requires Valid(s) && Agrees(s, forgive) && r in s.pending && Known(s, r) && !Demotes(s, r)
    ensures Passes(s.tables, r) ==> Agrees(Next(s, UpdateRanking(r)), forgive)
    ensures Stale(s, r) || s.tables.submissions[r.run.sid].jid <= r.run.jid ==>
      (Agrees(Next(s, UpdateRanking(r)), forgive) <==> Passes(s.tables, r))
  {
    UpdateExact(s, r, forgive);
    StaleByTable(s, r);
  }

  /**
   * One ranking update, exactly, by what the handler can look up before it makes it: when no other result of the
   * problem is on its way, the cells agree afterwards if and only if the guard passes.
   */
  lemma GuardExact(s: System, r: Report, forgive: bool)
    requires Valid(s) && Agrees(s, forgive) && r in s.pending && Known(s, r)
    requires var row := s.tables.submissions[r.run.sid];
      Settled(s, r, forgive, row.iid, row.pid) && (forgive ==> NoneReset(s, r, row.iid, row.pid))
    ensures Agrees(Next(s, UpdateRanking(r)), forgive) <==> Passes(s.tables, r)
  {
    UpdateExact(s, r, forgive);
    if Ranks(s, r) {
      HarmlessPasses(s, r, forgive);
    }
  }
}
