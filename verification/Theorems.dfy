/** What the pipeline guarantees over whole runs. */
module Theorems {
  import opened Types
  import opened Submissions
  import opened Ranking
  import opened Pipeline
  import opened Agreement

  // ---------------------------------------------------------------- versions

  lemma GrowsStep(s: System, step: Step)
    requires Valid(s) && Enabled(s, step)
    ensures Grows(s.tables, Next(s, step).tables)
  {
    if step.UpdateRanking? {
      assert Traceable(s, step.report);
      RankedUpdates(s, step.report);
    } else {
      StepLeavesCells(s, step);
    }
  }

  lemma GrowsTransitive(t: Tables, u: Tables, v: Tables)
    requires Grows(t, u) && Grows(u, v)
    ensures Grows(t, v)
  {
    forall q | q in t.submissions ensures q in v.submissions && RowGrows(t.submissions[q], v.submissions[q]) {
      assert RowGrows(t.submissions[q], u.submissions[q]) && RowGrows(u.submissions[q], v.submissions[q]);
    }
  }

  lemma {:induction false} GrowsRun(s: System, steps: seq<Step>)
    requires Valid(s) && Runs(s, steps)
    ensures Grows(s.tables, After(s, steps).tables)
    decreases |steps|
  {
    if steps != [] {
      ValidStep(s, steps[0]);
      GrowsStep(s, steps[0]);
      GrowsRun(Next(s, steps[0]), steps[1..]);
      GrowsTransitive(s.tables, Next(s, steps[0]).tables, After(s, steps).tables);
    }
  }

  /**
   * In every run, with any number of dispatchers: the jids dispatched for a submission strictly increase, stored
   * jids only grow and never pass the used jid, and a row holds cases of its own run only.
   */
  lemma Versions(contest: Contest, steps: seq<Step>, more: seq<Step>)
    requires Runs(Start(contest), steps)
    requires Runs(After(Start(contest), steps), more)
    ensures var s, s' := After(Start(contest), steps), After(After(Start(contest), steps), more);
      && (forall i, j :: 0 <= i < j < |s.dispatched| && s.dispatched[i].sid == s.dispatched[j].sid
            ==> s.dispatched[i].jid < s.dispatched[j].jid)
      && (forall q :: q in s.tables.submissions ==>
            && q in s'.tables.submissions
            && s.tables.submissions[q].jid <= s'.tables.submissions[q].jid <= s'.tables.submissions[q].usedJid
            && forall i :: 0 <= i < |s'.tables.submissions[q].cases| ==>
                 s'.tables.submissions[q].cases[i].run == s'.tables.submissions[q].jid)
  {
    var s := After(Start(contest), steps);
    ValidRun(Start(contest), steps);
    ValidRun(s, more);
    GrowsRun(s, more);
    assert forall q :: q in s.tables.submissions ==>
      RowGrows(s.tables.submissions[q], After(s, more).tables.submissions[q]);
    assert forall q :: q in After(s, more).tables.submissions ==> RowVersion(After(s, more).tables.submissions[q]);
  }

  // ---------------------------------------------------------------- folded columns

  lemma FoldsStep(s: System, step: Step)
    requires Enabled(s, step) && Folds(s.tables)
    ensures Folds(Next(s, step).tables)
  {
    match step
    case Join(iid) => UserAddFolds(s.tables, iid);
    case AddProblem(pid) => ProblemAddFolds(s.tables, pid);
    case UpdateRanking(r) =>
      var row := s.tables.submissions[r.run.sid];
      RankingUpdateFolds(s.tables, row.iid, row.pid, Offered(s.tables, r));
    case _ =>
      assert Next(s, step).tables.rows == s.tables.rows && Next(s, step).tables.columns == s.tables.columns;
      assert Next(s, step).tables.contest == s.tables.contest;
  }

  /** In every run the folded columns of every ranking row are those of its problem cells. */
  lemma {:induction false} FoldsRun(s: System, steps: seq<Step>)
    requires Runs(s, steps) && Folds(s.tables)
    ensures Folds(After(s, steps).tables)
    decreases |steps|
  {
    if steps != [] {
      FoldsStep(s, steps[0]);
      FoldsRun(Next(s, steps[0]), steps[1..]);
    }
  }

  // ---------------------------------------------------------------- cells agree with deliveries

  ghost predicate HarmlessRun(s: System, steps: seq<Step>, forgive: bool)
    requires Runs(s, steps)
    decreases |steps|
  {
    steps != [] ==>
      && (steps[0].UpdateRanking? ==> Harmless(s, steps[0].report, forgive))
      && HarmlessRun(Next(s, steps[0]), steps[1..], forgive)
  }

  ghost predicate AgreesThroughout(s: System, steps: seq<Step>, forgive: bool)
    requires Runs(s, steps)
    decreases |steps|
  {
    Agrees(s, forgive) && (steps != [] ==> AgreesThroughout(Next(s, steps[0]), steps[1..], forgive))
  }

  lemma AgreesStep(s: System, step: Step, forgive: bool)
    requires Valid(s) && Enabled(s, step) && Agrees(s, forgive)
    ensures Agrees(Next(s, step), forgive) <==> (step.UpdateRanking? ==> Harmless(s, step.report, forgive))
  {
    if step.UpdateRanking? {
      UpdateExact(s, step.report, forgive);
    } else {
      AgreesKept(s, step, forgive);
    }
  }

  /**
   * Along any run the cells hold the best of the delivered reports, in every state, if and only if every ranking
   * update is harmless: with all delivered reports counted, or with those of submissions reset since forgiven.
   */
  lemma {:induction false} AgreementExact(s: System, steps: seq<Step>, forgive: bool)
    requires Valid(s) && Runs(s, steps) && Agrees(s, forgive)
    ensures AgreesThroughout(s, steps, forgive) <==> HarmlessRun(s, steps, forgive)
    decreases |steps|
  {
    if steps != [] {
      ValidStep(s, steps[0]);
      AgreesStep(s, steps[0], forgive);
      if Agrees(Next(s, steps[0]), forgive) {
        AgreementExact(Next(s, steps[0]), steps[1..], forgive);
      }
    }
  }

  /** A result in order: of a newer run than its submission delivered before, or the same result once more. */
  predicate InOrder(s: System, r: Report) {
    r.run.sid in s.delivered ==>
      var d := s.delivered[r.run.sid];
      d.run.jid < r.run.jid || (d.run.jid == r.run.jid && d.score == r.score)
  }

  /** Of every submission the results reach the ranking in jid order, and no rejudge lowers the score the cell holds. */
  ghost predicate InJidOrder(s: System, steps: seq<Step>)
    requires Runs(s, steps)
    decreases |steps|
  {
    steps != [] ==>
      && (steps[0].UpdateRanking? ==> InOrder(s, steps[0].report) && !Demotes(s, steps[0].report))
      && InJidOrder(Next(s, steps[0]), steps[1..])
  }

  lemma InOrderHarmless(s: System, r: Report, forgive: bool)
    requires Agrees(s, forgive) && Known(s, r) && InOrder(s, r) && !Demotes(s, r)
    ensures Harmless(s, r, forgive)
  {
    var row := s.tables.submissions[r.run.sid];
    assert Ranks(s, r) ==>
      AgreesWith(s.tables, s.delivered, Forgiven(s.voided, forgive), row.iid, row.pid,
                 CellOf(s.tables, row.iid, row.pid));
  }

  /** Then every cell is the best delivered report, whatever the order of arrival. */
  lemma {:induction false} JidOrderAgrees(s: System, steps: seq<Step>)
    requires Valid(s) && Agrees(s, false) && Runs(s, steps) && InJidOrder(s, steps)
    ensures Agrees(After(s, steps), false)
    decreases |steps|
  {
    if steps != [] {
      ValidStep(s, steps[0]);
      if steps[0].UpdateRanking? {
        InOrderHarmless(s, steps[0].report, false);
      }
      AgreesStep(s, steps[0], false);
      JidOrderAgrees(Next(s, steps[0]), steps[1..]);
    }
  }

  /** Two cells that agree with the same deliveries differ at most in their penalties. */
  lemma SameBest(t: Tables, t': Tables, d: map<Id, Report>, iid: Id, pid: Id, c: RankingCell, c': RankingCell)
    requires SameSubmissions(t, t') && AgreesWith(t, d, {}, iid, pid, c) && AgreesWith(t', d, {}, iid, pid, c')
    ensures c' == c.(penalty := c'.penalty)
  {
    assert forall q :: Mine(t, q, iid, pid) <==> Mine(t', q, iid, pid);
    assert c.valid && c'.valid ==> c'.sid == c.sid;
  }

  /**
   * Two runs that delivered the same reports, each in jid order and without demotions but otherwise in any
   * order, hold the same submission, run, time and score in every cell, at any moment.
   */
  lemma JidOrderConfluence(contest: Contest, steps: seq<Step>, steps': seq<Step>, iid: Id, pid: Id)
    requires Runs(Start(contest), steps) && InJidOrder(Start(contest), steps)
    requires Runs(Start(contest), steps') && InJidOrder(Start(contest), steps')
    requires var s, s' := After(Start(contest), steps), After(Start(contest), steps');
      && s.delivered == s'.delivered && SameSubmissions(s.tables, s'.tables)
      && HasCell(s.tables, iid, pid) && HasCell(s'.tables, iid, pid)
    ensures var c, c' := CellOf(After(Start(contest), steps).tables, iid, pid),
      CellOf(After(Start(contest), steps').tables, iid, pid);
      c' == c.(penalty := c'.penalty)
  {
    var s, s' := After(Start(contest), steps), After(Start(contest), steps');
    StartValid(contest);
    JidOrderAgrees(Start(contest), steps);
    JidOrderAgrees(Start(contest), steps');
    SameBest(s.tables, s'.tables, s.delivered, iid, pid, CellOf(s.tables, iid, pid), CellOf(s'.tables, iid, pid));
  }

  // ---------------------------------------------------------------- the ranking is a view

  predicate OnTimeMine(t: Tables, q: Id, iid: Id, pid: Id) {
    && q in t.submissions && t.submissions[q].iid == iid && t.submissions[q].pid == pid
    && t.submissions[q].submitTime < t.contest.finishTime
  }

  /**
   * The wrong submissions of the participant to the problem, before the cell's own or, if it scores nothing, up to
   * it.
   */
  function WrongBefore(t: Tables, iid: Id, pid: Id, sid: Id, score: int): set<Id> {
    set q | q in t.submissions && OnTimeMine(t, q, iid, pid)
            && (t.submissions[q].status == WRONG_ANSWER || t.submissions[q].status == TIME_LIMIT_EXCEEDED ||
                t.submissions[q].status == MEMORY_LIMIT_EXCEEDED || t.submissions[q].status == RUNTIME_ERROR)
            && (q < sid || (q == sid && score <= 0))
  }

  /** The cell a batch query over the submissions table gives: best on-time row and its penalty. */
  ghost predicate IsBatchCell(t: Tables, iid: Id, pid: Id, c: RankingCell) {
    if !c.valid then c == INVALID_CELL && forall q :: !OnTimeMine(t, q, iid, pid)
    else
      && OnTimeMine(t, c.sid, iid, pid)
      && (var row := t.submissions[c.sid];
          && c == RankingCell(true, c.sid, row.jid, row.submitTime - t.contest.startTime, row.score,
                              |WrongBefore(t, iid, pid, c.sid, row.score)|)
          && forall q: Id :: OnTimeMine(t, q, iid, pid) && q != c.sid ==>
            row.score > t.submissions[q].score || (row.score == t.submissions[q].score && c.sid < q))
  }

  lemma PenaltyCountsWrong(t: Tables, iid: Id, pid: Id, sid: Id, score: int)
    requires Ordered(t) && OnTimeMine(t, sid, iid, pid)
    ensures Penalty(t, iid, pid, sid, score) == |WrongBefore(t, iid, pid, sid, score)|
  {
    var bound := if score > 0 then sid - 1 else sid;
    assert forall q :: q in t.submissions && q <= bound ==> OnTime(t, t.submissions[q]);
    assert CountedForPenalty(t.submissions, iid, pid, bound, false) == WrongBefore(t, iid, pid, sid, score);
  }

  /** At rest, every on-time row shows what was delivered, and was not reset since. */
  lemma RestsCurrent(s: System, iid: Id, pid: Id)
    requires Covered(s) && Quiescent(s, iid, pid)
    ensures forall q :: OnTimeMine(s.tables, q, iid, pid) ==> Current(s, q)
  {
    forall q | OnTimeMine(s.tables, q, iid, pid) ensures Current(s, q) {
      assert !InFlight(s, q);
      assert ReportOf(s.tables, q).run == Run(q, s.tables.submissions[q].jid);
    }
  }

  /** At rest, a cell of a sound state is the batch cell. */
  lemma CellIsBatch(s: System, iid: Id, pid: Id)
    requires Sound(s) && HasCell(s.tables, iid, pid) && Quiescent(s, iid, pid)
    ensures IsBatchCell(s.tables, iid, pid, CellOf(s.tables, iid, pid))
  {
    hide Penalty, IsBatchCell, WrongBefore;
    var t, c := s.tables, CellOf(s.tables, iid, pid);
    assert AgreesWith(t, s.delivered, s.voided, iid, pid, c);
    RestsCurrent(s, iid, pid);
    if c.valid {
      assert Traceable(s, s.delivered[c.sid]);
      PenaltyCountsWrong(t, iid, pid, c.sid, c.score);
    }
    BatchOfDelivered(t, s.delivered, s.voided, iid, pid, c);
  }

  /** When every on-time row shows what was delivered, the best delivered report is the best row. */
  lemma BatchOfDelivered(t: Tables, d: map<Id, Report>, v: set<Id>, iid: Id, pid: Id, c: RankingCell)
    requires AgreesWith(t, d, v, iid, pid, c)
    requires forall q :: OnTimeMine(t, q, iid, pid) ==> Shows(t, d, q) && q !in v
    requires c.valid ==>
      OnTimeMine(t, c.sid, iid, pid) && c.penalty == |WrongBefore(t, iid, pid, c.sid, c.score)|
    ensures IsBatchCell(t, iid, pid, c)
  {
  }

  lemma BatchUnique(t: Tables, iid: Id, pid: Id, c: RankingCell, c': RankingCell)
    requires IsBatchCell(t, iid, pid, c) && IsBatchCell(t, iid, pid, c')
    ensures c == c'
  {
  }

  /**
   * After every careful run, each cell whose submissions are at rest is what a batch query over the
   * submissions table gives, and the row around it is folded from its cells.
   */
  lemma RankingIsView(contest: Contest, steps: seq<Step>, iid: Id, pid: Id)
    requires Runs(Start(contest), steps) && CarefulRun(Start(contest), steps)
    requires var s := After(Start(contest), steps); HasCell(s.tables, iid, pid) && Quiescent(s, iid, pid)
    ensures var t := After(Start(contest), steps).tables;
      && IsBatchCell(t, iid, pid, CellOf(t, iid, pid))
      && t.rows[iid] == Folded(t.contest, t.rows[iid].problems)
  {
    StartSound(contest);
    SoundRun(Start(contest), steps);
    FoldsRun(Start(contest), steps);
    CellIsBatch(After(Start(contest), steps), iid, pid);
  }

  ghost predicate OrderlyRun(s: System, steps: seq<Step>)
    requires Runs(s, steps)
    decreases |steps|
  {
    steps != [] ==> Orderly(s, steps[0]) && OrderlyRun(Next(s, steps[0]), steps[1..])
  }

  /** An orderly run in jid order and without demotions is careful. */
  lemma {:induction false} JidOrderCareful(s: System, steps: seq<Step>)
    requires Valid(s) && Agrees(s, true) && Runs(s, steps) && InJidOrder(s, steps) && OrderlyRun(s, steps)
    ensures CarefulRun(s, steps)
    decreases |steps|
  {
    if steps != [] {
      ValidStep(s, steps[0]);
      if steps[0].UpdateRanking? {
        InOrderHarmless(s, steps[0].report, true);
      }
      AgreesStep(s, steps[0], true);
      JidOrderCareful(Next(s, steps[0]), steps[1..]);
    }
  }

  /** So its cells at rest are the batch cells, penalties included. */
  lemma JidOrderView(contest: Contest, steps: seq<Step>, iid: Id, pid: Id)
    requires Runs(Start(contest), steps) && InJidOrder(Start(contest), steps) && OrderlyRun(Start(contest), steps)
    requires var s := After(Start(contest), steps); HasCell(s.tables, iid, pid) && Quiescent(s, iid, pid)
    ensures var t := After(Start(contest), steps).tables;
      && IsBatchCell(t, iid, pid, CellOf(t, iid, pid))
      && t.rows[iid] == Folded(t.contest, t.rows[iid].problems)
  {
    StartValid(contest);
    JidOrderCareful(Start(contest), steps);
    RankingIsView(contest, steps, iid, pid);
  }

  // ---------------------------------------------------------------- confluence

  predicate SameSubmission(row: Submission, row': Submission) {
    row'.iid == row.iid && row'.pid == row.pid && row'.submitTime == row.submitTime
  }

  ghost predicate SameSubmissions(t: Tables, t': Tables) {
    && t'.contest == t.contest && t'.submissions.Keys == t.submissions.Keys
    && forall q :: q in t.submissions ==> SameSubmission(t.submissions[q], t'.submissions[q])
  }

  /** The newest reported run decides what a judged row shows. */
  lemma SameResult(s: System, s': System, q: Id)
    requires Attested(s) && Attested(s') && s.reported == s'.reported
    requires q in s.tables.submissions && q in s'.tables.submissions
    requires s.tables.submissions[q].status >= ACCEPTED && s'.tables.submissions[q].status >= ACCEPTED
    ensures s'.tables.submissions[q].jid == s.tables.submissions[q].jid
    ensures s'.tables.submissions[q].status == s.tables.submissions[q].status
    ensures s'.tables.submissions[q].score == s.tables.submissions[q].score
  {
    assert ShowsResult(s, q) && ShowsResult(s', q);
  }

  lemma BatchTransfers(s: System, s': System, iid: Id, pid: Id, c: RankingCell)
    requires Attested(s) && Attested(s') && s.reported == s'.reported && SameSubmissions(s.tables, s'.tables)
    requires Quiescent(s, iid, pid) && Quiescent(s', iid, pid)
    requires IsBatchCell(s.tables, iid, pid, c)
    ensures IsBatchCell(s'.tables, iid, pid, c)
  {
    var t, t' := s.tables, s'.tables;
    forall q: Id
      ensures OnTimeMine(t', q, iid, pid) <==> OnTimeMine(t, q, iid, pid)
      ensures OnTimeMine(t, q, iid, pid) ==>
        && t'.submissions[q].jid == t.submissions[q].jid && t'.submissions[q].status == t.submissions[q].status
        && t'.submissions[q].score == t.submissions[q].score &&
          t'.submissions[q].submitTime == t.submissions[q].submitTime
    {
      if q in t.submissions {
        assert SameSubmission(t.submissions[q], t'.submissions[q]);
        if OnTimeMine(t, q, iid, pid) {
          assert !InFlight(s, q) && !InFlight(s', q);
          SameResult(s, s', q);
        }
      }
    }
    if c.valid {
      assert WrongBefore(t', iid, pid, c.sid, t.submissions[c.sid].score) ==
        WrongBefore(t, iid, pid, c.sid, t.submissions[c.sid].score);
    }
  }

  lemma SameCell(s: System, s': System, iid: Id, pid: Id)
    requires Sound(s) && Sound(s') && s.reported == s'.reported && SameSubmissions(s.tables, s'.tables)
    requires HasCell(s.tables, iid, pid) && HasCell(s'.tables, iid, pid)
    requires Quiescent(s, iid, pid) && Quiescent(s', iid, pid)
    ensures CellOf(s'.tables, iid, pid) == CellOf(s.tables, iid, pid)
  {
    CellIsBatch(s, iid, pid);
    CellIsBatch(s', iid, pid);
    BatchTransfers(s, s', iid, pid, CellOf(s.tables, iid, pid));
    BatchUnique(s'.tables, iid, pid, CellOf(s.tables, iid, pid), CellOf(s'.tables, iid, pid));
  }

  lemma SameProblems(t: Tables, t': Tables, iid: Id)
    requires iid in t.rows && iid in t'.rows
    requires t.rows[iid].problems.Keys == t'.rows[iid].problems.Keys == t.columns
    requires forall pid :: pid in t.columns ==> CellOf(t', iid, pid) == CellOf(t, iid, pid)
    ensures t'.rows[iid].problems == t.rows[iid].problems
  {
    assert forall pid :: pid in t.rows[iid].problems ==> t'.rows[iid].problems[pid] == CellOf(t', iid, pid);
  }

  lemma SameRow(s: System, s': System, iid: Id)
    requires Sound(s) && Sound(s') && Folds(s.tables) && Folds(s'.tables)
    requires s.reported == s'.reported && SameSubmissions(s.tables, s'.tables)
    requires s.tables.columns == s'.tables.columns && iid in s.tables.rows && iid in s'.tables.rows
    requires forall pid :: pid in s.tables.columns ==> Quiescent(s, iid, pid) && Quiescent(s', iid, pid)
    ensures s'.tables.rows[iid] == s.tables.rows[iid]
  {
    forall pid | pid in s.tables.columns
      ensures HasCell(s.tables, iid, pid) && HasCell(s'.tables, iid, pid)
      ensures CellOf(s'.tables, iid, pid) == CellOf(s.tables, iid, pid)
    {
      assert s.tables.rows[iid].problems.Keys == s.tables.columns;
      assert s'.tables.rows[iid].problems.Keys == s'.tables.columns;
      SameCell(s, s', iid, pid);
    }
    SameProblems(s.tables, s'.tables, iid);
  }

  /**
   * Order does not matter: two careful runs over the same submissions whose workers reported the same
   * results leave a participant at rest with the same ranking row, folded columns included, however
   * the deliveries, the two transactions of each delivery and the other steps were interleaved.
   */
  lemma Confluence(contest: Contest, steps: seq<Step>, steps': seq<Step>, iid: Id)
    requires Runs(Start(contest), steps) && CarefulRun(Start(contest), steps)
    requires Runs(Start(contest), steps') && CarefulRun(Start(contest), steps')
    requires var s, s' := After(Start(contest), steps), After(Start(contest), steps');
      && s.reported == s'.reported && SameSubmissions(s.tables, s'.tables)
      && s.tables.columns == s'.tables.columns && iid in s.tables.rows && iid in s'.tables.rows
      && forall pid :: pid in s.tables.columns ==> Quiescent(s, iid, pid) && Quiescent(s', iid, pid)
    ensures After(Start(contest), steps').tables.rows[iid] == After(Start(contest), steps).tables.rows[iid]
  {
    var s, s' := After(Start(contest), steps), After(Start(contest), steps');
    StartSound(contest);
    SoundRun(Start(contest), steps);
    SoundRun(Start(contest), steps');
    FoldsRun(Start(contest), steps);
    FoldsRun(Start(contest), steps');
    SameRow(s, s', iid);
  }
}
