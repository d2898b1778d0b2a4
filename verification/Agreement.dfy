/** When nothing is in flight, the ranking is a view of the submissions table. */
module Agreement {
  import opened Types
  import opened Submissions
  import opened Ranking
  import opened Pipeline

  // ---------------------------------------------------------------- the conditions on a run

  /** Wrong Answer up to Runtime Error: the statuses that count for the penalty. */
  predicate Wrong(status: Status) {
    WRONG_ANSWER <= status <= RUNTIME_ERROR
  }

  /**
   * A second result of a run repeats what matters of the first. If its status counts for the penalty, it comes while
   * the row still shows that or a newer run; a refusal may come at any time.
   */
  predicate Repeats(s: System, run: Run, status: Status, score: int)
    requires run in s.reported && run.sid in s.tables.submissions
  {
    var row := s.tables.submissions[run.sid];
    && score == s.reported[run].score && (Wrong(status) <==> Wrong(s.reported[run].status))
    && (row.jid > run.jid || row.status >= ACCEPTED || !Wrong(status))
  }

  /**
   * Submissions are numbered in the order of their submit times, a run that reports again repeats itself, and a
   * ranking update finds its cell.
   */
  ghost predicate Orderly(s: System, step: Step)
    requires Enabled(s, step)
  {
    match step
    case Submit(_, _, _, submitTime) =>
      forall q :: q in s.tables.submissions ==> s.tables.submissions[q].submitTime <= submitTime
    case ReportResult(run, status, score, _, _) => run in s.reported ==> Repeats(s, run, status, score)
    case UpdateRanking(r) => Ranks(s, r)
    case _ => true
  }

  /** What the theorems ask of a run: orderly and harmless steps; reports of submissions reset since are forgiven. */
  ghost predicate Careful(s: System, step: Step)
    requires Enabled(s, step)
  {
    Orderly(s, step) && (step.UpdateRanking? ==> Harmless(s, step.report, true))
  }

  // ---------------------------------------------------------------- invariants of careful runs

  ghost predicate Ordered(t: Tables) {
    forall q, q' :: q in t.submissions && q' in t.submissions && q < q'
      ==> t.submissions[q].submitTime <= t.submissions[q'].submitTime
  }

  predicate Told(s: System, r: Report) {
    r.run in s.reported && s.reported[r.run].score == r.score
  }

  /** All reports of a run on their way to the ranking, or there, carry the same score. */
  ghost predicate ScoresTold(s: System) {
    && (forall r :: r in s.pending ==> Told(s, r))
    && (forall q :: q in s.delivered ==> Told(s, s.delivered[q]))
  }

  /** The report that the row of `q` stands for. */
  function ReportOf(t: Tables, q: Id): Report
    requires q in t.submissions
  {
    Report(Run(q, t.submissions[q].jid), t.submissions[q].score)
  }

  /** The row's result has reached the ranking, and the row was not reset since. */
  predicate Current(s: System, q: Id) {
    Shows(s.tables, s.delivered, q) && q !in s.voided
  }

  /** A judged on-time row has been delivered to the ranking, or its report waits. */
  ghost predicate Covered(s: System) {
    forall q :: q in s.tables.submissions && OnTime(s.tables, s.tables.submissions[q])
                && s.tables.submissions[q].status >= ACCEPTED
      ==> Current(s, q) || ReportOf(s.tables, q) in s.pending
  }

  /** A row being judged again, or whose newest report waits for its ranking update. */
  ghost predicate InFlight(s: System, q: Id)
    requires q in s.tables.submissions
  {
    var row := s.tables.submissions[q];
    row.status < ACCEPTED || exists r :: r in s.pending && r.run == Run(q, row.jid)
  }

  ghost predicate Quiescent(s: System, iid: Id, pid: Id) {
    forall q :: Mine(s.tables, q, iid, pid) && OnTime(s.tables, s.tables.submissions[q]) ==> !InFlight(s, q)
  }

  /** A result of every on-time row's run has reached the ranking. */
  ghost predicate AllHeard(s: System, iid: Id, pid: Id) {
    forall q :: Mine(s.tables, q, iid, pid) && OnTime(s.tables, s.tables.submissions[q]) ==> Heard(s, q)
  }

  /** The run the row names has reported, and not a result that counts for the penalty. */
  predicate NeverWrong(s: System, q: Id)
    requires q in s.tables.submissions
  {
    var run := Run(q, s.tables.submissions[q].jid);
    run in s.reported && !Wrong(s.reported[run].status)
  }

  /** The row's run has reached the ranking, and the row shows it or would not count anyway. */
  predicate Heard(s: System, q: Id)
    requires q in s.tables.submissions
  {
    && q in s.delivered && s.delivered[q].run.jid == s.tables.submissions[q].jid
    && (s.tables.submissions[q].status >= ACCEPTED || NeverWrong(s, q))
  }

  ghost predicate PenaltyRight(s: System) {
    forall iid, pid :: HasCell(s.tables, iid, pid) && CellOf(s.tables, iid, pid).valid && AllHeard(s, iid, pid)
      ==> Counted(s.tables, iid, pid, CellOf(s.tables, iid, pid))
  }

  /** The cell's penalty is what counting its wrong submissions now gives. */
  predicate Counted(t: Tables, iid: Id, pid: Id, c: RankingCell) {
    c.penalty == Penalty(t, iid, pid, c.sid, c.score)
  }

  /** A judged row shows the result its run reported, and no reported run is newer than its row. */
  ghost predicate Attested(s: System) {
    && (forall run :: run in s.reported ==>
      run.sid in s.tables.submissions && run.jid <= s.tables.submissions[run.sid].jid)
    && (forall q :: q in s.tables.submissions && s.tables.submissions[q].status >= ACCEPTED ==> ShowsResult(s, q))
  }

  predicate ShowsResult(s: System, q: Id)
    requires q in s.tables.submissions
  {
    var row := s.tables.submissions[q];
    Run(q, row.jid) in s.reported && s.reported[Run(q, row.jid)] == Verdict(row.status, row.score)
  }

  ghost predicate Sound(s: System) {
    Valid(s) && Attested(s) && Agrees(s, true) && Ordered(s.tables) && ScoresTold(s) && Covered(s) && PenaltyRight(s)
  }

  lemma StartSound(contest: Contest)
    ensures Sound(Start(contest))
  {
  }

  // ---------------------------------------------------------------- steps other than a ranking update

  /** The row is judged as before: the same run and score, and not reset. */
  predicate Stays(s: System, s': System, q: Id)
    requires q in s'.tables.submissions
  {
    && q in s.tables.submissions
    && var row, row' := s.tables.submissions[q], s'.tables.submissions[q];
       && row'.jid == row.jid && row'.score == row.score && row.status >= ACCEPTED
       && (q in s'.voided ==> q in s.voided)
  }

  /** The row was heard of before, and counts as it did. */
  predicate CountsAsBefore(s: System, s': System, q: Id)
    requires q in s'.tables.submissions
  {
    && q in s.tables.submissions && Heard(s, q)
    && (Wrong(s'.tables.submissions[q].status) <==> Wrong(s.tables.submissions[q].status))
  }

  /** Every on-time row stays as it was, is being judged, or its result waits; one heard of counts as before. */
  ghost predicate Announced(s: System, s': System) {
    forall q :: q in s'.tables.submissions && OnTime(s'.tables, s'.tables.submissions[q]) ==> AnnouncedRow(s, s', q)
  }

  ghost predicate AnnouncedRow(s: System, s': System, q: Id)
    requires q in s'.tables.submissions
  {
    && (s'.tables.submissions[q].status < ACCEPTED || Stays(s, s', q) || ReportOf(s'.tables, q) in s'.pending)
    && (Heard(s', q) ==> CountsAsBefore(s, s', q))
  }

  ghost predicate Quiet(s: System, s': System) {
    LeavesCells(s, s') && Announced(s, s') && forall r :: r in s.pending ==> r in s'.pending
  }

  lemma CoveredElsewhere(s: System, s': System)
    requires Covered(s) && Quiet(s, s')
    ensures Covered(s')
  {
    forall q | q in s'.tables.submissions && OnTime(s'.tables, s'.tables.submissions[q])
               && s'.tables.submissions[q].status >= ACCEPTED
      ensures Current(s', q) || ReportOf(s'.tables, q) in s'.pending
    {
      assert AnnouncedRow(s, s', q);
      if ReportOf(s'.tables, q) !in s'.pending {
        assert Stays(s, s', q);
        assert RowGrows(s.tables.submissions[q], s'.tables.submissions[q]);
        assert Current(s, q) || ReportOf(s.tables, q) in s.pending;
      }
    }
  }

  /** A row heard of after such a step was heard of before it, and counts as it did. */
  lemma HeardBefore(s: System, s': System, q: Id)
    requires Quiet(s, s') && q in s'.tables.submissions && OnTime(s'.tables, s'.tables.submissions[q]) && Heard(s', q)
    ensures CountsAsBefore(s, s', q)
  {
    assert AnnouncedRow(s, s', q);
  }

  lemma AllHeardBefore(s: System, s': System, iid: Id, pid: Id)
    requires Quiet(s, s') && AllHeard(s', iid, pid)
    ensures AllHeard(s, iid, pid)
  {
    forall q | Mine(s.tables, q, iid, pid) && OnTime(s.tables, s.tables.submissions[q]) ensures Heard(s, q) {
      assert RowGrows(s.tables.submissions[q], s'.tables.submissions[q]);
      assert Mine(s'.tables, q, iid, pid);
      HeardBefore(s, s', q);
    }
  }

  /** An on-time submission comes before every late one, so late rows are not counted against a cell. */
  lemma CountUnchanged(s: System, s': System, iid: Id, pid: Id, sid: Id, bound: int)
    requires Quiet(s, s') && Ordered(s'.tables) && bound <= sid
    requires sid in s'.tables.submissions && OnTime(s'.tables, s'.tables.submissions[sid])
    requires AllHeard(s', iid, pid)
    ensures CountedForPenalty(s'.tables.submissions, iid, pid, bound, false)
         == CountedForPenalty(s.tables.submissions, iid, pid, bound, false)
  {
    forall q
      ensures q in CountedForPenalty(s'.tables.submissions, iid, pid, bound, false)
              <==> q in CountedForPenalty(s.tables.submissions, iid, pid, bound, false)
    {
      if q <= bound && q in s'.tables.submissions && Mine(s'.tables, q, iid, pid) {
        assert OnTime(s'.tables, s'.tables.submissions[q]);
        HeardBefore(s, s', q);
      }
      if q in s.tables.submissions {
        assert RowGrows(s.tables.submissions[q], s'.tables.submissions[q]);
      }
    }
  }

  lemma LeaderOnTime(s: System, s': System, i: Id, p: Id, c: RankingCell)
    requires ReportsTraceable(s) && Grows(s.tables, s'.tables)
    requires c.valid && AgreesWith(s.tables, s.delivered, Forgiven(s.voided, true), i, p, c)
    ensures c.sid in s'.tables.submissions && OnTime(s'.tables, s'.tables.submissions[c.sid])
  {
    assert Traceable(s, s.delivered[c.sid]);
    assert RowGrows(s.tables.submissions[c.sid], s'.tables.submissions[c.sid]);
  }

  lemma PenaltyIsCount(t: Tables, iid: Id, pid: Id, sid: Id, score: int)
    ensures Penalty(t, iid, pid, sid, score)
         == |CountedForPenalty(t.submissions, iid, pid, if score > 0 then sid - 1 else sid, false)|
  {
  }

  lemma PenaltyElsewhereCell(s: System, s': System, i: Id, p: Id, sid: Id, score: int)
    requires Quiet(s, s') && Ordered(s'.tables) && AllHeard(s', i, p)
    requires sid in s'.tables.submissions && OnTime(s'.tables, s'.tables.submissions[sid])
    ensures Penalty(s'.tables, i, p, sid, score) == Penalty(s.tables, i, p, sid, score)
  {
    PenaltyIsCount(s.tables, i, p, sid, score);
    PenaltyIsCount(s'.tables, i, p, sid, score);
    CountUnchanged(s, s', i, p, sid, if score > 0 then sid - 1 else sid);
  }

  lemma PenaltyElsewhere(s: System, s': System)
    requires ReportsTraceable(s) && Agrees(s, true) && PenaltyRight(s) && Quiet(s, s') && Ordered(s'.tables)
    ensures PenaltyRight(s')
  {
    forall i, p | HasCell(s'.tables, i, p) && CellOf(s'.tables, i, p).valid && AllHeard(s', i, p)
      ensures Counted(s'.tables, i, p, CellOf(s'.tables, i, p))
    {
      assert HasCell(s.tables, i, p);
      var c := CellOf(s.tables, i, p);
      AllHeardBefore(s, s', i, p);
      LeaderOnTime(s, s', i, p, c);
      PenaltyElsewhereCell(s, s', i, p, c.sid, c.score);
    }
  }

  /** A row that no run has made progress on. */
  lemma SameRowAnnounced(s: System, s': System, q: Id)
    requires q in s.tables.submissions && q in s'.tables.submissions && s'.delivered == s.delivered
    requires s'.tables.submissions[q].jid == s.tables.submissions[q].jid
    requires s'.tables.submissions[q].status == s.tables.submissions[q].status
    requires s'.tables.submissions[q].score == s.tables.submissions[q].score
    requires q in s'.voided ==> q in s.voided
    requires var run := Run(q, s.tables.submissions[q].jid);
      && (run in s'.reported <==> run in s.reported) && (run in s.reported ==> s'.reported[run] == s.reported[run])
    ensures AnnouncedRow(s, s', q)
  {
  }

  /** A row that is being judged again, at the same run or a newer one. */
  lemma UnjudgedAnnounced(s: System, s': System, q: Id)
    requires ReportsTraceable(s) && Attested(s) && s'.delivered == s.delivered && s'.reported == s.reported
    requires q in s.tables.submissions && q in s'.tables.submissions && s'.tables.submissions[q].status < ACCEPTED
    requires s'.tables.submissions[q].jid >= s.tables.submissions[q].jid
    ensures AnnouncedRow(s, s', q)
  {
    if Heard(s', q) {
      assert Traceable(s, s.delivered[q]);
      assert s'.tables.submissions[q].jid == s.tables.submissions[q].jid;
      assert s.tables.submissions[q].status >= ACCEPTED ==> ShowsResult(s, q);
    }
  }

  lemma RejudgeAnnounced(s: System, step: Step)
    requires Valid(s) && Attested(s) && Enabled(s, step) && step.Rejudge?
    ensures Announced(s, Next(s, step))
  {
    var s' := Next(s, step);
    forall q | q in s'.tables.submissions && OnTime(s'.tables, s'.tables.submissions[q])
      ensures AnnouncedRow(s, s', q)
    {
      if q in step.sids {
        UnjudgedAnnounced(s, s', q);
      } else {
        SameRowAnnounced(s, s', q);
      }
    }
  }

  lemma RowsAnnounced(s: System, step: Step)
    requires Valid(s) && Enabled(s, step) && (step.Submit? || step.Dispatch?)
    ensures Announced(s, Next(s, step))
  {
    var s' := Next(s, step);
    forall q | q in s'.tables.submissions && OnTime(s'.tables, s'.tables.submissions[q])
      ensures AnnouncedRow(s, s', q)
    {
      if q in s.tables.submissions {
        SameRowAnnounced(s, s', q);
      } else {
        assert q in s.delivered ==> Traceable(s, s.delivered[q]);
      }
    }
  }

  lemma TableStepQuiet(s: System, step: Step)
    requires Valid(s) && Attested(s) && Enabled(s, step) && (step.Submit? || step.Dispatch? || step.Rejudge?)
    ensures Quiet(s, Next(s, step))
  {
    TableStepLeavesCells(s, step);
    if step.Rejudge? {
      RejudgeAnnounced(s, step);
    } else {
      RowsAnnounced(s, step);
    }
  }

  lemma RankingStepQuiet(s: System, step: Step)
    requires Valid(s) && Enabled(s, step) && (step.Join? || step.AddProblem?)
    ensures Quiet(s, Next(s, step))
  {
    StepWidens(s, step);
    var s' := Next(s, step);
    forall q | q in s'.tables.submissions ensures AnnouncedRow(s, s', q) {
      SameRowAnnounced(s, s', q);
    }
  }

  lemma CaseQuiet(row: Submission, m: Message)
    requires m.CaseMessage?
    ensures Apply(row, m) == row || (Apply(row, m).status < ACCEPTED && Apply(row, m).jid >= row.jid)
  {
  }

  lemma ResultApplied(row: Submission, m: Message)
    requires m.ResultMessage?
    ensures if row.jid > m.jid then Apply(row, m) == row
            else Apply(row, m).jid == m.jid && Apply(row, m).status == m.status && Apply(row, m).score == m.score
  {
  }

  lemma OneRowAnnounced(s: System, s': System, run: Run, row: Submission)
    requires run.sid in s.tables.submissions && s'.tables == WithRow(s.tables, run.sid, row) && s'.voided == s.voided
    requires s'.delivered == s.delivered
    requires forall o :: o != run ==>
      (o in s'.reported <==> o in s.reported) && (o in s.reported ==> s'.reported[o] == s.reported[o])
    requires OnTime(s'.tables, row) ==> AnnouncedRow(s, s', run.sid)
    ensures Announced(s, s')
  {
    forall q | q in s'.tables.submissions && OnTime(s'.tables, s'.tables.submissions[q])
      ensures AnnouncedRow(s, s', q)
    {
      if q != run.sid {
        SameRowAnnounced(s, s', q);
      }
    }
  }

  /** A result the row drops: it is of an older run. */
  lemma DroppedQuiet(s: System, step: Step)
    requires Valid(s) && Enabled(s, step) && step.ReportResult?
    requires s.tables.submissions[step.run.sid].jid > step.run.jid
    ensures step.run.sid in Next(s, step).tables.submissions && AnnouncedRow(s, Next(s, step), step.run.sid)
  {
    ResultApplied(s.tables.submissions[step.run.sid], MessageOf(step));
    SameRowAnnounced(s, Next(s, step), step.run.sid);
  }

  /** A run's first result was never delivered before. */
  lemma FirstResultQuiet(s: System, step: Step)
    requires Valid(s) && Enabled(s, step) && step.ReportResult? && step.run !in s.reported
    requires s.tables.submissions[step.run.sid].jid <= step.run.jid
    ensures var q := step.run.sid;
      q in Next(s, step).tables.submissions
      && (OnTime(Next(s, step).tables, Next(s, step).tables.submissions[q]) ==> AnnouncedRow(s, Next(s, step), q))
  {
    ResultApplied(s.tables.submissions[step.run.sid], MessageOf(step));
    assert step.run.sid in s.delivered ==> Traceable(s, s.delivered[step.run.sid]);
  }

  /** A repeated one changes nothing that matters. */
  lemma RepeatQuiet(s: System, step: Step)
    requires Valid(s) && Attested(s) && Enabled(s, step) && step.ReportResult? && step.run in s.reported
    requires Repeats(s, step.run, step.status, step.score)
    requires s.tables.submissions[step.run.sid].jid <= step.run.jid
    ensures var q := step.run.sid;
      q in Next(s, step).tables.submissions
      && (OnTime(Next(s, step).tables, Next(s, step).tables.submissions[q]) ==> AnnouncedRow(s, Next(s, step), q))
  {
    ResultApplied(s.tables.submissions[step.run.sid], MessageOf(step));
    assert s.tables.submissions[step.run.sid].status >= ACCEPTED ==> ShowsResult(s, step.run.sid);
  }

  lemma ResultQuiet(s: System, step: Step)
    requires Valid(s) && Attested(s) && Enabled(s, step) && Careful(s, step) && step.ReportResult?
    ensures Announced(s, Next(s, step))
  {
    hide Apply, Announced;
    var row := s.tables.submissions[step.run.sid];
    ReportMovesOn(s, step);
    ResultApplied(row, MessageOf(step));
    if row.jid > step.run.jid {
      DroppedQuiet(s, step);
    } else if step.run in s.reported {
      RepeatQuiet(s, step);
    } else {
      FirstResultQuiet(s, step);
    }
    OneRowAnnounced(s, Next(s, step), step.run, Apply(row, MessageOf(step)));
  }

  lemma CaseStepQuiet(s: System, step: Step)
    requires Valid(s) && Attested(s) && Enabled(s, step) && step.ReportCase?
    ensures Announced(s, Next(s, step))
  {
    hide Apply, Announced;
    var row := s.tables.submissions[step.run.sid];
    ReportMovesOn(s, step);
    CaseQuiet(row, MessageOf(step));
    if Apply(row, MessageOf(step)) == row {
      SameRowAnnounced(s, Next(s, step), step.run.sid);
    } else {
      UnjudgedAnnounced(s, Next(s, step), step.run.sid);
    }
    OneRowAnnounced(s, Next(s, step), step.run, Apply(row, MessageOf(step)));
  }

  lemma ReportStepQuiet(s: System, step: Step)
    requires Valid(s) && Attested(s) && Enabled(s, step) && Careful(s, step) && (step.ReportCase? || step.ReportResult?)
    ensures Quiet(s, Next(s, step))
  {
    ReportStepLeavesCells(s, step);
    if step.ReportCase? {
      CaseStepQuiet(s, step);
    } else {
      ResultQuiet(s, step);
    }
  }

  lemma StepQuiet(s: System, step: Step)
    requires Valid(s) && Attested(s) && Enabled(s, step) && Careful(s, step) && !step.UpdateRanking?
    ensures Quiet(s, Next(s, step))
  {
    if step.Join? || step.AddProblem? {
      RankingStepQuiet(s, step);
    } else if step.ReportCase? || step.ReportResult? {
      ReportStepQuiet(s, step);
    } else {
      TableStepQuiet(s, step);
    }
  }

  lemma OrderedKept(s: System, step: Step)
    requires Valid(s) && Enabled(s, step) && Careful(s, step) && !step.UpdateRanking? && Ordered(s.tables)
    ensures Ordered(Next(s, step).tables)
  {
    var s' := Next(s, step);
    StepLeavesCells(s, step);
    forall q, q' | q in s'.tables.submissions && q' in s'.tables.submissions && q < q'
      ensures s'.tables.submissions[q].submitTime <= s'.tables.submissions[q'].submitTime
    {
      if q in s.tables.submissions && q' in s.tables.submissions {
        assert RowGrows(s.tables.submissions[q], s'.tables.submissions[q]);
        assert RowGrows(s.tables.submissions[q'], s'.tables.submissions[q']);
      } else {
        assert step.Submit?;
      }
    }
  }

  lemma AttestedTable(s: System, step: Step)
    requires Valid(s) && Enabled(s, step) && (step.Submit? || step.Dispatch? || step.Rejudge?) && Attested(s)
    ensures Attested(Next(s, step))
  {
    var s' := Next(s, step);
    forall q | q in s'.tables.submissions && s'.tables.submissions[q].status >= ACCEPTED ensures ShowsResult(s', q) {
      assert ShowsResult(s, q);
    }
  }

  lemma AttestedRow(s: System, s': System, run: Run, row: Submission)
    requires Attested(s) && run.sid in s.tables.submissions
    requires s'.tables == WithRow(s.tables, run.sid, row)
    requires row.jid >= s.tables.submissions[run.sid].jid && row.jid >= run.jid
    requires forall r :: r in s'.reported ==> r in s.reported || r == run
    requires forall r :: r in s.reported ==> r in s'.reported && (r != run ==> s'.reported[r] == s.reported[r])
    requires row.status >= ACCEPTED ==> ShowsResult(s', run.sid)
    ensures Attested(s')
  {
    forall q | q in s'.tables.submissions && s'.tables.submissions[q].status >= ACCEPTED ensures ShowsResult(s', q) {
      assert q != run.sid ==> ShowsResult(s, q);
    }
  }

  lemma AttestedReport(s: System, step: Step)
    requires Valid(s) && Enabled(s, step) && (step.ReportCase? || step.ReportResult?) && Attested(s)
    ensures Attested(Next(s, step))
  {
    ReportMovesOn(s, step);
    var s', row := Next(s, step), s.tables.submissions[step.run.sid];
    assert row.status >= ACCEPTED ==> ShowsResult(s, step.run.sid);
    if step.ReportCase? {
      CaseQuiet(row, MessageOf(step));
    } else {
      ResultApplied(row, MessageOf(step));
      assert s'.reported == s.reported[step.run := Verdict(step.status, step.score)];
    }
    AttestedRow(s, s', step.run, Apply(row, MessageOf(step)));
  }

  lemma AttestedKept(s: System, step: Step)
    requires Valid(s) && Enabled(s, step) && !step.UpdateRanking? && Attested(s)
    ensures Attested(Next(s, step))
  {
    if step.Join? || step.AddProblem? {
      var s' := Next(s, step);
      assert s'.tables.submissions == s.tables.submissions;
      assert forall q :: q in s.tables.submissions && ShowsResult(s, q) ==> ShowsResult(s', q);
    } else if step.ReportCase? || step.ReportResult? {
      AttestedReport(s, step);
    } else {
      AttestedTable(s, step);
    }
  }

  lemma PendingStep(s: System, step: Step)
    requires Enabled(s, step) && !step.UpdateRanking?
    ensures Next(s, step).delivered == s.delivered
    ensures if step.ReportResult? then
              && Next(s, step).reported == s.reported[step.run := Verdict(step.status, step.score)]
              && forall r :: r in Next(s, step).pending ==> r in s.pending || r == Report(step.run, step.score)
            else Next(s, step).reported == s.reported && Next(s, step).pending == s.pending
  {
  }

  lemma ToldKept(s: System, step: Step)
    requires Enabled(s, step) && Careful(s, step) && !step.UpdateRanking? && ScoresTold(s)
    ensures ScoresTold(Next(s, step))
  {
    PendingStep(s, step);
    assert forall r :: Told(s, r) ==> Told(Next(s, step), r);
  }

  // ---------------------------------------------------------------- a ranking update

  lemma ToldUpdated(s: System, s': System, r: Report)
    requires ScoresTold(s) && r in s.pending && Known(s, r) && Updates(s, s', r)
    ensures ScoresTold(s')
  {
    assert Told(s, r);
    assert forall r' :: Told(s, r') ==> Told(s', r');
  }

  /** The row of the report itself: if the report is of its current run, it is the row's own, and now delivered. */
  lemma OwnRowCovered(s: System, s': System, r: Report)
    requires ReportsTraceable(s) && ScoresTold(s) && r in s.pending && Known(s, r) && Updates(s, s', r) && Ranks(s, r)
    requires Current(s, r.run.sid) || ReportOf(s.tables, r.run.sid) in s.pending
    ensures Current(s', r.run.sid) || ReportOf(s'.tables, r.run.sid) in s'.pending
  {
    var q := r.run.sid;
    assert Traceable(s, r) && Told(s, r);
    if q in s.delivered {
      assert Traceable(s, s.delivered[q]) && s.delivered[q].run.sid == q && Told(s, s.delivered[q]);
    }
    if ReportOf(s.tables, q) in s.pending {
      assert Told(s, ReportOf(s.tables, q));
    }
  }

  lemma OtherRowCovered(s: System, s': System, r: Report, q: Id)
    requires Known(s, r) && Updates(s, s', r) && Ranks(s, r) && q in s.tables.submissions && q != r.run.sid
    requires Current(s, q) || ReportOf(s.tables, q) in s.pending
    ensures Current(s', q) || ReportOf(s'.tables, q) in s'.pending
  {
  }

  lemma CoveredUpdated(s: System, s': System, r: Report)
    requires ReportsTraceable(s) && ScoresTold(s) && Covered(s) && r in s.pending
    requires Known(s, r) && Updates(s, s', r) && Ranks(s, r)
    ensures Covered(s')
  {
    forall q | q in s.tables.submissions && OnTime(s.tables, s.tables.submissions[q])
               && s.tables.submissions[q].status >= ACCEPTED
      ensures Current(s', q) || ReportOf(s'.tables, q) in s'.pending
    {
      if q == r.run.sid {
        OwnRowCovered(s, s', r);
      } else {
        OtherRowCovered(s, s', r, q);
      }
    }
  }

  /** The changed cell was recounted; statuses did not change. */
  lemma RecountedCell(s: System, s': System, r: Report, i: Id, p: Id)
    requires Known(s, r) && Updates(s, s', r) && HasCell(s.tables, i, p)
    requires i == s.tables.submissions[r.run.sid].iid && p == s.tables.submissions[r.run.sid].pid
    requires Choose(s.tables, i, p, CellOf(s.tables, i, p), Offered(s.tables, r)).Put?
    ensures HasCell(s'.tables, i, p) && Counted(s'.tables, i, p, CellOf(s'.tables, i, p))
  {
    assert CellOf(s'.tables, i, p) == CellAfter(s, r);
  }

  /** A report the code ignores is no newer than the cell's. */
  lemma IgnoredIsOld(s: System, r: Report, i: Id, p: Id)
    requires Known(s, r) && Mine(s.tables, r.run.sid, i, p) && HasCell(s.tables, i, p)
    requires !Choose(s.tables, i, p, CellOf(s.tables, i, p), Offered(s.tables, r)).Put?
    ensures var c := CellOf(s.tables, i, p); c.valid && c.sid == r.run.sid && c.jid >= r.run.jid
    ensures CellAfter(s, r) == CellOf(s.tables, i, p)
  {
    assert MaximumScore(s.tables.submissions, i, p).Some?;
  }

  /** The update did not touch this cell, and told nothing new of its submissions. */
  lemma UntouchedCell(s: System, s': System, r: Report, i: Id, p: Id)
    requires ReportsTraceable(s) && PenaltyRight(s) && r in s.pending && Known(s, r) && Updates(s, s', r)
    requires HasCell(s.tables, i, p)
    requires AgreesWith(s.tables, s.delivered, Forgiven(s.voided, true), i, p, CellOf(s.tables, i, p))
    requires Mine(s.tables, r.run.sid, i, p) ==>
      !Choose(s.tables, i, p, CellOf(s.tables, i, p), Offered(s.tables, r)).Put?
    requires CellOf(s'.tables, i, p).valid && AllHeard(s', i, p)
    ensures Counted(s'.tables, i, p, CellOf(s'.tables, i, p))
  {
    if Mine(s.tables, r.run.sid, i, p) {
      IgnoredIsOld(s, r, i, p);
    }
    assert CellOf(s'.tables, i, p) == CellOf(s.tables, i, p);
    forall q | Mine(s.tables, q, i, p) && OnTime(s.tables, s.tables.submissions[q]) ensures Heard(s, q) {
      assert Mine(s'.tables, q, i, p) && Heard(s', q);
    }
  }

  lemma PenaltyUpdated(s: System, s': System, r: Report)
    requires Valid(s) && Agrees(s, true) && PenaltyRight(s) && r in s.pending && Known(s, r) && Updates(s, s', r) &&
      Ranks(s, r)
    ensures PenaltyRight(s')
  {
    forall i, p | HasCell(s'.tables, i, p) && CellOf(s'.tables, i, p).valid && AllHeard(s', i, p)
      ensures Counted(s'.tables, i, p, CellOf(s'.tables, i, p))
    {
      if Mine(s.tables, r.run.sid, i, p) && Choose(s.tables, i, p, CellOf(s.tables, i, p), Offered(s.tables, r)).Put? {
        RecountedCell(s, s', r, i, p);
      } else {
        UntouchedCell(s, s', r, i, p);
      }
    }
  }

  // ---------------------------------------------------------------- careful runs

  lemma SoundStep(s: System, step: Step)
    requires Sound(s) && Enabled(s, step) && Careful(s, step)
    ensures Sound(Next(s, step))
  {
    var s' := Next(s, step);
    ValidStep(s, step);
    if step.UpdateRanking? {
      SoundUpdate(s, step.report);
    } else {
      StepQuiet(s, step);
      AgreesKept(s, step, true);
      OrderedKept(s, step);
      ToldKept(s, step);
      AttestedKept(s, step);
      CoveredElsewhere(s, s');
      PenaltyElsewhere(s, s');
    }
  }

  lemma SoundUpdate(s: System, r: Report)
    requires Sound(s) && r in s.pending && Careful(s, UpdateRanking(r))
    ensures Sound(Next(s, UpdateRanking(r)))
  {
    assert Traceable(s, r);
    ValidStep(s, UpdateRanking(r));
    UpdateExact(s, r, true);
    RankedUpdates(s, r);
    ToldUpdated(s, Ranked(s, r), r);
    CoveredUpdated(s, Ranked(s, r), r);
    PenaltyUpdated(s, Ranked(s, r), r);
    assert forall q :: q in s.tables.submissions && ShowsResult(s, q) ==> ShowsResult(Ranked(s, r), q);
  }

  /** A run: each step is enabled when it is taken. */
  ghost predicate Runs(s: System, steps: seq<Step>)
    decreases |steps|
  {
    steps != [] ==> Enabled(s, steps[0]) && Runs(Next(s, steps[0]), steps[1..])
  }

  ghost function After(s: System, steps: seq<Step>): System
    requires Runs(s, steps)
    decreases |steps|
  {
    if steps == [] then s else After(Next(s, steps[0]), steps[1..])
  }

  ghost predicate CarefulRun(s: System, steps: seq<Step>)
    requires Runs(s, steps)
    decreases |steps|
  {
    steps != [] ==> Careful(s, steps[0]) && CarefulRun(Next(s, steps[0]), steps[1..])
  }

  lemma {:induction false} SoundRun(s: System, steps: seq<Step>)
    requires Sound(s) && Runs(s, steps) && CarefulRun(s, steps)
    ensures Sound(After(s, steps))
    decreases |steps|
  {
    if steps != [] {
      SoundStep(s, steps[0]);
      SoundRun(Next(s, steps[0]), steps[1..]);
    }
  }

  lemma {:induction false} ValidRun(s: System, steps: seq<Step>)
    requires Valid(s) && Runs(s, steps)
    ensures Valid(After(s, steps))
    decreases |steps|
  {
    if steps != [] {
      ValidStep(s, steps[0]);
      ValidRun(Next(s, steps[0]), steps[1..]);
    }
  }
}
