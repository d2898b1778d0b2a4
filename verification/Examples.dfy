/** Runs from the start on which the ranking goes wrong. */
module Examples {
  import opened Types
  import opened Submissions
  import opened Evaluation
  import opened Ranking
  import opened Pipeline
  import opened Agreement
  import opened Theorems
  import opened Transactions

  const CONTEST := Contest(0, 1000, ICPC, 20)
  const IID: Id := 7
  const PID: Id := 3

  // ---------------------------------------------------------------- building runs

  ghost predicate Reaches(steps: seq<Step>, s: System) {
    Runs(Start(CONTEST), steps) && After(Start(CONTEST), steps) == s
  }

  lemma {:induction false} OneMore(s: System, steps: seq<Step>, step: Step)
    requires Runs(s, steps) && Enabled(After(s, steps), step)
    ensures Runs(s, steps + [step]) && After(s, steps + [step]) == Next(After(s, steps), step)
    decreases |steps|
  {
    if steps == [] {
      assert [step][1..] == [];
    } else {
      OneMore(Next(s, steps[0]), steps[1..], step);
      assert (steps + [step])[1..] == steps[1..] + [step];
    }
  }

  predicate NoUpdates(steps: seq<Step>) {
    forall i :: 0 <= i < |steps| ==> !steps[i].UpdateRanking?
  }

  lemma Go(steps: seq<Step>, s: System, step: Step) returns (more: seq<Step>, s': System)
    requires Reaches(steps, s) && Enabled(s, step)
    ensures s' == Next(s, step) && Reaches(more, s') && (NoUpdates(steps) && !step.UpdateRanking? ==> NoUpdates(more))
  {
    OneMore(Start(CONTEST), steps, step);
    more, s' := steps + [step], Next(s, step);
  }

  /** No result is on its way, and the participant has a cell for the problem. */
  predicate Rests(s: System) {
    s.tables.contest == CONTEST && s.pending == multiset{} && HasCell(s.tables, IID, PID)
  }

  predicate SameButRows(s: System, s': System) {
    s' == s.(tables := s.tables.(submissions := s'.tables.submissions), dispatched := s'.dispatched,
             voided := s'.voided, reported := s'.reported, pending := s'.pending)
  }

  lemma Opens() returns (steps: seq<Step>, s: System)
    ensures Reaches(steps, s) && Rests(s) && s.tables.submissions == map[] && CellOf(s.tables, IID, PID) == INVALID_CELL
    ensures s.dispatched == [] && s.delivered == map[] && s.voided == {} && s.tables.columns == {PID}
    ensures s.reported == map[] && NoUpdates(steps)
  {
    steps, s := Go([], Start(CONTEST), Join(IID));
    steps, s := Go(steps, s, AddProblem(PID));
  }

  lemma Submits(steps: seq<Step>, s: System, sid: Id, pid: Id, time: int) returns (more: seq<Step>, s': System)
    requires Reaches(steps, s) && forall q :: q in s.tables.submissions ==> q < sid
    ensures Reaches(more, s') && (NoUpdates(steps) ==> NoUpdates(more)) && SameButRows(s, s') && s'.voided == s.voided
    ensures s'.pending == s.pending && s'.reported == s.reported
    ensures s'.tables.submissions == s.tables.submissions[sid := NewSubmission(IID, pid, time).(usedJid := 1)]
    ensures s'.dispatched == s.dispatched + [Run(sid, 1)]
  {
    more, s' := Go(steps, s, Submit(sid, IID, pid, time));
    more, s' := Go(more, s', Dispatch(sid));
  }

  lemma Reports(steps: seq<Step>, s: System, run: Run, status: Status, score: int) returns (more: seq<Step>, s': System)
    requires Reaches(steps, s) && run in s.dispatched && run.sid in s.tables.submissions && status >= ACCEPTED
    ensures Reaches(more, s') && (NoUpdates(steps) ==> NoUpdates(more)) && SameButRows(s, s') &&
      s'.dispatched == s.dispatched && s'.voided == s.voided
    ensures var row := s.tables.submissions[run.sid];
      && s'.tables.submissions ==
        s.tables.submissions[run.sid := Apply(row, ResultMessage(run.jid, status, score, 0, 0))]
      && s'.reported == s.reported[run := Verdict(status, score)]
      && s'.pending == if OnTime(s.tables, row) then s.pending + multiset{Report(run, score)} else s.pending
  {
    more, s' := Go(steps, s, ReportResult(run, status, score, 0, 0));
  }

  lemma Settles(steps: seq<Step>, s: System, r: Report) returns (more: seq<Step>, s': System)
    requires Reaches(steps, s) && Shaped(s.tables) && s.pending == multiset{r} && Known(s, r) && Ranks(s, r)
    requires s.tables.contest == CONTEST && Mine(s.tables, r.run.sid, IID, PID)
    ensures Reaches(more, s') && Rests(s') && s'.tables.submissions == s.tables.submissions && s'.reported == s.reported
    ensures s'.dispatched == s.dispatched && s'.delivered == Delivered(s, r) && s'.voided == Voided(s, r)
    ensures CellOf(s'.tables, IID, PID) == CellAfter(s, r)
  {
    RankedUpdates(s, r);
    more, s' := Go(steps, s, UpdateRanking(r));
    assert s'.pending == multiset{};
  }

  /** A result of an on-time submission, through both transactions. */
  lemma Arrives(steps: seq<Step>, s: System, run: Run, status: Status, score: int)
    returns (more: seq<Step>, s': System)
    requires Reaches(steps, s) && Rests(s) && run in s.dispatched && status >= ACCEPTED
    requires Mine(s.tables, run.sid, IID, PID) && OnTime(s.tables, s.tables.submissions[run.sid])
    ensures Reaches(more, s') && Rests(s') && s'.dispatched == s.dispatched
    ensures var r, row := Report(run, score), s.tables.submissions[run.sid];
      && s'.tables.submissions ==
        s.tables.submissions[run.sid := Apply(row, ResultMessage(run.jid, status, score, 0, 0))]
      && s'.delivered == Delivered(s, r) && s'.voided == Voided(s, r)
      && CellOf(s'.tables, IID, PID)
         == Updated(s'.tables, IID, PID, CellOf(s.tables, IID, PID),
           RankingCell(true, run.sid, run.jid, row.submitTime, score, 0))
  {
    hide Reaches, Penalty;
    more, s' := Reports(steps, s, run, status, score);
    StartValid(CONTEST);
    ValidRun(Start(CONTEST), more);
    ghost var mid := s';
    SameCell(s, mid);
    more, s' := Settles(more, mid, Report(run, score));
    OfferedCell(mid, s', Report(run, score), CellOf(s.tables, IID, PID));
  }

  lemma SameCell(s: System, s': System)
    requires Rests(s) && s'.tables.rows == s.tables.rows
    ensures HasCell(s'.tables, IID, PID) && CellOf(s'.tables, IID, PID) == CellOf(s.tables, IID, PID)
  {
  }

  lemma OfferedCell(s: System, s': System, r: Report, c: RankingCell)
    requires Known(s, r) && Ranks(s, r) && Mine(s.tables, r.run.sid, IID, PID) && s.tables.contest == CONTEST
    requires c == CellOf(s.tables, IID, PID)
    requires s'.tables.contest == CONTEST && s'.tables.submissions == s.tables.submissions
    ensures var row := s.tables.submissions[r.run.sid];
      CellAfter(s, r) ==
        Updated(s'.tables, IID, PID, c, RankingCell(true, r.run.sid, r.run.jid, row.submitTime, r.score, 0))
  {
    SameUpdated(s.tables, s'.tables, IID, PID, c, Offered(s.tables, r));
  }

  lemma SameUpdated(t: Tables, u: Tables, iid: Id, pid: Id, cell: RankingCell, rc: RankingCell)
    requires u.contest == t.contest && u.submissions == t.submissions
    ensures Updated(u, iid, pid, cell, rc) == Updated(t, iid, pid, cell, rc)
  {
  }

  /** A submission is reset and dispatched again. */
  lemma Rejudges(steps: seq<Step>, s: System, sid: Id) returns (more: seq<Step>, s': System)
    requires Reaches(steps, s) && sid in s.tables.submissions
    ensures Reaches(more, s') && SameButRows(s, s') && s'.voided == s.voided + {sid}
    ensures s'.pending == s.pending && s'.reported == s.reported
    ensures s'.tables.submissions == s.tables.submissions[sid := Reserve(Reset(s.tables.submissions[sid]))]
    ensures s'.dispatched == s.dispatched + [Run(sid, s.tables.submissions[sid].usedJid + 1)]
  {
    more, s' := Go(steps, s, Rejudge({sid}));
    assert s'.tables.submissions == s.tables.submissions[sid := Reset(s.tables.submissions[sid])];
    more, s' := Go(more, s', Dispatch(sid));
  }

  // ---------------------------------------------------------------- wrong cells

  function RowOf(time: int, used: Id, jid: Id, status: Status, score: int): Submission {
    Submission(PID, IID, time, used, jid, status, score, 0, 0, [])
  }

  /** Two submissions of a participant, both dispatched once; nothing is judged yet. */
  lemma TwoSubmitted(time: int) returns (steps: seq<Step>, s: System)
    ensures Reaches(steps, s) && Rests(s)
    ensures s.tables.submissions == map[1 := RowOf(10, 1, 0, IN_QUEUE, 0), 2 := RowOf(time, 1, 0, IN_QUEUE, 0)]
    ensures s.dispatched == [Run(1, 1), Run(2, 1)] && s.delivered == map[] && s.voided == {}
    ensures CellOf(s.tables, IID, PID) == INVALID_CELL
  {
    steps, s := Opens();
    steps, s := Submits(steps, s, 1, PID, 10);
    steps, s := Submits(steps, s, 2, PID, time);
  }

  /** The cell, apart from its penalty. */
  predicate Holds(s: System, sid: Id, jid: Id, time: int, score: int) {
    && HasCell(s.tables, IID, PID)
    && var c := CellOf(s.tables, IID, PID); c == RankingCell(true, sid, jid, time, score, c.penalty)
  }

  /** Submission 1 got 100 and holds the cell. */
  lemma FirstDelivered(time: int) returns (steps: seq<Step>, s: System)
    ensures Reaches(steps, s) && Rests(s) && Holds(s, 1, 1, 10, 100)
    ensures s.tables.submissions == map[1 := RowOf(10, 1, 1, ACCEPTED, 100), 2 := RowOf(time, 1, 0, IN_QUEUE, 0)]
    ensures s.dispatched == [Run(1, 1), Run(2, 1)] && s.delivered == map[1 := Report(Run(1, 1), 100)] && s.voided == {}
  {
    steps, s := TwoSubmitted(time);
    steps, s := Arrives(steps, s, Run(1, 1), ACCEPTED, 100);
  }

  /** Its rejudge gives 30, and the query returns submission 2: so the cell names that one, and says 30. */
  lemma Demoted(steps: seq<Step>, s: System, row: Submission) returns (more: seq<Step>, s': System)
    requires Reaches(steps, s) && Rests(s) && Holds(s, 1, 1, 10, 100) && row.score > 30
    requires row.pid == PID && row.iid == IID
    requires s.tables.submissions == map[1 := RowOf(10, 1, 1, ACCEPTED, 100), 2 := row]
    requires 1 in s.delivered && s.delivered[1].run.jid == 1
    ensures Reaches(more, s') && Rests(s') && Holds(s', 2, row.jid, row.submitTime, 30)
    ensures s'.tables.submissions == map[1 := RowOf(10, 2, 2, ACCEPTED, 30), 2 := row]
    ensures 2 in s'.delivered <==> 2 in s.delivered
    ensures 2 in s.delivered ==> s'.delivered[2] == s.delivered[2]
  {
    hide Reaches, Penalty;
    more, s' := Rejudges(steps, s, 1);
    ghost var mid := s';
    SameCell(s, mid);
    more, s' := Arrives(more, mid, Run(1, 2), ACCEPTED, 30);
    FallsBack(s'.tables, row, CellOf(s.tables, IID, PID));
  }

  lemma FallsBack(t: Tables, row: Submission, c: RankingCell)
    requires t.contest == CONTEST && t.submissions == map[1 := RowOf(10, 2, 2, ACCEPTED, 30), 2 := row]
    requires row.score > 30 && row.pid == PID && row.iid == IID && c.valid && c.sid == 1 && c.jid == 1 && c.score == 100
    ensures var c' := Updated(t, IID, PID, c, RankingCell(true, 1, 2, 10, 30, 0));
      c' == RankingCell(true, 2, row.jid, row.submitTime, 30, c'.penalty)
  {
    assert IsFirst(t.submissions, IID, PID, 2);
    FirstIsMaximum(t.submissions, IID, PID, 2);
  }

  /**
   * Submission 1 got 100 and holds the cell, submission 2 got 60; a rejudge of submission 1 gives 30. At rest,
   * the cell names submission 2 and says 30.
   */
  lemma DemotionExample() returns (steps: seq<Step>, s: System)
    ensures Reaches(steps, s) && Quiescent(s, IID, PID) && !Agrees(s, true)
    ensures Holds(s, 2, 1, 20, 30) && 2 in s.tables.submissions && s.tables.submissions[2].score == 60
  {
    steps, s := FirstDelivered(20);
    steps, s := Arrives(steps, s, Run(2, 1), ACCEPTED, 60);
    steps, s := Demoted(steps, s, RowOf(20, 1, 1, ACCEPTED, 60));
    assert !AgreesWith(s.tables, s.delivered, Forgiven(s.voided, true), IID, PID, CellOf(s.tables, IID, PID));
  }

  /** The same, with a submission 2 made after the contest: at rest, a late submission holds the cell. */
  lemma LateDemotionExample() returns (steps: seq<Step>, s: System)
    ensures Reaches(steps, s) && Quiescent(s, IID, PID) && !Agrees(s, true)
    ensures Holds(s, 2, 1, 5000, 30) && 2 in s.tables.submissions && !OnTime(s.tables, s.tables.submissions[2])
  {
    steps, s := FirstDelivered(5000);
    steps, s := Reports(steps, s, Run(2, 1), ACCEPTED, 80);
    steps, s := Demoted(steps, s, RowOf(5000, 1, 1, ACCEPTED, 80));
    assert !AgreesWith(s.tables, s.delivered, Forgiven(s.voided, true), IID, PID, CellOf(s.tables, IID, PID));
  }

  /**
   * Submission 1 is dispatched twice. Run 2 gives 0 and is what the row shows, submission 2 gets 50, and then the
   * late result 100 of run 1, which the row drops, takes the cell for good.
   */
  lemma StaleExample() returns (steps: seq<Step>, s: System)
    ensures Reaches(steps, s) && Quiescent(s, IID, PID) && !Agrees(s, true)
    ensures Holds(s, 1, 1, 10, 100) && 1 in s.tables.submissions && s.tables.submissions[1].score == 0
  {
    hide Reaches, Penalty;
    steps, s := TwoSubmitted(20);
    steps, s := Rejudges(steps, s, 1);
    assert CellOf(s.tables, IID, PID) == INVALID_CELL;
    steps, s := Arrives(steps, s, Run(1, 2), WRONG_ANSWER, 0);
    assert Holds(s, 1, 2, 10, 0);
    steps, s := Arrives(steps, s, Run(2, 1), ACCEPTED, 50);
    assert Holds(s, 2, 1, 20, 50);
    assert s.delivered == map[1 := Report(Run(1, 2), 0), 2 := Report(Run(2, 1), 50)];
    steps, s := Arrives(steps, s, Run(1, 1), ACCEPTED, 100);
    assert !AgreesWith(s.tables, s.delivered, Forgiven(s.voided, true), IID, PID, CellOf(s.tables, IID, PID));
  }

  lemma Begins(steps: seq<Step>, s: System, run: Run) returns (more: seq<Step>, s': System)
    requires Reaches(steps, s) && run in s.dispatched && run.sid in s.tables.submissions
    ensures Reaches(more, s') && s' == s.(tables := s'.tables) && s'.tables.rows == s.tables.rows
    ensures s'.tables.contest == s.tables.contest && s'.tables.columns == s.tables.columns
    ensures s'.tables.submissions
         == s.tables.submissions[run.sid := Apply(s.tables.submissions[run.sid],
           CaseMessage(run.jid, TestCase(0, JUDGING, 0, 0)))]
  {
    more, s' := Go(steps, s, ReportCase(run, TestCase(0, JUDGING, 0, 0)));
  }

  /**
   * A demotion to a submission that is being judged: submission 2 held the cell and its rejudge gives 0, while run 1
   * of submission 1 is under way. The cell names that run with score 0, so its result 100 is ignored when it comes.
   */
  lemma SwallowedExample() returns (steps: seq<Step>, s: System)
    ensures Reaches(steps, s) && Quiescent(s, IID, PID) && !Agrees(s, true)
    ensures Holds(s, 1, 1, 10, 0) && 1 in s.tables.submissions && s.tables.submissions[1].score == 100
  {
    hide Reaches, Penalty;
    steps, s := TwoSubmitted(20);
    steps, s := Arrives(steps, s, Run(2, 1), ACCEPTED, 100);
    steps, s := Begins(steps, s, Run(1, 1));
    assert Holds(s, 2, 1, 20, 100);
    steps, s := Rejudges(steps, s, 2);
    steps, s := SecondFails(steps, s);
    steps, s := Arrives(steps, s, Run(1, 1), ACCEPTED, 100);
    assert !AgreesWith(s.tables, s.delivered, Forgiven(s.voided, true), IID, PID, CellOf(s.tables, IID, PID));
  }

  lemma SecondFails(steps: seq<Step>, s: System) returns (more: seq<Step>, s': System)
    requires Reaches(steps, s) && Rests(s) && Holds(s, 2, 1, 20, 100) &&
      s.dispatched == [Run(1, 1), Run(2, 1), Run(2, 2)]
    requires s.tables.submissions == map[1 := RowOf(10, 1, 1, JUDGING, 0), 2 := RowOf(20, 2, 1, IN_QUEUE, 0)]
    requires s.delivered == map[2 := Report(Run(2, 1), 100)]
    ensures Reaches(more, s') && Rests(s') && Holds(s', 1, 1, 10, 0) && s'.dispatched == s.dispatched
    ensures s'.tables.submissions == map[1 := RowOf(10, 1, 1, JUDGING, 0), 2 := RowOf(20, 2, 2, WRONG_ANSWER, 0)]
    ensures s'.delivered == map[2 := Report(Run(2, 2), 0)]
  {
    hide Reaches, Penalty;
    more, s' := Arrives(steps, s, Run(2, 2), WRONG_ANSWER, 0);
    var rows := map[1 := RowOf(10, 1, 1, JUDGING, 0), 2 := RowOf(20, 2, 2, WRONG_ANSWER, 0)];
    assert s'.tables.submissions == rows;
    assert IsFirst(rows, IID, PID, 1);
    FirstIsMaximum(rows, IID, PID, 1);
  }

  // ---------------------------------------------------------------- overlapping transactions

  function Others(steps: seq<Step>): seq<Act> {
    if steps == [] then [] else [Other(steps[0])] + Others(steps[1..])
  }

  lemma {:induction false} SameRun(s: System, steps: seq<Step>)
    requires Runs(s, steps) && NoUpdates(steps)
    ensures Acts(State(s, IDLE), Others(steps)) && End(State(s, IDLE), Others(steps)) == State(After(s, steps), IDLE)
    decreases |steps|
  {
    if steps != [] {
      SameRun(Next(s, steps[0]), steps[1..]);
      assert Others(steps)[1..] == Others(steps[1..]);
    }
  }

  ghost predicate Gets(acts: seq<Act>, c: State) {
    Acts(State(Start(CONTEST), IDLE), acts) && End(State(Start(CONTEST), IDLE), acts) == c
  }

  lemma {:induction false} OneMoreAct(c: State, acts: seq<Act>, act: Act)
    requires Acts(c, acts) && Possible(End(c, acts), act)
    ensures Acts(c, acts + [act]) && End(c, acts + [act]) == Then(End(c, acts), act)
    decreases |acts|
  {
    if acts == [] {
      assert [act][1..] == [];
    } else {
      OneMoreAct(Then(c, acts[0]), acts[1..], act);
      assert (acts + [act])[1..] == acts[1..] + [act];
    }
  }

  lemma Does(acts: seq<Act>, c: State, act: Act) returns (more: seq<Act>, c': State)
    requires Gets(acts, c) && Possible(c, act)
    ensures c' == Then(c, act) && Gets(more, c')
  {
    OneMoreAct(State(Start(CONTEST), IDLE), acts, act);
    more, c' := acts + [act], Then(c, act);
  }

  const OTHER: Id := 4

  lemma TwoColumns() returns (steps: seq<Step>, s: System)
    ensures Reaches(steps, s) && NoUpdates(steps) && s.tables.contest == CONTEST && s.delivered == map[] &&
      s.voided == {}
    ensures s.tables.submissions == map[] && s.dispatched == [] && s.pending == multiset{}
    ensures IID in s.tables.rows && s.tables.rows[IID].problems == map[PID := INVALID_CELL, OTHER := INVALID_CELL]
  {
    steps, s := Opens();
    assert s.tables.rows[IID].problems == map[PID := INVALID_CELL] by {
      StartValid(CONTEST);
      ValidRun(Start(CONTEST), steps);
      assert s.tables.rows[IID].problems.Keys == {PID};
    }
    steps, s := Go(steps, s, AddProblem(OTHER));
  }

  /** Submission 1 to a problem got 100 and submission 2, to the problem `pid`, got 60; both updates are to come. */
  lemma BothReported(pid: Id) returns (steps: seq<Step>, s: System)
    requires pid == PID || pid == OTHER
    ensures Reaches(steps, s) && NoUpdates(steps) && s.tables.contest == CONTEST && s.delivered == map[] &&
      s.voided == {}
    ensures s.tables.submissions ==
      map[1 := RowOf(10, 1, 1, ACCEPTED, 100), 2 := RowOf(20, 1, 1, ACCEPTED, 60).(pid := pid)]
    ensures s.pending == multiset{Report(Run(1, 1), 100), Report(Run(2, 1), 60)}
    ensures IID in s.tables.rows && s.tables.rows[IID].problems == map[PID := INVALID_CELL, OTHER := INVALID_CELL]
  {
    hide Reaches, Penalty;
    steps, s := TwoColumns();
    steps, s := Submits(steps, s, 1, PID, 10);
    steps, s := Submits(steps, s, 2, pid, 20);
    steps, s := Reports(steps, s, Run(1, 1), ACCEPTED, 100);
    steps, s := Reports(steps, s, Run(2, 1), ACCEPTED, 60);
  }

  /** The cell of a first result. */
  function FirstCell(t: Tables, sid: Id, pid: Id, time: int, score: int): RankingCell {
    RankingCell(true, sid, 1, time, score, Penalty(t, IID, pid, sid, score))
  }

  /** A plan for the cell of a first result, on a row as it was read. */
  ghost function FirstPlan(t: Tables, r: Report, pid: Id, time: int): Plan
    requires IID in t.rows
  {
    var cells := t.rows[IID].problems[pid := FirstCell(t, r.run.sid, pid, time, r.score)];
    Plan(r, IID, pid, true, Some(Folded(CONTEST, cells)))
  }

  lemma BlankPlan(b: System, r: Report)
    requires Known(b, r) && r.run.jid == 1 && b.tables.contest == CONTEST && b.tables.submissions[r.run.sid].iid == IID
    requires Ranks(b, r) && !CellOf(b.tables, IID, b.tables.submissions[r.run.sid].pid).valid
    ensures var row := b.tables.submissions[r.run.sid]; PlanFor(b, r) == FirstPlan(b.tables, r, row.pid, row.submitTime)
  {
  }

  /** A transaction that finds a blank cell. */
  lemma Reads(acts: seq<Act>, c: State, tx: Id, r: Report) returns (more: seq<Act>, c': State)
    requires Gets(acts, c) && tx !in c.active && r in c.base.pending && Known(c.base, r) && r.run.jid == 1
    requires c.base.tables.contest == CONTEST && Ranks(c.base, r) && c.base.tables.submissions[r.run.sid].iid == IID
    requires !CellOf(c.base.tables, IID, c.base.tables.submissions[r.run.sid].pid).valid
    ensures Gets(more, c') && c'.base == c.base.(pending := c.base.pending - multiset{r})
    ensures var row := c.base.tables.submissions[r.run.sid];
      c'.active == c.active[tx := FirstPlan(c.base.tables, r, row.pid, row.submitTime)]
  {
    BlankPlan(c.base, r);
    more, c' := Does(acts, c, Read(tx, r));
  }

  lemma Writes(acts: seq<Act>, c: State, tx: Id) returns (more: seq<Act>, c': State)
    requires Gets(acts, c) && tx in c.active && Ready(c.active[tx])
    requires c.active[tx].iid == IID && IID in c.base.tables.rows && c.active[tx].ranks
    ensures Gets(more, c') && c'.active == c.active - {tx}
    ensures c'.base == c.base.(tables := c.base.tables.(rows := c'.base.tables.rows),
                               delivered := c'.base.delivered, voided := c'.base.voided)
    ensures c'.base.delivered == Delivered(c.base, c.active[tx].report)
    ensures c'.base.voided == Voided(c.base, c.active[tx].report)
    ensures IID in c'.base.tables.rows && c'.base.tables.rows[IID] == Written(c.base.tables.rows[IID], c.active[tx])
  {
    more, c' := Does(acts, c, Write(tx));
  }

  lemma BothWritten(row: Row, p1: Plan, p2: Plan, c1: RankingCell, c2: RankingCell)
    requires p1.write == Some(Folded(CONTEST, row.problems[p1.pid := c1]))
    requires p2.write == Some(Folded(CONTEST, row.problems[p2.pid := c2]))
    ensures Ready(p1) && Ready(p2)
    ensures var r := Written(Written(row, p1), p2);
      r.problems == (row.problems[p1.pid := c1])[p2.pid := c2] && r.score == p2.write.value.score
  {
  }

  const FIRST: Report := Report(Run(1, 1), 100)
  const SECOND: Report := Report(Run(2, 1), 60)

  /** The results of both, in the table and nowhere on their way. */
  predicate BothResults(s: System, pid: Id) {
    && s.tables.contest == CONTEST && s.pending == multiset{} && s.voided == {}
    && s.tables.submissions == map[1 := RowOf(10, 1, 1, ACCEPTED, 100), 2 := RowOf(20, 1, 1, ACCEPTED, 60).(pid := pid)]
    && IID in s.tables.rows
  }

  /** Both transactions have read before either writes. */
  lemma BothRead(pid: Id) returns (acts: seq<Act>, c: State)
    requires pid == PID || pid == OTHER
    ensures Gets(acts, c) && BothResults(c.base, pid) && c.base.delivered == map[]
    ensures c.base.tables.rows[IID].problems == map[PID := INVALID_CELL, OTHER := INVALID_CELL]
    ensures c.active ==
      map[1 := FirstPlan(c.base.tables, FIRST, PID, 10), 2 := FirstPlan(c.base.tables, SECOND, pid, 20)]
  {
    hide Folded, FirstCell, Penalty;
    var steps, s := BothReported(pid);
    SameRun(Start(CONTEST), steps);
    acts, c := Others(steps), State(s, IDLE);
    acts, c := Reads(acts, c, 1, FIRST);
    acts, c := Reads(acts, c, 2, SECOND);
  }

  lemma SameFirst(t: Tables, u: Tables, sid: Id, pid: Id, time: int, score: int)
    requires u.contest == t.contest && u.submissions == t.submissions
    ensures FirstCell(u, sid, pid, time, score) == FirstCell(t, sid, pid, time, score)
  {
  }

  /** And then both write. */
  lemma Overlap(pid: Id) returns (acts: seq<Act>, c: State)
    requires pid == PID || pid == OTHER
    ensures Gets(acts, c) && c.active == IDLE && BothResults(c.base, pid)
    ensures c.base.delivered == map[1 := FIRST, 2 := SECOND]
    ensures var t, blank: Cells := c.base.tables, map[PID := INVALID_CELL, OTHER := INVALID_CELL];
      var c1, c2 := FirstCell(t, 1, PID, 10, 100), FirstCell(t, 2, pid, 20, 60);
      && t.rows[IID].problems == (blank[PID := c1])[pid := c2]
      && t.rows[IID].score == Folded(CONTEST, blank[pid := c2]).score
  {
    hide Folded, Written, FirstCell, Penalty;
    acts, c := BothRead(pid);
    ghost var t, p1, p2 := c.base.tables, c.active[1], c.active[2];
    BothWritten(t.rows[IID], p1, p2, FirstCell(t, 1, PID, 10, 100), FirstCell(t, 2, pid, 20, 60));
    acts, c := Writes(acts, c, 1);
    acts, c := Writes(acts, c, 2);
    assert c.active == IDLE;
    SameFirst(t, c.base.tables, 1, PID, 10, 100);
    SameFirst(t, c.base.tables, 2, pid, 20, 60);
  }

  /** Of one problem: the cell is the second writer's, though the first one's result is better. */
  lemma LostCellExample() returns (acts: seq<Act>, c: State)
    ensures Gets(acts, c) && c.active == IDLE && Quiescent(c.base, IID, PID) && !Agrees(c.base, true)
    ensures Holds(c.base, 2, 1, 20, 60) && 1 in c.base.tables.submissions && c.base.tables.submissions[1].score == 100
  {
    acts, c := Overlap(PID);
    assert !Before(60, 2, 100, 1);
    assert 1 !in Forgiven(c.base.voided, true) by {
      assert c.base.voided == {};
    }
    assert !AgreesWith(c.base.tables, c.base.delivered, Forgiven(c.base.voided, true), IID, PID,
      CellOf(c.base.tables, IID, PID));
  }

  lemma ScoresOfTwo(c1: RankingCell, c2: RankingCell)
    ensures Total(map[PID := c1, OTHER := c2], ScoreOf) == c1.score + c2.score
  {
    var both, one: Cells := map[PID := c1, OTHER := c2], map[OTHER := c2];
    TotalTakesAny(both, ScoreOf, PID);
    assert both - {PID} == one;
    TotalTakesAny(one, ScoreOf, OTHER);
    assert one - {OTHER} == map[];
  }

  /** Of two problems: the cells say 100 and 60, the score of the row says 60. */
  lemma LostFoldExample() returns (acts: seq<Act>, c: State)
    ensures Gets(acts, c) && c.active == IDLE && !Folds(c.base.tables) && IID in c.base.tables.rows
    ensures c.base.tables.rows[IID].score == 60 && GeneralScore(c.base.tables.rows[IID].problems) == 160
  {
    acts, c := Overlap(OTHER);
    var t := c.base.tables;
    var c1, c2 := FirstCell(t, 1, PID, 10, 100), FirstCell(t, 2, OTHER, 20, 60);
    assert t.rows[IID].problems == map[PID := c1, OTHER := c2];
    var blank: Cells := map[PID := INVALID_CELL, OTHER := INVALID_CELL];
    assert blank[OTHER := c2] == map[PID := INVALID_CELL, OTHER := c2];
    TwoScores(t, c1, c2);
  }

  lemma TwoScores(t: Tables, c1: RankingCell, c2: RankingCell)
    requires t.contest == CONTEST && c1.score == 100 && c2.score == 60
    requires IID in t.rows && t.rows[IID].problems == map[PID := c1, OTHER := c2]
    requires t.rows[IID].score == Folded(CONTEST, map[PID := INVALID_CELL, OTHER := c2]).score
    ensures t.rows[IID].score == 60 && GeneralScore(t.rows[IID].problems) == 160 && !Folds(t)
  {
    ScoresOfTwo(c1, c2);
    ScoresOfTwo(INVALID_CELL, c2);
  }
}
