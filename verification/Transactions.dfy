/**
 * The ranking transaction as the code runs it: it reads the participant's row without a lock, and later writes one
 * cell and the folded columns. Transactions of several handlers may overlap.
 */
module Transactions {
  import opened Types
  import opened Evaluation
  import opened Ranking
  import opened Pipeline
  import opened Agreement
  import opened Theorems

  /**
   * What a transaction will write: the counted cell, and the folded columns of the row as it read it. `ranks` says
   * whether it found a cell at all.
   */
  datatype Plan = Plan(report: Report, iid: Id, pid: Id, ranks: bool, write: Option<Row>)

  /**
   * `base` holds what is committed. A report waits no more once its transaction reads, and is delivered once it
   * writes.
   */
  datatype State = State(base: System, active: map<Id, Plan>)

  datatype Act =
    | Other(step: Step)
    | Read(tx: Id, report: Report)
    | Write(tx: Id)

  /** The row as the transaction wants it: its cells as read, with the counted cell among them. */
  ghost function ToWrite(t: Tables, iid: Id, pid: Id, rc: RankingCell): Option<Row> {
    if !HasCell(t, iid, pid) then None
    else
      match Choose(t, iid, pid, CellOf(t, iid, pid), rc)
      case Put(cell) =>
        var counted := cell.(penalty := Penalty(t, iid, pid, cell.sid, cell.score));
        Some(Folded(t.contest, t.rows[iid].problems[pid := counted]))
      case _ => None
  }

  ghost function PlanFor(b: System, r: Report): Plan
    requires Known(b, r)
  {
    var row := b.tables.submissions[r.run.sid];
    Plan(r, row.iid, row.pid, Ranks(b, r), ToWrite(b.tables, row.iid, row.pid, Offered(b.tables, r)))
  }

  predicate Ready(p: Plan) {
    p.write.Some? ==> p.pid in p.write.value.problems
  }

  /** The write: one cell and the folded columns, on the row as it is by now. */
  function Written(row: Row, p: Plan): Row
    requires Ready(p)
  {
    match p.write
    case None => row
    case Some(w) => Row(row.problems[p.pid := w.problems[p.pid]], w.general, w.score, w.value1, w.value2)
  }

  ghost predicate Possible(c: State, act: Act) {
    match act
    case Other(step) => !step.UpdateRanking? && Enabled(c.base, step)
    case Read(tx, r) => tx !in c.active && Enabled(c.base, UpdateRanking(r))
    case Write(tx) => tx in c.active && Ready(c.active[tx])
  }

  ghost function WithRows(s: System, iid: Id, p: Plan): System
    requires Ready(p)
  {
    if iid !in s.tables.rows then s
    else s.(tables := s.tables.(rows := s.tables.rows[iid := Written(s.tables.rows[iid], p)]))
  }

  function Counted(s: System, p: Plan): System {
    if p.ranks then s.(delivered := Delivered(s, p.report), voided := Voided(s, p.report)) else s
  }

  ghost function Then(c: State, act: Act): State
    requires Possible(c, act)
  {
    match act
    case Other(step) => c.(base := Next(c.base, step))
    case Read(tx, r) =>
      State(c.base.(pending := c.base.pending - multiset{r}), c.active[tx := PlanFor(c.base, r)])
    case Write(tx) =>
      State(Counted(WithRows(c.base, c.active[tx].iid, c.active[tx]), c.active[tx]), c.active - {tx})
  }

  ghost predicate Acts(c: State, acts: seq<Act>)
    decreases |acts|
  {
    acts == [] || (Possible(c, acts[0]) && Acts(Then(c, acts[0]), acts[1..]))
  }

  ghost function End(c: State, acts: seq<Act>): State
    requires Acts(c, acts)
    decreases |acts|
  {
    if acts == [] then c else End(Then(c, acts[0]), acts[1..])
  }

  // ---------------------------------------------------------------- transactions that do not overlap

  predicate Idle(active: map<Id, Plan>, iid: Id) {
    forall tx :: tx in active ==> active[tx].iid != iid
  }

  /** A transaction reads only while no other one of the participant is under way. */
  predicate Apart(c: State, act: Act) {
    act.Read? && Known(c.base, act.report) ==> Idle(c.active, c.base.tables.submissions[act.report.run.sid].iid)
  }

  ghost predicate ApartRun(c: State, acts: seq<Act>)
    requires Acts(c, acts)
    decreases |acts|
  {
    acts != [] ==> Apart(c, acts[0]) && ApartRun(Then(c, acts[0]), acts[1..])
  }

  /** The same run with every update made at once, where its transaction reads. */
  function Atomic(acts: seq<Act>): seq<Step> {
    if acts == [] then [] else AtomicStep(acts[0]) + Atomic(acts[1..])
  }

  function AtomicStep(act: Act): seq<Step> {
    match act
    case Other(step) => [step]
    case Read(_, r) => [UpdateRanking(r)]
    case Write(_) => []
  }

  // ---------------------------------------------------------------- rows with the pending writes made

  predicate Fits(p: Plan, rows: map<Id, Row>, columns: set<Id>) {
    && Ready(p) && (p.write.Some? ==> p.iid in rows && p.pid in columns)
  }

  predicate Made(p: Plan, rows: map<Id, Row>, made: map<Id, Row>)
    requires Ready(p)
  {
    p.iid in rows && p.iid in made ==> made[p.iid] == Written(rows[p.iid], p)
  }

  /** `made` are the rows with the writes of the active transactions made, at most one of each participant. */
  ghost predicate RowsMade(active: map<Id, Plan>, rows: map<Id, Row>, made: map<Id, Row>, columns: set<Id>) {
    && made.Keys == rows.Keys && (forall i :: i in rows ==> rows[i].problems.Keys == columns)
    && (forall i :: i in rows && i in made && Idle(active, i) ==> made[i] == rows[i])
    && (forall tx :: tx in active ==> Fits(active[tx], rows, columns) && Made(active[tx], rows, made))
    && (forall tx, tx' :: tx in active && tx' in active && tx != tx' ==> active[tx].iid != active[tx'].iid)
  }

  lemma JoinMade(active: map<Id, Plan>, rows: map<Id, Row>, made: map<Id, Row>, columns: set<Id>, iid: Id)
    requires RowsMade(active, rows, made, columns) && iid !in rows
    ensures RowsMade(active, rows[iid := FreshRow(columns)], made[iid := FreshRow(columns)], columns)
  {
    var rows', made' := rows[iid := FreshRow(columns)], made[iid := FreshRow(columns)];
    forall tx | tx in active ensures Fits(active[tx], rows', columns) && Made(active[tx], rows', made') {
      assert Fits(active[tx], rows, columns) && Made(active[tx], rows, made);
    }
  }

  function Widened(rows: map<Id, Row>, pid: Id): map<Id, Row> {
    map i | i in rows :: rows[i].(problems := rows[i].problems[pid := INVALID_CELL])
  }

  lemma ColumnMade(active: map<Id, Plan>, rows: map<Id, Row>, made: map<Id, Row>, columns: set<Id>, pid: Id)
    requires RowsMade(active, rows, made, columns) && pid !in columns
    ensures RowsMade(active, Widened(rows, pid), Widened(made, pid), columns + {pid})
  {
    forall tx | tx in active
      ensures Fits(active[tx], Widened(rows, pid), columns + {pid}) &&
        Made(active[tx], Widened(rows, pid), Widened(made, pid))
    {
      var p := active[tx];
      assert Fits(p, rows, columns) && Made(p, rows, made);
      if p.iid in rows && p.write.Some? {
        var cells: Cells, cell := rows[p.iid].problems, p.write.value.problems[p.pid];
        assert (cells[p.pid := cell])[pid := INVALID_CELL] == (cells[pid := INVALID_CELL])[p.pid := cell];
      }
    }
  }

  lemma ReadMade(active: map<Id, Plan>, rows: map<Id, Row>, made: map<Id, Row>, columns: set<Id>, tx: Id, p: Plan)
    requires RowsMade(active, rows, made, columns) && tx !in active && Idle(active, p.iid) && Fits(p, rows, columns)
    ensures var made' := if p.iid in rows then made[p.iid := Written(rows[p.iid], p)] else made;
      RowsMade(active[tx := p], rows, made', columns)
  {
    hide Written;
    var active', made' := active[tx := p], if p.iid in rows then made[p.iid := Written(rows[p.iid], p)] else made;
    forall i | i in rows && i in made' && Idle(active', i) ensures made'[i] == rows[i] {
      assert active'[tx].iid != i;
      assert Idle(active, i) by {
        forall o | o in active ensures active[o].iid != i {
          assert active'[o].iid != i;
        }
      }
    }
    forall o | o in active' ensures Fits(active'[o], rows, columns) && Made(active'[o], rows, made') {
      assert o in active ==> Fits(active[o], rows, columns) && Made(active[o], rows, made);
    }
  }

  lemma IdleWithout(active: map<Id, Plan>, tx: Id, iid: Id)
    requires tx in active && active[tx].iid != iid && Idle(active - {tx}, iid)
    ensures Idle(active, iid)
  {
    forall o | o in active ensures active[o].iid != iid {
      assert o != tx ==> o in active - {tx};
    }
  }

  /** A row is what it was to become. */
  lemma RowWritten(active: map<Id, Plan>, rows: map<Id, Row>, made: map<Id, Row>, columns: set<Id>, tx: Id, iid: Id)
    requires RowsMade(active, rows, made, columns) && tx in active && active[tx].iid == iid && iid in rows &&
      iid in made
    requires made[iid].problems.Keys == columns
    ensures RowsMade(active - {tx}, rows[iid := made[iid]], made, columns)
  {
    hide Written;
    var active', rows' := active - {tx}, rows[iid := made[iid]];
    forall i | i in rows' && i in made && Idle(active', i) ensures made[i] == rows'[i] {
      if i != iid {
        IdleWithout(active, tx, i);
      }
    }
    forall o | o in active' ensures Fits(active'[o], rows', columns) && Made(active'[o], rows', made) {
      assert Fits(active[o], rows, columns) && Made(active[o], rows, made);
    }
  }

  lemma NothingWritten(active: map<Id, Plan>, rows: map<Id, Row>, made: map<Id, Row>, columns: set<Id>, tx: Id)
    requires RowsMade(active, rows, made, columns) && tx in active && active[tx].iid !in rows
    ensures RowsMade(active - {tx}, rows, made, columns)
  {
    forall i | i in rows && i in made && Idle(active - {tx}, i) ensures made[i] == rows[i] {
      IdleWithout(active, tx, i);
    }
  }

  lemma WriteMade(active: map<Id, Plan>, rows: map<Id, Row>, made: map<Id, Row>, columns: set<Id>, tx: Id)
    requires RowsMade(active, rows, made, columns) && tx in active && Ready(active[tx])
    ensures var p := active[tx];
      RowsMade(active - {tx}, if p.iid in rows then rows[p.iid := Written(rows[p.iid], p)] else rows, made, columns)
  {
    var p := active[tx];
    if p.iid in rows {
      assert p.iid in made.Keys && Fits(p, rows, columns) && Made(p, rows, made);
      MadeShaped(active, rows, made, columns);
      RowWritten(active, rows, made, columns, tx, p.iid);
    } else {
      NothingWritten(active, rows, made, columns, tx);
    }
  }

  lemma MadeShaped(active: map<Id, Plan>, rows: map<Id, Row>, made: map<Id, Row>, columns: set<Id>)
    requires RowsMade(active, rows, made, columns)
    ensures forall i :: i in made ==> made[i].problems.Keys == columns
  {
    forall i | i in made ensures made[i].problems.Keys == columns {
      assert i in rows.Keys;
      if !Idle(active, i) {
        var tx :| tx in active && active[tx].iid == i;
        assert Fits(active[tx], rows, columns) && Made(active[tx], rows, made);
      }
    }
  }

  // ---------------------------------------------------------------- the atomic run

  /** But for the history of deliveries, and for ranking rows. */
  predicate SameBut(b: System, s: System) {
    s == b.(tables := b.tables.(rows := s.tables.rows), delivered := s.delivered, voided := s.voided)
  }

  /** `s` is the committed state, with the pending writes made already. */
  ghost predicate Mirrors(c: State, s: System) {
    SameBut(c.base, s) && RowsMade(c.active, c.base.tables.rows, s.tables.rows, c.base.tables.columns)
  }

  lemma JoinMirrors(c: State, s: System, act: Act)
    requires Mirrors(c, s) && Possible(c, act) && act.Other? && act.step.Join?
    ensures Enabled(s, act.step) && Mirrors(Then(c, act), Next(s, act.step))
  {
    var t, iid := c.base.tables, act.step.iid;
    if iid !in t.rows {
      JoinMade(c.active, t.rows, s.tables.rows, t.columns, iid);
    }
  }

  lemma ColumnMirrors(c: State, s: System, act: Act)
    requires Mirrors(c, s) && Possible(c, act) && act.Other? && act.step.AddProblem?
    ensures Enabled(s, act.step) && Mirrors(Then(c, act), Next(s, act.step))
  {
    var t, pid := c.base.tables, act.step.pid;
    if pid !in t.columns {
      ColumnMade(c.active, t.rows, s.tables.rows, t.columns, pid);
    }
  }

  lemma OtherMirrors(c: State, s: System, act: Act)
    requires Mirrors(c, s) && Possible(c, act) && act.Other?
    ensures Enabled(s, act.step) && Mirrors(Then(c, act), Next(s, act.step))
  {
    if act.step.Join? {
      JoinMirrors(c, s, act);
    } else if act.step.AddProblem? {
      ColumnMirrors(c, s, act);
    } else {
      hide RowsMade;
      assert Next(s, act.step).tables.rows == s.tables.rows;
    }
  }

  lemma PlanFits(t: Tables, p: Plan, rc: RankingCell)
    requires Shaped(t) && p.write == ToWrite(t, p.iid, p.pid, rc)
    ensures Fits(p, t.rows, t.columns)
    ensures var u := RankingUpdate(t, p.iid, p.pid, rc);
      (if u.Ok? then u.value else t)
      == if p.iid in t.rows then t.(rows := t.rows[p.iid := Written(t.rows[p.iid], p)]) else t
  {
  }

  lemma SamePlan(t: Tables, u: Tables, iid: Id, pid: Id, rc: RankingCell)
    requires u == t.(rows := u.rows)
    requires iid in t.rows <==> iid in u.rows
    requires iid in t.rows ==> u.rows[iid] == t.rows[iid]
    ensures ToWrite(u, iid, pid, rc) == ToWrite(t, iid, pid, rc)
  {
    hide Choose, Penalty, Folded;
    if HasCell(t, iid, pid) {
      SameChoice(t, u, iid, pid, CellOf(t, iid, pid), rc);
    }
  }

  lemma SameChoice(t: Tables, u: Tables, iid: Id, pid: Id, cell: RankingCell, rc: RankingCell)
    requires u.contest == t.contest && u.submissions == t.submissions
    ensures Choose(u, iid, pid, cell, rc) == Choose(t, iid, pid, cell, rc)
    ensures forall sid, score :: Penalty(u, iid, pid, sid, score) == Penalty(t, iid, pid, sid, score)
  {
  }

  /** The two systems differ in ranking rows only, and not in the participant's. */
  ghost predicate SameFor(b: System, s: System, iid: Id) {
    && SameBut(b, s) && (iid in s.tables.rows <==> iid in b.tables.rows)
    && (iid in s.tables.rows ==> s.tables.rows[iid] == b.tables.rows[iid])
  }

  lemma SamePlanFor(b: System, s: System, r: Report)
    requires Known(b, r) && SameFor(b, s, b.tables.submissions[r.run.sid].iid)
    ensures PlanFor(s, r) == PlanFor(b, r)
  {
    var row := b.tables.submissions[r.run.sid];
    assert Offered(s.tables, r) == Offered(b.tables, r);
    SamePlan(b.tables, s.tables, row.iid, row.pid, Offered(b.tables, r));
  }

  lemma ReadRows(c: State, s: System, iid: Id)
    requires Mirrors(c, s) && Idle(c.active, iid)
    ensures SameFor(c.base, s, iid)
  {
    assert iid in s.tables.rows.Keys <==> iid in c.base.tables.rows.Keys;
  }

  /** `u` is `t` after the planned write. */
  ghost predicate Puts(t: Tables, u: Tables, p: Plan)
    requires Ready(p)
  {
    u == if p.iid in t.rows then t.(rows := t.rows[p.iid := Written(t.rows[p.iid], p)]) else t
  }

  lemma RankedPuts(s: System, r: Report)
    requires Known(s, r) && Shaped(s.tables)
    ensures Fits(PlanFor(s, r), s.tables.rows, s.tables.columns) && Puts(s.tables, Ranked(s, r).tables, PlanFor(s, r))
    ensures PlanFor(s, r).iid == s.tables.submissions[r.run.sid].iid
  {
    PlanFits(s.tables, PlanFor(s, r), Offered(s.tables, r));
  }

  lemma ReadStep(c: State, s: System, act: Act, p: Plan)
    requires Mirrors(c, s) && Possible(c, act) && act.Read? && p == PlanFor(c.base, act.report)
    requires Fits(p, c.base.tables.rows, c.base.tables.columns) && Idle(c.active, p.iid) && SameFor(c.base, s, p.iid)
    requires Puts(s.tables, Ranked(s, act.report).tables, p)
    ensures Enabled(s, UpdateRanking(act.report)) && Mirrors(Then(c, act), Next(s, UpdateRanking(act.report)))
  {
    ReadMade(c.active, c.base.tables.rows, s.tables.rows, c.base.tables.columns, act.tx, p);
  }

  /** A transaction plans on the committed rows what it would plan with the pending writes made. */
  lemma ReadMirrors(c: State, s: System, act: Act)
    requires Mirrors(c, s) && Possible(c, act) && act.Read? && Apart(c, act)
    ensures Enabled(s, UpdateRanking(act.report)) && Mirrors(Then(c, act), Next(s, UpdateRanking(act.report)))
  {
    MadeShaped(c.active, c.base.tables.rows, s.tables.rows, c.base.tables.columns);
    ReadRows(c, s, c.base.tables.submissions[act.report.run.sid].iid);
    SamePlanFor(c.base, s, act.report);
    RankedPuts(s, act.report);
    ReadStep(c, s, act, PlanFor(s, act.report));
  }

  lemma WriteMirrors(c: State, s: System, act: Act)
    requires Mirrors(c, s) && Possible(c, act) && act.Write?
    ensures Mirrors(Then(c, act), s)
  {
    WriteMade(c.active, c.base.tables.rows, s.tables.rows, c.base.tables.columns, act.tx);
  }

  lemma {:induction false} RunMirrors(c: State, s: System, acts: seq<Act>)
    requires Mirrors(c, s) && Acts(c, acts) && ApartRun(c, acts)
    ensures Runs(s, Atomic(acts)) && Mirrors(End(c, acts), After(s, Atomic(acts)))
    decreases |acts|
  {
    if acts != [] {
      var act, rest := acts[0], Atomic(acts[1..]);
      assert act.Write? ==> Atomic(acts) == rest;
      assert !act.Write? ==> Atomic(acts)[1..] == rest;
      if act.Other? {
        OtherMirrors(c, s, act);
        RunMirrors(Then(c, act), Next(s, act.step), acts[1..]);
      } else if act.Read? {
        ReadMirrors(c, s, act);
        RunMirrors(Then(c, act), Next(s, UpdateRanking(act.report)), acts[1..]);
      } else {
        WriteMirrors(c, s, act);
        RunMirrors(Then(c, act), s, acts[1..]);
      }
    }
  }

  const IDLE: map<Id, Plan> := map[]

  /**
   * When transactions of one participant do not overlap, a run is one in which every ranking update is made at
   * once: the same commits are there whenever no transaction is under way, and the rows of participants without
   * one are the same at any time.
   */
  lemma SerialRun(contest: Contest, acts: seq<Act>)
    requires Acts(State(Start(contest), IDLE), acts) && ApartRun(State(Start(contest), IDLE), acts)
    ensures Runs(Start(contest), Atomic(acts))
    ensures var c, s := End(State(Start(contest), IDLE), acts), After(Start(contest), Atomic(acts));
      && (c.active == IDLE ==> c.base.tables == s.tables && c.base.pending == s.pending)
      && (forall iid :: Idle(c.active, iid) ==> SameFor(c.base, s, iid))
  {
    RunMirrors(State(Start(contest), IDLE), Start(contest), acts);
    var c, s := End(State(Start(contest), IDLE), acts), After(Start(contest), Atomic(acts));
    forall iid | Idle(c.active, iid) ensures SameFor(c.base, s, iid) {
      ReadRows(c, s, iid);
    }
    if c.active == IDLE {
      assert forall iid :: Idle(c.active, iid);
      assert s.tables.rows == c.base.tables.rows;
    }
  }

  /** Then the committed row of a participant without a transaction under way is folded from its cells. */
  lemma SerialFolds(contest: Contest, acts: seq<Act>, iid: Id)
    requires Acts(State(Start(contest), IDLE), acts) && ApartRun(State(Start(contest), IDLE), acts)
    requires var c := End(State(Start(contest), IDLE), acts); Idle(c.active, iid) && iid in c.base.tables.rows
    ensures var t := End(State(Start(contest), IDLE), acts).base.tables;
      t.rows[iid] == Folded(t.contest, t.rows[iid].problems)
  {
    SerialRun(contest, acts);
    var c, s := End(State(Start(contest), IDLE), acts), After(Start(contest), Atomic(acts));
    FoldsRun(Start(contest), Atomic(acts));
    assert SameFor(c.base, s, iid);
  }

  /** And its cells at rest are the batch cells, when the updates in the order of their reads are careful. */
  lemma SerialView(contest: Contest, acts: seq<Act>, iid: Id, pid: Id)
    requires Acts(State(Start(contest), IDLE), acts) && ApartRun(State(Start(contest), IDLE), acts)
    requires Runs(Start(contest), Atomic(acts)) && CarefulRun(Start(contest), Atomic(acts))
    requires var c := End(State(Start(contest), IDLE), acts);
      Idle(c.active, iid) && HasCell(c.base.tables, iid, pid) && Quiescent(c.base, iid, pid)
    ensures var t := End(State(Start(contest), IDLE), acts).base.tables; IsBatchCell(t, iid, pid, CellOf(t, iid, pid))
  {
    SerialRun(contest, acts);
    var c, s := End(State(Start(contest), IDLE), acts), After(Start(contest), Atomic(acts));
    assert SameFor(c.base, s, iid);
    RankingIsView(contest, Atomic(acts), iid, pid);
    BatchOfSame(c.base.tables, s.tables, iid, pid);
  }

  lemma BatchOfSame(t: Tables, u: Tables, iid: Id, pid: Id)
    requires u.contest == t.contest && u.submissions == t.submissions && HasCell(t, iid, pid) && HasCell(u, iid, pid)
    requires CellOf(u, iid, pid) == CellOf(t, iid, pid) && IsBatchCell(u, iid, pid, CellOf(u, iid, pid))
    ensures IsBatchCell(t, iid, pid, CellOf(t, iid, pid))
  {
    var c := CellOf(t, iid, pid);
    assert forall q: Id :: OnTimeMine(t, q, iid, pid) <==> OnTimeMine(u, q, iid, pid);
    assert c.valid ==> WrongBefore(t, iid, pid, c.sid, c.score) == WrongBefore(u, iid, pid, c.sid, c.score);
  }

  // ---------------------------------------------------------------- transactions that overlap

  /** The committed state as it would be if the transaction had not begun: its report still waits. */
  function Waiting(c: State, p: Plan): System {
    c.base.(pending := c.base.pending + multiset{p.report})
  }

  /** The plan is for a report whose submission the table has, and for its cell. */
  predicate PlanOfReport(c: State, p: Plan) {
    && Known(c.base, p.report) && p.ranks && Ranks(c.base, p.report)
    && Fits(p, c.base.tables.rows, c.base.tables.columns)
    && var row := c.base.tables.submissions[p.report.run.sid]; p.iid == row.iid && p.pid == row.pid
  }

  /** The cell as the transaction leaves it. */
  function CellLeft(c: State, p: Plan): RankingCell
    requires PlanOfReport(c, p)
  {
    if p.write.Some? then p.write.value.problems[p.pid] else CellOf(c.base.tables, p.iid, p.pid)
  }

  lemma WriteDelivers(c: State, tx: Id)
    requires tx in c.active && PlanOfReport(c, c.active[tx]) && Shaped(c.base.tables)
    ensures var p, s' := c.active[tx], Then(c, Write(tx)).base;
      && Delivers(Waiting(c, p), s', p.report) && HasCell(s'.tables, p.iid, p.pid)
      && CellOf(s'.tables, p.iid, p.pid) == CellLeft(c, p)
  {
    var p, s' := c.active[tx], Then(c, Write(tx)).base;
    RowTouched(c.base, p);
    assert s'.tables == WithRows(c.base, p.iid, p).tables;
    assert s'.delivered == Delivered(c.base, p.report) && s'.voided == Voided(c.base, p.report);
    hide Written, Touches;
    assert Delivers(Waiting(c, p), s', p.report);
  }

  lemma RowTouched(b: System, p: Plan)
    requires Fits(p, b.tables.rows, b.tables.columns) && Shaped(b.tables) && HasCell(b.tables, p.iid, p.pid)
    ensures var t := WithRows(b, p.iid, p).tables;
      && Touches(b.tables, t, p.iid, p.pid) && HasCell(t, p.iid, p.pid)
      && CellOf(t, p.iid, p.pid)
         == if p.write.Some? then p.write.value.problems[p.pid] else CellOf(b.tables, p.iid, p.pid)
  {
  }

  /**
   * A write, exactly, whatever was committed since its transaction read: an update that would be harmless now leaves
   * the cells in agreement with the delivered reports if and only if choosing again, now, gives the cell the
   * transaction leaves, but for its penalty.
   */
  lemma WriteCellExact(c: State, tx: Id)
    requires tx in c.active && PlanOfReport(c, c.active[tx])
    requires var b := Waiting(c, c.active[tx]);
      Valid(b) && Agrees(b, false) && Harmless(b, c.active[tx].report, false)
    ensures var p := c.active[tx];
      Agrees(Then(c, Write(tx)).base, false) <==>
        CellLeft(c, p) == CellAfter(Waiting(c, p), p.report).(penalty := CellLeft(c, p).penalty)
  {
    var p := c.active[tx];
    var b, r, left := Waiting(c, p), p.report, CellLeft(c, p);
    WriteDelivers(c, tx);
    OnlyThatCell(b, Then(c, Write(tx)).base, r, false);
    HarmlessExact(b, r, false);
    var right := CellAfter(b, r);
    assert AgreesWith(b.tables, Delivered(b, r), {}, p.iid, p.pid, right);
    AgreesUpToPenalty(b.tables, Delivered(b, r), p.iid, p.pid, right, left);
  }

  lemma AgreesUpToPenalty(t: Tables, d: map<Id, Report>, iid: Id, pid: Id, right: RankingCell, left: RankingCell)
    requires AgreesWith(t, d, {}, iid, pid, right) && right.valid
    ensures AgreesWith(t, d, {}, iid, pid, left) <==> left == right.(penalty := left.penalty)
  {
    assert left.valid && AgreesWith(t, d, {}, iid, pid, left) ==> left.sid == right.sid;
  }

  /** The cells of two rows that are the same. */
  function Same(now: Cells, read: Cells): Cells {
    map q | q in now && q in read && now[q] == read[q] :: now[q]
  }

  /**
   * The folded columns after a write, exactly: they belong to the cells if and only if the cells that others changed
   * since the transaction read contribute the same now as then.
   */
  lemma WriteFoldExact(c: State, tx: Id)
    requires tx in c.active && PlanOfReport(c, c.active[tx]) && c.active[tx].write.Some?
    requires var w := c.active[tx].write.value; w == Folded(c.base.tables.contest, w.problems)
    ensures var p, t := c.active[tx], Then(c, Write(tx)).base.tables;
      var now, read := t.rows[p.iid].problems, p.write.value.problems;
      t.rows[p.iid] == Folded(t.contest, now) <==>
        Alike(t.contest.kind, Same(now, read), now - Same(now, read).Keys, read - Same(now, read).Keys)
  {
    var p, t := c.active[tx], Then(c, Write(tx)).base.tables;
    var now, read := t.rows[p.iid].problems, p.write.value.problems;
    var same := Same(now, read);
    assert now == same + (now - same.Keys) && read == same + (read - same.Keys);
    AlikeExact(t.contest.kind, same, now - same.Keys, read - same.Keys);
    WrittenFolds(t.contest, c.base.tables.rows[p.iid], p);
  }

  lemma WrittenFolds(contest: Contest, row: Row, p: Plan)
    requires Ready(p) && p.write.Some? && p.write.value == Folded(contest, p.write.value.problems)
    ensures var after := Written(row, p);
      after == Folded(contest, after.problems)
      <==> General(contest.kind, after.problems) == General(contest.kind, p.write.value.problems)
  {
  }
}
