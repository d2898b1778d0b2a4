/** The database manager: its methods change the tables in place, one committed transaction each. */
module Database {
  import opened Types
  import opened Submissions
  import opened Evaluation
  import opened Ranking
  import opened Pipeline

  class DatabaseManager {
    const contest: Contest
    var submissions: map<Id, Submission>
    var columns: set<Id>
    var rows: map<Id, Row>

    ghost function View(): Tables
      reads this
    {
      Tables(contest, submissions, columns, rows)
    }

    constructor (contest: Contest)
      ensures View() == Start(contest).tables
    {
      this.contest := contest;
      submissions, columns, rows := map[], {}, map[];
    }

    method SubmissionUpdateResult(sid: Id, jid: Id, status: Status, score: int, time: int, mem: int)
      returns (r: Result<()>)
      modifies this`submissions
      ensures sid !in old(submissions) ==> r == Failed(UnknownSubmission) && View() == old(View())
      ensures sid in old(submissions) ==>
        && r == Ok(())
        && View()
           == WithRow(old(View()), sid, Apply(old(submissions)[sid], ResultMessage(jid, status, score, time, mem)))
    {
      if sid !in submissions {
        return Failed(UnknownSubmission);
      }
      var sm := submissions[sid];
      if sm.jid > jid {
        assert submissions == submissions[sid := sm];
        return Ok(());
      }
      if sm.jid < jid {
        sm := sm.(cases := []);
      }
      sm := sm.(jid := jid, status := status, score := score, time := time, mem := mem);
      submissions := submissions[sid := sm];
      return Ok(());
    }

    method SubmissionUpdateTestCase(sid: Id, jid: Id, res: TestCase) returns (r: Result<()>)
      modifies this`submissions
      ensures sid !in old(submissions) ==> r == Failed(UnknownSubmission) && View() == old(View())
      ensures sid in old(submissions) ==>
        r == Ok(()) && View() == WithRow(old(View()), sid, Apply(old(submissions)[sid], CaseMessage(jid, res)))
    {
      if sid !in submissions {
        return Failed(UnknownSubmission);
      }
      var sm := submissions[sid];
      if sm.jid > jid {
        assert submissions == submissions[sid := sm];
        return Ok(());
      }
      if sm.jid < jid {
        sm := sm.(cases := []);
      }
      if res.status != JUDGING {
        sm := sm.(cases := sm.cases + [AttachedCase(jid, res)]);
      }
      sm := sm.(jid := jid, status := JUDGING, score := 0, time := 0, mem := 0);
      submissions := submissions[sid := sm];
      return Ok(());
    }

    /** The dispatcher's transaction: the run is given a jid no run of the submission had before. */
    method ReserveJid(sid: Id) returns (r: Result<Id>)
      modifies this`submissions
      ensures sid !in old(submissions) ==> r == Failed(UnknownSubmission) && View() == old(View())
      ensures sid in old(submissions) ==>
        && r == Ok(old(submissions)[sid].usedJid + 1)
        && View() == WithRow(old(View()), sid, Reserve(old(submissions)[sid]))
        && submissions == old(submissions)[sid := old(submissions)[sid].(usedJid := old(submissions)[sid].usedJid + 1)]
    {
      if sid !in submissions {
        return Failed(UnknownSubmission);
      }
      var sm := submissions[sid];
      submissions := submissions[sid := sm.(usedJid := sm.usedJid + 1)];
      return Ok(sm.usedJid + 1);
    }

    method RankingUserAdd(iid: Id)
      modifies this`rows
      ensures View() == UserAdd(old(View()), iid)
    {
      if iid !in rows {
        rows := rows[iid := FreshRow(columns)];
      }
    }

    method RankingProblemAdd(pid: Id)
      modifies this`columns, this`rows
      ensures View() == ProblemAdd(old(View()), pid)
    {
      if pid !in columns {
        columns := columns + {pid};
        rows := map iid | iid in rows :: rows[iid].(problems := rows[iid].problems[pid := INVALID_CELL]);
      }
    }

    method RankingUpdate(iid: Id, pid: Id, rc: RankingCell) returns (r: Result<()>)
      modifies this`rows
      ensures var u := Ranking.RankingUpdate(old(View()), iid, pid, rc);
        match u
        case Ok(t) => r == Ok(()) && View() == t
        case Failed(error) => r == Failed(error) && View() == old(View())
    {
      hide Folded, CountedForPenalty;
      ghost var t := View();
      if iid !in rows {
        return Ok(());
      }
      var row := rows[iid];
      if pid !in row.problems {
        return Failed(UnknownProblem);
      }
      var cell := row.problems[pid];
      var newCell := cell;
      if cell.valid {
        if cell.sid == rc.sid {
          if cell.jid > rc.jid {
            return Ok(());
          }
          if cell.jid == rc.jid {
            return Ok(());
          }
          if cell.score <= rc.score {
            newCell := rc;
          } else {
            var best := MaximumScore(submissions, iid, pid);
            if best.None? {
              return Failed(NoSubmission);
            }
            var sm := submissions[best.value];
            newCell := newCell.(score := rc.score);
            newCell := newCell.(time := sm.submitTime - contest.startTime);
            newCell := newCell.(sid := best.value);
            newCell := newCell.(jid := sm.jid);
          }
        } else {
          if cell.score < rc.score {
            newCell := rc;
          } else if cell.score == rc.score && cell.sid > rc.sid {
            newCell := rc;
          }
        }
      } else {
        newCell := rc;
      }
      assert Choose(t, iid, pid, cell, rc) == Put(newCell);

      var sid: int := newCell.sid;
      if newCell.score > 0 {
        sid := sid - 1;
      }
      var cnt := |CountedForPenalty(submissions, iid, pid, sid, CompileErrorPenalty(contest.kind))|;
      newCell := newCell.(penalty := cnt);
      var problems := row.problems[pid := newCell];
      var refolded := Fold(problems);
      rows := rows[iid := refolded];
      return Ok(());
    }

    method Fold(problems: Cells) returns (row: Row)
      ensures row == Folded(contest, problems)
    {
      var score := AccumulateAllScore(problems);
      var time;
      if contest.kind == ICPC {
        time := AccumulateAllTime(problems);
      } else {
        time := MaximizedTime(problems);
      }
      var penalty := AccumulateAllPenalty(problems);
      var general := RankingCell(true, 0, 0, time, score, penalty);
      var value1 := Value1(contest.kind, general.score, general.penalty, contest.penalty, general.time);
      var value2 := Value2(contest.kind, general.score, general.penalty, contest.penalty, general.time);
      row := Row(problems, general, general.score, value1, value2);
    }

    /**
     * The result handler, undisturbed: the row first, then, for an on-time submission, the ranking with
     * the result as it was received, even when the row dropped it as stale.
     */
    method UpdateResult(sid: Id, jid: Id, status: Status, score: int, time: int, mem: int) returns (r: Result<()>)
      modifies this`submissions, this`rows
      ensures sid !in old(submissions) ==> r == Failed(UnknownSubmission) && View() == old(View())
      ensures sid in old(submissions) ==>
        var row := Apply(old(submissions)[sid], ResultMessage(jid, status, score, time, mem));
        var t := WithRow(old(View()), sid, row);
        if row.submitTime < contest.finishTime then
          match Ranking.RankingUpdate(t, row.iid, row.pid,
                                      RankingCell(true, sid, jid, row.submitTime - contest.startTime, score, 0))
          case Ok(u) => r == Ok(()) && View() == u
          case Failed(error) => r == Failed(error) && View() == t
        else r == Ok(()) && View() == t
    {
      hide Apply, Ranking.RankingUpdate;
      r := SubmissionUpdateResult(sid, jid, status, score, time, mem);
      if r.Failed? {
        return;
      }
      var sm := submissions[sid];
      if contest.finishTime > sm.submitTime {
        r := RankingUpdate(sm.iid, sm.pid, RankingCell(true, sid, jid, sm.submitTime - contest.startTime, score, 0));
      }
    }

    /**
     * The manager's rejudge of one submission or of a whole problem, before the runs are queued. Only rows of the
     * submissions named change, and of those only what a run sets: what they show from their next run on is what
     * they would have shown without the rejudge.
     */
    method Rejudge(sids: set<Id>)
      requires sids <= submissions.Keys
      modifies this`submissions
      ensures View() == old(View()).(submissions := submissions) && submissions.Keys == old(submissions).Keys
      ensures forall q :: q in submissions && q !in sids ==> submissions[q] == old(submissions)[q]
      ensures forall q :: q in sids ==>
        && submissions[q] == old(submissions)[q].(status := IN_QUEUE, score := 0, time := 0, mem := 0)
        && forall m: Message :: m.jid > submissions[q].jid ==> Apply(submissions[q], m) == Apply(old(submissions)[q], m)
    {
      submissions := map q | q in submissions :: if q in sids then Reset(submissions[q]) else submissions[q];
    }
  }
}
