/** The submissions table of one contest and the messages a worker sends about a run. */
module Submissions {
  import opened Types

  datatype TestCase = TestCase(caseId: int, status: Status, time: int, mem: int)

  /** A case attached to a row. `run` is history: the jid of the run that reported the case. */
  datatype AttachedCase = AttachedCase(run: Id, report: TestCase)

  datatype Submission = Submission(
    pid: Id, iid: Id, submitTime: int,
    usedJid: Id, jid: Id,
    status: Status, score: int, time: int, mem: int,
    cases: seq<AttachedCase>)

  datatype Message =
    | CaseMessage(jid: Id, report: TestCase)
    | ResultMessage(jid: Id, status: Status, score: int, time: int, mem: int)

  function NewSubmission(iid: Id, pid: Id, submitTime: int): Submission {
    Submission(pid, iid, submitTime, 0, 0, IN_QUEUE, 0, 0, 0, [])
  }

  /** The row after one message has been handled. */
  function Apply(row: Submission, m: Message): Submission {
    if row.jid > m.jid then row
    else
      var kept := if row.jid < m.jid then [] else row.cases;
      match m
      case CaseMessage(jid, report) =>
        var cases := if report.status != JUDGING then kept + [AttachedCase(jid, report)] else kept;
        row.(jid := jid, status := JUDGING, score := 0, time := 0, mem := 0, cases := cases)
      case ResultMessage(jid, status, score, time, mem) =>
        row.(jid := jid, status := status, score := score, time := time, mem := mem, cases := kept)
  }

  function Replay(row: Submission, ms: seq<Message>): Submission
    decreases |ms|
  {
    if ms == [] then row else Replay(Apply(row, ms[0]), ms[1..])
  }

  /** The manager's rejudge: everything a run produced is reset, except jid and the attached cases. */
  function Reset(row: Submission): Submission {
    row.(status := IN_QUEUE, score := 0, time := 0, mem := 0)
  }

  /** The dispatcher reserves the next jid on the row; the run gets `usedJid + 1`. */
  function Reserve(row: Submission): Submission {
    row.(usedJid := row.usedJid + 1)
  }

  // ---------------------------------------------------------------- stale filtering

  ghost predicate LargestJid(ms: seq<Message>, jid: Id) {
    && (exists i :: 0 <= i < |ms| && ms[i].jid == jid)
    && (forall i :: 0 <= i < |ms| ==> ms[i].jid <= jid)
  }

  function OfRun(ms: seq<Message>, jid: Id): seq<Message> {
    if ms == [] then []
    else (if ms[0].jid == jid then [ms[0]] else []) + OfRun(ms[1..], jid)
  }

  /** Once the row holds run `jid`, messages of earlier runs leave no trace. */
  lemma {:induction false} ReplaySkipsStale(row: Submission, ms: seq<Message>, jid: Id)
    requires row.jid == jid
    requires forall i :: 0 <= i < |ms| ==> ms[i].jid <= jid
    ensures Replay(row, ms) == Replay(row, OfRun(ms, jid))
    decreases |ms|
  {
    if ms == [] {
    } else {
      ReplaySkipsStale(Apply(row, ms[0]), ms[1..], jid);
      OfRunStep(ms, jid);
    }
  }

  lemma OfRunStep(ms: seq<Message>, jid: Id)
    requires ms != []
    ensures ms[0].jid != jid ==> OfRun(ms, jid) == OfRun(ms[1..], jid)
    ensures ms[0].jid == jid ==>
      OfRun(ms, jid) != [] && OfRun(ms, jid)[0] == ms[0] && OfRun(ms, jid)[1..] == OfRun(ms[1..], jid)
  {
    if ms[0].jid == jid {
      assert ([ms[0]] + OfRun(ms[1..], jid))[1..] == OfRun(ms[1..], jid);
    } else {
      assert [] + OfRun(ms[1..], jid) == OfRun(ms[1..], jid);
    }
  }

  /** Every field a run can set is overwritten by its first message, so what preceded it does not matter. */
  lemma {:induction false} ReplayForgets(row: Submission, other: Submission, ms: seq<Message>, jid: Id)
    requires LargestJid(ms, jid) && row.jid < jid && other.jid < jid
    requires row.pid == other.pid && row.iid == other.iid
    requires row.submitTime == other.submitTime && row.usedJid == other.usedJid
    ensures Replay(row, ms) == Replay(other, OfRun(ms, jid))
    decreases |ms|
  {
    var tail := ms[1..];
    OfRunStep(ms, jid);
    if ms[0].jid == jid {
      assert Apply(row, ms[0]) == Apply(other, ms[0]);
      ReplaySkipsStale(Apply(row, ms[0]), tail, jid);
    } else {
      var i :| 0 <= i < |ms| && ms[i].jid == jid;
      assert tail[i - 1].jid == jid;
      ReplayForgets(Apply(row, ms[0]), other, tail, jid);
    }
  }

  /**
   * The handlers refine "only the newest run counts": after any sequence of messages, in any
   * order, the row is what the messages of the largest jid alone make of a row without cases.
   */
  lemma StaleFiltering(row: Submission, ms: seq<Message>, jid: Id)
    requires LargestJid(ms, jid)
    ensures row.jid > jid ==> Replay(row, ms) == row
    ensures row.jid == jid ==> Replay(row, ms) == Replay(row, OfRun(ms, jid))
    ensures row.jid < jid ==>
      Replay(row, ms) ==
        Replay(NewSubmission(row.iid, row.pid, row.submitTime).(usedJid := row.usedJid, jid := row.jid),
                                OfRun(ms, jid))
  {
    if row.jid > jid {
      AllStale(row, ms);
    } else if row.jid == jid {
      ReplaySkipsStale(row, ms, jid);
    } else {
      var blank := NewSubmission(row.iid, row.pid, row.submitTime).(usedJid := row.usedJid, jid := row.jid);
      ReplayForgets(row, blank, ms, jid);
    }
  }

  /** A rejudge leaves no trace in its row once a newer run is heard of, whatever messages of older runs still come. */
  lemma RejudgeForgotten(row: Submission, ms: seq<Message>, jid: Id)
    requires LargestJid(ms, jid) && row.jid < jid
    ensures Replay(Reset(row), ms) == Replay(row, ms)
  {
    ReplayForgets(row, row, ms, jid);
    ReplayForgets(Reset(row), row, ms, jid);
  }

  lemma {:induction false} AllStale(row: Submission, ms: seq<Message>)
    requires forall i :: 0 <= i < |ms| ==> ms[i].jid < row.jid
    ensures Replay(row, ms) == row
    decreases |ms|
  {
    if ms != [] {
      AllStale(row, ms[1..]);
    }
  }

  // ---------------------------------------------------------------- what the row shows

  /** The finished cases of a run, in the order they were reported. */
  function CasesOfRun(ms: seq<Message>, jid: Id): seq<AttachedCase> {
    if ms == [] then [] else
      var m := ms[|ms| - 1];
      CasesOfRun(ms[..|ms| - 1], jid)
      + if m.CaseMessage? && m.jid == jid && m.report.status != JUDGING then [AttachedCase(jid, m.report)] else []
  }

  /** What the last message of a run leaves in the row: its result, or the marks of a run still being judged. */
  function ResultOfRun(ms: seq<Message>, jid: Id): (Status, int, int, int) {
    if ms == [] then (IN_QUEUE, 0, 0, 0) else
      var m := ms[|ms| - 1];
      if m.jid != jid then ResultOfRun(ms[..|ms| - 1], jid)
      else if m.ResultMessage? then (m.status, m.score, m.time, m.mem)
      else (JUDGING, 0, 0, 0)
  }

  lemma {:induction false} ReplayLast(row: Submission, ms: seq<Message>)
    requires ms != []
    ensures Replay(row, ms) == Apply(Replay(row, ms[..|ms| - 1]), ms[|ms| - 1])
    decreases |ms|
  {
    if |ms| > 1 {
      ReplayLast(Apply(row, ms[0]), ms[1..]);
      assert ms[1..][..|ms| - 2] == ms[..|ms| - 1][1..];
    } else {
      assert Replay(Apply(row, ms[0]), ms[1..]) == Apply(row, ms[0]);
    }
  }

  lemma {:induction false} NotYetThere(row: Submission, ms: seq<Message>, jid: Id)
    requires row.jid < jid && forall i :: 0 <= i < |ms| ==> ms[i].jid < jid
    ensures Replay(row, ms).jid < jid && CasesOfRun(ms, jid) == []
    ensures var r := Replay(row, ms);
      r == row.(jid := r.jid, status := r.status, score := r.score, time := r.time, mem := r.mem, cases := r.cases)
    decreases |ms|
  {
    if ms != [] {
      ReplayLast(row, ms);
      NotYetThere(row, ms[..|ms| - 1], jid);
    }
  }

  /**
   * What a row shows once run `jid` is the newest heard of, whatever order the messages came in: that run, its
   * last word (status, score, time and memory of its result, or Judging and zeros), and its finished cases in
   * order. The rest of the row is untouched.
   */
  lemma {:induction false} RowShowsRun(row: Submission, ms: seq<Message>, jid: Id)
    requires LargestJid(ms, jid) && row.jid < jid
    ensures var (status, score, time, mem) := ResultOfRun(ms, jid);
      Replay(row, ms) ==
        row.(jid := jid, status := status, score := score, time := time, mem := mem, cases := CasesOfRun(ms, jid))
    decreases |ms|
  {
    var init := ms[..|ms| - 1];
    ReplayLast(row, ms);
    if exists i :: 0 <= i < |init| && init[i].jid == jid {
      RowShowsRun(row, init, jid);
    } else {
      NotYetThere(row, init, jid);
    }
  }

  /** The `i`-th message is the last of its run. */
  predicate LastOfRun(ms: seq<Message>, i: nat)
    requires i < |ms|
  {
    forall k :: i < k < |ms| ==> ms[k].jid != ms[i].jid
  }

  /** The last word, field by field: a result shows as it was reported, a case as Judging with nothing measured. */
  lemma {:induction false} LastWord(row: Submission, ms: seq<Message>, i: nat)
    requires i < |ms| && LargestJid(ms, ms[i].jid) && row.jid <= ms[i].jid && LastOfRun(ms, i)
    ensures var r := Replay(row, ms);
      && r.jid == ms[i].jid
      && (if ms[i].ResultMessage? then
            r.status == ms[i].status && r.score == ms[i].score && r.time == ms[i].time && r.mem == ms[i].mem
          else r.status == JUDGING && r.score == r.time == r.mem == 0)
      && r.pid == row.pid && r.iid == row.iid && r.submitTime == row.submitTime && r.usedJid == row.usedJid
    decreases |ms|
  {
    if i == 0 {
      AllStale(Apply(row, ms[0]), ms[1..]);
    } else {
      var j :| 0 <= j < |ms| && ms[j].jid == ms[i].jid;
      assert ms[1..][i - 1] == ms[i];
      LastWord(Apply(row, ms[0]), ms[1..], i - 1);
    }
  }

  /** The cases, one by one: those the row had of the same run, and every case reported finished. */
  lemma {:induction false} CasesShown(row: Submission, ms: seq<Message>, jid: Id, c: AttachedCase)
    requires row.jid <= jid && LargestJid(ms, jid)
    ensures Replay(row, ms).jid == jid
    ensures c in Replay(row, ms).cases <==>
      || (row.jid == jid && c in row.cases)
      || (c.run == jid && c.report.status != JUDGING && CaseMessage(jid, c.report) in ms)
    decreases |ms|
  {
    var init, last := ms[..|ms| - 1], ms[|ms| - 1];
    assert ms == init + [last];
    ReplayLast(row, ms);
    if exists i :: 0 <= i < |init| && init[i].jid == jid {
      CasesShown(row, init, jid, c);
    } else if row.jid < jid {
      NotYetThere(row, init, jid);
    } else {
      AllStale(row, init);
    }
  }

  // ---------------------------------------------------------------- queries

  predicate Belongs(row: Submission, iid: Id, pid: Id) {
    row.iid == iid && row.pid == pid
  }

  /** The submissions counted as wrong: statuses from Wrong Answer up to Runtime Error (or Compile Error). */
  function CountedForPenalty(rows: map<Id, Submission>, iid: Id, pid: Id, sid: int, compileErrors: bool): set<Id> {
    var last := if compileErrors then COMPILE_ERROR else COMPILE_ERROR - 1;
    set s | s in rows && Belongs(rows[s], iid, pid) && WRONG_ANSWER <= rows[s].status <= last && s <= sid
  }

  /** `ORDER BY score DESC, sid ASC`: the row (score, sid) comes before the row (score', sid'). */
  predicate Before(score: int, sid: int, score': int, sid': int) {
    score > score' || (score == score' && sid < sid')
  }

  /** `sid` is the first row of the participant and problem in that order. */
  predicate IsFirst(rows: map<Id, Submission>, iid: Id, pid: Id, sid: Id) {
    && sid in rows && Belongs(rows[sid], iid, pid)
    && forall s :: s in rows && Belongs(rows[s], iid, pid) && s != sid ==>
      rows[sid].score > rows[s].score || (rows[sid].score == rows[s].score && sid < s)
  }

  lemma {:induction false} FirstExists(rows: map<Id, Submission>, iid: Id, pid: Id, among: set<Id>) returns (first: Id)
    requires among != {}
    requires forall s :: s in among ==> s in rows
    ensures first in among
    ensures forall s :: s in among && s != first ==> Before(rows[first].score, first, rows[s].score, s)
    decreases among
  {
    first :| first in among;
    if among != {first} {
      var best := FirstExists(rows, iid, pid, among - {first});
      if !Before(rows[first].score, first, rows[best].score, best) {
        first := best;
      }
    }
  }

  /** The row `First` returns, or nothing when the participant has no row for the problem. */
  function MaximumScore(rows: map<Id, Submission>, iid: Id, pid: Id): (r: Option<Id>)
    ensures r.Some? ==> IsFirst(rows, iid, pid, r.value)
    ensures r.None? <==> forall s :: s in rows ==> !Belongs(rows[s], iid, pid)
  {
    var mine := set s | s in rows && Belongs(rows[s], iid, pid);
    if mine == {} then
      assert forall s :: s in rows && Belongs(rows[s], iid, pid) ==> s in mine;
      None
    else
      assert exists s :: s in rows && IsFirst(rows, iid, pid, s) by {
        var first := FirstExists(rows, iid, pid, mine);
        assert IsFirst(rows, iid, pid, first);
      }
      var s :| s in rows && IsFirst(rows, iid, pid, s);
      Some(s)
  }
}
