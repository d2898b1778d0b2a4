/** The two judges: from the outcomes of a submission's executions to the stream of statuses they send. */
module Judges {
  import opened Types

  /** The case id of the total. */
  const TOTAL := -1

  datatype JudgeStatus = JudgeStatus(caseId: int, status: Status, mem: int, time: int, stdout: string, stderr: string)

  datatype ExecStatus = ExecFinished | ExecError | ExecMemoryLimitExceeded | ExecTimeLimitExceeded
  datatype ExecResult = ExecResult(status: ExecStatus, exitCode: int, time: nat, mem: nat, stdout: string,
    stderr: string)

  /** Everything that happens outside while one case is judged. */
  datatype Trial = Trial(
    caseId: nat,
    inputRead: bool,
    run: ExecResult,
    stdinWritten: bool,
    stdoutWritten: bool,
    checker: ExecResult)

  /** What directories, source files, compilers and containers came to before the first case. */
  datatype SetUp = Ready | Refused(status: Status, stderr: string)

  function InternalError(caseId: int, message: string): JudgeStatus {
    JudgeStatus(caseId, INTERNAL_ERROR, 0, 0, "", message)
  }

  function Plain(caseId: int, status: Status): JudgeStatus {
    JudgeStatus(caseId, status, 0, 0, "", "")
  }

  function MaxInt64(a: int, b: int): int {
    if a > b then a else b
  }

  // ---------------------------------------------------------------- what a case comes to

  /** The program ran to its end with exit code 0. */
  predicate RanNormally(t: Trial) {
    t.inputRead && t.run.status == ExecFinished && t.run.exitCode == 0
  }

  /** And its input and output were written for the checker. */
  predicate ReachesChecker(t: Trial) {
    RanNormally(t) && t.stdinWritten && t.stdoutWritten
  }

  /** And the checker ran normally too. */
  predicate CheckedNormally(t: Trial) {
    ReachesChecker(t) && t.checker.status == ExecFinished && t.checker.exitCode == 0
  }

  function ExecFailure(e: ExecStatus): Status {
    match e
    case ExecMemoryLimitExceeded => MEMORY_LIMIT_EXCEEDED
    case ExecTimeLimitExceeded => TIME_LIMIT_EXCEEDED
    case _ => INTERNAL_ERROR
  }

  /** The status of a case judged without a checker; Accepted still has to be compared with the expected output. */
  function SimpleStatus(t: Trial): Status {
    if !t.inputRead then INTERNAL_ERROR
    else if t.run.status != ExecFinished then ExecFailure(t.run.status)
    else if t.run.exitCode != 0 then RUNTIME_ERROR
    else ACCEPTED
  }

  function UpTo(s: string, stop: char): string {
    if s == "" || s[0] == stop then "" else [s[0]] + UpTo(s[1..], stop)
  }

  function FirstLine(s: string): string {
    UpTo(UpTo(s, '\n'), '\r')
  }

  function CheckedStatus(t: Trial): Status {
    if !RanNormally(t) then SimpleStatus(t)
    else if !CheckedNormally(t) then INTERNAL_ERROR
    else if FirstLine(t.checker.stdout) == "WA" then WRONG_ANSWER
    else ACCEPTED
  }

  /** The kind of judge: comparison by the consumer, or a checker program. */
  datatype Kind = PerfectMatch | RunningCode

  function StatusOf(kind: Kind, t: Trial): Status {
    if kind == PerfectMatch then SimpleStatus(t) else CheckedStatus(t)
  }

  predicate Normally(kind: Kind, t: Trial) {
    if kind == PerfectMatch then RanNormally(t) else CheckedNormally(t)
  }

  // ---------------------------------------------------------------- the stream

  /** The terminal status of a case carries its measurements and output only if it finished normally. */
  predicate Terminal(kind: Kind, t: Trial, st: JudgeStatus) {
    && st.caseId == t.caseId && st.status == StatusOf(kind, t)
    && (if Normally(kind, t) then
          st.mem == t.run.mem && st.time == t.run.time && st.stdout == t.run.stdout && st.stderr == t.run.stderr
        else st.mem == 0 && st.time == 0 && st.stdout == "")
  }

  /** For each case in order: Judging, then one terminal status. */
  predicate CaseStream(kind: Kind, tests: seq<Trial>, ch: seq<JudgeStatus>) {
    && |ch| == 2 * |tests|
    && forall i :: 0 <= i < |tests| ==>
      ch[2 * i] == Plain(tests[i].caseId, JUDGING) && Terminal(kind, tests[i], ch[2 * i + 1])
  }

  /** The worst status of the cases, Accepted when there are none. */
  predicate IsWorst(kind: Kind, tests: seq<Trial>, worst: Status) {
    && worst >= ACCEPTED
    && (forall i :: 0 <= i < |tests| ==> StatusOf(kind, tests[i]) <= worst)
    && (worst == ACCEPTED || exists i :: 0 <= i < |tests| && StatusOf(kind, tests[i]) == worst)
  }

  /** -1 if some case did not finish normally, else the largest of the measurements `f`, 0 when there are none. */
  predicate IsPeak(kind: Kind, tests: seq<Trial>, f: Trial -> nat, peak: int) {
    if forall i :: 0 <= i < |tests| ==> Normally(kind, tests[i]) then
      && peak >= 0 && (forall i :: 0 <= i < |tests| ==> f(tests[i]) <= peak)
      && (peak == 0 || exists i :: 0 <= i < |tests| && f(tests[i]) == peak)
    else peak == -1
  }

  const TimeOf := (t: Trial) => t.run.time
  const MemOf := (t: Trial) => t.run.mem

  /** The last status: the total over all cases. */
  predicate IsTotal(kind: Kind, tests: seq<Trial>, st: JudgeStatus) {
    && st == JudgeStatus(TOTAL, st.status, st.mem, st.time, "", "")
    && IsWorst(kind, tests, st.status) && IsPeak(kind, tests, TimeOf, st.time) && IsPeak(kind, tests, MemOf, st.mem)
  }

  /** What a judge sends: one refusal as the only total, or every case in order and then one total. */
  predicate JudgeStream(kind: Kind, setUp: SetUp, tests: seq<Trial>, ch: seq<JudgeStatus>) {
    match setUp
    case Refused(status, stderr) => ch == [JudgeStatus(TOTAL, status, 0, 0, "", stderr)]
    case Ready =>
      && |ch| == 2 * |tests| + 1
      && CaseStream(kind, tests, ch[..2 * |tests|]) && IsTotal(kind, tests, ch[2 * |tests|])
  }

  /** What is sent before the first case that needs the checker, and that this case is being judged. */
  predicate CutStream(tests: seq<Trial>, ch: seq<JudgeStatus>) {
    exists n :: 0 <= n < |tests| && CutAt(tests, n, ch)
  }

  predicate CutAt(tests: seq<Trial>, n: nat, ch: seq<JudgeStatus>)
    requires n < |tests|
  {
    && ReachesChecker(tests[n]) && (forall i :: 0 <= i < n ==> !ReachesChecker(tests[i]))
    && |ch| == 2 * n + 1 && CaseStream(RunningCode, tests[..n], ch[..2 * n])
    && ch[2 * n] == Plain(tests[n].caseId, JUDGING)
  }

  // ---------------------------------------------------------------- the stream, field by field

  /** What is left of a text when it is cut at the first `stop`. */
  lemma {:induction false} UpToExact(s: string, stop: char, head: string)
    ensures UpTo(s, stop) == head <==> stop !in head && (s == head || head + [stop] <= s)
    decreases |s|
  {
    if s != "" && head != "" {
      UpToExact(s[1..], stop, head[1..]);
      assert head == [head[0]] + head[1..] && s == [s[0]] + s[1..];
    }
  }

  /** A checker says Wrong Answer by printing just WA on its first line. */
  lemma SaysWrong(s: string)
    ensures FirstLine(s) == "WA" <==> s == "WA" || "WA\r" <= s || "WA\n" <= s
  {
    var line := UpTo(s, '\n');
    UpToExact(s, '\n', line);
    UpToExact(line, '\r', "WA");
    UpToExact(s, '\n', "WA");
    if "WA\r" <= line {
      assert "WA\r" <= s;
    }
    if "WA\r" <= s {
      var tail := UpTo(s[3..], '\n');
      UpToExact(s[3..], '\n', tail);
      assert s == "WA\r" + s[3..];
      assert tail + ['\n'] <= s[3..] ==> ("WA\r" + tail) + ['\n'] <= s;
      UpToExact(s, '\n', "WA\r" + tail);
    }
  }

  /**
   * What is sent for a case, by what happened to it: the failures of reading, running and checking it, and what the
   * checker printed.
   */
  lemma StreamedCase(kind: Kind, tests: seq<Trial>, ch: seq<JudgeStatus>, i: nat)
    requires JudgeStream(kind, Ready, tests, ch) && i < |tests|
    ensures |ch| == 2 * |tests| + 1
    ensures var t, judging, st := tests[i], ch[2 * i], ch[2 * i + 1];
      var ran := t.inputRead && t.run.status == ExecFinished && t.run.exitCode == 0;
      var checked := t.stdinWritten && t.stdoutWritten && t.checker.status == ExecFinished && t.checker.exitCode == 0;
      var says := t.checker.stdout;
      && judging == JudgeStatus(t.caseId, JUDGING, 0, 0, "", "") && st.caseId == t.caseId
      && (!t.inputRead ==> st.status == INTERNAL_ERROR)
      && (t.inputRead && t.run.status == ExecError ==> st.status == INTERNAL_ERROR)
      && (t.inputRead && t.run.status == ExecMemoryLimitExceeded ==> st.status == MEMORY_LIMIT_EXCEEDED)
      && (t.inputRead && t.run.status == ExecTimeLimitExceeded ==> st.status == TIME_LIMIT_EXCEEDED)
      && (t.inputRead && t.run.status == ExecFinished && t.run.exitCode != 0 ==> st.status == RUNTIME_ERROR)
      && (ran && kind == PerfectMatch ==> st.status == ACCEPTED)
      && (ran && kind == RunningCode && !checked ==> st.status == INTERNAL_ERROR)
      && (ran && kind == RunningCode && checked ==>
            st.status == if says == "WA" || "WA\r" <= says || "WA\n" <= says then WRONG_ANSWER else ACCEPTED)
      && (if ran && (kind == PerfectMatch || checked) then
            st.mem == t.run.mem && st.time == t.run.time && st.stdout == t.run.stdout && st.stderr == t.run.stderr
          else st.mem == st.time == 0 && st.stdout == "")
  {
    assert ch[2 * i] == ch[..2 * |tests|][2 * i] && ch[2 * i + 1] == ch[..2 * |tests|][2 * i + 1];
    assert Terminal(kind, tests[i], ch[2 * i + 1]);
    SaysWrong(tests[i].checker.stdout);
  }

  lemma NormalStatus(kind: Kind, t: Trial)
    ensures Normally(kind, t) <==> StatusOf(kind, t) <= WRONG_ANSWER
    ensures StatusOf(kind, t) >= ACCEPTED
  {
  }

  /** A status before the total belongs to a case: Judging, or what came of it. */
  predicate StreamedAt(kind: Kind, t: Trial, last: bool, st: JudgeStatus) {
    if !last then st == Plain(t.caseId, JUDGING)
    else
      && st.status == StatusOf(kind, t) >= ACCEPTED && (Normally(kind, t) <==> st.status <= WRONG_ANSWER)
      && st.time == (if Normally(kind, t) then TimeOf(t) else 0)
      && st.mem == if Normally(kind, t) then MemOf(t) else 0
  }

  predicate Streamed(kind: Kind, tests: seq<Trial>, ch: seq<JudgeStatus>) {
    && |ch| == 2 * |tests| + 1
    && forall j :: 0 <= j < 2 * |tests| ==> StreamedAt(kind, tests[j / 2], j % 2 == 1, ch[j])
  }

  lemma EachStreamed(kind: Kind, tests: seq<Trial>, ch: seq<JudgeStatus>)
    requires JudgeStream(kind, Ready, tests, ch)
    ensures Streamed(kind, tests, ch)
  {
    hide StatusOf, Normally;
    var cases := ch[..2 * |tests|];
    forall j | 0 <= j < 2 * |tests| ensures StreamedAt(kind, tests[j / 2], j % 2 == 1, ch[j]) {
      var i := j / 2;
      assert cases[j] == ch[j] && (j == 2 * i || j == 2 * i + 1);
      assert cases[2 * i] == Plain(tests[i].caseId, JUDGING) && Terminal(kind, tests[i], cases[2 * i + 1]);
      NormalStatus(kind, tests[i]);
    }
  }

  /** The total can be read off the stream: its status is the worst one before it. */
  lemma StreamedWorst(kind: Kind, tests: seq<Trial>, ch: seq<JudgeStatus>)
    requires JudgeStream(kind, Ready, tests, ch)
    ensures var n, total := |ch| - 1, ch[|ch| - 1];
      && n == 2 * |tests| && total.caseId == -1 && total.status >= ACCEPTED && total.stdout == total.stderr == ""
      && (forall j :: 0 <= j < n ==> ch[j].status <= total.status)
      && (total.status == ACCEPTED || exists j :: 0 <= j < n && ch[j].status == total.status)
  {
    hide StatusOf, Normally;
    EachStreamed(kind, tests, ch);
    WorstStreamed(kind, tests, ch, ch[2 * |tests|].status);
  }

  lemma WorstStreamed(kind: Kind, tests: seq<Trial>, ch: seq<JudgeStatus>, worst: Status)
    requires Streamed(kind, tests, ch) && IsWorst(kind, tests, worst)
    ensures forall j :: 0 <= j < |ch| - 1 ==> ch[j].status <= worst
    ensures worst == ACCEPTED || exists j :: 0 <= j < |ch| - 1 && ch[j].status == worst
  {
    hide StatusOf, Normally;
    forall j | 0 <= j < 2 * |tests| ensures ch[j].status <= worst {
      assert StreamedAt(kind, tests[j / 2], j % 2 == 1, ch[j]) && StatusOf(kind, tests[j / 2]) <= worst;
    }
    if worst != ACCEPTED {
      var i :| 0 <= i < |tests| && StatusOf(kind, tests[i]) == worst;
      assert StreamedAt(kind, tests[(2 * i + 1) / 2], (2 * i + 1) % 2 == 1, ch[2 * i + 1]);
    }
  }

  /** And its time and memory are the largest before it, or -1 when some case is worse than Wrong Answer. */
  lemma StreamedPeaks(kind: Kind, tests: seq<Trial>, ch: seq<JudgeStatus>)
    requires JudgeStream(kind, Ready, tests, ch)
    ensures var n, total := |ch| - 1, ch[|ch| - 1];
      if exists j :: 0 <= j < n && ch[j].status > WRONG_ANSWER then total.time == total.mem == -1
      else
        && (forall j :: 0 <= j < n ==> ch[j].time <= total.time && ch[j].mem <= total.mem)
        && (total.time == 0 || exists j :: 0 <= j < n && ch[j].time == total.time)
        && (total.mem == 0 || exists j :: 0 <= j < n && ch[j].mem == total.mem)
        && total.time >= 0 && total.mem >= 0
  {
    hide StatusOf, Normally;
    EachStreamed(kind, tests, ch);
    var total := ch[2 * |tests|];
    assert IsPeak(kind, tests, TimeOf, total.time) && IsPeak(kind, tests, MemOf, total.mem);
    PeaksStreamed(kind, tests, ch, total.time, total.mem);
  }

  lemma PeaksStreamed(kind: Kind, tests: seq<Trial>, ch: seq<JudgeStatus>, time: int, mem: int)
    requires Streamed(kind, tests, ch) && IsPeak(kind, tests, TimeOf, time) && IsPeak(kind, tests, MemOf, mem)
    ensures
      if exists j :: 0 <= j < |ch| - 1 && ch[j].status > WRONG_ANSWER then time == mem == -1
      else
        && (forall j :: 0 <= j < |ch| - 1 ==> ch[j].time <= time && ch[j].mem <= mem)
        && (time == 0 || exists j :: 0 <= j < |ch| - 1 && ch[j].time == time)
        && (mem == 0 || exists j :: 0 <= j < |ch| - 1 && ch[j].mem == mem)
        && time >= 0 && mem >= 0
  {
    hide StatusOf, Normally;
    if i :| 0 <= i < |tests| && !Normally(kind, tests[i]) {
      assert StreamedAt(kind, tests[(2 * i + 1) / 2], (2 * i + 1) % 2 == 1, ch[2 * i + 1]);
    } else {
      forall j | 0 <= j < 2 * |tests|
        ensures ch[j].status <= WRONG_ANSWER && ch[j].time <= time && ch[j].mem <= mem
      {
        assert StreamedAt(kind, tests[j / 2], j % 2 == 1, ch[j]) && Normally(kind, tests[j / 2]);
        assert TimeOf(tests[j / 2]) <= time && MemOf(tests[j / 2]) <= mem;
      }
      if time != 0 {
        var i :| 0 <= i < |tests| && TimeOf(tests[i]) == time;
        assert StreamedAt(kind, tests[(2 * i + 1) / 2], (2 * i + 1) % 2 == 1, ch[2 * i + 1]);
      }
      if mem != 0 {
        var i :| 0 <= i < |tests| && MemOf(tests[i]) == mem;
        assert StreamedAt(kind, tests[(2 * i + 1) / 2], (2 * i + 1) % 2 == 1, ch[2 * i + 1]);
      }
    }
  }

  /** A refusal is the whole stream. */
  lemma StreamedRefusal(kind: Kind, status: Status, stderr: string, tests: seq<Trial>, ch: seq<JudgeStatus>)
    requires JudgeStream(kind, Refused(status, stderr), tests, ch)
    ensures |ch| == 1 && ch[0] == JudgeStatus(-1, status, 0, 0, "", stderr)
  {
  }

  /** Where a stream is cut: at the first case whose program ran normally and whose files the checker could read. */
  lemma CutExact(tests: seq<Trial>, ch: seq<JudgeStatus>)
    requires CutStream(tests, ch)
    ensures |ch| % 2 == 1 && |ch| / 2 < |tests|
    ensures ch[|ch| - 1] == JudgeStatus(tests[|ch| / 2].caseId, JUDGING, 0, 0, "", "")
    ensures forall i :: 0 <= i <= |ch| / 2 ==>
      (i == |ch| / 2 <==>
         && tests[i].inputRead && tests[i].run.status == ExecFinished && tests[i].run.exitCode == 0
         && tests[i].stdinWritten && tests[i].stdoutWritten)
  {
    var n :| 0 <= n < |tests| && CutAt(tests, n, ch);
  }

  // ---------------------------------------------------------------- one more case

  lemma OneMoreCase(kind: Kind, tests: seq<Trial>, n: nat, ch: seq<JudgeStatus>, st: JudgeStatus)
    requires n < |tests| && CaseStream(kind, tests[..n], ch) && Terminal(kind, tests[n], st)
    ensures CaseStream(kind, tests[..n + 1], ch + [Plain(tests[n].caseId, JUDGING)] + [st])
  {
    var ch' := ch + [Plain(tests[n].caseId, JUDGING)] + [st];
    forall i | 0 <= i < n + 1
      ensures ch'[2 * i] == Plain(tests[i].caseId, JUDGING) && Terminal(kind, tests[i], ch'[2 * i + 1])
    {
      if i < n {
        assert tests[..n][i] == tests[i];
        assert ch'[2 * i] == ch[2 * i] && ch'[2 * i + 1] == ch[2 * i + 1];
      }
    }
  }

  lemma OneMoreWorst(kind: Kind, tests: seq<Trial>, n: nat, worst: Status)
    requires n < |tests| && IsWorst(kind, tests[..n], worst)
    ensures IsWorst(kind, tests[..n + 1], MaxStatus(worst, StatusOf(kind, tests[n])))
  {
    var more := tests[..n + 1];
    assert more[n] == tests[n];
    forall i | 0 <= i < n ensures more[i] == tests[..n][i] {
    }
    if worst != ACCEPTED {
      var i :| 0 <= i < n && StatusOf(kind, tests[..n][i]) == worst;
      assert more[i] == tests[..n][i];
    }
  }

  lemma OneMorePeak(kind: Kind, tests: seq<Trial>, n: nat, f: Trial -> nat, peak: int)
    requires n < |tests| && IsPeak(kind, tests[..n], f, peak)
    ensures IsPeak(kind, tests[..n + 1], f,
              if peak == -1 || !Normally(kind, tests[n]) then -1 else MaxInt64(peak, f(tests[n])))
  {
    var some, more := tests[..n], tests[..n + 1];
    assert more[n] == tests[n];
    assert forall i :: 0 <= i < n ==> more[i] == some[i];
    if peak == -1 {
      var i :| 0 <= i < |some| && !Normally(kind, some[i]);
      assert more[i] == some[i];
    } else if Normally(kind, tests[n]) {
      assert forall i :: 0 <= i < |more| ==> i == n || more[i] == some[i];
      if peak != 0 {
        var i :| 0 <= i < |some| && f(some[i]) == peak;
        assert f(more[i]) == peak;
      }
      assert f(more[n]) == f(tests[n]);
    }
  }

  /** The stream and the running totals after some cases. */
  predicate Progress(kind: Kind, tests: seq<Trial>, ch: seq<JudgeStatus>, worst: Status, time: int, mem: int) {
    CaseStream(kind, tests, ch) && IsWorst(kind, tests, worst) && IsPeak(kind, tests, TimeOf, time) &&
      IsPeak(kind, tests, MemOf, mem)
  }

  function Peak(kind: Kind, t: Trial, peak: int, measure: nat): int {
    if peak == -1 || !Normally(kind, t) then -1 else MaxInt64(peak, measure)
  }

  lemma OneMore(kind: Kind, tests: seq<Trial>, n: nat, ch: seq<JudgeStatus>, st: JudgeStatus, worst: Status, time: int,
    mem: int)
    requires n < |tests| && Progress(kind, tests[..n], ch, worst, time, mem) && Terminal(kind, tests[n], st)
    ensures Progress(kind, tests[..n + 1], ch + [Plain(tests[n].caseId, JUDGING)] + [st],
              MaxStatus(worst, StatusOf(kind, tests[n])), Peak(kind, tests[n], time, tests[n].run.time),
                Peak(kind, tests[n], mem, tests[n].run.mem))
  {
    OneMoreCase(kind, tests, n, ch, st);
    OneMoreWorst(kind, tests, n, worst);
    OneMorePeak(kind, tests, n, TimeOf, time);
    OneMorePeak(kind, tests, n, MemOf, mem);
  }

  lemma NoCases(kind: Kind, tests: seq<Trial>)
    ensures Progress(kind, tests[..0], [], ACCEPTED, 0, 0)
  {
  }

  lemma AllCases(kind: Kind, tests: seq<Trial>, ch: seq<JudgeStatus>, worst: Status, time: int, mem: int)
    requires Progress(kind, tests[..|tests|], ch, worst, time, mem)
    ensures JudgeStream(kind, Ready, tests, ch + [JudgeStatus(TOTAL, worst, mem, time, "", "")])
  {
    assert tests[..|tests|] == tests;
    assert (ch + [JudgeStatus(TOTAL, worst, mem, time, "", "")])[..2 * |tests|] == ch;
  }

  lemma NormallyRan(t: Trial)
    ensures Normally(RunningCode, t) ==> RanNormally(t)
  {
  }

  lemma CutHere(tests: seq<Trial>, n: nat, ch: seq<JudgeStatus>)
    requires n < |tests| && ReachesChecker(tests[n]) && forall i :: 0 <= i < n ==> !ReachesChecker(tests[i])
    requires CaseStream(RunningCode, tests[..n], ch)
    ensures CutStream(tests, ch + [Plain(tests[n].caseId, JUDGING)])
  {
    var cut := ch + [Plain(tests[n].caseId, JUDGING)];
    assert cut[..2 * n] == ch && CutAt(tests, n, cut);
  }

  // ---------------------------------------------------------------- the loops

  method RunSimple(setUp: SetUp, tests: seq<Trial>) returns (ch: seq<JudgeStatus>)
    ensures JudgeStream(PerfectMatch, setUp, tests, ch)
  {
    hide CaseStream, IsWorst, IsPeak, IsTotal;
    if setUp.Refused? {
      return [JudgeStatus(TOTAL, setUp.status, 0, 0, "", setUp.stderr)];
    }
    ch := [];
    var totalResult: Status := ACCEPTED;
    var maxTime, maxMem := 0, 0;
    NoCases(PerfectMatch, tests);
    for n := 0 to |tests|
      invariant Progress(PerfectMatch, tests[..n], ch, totalResult, maxTime, maxMem)
    {
      var tc := tests[n];
      ghost var before, time, mem := ch, maxTime, maxMem;
      ch := ch + [Plain(tc.caseId, JUDGING)];
      var r: Status := ACCEPTED;
      var st: JudgeStatus;
      if !tc.inputRead {
        st := InternalError(tc.caseId, "Failed to open a file(testcase input)");
        maxMem := -1;
        maxTime := -1;
        r := INTERNAL_ERROR;
      } else {
        var res := tc.run;
        if res.status != ExecFinished {
          match res.status {
            case ExecError =>
              st := InternalError(tc.caseId, "Failed to execute your code. " + res.stderr);
              r := INTERNAL_ERROR;
            case ExecMemoryLimitExceeded =>
              st := Plain(tc.caseId, MEMORY_LIMIT_EXCEEDED);
              r := MEMORY_LIMIT_EXCEEDED;
            case ExecTimeLimitExceeded =>
              st := Plain(tc.caseId, TIME_LIMIT_EXCEEDED);
              r := TIME_LIMIT_EXCEEDED;
          }
          maxMem := -1;
          maxTime := -1;
        } else if res.exitCode != 0 {
          st := Plain(tc.caseId, RUNTIME_ERROR);
          r := RUNTIME_ERROR;
          maxMem := -1;
          maxTime := -1;
        } else {
          st := JudgeStatus(tc.caseId, ACCEPTED, res.mem, res.time, res.stdout, res.stderr);
          if maxMem != -1 {
            maxMem := MaxInt64(maxMem, res.mem);
          }
          if maxTime != -1 {
            maxTime := MaxInt64(maxTime, res.time);
          }
        }
      }
      ch := ch + [st];
      OneMore(PerfectMatch, tests, n, before, st, totalResult, time, mem);
      totalResult := MaxStatus(totalResult, r);
    }
    AllCases(PerfectMatch, tests, ch, totalResult, maxTime, maxMem);
    ch := ch + [JudgeStatus(TOTAL, totalResult, maxMem, maxTime, "", "")];
  }

  /**
   * Whether the checker's container could be created is not looked at. If not, the judge crashes at the first case
   * that needs it or, when no case does, as it leaves after the total.
   */
  method RunCode(setUp: SetUp, checkerCreated: bool, tests: seq<Trial>)
    returns (ch: seq<JudgeStatus>, crashed: bool)
    ensures crashed <==> setUp.Ready? && !checkerCreated
    ensures if crashed && exists i :: 0 <= i < |tests| && ReachesChecker(tests[i]) then CutStream(tests, ch)
            else JudgeStream(RunningCode, setUp, tests, ch)
  {
    hide CaseStream, CutStream, IsWorst, IsPeak, IsTotal, Terminal, StatusOf, CheckedStatus, ReachesChecker;
    crashed := false;
    if setUp.Refused? {
      return [JudgeStatus(TOTAL, setUp.status, 0, 0, "", setUp.stderr)], false;
    }
    ch := [];
    var totalResult: Status := ACCEPTED;
    var maxTime, maxMem := 0, 0;
    NoCases(RunningCode, tests);
    for n := 0 to |tests|
      invariant Progress(RunningCode, tests[..n], ch, totalResult, maxTime, maxMem)
      invariant !checkerCreated ==> forall i :: 0 <= i < n ==> !ReachesChecker(tests[i])
    {
      var tc := tests[n];
      ghost var before, time, mem := ch, maxTime, maxMem;
      ch := ch + [Plain(tc.caseId, JUDGING)];
      if ReachesChecker(tc) && !checkerCreated {
        CutHere(tests, n, before);
        return ch, true;
      }
      var st, r, normal := JudgeOne(tc);
      if !normal {
        maxMem := -1;
        maxTime := -1;
      }
      if RanNormally(tc) {
        if maxMem != -1 {
          maxMem := MaxInt64(maxMem, tc.run.mem);
        }
        if maxTime != -1 {
          maxTime := MaxInt64(maxTime, tc.run.time);
        }
      }
      NormallyRan(tc);
      ch := ch + [st];
      OneMore(RunningCode, tests, n, before, st, totalResult, time, mem);
      totalResult := MaxStatus(totalResult, r);
    }
    AllCases(RunningCode, tests, ch, totalResult, maxTime, maxMem);
    ch := ch + [JudgeStatus(TOTAL, totalResult, maxMem, maxTime, "", "")];
    crashed := !checkerCreated;
  }

  /** One case with a checker: the status sent, the status counted, and whether the measurements stand. */
  method JudgeOne(tc: Trial) returns (st: JudgeStatus, r: Status, normal: bool)
    ensures Terminal(RunningCode, tc, st) && r == st.status == StatusOf(RunningCode, tc)
    ensures normal == Normally(RunningCode, tc)
  {
    r := ACCEPTED;
    normal := false;
    if !tc.inputRead {
      st := InternalError(tc.caseId, "Failed to open a file(input testcase)");
      r := INTERNAL_ERROR;
      return;
    }
    var res := tc.run;
    if res.status != ExecFinished {
      match res.status {
        case ExecError =>
          st := InternalError(tc.caseId, "Failed to execute your code. " + res.stderr);
          r := INTERNAL_ERROR;
        case ExecMemoryLimitExceeded =>
          st := Plain(tc.caseId, MEMORY_LIMIT_EXCEEDED);
          r := MEMORY_LIMIT_EXCEEDED;
        case ExecTimeLimitExceeded =>
          st := Plain(tc.caseId, TIME_LIMIT_EXCEEDED);
          r := TIME_LIMIT_EXCEEDED;
      }
    } else if res.exitCode != 0 {
      st := Plain(tc.caseId, RUNTIME_ERROR);
      r := RUNTIME_ERROR;
    } else if !tc.stdinWritten {
      st := InternalError(tc.caseId, "Failed to write stdin in stdin.txt.:");
      r := INTERNAL_ERROR;
    } else if !tc.stdoutWritten {
      st := InternalError(tc.caseId, "Failed to write stdout in stdout.txt.:");
      r := INTERNAL_ERROR;
    } else {
      var cres := tc.checker;
      if cres.status != ExecFinished {
        match cres.status {
          case ExecError => st := InternalError(tc.caseId, "Failed to execute checker code.");
          case ExecMemoryLimitExceeded => st := InternalError(tc.caseId, "Memory limit of the checker exceeded.");
          case ExecTimeLimitExceeded => st := InternalError(tc.caseId, "Time limit of the checker exceeded.");
        }
        r := INTERNAL_ERROR;
      } else if cres.exitCode != 0 {
        st := InternalError(tc.caseId, "Runtime of the checker error");
        r := INTERNAL_ERROR;
      } else {
        if FirstLine(cres.stdout) == "WA" {
          r := WRONG_ANSWER;
        }
        st := JudgeStatus(tc.caseId, r, res.mem, res.time, res.stdout, res.stderr);
        normal := true;
      }
    }
  }
}
