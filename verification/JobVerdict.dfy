/** Judge and consumer together: what is reported for a submission whose cases were all streamed. */
module JobVerdict {
  import opened Types
  import opened Newline
  import opened Judges
  import opened Consumer

  /** The verdict on case `i`: its run, then the checker or the comparison with the expected output. */
  function Verdict(p: Problem, t: Trial): Status
    requires t.caseId < |p.expected|
  {
    if p.kind == RunningCode then CheckedStatus(t)
    else if SimpleStatus(t) != ACCEPTED then SimpleStatus(t)
    else
      match p.expected[t.caseId]
      case Content(text) => if SameOutput(p, t.run.stdout, text) then ACCEPTED else WRONG_ANSWER
      case _ => INTERNAL_ERROR
  }

  /** The producer numbers the cases of the problem in order. */
  predicate AllCases(p: Problem, tests: seq<Trial>) {
    |tests| == |p.expected| && forall i :: 0 <= i < |tests| ==> tests[i].caseId == i
  }

  function Verdicts(p: Problem, tests: seq<Trial>): seq<Status>
    requires AllCases(p, tests)
  {
    seq(|tests|, i requires 0 <= i < |tests| => Verdict(p, tests[i]))
  }

  lemma TerminalJudged(p: Problem, t: Trial, st: JudgeStatus)
    requires t.caseId < |p.expected| && Terminal(p.kind, t, st)
    ensures InRange(p, st) && Judged(p, st) == Verdict(p, t)
  {
  }

  /** After the statuses of the first `n` cases, those cases have their verdicts and the others none. */
  lemma {:induction false} ResultsOfPrefix(p: Problem, tests: seq<Trial>, ch: seq<JudgeStatus>, n: nat)
    requires AllCases(p, tests) && CaseStream(p.kind, tests, ch) && n <= |tests|
    ensures AllInRange(p, ch[..2 * n])
    ensures Results(p, ch[..2 * n]) == Verdicts(p, tests)[..n] + seq(|tests| - n, i => IN_QUEUE)
  {
    if n > 0 {
      var m := n - 1;
      ResultsOfPrefix(p, tests, ch, m);
      var judging, terminal := ch[2 * m], ch[2 * m + 1];
      assert Terminal(p.kind, tests[m], terminal);
      TerminalJudged(p, tests[m], terminal);
      assert ch[..2 * n] == ch[..2 * m] + [judging] + [terminal];
      TwoMoreResults(p, ch[..2 * m], judging, terminal);
    }
  }

  lemma TwoMoreResults(p: Problem, ch: seq<JudgeStatus>, a: JudgeStatus, b: JudgeStatus)
    requires AllInRange(p, ch) && InRange(p, a) && InRange(p, b) && a.caseId == b.caseId
    ensures AllInRange(p, ch + [a] + [b])
    ensures Results(p, ch + [a] + [b]) == Results(p, ch)[b.caseId := Judged(p, b)]
  {
    assert (ch + [a] + [b])[..|ch| + 1] == ch + [a];
    assert (ch + [a])[..|ch|] == ch;
  }

  lemma {:induction false} CasesOfStream(ch: seq<JudgeStatus>, total: JudgeStatus)
    requires (forall i :: 0 <= i < |ch| ==> ch[i].caseId != TOTAL) && total.caseId == TOTAL
    ensures Cases(ch + [total]) == ch
    decreases |ch|
  {
    if ch != [] {
      CasesOfStream(ch[1..], total);
      assert (ch + [total])[1..] == ch[1..] + [total];
    }
  }

  /** `worst` is the worst of the verdicts, Accepted when there are none. */
  predicate WorstVerdict(verdicts: seq<Status>, worst: Status) {
    && worst >= ACCEPTED && (forall i :: 0 <= i < |verdicts| ==> verdicts[i] <= worst)
    && (worst == ACCEPTED || exists i :: 0 <= i < |verdicts| && verdicts[i] == worst)
  }

  /** The verdict, field by field. */
  lemma VerdictExact(p: Problem, t: Trial)
    requires t.caseId < |p.expected|
    ensures var v, expected, says := Verdict(p, t), p.expected[t.caseId], t.checker.stdout;
      var ran := t.inputRead && t.run.status == ExecFinished && t.run.exitCode == 0;
      var checked := t.stdinWritten && t.stdoutWritten && t.checker.status == ExecFinished && t.checker.exitCode == 0;
      var same := if p.convert && expected.Content? then NewlineReplace(t.run.stdout) == NewlineReplace(expected.text)
                  else expected == Content(t.run.stdout);
      var wrong := says == "WA" || "WA\r" <= says || "WA\n" <= says;
      && (v == ACCEPTED <==> ran && (if p.kind == PerfectMatch then same else checked && !wrong))
      && (v == WRONG_ANSWER <==>
            ran && (if p.kind == PerfectMatch then expected.Content? && !same else checked && wrong))
      && (v == RUNTIME_ERROR <==> t.inputRead && t.run.status == ExecFinished && t.run.exitCode != 0)
      && (v == TIME_LIMIT_EXCEEDED <==> t.inputRead && t.run.status == ExecTimeLimitExceeded)
      && (v == MEMORY_LIMIT_EXCEEDED <==> t.inputRead && t.run.status == ExecMemoryLimitExceeded)
      && v != COMPILE_ERROR
  {
    SaysWrong(t.checker.stdout);
  }

  lemma VerdictNotBetter(p: Problem, t: Trial)
    requires t.caseId < |p.expected|
    ensures Verdict(p, t) >= StatusOf(p.kind, t) >= ACCEPTED
  {
  }

  /** The status reported is the worst verdict: the judge's own total adds nothing worse. */
  lemma ReportedWorst(p: Problem, tests: seq<Trial>, cases: seq<JudgeStatus>, seen: Status, total: Status)
    requires AllCases(p, tests) && CaseStream(p.kind, tests, cases) && AllInRange(p, cases)
    requires IsWorstSeen(p, cases, seen) && IsWorst(p.kind, tests, total)
    ensures WorstVerdict(Verdicts(p, tests), MaxStatus(seen, total))
  {
    hide Verdict, StatusOf, Terminal;
    var verdicts := Verdicts(p, tests);
    forall i | 0 <= i < |tests|
      ensures verdicts[i] == Judged(p, cases[2 * i + 1]) && verdicts[i] >= StatusOf(p.kind, tests[i])
    {
      assert Terminal(p.kind, tests[i], cases[2 * i + 1]);
      TerminalJudged(p, tests[i], cases[2 * i + 1]);
      VerdictNotBetter(p, tests[i]);
    }
    if seen != ACCEPTED {
      var j :| 0 <= j < |cases| && Judged(p, cases[j]) == seen;
      var i := j / 2;
      assert j == 2 * i || j == 2 * i + 1;
      assert cases[2 * i] == Plain(tests[i].caseId, JUDGING);
      assert verdicts[i] == seen;
    }
    if total != ACCEPTED {
      var i :| 0 <= i < |tests| && StatusOf(p.kind, tests[i]) == total;
      assert verdicts[i] >= total;
      assert verdicts[i] <= seen;
    }
  }

  lemma CasesNotTotal(p: Problem, tests: seq<Trial>, cases: seq<JudgeStatus>)
    requires AllCases(p, tests) && CaseStream(p.kind, tests, cases)
    ensures forall j :: 0 <= j < |cases| ==> cases[j].caseId != TOTAL && InRange(p, cases[j])
  {
    forall j | 0 <= j < |cases| ensures cases[j].caseId == tests[j / 2].caseId {
      var i := j / 2;
      assert j == 2 * i || j == 2 * i + 1;
      assert cases[2 * i] == Plain(tests[i].caseId, JUDGING) && Terminal(p.kind, tests[i], cases[2 * i + 1]);
    }
  }

  lemma StreamNumbered(p: Problem, tests: seq<Trial>, ch: seq<JudgeStatus>)
    requires AllCases(p, tests) && JudgeStream(p.kind, Ready, tests, ch)
    ensures WellNumbered(p, ch)
  {
    var cases := ch[..2 * |tests|];
    CasesNotTotal(p, tests, cases);
    assert forall i :: 0 <= i < |cases| ==> ch[i] == cases[i];
  }

  /** The stream is its cases and one total, and after the cases every result is the verdict. */
  lemma StreamParts(p: Problem, tests: seq<Trial>, ch: seq<JudgeStatus>)
    requires AllCases(p, tests) && JudgeStream(p.kind, Ready, tests, ch)
    ensures Cases(ch) == ch[..2 * |tests|] && AllInRange(p, Cases(ch))
    ensures Results(p, Cases(ch)) == Verdicts(p, tests)
  {
    var cases, total := ch[..2 * |tests|], ch[2 * |tests|];
    CasesNotTotal(p, tests, cases);
    assert ch == cases + [total];
    StreamNumbered(p, tests, ch);
    CasesOfStream(cases, total);
    CasesInRange(p, ch);
    ResultsOfPrefix(p, tests, cases, |tests|);
    assert cases[..2 * |tests|] == cases;
    assert Verdicts(p, tests)[..|tests|] + seq(|tests| - |tests|, i => IN_QUEUE) == Verdicts(p, tests);
  }

  lemma WorstOf(p: Problem, tests: seq<Trial>, worst: Status)
    requires AllCases(p, tests) && WorstVerdict(Verdicts(p, tests), worst)
    ensures worst >= ACCEPTED && forall i :: 0 <= i < |tests| ==> Verdict(p, tests[i]) <= worst
    ensures worst == ACCEPTED || exists i :: 0 <= i < |tests| && Verdict(p, tests[i]) == worst
  {
    hide Verdict;
    var verdicts := Verdicts(p, tests);
    assert forall i :: 0 <= i < |tests| ==> verdicts[i] == Verdict(p, tests[i]);
  }

  lemma AcceptedMeansAll(p: Problem, tests: seq<Trial>, status: Status)
    requires AllCases(p, tests) && WorstVerdict(Verdicts(p, tests), status)
    ensures status == ACCEPTED <==> forall i :: 0 <= i < |tests| ==> Verdict(p, tests[i]) == ACCEPTED
    ensures status == ACCEPTED ==> ScoreOf(p.scores, Verdicts(p, tests)) == FullScore(p.scores)
  {
    var verdicts := Verdicts(p, tests);
    forall i | 0 <= i < |tests| ensures verdicts[i] == Verdict(p, tests[i]) >= ACCEPTED {
      VerdictNotBetter(p, tests[i]);
    }
    if status == ACCEPTED {
      forall i | 0 <= i < |tests| ensures verdicts[i] == ACCEPTED {
        assert verdicts[i] <= status;
      }
      AllAcceptedScoresAll(p.scores, verdicts);
    }
  }

  /** The expected output of a case is there, or is not opened. */
  predicate CanCompare(p: Problem, t: Trial)
    requires t.caseId < |p.expected|
  {
    p.kind == PerfectMatch && SimpleStatus(t) == ACCEPTED ==> !p.expected[t.caseId].Missing?
  }

  lemma TrialCloses(p: Problem, t: Trial, st: JudgeStatus)
    requires t.caseId < |p.expected| && Terminal(p.kind, t, st)
    ensures InRange(p, st) && (CanClose(p, st) <==> CanCompare(p, t))
  {
  }

  lemma OpensExact(p: Problem, tests: seq<Trial>, cases: seq<JudgeStatus>)
    requires AllCases(p, tests) && CaseStream(p.kind, tests, cases) && AllInRange(p, cases)
    ensures Opens(p, cases) <==> forall i :: 0 <= i < |tests| ==> CanCompare(p, tests[i])
  {
    forall i | 0 <= i < |tests|
      ensures CanClose(p, cases[2 * i + 1]) <==> CanCompare(p, tests[i])
      ensures CanClose(p, cases[2 * i])
    {
      assert cases[2 * i] == Plain(tests[i].caseId, JUDGING) && Terminal(p.kind, tests[i], cases[2 * i + 1]);
      TrialCloses(p, tests[i], cases[2 * i + 1]);
    }
    if forall i :: 0 <= i < |tests| ==> CanCompare(p, tests[i]) {
      forall j | 0 <= j < |cases| ensures CanClose(p, cases[j]) {
        var i := j / 2;
        assert j == 2 * i || j == 2 * i + 1;
        assert CanCompare(p, tests[i]);
      }
    }
  }

  lemma ReportFields(p: Problem, tests: seq<Trial>, total: JudgeStatus, outcome: Outcome)
    requires AllCases(p, tests) && outcome.Reported? && WorstVerdict(Verdicts(p, tests), outcome.status)
    requires IsPeak(p.kind, tests, TimeOf, total.time) && IsPeak(p.kind, tests, MemOf, total.mem)
    requires outcome.score == ScoreOf(p.scores, Verdicts(p, tests))
    requires outcome.time == total.time && outcome.mem == Kilo(total.mem)
    ensures outcome.status >= ACCEPTED && forall i :: 0 <= i < |tests| ==> Verdict(p, tests[i]) <= outcome.status
    ensures outcome.status == ACCEPTED || exists i :: 0 <= i < |tests| && Verdict(p, tests[i]) == outcome.status
    ensures outcome.status == ACCEPTED <==> forall i :: 0 <= i < |tests| ==> Verdict(p, tests[i]) == ACCEPTED
    ensures outcome.status == ACCEPTED ==> outcome.score == FullScore(p.scores)
    ensures exists peak ::
      && IsPeak(p.kind, tests, MemOf, peak)
      && if peak >= 0 then 1000 * outcome.mem <= peak < 1000 * outcome.mem + 1000 else outcome.mem == 0
    ensures outcome.mem >= 0
    ensures (exists i :: 0 <= i < |tests| && !Normally(p.kind, tests[i])) ==> outcome.time == -1 && outcome.mem == 0
  {
    hide Verdict, Normally;
    AcceptedMeansAll(p, tests, outcome.status);
    WorstOf(p, tests, outcome.status);
    assert IsPeak(p.kind, tests, MemOf, total.mem);
  }

  /**
   * A job whose cases were all streamed crashes if and only if an expected output it has to open is missing.
   * Otherwise it reports the worst verdict, scores exactly the sets whose existing cases are all accepted, and says
   * Accepted exactly when every case is, in which case the score is the full score. The time is the longest of the
   * cases, -1 if one did not finish normally; the memory is the largest in thousands of bytes, but then 0.
   */
  lemma ReportIsVerdict(p: Problem, tests: seq<Trial>, ch: seq<JudgeStatus>, outcome: Outcome)
    requires AllCases(p, tests) && JudgeStream(p.kind, Ready, tests, ch)
    requires (StreamNumbered(p, tests, ch); IsOutcome(p, ch, false, outcome))
    ensures outcome.Reported? <==> forall i :: 0 <= i < |tests| ==> CanCompare(p, tests[i])
    ensures !outcome.Reported? ==> outcome == Crashed
    ensures outcome.Reported? ==>
      && outcome.score == ScoreOf(p.scores, Verdicts(p, tests))
      && outcome.status >= ACCEPTED && (forall i :: 0 <= i < |tests| ==> Verdict(p, tests[i]) <= outcome.status)
      && (outcome.status == ACCEPTED || exists i :: 0 <= i < |tests| && Verdict(p, tests[i]) == outcome.status)
      && (outcome.status == ACCEPTED <==> forall i :: 0 <= i < |tests| ==> Verdict(p, tests[i]) == ACCEPTED)
      && (outcome.status == ACCEPTED ==> outcome.score == FullScore(p.scores))
      && IsPeak(p.kind, tests, TimeOf, outcome.time)
      && (exists peak ::
            && IsPeak(p.kind, tests, MemOf, peak)
            && if peak >= 0 then 1000 * outcome.mem <= peak < 1000 * outcome.mem + 1000 else outcome.mem == 0)
      && outcome.mem >= 0
      && ((exists i :: 0 <= i < |tests| && !Normally(p.kind, tests[i])) ==> outcome.time == -1 && outcome.mem == 0)
  {
    var cases, total := ch[..2 * |tests|], ch[2 * |tests|];
    StreamNumbered(p, tests, ch);
    StreamParts(p, tests, ch);
    OpensExact(p, tests, cases);
    if Opens(p, cases) {
      var worst :| IsWorstSeen(p, cases, worst) && outcome.status == MaxStatus(worst, total.status);
      ReportedWorst(p, tests, cases, worst, total.status);
      ReportFields(p, tests, total, outcome);
    }
  }
}
