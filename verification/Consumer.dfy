/** The consumer of a judge's stream: case verdicts, the total status, and the score of the submission. */
module Consumer {
  import opened Types
  import opened Newline
  import opened Judges

  datatype ScoreSet = ScoreSet(cases: seq<int>, score: int)

  /** What opening and reading a case's expected output gives. */
  datatype Expected = Missing | Unreadable | Content(text: string)

  /** What is compared with what, for one problem. */
  datatype Problem = Problem(kind: Kind, convert: bool, expected: seq<Expected>, scores: seq<ScoreSet>)

  datatype CaseReport = CaseReport(caseId: int, status: Status, time: int, mem: int)

  /** `Crashed`: the source closes a file it could not open. */
  datatype Outcome = Reported(status: Status, score: int, time: int, mem: int) | Silent | Crashed

  /** Integer division of the source, towards zero. */
  function Kilo(bytes: int): int {
    if bytes >= 0 then bytes / 1000 else -((-bytes) / 1000)
  }

  predicate InRange(p: Problem, st: JudgeStatus) {
    0 <= st.caseId < |p.expected|
  }

  predicate AllInRange(p: Problem, ch: seq<JudgeStatus>) {
    forall i :: 0 <= i < |ch| ==> InRange(p, ch[i])
  }

  predicate SameOutput(p: Problem, actual: string, expected: string) {
    if p.convert then NewlineReplace(actual) == NewlineReplace(expected) else actual == expected
  }

  /** The final status of a case: an Accepted run still has to print what is expected. */
  function Judged(p: Problem, st: JudgeStatus): Status
    requires InRange(p, st)
  {
    if st.status != ACCEPTED || p.kind != PerfectMatch then st.status
    else
      match p.expected[st.caseId]
      case Content(text) => if SameOutput(p, st.stdout, text) then ACCEPTED else WRONG_ANSWER
      case _ => INTERNAL_ERROR
  }

  /** The statuses of the cases after a stream: the last one seen of each, In Queue for those never seen. */
  function Results(p: Problem, ch: seq<JudgeStatus>): (r: seq<Status>)
    requires AllInRange(p, ch)
    ensures |r| == |p.expected|
  {
    if ch == [] then seq(|p.expected|, i => IN_QUEUE)
    else
      var last := ch[|ch| - 1];
      assert InRange(p, last);
      Results(p, ch[..|ch| - 1])[last.caseId := Judged(p, last)]
  }

  predicate IsWorstSeen(p: Problem, ch: seq<JudgeStatus>, worst: Status)
    requires AllInRange(p, ch)
  {
    && worst >= ACCEPTED
    && (forall i :: 0 <= i < |ch| ==> Judged(p, ch[i]) <= worst)
    && (worst == ACCEPTED || exists i :: 0 <= i < |ch| && Judged(p, ch[i]) == worst)
  }

  // ---------------------------------------------------------------- score

  /** A set scores when every case it names, as far as the case exists, was accepted. */
  predicate Passes(set_: ScoreSet, results: seq<Status>) {
    forall i :: 0 <= i < |set_.cases| && 0 <= set_.cases[i] < |results| ==> results[set_.cases[i]] == ACCEPTED
  }

  function ScoreOf(scores: seq<ScoreSet>, results: seq<Status>): int {
    if scores == [] then 0
    else
      var last := scores[|scores| - 1];
      ScoreOf(scores[..|scores| - 1], results) + (if Passes(last, results) then last.score else 0)
  }

  function FullScore(scores: seq<ScoreSet>): int {
    if scores == [] then 0 else FullScore(scores[..|scores| - 1]) + scores[|scores| - 1].score
  }

  lemma {:induction false} AllAcceptedScoresAll(scores: seq<ScoreSet>, results: seq<Status>)
    requires forall i :: 0 <= i < |results| ==> results[i] == ACCEPTED
    ensures ScoreOf(scores, results) == FullScore(scores)
  {
    if scores != [] {
      AllAcceptedScoresAll(scores[..|scores| - 1], results);
    }
  }

  /**
   * A set adds its score if and only if every case it names, as far as that case exists, was accepted; otherwise it
   * adds nothing.
   */
  lemma {:induction false} SetCounts(scores: seq<ScoreSet>, k: nat, results: seq<Status>)
    requires k < |scores|
    ensures ScoreOf(scores, results) ==
      ScoreOf(scores[..k] + scores[k + 1..], results) +
        (if forall i :: 0 <= i < |scores[k].cases| && 0 <= scores[k].cases[i] < |results| ==>
              results[scores[k].cases[i]] == ACCEPTED
         then scores[k].score else 0)
    decreases |scores|
  {
    hide Passes;
    var n := |scores| - 1;
    var others := scores[..k] + scores[k + 1..];
    PassesExact(scores[k], results);
    if k == n {
      assert others == scores[..n];
    } else {
      SetCounts(scores[..n], k, results);
      OthersOfFirst(scores, k);
    }
  }

  lemma PassesExact(set_: ScoreSet, results: seq<Status>)
    ensures Passes(set_, results) <==>
      forall i :: 0 <= i < |set_.cases| && 0 <= set_.cases[i] < |results| ==> results[set_.cases[i]] == ACCEPTED
  {
  }

  lemma OthersOfFirst(scores: seq<ScoreSet>, k: nat)
    requires k < |scores| - 1
    ensures var n, others := |scores| - 1, scores[..k] + scores[k + 1..];
      |others| == n && others[..n - 1] == scores[..n][..k] + scores[..n][k + 1..] && others[n - 1] == scores[n]
  {
  }

  lemma {:induction false} FullScoreCounts(scores: seq<ScoreSet>, k: nat)
    requires k < |scores|
    ensures FullScore(scores) == FullScore(scores[..k] + scores[k + 1..]) + scores[k].score
    decreases |scores|
  {
    var n := |scores| - 1;
    if k == n {
      assert scores[..k] + scores[k + 1..] == scores[..n];
    } else {
      FullScoreCounts(scores[..n], k);
      OthersOfFirst(scores, k);
    }
  }

  lemma NoSets(results: seq<Status>)
    ensures ScoreOf([], results) == FullScore([]) == 0
  {
  }

  lemma {:induction false} AllPass(scores: seq<ScoreSet>, results: seq<Status>)
    requires forall k :: 0 <= k < |scores| ==> Passes(scores[k], results)
    ensures ScoreOf(scores, results) == FullScore(scores)
  {
    if scores != [] {
      AllPass(scores[..|scores| - 1], results);
    }
  }

  /** When only one set names cases that were not accepted, just its score is lost, however many such cases it names. */
  lemma LostSet(scores: seq<ScoreSet>, k: nat, results: seq<Status>)
    requires k < |scores|
    requires forall j :: 0 <= j < |scores| ==>
      (j != k <==>
         forall i :: 0 <= i < |scores[j].cases| && 0 <= scores[j].cases[i] < |results| ==>
           results[scores[j].cases[i]] == ACCEPTED)
    ensures ScoreOf(scores, results) == FullScore(scores) - scores[k].score
  {
    SetCounts(scores, k, results);
    FullScoreCounts(scores, k);
    AllPass(scores[..k] + scores[k + 1..], results);
  }

  method SumScores(scores: seq<ScoreSet>, retCases: array<Status>) returns (scoreSum: int)
    ensures scoreSum == ScoreOf(scores, retCases[..]) && (scores == [] ==> scoreSum == 0)
    ensures forall k :: 0 <= k < |scores| ==>
      scoreSum == ScoreOf(scores[..k] + scores[k + 1..], retCases[..]) +
        (if forall i :: 0 <= i < |scores[k].cases| && 0 <= scores[k].cases[i] < retCases.Length ==>
              retCases[scores[k].cases[i]] == ACCEPTED
         then scores[k].score else 0)
  {
    scoreSum := 0;
    for i := 0 to |scores|
      invariant scoreSum == ScoreOf(scores[..i], retCases[..])
    {
      var ok := true;
      var cases := scores[i].cases;
      for j := 0 to |cases|
        invariant ok <==> forall k :: 0 <= k < j && 0 <= cases[k] < retCases.Length ==> retCases[cases[k]] == ACCEPTED
      {
        var v := cases[j];
        if 0 <= v && retCases.Length > v && retCases[v] != ACCEPTED {
          ok := false;
        }
      }
      assert scores[..i + 1][..i] == scores[..i];
      if ok {
        scoreSum := scoreSum + scores[i].score;
      }
    }
    assert scores[..|scores|] == scores;
    forall k | 0 <= k < |scores|
      ensures scoreSum == ScoreOf(scores[..k] + scores[k + 1..], retCases[..]) +
        (if forall i :: 0 <= i < |scores[k].cases| && 0 <= scores[k].cases[i] < retCases.Length ==>
              retCases[scores[k].cases[i]] == ACCEPTED
         then scores[k].score else 0)
    {
      SetCounts(scores, k, retCases[..]);
    }
  }

  // ---------------------------------------------------------------- the loop

  /** The stream before its total, if it has one. */
  function Cases(ch: seq<JudgeStatus>): seq<JudgeStatus> {
    if ch == [] || ch[0].caseId == TOTAL then [] else [ch[0]] + Cases(ch[1..])
  }

  predicate Opens(p: Problem, ch: seq<JudgeStatus>)
    requires AllInRange(p, ch)
  {
    forall i :: 0 <= i < |ch| ==> CanClose(p, ch[i])
  }

  /** The expected output of an Accepted run can be opened, so it can be closed. */
  predicate CanClose(p: Problem, st: JudgeStatus)
    requires InRange(p, st)
  {
    p.kind == PerfectMatch && st.status == ACCEPTED ==> !p.expected[st.caseId].Missing?
  }

  predicate WellNumbered(p: Problem, ch: seq<JudgeStatus>) {
    forall i :: 0 <= i < |ch| ==> ch[i].caseId == TOTAL || InRange(p, ch[i])
  }

  lemma {:induction false} CasesInRange(p: Problem, ch: seq<JudgeStatus>)
    requires WellNumbered(p, ch)
    ensures |Cases(ch)| <= |ch| && Cases(ch) == ch[..|Cases(ch)|]
    ensures AllInRange(p, Cases(ch))
    ensures |Cases(ch)| < |ch| ==> ch[|Cases(ch)|].caseId == TOTAL
    decreases |ch|
  {
    if ch != [] && ch[0].caseId != TOTAL {
      CasesInRange(p, ch[1..]);
    }
  }

  function CaseReportOf(p: Problem, st: JudgeStatus): CaseReport
    requires InRange(p, st)
  {
    CaseReport(st.caseId, Judged(p, st), st.time, Kilo(st.mem))
  }

  /** What is reported in the end, given whether the producer has reported a failure of its own. */
  predicate IsOutcome(p: Problem, ch: seq<JudgeStatus>, responded: bool, outcome: Outcome)
    requires WellNumbered(p, ch)
  {
    CasesInRange(p, ch);
    var cases := Cases(ch);
    if !Opens(p, cases) then outcome == Crashed
    else if |cases| == |ch| || responded then outcome == Silent
    else
      && outcome.Reported?
      && outcome.score == ScoreOf(p.scores, Results(p, cases))
      && outcome.time == ch[|cases|].time && outcome.mem == Kilo(ch[|cases|].mem)
      && exists worst :: IsWorstSeen(p, cases, worst) && outcome.status == MaxStatus(worst, ch[|cases|].status)
  }

  /** The report of a case, field by field: an Accepted run still has to print what is expected. */
  lemma CaseReportExact(p: Problem, st: JudgeStatus)
    requires InRange(p, st)
    ensures var r, expected := CaseReportOf(p, st), p.expected[st.caseId];
      && r.caseId == st.caseId && r.time == st.time
      && (st.status != ACCEPTED || p.kind == RunningCode ==> r.status == st.status)
      && (st.status == ACCEPTED && p.kind == PerfectMatch ==>
            && (!expected.Content? ==> r.status == INTERNAL_ERROR)
            && (expected.Content? && p.convert ==>
                  r.status ==
                    if NewlineReplace(st.stdout) == NewlineReplace(expected.text) then ACCEPTED else WRONG_ANSWER)
            && (expected.Content? && !p.convert ==>
                  r.status == if st.stdout == expected.text then ACCEPTED else WRONG_ANSWER))
      && (if st.mem >= 0 then 1000 * r.mem <= st.mem < 1000 * r.mem + 1000
          else 1000 * r.mem - 1000 < st.mem <= 1000 * r.mem)
  {
  }

  /** Before any total, an accepted run whose expected output is missing. */
  predicate MissesOutput(p: Problem, ch: seq<JudgeStatus>, i: nat)
    requires i < |ch| && WellNumbered(p, ch)
  {
    && (forall j :: 0 <= j <= i ==> ch[j].caseId != -1)
    && p.kind == PerfectMatch && ch[i].status == ACCEPTED && p.expected[ch[i].caseId].Missing?
  }

  /** When a job crashes, and when it sends no result of its own. */
  lemma OutcomeExact(p: Problem, ch: seq<JudgeStatus>, responded: bool, outcome: Outcome)
    requires WellNumbered(p, ch) && IsOutcome(p, ch, responded, outcome)
    ensures outcome == Crashed <==>
      exists i :: 0 <= i < |ch| && MissesOutput(p, ch, i)
    ensures outcome != Crashed ==>
      (outcome == Silent <==> responded || forall i :: 0 <= i < |ch| ==> ch[i].caseId != -1)
  {
    CasesInRange(p, ch);
    CasesBefore(ch);
    var cases := Cases(ch);
    assert forall i :: 0 <= i < |cases| ==> cases[i] == ch[i];
    if !Opens(p, cases) {
      var i :| 0 <= i < |cases| && !CanClose(p, cases[i]);
      assert forall j :: 0 <= j <= i ==> ch[j] == cases[j] && ch[j].caseId != -1;
      assert MissesOutput(p, ch, i);
    }
    forall i | 0 <= i < |ch| && MissesOutput(p, ch, i) ensures i < |cases| && !CanClose(p, cases[i]) {
    }
  }

  lemma {:induction false} CasesBefore(ch: seq<JudgeStatus>)
    ensures |Cases(ch)| <= |ch|
    ensures forall i :: 0 <= i < |Cases(ch)| ==> ch[i].caseId != -1
    decreases |ch|
  {
    if ch != [] && ch[0].caseId != TOTAL {
      CasesBefore(ch[1..]);
      assert forall i :: 1 <= i < |Cases(ch)| ==> ch[i] == ch[1..][i - 1];
    }
  }

  /** A refused job passes the refusal on, with nothing measured, and scores nothing if every set names a case. */
  lemma RefusalReported(p: Problem, status: Status, stderr: string, outcome: Outcome)
    requires status >= ACCEPTED
    requires IsOutcome(p, [JudgeStatus(-1, status, 0, 0, "", stderr)], false, outcome)
    ensures outcome.Reported? && outcome.status == status && outcome.time == outcome.mem == 0
    ensures (forall k :: 0 <= k < |p.scores| ==> NamesCase(p.scores[k], |p.expected|)) ==> outcome.score == 0
  {
    var ch := [JudgeStatus(-1, status, 0, 0, "", stderr)];
    assert Cases(ch) == [];
    if forall k :: 0 <= k < |p.scores| ==> NamesCase(p.scores[k], |p.expected|) {
      NothingScores(p.scores, seq(|p.expected|, i => IN_QUEUE));
    }
  }

  predicate NamesCase(set_: ScoreSet, cases: nat) {
    exists i :: 0 <= i < |set_.cases| && 0 <= set_.cases[i] < cases
  }

  lemma {:induction false} NothingScores(scores: seq<ScoreSet>, results: seq<Status>)
    requires forall i :: 0 <= i < |results| ==> results[i] != ACCEPTED
    requires forall k :: 0 <= k < |scores| ==> NamesCase(scores[k], |results|)
    ensures ScoreOf(scores, results) == 0
  {
    if scores != [] {
      assert NamesCase(scores[|scores| - 1], |results|);
      NothingScores(scores[..|scores| - 1], results);
    }
  }

  lemma SeenOneMore(p: Problem, ch: seq<JudgeStatus>, st: JudgeStatus, worst: Status)
    requires AllInRange(p, ch) && InRange(p, st) && IsWorstSeen(p, ch, worst)
    ensures AllInRange(p, ch + [st])
    ensures IsWorstSeen(p, ch + [st], MaxStatus(worst, Judged(p, st)))
    ensures Results(p, ch + [st]) == Results(p, ch)[st.caseId := Judged(p, st)]
    ensures Opens(p, ch + [st]) <==> Opens(p, ch) && CanClose(p, st)
  {
    var more := ch + [st];
    assert more[..|ch|] == ch && more[|ch|] == st;
    assert forall i :: 0 <= i < |ch| ==> more[i] == ch[i];
    if worst != ACCEPTED {
      var i :| 0 <= i < |ch| && Judged(p, ch[i]) == worst;
      assert more[i] == ch[i];
    }
  }

  /** The comparison of one case, with the ways the expected output can fail. */
  method JudgeCase(p: Problem, stat: JudgeStatus) returns (status: Status, crashed: bool)
    requires InRange(p, stat)
    ensures crashed <==> !CanClose(p, stat)
    ensures !crashed ==> status == Judged(p, stat)
  {
    status := stat.status;
    crashed := false;
    if stat.status == ACCEPTED && p.kind == PerfectMatch {
      match p.expected[stat.caseId] {
        case Missing =>
          status := INTERNAL_ERROR;
          crashed := true;
        case Unreadable =>
          status := INTERNAL_ERROR;
        case Content(text) =>
          if p.convert {
            if NewlineReplace(stat.stdout) != NewlineReplace(text) {
              status := WRONG_ANSWER;
            }
          } else if stat.stdout != text {
            status := WRONG_ANSWER;
          }
      }
    }
  }

  /** What the consumer knows after the statuses `ch`. */
  ghost predicate Seen(p: Problem, ch: seq<JudgeStatus>, results: seq<Status>, worst: Status, sent: seq<CaseReport>) {
    && AllInRange(p, ch) && Opens(p, ch) && results == Results(p, ch) && IsWorstSeen(p, ch, worst)
    && |sent| == |ch| && forall j :: 0 <= j < |sent| ==> sent[j] == CaseReportOf(p, ch[j])
  }

  lemma SeenStep(p: Problem, ch: seq<JudgeStatus>, i: nat, results: seq<Status>, worst: Status, sent: seq<CaseReport>)
    requires i < |ch| && Seen(p, ch[..i], results, worst, sent) && InRange(p, ch[i]) && CanClose(p, ch[i])
    ensures |results| == |p.expected|
    ensures Seen(p, ch[..i + 1], results[ch[i].caseId := Judged(p, ch[i])], MaxStatus(worst, Judged(p, ch[i])),
                 sent + [CaseReportOf(p, ch[i])])
  {
    SeenOneMore(p, ch[..i], ch[i], worst);
    assert ch[..i + 1] == ch[..i] + [ch[i]];
  }

  method Consume(p: Problem, ch: seq<JudgeStatus>, responded: bool) returns (outcome: Outcome, sent: seq<CaseReport>)
    requires WellNumbered(p, ch)
    ensures IsOutcome(p, ch, responded, outcome)
    ensures AllInRange(p, Cases(ch))
    ensures outcome != Crashed ==>
      |sent| == |Cases(ch)| && forall i :: 0 <= i < |sent| ==> sent[i] == CaseReportOf(p, Cases(ch)[i])
  {
    CasesInRange(p, ch);
    ghost var cases := Cases(ch);
    var retCases := new Status[|p.expected|](i => IN_QUEUE);
    var totalStatus: Status := ACCEPTED;
    sent := [];
    var i := 0;
    assert retCases[..] == Results(p, []);
    while i < |ch|
      invariant 0 <= i <= |cases|
      invariant Seen(p, ch[..i], retCases[..], totalStatus, sent)
    {
      var stat := ch[i];
      if stat.caseId == TOTAL {
        assert i == |cases| && cases == ch[..i];
        var scoreSum := SumScores(p.scores, retCases);
        ghost var worst := totalStatus;
        totalStatus := MaxStatus(totalStatus, stat.status);
        if responded {
          return Silent, sent;
        }
        return Reported(totalStatus, scoreSum, stat.time, Kilo(stat.mem)), sent;
      }
      assert stat == cases[i];
      var status, crashed := JudgeCase(p, stat);
      if crashed {
        NotOpened(p, ch, i);
        return Crashed, sent;
      }
      SeenStep(p, ch, i, retCases[..], totalStatus, sent);
      sent := sent + [CaseReport(stat.caseId, status, stat.time, Kilo(stat.mem))];
      retCases[stat.caseId] := status;
      totalStatus := MaxStatus(totalStatus, status);
      i := i + 1;
    }
    assert ch[..i] == ch;
    outcome := Silent;
  }

  lemma NotOpened(p: Problem, ch: seq<JudgeStatus>, i: nat)
    requires WellNumbered(p, ch) && i < |Cases(ch)|
    requires AllInRange(p, Cases(ch)) && !CanClose(p, Cases(ch)[i])
    ensures !Opens(p, Cases(ch))
  {
  }
}
