/** Values shared by the judge pipeline: submission statuses, contest types and ranking cells. */
module Types {
  datatype Option<+T> = None | Some(value: T)

  /** Keys of the tables; all of them are allotted by counters that start at 1. */
  type Id = nat

  /** A status is the integer code of the source; the order of the codes is used by queries and maxima. */
  type Status = n: int | 0 <= n <= 8 witness 0

  const IN_QUEUE: Status := 0
  const JUDGING: Status := 1
  const ACCEPTED: Status := 2
  const WRONG_ANSWER: Status := 3
  const TIME_LIMIT_EXCEEDED: Status := 4
  const MEMORY_LIMIT_EXCEEDED: Status := 5
  const RUNTIME_ERROR: Status := 6
  const COMPILE_ERROR: Status := 7
  const INTERNAL_ERROR: Status := 8

  function MaxStatus(a: Status, b: Status): Status {
    if a > b then a else b
  }

  /** What can become of a case or a submission, from the best to the worst. */
  const OUTCOMES: seq<Status> := [
    ACCEPTED, WRONG_ANSWER, TIME_LIMIT_EXCEEDED, MEMORY_LIMIT_EXCEEDED, RUNTIME_ERROR, COMPILE_ERROR, INTERNAL_ERROR]

  /** The worse of two outcomes is the later of the two in that order, which is the order of their codes, 2 to 8. */
  lemma WorseIsLater(i: nat, j: nat)
    requires i <= j < 7
    ensures MaxStatus(OUTCOMES[i], OUTCOMES[j]) == MaxStatus(OUTCOMES[j], OUTCOMES[i]) == OUTCOMES[j]
    ensures OUTCOMES[j] == j + 2 && IN_QUEUE == 0 && JUDGING == 1
  {
  }

  datatype ContestType = JOI | PCK | AtCoder | ICPC

  /** Whether a compile error costs a penalty; no contest type says so today. */
  function CompileErrorPenalty(ct: ContestType): bool {
    match ct
    case JOI => false
    case PCK => false
    case AtCoder => false
    case ICPC => false
  }

  /** Times are nanoseconds, as in the source's Duration. */
  datatype Contest = Contest(startTime: int, finishTime: int, kind: ContestType, penalty: int)

  datatype RankingCell = RankingCell(valid: bool, sid: Id, jid: Id, time: int, score: int, penalty: int)

  /** What a NULL column reads back as. */
  const INVALID_CELL := RankingCell(false, 0, 0, 0, 0, 0)
}
