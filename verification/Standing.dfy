/** The order of the standings: what sorting by the three folded columns means for each contest type. */
module Standing {
  import opened Types
  import opened Evaluation
  import opened Ranking

  ghost function ExactTime(ct: ContestType, cells: Cells): int {
    if ct == ICPC then Total(cells, TimeOf) else LatestTime(cells)
  }

  /** At most `n` problems, each solved within `latest` and with at most `penalties` counted in all. */
  ghost predicate InBounds(cells: Cells, n: nat, latest: nat, penalties: nat) {
    && |cells| <= n
    && (forall p :: p in cells && cells[p].score != 0 ==> 0 <= cells[p].time <= latest && 0 <= cells[p].penalty)
    && -0x8000_0000_0000_0000 <= Total(cells, ScoreOf) < 0x8000_0000_0000_0000
    && Total(cells, PenaltyOf) <= penalties
  }

  lemma TimesOne(k: nat, most: nat)
    requires k >= 1
    ensures k * most == (k - 1) * most + most
  {
  }

  lemma TimesMonotone(k: nat, n: nat, most: nat)
    requires k <= n
    ensures k * most <= n * most
  {
  }

  lemma {:induction false} TotalBetween(cells: Cells, weight: RankingCell -> int, most: nat)
    requires forall p :: p in cells ==> 0 <= weight(cells[p]) <= most
    ensures 0 <= Total(cells, weight) <= |cells| * most
    decreases |cells|
  {
    if cells != map[] {
      var p :| p in cells;
      var rest := cells - {p};
      TotalTakesAny(cells, weight, p);
      assert |rest| == |cells| - 1 by { assert rest.Keys == cells.Keys - {p}; }
      TotalBetween(rest, weight, most);
      TimesOne(|cells|, most);
    }
  }

  lemma {:induction false} PenaltyNatural(cells: Cells)
    requires forall p :: p in cells && cells[p].score != 0 ==> 0 <= cells[p].penalty
    ensures 0 <= Total(cells, PenaltyOf)
    decreases |cells|
  {
    if cells != map[] {
      var p :| p in cells;
      TotalTakesAny(cells, PenaltyOf, p);
      PenaltyNatural(cells - {p});
    }
  }

  lemma TimeBetween(ct: ContestType, cells: Cells, n: nat, latest: nat, penalties: nat)
    requires InBounds(cells, n, latest, penalties)
    ensures 0 <= ExactTime(ct, cells) <= n * latest
  {
    TimesMonotone(|cells|, n, latest);
    if ct == ICPC {
      TotalBetween(cells, TimeOf, latest);
    } else if LatestTime(cells) != 0 {
      assert |cells| >= 1;
      TimesMonotone(1, n, latest);
    }
  }

  lemma WrapFits(x: int)
    requires -0x8000_0000_0000_0000 <= x < 0x8000_0000_0000_0000
    ensures Wrap64(x) == x
  {
  }

  lemma FitsTogether(time: int, penalty: int, reach: int, penalties: int)
    requires 0 <= time <= reach && 0 <= penalty <= penalties && reach + MINUTE * penalties < 0x8000_0000_0000_0000
    ensures 0 <= penalty * MINUTE && time + penalty * MINUTE < 0x8000_0000_0000_0000
  {
  }

  /** The tie-breaking values without wrap-around. */
  function ExactValue1(ct: ContestType, time: int, penalty: int): int {
    match ct
    case JOI => -time
    case PCK => -penalty
    case AtCoder => -time - penalty * MINUTE
    case ICPC => -time - penalty * MINUTE
  }

  lemma ValuesFit(ct: ContestType, score: int, time: int, penalty: int, setting: int, reach: int, penalties: int)
    requires 0 <= time <= reach && 0 <= penalty <= penalties && reach + MINUTE * penalties < 0x8000_0000_0000_0000
    ensures Value1(ct, score, penalty, setting, time) == ExactValue1(ct, time, penalty)
    ensures Value2(ct, score, penalty, setting, time) == if ct == PCK then -time else 0
    ensures Wrap64(time) == time && Wrap64(penalty) == penalty
  {
    FitsTogether(time, penalty, reach, penalties);
    WrapFits(time);
    WrapFits(-time);
    WrapFits(penalty);
    WrapFits(-penalty);
    WrapFits(penalty * MINUTE);
    WrapFits(-time - penalty * MINUTE);
  }

  /** Nothing wraps around: the folded columns carry the exact totals. */
  lemma NoOverflow(contest: Contest, cells: Cells, n: nat, latest: nat, penalties: nat)
    requires InBounds(cells, n, latest, penalties)
    requires n * latest + 60_000_000_000 * penalties < 0x8000_0000_0000_0000
    ensures var row, time, penalty := Folded(contest, cells), ExactTime(contest.kind, cells), Total(cells, PenaltyOf);
      && row.problems == cells && row.general == RankingCell(true, 0, 0, time, row.score, penalty)
      && row.score == Total(cells, ScoreOf)
      && row.value1 ==
         (match contest.kind
          case JOI => -time
          case PCK => -penalty
          case AtCoder => -time - 60_000_000_000 * penalty
          case ICPC => -time - 60_000_000_000 * penalty)
      && row.value2 == if contest.kind == PCK then -time else 0
  {
    TimeBetween(contest.kind, cells, n, latest, penalties);
    PenaltyNatural(cells);
    WrapFits(Total(cells, ScoreOf));
    ValuesFit(contest.kind, Total(cells, ScoreOf), ExactTime(contest.kind, cells), Total(cells, PenaltyOf),
              contest.penalty, n * latest, penalties);
  }

  /**
   * Sorting by the folded columns (`ORDER BY score DESC, value1 DESC, value2 DESC`) is the documented order: more
   * points first, then less time, fewer penalties, or less time with one minute per penalty, whatever the contest's
   * penalty setting says, as long as the totals fit.
   */
  lemma StandingOrder(contest: Contest, a: Cells, b: Cells, n: nat, latest: nat, penalties: nat)
    requires InBounds(a, n, latest, penalties) && InBounds(b, n, latest, penalties)
    requires n * latest + 60_000_000_000 * penalties < 0x8000_0000_0000_0000
    ensures var row, row', kind := Folded(contest, a), Folded(contest, b), contest.kind;
      var score, time, penalty := Total(a, ScoreOf), ExactTime(kind, a), Total(a, PenaltyOf);
      var score', time', penalty' := Total(b, ScoreOf), ExactTime(kind, b), Total(b, PenaltyOf);
      || row.score > row'.score
      || (row.score == row'.score && row.value1 > row'.value1)
      || (row.score == row'.score && row.value1 == row'.value1 && row.value2 > row'.value2)
      <==>
      || score > score'
      || (score == score' &&
          match kind
          case JOI => time < time'
          case PCK => penalty < penalty' || (penalty == penalty' && time < time')
          case AtCoder => time + 60_000_000_000 * penalty < time' + 60_000_000_000 * penalty'
          case ICPC => time + 60_000_000_000 * penalty < time' + 60_000_000_000 * penalty')
  {
    NoOverflow(contest, a, n, latest, penalties);
    NoOverflow(contest, b, n, latest, penalties);
  }

  lemma SettingScales(penalty: nat, setting: int)
    ensures penalty * setting == penalty <==> penalty == 0 || setting == 1
  {
    if penalty * setting == penalty && penalty != 0 {
      assert penalty * (setting - 1) == 0;
    }
  }

  /**
   * The contest's penalty setting (minutes per penalty) is not used by the code: the value agrees with
   * the setting only if there is no penalty to count or the setting is one minute.
   */
  lemma PenaltySettingExact(ct: ContestType, score: int, time: int, penalty: nat, setting: int)
    requires ct == AtCoder || ct == ICPC
    requires 0 <= time && time + 60_000_000_000 * penalty < 0x8000_0000_0000_0000
    ensures Value1(ct, score, penalty, setting, time) == -time - (penalty * setting) * 60_000_000_000 <==>
      penalty == 0 || setting == 1
  {
    ValuesFit(ct, score, time, penalty, setting, time, penalty);
    SettingScales(penalty, setting);
  }
}
