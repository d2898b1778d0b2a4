/** How a ranking row is folded into its general cell and its two tie-breaking values. */
module Evaluation {
  import opened Types

  type Cells = map<Id, RankingCell>

  const MINUTE := 60_000_000_000

  // ---------------------------------------------------------------- folds over the cells of a row

  ghost function Total(cells: Cells, weight: RankingCell -> int): int {
    if cells == map[] then 0
    else
      var p :| p in cells;
      weight(cells[p]) + Total(cells - {p}, weight)
  }

  /** The sum does not depend on which cell is taken first. */
  lemma {:induction false} TotalTakesAny(cells: Cells, weight: RankingCell -> int, p: Id)
    requires p in cells
    ensures Total(cells, weight) == weight(cells[p]) + Total(cells - {p}, weight)
    decreases |cells|
  {
    var q :| q in cells && Total(cells, weight) == weight(cells[q]) + Total(cells - {q}, weight);
    if q != p {
      TotalTakesAny(cells - {q}, weight, p);
      TotalTakesAny(cells - {p}, weight, q);
      assert cells - {q} - {p} == cells - {p} - {q};
    }
  }

  ghost function LatestTime(cells: Cells): (t: int)
    ensures t >= 0
    ensures forall p :: p in cells && cells[p].score != 0 ==> cells[p].time <= t
    ensures t == 0 || exists p :: p in cells && cells[p].score != 0 && cells[p].time == t
  {
    if cells == map[] then 0
    else
      var p :| p in cells;
      var rest := cells - {p};
      var t := LatestTime(rest);
      assert t == 0 || exists q :: q in cells && cells[q].score != 0 && cells[q].time == t by {
        if t != 0 {
          var q :| q in rest && rest[q].score != 0 && rest[q].time == t;
          assert q in cells && cells[q] == rest[q];
        }
      }
      assert forall q :: q in cells && q != p ==> q in rest && rest[q] == cells[q];
      if cells[p].time > t && cells[p].score != 0 then cells[p].time else t
  }

  lemma TotalOfNone(weight: RankingCell -> int)
    ensures Total(map[], weight) == 0
  {
  }

  lemma WithoutOne(a: Cells, b: Cells, p: Id)
    requires a.Keys !! b.Keys && p in a
    ensures (a + b) - {p} == (a - {p}) + b && p in a + b && (a + b)[p] == a[p]
  {
  }

  /** Disjoint cells add up. */
  lemma {:induction false} TotalSplit(a: Cells, b: Cells, weight: RankingCell -> int)
    requires a.Keys !! b.Keys
    ensures Total(a + b, weight) == Total(a, weight) + Total(b, weight)
    decreases |a|
  {
    hide Total;
    if a == map[] {
      TotalOfNone(weight);
      assert a + b == b;
    } else {
      var p :| p in a;
      WithoutOne(a, b, p);
      TotalTakesAny(a, weight, p);
      TotalTakesAny(a + b, weight, p);
      TotalSplit(a - {p}, b, weight);
    }
  }

  function Later(t: int, u: int): int {
    if t >= u then t else u
  }

  /** And the later of their latest times is that of both. */
  lemma {:induction false} LatestSplit(a: Cells, b: Cells)
    requires a.Keys !! b.Keys
    ensures LatestTime(a + b) == Later(LatestTime(a), LatestTime(b))
  {
    var both := a + b;
    assert forall p :: p in a ==> p in both && both[p] == a[p];
    assert forall p :: p in b ==> p in both && both[p] == b[p];
    assert forall p :: p in both ==> (p in a && both[p] == a[p]) || (p in b && both[p] == b[p]);
  }

  const ScoreOf := (c: RankingCell) => c.score
  const TimeOf := (c: RankingCell) => if c.score != 0 then c.time else 0
  const PenaltyOf := (c: RankingCell) => if c.score != 0 then c.penalty else 0

  /** Two's complement wrap-around of the source's int64 sums and products. */
  function Wrap64(x: int): int {
    (x + 0x8000_0000_0000_0000) % 0x1_0000_0000_0000_0000 - 0x8000_0000_0000_0000
  }

  /** Wrapping keeps a number modulo 2^64 and in the range of int64, so there is one way to do it. */
  lemma WrapExact(x: int)
    ensures -0x8000_0000_0000_0000 <= Wrap64(x) <= 0x7fff_ffff_ffff_ffff
    ensures (x - Wrap64(x)) % 0x1_0000_0000_0000_0000 == 0
  {
  }

  lemma WrapAdd(a: int, b: int)
    ensures Wrap64(Wrap64(a) + b) == Wrap64(a + b)
  {
  }

  /** Equal parts can be left out of a comparison of wrapped sums. */
  lemma WrapCancel(same: int, u: int, v: int)
    ensures Wrap64(same + u) == Wrap64(same + v) <==> Wrap64(u) == Wrap64(v)
  {
  }

  ghost function GeneralScore(cells: Cells): int {
    Wrap64(Total(cells, ScoreOf))
  }

  ghost function GeneralTime(ct: ContestType, cells: Cells): int {
    if ct == ICPC then Wrap64(Total(cells, TimeOf)) else LatestTime(cells)
  }

  ghost function GeneralPenalty(cells: Cells): int {
    Wrap64(Total(cells, PenaltyOf))
  }

  /** What one cell counts for: its score, and its time and penalty if it scores. */
  lemma TotalsByCell(cells: Cells, p: Id)
    requires p in cells
    ensures Total(cells, ScoreOf) == cells[p].score + Total(cells - {p}, ScoreOf)
    ensures Total(cells, TimeOf) == (if cells[p].score != 0 then cells[p].time else 0) + Total(cells - {p}, TimeOf)
    ensures Total(cells, PenaltyOf) ==
      (if cells[p].score != 0 then cells[p].penalty else 0) + Total(cells - {p}, PenaltyOf)
  {
    TotalTakesAny(cells, ScoreOf, p);
    TotalTakesAny(cells, TimeOf, p);
    TotalTakesAny(cells, PenaltyOf, p);
  }

  /** The general cell a row of problem cells evaluates to. */
  ghost function General(ct: ContestType, cells: Cells): RankingCell {
    RankingCell(true, 0, 0, GeneralTime(ct, cells), GeneralScore(cells), GeneralPenalty(cells))
  }

  lemma GeneralOfNone(ct: ContestType)
    ensures General(ct, map[]) == RankingCell(true, 0, 0, 0, 0, 0)
  {
  }

  lemma WrapSplit(a: int, b: int)
    ensures Wrap64(a + b) == Wrap64(a + Wrap64(b))
  {
    WrapAdd(b, a);
  }

  /**
   * The general cell, cell by cell: scores add up; times and penalties of the cells that score do too, but the time
   * is the latest one unless the contest is an ICPC one.
   */
  lemma GeneralByCell(ct: ContestType, cells: Cells, p: Id)
    requires p in cells
    ensures var c, all, rest := cells[p], General(ct, cells), General(ct, cells - {p});
      && all.score == Wrap64(c.score + rest.score)
      && all.penalty == Wrap64((if c.score != 0 then c.penalty else 0) + rest.penalty)
      && all.time ==
         (if ct == ICPC then Wrap64((if c.score != 0 then c.time else 0) + rest.time)
          else if c.score != 0 && c.time > rest.time then c.time else rest.time)
      && all == RankingCell(true, 0, 0, all.time, all.score, all.penalty)
  {
    hide Wrap64, Total, LatestTime;
    var c, rest := cells[p], cells - {p};
    TotalsByCell(cells, p);
    WrapSplit(c.score, Total(rest, ScoreOf));
    WrapSplit(if c.score != 0 then c.penalty else 0, Total(rest, PenaltyOf));
    WrapSplit(if c.score != 0 then c.time else 0, Total(rest, TimeOf));
    LatestByCell(cells, p);
  }

  lemma LatestByCell(cells: Cells, p: Id)
    requires p in cells
    ensures var c, rest := cells[p], LatestTime(cells - {p});
      LatestTime(cells) == if c.score != 0 && c.time > rest then c.time else rest
  {
    var others := cells - {p};
    assert forall q :: q in others ==> q in cells && others[q] == cells[q];
    assert forall q :: q in cells ==> q == p || (q in others && others[q] == cells[q]);
  }

  /** Two sets of cells contribute the same to a row that has the cells `same` besides. */
  ghost predicate Alike(ct: ContestType, same: Cells, a: Cells, b: Cells) {
    && Wrap64(Total(a, ScoreOf)) == Wrap64(Total(b, ScoreOf))
    && Wrap64(Total(a, PenaltyOf)) == Wrap64(Total(b, PenaltyOf))
    && (if ct == ICPC then Wrap64(Total(a, TimeOf)) == Wrap64(Total(b, TimeOf))
        else Later(LatestTime(same), LatestTime(a)) == Later(LatestTime(same), LatestTime(b)))
  }

  lemma {:induction false} AlikeTotals(same: Cells, a: Cells, b: Cells, weight: RankingCell -> int)
    requires same.Keys !! a.Keys && same.Keys !! b.Keys
    ensures Wrap64(Total(same + a, weight)) == Wrap64(Total(same + b, weight))
      <==> Wrap64(Total(a, weight)) == Wrap64(Total(b, weight))
  {
    hide Wrap64, Total;
    TotalSplit(same, a, weight);
    TotalSplit(same, b, weight);
    WrapCancel(Total(same, weight), Total(a, weight), Total(b, weight));
  }

  lemma {:induction false} AlikeExact(ct: ContestType, same: Cells, a: Cells, b: Cells)
    requires same.Keys !! a.Keys && same.Keys !! b.Keys
    ensures General(ct, same + a) == General(ct, same + b) <==> Alike(ct, same, a, b)
  {
    hide Wrap64, Total, LatestTime, Later;
    AlikeTotals(same, a, b, ScoreOf);
    AlikeTotals(same, a, b, PenaltyOf);
    AlikeTotals(same, a, b, TimeOf);
    LatestSplit(same, a);
    LatestSplit(same, b);
  }

  function Value1(ct: ContestType, score: int, penalty: int, penaltySetting: int, time: int): int {
    match ct
    case JOI => Wrap64(-time)
    case PCK => Wrap64(-penalty)
    case AtCoder => Wrap64(Wrap64(-time) - Wrap64(penalty * MINUTE))
    case ICPC => Wrap64(Wrap64(-time) - Wrap64(penalty * MINUTE))
  }

  function Value2(ct: ContestType, score: int, penalty: int, penaltySetting: int, time: int): int {
    match ct
    case JOI => 0
    case PCK => Wrap64(-time)
    case AtCoder => 0
    case ICPC => 0
  }

  lemma WrapSub(a: int, b: int)
    ensures Wrap64(Wrap64(a) - Wrap64(b)) == Wrap64(a - b)
  {
    WrapAdd(a, -Wrap64(b));
    WrapLess(a, b);
  }

  lemma WrapLess(a: int, b: int)
    ensures Wrap64(a - Wrap64(b)) == Wrap64(a - b)
  {
  }

  /** The two values, for all arguments: what the contest type asks for, with a minute per penalty, mod 2^64. */
  lemma ValuesExact(ct: ContestType, score: int, penalty: int, setting: int, time: int)
    ensures Value1(ct, score, penalty, setting, time) ==
      Wrap64(match ct
             case JOI => -time
             case PCK => -penalty
             case AtCoder => -time - 60_000_000_000 * penalty
             case ICPC => -time - 60_000_000_000 * penalty)
    ensures Value2(ct, score, penalty, setting, time) == if ct == PCK then Wrap64(-time) else 0
  {
    hide Wrap64;
    WrapSub(-time, penalty * MINUTE);
  }

  lemma NothingAtAll()
    ensures Wrap64(0) == 0 && forall weight: RankingCell -> int :: Total(map[], weight) == 0
  {
  }

  lemma ScoresByCell(cells: Cells)
    ensures cells == map[] ==> GeneralScore(cells) == 0
    ensures forall p :: p in cells ==> GeneralScore(cells) == Wrap64(cells[p].score + GeneralScore(cells - {p}))
  {
    hide Wrap64, Total;
    NothingAtAll();
    forall p | p in cells ensures GeneralScore(cells) == Wrap64(cells[p].score + GeneralScore(cells - {p})) {
      GeneralByCell(JOI, cells, p);
    }
  }

  lemma TimesByCell(cells: Cells)
    ensures cells == map[] ==> Wrap64(Total(cells, TimeOf)) == 0
    ensures forall p :: p in cells ==>
      Wrap64(Total(cells, TimeOf)) ==
        Wrap64((if cells[p].score != 0 then cells[p].time else 0) + Total(cells - {p}, TimeOf))
  {
    hide Wrap64, Total;
    NothingAtAll();
    forall p | p in cells
      ensures Total(cells, TimeOf) == (if cells[p].score != 0 then cells[p].time else 0) + Total(cells - {p}, TimeOf)
    {
      TotalsByCell(cells, p);
    }
  }

  lemma PenaltiesByCell(cells: Cells)
    ensures cells == map[] ==> GeneralPenalty(cells) == 0
    ensures forall p :: p in cells ==>
      GeneralPenalty(cells) ==
        Wrap64((if cells[p].score != 0 then cells[p].penalty else 0) + GeneralPenalty(cells - {p}))
  {
    hide Wrap64, Total;
    NothingAtAll();
    forall p | p in cells
      ensures GeneralPenalty(cells) ==
        Wrap64((if cells[p].score != 0 then cells[p].penalty else 0) + GeneralPenalty(cells - {p}))
    {
      GeneralByCell(JOI, cells, p);
    }
  }

  // ---------------------------------------------------------------- the loops of the source

  /** `sum` is the wrapped sum over the cells that are no longer in `rest`. */
  ghost predicate Summed(cells: Cells, rest: Cells, weight: RankingCell -> int, sum: int) {
    sum == Wrap64(Total(cells, weight) - Total(rest, weight))
  }

  lemma WrapZero()
    ensures Wrap64(0) == 0
  {
  }

  lemma NothingSummed(cells: Cells, weight: RankingCell -> int)
    ensures Summed(cells, cells, weight, 0)
  {
    WrapZero();
  }

  lemma OneMoreSummed(cells: Cells, rest: Cells, weight: RankingCell -> int, sum: int, p: Id)
    requires p in rest && Summed(cells, rest, weight, sum)
    ensures Summed(cells, rest - {p}, weight, Wrap64(sum + weight(rest[p])))
    ensures weight(rest[p]) == 0 ==> Summed(cells, rest - {p}, weight, sum)
  {
    TotalTakesAny(rest, weight, p);
    WrapAdd(Total(cells, weight) - Total(rest, weight), weight(rest[p]));
  }

  method AccumulateAllScore(cells: Cells) returns (sum: int)
    ensures sum == GeneralScore(cells) && (cells == map[] ==> sum == 0)
    ensures forall p :: p in cells ==> sum == Wrap64(cells[p].score + GeneralScore(cells - {p}))
  {
    hide Wrap64, Total;
    sum := 0;
    var rest := cells;
    NothingSummed(cells, ScoreOf);
    TotalOfNone(ScoreOf);
    while rest != map[]
      invariant Summed(cells, rest, ScoreOf, sum)
      decreases |rest|
    {
      var p :| p in rest;
      OneMoreSummed(cells, rest, ScoreOf, sum, p);
      sum := Wrap64(sum + rest[p].score);
      rest := rest - {p};
    }
    ScoresByCell(cells);
  }

  method AccumulateAllTime(cells: Cells) returns (sum: int)
    ensures sum == Wrap64(Total(cells, TimeOf)) && (cells == map[] ==> sum == 0)
    ensures forall p :: p in cells ==>
      sum == Wrap64((if cells[p].score != 0 then cells[p].time else 0) + Total(cells - {p}, TimeOf))
  {
    hide Wrap64, Total;
    sum := 0;
    var rest := cells;
    NothingSummed(cells, TimeOf);
    TotalOfNone(TimeOf);
    while rest != map[]
      invariant Summed(cells, rest, TimeOf, sum)
      decreases |rest|
    {
      var p :| p in rest;
      OneMoreSummed(cells, rest, TimeOf, sum, p);
      if rest[p].score != 0 {
        sum := Wrap64(sum + rest[p].time);
      }
      rest := rest - {p};
    }
    TimesByCell(cells);
  }

  method AccumulateAllPenalty(cells: Cells) returns (sum: int)
    ensures sum == GeneralPenalty(cells) && (cells == map[] ==> sum == 0)
    ensures forall p :: p in cells ==>
      sum == Wrap64((if cells[p].score != 0 then cells[p].penalty else 0) + GeneralPenalty(cells - {p}))
  {
    hide Wrap64, Total;
    sum := 0;
    var rest := cells;
    NothingSummed(cells, PenaltyOf);
    TotalOfNone(PenaltyOf);
    while rest != map[]
      invariant Summed(cells, rest, PenaltyOf, sum)
      decreases |rest|
    {
      var p :| p in rest;
      OneMoreSummed(cells, rest, PenaltyOf, sum, p);
      if rest[p].score != 0 {
        sum := Wrap64(sum + rest[p].penalty);
      }
      rest := rest - {p};
    }
    PenaltiesByCell(cells);
  }

  method MaximizedTime(cells: Cells) returns (max: int)
    ensures max == LatestTime(cells)
  {
    max := 0;
    var rest := cells;
    while rest != map[]
      invariant forall p :: p in rest ==> p in cells && rest[p] == cells[p]
      invariant max >= 0
      invariant forall p :: p in cells && p !in rest && cells[p].score != 0 ==> cells[p].time <= max
      invariant max == 0 || exists p :: p in cells && cells[p].score != 0 && cells[p].time == max
      decreases |rest|
    {
      var p :| p in rest;
      if rest[p].time > max && rest[p].score != 0 {
        max := rest[p].time;
      }
      rest := rest - {p};
    }
  }
}
