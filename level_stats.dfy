/** The referral statistics by level: the commission rate of each of the
    fifteen levels, the table that pads the fetched rows to all fifteen
    levels, and the totals over it. */
module LevelStats {
  import opened Wrappers

  /** The number of levels. */
  const Levels: nat := 15

  /** The commission, in percent, of each level. */
  const CommissionRates: map<int, int> := map[
    1 := 15, 2 := 5, 3 := 5, 4 := 3, 5 := 3, 6 := 3, 7 := 1, 8 := 1,
    9 := 1, 10 := 1, 11 := 1, 12 := 1, 13 := 2, 14 := 3, 15 := 5]

  /** The rates exist for exactly levels 1 to 15, are positive, and add up
      to 50 percent. */
  lemma CommissionRatesShape()
    ensures forall l :: l in CommissionRates <==> 1 <= l <= Levels
    ensures forall l :: l in CommissionRates ==> CommissionRates[l] > 0
    ensures RateSum(Levels) == 50
  {
    assert RateSum(5) == 31;
    assert RateSum(10) == 38;
  }

  /** The rates of levels 1 to n added up. */
  function RateSum(n: nat): int
    requires n <= Levels
  {
    if n == 0 then 0 else RateSum(n - 1) + CommissionRates[n]
  }

  /** A fetched row; a count or an amount may be missing. */
  datatype Row = Row(level: int, partnerCount: Option<int>, totalEarnings: Option<real>)

  /** A row of the table. */
  datatype LevelStat = LevelStat(level: int, partnerCount: int, totalEarnings: real)

  /** The first fetched row of a level. */
  function Find(data: seq<Row>, level: int): (r: Option<Row>)
    ensures r.Some? ==> r.value in data && r.value.level == level
    ensures r.Some? ==> exists i :: 0 <= i < |data| && data[i] == r.value && forall j :: 0 <= j < i ==> data[j].level != level
    ensures r.None? <==> forall i :: 0 <= i < |data| ==> data[i].level != level
  {
    if data == [] then None
    else if data[0].level == level then Some(data[0])
    else
      var r := Find(data[1..], level);
      if r.Some? then
        var i :| 0 <= i < |data[1..]| && data[1..][i] == r.value && forall j :: 0 <= j < i ==> data[1..][j].level != level;
        assert data[i + 1] == r.value;
        r
      else r
  }

  /** JavaScript's `x || 0` on a count: a missing value or zero gives zero. */
  function CountOr0(v: Option<int>): int {
    if v.Some? && v.value != 0 then v.value else 0
  }

  function AmountOr0(v: Option<real>): real {
    if v.Some? && v.value != 0.0 then v.value else 0.0
  }

  /** The row of a level: the first fetched row of that level, or zeros. */
  function StatOf(data: seq<Row>, level: int): (s: LevelStat)
    ensures s.level == level
    ensures Find(data, level).None? ==> s.partnerCount == 0 && s.totalEarnings == 0.0
  {
    var found := Find(data, level);
    if found.None? then LevelStat(level, 0, 0.0)
    else LevelStat(level, CountOr0(found.value.partnerCount), AmountOr0(found.value.totalEarnings))
  }

  /** The table: one row per level 1 to 15, in order. */
  function FullStats(data: seq<Row>): (stats: seq<LevelStat>)
    ensures |stats| == Levels
    ensures forall i :: 0 <= i < Levels ==> stats[i].level == i + 1 && (i + 1) in CommissionRates
    ensures forall i :: 0 <= i < Levels ==> stats[i] == StatOf(data, i + 1)
  {
    seq(Levels, i requires 0 <= i < Levels => StatOf(data, i + 1))
  }

  /** A level present once with both values copies them into the table. */
  lemma FullStatsCopies(data: seq<Row>, i: nat, count: int, earnings: real)
    requires i < |data| && 1 <= data[i].level <= Levels
    requires data[i].partnerCount == Some(count) && data[i].totalEarnings == Some(earnings)
    requires forall j :: 0 <= j < |data| && j != i ==> data[j].level != data[i].level
    ensures FullStats(data)[data[i].level - 1] == LevelStat(data[i].level, count, earnings)
  {
    var f := Find(data, data[i].level);
    assert f.Some? by {
      assert data[i].level == data[i].level;
    }
    var k :| 0 <= k < |data| && data[k] == f.value && forall j :: 0 <= j < k ==> data[j].level != data[i].level;
    assert k == i;
  }

  /** Rows of levels outside 1 to 15 change nothing. */
  lemma {:induction false} FindIgnores(data: seq<Row>, row: Row, level: int)
    requires row.level != level
    ensures Find(data + [row], level) == Find(data, level)
  {
    if data != [] {
      assert (data + [row])[1..] == data[1..] + [row];
      FindIgnores(data[1..], row, level);
    }
  }

  lemma FullStatsIgnores(data: seq<Row>, row: Row)
    requires row.level < 1 || row.level > Levels
    ensures FullStats(data + [row]) == FullStats(data)
  {
    forall i | 0 <= i < Levels
      ensures FullStats(data + [row])[i] == FullStats(data)[i]
    {
      FindIgnores(data, row, i + 1);
    }
  }

  /** The sum of the partner counts. */
  function TotalPartners(stats: seq<LevelStat>): int {
    if stats == [] then 0 else TotalPartners(stats[..|stats| - 1]) + stats[|stats| - 1].partnerCount
  }

  /** The sum of the earnings. */
  function TotalEarnings(stats: seq<LevelStat>): real {
    if stats == [] then 0.0 else TotalEarnings(stats[..|stats| - 1]) + stats[|stats| - 1].totalEarnings
  }

  /** A row without partners is dimmed. */
  predicate Dimmed(s: LevelStat) {
    !(s.partnerCount > 0)
  }

  /** With no negative count, the partner total is zero exactly when every
      row is dimmed, and otherwise at least the count of any row. */
  lemma {:induction false} TotalPartnersZeroIff(stats: seq<LevelStat>)
    requires forall i :: 0 <= i < |stats| ==> stats[i].partnerCount >= 0
    ensures TotalPartners(stats) >= 0
    ensures forall i :: 0 <= i < |stats| ==> TotalPartners(stats) >= stats[i].partnerCount
    ensures TotalPartners(stats) == 0 <==> forall i :: 0 <= i < |stats| ==> Dimmed(stats[i])
  {
    if stats != [] {
      var init := stats[..|stats| - 1];
      assert forall i :: 0 <= i < |init| ==> init[i] == stats[i];
      TotalPartnersZeroIff(init);
    }
  }
}
