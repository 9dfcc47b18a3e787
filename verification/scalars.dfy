/** The `scalar` table loop shared by both reports: each row's `scalarName` is
    matched against a fixed list of statistic names, first match wins, and the
    row's `scalarValue` is appended to the channel utilizations or added to the
    packet counter of its name. */
module Scalars {
  import opened Results
  import opened Text
  import opened Markers

  /** One `scalar` row: `moduleName`, `scalarName` and `scalarValue`. */
  datatype ScalarRow = ScalarRow(moduleName: string, name: string, value: int)

  /** The names of the `if`/`elif` chain, in order. Index 0 feeds
      `utilizations`; index i > 0 feeds counter i - 1: `transfer_count`,
      `receive_count`, then the twelve `pd_*` drop counters. */
  const ScalarNames: seq<string> := [
    "rx channel utilization",
    "txPk:count",
    "rxPkOk:count",
    "droppedPkBadChecksum:count",
    "droppedPkWrongPort:count",
    "packetDropAddressResolutionFailed:count",
    "packetDropForwardingDisabled:count",
    "packetDropHopLimitReached:count",
    "packetDropIncorrectlyReceived:count",
    "packetDropInterfaceDown:count",
    "packetDropNoInterfaceFound:count",
    "packetDropNoRouteFound:count",
    "packetDropNotAddressedToUs:count",
    "packetDropQueueOverflow:count",
    "packetDropUndefined:count"
  ]

  const UtilizationKind: nat := 0
  const TransferKind: nat := 1
  const ReceiveKind: nat := 2

  /** `transfer_count`, `receive_count` and the twelve drop counters. */
  const CounterCount: nat := 14

  /** The branch a row takes: the index of the first name its `scalarName`
      contains. */
  function Kind(row: ScalarRow): (r: Option<nat>)
    ensures r.Some? ==> r.value < |ScalarNames| && Contains(row.name, ScalarNames[r.value])
  {
    FirstMatch(ScalarNames, row.name)
  }

  /** The branch taken is the first name the row's `scalarName` contains, and
      a row whose name contains none of them takes no branch. */
  lemma KindFirstMatch(row: ScalarRow)
    ensures Kind(row).Some? ==> Contains(row.name, ScalarNames[Kind(row).value])
    ensures Kind(row).Some? ==> forall j :: 0 <= j < Kind(row).value ==> !Contains(row.name, ScalarNames[j])
    ensures Kind(row).None? <==> forall j :: 0 <= j < |ScalarNames| ==> !Contains(row.name, ScalarNames[j])
  {
  }

  /** `utilizations` and the fourteen counters. */
  datatype Totals = Totals(utilizations: seq<int>, counts: seq<int>)

  function InitTotals(): (t: Totals)
    ensures |t.counts| == CounterCount && t.utilizations == []
    ensures forall j :: 0 <= j < CounterCount ==> t.counts[j] == 0
  {
    Totals([], seq(CounterCount, _ => 0))
  }

  /** One iteration of the loop: at most one counter changes. */
  function Tally(t: Totals, row: ScalarRow): (r: Totals)
    requires |t.counts| == CounterCount
    ensures |r.counts| == CounterCount
    ensures Kind(row).None? ==> r == t
    ensures Kind(row) == Some(UtilizationKind) ==>
      r.counts == t.counts && r.utilizations == t.utilizations + [row.value]
    ensures Kind(row).Some? && Kind(row).value != UtilizationKind ==>
      && r.utilizations == t.utilizations
      && r.counts[Kind(row).value - 1] == t.counts[Kind(row).value - 1] + row.value
      && forall j :: 0 <= j < CounterCount && j != Kind(row).value - 1 ==> r.counts[j] == t.counts[j]
  {
    match Kind(row)
    case None => t
    case Some(i) =>
      if i == UtilizationKind then t.(utilizations := t.utilizations + [row.value])
      else t.(counts := t.counts[i - 1 := t.counts[i - 1] + row.value])
  }

  /** The loop over `rows` from `t`: earlier utilizations are kept in place. */
  function TallyAll(t: Totals, rows: seq<ScalarRow>): (r: Totals)
    requires |t.counts| == CounterCount
    ensures |r.counts| == CounterCount
    ensures |t.utilizations| <= |r.utilizations| && r.utilizations[..|t.utilizations|] == t.utilizations
    decreases |rows|
  {
    if |rows| == 0 then t
    else
      var t' := Tally(t, rows[0]);
      var r := TallyAll(t', rows[1..]);
      TallyUtilization(t, rows[0]);
      PrefixOfAppend(t.utilizations, Listed(rows[0], UtilizationKind), r.utilizations);
      r
  }

  /** Rows whose names match none of the statistics leave the totals alone. */
  lemma {:induction false} TallyAllUnmatched(t: Totals, rows: seq<ScalarRow>)
    requires |t.counts| == CounterCount
    ensures (forall i :: 0 <= i < |rows| ==> Kind(rows[i]).None?) ==> TallyAll(t, rows) == t
    decreases |rows|
  {
    if |rows| > 0 && forall i :: 0 <= i < |rows| ==> Kind(rows[i]).None? {
      assert Kind(rows[0]).None?;
      forall i | 0 <= i < |rows[1..]| ensures Kind(rows[1..][i]).None? {
        assert rows[1..][i] == rows[i + 1];
      }
      TallyAllUnmatched(t, rows[1..]);
    }
  }

  /** What one row adds to counter `j`. */
  function Contribution(row: ScalarRow, kind: nat): int {
    if Kind(row) == Some(kind) then row.value else 0
  }

  /** The sum of the values of the rows of one kind. */
  function SumOfKind(rows: seq<ScalarRow>, kind: nat): int
    decreases |rows|
  {
    if |rows| == 0 then 0
    else Contribution(rows[0], kind) + SumOfKind(rows[1..], kind)
  }

  /** What one row appends to a list of the values of one kind. */
  function Listed(row: ScalarRow, kind: nat): seq<int> {
    if Kind(row) == Some(kind) then [row.value] else []
  }

  /** The values of the rows of one kind, in order. */
  function ValuesOfKind(rows: seq<ScalarRow>, kind: nat): seq<int>
    decreases |rows|
  {
    if |rows| == 0 then []
    else Listed(rows[0], kind) + ValuesOfKind(rows[1..], kind)
  }

  lemma TallyCount(t: Totals, row: ScalarRow, j: nat)
    requires |t.counts| == CounterCount && j < CounterCount
    ensures Tally(t, row).counts[j] == t.counts[j] + Contribution(row, j + 1)
  {
  }

  /** A prefix of `c` that extends `a` makes `a` a prefix of `c` too. */
  lemma PrefixOfAppend(a: seq<int>, x: seq<int>, c: seq<int>)
    requires |a + x| <= |c| && c[..|a + x|] == a + x
    ensures |a| <= |c| && c[..|a|] == a
  {
    assert c[..|a|] == (a + x)[..|a|];
  }

  lemma AppendAssociates(a: seq<int>, b: seq<int>, c: seq<int>)
    ensures a + b + c == a + (b + c)
  {
  }

  lemma TallyUtilization(t: Totals, row: ScalarRow)
    requires |t.counts| == CounterCount
    ensures Tally(t, row).utilizations == t.utilizations + Listed(row, UtilizationKind)
  {
    assert t.utilizations + [] == t.utilizations;
  }

  /** `utilizations` gains the utilization rows' values, in order. */
  lemma {:induction false} TallyAllUtilizations(t: Totals, rows: seq<ScalarRow>)
    requires |t.counts| == CounterCount
    ensures TallyAll(t, rows).utilizations == t.utilizations + ValuesOfKind(rows, UtilizationKind)
    decreases |rows|
  {
    if |rows| == 0 {
      assert t.utilizations + [] == t.utilizations;
    } else {
      var t' := Tally(t, rows[0]);
      TallyUtilization(t, rows[0]);
      TallyAllUtilizations(t', rows[1..]);
      var head := Listed(rows[0], UtilizationKind);
      var tail := ValuesOfKind(rows[1..], UtilizationKind);
      AppendAssociates(t.utilizations, head, tail);
    }
  }

  /** Counter `j` ends as its start plus the values of exactly the rows whose
      first matching name is its own. */
  lemma {:induction false} TallyAllCount(t: Totals, rows: seq<ScalarRow>, j: nat)
    requires |t.counts| == CounterCount && j < CounterCount
    ensures TallyAll(t, rows).counts[j] == t.counts[j] + SumOfKind(rows, j + 1)
    decreases |rows|
  {
    if |rows| > 0 {
      TallyCount(t, rows[0], j);
      TallyAllCount(Tally(t, rows[0]), rows[1..], j);
    }
  }

  /** Over a whole table: `transfer_count` is the sum of the `txPk:count`
      rows, `receive_count` that of the `rxPkOk:count` rows, and rows that match
      no name contribute to nothing. */
  lemma TableTotals(rows: seq<ScalarRow>)
    ensures TallyAll(InitTotals(), rows).utilizations == ValuesOfKind(rows, UtilizationKind)
    ensures TallyAll(InitTotals(), rows).counts[TransferKind - 1] == SumOfKind(rows, TransferKind)
    ensures TallyAll(InitTotals(), rows).counts[ReceiveKind - 1] == SumOfKind(rows, ReceiveKind)
    ensures forall j :: 0 <= j < CounterCount ==> TallyAll(InitTotals(), rows).counts[j] == SumOfKind(rows, j + 1)
  {
    TallyAllUtilizations(InitTotals(), rows);
    forall j | 0 <= j < CounterCount
      ensures TallyAll(InitTotals(), rows).counts[j] == SumOfKind(rows, j + 1)
    {
      TallyAllCount(InitTotals(), rows, j);
    }
  }
}
