/** The `scalar` loop of `utilization_and_drop_graphics` in the spine-leaf
    report. Besides the totals shared with the owcell report, utilizations are
    split between spine and other modules, and the transfer and receive
    counters between spine and leaf modules. The leaf branch's condition is
    `'leaf[' or 'borderLeaf' in row[2]`; Python reads it as
    `'leaf[' or ('borderLeaf' in row[2])`, whose value is the non-empty string
    `'leaf['`, so the branch is taken for every non-spine module. */
module SpineLeafScalars {
  import opened Results
  import opened Text
  import opened Markers
  import opened Scalars

  datatype Split = Split(
    totals: Totals,
    spineUtilizations: seq<int>, leafUtilizations: seq<int>,
    transferSpine: int, transferLeaf: int, receiveSpine: int, receiveLeaf: int)

  function InitSplit(): (s: Split)
    ensures |s.totals.counts| == CounterCount
  {
    Split(InitTotals(), [], [], 0, 0, 0, 0)
  }

  predicate IsSpine(moduleName: string) {
    Contains(moduleName, "spine[")
  }

  predicate NotSpine(moduleName: string) {
    !IsSpine(moduleName)
  }

  /** The modules whose transfer and receive counts go to the leaf part: not
      a spine module, and `leaf` holds. */
  function LeafSide(leaf: string -> bool): string -> bool {
    m => !IsSpine(m) && leaf(m)
  }

  /** Python's truth value of a string. */
  predicate Truthy(s: string) {
    |s| > 0
  }

  /** The leaf condition as written. */
  predicate LeafConditionAsWritten(moduleName: string) {
    Truthy("leaf[") || Contains(moduleName, "borderLeaf")
  }

  /** The leaf condition as evidently intended: a leaf or border-leaf module. */
  predicate IsLeaf(moduleName: string) {
    Contains(moduleName, "leaf[") || Contains(moduleName, "borderLeaf")
  }

  /** What a row adds to a total of the rows of one kind whose module satisfies `p`. */
  function ContributionWhere(row: ScalarRow, kind: nat, p: string -> bool): int {
    if Kind(row) == Some(kind) && p(row.moduleName) then row.value else 0
  }

  /** What a row appends to a list of the values of one kind whose module satisfies `p`. */
  function ListedWhere(row: ScalarRow, kind: nat, p: string -> bool): seq<int> {
    if Kind(row) == Some(kind) && p(row.moduleName) then [row.value] else []
  }

  function SumWhere(rows: seq<ScalarRow>, kind: nat, p: string -> bool): int
    decreases |rows|
  {
    if |rows| == 0 then 0 else ContributionWhere(rows[0], kind, p) + SumWhere(rows[1..], kind, p)
  }

  function ValuesWhere(rows: seq<ScalarRow>, kind: nat, p: string -> bool): seq<int>
    decreases |rows|
  {
    if |rows| == 0 then [] else ListedWhere(rows[0], kind, p) + ValuesWhere(rows[1..], kind, p)
  }

  /** One iteration, with `leaf` deciding the leaf branch of the transfer and
      receive rows. */
  function SplitStep(s: Split, row: ScalarRow, leaf: string -> bool): (r: Split)
    requires |s.totals.counts| == CounterCount
    ensures r.totals == Tally(s.totals, row)
    ensures Kind(row).None? ==> r == s
    ensures r.spineUtilizations == s.spineUtilizations + ListedWhere(row, UtilizationKind, IsSpine)
    ensures r.leafUtilizations == s.leafUtilizations + ListedWhere(row, UtilizationKind, NotSpine)
    ensures r.transferSpine == s.transferSpine + ContributionWhere(row, TransferKind, IsSpine)
    ensures r.transferLeaf == s.transferLeaf + ContributionWhere(row, TransferKind, LeafSide(leaf))
    ensures r.receiveSpine == s.receiveSpine + ContributionWhere(row, ReceiveKind, IsSpine)
    ensures r.receiveLeaf == s.receiveLeaf + ContributionWhere(row, ReceiveKind, LeafSide(leaf))
  {
    var s' := s.(totals := Tally(s.totals, row));
    var spine := IsSpine(row.moduleName);
    var v := row.value;
    if Kind(row) == Some(UtilizationKind) then
      if spine then s'.(spineUtilizations := s.spineUtilizations + [v])
      else s'.(leafUtilizations := s.leafUtilizations + [v])
    else if Kind(row) == Some(TransferKind) then
      if spine then s'.(transferSpine := s.transferSpine + v)
      else if leaf(row.moduleName) then s'.(transferLeaf := s.transferLeaf + v)
      else s'
    else if Kind(row) == Some(ReceiveKind) then
      if spine then s'.(receiveSpine := s.receiveSpine + v)
      else if leaf(row.moduleName) then s'.(receiveLeaf := s.receiveLeaf + v)
      else s'
    else s'
  }

  /** The loop over `rows` from `s`: every utilization the totals gain goes to
      exactly one of the two lists, and rows whose names match none of the
      statistics change nothing. */
  function SplitAll(s: Split, rows: seq<ScalarRow>, leaf: string -> bool): (r: Split)
    requires |s.totals.counts| == CounterCount
    ensures |r.totals.counts| == CounterCount
    ensures |r.spineUtilizations| - |s.spineUtilizations| + |r.leafUtilizations| - |s.leafUtilizations|
      == |r.totals.utilizations| - |s.totals.utilizations|
    ensures (forall i :: 0 <= i < |rows| ==> Kind(rows[i]).None?) ==> r == s
    decreases |rows|
  {
    if |rows| == 0 then s else SplitAll(SplitStep(s, rows[0], leaf), rows[1..], leaf)
  }

  /** The loop as written: its totals are those of the owcell loop, the
      utilizations are split by spine module, and the leaf side of the
      transfer and receive counts holds every non-spine module. */
  function RunAsWritten(rows: seq<ScalarRow>): (r: Split)
    ensures r.totals == TallyAll(InitTotals(), rows)
    ensures r.spineUtilizations == ValuesWhere(rows, UtilizationKind, IsSpine)
    ensures r.leafUtilizations == ValuesWhere(rows, UtilizationKind, NotSpine)
    ensures r.transferSpine == SumWhere(rows, TransferKind, IsSpine)
    ensures r.transferLeaf == SumWhere(rows, TransferKind, LeafSide(LeafConditionAsWritten))
    ensures r.receiveSpine == SumWhere(rows, ReceiveKind, IsSpine)
    ensures r.receiveLeaf == SumWhere(rows, ReceiveKind, LeafSide(LeafConditionAsWritten))
  {
    SplitAllTotals(InitSplit(), rows, LeafConditionAsWritten);
    SplitAllUtilizations(InitSplit(), rows, LeafConditionAsWritten);
    SplitAllCounters(InitSplit(), rows, LeafConditionAsWritten);
    SplitAll(InitSplit(), rows, LeafConditionAsWritten)
  }

  /** The loop with the leaf condition corrected: the same totals and
      utilization lists, and the leaf side of the transfer and receive counts
      holds only non-spine leaf and border-leaf modules. */
  function Run(rows: seq<ScalarRow>): (r: Split)
    ensures r.totals == TallyAll(InitTotals(), rows)
    ensures r.spineUtilizations == ValuesWhere(rows, UtilizationKind, IsSpine)
    ensures r.leafUtilizations == ValuesWhere(rows, UtilizationKind, NotSpine)
    ensures r.transferSpine == SumWhere(rows, TransferKind, IsSpine)
    ensures r.transferLeaf == SumWhere(rows, TransferKind, LeafSide(IsLeaf))
    ensures r.receiveSpine == SumWhere(rows, ReceiveKind, IsSpine)
    ensures r.receiveLeaf == SumWhere(rows, ReceiveKind, LeafSide(IsLeaf))
  {
    SplitAllTotals(InitSplit(), rows, IsLeaf);
    SplitAllUtilizations(InitSplit(), rows, IsLeaf);
    SplitAllCounters(InitSplit(), rows, IsLeaf);
    SplitAll(InitSplit(), rows, IsLeaf)
  }

  /** The shared totals are those of the owcell loop. */
  lemma {:induction false} SplitAllTotals(s: Split, rows: seq<ScalarRow>, leaf: string -> bool)
    requires |s.totals.counts| == CounterCount
    ensures SplitAll(s, rows, leaf).totals == TallyAll(s.totals, rows)
    decreases |rows|
  {
    if |rows| > 0 {
      SplitAllTotals(SplitStep(s, rows[0], leaf), rows[1..], leaf);
    }
  }

  /** Each split counter ends as its start plus the values of the rows of its
      kind from modules of its side. */
  lemma {:induction false} SplitAllCounters(s: Split, rows: seq<ScalarRow>, leaf: string -> bool)
    requires |s.totals.counts| == CounterCount
    ensures SplitAll(s, rows, leaf).transferSpine == s.transferSpine + SumWhere(rows, TransferKind, IsSpine)
    ensures SplitAll(s, rows, leaf).transferLeaf == s.transferLeaf + SumWhere(rows, TransferKind, LeafSide(leaf))
    ensures SplitAll(s, rows, leaf).receiveSpine == s.receiveSpine + SumWhere(rows, ReceiveKind, IsSpine)
    ensures SplitAll(s, rows, leaf).receiveLeaf == s.receiveLeaf + SumWhere(rows, ReceiveKind, LeafSide(leaf))
    decreases |rows|
  {
    if |rows| > 0 {
      SplitAllCounters(SplitStep(s, rows[0], leaf), rows[1..], leaf);
    }
  }

  /** Utilization values go to the spine list or to the leaf list, in order. */
  lemma {:induction false} SplitAllUtilizations(s: Split, rows: seq<ScalarRow>, leaf: string -> bool)
    requires |s.totals.counts| == CounterCount
    ensures SplitAll(s, rows, leaf).spineUtilizations == s.spineUtilizations + ValuesWhere(rows, UtilizationKind, IsSpine)
    ensures SplitAll(s, rows, leaf).leafUtilizations == s.leafUtilizations + ValuesWhere(rows, UtilizationKind, NotSpine)
    decreases |rows|
  {
    if |rows| == 0 {
      assert s.spineUtilizations + [] == s.spineUtilizations;
      assert s.leafUtilizations + [] == s.leafUtilizations;
    } else {
      var s' := SplitStep(s, rows[0], leaf);
      SplitAllUtilizations(s', rows[1..], leaf);
      AppendAssociates(s.spineUtilizations, ListedWhere(rows[0], UtilizationKind, IsSpine),
        ValuesWhere(rows[1..], UtilizationKind, IsSpine));
      AppendAssociates(s.leafUtilizations, ListedWhere(rows[0], UtilizationKind, NotSpine),
        ValuesWhere(rows[1..], UtilizationKind, NotSpine));
    }
  }

  /** Two module predicates that split every module between them split every
      kind's sum between them. */
  lemma {:induction false} SumWherePartition(rows: seq<ScalarRow>, kind: nat, p: string -> bool, q: string -> bool)
    requires forall m :: p(m) != q(m)
    ensures SumWhere(rows, kind, p) + SumWhere(rows, kind, q) == SumOfKind(rows, kind)
    ensures |ValuesWhere(rows, kind, p)| + |ValuesWhere(rows, kind, q)| == |ValuesOfKind(rows, kind)|
    decreases |rows|
  {
    if |rows| > 0 {
      SumWherePartition(rows[1..], kind, p, q);
      assert p(rows[0].moduleName) != q(rows[0].moduleName);
    }
  }

  /** As written, the spine and leaf parts of the transfer and receive counters
      always add up to the whole counter, and every utilization lands in one of
      the two lists. */
  lemma AsWrittenPartition(rows: seq<ScalarRow>)
    ensures RunAsWritten(rows).transferSpine + RunAsWritten(rows).transferLeaf
      == RunAsWritten(rows).totals.counts[TransferKind - 1]
    ensures RunAsWritten(rows).receiveSpine + RunAsWritten(rows).receiveLeaf
      == RunAsWritten(rows).totals.counts[ReceiveKind - 1]
    ensures |RunAsWritten(rows).totals.utilizations|
      == |RunAsWritten(rows).spineUtilizations| + |RunAsWritten(rows).leafUtilizations|
  {
    var s := InitSplit();
    SplitAllTotals(s, rows, LeafConditionAsWritten);
    SplitAllCounters(s, rows, LeafConditionAsWritten);
    SplitAllUtilizations(s, rows, LeafConditionAsWritten);
    TableTotals(rows);
    var side := LeafSide(LeafConditionAsWritten);
    forall m
      ensures IsSpine(m) != side(m)
    {
      assert LeafConditionAsWritten(m) by {
        assert Truthy("leaf[");
      }
    }
    SumWherePartition(rows, TransferKind, IsSpine, side);
    SumWherePartition(rows, ReceiveKind, IsSpine, side);
    SumWherePartition(rows, UtilizationKind, IsSpine, NotSpine);
  }

  /** A predicate that splits `p` in two splits every kind's sum over `p`. */
  lemma {:induction false} SumWhereSplit(rows: seq<ScalarRow>, kind: nat, p: string -> bool, a: string -> bool, b: string -> bool)
    requires forall m :: p(m) == (a(m) || b(m)) && !(a(m) && b(m))
    ensures SumWhere(rows, kind, p) == SumWhere(rows, kind, a) + SumWhere(rows, kind, b)
    decreases |rows|
  {
    if |rows| > 0 {
      SumWhereSplit(rows[1..], kind, p, a, b);
      var m := rows[0].moduleName;
      assert p(m) == (a(m) || b(m)) && !(a(m) && b(m));
    }
  }

  /** Modules that are neither spine nor leaf modules. */
  predicate Unclassified(moduleName: string) {
    !IsSpine(moduleName) && !IsLeaf(moduleName)
  }

  /** With the corrected condition, the leaf part counts exactly the leaf and
      border-leaf modules that are not spine modules, and the counts of modules
      that are neither spine nor leaf make up the rest of each counter. */
  lemma IntendedPartition(rows: seq<ScalarRow>)
    ensures Run(rows).transferSpine == SumWhere(rows, TransferKind, IsSpine)
    ensures Run(rows).transferLeaf == SumWhere(rows, TransferKind, LeafSide(IsLeaf))
    ensures Run(rows).receiveSpine == SumWhere(rows, ReceiveKind, IsSpine)
    ensures Run(rows).receiveLeaf == SumWhere(rows, ReceiveKind, LeafSide(IsLeaf))
    ensures Run(rows).transferSpine + Run(rows).transferLeaf + SumWhere(rows, TransferKind, Unclassified)
      == Run(rows).totals.counts[TransferKind - 1]
    ensures Run(rows).receiveSpine + Run(rows).receiveLeaf + SumWhere(rows, ReceiveKind, Unclassified)
      == Run(rows).totals.counts[ReceiveKind - 1]
  {
    var s := InitSplit();
    SplitAllTotals(s, rows, IsLeaf);
    SplitAllCounters(s, rows, IsLeaf);
    TableTotals(rows);
    var side := LeafSide(IsLeaf);
    forall m
      ensures NotSpine(m) == (side(m) || Unclassified(m)) && !(side(m) && Unclassified(m))
    {
    }
    assert forall m :: IsSpine(m) != NotSpine(m);
    SumWherePartition(rows, TransferKind, IsSpine, NotSpine);
    SumWherePartition(rows, ReceiveKind, IsSpine, NotSpine);
    SumWhereSplit(rows, TransferKind, NotSpine, side, Unclassified);
    SumWhereSplit(rows, ReceiveKind, NotSpine, side, Unclassified);
  }

  /** A transfer count of 7 reported by a host's interface, a module that is
      neither a spine nor a leaf. */
  const HostModule := "net.host[3].eth[0]"
  const TransferName := "txPk:count"
  const HostRow := ScalarRow(HostModule, TransferName, 7)

  lemma TransferNameKind()
    ensures FirstMatch(ScalarNames, TransferName) == Some(TransferKind)
  {
    assert !Contains(TransferName, ScalarNames[0]);
    ContainsAt(TransferName, ScalarNames[1], 0);
    assert ScalarNames[1..][0] == ScalarNames[1];
    assert FirstMatch(ScalarNames[1..], TransferName) == Some(0);
  }

  lemma HostModuleSide()
    ensures !IsSpine(HostModule) && !IsLeaf(HostModule)
  {
    MissingCharNotContained(HostModule, "spine[", 'p');
    MissingCharNotContained(HostModule, "leaf[", 'l');
    MissingCharNotContained(HostModule, "borderLeaf", 'L');
  }

  /** As written, the host's transfers are counted as leaf transfers. */
  lemma HostCountedAsLeaf()
    ensures !IsLeaf(HostRow.moduleName)
    ensures RunAsWritten([HostRow]).transferLeaf == 7
  {
    TransferNameKind();
    HostModuleSide();
    var one := SplitStep(InitSplit(), HostRow, LeafConditionAsWritten);
    assert [HostRow][1..] == [] && [HostRow][0] == HostRow;
    assert SplitAll(one, [], LeafConditionAsWritten) == one;
    assert RunAsWritten([HostRow]) == one;
    assert LeafSide(LeafConditionAsWritten)(HostModule) by {
      assert Truthy("leaf[");
    }
  }

  /** With the corrected condition they are counted in the total only. */
  lemma HostCountedInTotalOnly()
    ensures Run([HostRow]).transferLeaf == 0 && Run([HostRow]).transferSpine == 0
    ensures Run([HostRow]).totals.counts[TransferKind - 1] == 7
  {
    TransferNameKind();
    HostModuleSide();
    var one := SplitStep(InitSplit(), HostRow, IsLeaf);
    assert [HostRow][1..] == [] && [HostRow][0] == HostRow;
    assert SplitAll(one, [], IsLeaf) == one;
    assert Run([HostRow]) == one;
    assert !LeafSide(IsLeaf)(HostModule);
  }
}
