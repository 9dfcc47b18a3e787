/** The owcell report's rack-to-rack traffic matrix and its network table:
    `heat_dict` is laid out densely with one row and one column per (cell,
    rack), the matrix is transposed for plotting, and the table derives the
    cell, rack and host totals from the topology's dimensions. */
module HeatMatrix {
  import opened Heat
  import opened OwCellTraffic

  /** `num_cells` and `num_racks`, fixed in the script. */
  const NumCells: nat := 9
  const NumRacks: nat := 8

  /** `heat_dict[(i, j, k, l)][0]` when the key is present, else 0. */
  function Entry(m: HeatMap, k: HeatKey): (r: int)
    ensures k in m ==> r == m[k].size
    ensures k !in m ==> r == 0
  {
    if k in m then m[k].size else 0
  }

  /** `heats`: row i * numRacks + j lists, for every (k, l) in order, the size
      sent from rack j of cell i to rack l of cell k. */
  function Dense(m: HeatMap, numCells: nat, numRacks: nat): (heats: seq<seq<int>>)
    ensures |heats| == numCells * numRacks
    ensures forall a :: 0 <= a < |heats| ==> |heats[a]| == numCells * numRacks
  {
    var n := numCells * numRacks;
    if numRacks == 0 then []
    else seq(n, a => seq(n, b => Entry(m, (a / numRacks, a % numRacks, b / numRacks, b % numRacks))))
  }

  /** Multiplication by a natural number is monotone. */
  lemma {:induction false} MulMonotone(a: nat, b: nat, d: nat)
    requires a <= b
    ensures a * d <= b * d
    decreases b - a
  {
    if a < b {
      MulMonotone(a, b - 1, d);
      assert b * d == (b - 1) * d + d;
    }
  }

  /** Position i * d + j, for j < d, has quotient i and remainder j. */
  lemma DivModOfPosition(i: nat, j: nat, d: nat)
    requires j < d
    ensures (i * d + j) / d == i && (i * d + j) % d == j
  {
    var x := i * d + j;
    var q := x / d;
    var r := x % d;
    assert x == q * d + r;
    if q > i {
      assert (i + 1) * d == i * d + d;
      MulMonotone(i + 1, q, d);
    } else if q < i {
      assert (q + 1) * d == q * d + d;
      MulMonotone(q + 1, i, d);
    }
  }

  /** Position i * d + j, for i < n and j < d, lies below n * d. */
  lemma PositionBound(i: nat, j: nat, n: nat, d: nat)
    requires i < n && j < d
    ensures i * d + j < n * d
  {
    MulMonotone(i + 1, n, d);
    assert (i + 1) * d == i * d + d;
  }

  /** Entry [i * numRacks + j][k * numRacks + l] of the matrix is the size
      recorded for (i, j, k, l), or 0 when that pair never connected. */
  lemma DenseEntry(m: HeatMap, numCells: nat, numRacks: nat, i: nat, j: nat, k: nat, l: nat)
    requires i < numCells && j < numRacks && k < numCells && l < numRacks
    ensures i * numRacks + j < numCells * numRacks && k * numRacks + l < numCells * numRacks
    ensures Dense(m, numCells, numRacks)[i * numRacks + j][k * numRacks + l] == Entry(m, (i, j, k, l))
  {
    PositionBound(i, j, numCells, numRacks);
    PositionBound(k, l, numCells, numRacks);
    DivModOfPosition(i, j, numRacks);
    DivModOfPosition(k, l, numRacks);
  }

  /** The length of the shortest row, the number of tuples `zip` yields. */
  function MinWidth(x: seq<seq<int>>): (w: nat)
    ensures |x| == 0 ==> w == 0
    ensures forall r :: 0 <= r < |x| ==> w <= |x[r]|
    ensures |x| > 0 ==> exists r :: 0 <= r < |x| && w == |x[r]|
    decreases |x|
  {
    if |x| == 0 then 0
    else if |x| == 1 then |x[0]|
    else
      var rest := MinWidth(x[1..]);
      assert forall r :: 1 <= r < |x| ==> x[1..][r - 1] == x[r];
      if |x[0]| <= rest then |x[0]| else rest
  }

  /** `list(map(list, zip(*heats)))`. */
  function Transpose(x: seq<seq<int>>): (t: seq<seq<int>>)
    ensures |t| == MinWidth(x)
    ensures forall c :: 0 <= c < |t| ==> |t[c]| == |x|
    ensures forall c, r :: 0 <= c < |t| && 0 <= r < |x| ==> t[c][r] == x[r][c]
  {
    seq(MinWidth(x), c requires 0 <= c < MinWidth(x) => seq(|x|, r requires 0 <= r < |x| => x[r][c]))
  }

  /** A matrix whose rows all have the same, positive, length. */
  predicate Rectangular(x: seq<seq<int>>) {
    |x| > 0 && |x[0]| > 0 && forall r :: 0 <= r < |x| ==> |x[r]| == |x[0]|
  }

  /** Transposing a rectangular matrix twice gives it back. */
  lemma TransposeTwice(x: seq<seq<int>>)
    requires Rectangular(x)
    ensures Rectangular(Transpose(x))
    ensures Transpose(Transpose(x)) == x
  {
    var t := Transpose(x);
    assert MinWidth(x) == |x[0]|;
    assert MinWidth(t) == |x|;
    var tt := Transpose(t);
    assert |tt| == |x|;
    forall r | 0 <= r < |x|
      ensures tt[r] == x[r]
    {
      assert |tt[r]| == |x[r]|;
    }
  }

  /** After the transpose, row k * numRacks + l lists what rack l of cell k
      received: its column i * numRacks + j is the size sent from rack j of
      cell i. */
  lemma TransposedEntry(m: HeatMap, numCells: nat, numRacks: nat, i: nat, j: nat, k: nat, l: nat)
    requires i < numCells && j < numRacks && k < numCells && l < numRacks
    ensures i * numRacks + j < numCells * numRacks && k * numRacks + l < numCells * numRacks
    ensures |Transpose(Dense(m, numCells, numRacks))| == numCells * numRacks
    ensures Transpose(Dense(m, numCells, numRacks))[k * numRacks + l][i * numRacks + j] == Entry(m, (i, j, k, l))
  {
    var x := Dense(m, numCells, numRacks);
    DenseEntry(m, numCells, numRacks, i, j, k, l);
    var n := numCells * numRacks;
    var w := MinWidth(x);
    var r0 :| 0 <= r0 < |x| && w == |x[r0]|;
    assert w == n;
  }

  /** The network table: cells, racks per cell, total racks, hosts per rack and
      total hosts. */
  datatype NetworkInfo = NetworkInfo(cells: int, racksPerCell: int, totalRacks: int, hostsPerRack: int, totalHosts: int)

  function NetworkTable(t: Topology): (r: NetworkInfo)
    ensures r.cells == t.rows * t.columns
    ensures r.racksPerCell == t.racks && r.hostsPerRack == t.hosts
    ensures r.totalRacks == r.cells * r.racksPerCell
    ensures r.totalHosts == r.hostsPerRack * r.totalRacks
  {
    var cells := t.rows * t.columns;
    NetworkInfo(cells, t.racks, cells * t.racks, t.hosts, t.hosts * (cells * t.racks))
  }

  /** Sized from the topology that the `**.rows`, `**.columns` and `**.racks`
      rows set, the matrix has one row, and one column, per rack the table
      counts, and the table's host total is that many racks' worth of hosts. */
  lemma TableCountsMatrixRows(t: Topology, m: HeatMap)
    requires t.rows >= 0 && t.columns >= 0 && t.racks >= 0
    ensures |Dense(m, t.rows * t.columns, t.racks)| == NetworkTable(t).totalRacks
    ensures forall a :: 0 <= a < NetworkTable(t).totalRacks ==>
      |Dense(m, t.rows * t.columns, t.racks)[a]| == NetworkTable(t).totalRacks
    ensures NetworkTable(t).totalHosts == t.hosts * |Dense(m, t.rows * t.columns, t.racks)|
  {
  }

  /** Where the hardcoded size loses traffic: when the topology has more than
      9 cells or more than 8 racks per cell, some pair of its racks lies
      outside the matrix, and whatever is recorded for that pair leaves the
      matrix unchanged. Within 9 cells of 8 racks, `DenseEntry` shows that every
      pair is read. */
  lemma TopologyBeyondMatrix(t: Topology, m: HeatMap, c: Cell)
    requires t.rows * t.columns >= 1 && t.racks >= 1
    requires t.rows * t.columns > NumCells || t.racks > NumRacks
    ensures var k := OutsidePair(t);
      && 0 <= k.0 < t.rows * t.columns && 0 <= k.1 < t.racks
      && 0 <= k.2 < t.rows * t.columns && 0 <= k.3 < t.racks
      && Dense(m[k := c], NumCells, NumRacks) == Dense(m, NumCells, NumRacks)
  {
    var k := OutsidePair(t);
    var n := NumCells * NumRacks;
    var x, y := Dense(m[k := c], NumCells, NumRacks), Dense(m, NumCells, NumRacks);
    forall a, b | 0 <= a < n && 0 <= b < n
      ensures x[a][b] == y[a][b]
    {
      assert a / NumRacks < NumCells && a % NumRacks < NumRacks;
    }
    assert forall a | 0 <= a < n :: x[a] == y[a];
  }

  /** Rack 0 of cell 9 talking to itself when there are too many cells, else
      rack 8 of cell 0 talking to itself. */
  function OutsidePair(t: Topology): HeatKey {
    if t.rows * t.columns > NumCells then (NumCells, 0, NumCells, 0) else (0, NumRacks, 0, NumRacks)
  }
}
