/** The traffic map `heat_dict` shared by both scripts:
    (source level 1, source level 2, destination level 1, destination level 2)
    to the accumulated (size, length) of the connections between them. */
module Heat {

  /** (frm_leaf, frm_host, to_leaf, to_host) or (frm_cell, frm_rack, to_cell, to_rack). */
  type HeatKey = (int, int, int, int)

  datatype Cell = Cell(size: int, length: int)

  type HeatMap = map<HeatKey, Cell>

  /** Adds one connection to the map: a new key gets (size, length), an existing
      key the componentwise sum, and no other key changes. */
  function Record(m: HeatMap, k: HeatKey, size: int, length: int): (r: HeatMap)
    ensures r.Keys == m.Keys + {k}
    ensures k in m ==> r[k] == Cell(m[k].size + size, m[k].length + length)
    ensures k !in m ==> r[k] == Cell(size, length)
    ensures forall k' :: k' in m && k' != k ==> r[k'] == m[k']
  {
    if k in m then m[k := Cell(m[k].size + size, m[k].length + length)]
    else m[k := Cell(size, length)]
  }

  /** Level 1 equal: same leaf, or same cell. */
  predicate SameLevel1(k: HeatKey) {
    k.0 == k.2
  }

  predicate OtherLevel1(k: HeatKey) {
    !SameLevel1(k)
  }

  /** Both levels equal: same cell and same rack. */
  predicate SameLevel2(k: HeatKey) {
    k.0 == k.2 && k.1 == k.3
  }

  predicate OtherLevel2(k: HeatKey) {
    !SameLevel2(k)
  }

  /** Same cell, different rack. */
  predicate SameLevel1Only(k: HeatKey) {
    SameLevel1(k) && !SameLevel2(k)
  }

  predicate AnyKey(k: HeatKey) {
    true
  }

  ghost function PickKey(m: HeatMap): (k: HeatKey)
    requires m != map[]
    ensures k in m
  {
    var k :| k in m; k
  }

  function SizeIf(m: HeatMap, p: HeatKey -> bool, k: HeatKey): int
    requires k in m
  {
    if p(k) then m[k].size else 0
  }

  /** Sum of the size components of the entries whose key satisfies `p`. */
  ghost function SumOver(m: HeatMap, p: HeatKey -> bool): int
    decreases |m|
  {
    if m == map[] then 0
    else
      var k := PickKey(m);
      assert |(m - {k}).Keys| < |m.Keys| by {
        assert (m - {k}).Keys == m.Keys - {k};
      }
      SizeIf(m, p, k) + SumOver(m - {k}, p)
  }

  /** The sum does not depend on the order in which keys are visited. */
  lemma {:induction false} SumOverRemove(m: HeatMap, p: HeatKey -> bool, k: HeatKey)
    requires k in m
    ensures SumOver(m, p) == SizeIf(m, p, k) + SumOver(m - {k}, p)
    decreases |m|
  {
    var j := PickKey(m);
    if j != k {
      var mj := m - {j};
      var mk := m - {k};
      assert |mj.Keys| < |m.Keys| by {
        assert mj.Keys == m.Keys - {j};
      }
      assert |mk.Keys| < |m.Keys| by {
        assert mk.Keys == m.Keys - {k};
      }
      SumOverRemove(mj, p, k);
      SumOverRemove(mk, p, j);
      assert mj - {k} == mk - {j};
      assert SizeIf(mj, p, k) == SizeIf(m, p, k);
      assert SizeIf(mk, p, j) == SizeIf(m, p, j);
    }
  }

  /** Recording a connection adds its size to exactly the sums whose predicate
      holds of its key. */
  lemma SumOverRecord(m: HeatMap, p: HeatKey -> bool, k: HeatKey, size: int, length: int)
    ensures SumOver(Record(m, k, size, length), p) == SumOver(m, p) + (if p(k) then size else 0)
  {
    var r := Record(m, k, size, length);
    SumOverRemove(r, p, k);
    if k in m {
      SumOverRemove(m, p, k);
      assert r - {k} == m - {k};
    } else {
      assert r - {k} == m;
    }
  }

  /** Recording two connections in either order gives the same map: the order
      in which connections are logged does not matter to `heat_dict`. */
  lemma RecordCommutes(m: HeatMap, k1: HeatKey, size1: int, length1: int, k2: HeatKey, size2: int, length2: int)
    ensures Record(Record(m, k1, size1, length1), k2, size2, length2)
         == Record(Record(m, k2, size2, length2), k1, size1, length1)
  {
  }

  /** A sum over `p` splits into the sums over two predicates that partition `p`. */
  lemma {:induction false} SumOverSplit(m: HeatMap, p: HeatKey -> bool, a: HeatKey -> bool, b: HeatKey -> bool)
    requires forall k :: p(k) == (a(k) || b(k))
    requires forall k :: !(a(k) && b(k))
    ensures SumOver(m, p) == SumOver(m, a) + SumOver(m, b)
    decreases |m|
  {
    if m != map[] {
      var k := PickKey(m);
      var rest := m - {k};
      assert |rest.Keys| < |m.Keys| by {
        assert rest.Keys == m.Keys - {k};
      }
      SumOverSplit(rest, p, a, b);
      assert p(k) == (a(k) || b(k));
      assert !(a(k) && b(k));
    }
  }

  predicate NonNegativeSizes(m: HeatMap) {
    forall k :: k in m ==> m[k].size >= 0
  }

  lemma {:induction false} SumOverNonNegative(m: HeatMap, p: HeatKey -> bool)
    requires NonNegativeSizes(m)
    ensures SumOver(m, p) >= 0
    decreases |m|
  {
    if m != map[] {
      var k := PickKey(m);
      var rest := m - {k};
      assert |rest.Keys| < |m.Keys| by {
        assert rest.Keys == m.Keys - {k};
      }
      SumOverNonNegative(rest, p);
    }
  }
}
