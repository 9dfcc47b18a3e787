/** The `runParam` row loop of the owcell report: connections are keyed by
    (cell, rack) of the sending application and (cell, rack) of its connect
    address, traffic is split into intra-cell/extra-cell and
    intra-rack/extra-rack bytes, and the `**.rows`, `**.columns`, `**.racks`
    and `**.hosts` parameters give the topology's dimensions. The loop is the
    spine-leaf report's; the two models of it differ only in `Baseline` and in
    the shape of `State`, as the scripts do. */
module OwCellTraffic {
  import opened Results
  import opened Text
  import opened Addresses
  import opened Heat
  import opened Flows

  /** `length = 1` before the loop and `length = 1; length += int(...)` on `tOpen`. */
  const Baseline: int := 1

  /** `info_rows`, `info_cols`, `info_racks` and `info_hosts`. */
  datatype Topology = Topology(rows: int, columns: int, racks: int, hosts: int) {
    function With(f: ShapeField, n: int): (t: Topology)
      ensures f == Rows ==> t == this.(rows := n)
      ensures f == Columns ==> t == this.(columns := n)
      ensures f == Racks ==> t == this.(racks := n)
      ensures f == Hosts ==> t == this.(hosts := n)
    {
      match f
      case Rows => this.(rows := n)
      case Columns => this.(columns := n)
      case Racks => this.(racks := n)
      case Hosts => this.(hosts := n)
    }
  }

  datatype State = State(
    timing: Timing, heat: HeatMap, topology: Topology,
    intraCell: int, intraRack: int, extraCell: int, extraRack: int)

  function Init(): State {
    State(InitialTiming(Baseline), map[], Topology(0, 0, 0, 0), 0, 0, 0, 0)
  }

  /** The branch a key takes once none of the flow markers matched. */
  function ClassifyShape(key: string): (r: Option<ShapeField>)
    ensures r == Some(Rows) <==> Contains(key, "**.rows")
    ensures r == Some(Columns) <==> !Contains(key, "**.rows") && Contains(key, "**.columns")
    ensures r == Some(Racks) <==>
      !Contains(key, "**.rows") && !Contains(key, "**.columns") && Contains(key, "**.racks")
    ensures r == Some(Hosts) <==>
      !Contains(key, "**.rows") && !Contains(key, "**.columns") && !Contains(key, "**.racks")
      && Contains(key, "**.hosts")
  {
    if Contains(key, "**.rows") then Some(Rows)
    else if Contains(key, "**.columns") then Some(Columns)
    else if Contains(key, "**.racks") then Some(Racks)
    else if Contains(key, "**.hosts") then Some(Hosts)
    else None
  }

  /** (frm_cell, frm_rack, to_cell, to_rack) of a `connectAddress` row. */
  function ConnectionKey(row: ParamRow): (r: Result<HeatKey>)
    ensures r.Err? ==> r.failure in {BadInteger, NoMatch, OutOfScope}
    ensures r.Ok? <==> CoordinateOf(row.key, OwCellKeyPattern).Ok? && CoordinateOf(row.value, OwCellValuePattern).Ok?
    ensures r.Ok? ==>
      && (r.value.0, r.value.1) == CoordinateOf(row.key, OwCellKeyPattern).value
      && (r.value.2, r.value.3) == CoordinateOf(row.value, OwCellValuePattern).value
  {
    var from :- CoordinateOf(row.key, OwCellKeyPattern);
    var to :- CoordinateOf(row.value, OwCellValuePattern);
    Ok((from.0, from.1, to.0, to.1))
  }

  /** `info_<field> = int(row[2])`. */
  function DecodeShape(f: ShapeField, value: string): (r: Result<Event>)
    ensures r.Ok? <==> IsIntegerText(value)
    ensures r.Err? ==> r.failure == BadInteger
    ensures r.Ok? ==> r.value.Shape? && r.value.field == f && r.value.n == ParseInt(value).value
  {
    var n :- ParseInt(value);
    Ok(Shape(f, n))
  }

  /** One row's event: the first flow marker in the key picks the branch; a key
      with none of them may name a topology dimension, read with a plain
      `int(row[2])`. */
  function Decode(row: ParamRow): (r: Result<Event>)
    ensures ClassifyFlow(row.key).None? && ClassifyShape(row.key).None? ==> r == Ok(Skip)
    ensures ClassifyFlow(row.key).None? && ClassifyShape(row.key).Some? ==>
      r == DecodeShape(ClassifyShape(row.key).value, row.value)
    ensures ClassifyFlow(row.key) == Some(ConnectAddress) ==>
      (r.Ok? <==> ConnectionKey(row).Ok?) && (r.Ok? ==> r.value == Link(ConnectionKey(row).value))
    ensures ClassifyFlow(row.key).Some? && ClassifyFlow(row.key) != Some(ConnectAddress) ==>
      r == DecodeTiming(ClassifyFlow(row.key).value, row.value)
    ensures r.Err? ==> r.failure in {BadInteger, NoMatch, OutOfScope}
  {
    match ClassifyFlow(row.key)
    case None =>
      (match ClassifyShape(row.key)
       case None => Ok(Skip)
       case Some(f) => DecodeShape(f, row.value))
    case Some(ConnectAddress) =>
      var k :- ConnectionKey(row);
      Ok(Link(k))
    case Some(m) => DecodeTiming(m, row.value)
  }

  /** A `connectAddress` row: the current size and length go into the heat map,
      the size into exactly one of the cell totals and exactly one of the rack
      totals. */
  function Connect(s: State, k: HeatKey): (r: State)
    ensures r.timing == s.timing && r.topology == s.topology
    ensures r.heat == Record(s.heat, k, s.timing.size, s.timing.length)
    ensures SameLevel1(k) ==> r.intraCell == s.intraCell + s.timing.size && r.extraCell == s.extraCell
    ensures !SameLevel1(k) ==> r.extraCell == s.extraCell + s.timing.size && r.intraCell == s.intraCell
    ensures SameLevel2(k) ==> r.intraRack == s.intraRack + s.timing.size && r.extraRack == s.extraRack
    ensures !SameLevel2(k) ==> r.extraRack == s.extraRack + s.timing.size && r.intraRack == s.intraRack
  {
    var size := s.timing.size;
    var heat := Record(s.heat, k, size, s.timing.length);
    var byCell :=
      if k.0 == k.2 then s.(heat := heat, intraCell := s.intraCell + size)
      else s.(heat := heat, extraCell := s.extraCell + size);
    if k.0 == k.2 && k.1 == k.3 then byCell.(intraRack := s.intraRack + size)
    else byCell.(extraRack := s.extraRack + size)
  }

  /** `s'` keeps every heat-map key and every size, length and rate that `s`
      had recorded: the loop never forgets a connection. */
  predicate Grows(s: State, s': State) {
    s.heat.Keys <= s'.heat.Keys && Extends(s.timing, s'.timing)
  }

  /** The loop body once the row is decoded. */
  function Apply(s: State, e: Event): (r: Result<State>)
    ensures r.Err? ==> r.failure == ZeroDivision
    ensures r.Ok? ==> Grows(s, r.value)
    ensures e.Skip? ==> r == Ok(s)
    ensures e.Shape? ==> r == Ok(s.(topology := s.topology.With(e.field, e.n)))
    ensures r.Ok? && IsTiming(e) ==>
      r.value == s.(timing := r.value.timing)
  {
    if e.Link? then Ok(Connect(s, e.k))
    else if e.Shape? then Ok(s.(topology := s.topology.With(e.field, e.n)))
    else if e.Skip? then Ok(s)
    else
      var t :- ApplyTiming(s.timing, e, Baseline);
      Ok(s.(timing := t))
  }

  /** One iteration of the row loop. */
  function Step(s: State, row: ParamRow): (r: Result<State>)
    ensures r.Ok? ==> Grows(s, r.value)
    ensures ClassifyFlow(row.key).None? && ClassifyShape(row.key).None? ==> r == Ok(s)
  {
    var e :- Decode(row);
    Apply(s, e)
  }

  /** The loop from state `s` over `rows`; the first failure ends the pass.
      A pass fails only by a bad integer, a failed match, a path outside the
      model or a division by zero, and a successful one keeps all it started
      with. */
  function RunFrom(s: State, rows: seq<ParamRow>): (r: Result<State>)
    ensures r.Err? ==> r.failure in {BadInteger, NoMatch, OutOfScope, ZeroDivision}
    ensures r.Ok? ==> Grows(s, r.value)
    decreases |rows|
  {
    if |rows| == 0 then Ok(s)
    else
      var s' :- Step(s, rows[0]);
      var r := RunFrom(s', rows[1..]);
      if r.Ok? then ExtendsTransitive(s.timing, s'.timing, r.value.timing); r else r
  }

  /** The whole loop from the script's initial values; a successful pass ends
      in a state where the loop invariant `Inv` holds. */
  function Run(rows: seq<ParamRow>): (r: Result<State>)
    ensures r.Ok? ==> Inv(r.value)
  {
    RunFromInv(Init(), rows);
    RunFrom(Init(), rows)
  }

  /** The loop over already decoded rows. */
  function ApplyAll(s: State, evs: seq<Event>): Result<State>
    decreases |evs|
  {
    if |evs| == 0 then Ok(s)
    else
      var s' :- Apply(s, evs[0]);
      ApplyAll(s', evs[1..])
  }

  /** Row by row, `rows` decode to `evs`. */
  predicate Decodes(rows: seq<ParamRow>, evs: seq<Event>)
    decreases |rows|
  {
    && |rows| == |evs|
    && (|rows| > 0 ==> Decode(rows[0]) == Ok(evs[0]) && Decodes(rows[1..], evs[1..]))
  }

  /** Rows that decode to `evs` run exactly as the events do. */
  lemma {:induction false} RunFromDecoded(s: State, rows: seq<ParamRow>, evs: seq<Event>)
    requires Decodes(rows, evs)
    ensures RunFrom(s, rows) == ApplyAll(s, evs)
    decreases |rows|
  {
    if |rows| > 0 {
      var r := Apply(s, evs[0]);
      if r.Ok? {
        RunFromDecoded(r.value, rows[1..], evs[1..]);
      }
    }
  }

  /** A stretch of timing rows touches only the loop's timing variables. */
  lemma {:induction false} ApplyAllTiming(s: State, evs: seq<Event>)
    requires AllTiming(evs)
    ensures ApplyAll(s, evs) ==
      match TimingAll(s.timing, evs, Baseline)
      case Err(f) => Err(f)
      case Ok(t) => Ok(s.(timing := t))
    decreases |evs|
  {
    if |evs| > 0 {
      assert AllTiming(evs[1..]) by {
        forall i | 0 <= i < |evs[1..]| ensures IsTiming(evs[1..][i]) {
          assert evs[1..][i] == evs[i + 1];
        }
      }
      var r := ApplyTiming(s.timing, evs[0], Baseline);
      if r.Ok? {
        ApplyAllTiming(s.(timing := r.value), evs[1..]);
      }
    }
  }

  /** What the loop keeps true: one rate per finished length, and each of the
      four locality totals is the size sum of the heat entries of its kind. */
  ghost predicate Inv(s: State) {
    && |s.timing.lengths| == |s.timing.rates|
    && s.intraCell == SumOver(s.heat, SameLevel1)
    && s.extraCell == SumOver(s.heat, OtherLevel1)
    && s.intraRack == SumOver(s.heat, SameLevel2)
    && s.extraRack == SumOver(s.heat, OtherLevel2)
  }

  lemma ApplyInv(s: State, e: Event)
    requires Inv(s)
    ensures Apply(s, e).Ok? ==> Inv(Apply(s, e).value)
  {
    if e.Link? {
      SumOverRecord(s.heat, SameLevel1, e.k, s.timing.size, s.timing.length);
      SumOverRecord(s.heat, OtherLevel1, e.k, s.timing.size, s.timing.length);
      SumOverRecord(s.heat, SameLevel2, e.k, s.timing.size, s.timing.length);
      SumOverRecord(s.heat, OtherLevel2, e.k, s.timing.size, s.timing.length);
    }
  }

  lemma {:induction false} RunFromInv(s: State, rows: seq<ParamRow>)
    requires Inv(s)
    ensures RunFrom(s, rows).Ok? ==> Inv(RunFrom(s, rows).value)
    decreases |rows|
  {
    if |rows| > 0 {
      if Decode(rows[0]).Ok? {
        ApplyInv(s, Decode(rows[0]).value);
      }
      if Step(s, rows[0]).Ok? {
        RunFromInv(Step(s, rows[0]).value, rows[1..]);
      }
    }
  }

  /** After any successful pass the cell split and the rack split each divide
      the total size recorded in the heat map. */
  lemma RunLocality(rows: seq<ParamRow>)
    requires Run(rows).Ok?
    ensures |Run(rows).value.timing.lengths| == |Run(rows).value.timing.rates|
    ensures Run(rows).value.intraCell == SumOver(Run(rows).value.heat, SameLevel1)
    ensures Run(rows).value.extraCell == SumOver(Run(rows).value.heat, OtherLevel1)
    ensures Run(rows).value.intraRack == SumOver(Run(rows).value.heat, SameLevel2)
    ensures Run(rows).value.extraRack == SumOver(Run(rows).value.heat, OtherLevel2)
    ensures Run(rows).value.intraCell + Run(rows).value.extraCell == SumOver(Run(rows).value.heat, AnyKey)
    ensures Run(rows).value.intraRack + Run(rows).value.extraRack == SumOver(Run(rows).value.heat, AnyKey)
  {
    RunFromInv(Init(), rows);
    var s := Run(rows).value;
    SumOverSplit(s.heat, AnyKey, SameLevel1, OtherLevel1);
    SumOverSplit(s.heat, AnyKey, SameLevel2, OtherLevel2);
  }

  /** With unsigned values the length never drops below the baseline 1, so
      every recorded length is at least 1 and no size is negative. */
  ghost predicate Positive(s: State) {
    && s.timing.length >= 1
    && s.timing.size >= 0
    && (forall i :: 0 <= i < |s.timing.lengths| ==> s.timing.lengths[i] >= 1)
    && NonNegativeSizes(s.heat)
  }

  predicate NonNegativeEvent(e: Event) {
    IsTiming(e) ==> e.v >= 0
  }

  lemma ApplyPositive(s: State, e: Event)
    requires Positive(s) && NonNegativeEvent(e)
    ensures Apply(s, e).Ok?
    ensures Positive(Apply(s, e).value)
  {
    if e.Link? {
      var r := Apply(s, e).value;
      assert forall k :: k in r.heat ==> r.heat[k].size >= 0;
    } else if e.Close? {
      var t := ApplyTiming(s.timing, e, Baseline).value;
      assert forall i :: 0 <= i < |t.lengths| ==> t.lengths[i] >= 1 by {
        assert t.lengths == s.timing.lengths + [t.length];
      }
    }
  }

  lemma StepPositive(s: State, row: ParamRow)
    requires Positive(s) && UnsignedRow(row)
    ensures Step(s, row) != Err(ZeroDivision)
    ensures Step(s, row).Ok? ==> Positive(Step(s, row).value)
  {
    if Decode(row).Ok? {
      ApplyPositive(s, Decode(row).value);
    }
  }

  /** Every timing row of `rows` is written without a minus sign. */
  predicate UnsignedRows(rows: seq<ParamRow>) {
    forall i :: 0 <= i < |rows| ==> UnsignedRow(rows[i])
  }

  lemma {:induction false} RunFromPositive(s: State, rows: seq<ParamRow>)
    requires Positive(s) && UnsignedRows(rows)
    ensures RunFrom(s, rows) != Err(ZeroDivision)
    ensures RunFrom(s, rows).Ok? ==> Positive(RunFrom(s, rows).value)
    decreases |rows|
  {
    if |rows| > 0 {
      assert UnsignedRow(rows[0]);
      StepPositive(s, rows[0]);
      if Step(s, rows[0]).Ok? {
        assert UnsignedRows(rows[1..]) by {
          forall i | 0 <= i < |rows[1..]| ensures UnsignedRow(rows[1..][i]) {
            assert rows[1..][i] == rows[i + 1];
          }
        }
        RunFromPositive(Step(s, rows[0]).value, rows[1..]);
      }
    }
  }

  /** When no timing value carries a minus sign, the `size / length` division
      can never fail, every recorded length is at least 1, and the rack-level
      split is finer than the cell-level one: intra-rack bytes are among the
      intra-cell bytes, and extra-cell bytes among the extra-rack bytes. */
  lemma RunUnsigned(rows: seq<ParamRow>)
    requires UnsignedRows(rows)
    ensures Run(rows) != Err(ZeroDivision)
    ensures Run(rows).Ok? ==>
      forall i :: 0 <= i < |Run(rows).value.timing.lengths| ==> Run(rows).value.timing.lengths[i] >= 1
    ensures Run(rows).Ok? ==> Run(rows).value.intraRack <= Run(rows).value.intraCell
    ensures Run(rows).Ok? ==> Run(rows).value.extraCell <= Run(rows).value.extraRack
  {
    RunFromPositive(Init(), rows);
    if Run(rows).Ok? {
      var s := Run(rows).value;
      RunLocality(rows);
      SumOverSplit(s.heat, SameLevel1, SameLevel2, SameLevel1Only);
      SumOverNonNegative(s.heat, SameLevel1Only);
      SumOverSplit(s.heat, OtherLevel2, OtherLevel1, SameLevel1Only);
    }
  }

  /** tOpen, tSend..., tClose as events: the recorded length is 1 plus the
      sum of the values (open 5, send 3, send 2, close 1 records 12). */
  lemma ConnectionEvents(s: State, values: seq<int>)
    requires |values| >= 2
    ensures ApplyAll(s, Connection(values)) ==
      if 1 + Sum(values) == 0 then Err(ZeroDivision)
      else Ok(s.(timing := Closed(s.timing, 1 + Sum(values))))
  {
    var evs := Connection(values);
    ConnectionTiming(s.timing, values, Baseline);
    if 1 + Sum(values) == 0 {
      assert TimingAll(s.timing, evs, Baseline) == Err(ZeroDivision);
      ApplyAllTiming(s, evs);
    } else {
      assert TimingAll(s.timing, evs, Baseline) == Ok(Closed(s.timing, 1 + Sum(values)));
      ApplyAllTiming(s, evs);
    }
  }

  lemma OpenSendSendClose(s: State)
    ensures ApplyAll(s, Connection([5, 3, 2, 1])) == Ok(s.(timing := Closed(s.timing, 12)))
  {
    ConnectionEvents(s, [5, 3, 2, 1]);
  }

  /** Decoded rows are also processed left to right. */
  lemma {:induction false} ApplyAllAppend(s: State, a: seq<Event>, b: seq<Event>)
    ensures ApplyAll(s, a + b) ==
      match ApplyAll(s, a)
      case Err(e) => Err(e)
      case Ok(s') => ApplyAll(s', b)
    decreases |a|
  {
    if |a| == 0 {
      assert a + b == b;
    } else {
      assert (a + b)[0] == a[0] && (a + b)[1..] == a[1..] + b;
      if Apply(s, a[0]).Ok? {
        ApplyAllAppend(Apply(s, a[0]).value, a[1..], b);
      }
    }
  }

  /** A whole connection sets the size, records it, runs its timing from the
      baseline 1 and is recorded under its key by `Connect`; what the loop held
      before in `size` and `length` plays no part. */
  lemma GroupEffect(s: State, size: int, values: seq<int>, k: HeatKey)
    requires |values| >= 2
    ensures ApplyAll(s, ConnectionGroup(size, values, k)) ==
      if 1 + Sum(values) == 0 then Err(ZeroDivision)
      else Ok(Connected(s, size, 1 + Sum(values), k))
  {
    var evs := ConnectionGroup(size, values, k);
    var s1 := s.(timing := Sized(s.timing, size));
    assert evs == [Bytes(size)] + (Connection(values) + [Link(k)]);
    ApplyAllAppend(s, [Bytes(size)], Connection(values) + [Link(k)]);
    assert ApplyAll(s, [Bytes(size)]) == Ok(s1) by {
      assert [Bytes(size)][1..] == [];
    }
    ApplyAllAppend(s1, Connection(values), [Link(k)]);
    ConnectionEvents(s1, values);
    if 1 + Sum(values) != 0 {
      var s2 := s1.(timing := Closed(s1.timing, 1 + Sum(values)));
      assert ApplyAll(s2, [Link(k)]) == Ok(Connect(s2, k)) by {
        assert [Link(k)][1..] == [];
      }
    }
  }

  /** Aggregation does not depend on the order of whole connections: logging
      two connections the other way round fails in the same cases and leaves
      the same heat map, the same four locality totals, and the same sizes and
      lengths, listed in the other order. */
  lemma GroupsCommute(s: State, size1: int, values1: seq<int>, k1: HeatKey, size2: int, values2: seq<int>, k2: HeatKey)
    requires |values1| >= 2 && |values2| >= 2
    ensures ApplyAll(s, ConnectionGroup(size1, values1, k1) + ConnectionGroup(size2, values2, k2)).Ok?
        <==> ApplyAll(s, ConnectionGroup(size2, values2, k2) + ConnectionGroup(size1, values1, k1)).Ok?
    ensures ApplyAll(s, ConnectionGroup(size1, values1, k1) + ConnectionGroup(size2, values2, k2)).Ok? ==>
      var r12 := ApplyAll(s, ConnectionGroup(size1, values1, k1) + ConnectionGroup(size2, values2, k2)).value;
      var r21 := ApplyAll(s, ConnectionGroup(size2, values2, k2) + ConnectionGroup(size1, values1, k1)).value;
      && r12.heat == r21.heat && r12.topology == r21.topology
      && r12.intraCell == r21.intraCell && r12.extraCell == r21.extraCell
      && r12.intraRack == r21.intraRack && r12.extraRack == r21.extraRack
      && multiset(r12.timing.sizes) == multiset(r21.timing.sizes)
      && multiset(r12.timing.lengths) == multiset(r21.timing.lengths)
  {
    var g1 := ConnectionGroup(size1, values1, k1);
    var g2 := ConnectionGroup(size2, values2, k2);
    var l1, l2 := 1 + Sum(values1), 1 + Sum(values2);
    ApplyAllAppend(s, g1, g2);
    ApplyAllAppend(s, g2, g1);
    GroupEffect(s, size1, values1, k1);
    GroupEffect(s, size2, values2, k2);
    if l1 == 0 || l2 == 0 {
      if l1 != 0 {
        GroupEffect(Connected(s, size1, l1, k1), size2, values2, k2);
      }
      if l2 != 0 {
        GroupEffect(Connected(s, size2, l2, k2), size1, values1, k1);
      }
      assert ApplyAll(s, g1 + g2).Err? && ApplyAll(s, g2 + g1).Err?;
    } else {
      GroupEffect(Connected(s, size1, l1, k1), size2, values2, k2);
      GroupEffect(Connected(s, size2, l2, k2), size1, values1, k1);
      assert ApplyAll(s, g1 + g2) == Ok(Connected(Connected(s, size1, l1, k1), size2, l2, k2));
      assert ApplyAll(s, g2 + g1) == Ok(Connected(Connected(s, size2, l2, k2), size1, l1, k1));
      ConnectsCommute(s, size1, l1, k1, size2, l2, k2);
    }
  }

  /** The state after connection (size, length) under key k. */
  function Connected(s: State, size: int, length: int, k: HeatKey): State {
    Connect(s.(timing := Closed(Sized(s.timing, size), length)), k)
  }

  /** Two closed connections recorded in either order agree on everything the
      report aggregates. */
  lemma ConnectsCommute(s: State, size1: int, length1: int, k1: HeatKey, size2: int, length2: int, k2: HeatKey)
    ensures
      var r12 := Connected(Connected(s, size1, length1, k1), size2, length2, k2);
      var r21 := Connected(Connected(s, size2, length2, k2), size1, length1, k1);
      && r12.heat == r21.heat && r12.topology == r21.topology
      && r12.intraCell == r21.intraCell && r12.extraCell == r21.extraCell
      && r12.intraRack == r21.intraRack && r12.extraRack == r21.extraRack
      && multiset(r12.timing.sizes) == multiset(r21.timing.sizes)
      && multiset(r12.timing.lengths) == multiset(r21.timing.lengths)
  {
    RecordCommutes(s.heat, k1, size1, length1, k2, size2, length2);
    var r12 := Connected(Connected(s, size1, length1, k1), size2, length2, k2);
    var r21 := Connected(Connected(s, size2, length2, k2), size1, length1, k1);
    assert r12.timing.sizes == s.timing.sizes + [size1] + [size2];
    assert r21.timing.sizes == s.timing.sizes + [size2] + [size1];
    assert r12.timing.lengths == s.timing.lengths + [length1] + [length2];
    assert r21.timing.lengths == s.timing.lengths + [length2] + [length1];
  }
}
