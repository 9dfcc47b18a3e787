/** The `runParam` row loop of `traffic_graphics` in the spine-leaf report:
    connections are keyed by (leaf, host) of the sending application and
    (leaf, host) of its connect address, and traffic is split into intra-leaf
    and extra-leaf bytes. The owcell report repeats the same loop; the two
    models of it differ only in `Baseline` and in the shape of `State` (two
    locality totals here, four and a topology there), as the scripts do. */
module SpineLeafTraffic {
  import opened Results
  import opened Text
  import opened Addresses
  import opened Heat
  import opened Flows

  /** `length = 0` before the loop and `length = int(...)` on `tOpen`. */
  const Baseline: int := 0

  datatype State = State(timing: Timing, heat: HeatMap, intraLeaf: int, extraLeaf: int)

  function Init(): State {
    State(InitialTiming(Baseline), map[], 0, 0)
  }

  /** (frm_leaf, frm_host, to_leaf, to_host) of a `connectAddress` row. */
  function ConnectionKey(row: ParamRow): (r: Result<HeatKey>)
    ensures r.Err? ==> r.failure in {BadInteger, NoMatch, OutOfScope}
    ensures r.Ok? <==> CoordinateOf(row.key, SpineLeafKeyPattern).Ok? && CoordinateOf(row.value, SpineLeafValuePattern).Ok?
    ensures r.Ok? ==>
      && (r.value.0, r.value.1) == CoordinateOf(row.key, SpineLeafKeyPattern).value
      && (r.value.2, r.value.3) == CoordinateOf(row.value, SpineLeafValuePattern).value
  {
    var from :- CoordinateOf(row.key, SpineLeafKeyPattern);
    var to :- CoordinateOf(row.value, SpineLeafValuePattern);
    Ok((from.0, from.1, to.0, to.1))
  }

  /** One row's event: the first flow marker in the key picks the branch, a
      `connectAddress` row yields its endpoints and a timing row its value. */
  function Decode(row: ParamRow): (r: Result<Event>)
    ensures ClassifyFlow(row.key).None? ==> r == Ok(Skip)
    ensures ClassifyFlow(row.key) == Some(ConnectAddress) ==>
      (r.Ok? <==> ConnectionKey(row).Ok?) && (r.Ok? ==> r.value == Link(ConnectionKey(row).value))
    ensures ClassifyFlow(row.key).Some? && ClassifyFlow(row.key) != Some(ConnectAddress) ==>
      r == DecodeTiming(ClassifyFlow(row.key).value, row.value)
    ensures r.Err? ==> r.failure in {BadInteger, NoMatch, OutOfScope}
    ensures r.Ok? ==> !r.value.Shape?
  {
    match ClassifyFlow(row.key)
    case None => Ok(Skip)
    case Some(ConnectAddress) =>
      var k :- ConnectionKey(row);
      Ok(Link(k))
    case Some(m) => DecodeTiming(m, row.value)
  }

  /** A `connectAddress` row: the current size and length go into the heat map
      and the size into exactly one of the intra-leaf and extra-leaf totals. */
  function Connect(s: State, k: HeatKey): (r: State)
    ensures r.timing == s.timing
    ensures r.heat == Record(s.heat, k, s.timing.size, s.timing.length)
    ensures SameLevel1(k) ==> r.intraLeaf == s.intraLeaf + s.timing.size && r.extraLeaf == s.extraLeaf
    ensures !SameLevel1(k) ==> r.extraLeaf == s.extraLeaf + s.timing.size && r.intraLeaf == s.intraLeaf
  {
    var heat := Record(s.heat, k, s.timing.size, s.timing.length);
    if k.0 == k.2 then s.(heat := heat, intraLeaf := s.intraLeaf + s.timing.size)
    else s.(heat := heat, extraLeaf := s.extraLeaf + s.timing.size)
  }

  /** `s'` keeps every heat-map key and every size, length and rate that `s`
      had recorded: the loop never forgets a connection. */
  predicate Grows(s: State, s': State) {
    s.heat.Keys <= s'.heat.Keys && Extends(s.timing, s'.timing)
  }

  /** The loop body once the row is decoded. */
  function Apply(s: State, e: Event): (r: Result<State>)
    ensures r.Err? ==> r.failure == ZeroDivision
    ensures r.Ok? ==> Grows(s, r.value)
    ensures e.Skip? || e.Shape? ==> r == Ok(s)
    ensures r.Ok? && IsTiming(e) ==>
      r.value.heat == s.heat && r.value.intraLeaf == s.intraLeaf && r.value.extraLeaf == s.extraLeaf
  {
    if e.Link? then Ok(Connect(s, e.k))
    else if !IsTiming(e) then Ok(s)
    else
      var t :- ApplyTiming(s.timing, e, Baseline);
      Ok(s.(timing := t))
  }

  /** One iteration of the row loop. */
  function Step(s: State, row: ParamRow): (r: Result<State>)
    ensures r.Ok? ==> Grows(s, r.value)
    ensures ClassifyFlow(row.key).None? ==> r == Ok(s)
  {
    var e :- Decode(row);
    Apply(s, e)
  }

  /** The loop from state `s` over `rows`; the first failure ends the pass.
      A pass fails only by a bad integer, a failed match, a path outside the
      model or a division by zero, and a successful one keeps all it started
      with. */
  function RunFrom(s: State, rows: seq<ParamRow>): (r: Result<State>)
    ensures r.Err? ==> r.failure in {BadInteger, NoMatch, OutOfScope, ZeroDivision}
    ensures r.Ok? ==> Grows(s, r.value)
    decreases |rows|
  {
    if |rows| == 0 then Ok(s)
    else
      var s' :- Step(s, rows[0]);
      var r := RunFrom(s', rows[1..]);
      if r.Ok? then ExtendsTransitive(s.timing, s'.timing, r.value.timing); r else r
  }

  /** The whole loop from the script's initial values; a successful pass ends
      in a state where the loop invariant `Inv` holds. */
  function Run(rows: seq<ParamRow>): (r: Result<State>)
    ensures r.Ok? ==> Inv(r.value)
  {
    RunFromInv(Init(), rows);
    RunFrom(Init(), rows)
  }

  /** The loop over already decoded rows. */
  function ApplyAll(s: State, evs: seq<Event>): Result<State>
    decreases |evs|
  {
    if |evs| == 0 then Ok(s)
    else
      var s' :- Apply(s, evs[0]);
      ApplyAll(s', evs[1..])
  }

  /** Row by row, `rows` decode to `evs`. */
  predicate Decodes(rows: seq<ParamRow>, evs: seq<Event>)
    decreases |rows|
  {
    && |rows| == |evs|
    && (|rows| > 0 ==> Decode(rows[0]) == Ok(evs[0]) && Decodes(rows[1..], evs[1..]))
  }

  /** Rows that decode to `evs` run exactly as the events do. */
  lemma {:induction false} RunFromDecoded(s: State, rows: seq<ParamRow>, evs: seq<Event>)
    requires Decodes(rows, evs)
    ensures RunFrom(s, rows) == ApplyAll(s, evs)
    decreases |rows|
  {
    if |rows| > 0 {
      var r := Apply(s, evs[0]);
      if r.Ok? {
        RunFromDecoded(r.value, rows[1..], evs[1..]);
      }
    }
  }

  /** A stretch of timing rows touches only the loop's timing variables. */
  lemma {:induction false} ApplyAllTiming(s: State, evs: seq<Event>)
    requires AllTiming(evs)
    ensures ApplyAll(s, evs) ==
      match TimingAll(s.timing, evs, Baseline)
      case Err(f) => Err(f)
      case Ok(t) => Ok(s.(timing := t))
    decreases |evs|
  {
    if |evs| > 0 {
      assert AllTiming(evs[1..]) by {
        forall i | 0 <= i < |evs[1..]| ensures IsTiming(evs[1..][i]) {
          assert evs[1..][i] == evs[i + 1];
        }
      }
      var r := ApplyTiming(s.timing, evs[0], Baseline);
      if r.Ok? {
        ApplyAllTiming(s.(timing := r.value), evs[1..]);
      }
    }
  }

  /** What the loop keeps true: one rate per finished length, and each locality
      total is the size sum of the heat entries of its kind. */
  ghost predicate Inv(s: State) {
    && |s.timing.lengths| == |s.timing.rates|
    && (forall i :: 0 <= i < |s.timing.lengths| ==> s.timing.lengths[i] != 0)
    && s.intraLeaf == SumOver(s.heat, SameLevel1)
    && s.extraLeaf == SumOver(s.heat, OtherLevel1)
  }

  lemma ApplyInv(s: State, e: Event)
    requires Inv(s)
    ensures Apply(s, e).Ok? ==> Inv(Apply(s, e).value)
  {
    if e.Link? {
      SumOverRecord(s.heat, SameLevel1, e.k, s.timing.size, s.timing.length);
      SumOverRecord(s.heat, OtherLevel1, e.k, s.timing.size, s.timing.length);
    }
  }

  lemma {:induction false} RunFromInv(s: State, rows: seq<ParamRow>)
    requires Inv(s)
    ensures RunFrom(s, rows).Ok? ==> Inv(RunFrom(s, rows).value)
    decreases |rows|
  {
    if |rows| > 0 {
      if Decode(rows[0]).Ok? {
        ApplyInv(s, Decode(rows[0]).value);
      }
      if Step(s, rows[0]).Ok? {
        RunFromInv(Step(s, rows[0]).value, rows[1..]);
      }
    }
  }

  /** After any successful pass, `lengths_list` and `rates_list` have equal
      length, and intra-leaf plus extra-leaf bytes are the total size recorded
      in the heat map, split by whether source and destination leaf agree. */
  lemma RunLocality(rows: seq<ParamRow>)
    requires Run(rows).Ok?
    ensures |Run(rows).value.timing.lengths| == |Run(rows).value.timing.rates|
    ensures Run(rows).value.intraLeaf == SumOver(Run(rows).value.heat, SameLevel1)
    ensures Run(rows).value.extraLeaf == SumOver(Run(rows).value.heat, OtherLevel1)
    ensures Run(rows).value.intraLeaf + Run(rows).value.extraLeaf == SumOver(Run(rows).value.heat, AnyKey)
  {
    RunFromInv(Init(), rows);
    var s := Run(rows).value;
    SumOverSplit(s.heat, AnyKey, SameLevel1, OtherLevel1);
  }

  /** Rows are processed left to right: a pass over `a + b` is a pass over `a`
      continued over `b`. */
  lemma {:induction false} RunFromAppend(s: State, a: seq<ParamRow>, b: seq<ParamRow>)
    ensures RunFrom(s, a + b) ==
      match RunFrom(s, a)
      case Err(e) => Err(e)
      case Ok(s') => RunFrom(s', b)
    decreases |a|
  {
    if |a| == 0 {
      assert a + b == b;
    } else {
      assert (a + b)[0] == a[0] && (a + b)[1..] == a[1..] + b;
      if Step(s, a[0]).Ok? {
        RunFromAppend(Step(s, a[0]).value, a[1..], b);
      }
    }
  }

  /** tOpen, tSend..., tClose as events: the recorded length is the sum of
      the values with no offset (open 5, send 3, send 2, close 1 records 11),
      and when they sum to 0 the pass fails with a division by zero. */
  lemma ConnectionEvents(s: State, values: seq<int>)
    requires |values| >= 2
    ensures ApplyAll(s, Connection(values)) ==
      if Sum(values) == 0 then Err(ZeroDivision)
      else Ok(s.(timing := Closed(s.timing, Sum(values))))
  {
    var evs := Connection(values);
    ConnectionTiming(s.timing, values, Baseline);
    if Sum(values) == 0 {
      assert TimingAll(s.timing, evs, Baseline) == Err(ZeroDivision);
      ApplyAllTiming(s, evs);
    } else {
      assert TimingAll(s.timing, evs, Baseline) == Ok(Closed(s.timing, Sum(values)));
      ApplyAllTiming(s, evs);
    }
  }

  /** The same for rows that decode to a connection's timing. */
  lemma ConnectionLength(s: State, rows: seq<ParamRow>, values: seq<int>)
    requires |values| >= 2 && Decodes(rows, Connection(values))
    ensures Sum(values) == 0 ==> RunFrom(s, rows) == Err(ZeroDivision)
    ensures Sum(values) != 0 ==>
      RunFrom(s, rows) == Ok(s.(timing := Closed(s.timing, Sum(values))))
  {
    RunFromDecoded(s, rows, Connection(values));
    ConnectionEvents(s, values);
  }

  /** open 5, send 3, send 2, close 1 records a length of 11. */
  lemma OpenSendSendClose(s: State)
    ensures ApplyAll(s, Connection([5, 3, 2, 1])) == Ok(s.(timing := Closed(s.timing, 11)))
  {
    ConnectionEvents(s, [5, 3, 2, 1]);
  }

  /** Decoded rows are also processed left to right. */
  lemma {:induction false} ApplyAllAppend(s: State, a: seq<Event>, b: seq<Event>)
    ensures ApplyAll(s, a + b) ==
      match ApplyAll(s, a)
      case Err(e) => Err(e)
      case Ok(s') => ApplyAll(s', b)
    decreases |a|
  {
    if |a| == 0 {
      assert a + b == b;
    } else {
      assert (a + b)[0] == a[0] && (a + b)[1..] == a[1..] + b;
      if Apply(s, a[0]).Ok? {
        ApplyAllAppend(Apply(s, a[0]).value, a[1..], b);
      }
    }
  }

  /** A whole connection sets the size, records it, runs its timing and is
      recorded under its key by `Connect`; what the loop held before in `size`
      and `length` plays no part. */
  lemma GroupEffect(s: State, size: int, values: seq<int>, k: HeatKey)
    requires |values| >= 2
    ensures ApplyAll(s, ConnectionGroup(size, values, k)) ==
      if Sum(values) == 0 then Err(ZeroDivision)
      else Ok(Connected(s, size, Sum(values), k))
  {
    var evs := ConnectionGroup(size, values, k);
    var s1 := s.(timing := Sized(s.timing, size));
    assert evs == [Bytes(size)] + (Connection(values) + [Link(k)]);
    ApplyAllAppend(s, [Bytes(size)], Connection(values) + [Link(k)]);
    assert ApplyAll(s, [Bytes(size)]) == Ok(s1) by {
      assert [Bytes(size)][1..] == [];
    }
    ApplyAllAppend(s1, Connection(values), [Link(k)]);
    ConnectionEvents(s1, values);
    if Sum(values) != 0 {
      var s2 := s1.(timing := Closed(s1.timing, Sum(values)));
      assert ApplyAll(s2, [Link(k)]) == Ok(Connect(s2, k)) by {
        assert [Link(k)][1..] == [];
      }
    }
  }

  /** Aggregation does not depend on the order of whole connections: logging
      two connections the other way round fails in the same cases and leaves
      the same heat map, the same intra-leaf and extra-leaf totals, and the
      same sizes and lengths, listed in the other order. */
  lemma GroupsCommute(s: State, size1: int, values1: seq<int>, k1: HeatKey, size2: int, values2: seq<int>, k2: HeatKey)
    requires |values1| >= 2 && |values2| >= 2
    ensures ApplyAll(s, ConnectionGroup(size1, values1, k1) + ConnectionGroup(size2, values2, k2)).Ok?
        <==> ApplyAll(s, ConnectionGroup(size2, values2, k2) + ConnectionGroup(size1, values1, k1)).Ok?
    ensures ApplyAll(s, ConnectionGroup(size1, values1, k1) + ConnectionGroup(size2, values2, k2)).Ok? ==>
      var r12 := ApplyAll(s, ConnectionGroup(size1, values1, k1) + ConnectionGroup(size2, values2, k2)).value;
      var r21 := ApplyAll(s, ConnectionGroup(size2, values2, k2) + ConnectionGroup(size1, values1, k1)).value;
      && r12.heat == r21.heat
      && r12.intraLeaf == r21.intraLeaf && r12.extraLeaf == r21.extraLeaf
      && multiset(r12.timing.sizes) == multiset(r21.timing.sizes)
      && multiset(r12.timing.lengths) == multiset(r21.timing.lengths)
  {
    var g1 := ConnectionGroup(size1, values1, k1);
    var g2 := ConnectionGroup(size2, values2, k2);
    var l1, l2 := Sum(values1), Sum(values2);
    ApplyAllAppend(s, g1, g2);
    ApplyAllAppend(s, g2, g1);
    GroupEffect(s, size1, values1, k1);
    GroupEffect(s, size2, values2, k2);
    if l1 == 0 || l2 == 0 {
      if l1 != 0 {
        GroupEffect(Connected(s, size1, l1, k1), size2, values2, k2);
      }
      if l2 != 0 {
        GroupEffect(Connected(s, size2, l2, k2), size1, values1, k1);
      }
      assert ApplyAll(s, g1 + g2).Err? && ApplyAll(s, g2 + g1).Err?;
    } else {
      GroupEffect(Connected(s, size1, l1, k1), size2, values2, k2);
      GroupEffect(Connected(s, size2, l2, k2), size1, values1, k1);
      assert ApplyAll(s, g1 + g2) == Ok(Connected(Connected(s, size1, l1, k1), size2, l2, k2));
      assert ApplyAll(s, g2 + g1) == Ok(Connected(Connected(s, size2, l2, k2), size1, l1, k1));
      ConnectsCommute(s, size1, l1, k1, size2, l2, k2);
    }
  }

  /** The state after connection (size, length) under key k. */
  function Connected(s: State, size: int, length: int, k: HeatKey): State {
    Connect(s.(timing := Closed(Sized(s.timing, size), length)), k)
  }

  /** Two closed connections recorded in either order agree on everything the
      report aggregates. */
  lemma ConnectsCommute(s: State, size1: int, length1: int, k1: HeatKey, size2: int, length2: int, k2: HeatKey)
    ensures
      var r12 := Connected(Connected(s, size1, length1, k1), size2, length2, k2);
      var r21 := Connected(Connected(s, size2, length2, k2), size1, length1, k1);
      && r12.heat == r21.heat
      && r12.intraLeaf == r21.intraLeaf && r12.extraLeaf == r21.extraLeaf
      && multiset(r12.timing.sizes) == multiset(r21.timing.sizes)
      && multiset(r12.timing.lengths) == multiset(r21.timing.lengths)
  {
    RecordCommutes(s.heat, k1, size1, length1, k2, size2, length2);
    var r12 := Connected(Connected(s, size1, length1, k1), size2, length2, k2);
    var r21 := Connected(Connected(s, size2, length2, k2), size1, length1, k1);
    assert r12.timing.sizes == s.timing.sizes + [size1] + [size2];
    assert r21.timing.sizes == s.timing.sizes + [size2] + [size1];
    assert r12.timing.lengths == s.timing.lengths + [length1] + [length2];
    assert r21.timing.lengths == s.timing.lengths + [length2] + [length1];
  }
}
