/** The flow lifecycle shared by both report scripts: `runParam` rows are
    dispatched on the first flow marker their key contains, and the
    `sendBytes`, `tOpen`, `tSend` and `tClose` rows drive a running size, a
    running length and the three sample lists. The scripts differ only in the
    length baseline: spineleaf starts at 0 and resets to the `tOpen` value,
    owcell starts at 1 and resets to 1 plus the `tOpen` value. */
module Flows {
  import opened Results
  import opened Text
  import opened Heat

  /** One `runParam` row: `paramKey` and `paramValue`; the run id is not read
      and the order is the row's position in the sequence. */
  datatype ParamRow = ParamRow(key: string, value: string)

  datatype FlowMarker = SendBytes | TOpen | TSend | TClose | ConnectAddress

  function MarkerName(m: FlowMarker): string {
    match m
    case SendBytes => "sendBytes"
    case TOpen => "tOpen"
    case TSend => "tSend"
    case TClose => "tClose"
    case ConnectAddress => "connectAddress"
  }

  /** Position of a marker in the `if`/`elif` chain. */
  function Rank(m: FlowMarker): nat {
    match m
    case SendBytes => 0
    case TOpen => 1
    case TSend => 2
    case TClose => 3
    case ConnectAddress => 4
  }

  /** The branch of the row loop a key takes, always a marker the key
      contains; `ClassifyFlowFirstMatch` states the rest. */
  function ClassifyFlow(key: string): (r: Option<FlowMarker>)
    ensures r.Some? ==> Contains(key, MarkerName(r.value))
  {
    if Contains(key, "sendBytes") then Some(SendBytes)
    else if Contains(key, "tOpen") then Some(TOpen)
    else if Contains(key, "tSend") then Some(TSend)
    else if Contains(key, "tClose") then Some(TClose)
    else if Contains(key, "connectAddress") then Some(ConnectAddress)
    else None
  }

  /** Dispatch is first-match in the order sendBytes, tOpen, tSend, tClose,
      connectAddress: the branch taken is a marker the key contains, no earlier
      marker occurs in the key, and a key containing none of them takes no
      branch. */
  lemma ClassifyFlowFirstMatch(key: string)
    ensures ClassifyFlow(key).Some? ==> Contains(key, MarkerName(ClassifyFlow(key).value))
    ensures ClassifyFlow(key).Some? ==>
      forall m :: Rank(m) < Rank(ClassifyFlow(key).value) ==> !Contains(key, MarkerName(m))
    ensures ClassifyFlow(key).None? <==> forall m :: !Contains(key, MarkerName(m))
  {
    var r := ClassifyFlow(key);
    forall m | r.Some? && Rank(m) < Rank(r.value) ensures !Contains(key, MarkerName(m)) {
      match m
      case SendBytes =>
      case TOpen =>
      case TSend =>
      case TClose =>
      case ConnectAddress =>
    }
    if r.None? {
      forall m ensures !Contains(key, MarkerName(m)) {
        match m
        case SendBytes =>
        case TOpen =>
        case TSend =>
        case TClose =>
        case ConnectAddress =>
      }
    }
  }

  /** `sendBytes` values carry a 3-character unit (`MiB`), timing values a
      1-character one (`s`). */
  const SizeUnitLength: nat := 3
  const TimeUnitLength: nat := 1

  function UnitLength(m: FlowMarker): (n: nat)
    ensures n >= 1
  {
    if m == SendBytes then SizeUnitLength else TimeUnitLength
  }

  /** An entry of `rates_list`, Python's true division `size / length`, kept
      as the exact quotient of its two operands. */
  datatype Rate = Rate(size: int, length: int)

  /** The loop variables `size`, `length`, `sizes_list`, `lengths_list` and
      `rates_list`. */
  datatype Timing = Timing(size: int, length: int, sizes: seq<int>, lengths: seq<int>, rates: seq<Rate>)

  function InitialTiming(baseline: int): Timing {
    Timing(0, baseline, [], [], [])
  }


  /** The `**.rows`, `**.columns`, `**.racks` and `**.hosts` parameters of the
      owcell topology. */
  datatype ShapeField = Rows | Columns | Racks | Hosts

  /** What one row asks of the loop once its text is decoded. Decoding looks
      at the row alone, never at the loop variables, so a pass is "decode the
      row, then apply the event" row after row. */
  datatype Event =
    | Bytes(v: int)                    // sendBytes: the flow's size
    | Open(v: int)                     // tOpen: the length restarts
    | Send(v: int)                     // tSend: the length grows
    | Close(v: int)                    // tClose: the length grows and is recorded
    | Link(k: HeatKey)                 // connectAddress: the flow's endpoints
    | Shape(field: ShapeField, n: int) // a topology dimension
    | Skip                             // any other parameter

  predicate IsTiming(e: Event) {
    e.Bytes? || e.Open? || e.Send? || e.Close?
  }

  function TimingEvent(m: FlowMarker, v: int): (e: Event)
    requires m != ConnectAddress
    ensures IsTiming(e) && e.v == v
    ensures e.Bytes? <==> m == SendBytes
    ensures e.Open? <==> m == TOpen
    ensures e.Send? <==> m == TSend
    ensures e.Close? <==> m == TClose
  {
    match m
    case SendBytes => Bytes(v)
    case TOpen => Open(v)
    case TSend => Send(v)
    case TClose => Close(v)
  }

  /** `int(row[2][:-3])` for `sendBytes`, `int(row[2][:-1])` for the times. */
  function DecodeTiming(m: FlowMarker, value: string): (r: Result<Event>)
    requires m != ConnectAddress
    ensures r.Ok? <==> IsIntegerText(DropLast(value, UnitLength(m)))
    ensures r.Err? ==> r.failure == BadInteger
    ensures r.Ok? ==> IsTiming(r.value) && r.value == TimingEvent(m, r.value.v)
    ensures r.Ok? ==> r.value.v == ParseInt(DropLast(value, UnitLength(m))).value
    ensures r.Ok? && '-' !in value ==> r.value.v >= 0
  {
    var v :- ParseSuffixed(value, UnitLength(m));
    Ok(TimingEvent(m, v))
  }

  /** Timing values round-trip: the decimal text of `x` followed by any unit of
      the right width decodes to `x`. */
  lemma DecodeTimingShow(m: FlowMarker, x: int, unit: string)
    requires m != ConnectAddress && |unit| == UnitLength(m)
    ensures DecodeTiming(m, ShowInt(x) + unit) == Ok(TimingEvent(m, x))
  {
    ParseSuffixedShow(x, unit);
  }

  /** The timing after a `tClose` that brings the length to `length`: the
      length is recorded and so is the rate `size / length`. */
  function Closed(t: Timing, length: int): Timing {
    t.(length := length, lengths := t.lengths + [length], rates := t.rates + [Rate(t.size, length)])
  }

  /** One `sendBytes`, `tOpen`, `tSend` or `tClose` row on the loop variables.
      Only `tClose` can fail, by dividing by a zero length. */
  function ApplyTiming(t: Timing, e: Event, baseline: int): (r: Result<Timing>)
    requires IsTiming(e)
    ensures r.Err? <==> e.Close? && t.length + e.v == 0
    ensures r.Err? ==> r.failure == ZeroDivision
    ensures r.Ok? && !e.Bytes? ==> r.value.size == t.size && r.value.sizes == t.sizes
    ensures r.Ok? && !e.Close? ==> r.value.lengths == t.lengths && r.value.rates == t.rates
    ensures r.Ok? && e.Close? ==>
      r.value.length != 0 && r.value.lengths == t.lengths + [r.value.length] && r.value.rates == t.rates + [Rate(t.size, r.value.length)]
    // `sendBytes` sets the size and records it, whether or not the flow is
    // ever closed; the length is left alone
    ensures e.Bytes? ==> r == Ok(t.(size := e.v, sizes := t.sizes + [e.v]))
    // `tOpen` restarts the length from the baseline, `tSend` and `tClose` add to it
    ensures e.Open? ==> r == Ok(t.(length := baseline + e.v))
    ensures e.Send? ==> r == Ok(t.(length := t.length + e.v))
    ensures r.Ok? && e.Close? ==> r.value.length == t.length + e.v && r.value.size == t.size
    ensures r.Ok? ==> Extends(t, r.value)
  {
    match e
    case Bytes(v) => Ok(t.(size := v, sizes := t.sizes + [v]))
    case Open(v) => Ok(t.(length := baseline + v))
    case Send(v) => Ok(t.(length := t.length + v))
    case Close(v) =>
      var length := t.length + v;
      if length == 0 then Err(ZeroDivision) else Ok(Closed(t, length))
  }

  predicate AllTiming(evs: seq<Event>) {
    forall i :: 0 <= i < |evs| ==> IsTiming(evs[i])
  }

  /** `t'` keeps every size, length and rate `t` had recorded, in place. */
  predicate Extends(t: Timing, t': Timing) {
    && |t.sizes| <= |t'.sizes| && t'.sizes[..|t.sizes|] == t.sizes
    && |t.lengths| <= |t'.lengths| && t'.lengths[..|t.lengths|] == t.lengths
    && |t.rates| <= |t'.rates| && t'.rates[..|t.rates|] == t.rates
  }

  lemma ExtendsTransitive(t1: Timing, t2: Timing, t3: Timing)
    requires Extends(t1, t2) && Extends(t2, t3)
    ensures Extends(t1, t3)
  {
    assert t3.sizes[..|t1.sizes|] == t3.sizes[..|t2.sizes|][..|t1.sizes|];
    assert t3.lengths[..|t1.lengths|] == t3.lengths[..|t2.lengths|][..|t1.lengths|];
    assert t3.rates[..|t1.rates|] == t3.rates[..|t2.rates|][..|t1.rates|];
  }

  /** A run of timing rows, stopping at the first failure: it can fail only by
      a division by zero, and what was recorded before is kept. */
  function TimingAll(t: Timing, evs: seq<Event>, baseline: int): (r: Result<Timing>)
    requires AllTiming(evs)
    ensures r.Err? ==> r.failure == ZeroDivision
    ensures r.Ok? ==> Extends(t, r.value)
    decreases |evs|
  {
    if |evs| == 0 then Ok(t)
    else
      var t' :- ApplyTiming(t, evs[0], baseline);
      var r := TimingAll(t', evs[1..], baseline);
      if r.Ok? then ExtendsTransitive(t, t', r.value); r else r
  }

  function Sum(xs: seq<int>): int {
    if |xs| == 0 then 0 else xs[0] + Sum(xs[1..])
  }

  /** Zero or more `tSend` rows followed by one `tClose` row, with these values. */
  function SendsThenClose(values: seq<int>): (evs: seq<Event>)
    requires |values| >= 1
    ensures |evs| == |values| && AllTiming(evs)
    decreases |values|
  {
    if |values| == 1 then [Close(values[0])]
    else [Send(values[0])] + SendsThenClose(values[1..])
  }

  /** The timing rows of one connection: a `tOpen`, any number of `tSend` and
      a `tClose`. */
  function Connection(values: seq<int>): (evs: seq<Event>)
    requires |values| >= 2
    ensures |evs| == |values| && AllTiming(evs)
  {
    [Open(values[0])] + SendsThenClose(values[1..])
  }

  lemma {:induction false} SendsThenCloseTiming(t: Timing, values: seq<int>, baseline: int)
    requires |values| >= 1
    ensures TimingAll(t, SendsThenClose(values), baseline) ==
      (var length := t.length + Sum(values);
       if length == 0 then Err(ZeroDivision) else Ok(Closed(t, length)))
    decreases |values|
  {
    var evs := SendsThenClose(values);
    if |values| == 1 {
      assert evs[1..] == [];
    } else {
      assert evs[0] == Send(values[0]) && evs[1..] == SendsThenClose(values[1..]);
      var t' := t.(length := t.length + values[0]);
      SendsThenCloseTiming(t', values[1..], baseline);
      assert Closed(t', t.length + Sum(values)) == Closed(t, t.length + Sum(values));
    }
  }

  /** A connection's recorded length is the baseline plus the sum of its
      `tOpen`, `tSend` and `tClose` values, whatever the length was before its
      `tOpen`; when that is 0 the pass fails with a division by zero, otherwise
      the length and the rate `size / length` are appended and nothing else
      changes. */
  lemma ConnectionTiming(t: Timing, values: seq<int>, baseline: int)
    requires |values| >= 2
    ensures TimingAll(t, Connection(values), baseline) ==
      (var length := baseline + Sum(values);
       if length == 0 then Err(ZeroDivision) else Ok(Closed(t, length)))
  {
    var evs := Connection(values);
    assert evs[0] == Open(values[0]) && evs[1..] == SendsThenClose(values[1..]);
    var t' := t.(length := baseline + values[0]);
    SendsThenCloseTiming(t', values[1..], baseline);
    assert Closed(t', baseline + Sum(values)) == Closed(t, baseline + Sum(values));
  }

  /** One whole connection as an application logs it: its `sendBytes` row,
      its `tOpen`, `tSend`... and `tClose` rows, then its `connectAddress` row. */
  function ConnectionGroup(size: int, values: seq<int>, k: HeatKey): (evs: seq<Event>)
    requires |values| >= 2
    ensures |evs| == |values| + 2
    ensures evs[0] == Bytes(size) && evs[|evs| - 1] == Link(k)
    ensures evs[1..|evs| - 1] == Connection(values)
  {
    [Bytes(size)] + Connection(values) + [Link(k)]
  }

  /** The timing after a `sendBytes` of `size`. */
  function Sized(t: Timing, size: int): Timing {
    t.(size := size, sizes := t.sizes + [size])
  }

  /** A row that takes the `sendBytes`, `tOpen`, `tSend` or `tClose` branch. */
  predicate IsTimingRow(row: ParamRow) {
    ClassifyFlow(row.key).Some? && ClassifyFlow(row.key) != Some(ConnectAddress)
  }

  /** A timing row whose value is written without a minus sign. */
  predicate UnsignedRow(row: ParamRow) {
    IsTimingRow(row) ==> '-' !in row.value
  }
}
