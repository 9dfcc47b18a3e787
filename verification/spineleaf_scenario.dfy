/** One complete flow through the spine-leaf row loop: its `sendBytes`,
    `tOpen` and `tClose` rows, then its `connectAddress` row. */
module SpineLeafScenario {
  import opened Results
  import opened Text
  import opened Addresses
  import opened Heat
  import opened Flows
  import opened SpineLeafTraffic

  /** The events of one flow, in the order its rows come. */
  function FlowEvents(size: int, open: int, close: int, k: HeatKey): seq<Event> {
    [Bytes(size), Open(open), Close(close), Link(k)]
  }

  /** A key that takes the `sendBytes` branch, with a value such as `100MiB`,
      decodes to that size. */
  lemma DecodeSizeRow(row: ParamRow, size: int)
    requires ClassifyFlow(row.key) == Some(SendBytes) && row.value == ShowInt(size) + "MiB"
    ensures Decode(row) == Ok(Bytes(size))
  {
    DecodeTimingShow(SendBytes, size, "MiB");
  }

  /** A key that takes the `tOpen` or `tClose` branch, with a value such as
      `2s`, decodes to that time. */
  lemma DecodeTimeRow(row: ParamRow, m: FlowMarker, v: int)
    requires m == TOpen || m == TClose
    requires ClassifyFlow(row.key) == Some(m) && row.value == ShowInt(v) + "s"
    ensures Decode(row) == Ok(TimingEvent(m, v))
  {
    DecodeTimingShow(m, v, "s");
  }

  /** A `connectAddress` row whose key is a path such as
      `net.leaf[2].host[5].app[0].io` and whose value is a path such as
      `leaf[7].host[1]`, each fitting its pattern, decodes to the link from
      (leaf 2, host 5) to (leaf 7, host 1): the endpoints are the first two
      bracket numbers of each path. */
  lemma DecodeConnectRow(l1: Layout, l2: Layout, a: nat, b: nat, c: nat, d: nat)
    requires WellFormed(l1) && |l1.tokens| == SpineLeafKeyPattern.Groups() && Fits(SpineLeafKeyPattern, l1)
    requires l1.tokens[0] == ShowNat(a) && l1.tokens[1] == ShowNat(b)
    requires WellFormed(l2) && |l2.tokens| == SpineLeafValuePattern.Groups() && Fits(SpineLeafValuePattern, l2)
    requires l2.tokens[0] == ShowNat(c) && l2.tokens[1] == ShowNat(d)
    requires ClassifyFlow(Join(l1)) == Some(ConnectAddress)
    ensures Decode(ParamRow(Join(l1), Join(l2))) == Ok(Link((a, b, c, d)))
  {
    CoordinateRoundTrip(l1, SpineLeafKeyPattern, a, b);
    CoordinateRoundTrip(l2, SpineLeafValuePattern, c, d);
  }

  /** One more decoded row in front. */
  lemma DecodesCons(rows: seq<ParamRow>, evs: seq<Event>)
    requires |rows| > 0 && |rows| == |evs| && Decode(rows[0]) == Ok(evs[0]) && Decodes(rows[1..], evs[1..])
    ensures Decodes(rows, evs)
  {
  }

  /** Four rows that decode to the flow's events form a decoded sequence. */
  lemma FlowDecodes(r0: ParamRow, r1: ParamRow, r2: ParamRow, r3: ParamRow, size: int, open: int, close: int, k: HeatKey)
    requires Decode(r0) == Ok(Bytes(size)) && Decode(r1) == Ok(Open(open))
    requires Decode(r2) == Ok(Close(close)) && Decode(r3) == Ok(Link(k))
    ensures Decodes([r0, r1, r2, r3], FlowEvents(size, open, close, k))
  {
    var evs := FlowEvents(size, open, close, k);
    DecodesCons([r3], [Link(k)]);
    assert [r2, r3][1..] == [r3] && [Close(close), Link(k)][1..] == [Link(k)];
    DecodesCons([r2, r3], [Close(close), Link(k)]);
    assert [r1, r2, r3][1..] == [r2, r3] && [Open(open), Close(close), Link(k)][1..] == [Close(close), Link(k)];
    DecodesCons([r1, r2, r3], [Open(open), Close(close), Link(k)]);
    assert [r0, r1, r2, r3][1..] == [r1, r2, r3] && evs[1..] == [Open(open), Close(close), Link(k)];
    DecodesCons([r0, r1, r2, r3], evs);
  }

  /** The state one flow leaves behind when it starts from the initial state. */
  function AfterFlow(size: int, length: int, k: HeatKey): State {
    State(
      Timing(size, length, [size], [length], [Rate(size, length)]),
      map[k := Cell(size, length)],
      if k.0 == k.2 then size else 0,
      if k.0 == k.2 then 0 else size)
  }

  /** From the initial state, one flow records its size, its length
      `open + close` and its rate, puts (size, length) in the map under its
      endpoints and counts its size as intra-leaf exactly when both leaves are
      equal; a zero length is a division by zero. */
  lemma FlowApply(size: int, open: int, close: int, k: HeatKey)
    ensures ApplyAll(Init(), FlowEvents(size, open, close, k)) ==
      if open + close == 0 then Err(ZeroDivision) else Ok(AfterFlow(size, open + close, k))
  {
    var evs := FlowEvents(size, open, close, k);
    var s1 := State(Timing(size, 0, [size], [], []), map[], 0, 0);
    var s2 := State(Timing(size, open, [size], [], []), map[], 0, 0);
    assert [] + [size] == [size];
    assert Apply(Init(), evs[0]) == Ok(s1);
    assert Apply(s1, evs[1]) == Ok(s2);
    assert evs[1..] == [Open(open), Close(close), Link(k)];
    assert [Open(open), Close(close), Link(k)][1..] == [Close(close), Link(k)];
    assert [Close(close), Link(k)][1..] == [Link(k)];
    assert [Link(k)][1..] == [];
    if open + close != 0 {
      var length := open + close;
      var s3 := State(Timing(size, length, [size], [length], [Rate(size, length)]), map[], 0, 0);
      var s4 := AfterFlow(size, length, k);
      assert [] + [length] == [length] && [] + [Rate(size, length)] == [Rate(size, length)];
      assert Apply(s2, Close(close)) == Ok(s3);
      assert Apply(s3, Link(k)) == Ok(s4);
      assert ApplyAll(s3, [Link(k)]) == Ok(s4);
      assert ApplyAll(s2, [Close(close), Link(k)]) == Ok(s4);
      assert ApplyAll(s1, [Open(open), Close(close), Link(k)]) == Ok(s4);
    } else {
      assert Apply(s2, Close(close)) == Err(ZeroDivision);
      assert ApplyAll(s2, [Close(close), Link(k)]) == Err(ZeroDivision);
      assert ApplyAll(s1, [Open(open), Close(close), Link(k)]) == Err(ZeroDivision);
    }
  }

  /** Rows that decode to one flow's events, such as the rows the decoding
      lemmas above describe, run from the start to that state. */
  lemma SingleFlow(r0: ParamRow, r1: ParamRow, r2: ParamRow, r3: ParamRow, size: int, open: int, close: int, k: HeatKey)
    requires Decode(r0) == Ok(Bytes(size)) && Decode(r1) == Ok(Open(open))
    requires Decode(r2) == Ok(Close(close)) && Decode(r3) == Ok(Link(k))
    ensures Run([r0, r1, r2, r3]) ==
      if open + close == 0 then Err(ZeroDivision) else Ok(AfterFlow(size, open + close, k))
  {
    FlowDecodes(r0, r1, r2, r3, size, open, close, k);
    RunFromDecoded(Init(), [r0, r1, r2, r3], FlowEvents(size, open, close, k));
    FlowApply(size, open, close, k);
    RunStartsAtInit([r0, r1, r2, r3]);
  }

  /** A run is the loop started from the initial state. */
  lemma RunStartsAtInit(rows: seq<ParamRow>)
    ensures Run(rows) == RunFrom(Init(), rows)
  {
  }
}
