/** Flow aggregation and per-flow features (src/feature_engineering.py,
    `extract_features`). The capture is given as decoded packet records; the
    grouping loop and the collecting loop are methods proved against the
    specification functions of module Flows and the function FeatureRows. */
module FeatureEngineering {
  import opened Seqs
  import opened Stats
  import opened Flows
  import opened Frames
  import opened Wrappers

  /** One row of the feature table, field for field as the source builds it. */
  datatype FeatureRow = FeatureRow(
    srcIp: Addr, dstIp: Addr, srcPort: nat, dstPort: nat, protocol: nat,
    duration: real, packetCount: nat, byteCount: nat,
    packetRate: real, byteRate: real, flagFeatures: nat,
    avgPacketSize: real, stdPacketSize: real,
    avgInterArrival: real, stdInterArrival: real)

  function RowKey(r: FeatureRow): FlowKey
  {
    FlowKey(r.srcIp, r.dstIp, r.srcPort, r.dstPort, r.protocol)
  }

  /** The packet lengths of a flow, as reals. */
  function Sizes(ps: seq<Packet>): (sizes: seq<real>)
    ensures |sizes| == |ps|
  {
    if |ps| == 0 then [] else Sizes(ps[..|ps| - 1]) + [ps[|ps| - 1].len as real]
  }

  /** The arrival times of a flow's packets. */
  function Times(ps: seq<Packet>): (times: seq<real>)
    ensures |times| == |ps|
  {
    if |ps| == 0 then [] else Times(ps[..|ps| - 1]) + [ps[|ps| - 1].time]
  }

  lemma {:induction false} SizesAt(ps: seq<Packet>, i: nat)
    requires i < |ps|
    ensures Sizes(ps)[i] == ps[i].len as real
  {
    if i < |ps| - 1 {
      SizesAt(ps[..|ps| - 1], i);
    }
  }

  lemma {:induction false} TimesAt(ps: seq<Packet>, i: nat)
    requires i < |ps|
    ensures Times(ps)[i] == ps[i].time
  {
    if i < |ps| - 1 {
      TimesAt(ps[..|ps| - 1], i);
    }
  }

  /** The features of one flow. `np` supplies `np.mean` and `np.std`; the
      lemmas that speak of the averages and spreads assume what those
      library calls compute (Stats.MeanIsArithmetic, Stats.StdIsPopulation). */
  function FlowFeatures(key: FlowKey, flow: Flow, np: NumPy): (r: FeatureRow)
    requires |flow.packets| > 0
    ensures RowKey(r) == key
    ensures r.packetCount == |flow.packets| && r.byteCount == flow.bytes
    ensures r.flagFeatures == |flow.flags|
    ensures r.packetRate >= 0.0 && r.byteRate >= 0.0
  {
    var ps := flow.packets;
    var duration := ps[|ps| - 1].time - flow.startTime;
    var packetCount := |ps|;
    var byteCount := flow.bytes;
    var packetRate := Rate(packetCount, duration);
    var byteRate := Rate(byteCount, duration);
    var flagFeatures := if |flow.flags| > 0 then |flow.flags| else 0;
    var sizes := Sizes(ps);
    var avgSize := if |sizes| > 0 then np.mean(sizes) else 0.0;
    var stdSize := if |sizes| > 0 then np.std(sizes) else 0.0;
    var interArrival := Gaps(Times(ps));
    var avgInter := if |interArrival| > 0 then np.mean(interArrival) else 0.0;
    var stdInter := if |interArrival| > 0 then np.std(interArrival) else 0.0;
    FeatureRow(key.src, key.dst, key.sport, key.dport, key.proto,
               duration, packetCount, byteCount, packetRate, byteRate, flagFeatures,
               avgSize, stdSize, avgInter, stdInter)
  }

  /** A count per unit of time, 0 when the duration is not positive. */
  function Rate(count: nat, duration: real): (rate: real)
    ensures rate >= 0.0
  {
    if duration > 0.0 then count as real / duration else 0.0
  }

  /** The row of a listed flow: the features of the record the grouping
      loop holds for it. */
  function FlowRow(capture: seq<Packet>, k: FlowKey, np: NumPy): FeatureRow
    requires k in FirstSeen(capture)
  {
    FirstSeenIffPackets(capture, k);
    FlowFeatures(k, Accumulated(capture, k), np)
  }

  /** The feature table of a capture: one row per flow, in first-seen order. */
  function FeatureRows(capture: seq<Packet>, np: NumPy): (rows: seq<FeatureRow>)
    ensures |rows| == |FirstSeen(capture)|
  {
    Map(FirstSeen(capture), k requires k in FirstSeen(capture) => FlowRow(capture, k, np))
  }

  // ---------------------------------------------------------------------
  // The two loops of extract_features

  lemma AccumulatedSnoc(c: seq<Packet>, p: Packet, k: FlowKey)
    ensures !InFlow(p, k) ==> Accumulated(c + [p], k) == Accumulated(c, k)
    ensures InFlow(p, k) ==>
      var f, g := Accumulated(c, k), Accumulated(c + [p], k);
      && g.packets == f.packets + [p]
      && g.startTime == (if |f.packets| == 0 then p.time else f.startTime)
      && g.bytes == f.bytes + p.len
      && g.flags == f.flags + (if p.hasTCP then {p.flags} else {})
  {
    var ps, ps' := FlowPackets(c, k), FlowPackets(c + [p], k);
    FlowPacketsSnoc(c, p, k);
    if InFlow(p, k) {
      assert ps' == ps + [p];
      TotalLengthSnoc(ps, p);
      FlagSetSnoc(ps, p);
      assert ps'[0] == if |ps| == 0 then p else ps[0];
    } else {
      assert ps' == ps;
    }
  }

  /** What the grouping loop holds after reading the packets `c`. */
  ghost predicate TableOf(flows: map<FlowKey, Flow>, order: seq<FlowKey>, c: seq<Packet>)
  {
    && order == FirstSeen(c)
    && (forall k :: k in flows <==> k in order)
    && (forall k :: k in flows ==> flows[k] == Accumulated(c, k))
  }

  lemma SkipPacket(flows: map<FlowKey, Flow>, order: seq<FlowKey>, c: seq<Packet>, p: Packet)
    requires TableOf(flows, order, c) && !Eligible(p)
    ensures TableOf(flows, order, c + [p])
  {
    FirstSeenSnoc(c, p);
    forall k | k in flows ensures flows[k] == Accumulated(c + [p], k) {
      AccumulatedSnoc(c, p, k);
    }
  }

  /** The record of the packet's own flow after the loop body has run. */
  lemma AddPacketToItsFlow(before: Flow, c: seq<Packet>, p: Packet)
    requires Eligible(p)
    requires before == if KeyOf(p) in FirstSeen(c) then Accumulated(c, KeyOf(p)) else Flow([], p.time, 0, {})
    ensures Flow(before.packets + [p], before.startTime, before.bytes + p.len,
                 before.flags + (if p.hasTCP then {p.flags} else {})) == Accumulated(c + [p], KeyOf(p))
  {
    var key := KeyOf(p);
    AccumulatedSnoc(c, p, key);
    FirstSeenIffPackets(c, key);
    if key !in FirstSeen(c) {
      assert Accumulated(c, key) == Flow([], 0.0, 0, {});
    }
  }

  /** The loop body for an eligible packet: `before` is the record of the
      packet's flow (a fresh one if its key is new), which gets the packet,
      its length and its flags and is written back under the key. */
  lemma AddPacket(flows0: map<FlowKey, Flow>, order0: seq<FlowKey>, c: seq<Packet>, p: Packet,
                  before: Flow, order: seq<FlowKey>, f: Flow)
    requires TableOf(flows0, order0, c) && Eligible(p)
    requires before == if KeyOf(p) in flows0 then flows0[KeyOf(p)] else Flow([], p.time, 0, {})
    requires order == if KeyOf(p) in flows0 then order0 else order0 + [KeyOf(p)]
    requires f == Flow(before.packets + [p], before.startTime, before.bytes + p.len,
                       before.flags + (if p.hasTCP then {p.flags} else {}))
    ensures TableOf(flows0[KeyOf(p) := f], order, c + [p])
  {
    AddPacketToItsFlow(before, c, p);
    AddPacketTable(flows0, order0, c, p, order, f);
  }

  lemma AddPacketTable(flows0: map<FlowKey, Flow>, order0: seq<FlowKey>, c: seq<Packet>, p: Packet,
                       order: seq<FlowKey>, f: Flow)
    requires TableOf(flows0, order0, c) && Eligible(p)
    requires order == if KeyOf(p) in flows0 then order0 else order0 + [KeyOf(p)]
    requires f == Accumulated(c + [p], KeyOf(p))
    ensures TableOf(flows0[KeyOf(p) := f], order, c + [p])
  {
    AddPacketOrder(order0, c, p, KeyOf(p) in flows0, order);
    AddPacketKeys(flows0, order0, p, order, f);
    AddPacketRecords(flows0, c, p, f);
  }

  lemma AddPacketOrder(order0: seq<FlowKey>, c: seq<Packet>, p: Packet, known: bool, order: seq<FlowKey>)
    requires order0 == FirstSeen(c) && Eligible(p) && (known <==> KeyOf(p) in order0)
    requires order == if known then order0 else order0 + [KeyOf(p)]
    ensures order == FirstSeen(c + [p])
  {
    FirstSeenSnoc(c, p);
  }

  lemma AddPacketKeys(flows0: map<FlowKey, Flow>, order0: seq<FlowKey>, p: Packet, order: seq<FlowKey>, f: Flow)
    requires forall k :: k in flows0 <==> k in order0
    requires order == if KeyOf(p) in flows0 then order0 else order0 + [KeyOf(p)]
    ensures forall k :: k in flows0[KeyOf(p) := f] <==> k in order
  {
  }

  lemma AddPacketRecords(flows0: map<FlowKey, Flow>, c: seq<Packet>, p: Packet, f: Flow)
    requires forall k :: k in flows0 ==> flows0[k] == Accumulated(c, k)
    requires f == Accumulated(c + [p], KeyOf(p))
    ensures forall k :: k in flows0[KeyOf(p) := f] ==> flows0[KeyOf(p) := f][k] == Accumulated(c + [p], k)
  {
    OtherFlowsUnchanged(flows0, c, p);
  }

  /** A packet leaves the records of every other flow as they were. */
  lemma OtherFlowsUnchanged(flows0: map<FlowKey, Flow>, c: seq<Packet>, p: Packet)
    requires forall k :: k in flows0 ==> flows0[k] == Accumulated(c, k)
    ensures forall k :: k in flows0 && k != KeyOf(p) ==> flows0[k] == Accumulated(c + [p], k)
  {
    forall k | k in flows0 && k != KeyOf(p) ensures flows0[k] == Accumulated(c + [p], k) {
      AccumulatedSnoc(c, p, k);
    }
  }

  /** The grouping loop: builds the flow dictionary (a map plus its key
      insertion order) from the packets of the capture. */
  method GroupFlows(capture: seq<Packet>) returns (flows: map<FlowKey, Flow>, order: seq<FlowKey>)
    ensures order == FirstSeen(capture)
    ensures forall k :: k in flows <==> k in order
    ensures forall k :: k in flows ==> flows[k] == Accumulated(capture, k)
  {
    flows, order := map[], [];
    for i := 0 to |capture|
      invariant TableOf(flows, order, capture[..i])
    {
      var packet := capture[i];
      assert capture[..i + 1] == capture[..i] + [packet];
      if packet.hasIP {
        var flags := 0;
        if packet.hasTCP {
          flags := packet.flags;
        } else if packet.hasUDP {
          flags := 0;
        } else {
          SkipPacket(flows, order, capture[..i], packet);
          continue;
        }
        ghost var flows0, order0 := flows, order;
        var key := KeyOf(packet);
        var f;
        if key in flows {
          f := flows[key];
        } else {
          f := Flow([], packet.time, 0, {});
          order := order + [key];
        }
        ghost var before := f;
        f := f.(packets := f.packets + [packet], bytes := f.bytes + packet.len);
        if packet.hasTCP {
          f := f.(flags := f.flags + {flags});
        }
        flows := flows[key := f];
        AddPacket(flows0, order0, capture[..i], packet, before, order, f);
      } else {
        SkipPacket(flows, order, capture[..i], packet);
      }
    }
    assert capture[..|capture|] == capture;
  }

  /** `extract_features` up to the DataFrame: groups the capture, then
      appends one feature row per flow in dictionary order. */
  method ExtractFeatures(capture: seq<Packet>, np: NumPy) returns (features: seq<FeatureRow>)
    ensures features == FeatureRows(capture, np)
  {
    var flows, order := GroupFlows(capture);
    features := [];
    for i := 0 to |order|
      invariant |features| == i
      invariant forall j :: 0 <= j < i ==> features[j] == FlowRow(capture, order[j], np)
    {
      var key := order[i];
      var flow := flows[key];
      AppendRow(capture, np, features, flow);
      features := features + [FlowFeatures(key, flow, np)];
    }
    RowsAreFeatureRows(capture, np, features);
  }

  /** The collecting loop's step: the row of the next listed flow extends a
      table that holds the rows of the flows before it. */
  lemma AppendRow(capture: seq<Packet>, np: NumPy, rows: seq<FeatureRow>, flow: Flow)
    requires |rows| < |FirstSeen(capture)|
    requires forall j :: 0 <= j < |rows| ==> rows[j] == FlowRow(capture, FirstSeen(capture)[j], np)
    requires flow == Accumulated(capture, FirstSeen(capture)[|rows|])
    ensures |flow.packets| > 0
    ensures var rows' := rows + [FlowFeatures(FirstSeen(capture)[|rows|], flow, np)];
      forall j :: 0 <= j < |rows'| ==> rows'[j] == FlowRow(capture, FirstSeen(capture)[j], np)
  {
    FirstSeenIffPackets(capture, FirstSeen(capture)[|rows|]);
  }

  // ---------------------------------------------------------------------
  // The DataFrame

  /** The columns of the feature table, in the order of the row dictionary.
      With packet times as floats, only the two addresses are non-numeric. */
  const FeatureColumns: seq<Column> := [
    Column("src_ip", false), Column("dst_ip", false), Column("src_port", true),
    Column("dst_port", true), Column("protocol", true), Column("duration", true),
    Column("packet_count", true), Column("byte_count", true), Column("packet_rate", true),
    Column("byte_rate", true), Column("flag_features", true), Column("avg_packet_size", true),
    Column("std_packet_size", true), Column("avg_inter_arrival", true), Column("std_inter_arrival", true)]

  /** A feature row as the cells of one DataFrame row. */
  function RowCells(r: FeatureRow): (cells: seq<Cell>)
    ensures RowFits(cells, FeatureColumns)
  {
    [Text(r.srcIp), Text(r.dstIp), Num(r.srcPort as real), Num(r.dstPort as real),
     Num(r.protocol as real), Num(r.duration), Num(r.packetCount as real), Num(r.byteCount as real),
     Num(r.packetRate), Num(r.byteRate), Num(r.flagFeatures as real), Num(r.avgPacketSize),
     Num(r.stdPacketSize), Num(r.avgInterArrival), Num(r.stdInterArrival)]
  }

  /** `pd.DataFrame(features)`: no rows gives a frame without columns;
      otherwise the feature columns and one row per feature row. */
  function FeatureFrame(rows: seq<FeatureRow>): (df: DataFrame)
    ensures |df.rows| == |rows|
    ensures |rows| == 0 ==> |df.columns| == 0
    ensures |rows| > 0 ==> df.columns == FeatureColumns
    ensures forall i :: 0 <= i < |rows| ==> df.rows[i] == RowCells(rows[i])
  {
    if |rows| == 0 then Frame([], []) else Frame(FeatureColumns, Map(rows, RowCells))
  }

  /** `extract_features` on a capture file: None when the packet library
      cannot be imported, otherwise the feature table of the capture that
      `readPcap` decodes from the file. */
  method ExtractFeaturesFrom(pcapFile: string, scapyInstalled: bool, readPcap: string -> seq<Packet>, np: NumPy)
    returns (df: Option<DataFrame>)
    ensures df.None? <==> !scapyInstalled
    ensures df.Some? ==> df.value == FeatureFrame(FeatureRows(readPcap(pcapFile), np))
  {
    if !scapyInstalled {
      return None;
    }
    var capture := readPcap(pcapFile);
    var features := ExtractFeatures(capture, np);
    df := Some(FeatureFrame(features));
  }

  /** A table holding, at each position, the row of the flow listed there is
      the feature table. */
  lemma RowsAreFeatureRows(capture: seq<Packet>, np: NumPy, rows: seq<FeatureRow>)
    requires |rows| == |FirstSeen(capture)|
    requires forall j :: 0 <= j < |rows| ==> rows[j] == FlowRow(capture, FirstSeen(capture)[j], np)
    ensures rows == FeatureRows(capture, np)
  {
  }

  lemma RowOfFlow(capture: seq<Packet>, np: NumPy, i: nat)
    requires i < |FirstSeen(capture)|
    ensures var k := FirstSeen(capture)[i];
      && |Accumulated(capture, k).packets| > 0
      && FeatureRows(capture, np)[i] == FlowFeatures(k, Accumulated(capture, k), np)
  {
    FirstSeenIffPackets(capture, FirstSeen(capture)[i]);
  }

  // ---------------------------------------------------------------------
  // Properties of the feature table

  lemma ListedFlowsAreConsistent(capture: seq<Packet>)
    ensures forall k :: k in FirstSeen(capture) ==>
      Consistent(Accumulated(capture, k)) && Accumulated(capture, k).packets == FlowPackets(capture, k)
  {
    forall k | k in FirstSeen(capture) {
      AccumulatedIsConsistent(capture, k);
    }
  }

  function TotalPacketCount(rows: seq<FeatureRow>): nat
  {
    if |rows| == 0 then 0 else TotalPacketCount(rows[..|rows| - 1]) + rows[|rows| - 1].packetCount
  }

  /** Row `i` describes the `i`-th flow in first-seen order: its key, its
      packet count and its byte total. */
  lemma RowsDescribeFlows(capture: seq<Packet>, np: NumPy)
    ensures var rows, keys := FeatureRows(capture, np), FirstSeen(capture);
      forall i :: 0 <= i < |rows| ==>
        && RowKey(rows[i]) == keys[i]
        && rows[i].packetCount == |FlowPackets(capture, keys[i])| >= 1
        && rows[i].byteCount == TotalLength(FlowPackets(capture, keys[i]))
  {
    ListedFlowsAreConsistent(capture);
    forall i | 0 <= i < |FirstSeen(capture)| {
      RowOfFlow(capture, np, i);
    }
  }

  /** One row per distinct key, and only for keys that have packets. */
  lemma OneRowPerFlow(capture: seq<Packet>, np: NumPy)
    ensures var rows := FeatureRows(capture, np);
      && (forall i, j :: 0 <= i < j < |rows| ==> RowKey(rows[i]) != RowKey(rows[j]))
      && (forall i :: 0 <= i < |rows| ==> |FlowPackets(capture, RowKey(rows[i]))| > 0)
  {
    var rows, keys := FeatureRows(capture, np), FirstSeen(capture);
    RowsDescribeFlows(capture, np);
    forall i | 0 <= i < |rows| ensures |FlowPackets(capture, RowKey(rows[i]))| > 0 {
      FirstSeenIffPackets(capture, keys[i]);
    }
  }

  /** Every packet with an IP layer and a TCP or UDP layer is described by
      some row. */
  lemma EveryPacketHasARow(capture: seq<Packet>, np: NumPy)
    ensures var rows := FeatureRows(capture, np);
      forall j :: 0 <= j < |capture| && Eligible(capture[j]) ==>
        exists i :: 0 <= i < |rows| && RowKey(rows[i]) == KeyOf(capture[j])
  {
    var rows, keys := FeatureRows(capture, np), FirstSeen(capture);
    RowsDescribeFlows(capture, np);
    forall j | 0 <= j < |capture| && Eligible(capture[j])
      ensures exists i :: 0 <= i < |rows| && RowKey(rows[i]) == KeyOf(capture[j])
    {
      var k := KeyOf(capture[j]);
      FlowPacketsMembers(capture, k);
      FirstSeenIffPackets(capture, k);
      var i :| 0 <= i < |keys| && keys[i] == k;
      assert RowKey(rows[i]) == k;
    }
  }

  /** Rows come in the order of each flow's first packet. */
  lemma RowsInFirstPacketOrder(capture: seq<Packet>, np: NumPy)
    ensures var rows := FeatureRows(capture, np);
      && (forall i :: 0 <= i < |rows| ==> RowKey(rows[i]) in FirstSeen(capture))
      && (forall i, j :: 0 <= i < j < |rows| ==>
            FirstIndex(capture, RowKey(rows[i])) < FirstIndex(capture, RowKey(rows[j])))
  {
    RowsDescribeFlows(capture, np);
    FirstSeenInCaptureOrder(capture);
  }

  /** Rows whose packet counts are the sizes of the flows `keys` add up to
      the total size of those flows. */
  lemma {:induction false} PacketCountsAddUp(capture: seq<Packet>, rows: seq<FeatureRow>, keys: seq<FlowKey>)
    requires |rows| == |keys|
    requires forall i :: 0 <= i < |rows| ==> rows[i].packetCount == |FlowPackets(capture, keys[i])|
    ensures TotalPacketCount(rows) == FlowSizes(capture, keys)
  {
    if |rows| > 0 {
      var n := |rows| - 1;
      PacketCountsAddUp(capture, rows[..n], keys[..n]);
    }
  }

  /** The packet counts of all rows add up to the number of packets that
      have an IP layer and a TCP or UDP layer. */
  lemma PacketCountsCoverCapture(capture: seq<Packet>, np: NumPy)
    ensures TotalPacketCount(FeatureRows(capture, np)) == |Captured(capture)|
  {
    RowsDescribeFlows(capture, np);
    PacketCountsAddUp(capture, FeatureRows(capture, np), FirstSeen(capture));
    PacketConservation(capture);
  }

  /** Duration is last time minus first time, and the counters are the
      flow's packet count and byte total. */
  lemma FlowTotals(key: FlowKey, f: Flow, np: NumPy)
    requires Consistent(f)
    ensures var r := FlowFeatures(key, f, np);
      && RowKey(r) == key
      && r.duration == f.packets[|f.packets| - 1].time - f.packets[0].time
      && r.packetCount == |f.packets| >= 1
      && r.byteCount == TotalLength(f.packets)
  {
  }

  /** Rates are zero when the duration is not positive; otherwise they are
      the packet count and the byte total per unit of duration. */
  lemma RatesGuardZeroDuration(key: FlowKey, f: Flow, np: NumPy)
    requires |f.packets| > 0
    ensures var r := FlowFeatures(key, f, np);
      && (r.duration <= 0.0 ==> r.packetRate == 0.0 && r.byteRate == 0.0)
      && (r.duration > 0.0 ==>
            && r.packetRate * r.duration == r.packetCount as real
            && r.byteRate * r.duration == r.byteCount as real)
  {
    var r := FlowFeatures(key, f, np);
    if r.duration > 0.0 {
      assert r.packetRate == r.packetCount as real / r.duration;
      assert r.byteRate == r.byteCount as real / r.duration;
      PerUnitTimesUnit(r.packetCount as real, r.duration);
      PerUnitTimesUnit(r.byteCount as real, r.duration);
    }
  }

  lemma PerUnitTimesUnit(x: real, d: real)
    requires d > 0.0
    ensures (x / d) * d == x
  {
  }

  /** A flow of one packet has no duration, no rates and no inter-arrival
      statistics; its mean size is its length and its size spread is zero. */
  lemma SinglePacketFlow(key: FlowKey, f: Flow, np: NumPy, sqrt: real -> real)
    requires Consistent(f) && |f.packets| == 1
    requires MeanIsArithmetic(np) && StdIsPopulation(np, sqrt) && sqrt(0.0) == 0.0
    ensures var r := FlowFeatures(key, f, np);
      && r.duration == 0.0 && r.packetRate == 0.0 && r.byteRate == 0.0
      && r.avgInterArrival == 0.0 && r.stdInterArrival == 0.0
      && r.avgPacketSize == f.packets[0].len as real && r.stdPacketSize == 0.0
  {
    var len := f.packets[0].len as real;
    assert f.packets[..0] == [];
    assert Sizes(f.packets) == [len];
    SingletonStats(len);
  }

  /** The flag feature counts the distinct TCP flag values of the flow: zero
      exactly when the flow has no TCP packet, at least one otherwise. */
  lemma FlagDiversity(key: FlowKey, f: Flow, np: NumPy)
    requires Consistent(f)
    ensures var r := FlowFeatures(key, f, np);
      && r.flagFeatures == |FlagSet(f.packets)|
      && (r.flagFeatures == 0 <==> forall i :: 0 <= i < |f.packets| ==> !f.packets[i].hasTCP)
  {
    FlagSetMembers(f.packets);
    if |FlagSet(f.packets)| > 0 {
      var x :| x in FlagSet(f.packets);
    }
  }

  /** The mean inter-arrival gap is the duration divided by the number of
      gaps: the gaps telescope. */
  lemma InterArrivalTelescopes(key: FlowKey, f: Flow, np: NumPy)
    requires Consistent(f) && |f.packets| >= 2 && MeanIsArithmetic(np)
    ensures var r := FlowFeatures(key, f, np);
      r.avgInterArrival == r.duration / (|f.packets| - 1) as real
  {
    var ps := f.packets;
    var ts := Times(ps);
    var gaps := Gaps(ts);
    TimesAt(ps, 0);
    TimesAt(ps, |ps| - 1);
    GapsTelescope(ts);
    var duration := ps[|ps| - 1].time - ps[0].time;
    assert Sum(gaps) == duration;
    assert |gaps| == |ps| - 1;
    assert np.mean(gaps) == Mean(gaps) == Sum(gaps) / |gaps| as real;
  }

  /** Both spreads are square roots of variances, so they are never negative. */
  lemma SpreadsNonNegative(key: FlowKey, f: Flow, np: NumPy, sqrt: real -> real)
    requires Consistent(f)
    requires StdIsPopulation(np, sqrt) && forall x :: 0.0 <= x ==> 0.0 <= sqrt(x)
    ensures var r := FlowFeatures(key, f, np);
      r.stdPacketSize >= 0.0 && r.stdInterArrival >= 0.0
  {
    var r := FlowFeatures(key, f, np);
    var sizes, gaps := Sizes(f.packets), Gaps(Times(f.packets));
    VarianceNonNegative(sizes);
    assert r.stdPacketSize == np.std(sizes) == sqrt(Variance(sizes)) >= 0.0;
    if |gaps| > 0 {
      VarianceNonNegative(gaps);
      assert r.stdInterArrival == np.std(gaps) == sqrt(Variance(gaps)) >= 0.0;
    } else {
      assert r.stdInterArrival == 0.0;
    }
  }

  /** Two TCP packets of one flow, 100 and 200 bytes at times 0 and 0.5:
      duration 0.5, 4 packets and 600 bytes per second, mean size 150 and
      size variance 2500, one gap of 0.5 with no spread. */
  lemma TwoPacketFeatures(key: FlowKey, f: Flow, np: NumPy, sqrt: real -> real)
    requires Consistent(f) && |f.packets| == 2
    requires MeanIsArithmetic(np) && StdIsPopulation(np, sqrt)
    requires f.packets[0].time == 0.0 && f.packets[0].len == 100
    requires f.packets[1].time == 0.5 && f.packets[1].len == 200
    ensures var r := FlowFeatures(key, f, np);
      && r.duration == 0.5 && r.packetCount == 2 && r.byteCount == 300
      && r.packetRate == 4.0 && r.byteRate == 600.0
      && r.avgPacketSize == 150.0 && r.stdPacketSize == sqrt(2500.0)
      && r.avgInterArrival == 0.5 && r.stdInterArrival == sqrt(0.0)
  {
    var ps := f.packets;
    assert ps[..1][..0] == [] && ps[..0] == [];
    assert TotalLength(ps) == 300 by { assert TotalLength(ps[..1]) == 100; }
    var sizes := Sizes(ps);
    assert sizes == [100.0, 200.0] by { assert Sizes(ps[..1]) == [100.0]; }
    assert Sum(sizes) == 300.0 by { SumSnoc([100.0], 200.0); SumSnoc([], 100.0); assert [100.0][..0] == []; }
    assert Mean(sizes) == 150.0;
    assert SquaredDeviations(sizes, 150.0) == 5000.0 by {
      assert sizes[..1] == [100.0] && [100.0][..0] == [];
    }
    assert Variance(sizes) == 2500.0;
    var ts := Times(ps);
    assert ts == [0.0, 0.5] by { assert Times(ps[..1]) == [0.0]; }
    assert Gaps(ts) == [0.5] by { assert ts[..1] == [0.0]; }
    SingletonStats(0.5);
    assert np.mean([0.5]) == Mean([0.5]) && np.std([0.5]) == sqrt(Variance([0.5]));
  }

  /** A capture of exactly those two packets yields that single row. */
  lemma TwoPacketCapture(a: Packet, b: Packet, np: NumPy, sqrt: real -> real)
    requires MeanIsArithmetic(np) && StdIsPopulation(np, sqrt)
    requires Eligible(a) && a.hasTCP && KeyOf(a) == KeyOf(b) && Eligible(b) && b.hasTCP
    requires a.time == 0.0 && a.len == 100 && b.time == 0.5 && b.len == 200
    ensures var rows := FeatureRows([a, b], np);
      && |rows| == 1 && RowKey(rows[0]) == KeyOf(a)
      && rows[0].duration == 0.5 && rows[0].packetCount == 2 && rows[0].byteCount == 300
      && rows[0].packetRate == 4.0 && rows[0].byteRate == 600.0
      && rows[0].avgPacketSize == 150.0 && rows[0].stdPacketSize == sqrt(2500.0)
  {
    var c := [a, b];
    var k := KeyOf(a);
    assert FirstSeen([a]) == [k] by { FirstSeenSnoc([], a); assert [] + [a] == [a]; }
    assert FirstSeen(c) == [k] by { FirstSeenSnoc([a], b); assert [a] + [b] == c; }
    assert FlowPackets([a], k) == [a] by { FlowPacketsSnoc([], a, k); assert [] + [a] == [a]; }
    assert FlowPackets(c, k) == [a, b] by { FlowPacketsSnoc([a], b, k); assert [a] + [b] == c; }
    RowOfFlow(c, np, 0);
    AccumulatedIsConsistent(c, k);
    TwoPacketFeatures(k, Accumulated(c, k), np, sqrt);
  }
}
