/** Packets, directional flow keys, and the specification of grouping a
    capture into flows (src/feature_engineering.py, the loop at lines 18-44).
    Every function here recurses from the END of the capture, so that each
    one describes the state after the packets seen so far. */
module Flows {
  import opened Seqs

  type Addr = string

  /** A capture record, reduced to what the extractor reads: whether it has
      an IP, a TCP and a UDP layer, the IP addresses and protocol number, the
      transport ports, the TCP flags value, the capture time and the length. */
  datatype Packet = Packet(
    hasIP: bool, hasTCP: bool, hasUDP: bool,
    src: Addr, dst: Addr, sport: nat, dport: nat, proto: nat,
    flags: nat, time: real, len: nat)

  /** The directional 5-tuple (src, dst, sport, dport, proto). */
  datatype FlowKey = FlowKey(src: Addr, dst: Addr, sport: nat, dport: nat, proto: nat)

  /** Only packets with an IP layer and a TCP or UDP layer join a flow. */
  predicate Eligible(p: Packet)
  {
    p.hasIP && (p.hasTCP || p.hasUDP)
  }

  function KeyOf(p: Packet): FlowKey
  {
    FlowKey(p.src, p.dst, p.sport, p.dport, p.proto)
  }

  predicate InFlow(p: Packet, k: FlowKey)
  {
    Eligible(p) && KeyOf(p) == k
  }

  function MemberOf(k: FlowKey): Packet -> bool
  {
    p => InFlow(p, k)
  }

  /** The packets that contribute to some flow, in capture order. */
  function Captured(c: seq<Packet>): seq<Packet>
  {
    Filter(c, Eligible)
  }

  /** The packets of flow `k`, in capture order. */
  function FlowPackets(c: seq<Packet>, k: FlowKey): (ps: seq<Packet>)
    ensures |ps| <= |c|
  {
    Filter(c, MemberOf(k))
  }

  /** Every packet of flow `k` comes from the capture and carries key `k`,
      and every eligible packet of the capture with key `k` is among them. */
  lemma FlowPacketsMembers(c: seq<Packet>, k: FlowKey)
    ensures forall i :: 0 <= i < |FlowPackets(c, k)| ==>
      FlowPackets(c, k)[i] in c && InFlow(FlowPackets(c, k)[i], k)
    ensures forall i :: 0 <= i < |c| && InFlow(c[i], k) ==> c[i] in FlowPackets(c, k)
  {
    FilterMembers(c, MemberOf(k));
  }

  predicate Distinct(keys: seq<FlowKey>)
  {
    forall i, j :: 0 <= i < j < |keys| ==> keys[i] != keys[j]
  }

  /** The flow keys in the order their first packet appears: the key order
      of the Python dictionary the loop fills. */
  function FirstSeen(c: seq<Packet>): (keys: seq<FlowKey>)
    ensures Distinct(keys)
  {
    if |c| == 0 then []
    else
      var keys := FirstSeen(c[..|c| - 1]);
      var p := c[|c| - 1];
      if Eligible(p) && KeyOf(p) !in keys then keys + [KeyOf(p)] else keys
  }

  /** Position in the capture of the first packet of flow `k`. */
  function FirstIndex(c: seq<Packet>, k: FlowKey): (i: nat)
    requires k in FirstSeen(c)
    ensures i < |c| && InFlow(c[i], k)
    ensures forall j :: 0 <= j < i ==> !InFlow(c[j], k)
  {
    var n := |c| - 1;
    if k in FirstSeen(c[..n]) then FirstIndex(c[..n], k)
    else
      FirstSeenIffPackets(c[..n], k);
      FlowPacketsMembers(c[..n], k);
      assert forall j :: 0 <= j < n ==> c[..n][j] == c[j];
      n
  }

  /** The per-flow record the loop builds: the packet list, the time of the
      first packet, the running byte total and the set of TCP flag values. */
  datatype Flow = Flow(packets: seq<Packet>, startTime: real, bytes: nat, flags: set<nat>)

  function TotalLength(ps: seq<Packet>): nat
  {
    if |ps| == 0 then 0 else TotalLength(ps[..|ps| - 1]) + ps[|ps| - 1].len
  }

  /** The distinct flag values of the TCP packets among `ps`. */
  function FlagSet(ps: seq<Packet>): set<nat>
  {
    if |ps| == 0 then {}
    else FlagSet(ps[..|ps| - 1]) + (if ps[|ps| - 1].hasTCP then {ps[|ps| - 1].flags} else {})
  }

  /** What the grouping loop holds for key `k` once it has read `c`. */
  function Accumulated(c: seq<Packet>, k: FlowKey): Flow
  {
    var ps := FlowPackets(c, k);
    Flow(ps, if |ps| == 0 then 0.0 else ps[0].time, TotalLength(ps), FlagSet(ps))
  }

  /** A flow record whose start time, byte total and flag set agree with its
      (non-empty) packet list. */
  predicate Consistent(f: Flow)
  {
    && |f.packets| > 0
    && f.startTime == f.packets[0].time
    && f.bytes == TotalLength(f.packets)
    && f.flags == FlagSet(f.packets)
  }

  // ---------------------------------------------------------------------
  // One more packet

  lemma FlowPacketsSnoc(c: seq<Packet>, p: Packet, k: FlowKey)
    ensures FlowPackets(c + [p], k) == FlowPackets(c, k) + (if InFlow(p, k) then [p] else [])
  {
    FilterSnoc(c, p, MemberOf(k));
  }

  lemma FirstSeenSnoc(c: seq<Packet>, p: Packet)
    ensures FirstSeen(c + [p]) ==
      if Eligible(p) && KeyOf(p) !in FirstSeen(c) then FirstSeen(c) + [KeyOf(p)] else FirstSeen(c)
  {
    assert (c + [p])[..|c|] == c;
  }

  lemma TotalLengthSnoc(ps: seq<Packet>, p: Packet)
    ensures TotalLength(ps + [p]) == TotalLength(ps) + p.len
  {
    assert (ps + [p])[..|ps|] == ps;
  }

  lemma FlagSetSnoc(ps: seq<Packet>, p: Packet)
    ensures FlagSet(ps + [p]) == FlagSet(ps) + (if p.hasTCP then {p.flags} else {})
  {
    assert (ps + [p])[..|ps|] == ps;
  }

  /** A flag value is in the set exactly when some TCP packet of `ps`
      carries it. */
  lemma {:induction false} FlagSetMembers(ps: seq<Packet>)
    ensures forall i :: 0 <= i < |ps| && ps[i].hasTCP ==> ps[i].flags in FlagSet(ps)
    ensures forall x :: x in FlagSet(ps) ==> exists i :: 0 <= i < |ps| && ps[i].hasTCP && ps[i].flags == x
  {
    if |ps| > 0 {
      var n := |ps| - 1;
      FlagSetMembers(ps[..n]);
      forall x | x in FlagSet(ps) ensures exists i :: 0 <= i < |ps| && ps[i].hasTCP && ps[i].flags == x {
        if x !in FlagSet(ps[..n]) {
          assert ps[n].hasTCP && ps[n].flags == x;
        } else {
          var i :| 0 <= i < n && ps[..n][i].hasTCP && ps[..n][i].flags == x;
          assert ps[i] == ps[..n][i];
        }
      }
      forall i | 0 <= i < n && ps[i].hasTCP ensures ps[i].flags in FlagSet(ps) {
        assert ps[..n][i] == ps[i];
      }
    }
  }

  // ---------------------------------------------------------------------
  // Properties of the grouping

  /** A key is listed exactly when its flow has at least one packet. */
  lemma {:induction false} FirstSeenIffPackets(c: seq<Packet>, k: FlowKey)
    ensures k in FirstSeen(c) <==> |FlowPackets(c, k)| > 0
  {
    if |c| > 0 {
      var n := |c| - 1;
      FirstSeenIffPackets(c[..n], k);
      assert c == c[..n] + [c[n]];
      FlowPacketsSnoc(c[..n], c[n], k);
      FirstSeenSnoc(c[..n], c[n]);
    }
  }

  /** The record of key `k` holds the eligible packets of the capture that
      carry `k` and nothing else, and it has a packet exactly when `k` is
      listed. A packet without an IP layer, or without a TCP or UDP layer,
      is in no record. */
  lemma AccumulatedPackets(c: seq<Packet>, k: FlowKey)
    ensures var f := Accumulated(c, k);
      && (|f.packets| > 0 <==> k in FirstSeen(c))
      && (forall i :: 0 <= i < |f.packets| ==> f.packets[i] in c && Eligible(f.packets[i]) && KeyOf(f.packets[i]) == k)
      && (forall i :: 0 <= i < |c| && Eligible(c[i]) && KeyOf(c[i]) == k ==> c[i] in f.packets)
  {
    FirstSeenIffPackets(c, k);
    FlowPacketsMembers(c, k);
  }

  /** Every listed flow holds a consistent record: at least one packet, the
      first packet's time, the sum of the lengths and the TCP flag values. */
  lemma AccumulatedIsConsistent(c: seq<Packet>, k: FlowKey)
    requires k in FirstSeen(c)
    ensures Consistent(Accumulated(c, k))
    ensures Accumulated(c, k).packets == FlowPackets(c, k)
  {
    FirstSeenIffPackets(c, k);
  }

  /** Keys are directional: when the two endpoints differ, the reverse
      direction is another key and no packet belongs to both flows. */
  lemma ReverseIsAnotherFlow(c: seq<Packet>, k: FlowKey)
    requires (k.src, k.sport) != (k.dst, k.dport)
    ensures Reverse(k) != k
    ensures forall i :: 0 <= i < |FlowPackets(c, k)| ==> FlowPackets(c, k)[i] !in FlowPackets(c, Reverse(k))
  {
    FlowPacketsMembers(c, k);
    FlowPacketsMembers(c, Reverse(k));
  }

  function Reverse(k: FlowKey): FlowKey
  {
    FlowKey(k.dst, k.src, k.dport, k.sport, k.proto)
  }

  /** Sum, over `keys`, of the number of packets in each flow. */
  function FlowSizes(c: seq<Packet>, keys: seq<FlowKey>): nat
  {
    if |keys| == 0 then 0
    else FlowSizes(c, keys[..|keys| - 1]) + |FlowPackets(c, keys[|keys| - 1])|
  }

  lemma {:induction false} FlowSizesSnoc(c: seq<Packet>, p: Packet, keys: seq<FlowKey>)
    requires Distinct(keys)
    ensures FlowSizes(c + [p], keys) ==
      FlowSizes(c, keys) + (if Eligible(p) && KeyOf(p) in keys then 1 else 0)
  {
    if |keys| > 0 {
      var m := |keys| - 1;
      assert Distinct(keys[..m]);
      FlowSizesSnoc(c, p, keys[..m]);
      FlowPacketsSnoc(c, p, keys[m]);
      assert KeyOf(p) in keys <==> KeyOf(p) in keys[..m] || KeyOf(p) == keys[m] by {
        assert keys == keys[..m] + [keys[m]];
      }
      assert KeyOf(p) in keys[..m] ==> KeyOf(p) != keys[m];
    }
  }

  /** No packet is lost or counted twice: the flows listed hold, between
      them, exactly the eligible packets of the capture. */
  lemma {:induction false} PacketConservation(c: seq<Packet>)
    ensures FlowSizes(c, FirstSeen(c)) == |Captured(c)|
  {
    if |c| > 0 {
      var n := |c| - 1;
      var init, p := c[..n], c[n];
      PacketConservation(init);
      assert c == init + [p];
      FilterSnoc(init, p, Eligible);
      var keys := FirstSeen(init);
      FlowSizesSnoc(init, p, keys);
      if Eligible(p) && KeyOf(p) !in keys {
        FirstSeenIffPackets(init, KeyOf(p));
        FlowPacketsSnoc(init, p, KeyOf(p));
        assert FirstSeen(c) == keys + [KeyOf(p)];
        assert (keys + [KeyOf(p)])[..|keys|] == keys;
      }
    }
  }

  /** Flows are listed in the order of their first packets. */
  lemma {:induction false} FirstSeenInCaptureOrder(c: seq<Packet>)
    ensures forall i, j :: 0 <= i < j < |FirstSeen(c)| ==>
      FirstIndex(c, FirstSeen(c)[i]) < FirstIndex(c, FirstSeen(c)[j])
  {
    if |c| > 0 {
      var n := |c| - 1;
      var init := c[..n];
      FirstSeenInCaptureOrder(init);
      var keys := FirstSeen(init);
      forall k | k in keys
        ensures k in FirstSeen(c) && FirstIndex(c, k) == FirstIndex(init, k) < n
      {
      }
    }
  }
}
