/**
 * Per-flow feature extraction (`extract_flow_features`): one flow's packets,
 * as tshark decodes them, become one feature record, or nothing when the flow
 * has fewer than two packets.
 *
 * Packets are typed: each field the function reads is present and already
 * converted the way the Python code converts it (`float` for the epoch time,
 * `int` for the frame length, the window size and the TLS record length).
 * Fields the code copies verbatim from the JSON (stream id, ports, addresses)
 * stay strings.  Timestamps and means are exact reals.
 */
module FlowFeatures {
  import opened Wrappers

  /** The six TCP flags the code inspects, as tshark reports them. */
  datatype TcpFlag = Fin | Syn | Reset | Push | Ack | Urg

  /** `tcp.flags_tree`: each flag's text, `"1"` when the flag is set. */
  datatype FlagsTree = FlagsTree(fin: string, syn: string, reset: string, push: string, ack: string, urg: string)

  datatype Packet = Packet(
    timeEpoch: real,              // frame.time_epoch
    frameLen: int,                // frame.len
    frameProtocols: string,       // frame.protocols, e.g. "eth:ethertype:ip:tcp"
    ipSrc: string,                // ip.src
    ipDst: string,                // ip.dst
    tcpStream: string,            // tcp.stream
    tcpSrcPort: string,           // tcp.srcport
    tcpDstPort: string,           // tcp.dstport
    windowSizeValue: int,         // tcp.window_size_value
    flags: FlagsTree,             // tcp.flags_tree
    tlsRecordLength: Option<int>) // tls.record.length when a tls layer is present

  /** The per-flag sums of `flag_counts`; RST and URG are computed but never emitted. */
  datatype FlagCounts = FlagCounts(fin: nat, syn: nat, rst: nat, psh: nat, ack: nat, urg: nat)

  /** The dictionary `extract_flow_features` returns, key by key ("Fwd Pkt Len Std" aside). */
  datatype Features = Features(
    flowId: string,        // Flow ID
    srcIp: string,         // Src IP
    srcPort: string,       // Src Port
    dstIp: string,         // Dst IP
    dstPort: string,       // Dst Port
    protocol: string,      // Protocol
    timestamp: real,       // Timestamp
    flowDuration: real,    // Flow Duration
    totFwdPkts: nat,       // Tot Fwd Pkts
    totBwdPkts: nat,       // Tot Bwd Pkts
    fwdPktLenMean: real,   // Fwd Pkt Len Mean
    finFlagCnt: nat,       // FIN Flag Cnt
    synFlagCnt: nat,       // SYN Flag Cnt
    pshFlagCnt: nat,       // PSH Flag Cnt
    ackFlagCnt: nat,       // ACK Flag Cnt
    initFwdWinByts: int,   // Init Fwd Win Byts
    tlsLength: int)        // TLS_Length

  // ---------------------------------------------------------------------------
  // Timestamps, maximum and minimum

  function Timestamps(ps: seq<Packet>): (ts: seq<real>)
    ensures |ts| == |ps|
    ensures forall i :: 0 <= i < |ps| ==> ts[i] == ps[i].timeEpoch
  {
    seq(|ps|, i requires 0 <= i < |ps| => ps[i].timeEpoch)
  }

  /** Python's `max` of a non-empty list of numbers. */
  function Max(s: seq<real>): (m: real)
    requires |s| > 0
    ensures m in s
    ensures forall i :: 0 <= i < |s| ==> s[i] <= m
  {
    if |s| == 1 then s[0]
    else
      var rest := Max(s[1..]);
      if s[0] >= rest then s[0] else rest
  }

  /** Python's `min` of a non-empty list of numbers. */
  function Min(s: seq<real>): (m: real)
    requires |s| > 0
    ensures m in s
    ensures forall i :: 0 <= i < |s| ==> m <= s[i]
  {
    if |s| == 1 then s[0]
    else
      var rest := Min(s[1..]);
      if s[0] <= rest then s[0] else rest
  }

  // ---------------------------------------------------------------------------
  // Direction: forward packets share the first packet's source address

  /** `[p for p in packets if p.ip.src == src]`. */
  function SentBy(ps: seq<Packet>, src: string): (r: seq<Packet>)
    ensures |r| <= |ps|
    ensures forall p :: p in r <==> p in ps && p.ipSrc == src
  {
    if ps == [] then []
    else (if ps[0].ipSrc == src then [ps[0]] else []) + SentBy(ps[1..], src)
  }

  /** `[p for p in packets if p.ip.src != src]`. */
  function NotSentBy(ps: seq<Packet>, src: string): (r: seq<Packet>)
    ensures |r| <= |ps|
    ensures forall p :: p in r <==> p in ps && p.ipSrc != src
  {
    if ps == [] then []
    else (if ps[0].ipSrc != src then [ps[0]] else []) + NotSentBy(ps[1..], src)
  }

  /** The forward and backward lists split the packets: every packet lands in exactly one of them. */
  lemma {:induction false} DirectionPartition(ps: seq<Packet>, src: string)
    ensures multiset(SentBy(ps, src)) + multiset(NotSentBy(ps, src)) == multiset(ps)
    ensures |SentBy(ps, src)| + |NotSentBy(ps, src)| == |ps|
  {
    if ps != [] {
      DirectionPartition(ps[1..], src);
      assert ps == [ps[0]] + ps[1..];
    }
  }

  // ---------------------------------------------------------------------------
  // Forward packet lengths and their mean

  function Lengths(ps: seq<Packet>): (ls: seq<real>)
    ensures |ls| == |ps|
    ensures forall i :: 0 <= i < |ps| ==> ls[i] == ps[i].frameLen as real
  {
    seq(|ps|, i requires 0 <= i < |ps| => ps[i].frameLen as real)
  }

  function Sum(s: seq<real>): real {
    if s == [] then 0.0 else s[0] + Sum(s[1..])
  }

  /** `np.mean` of a non-empty list, in exact arithmetic. */
  function Mean(s: seq<real>): real
    requires |s| > 0
  {
    Sum(s) / |s| as real
  }

  /** A sum of values no smaller than `m` is at least the length times `m`. */
  lemma {:induction false} SumAtLeast(s: seq<real>, m: real)
    requires forall i :: 0 <= i < |s| ==> m <= s[i]
    ensures |s| as real * m <= Sum(s)
  {
    if s != [] {
      SumAtLeast(s[1..], m);
      var k := (|s| - 1) as real;
      assert |s| as real * m == k * m + m;
    }
  }

  /** A sum of values no larger than `m` is at most the length times `m`. */
  lemma {:induction false} SumAtMost(s: seq<real>, m: real)
    requires forall i :: 0 <= i < |s| ==> s[i] <= m
    ensures Sum(s) <= |s| as real * m
  {
    if s != [] {
      SumAtMost(s[1..], m);
      var k := (|s| - 1) as real;
      assert |s| as real * m == k * m + m;
    }
  }

  /** A quotient by a positive number stays between the bounds its scaled numerator obeys. */
  lemma QuotientBounds(total: real, n: real, lo: real, hi: real)
    requires n > 0.0 && n * lo <= total <= n * hi
    ensures lo <= total / n <= hi
  {
  }

  /** The mean of values within `[lo, hi]` is within `[lo, hi]`. */
  lemma MeanWithin(s: seq<real>, lo: real, hi: real)
    requires |s| > 0
    requires forall i :: 0 <= i < |s| ==> lo <= s[i] <= hi
    ensures lo <= Mean(s) <= hi
  {
    SumAtLeast(s, lo);
    SumAtMost(s, hi);
    QuotientBounds(Sum(s), |s| as real, lo, hi);
  }

  /** Multiplying the mean by the number of values gives back their sum. */
  lemma MeanTimesCount(s: seq<real>)
    requires |s| > 0
    ensures Mean(s) * |s| as real == Sum(s)
  {
  }

  /** The mean times the number of values is their sum, and it lies between the smallest and the largest value. */
  lemma MeanBounds(s: seq<real>)
    requires |s| > 0
    ensures Mean(s) * |s| as real == Sum(s)
    ensures Min(s) <= Mean(s) <= Max(s)
  {
    MeanTimesCount(s);
    MeanWithin(s, Min(s), Max(s));
  }

  // ---------------------------------------------------------------------------
  // TCP flag counts

  /** The text tshark gives for one flag of a packet. */
  function FlagText(p: Packet, f: TcpFlag): string {
    match f
    case Fin => p.flags.fin
    case Syn => p.flags.syn
    case Reset => p.flags.reset
    case Push => p.flags.push
    case Ack => p.flags.ack
    case Urg => p.flags.urg
  }

  /** A flag counts only when its text is exactly `"1"`. */
  predicate FlagSet(p: Packet, f: TcpFlag) {
    FlagText(p, f) == "1"
  }

  /** `sum(1 for p in packets if <flag> == '1')`. */
  function FlagCount(ps: seq<Packet>, f: TcpFlag): (n: nat)
    ensures n <= |ps|
  {
    if ps == [] then 0
    else FlagCount(ps[..|ps| - 1], f) + (if FlagSet(ps[|ps| - 1], f) then 1 else 0)
  }

  /** The positions of the packets that have the flag set. */
  function FlaggedPositions(ps: seq<Packet>, f: TcpFlag): set<int> {
    set i | 0 <= i < |ps| && FlagSet(ps[i], f)
  }

  /** Appending a packet adds its position exactly when it has the flag set. */
  lemma FlaggedPositionsSnoc(front: seq<Packet>, p: Packet, f: TcpFlag)
    ensures FlaggedPositions(front + [p], f)
            == FlaggedPositions(front, f) + (if FlagSet(p, f) then {|front|} else {})
  {
    var ps := front + [p];
    forall i | 0 <= i < |front| ensures ps[i] == front[i] { }
  }

  /** Each flag count is the number of packets whose flag text is exactly "1". */
  lemma {:induction false} FlagCountIsNumberFlagged(ps: seq<Packet>, f: TcpFlag)
    ensures FlagCount(ps, f) == |FlaggedPositions(ps, f)|
  {
    if ps != [] {
      var n := |ps| - 1;
      var front := ps[..n];
      assert ps == front + [ps[n]];
      FlagCountIsNumberFlagged(front, f);
      FlaggedPositionsSnoc(front, ps[n], f);
      assert n !in FlaggedPositions(front, f);
    }
  }

  function CountFlags(ps: seq<Packet>): (c: FlagCounts)
    ensures c.fin <= |ps| && c.syn <= |ps| && c.rst <= |ps|
    ensures c.psh <= |ps| && c.ack <= |ps| && c.urg <= |ps|
  {
    FlagCounts(FlagCount(ps, Fin), FlagCount(ps, Syn), FlagCount(ps, Reset),
               FlagCount(ps, Push), FlagCount(ps, Ack), FlagCount(ps, Urg))
  }

  /** All six counts, the two that are never emitted included, count the packets with that flag text "1". */
  lemma CountFlagsCountsEachFlag(ps: seq<Packet>)
    ensures var c := CountFlags(ps);
            && c.fin == |FlaggedPositions(ps, Fin)| && c.syn == |FlaggedPositions(ps, Syn)|
            && c.rst == |FlaggedPositions(ps, Reset)| && c.psh == |FlaggedPositions(ps, Push)|
            && c.ack == |FlaggedPositions(ps, Ack)| && c.urg == |FlaggedPositions(ps, Urg)|
  {
    FlagCountIsNumberFlagged(ps, Fin);
    FlagCountIsNumberFlagged(ps, Syn);
    FlagCountIsNumberFlagged(ps, Reset);
    FlagCountIsNumberFlagged(ps, Push);
    FlagCountIsNumberFlagged(ps, Ack);
    FlagCountIsNumberFlagged(ps, Urg);
  }

  // ---------------------------------------------------------------------------
  // Protocol: the last ':'-separated segment of frame.protocols

  /** `s.split(sep)[-1]`. */
  function LastSegment(s: string, sep: char): (r: string)
    ensures |r| <= |s| && r == s[|s| - |r|..]
    ensures sep !in r
    ensures sep !in s ==> r == s
    ensures sep in s ==> |r| < |s| && s[|s| - |r| - 1] == sep
  {
    if s == [] then []
    else if s[|s| - 1] == sep then []
    else
      var front, c := s[..|s| - 1], s[|s| - 1];
      var r := LastSegment(front, sep);
      assert s == front + [c];
      assert sep in s <==> sep in front;
      assert s[|s| - |r| - 1..] == front[|front| - |r|..] + [c];
      r + [c]
  }

  // ---------------------------------------------------------------------------
  // The extractor

  /** `extract_flow_features(packets)`. */
  function ExtractFlowFeatures(ps: seq<Packet>): (r: Option<Features>)
    ensures r.None? <==> |ps| < 2
    ensures r.Some? ==> r.value.totFwdPkts + r.value.totBwdPkts == |ps| && r.value.totFwdPkts >= 1
    ensures r.Some? ==> r.value.flowDuration >= 0.0
    ensures r.Some? ==> r.value.finFlagCnt <= |ps| && r.value.synFlagCnt <= |ps|
    ensures r.Some? ==> r.value.pshFlagCnt <= |ps| && r.value.ackFlagCnt <= |ps|
  {
    if |ps| < 2 then None
    else
      var ts := Timestamps(ps);
      var src := ps[0].ipSrc;
      var fwd := SentBy(ps, src);
      var bwd := NotSentBy(ps, src);
      var fwdLens := Lengths(fwd);
      var flags := CountFlags(ps);
      DirectionPartition(ps, src);
      assert ps[0] in fwd;
      Some(Features(
        flowId := ps[0].tcpStream,
        srcIp := src,
        srcPort := ps[0].tcpSrcPort,
        dstIp := ps[0].ipDst,
        dstPort := ps[0].tcpDstPort,
        protocol := LastSegment(ps[0].frameProtocols, ':'),
        timestamp := Min(ts),
        flowDuration := Max(ts) - Min(ts),
        totFwdPkts := |fwd|,
        totBwdPkts := |bwd|,
        fwdPktLenMean := if |fwdLens| > 0 then Mean(fwdLens) else 0.0,
        finFlagCnt := flags.fin,
        synFlagCnt := flags.syn,
        pshFlagCnt := flags.psh,
        ackFlagCnt := flags.ack,
        initFwdWinByts := ps[0].windowSizeValue,
        tlsLength := ps[0].tlsRecordLength.GetOr(0)))
  }

  // ---------------------------------------------------------------------------
  // Properties of the extractor

  /** The spread of the timestamps is zero exactly when all packets share one timestamp. */
  lemma SpreadZeroIffSimultaneous(ps: seq<Packet>)
    requires |ps| >= 2
    ensures Max(Timestamps(ps)) - Min(Timestamps(ps)) == 0.0
            <==> forall i, j :: 0 <= i < |ps| && 0 <= j < |ps| ==> ps[i].timeEpoch == ps[j].timeEpoch
  {
    var ts := Timestamps(ps);
    if Max(ts) == Min(ts) {
      forall i, j | 0 <= i < |ps| && 0 <= j < |ps| ensures ps[i].timeEpoch == ps[j].timeEpoch {
        assert Min(ts) <= ts[i] <= Max(ts) && Min(ts) <= ts[j] <= Max(ts);
      }
    }
    if forall i, j :: 0 <= i < |ps| && 0 <= j < |ps| ==> ps[i].timeEpoch == ps[j].timeEpoch {
      var a :| 0 <= a < |ts| && ts[a] == Max(ts);
      var b :| 0 <= b < |ts| && ts[b] == Min(ts);
      assert ps[a].timeEpoch == ps[b].timeEpoch;
    }
  }

  /** The duration is the spread of the timestamps: zero exactly when all packets share one timestamp. */
  lemma DurationZeroIffSimultaneous(ps: seq<Packet>)
    requires |ps| >= 2
    ensures ExtractFlowFeatures(ps).value.flowDuration == 0.0
            <==> forall i, j :: 0 <= i < |ps| && 0 <= j < |ps| ==> ps[i].timeEpoch == ps[j].timeEpoch
  {
    SpreadZeroIffSimultaneous(ps);
    assert ExtractFlowFeatures(ps).value.flowDuration == Max(Timestamps(ps)) - Min(Timestamps(ps));
  }

  /** The maximum and minimum of a list depend only on which values it holds, not on their order. */
  lemma ExtremaOrderFree(s: seq<real>, t: seq<real>)
    requires |s| > 0 && multiset(s) == multiset(t)
    ensures |t| > 0 && Max(s) == Max(t) && Min(s) == Min(t)
  {
    assert |t| == |multiset(t)| == |multiset(s)| == |s|;
    forall x | x in s ensures x in t {
      assert x in multiset(s);
    }
    forall x | x in t ensures x in s {
      assert x in multiset(t);
    }
    var i :| 0 <= i < |t| && t[i] == Max(s);
    var j :| 0 <= j < |s| && s[j] == Max(t);
    var k :| 0 <= k < |t| && t[k] == Min(s);
    var l :| 0 <= l < |s| && s[l] == Min(t);
  }

  /** Reordering the packets' timestamps changes neither the duration nor the start timestamp. */
  lemma DurationOrderFree(ps: seq<Packet>, qs: seq<Packet>)
    requires |ps| >= 2 && |qs| >= 2
    requires multiset(Timestamps(ps)) == multiset(Timestamps(qs))
    ensures ExtractFlowFeatures(ps).value.flowDuration == ExtractFlowFeatures(qs).value.flowDuration
    ensures ExtractFlowFeatures(ps).value.timestamp == ExtractFlowFeatures(qs).value.timestamp
  {
    ExtremaOrderFree(Timestamps(ps), Timestamps(qs));
    TimeFields(ps);
    TimeFields(qs);
  }

  /** The two time fields, in terms of the timestamps alone. */
  lemma TimeFields(ps: seq<Packet>)
    requires |ps| >= 2
    ensures ExtractFlowFeatures(ps).value.timestamp == Min(Timestamps(ps))
    ensures ExtractFlowFeatures(ps).value.flowDuration == Max(Timestamps(ps)) - Min(Timestamps(ps))
  {
  }

  /** The fields taken from the first packet, each from its own packet field. */
  lemma FirstPacketFieldValues(ps: seq<Packet>)
    requires |ps| >= 2
    ensures var r := ExtractFlowFeatures(ps).value;
            && r.flowId == ps[0].tcpStream && r.srcIp == ps[0].ipSrc && r.srcPort == ps[0].tcpSrcPort
            && r.dstIp == ps[0].ipDst && r.dstPort == ps[0].tcpDstPort
            && r.protocol == LastSegment(ps[0].frameProtocols, ':')
            && r.initFwdWinByts == ps[0].windowSizeValue
            && r.tlsLength == ps[0].tlsRecordLength.GetOr(0)
  {
  }

  /** The earliest timestamp precedes every packet's and is some packet's. */
  lemma EarliestTimestamp(ps: seq<Packet>)
    requires |ps| >= 2
    ensures forall i :: 0 <= i < |ps| ==> Min(Timestamps(ps)) <= ps[i].timeEpoch
    ensures exists i :: 0 <= i < |ps| && Min(Timestamps(ps)) == ps[i].timeEpoch
  {
    var ts := Timestamps(ps);
    var k :| 0 <= k < |ts| && ts[k] == Min(ts);
  }

  /** The reported timestamp is the earliest packet's: no packet precedes it and some packet carries it. */
  lemma TimestampIsEarliest(ps: seq<Packet>)
    requires |ps| >= 2
    ensures forall i :: 0 <= i < |ps| ==> ExtractFlowFeatures(ps).value.timestamp <= ps[i].timeEpoch
    ensures exists i :: 0 <= i < |ps| && ExtractFlowFeatures(ps).value.timestamp == ps[i].timeEpoch
  {
    EarliestTimestamp(ps);
    assert ExtractFlowFeatures(ps).value.timestamp == Min(Timestamps(ps));
  }

  /**
   * Forward packets are exactly those sent from the first packet's source, and
   * there is always at least one of them (the first packet itself).
   */
  lemma ForwardIsFirstSource(ps: seq<Packet>)
    requires |ps| >= 2
    ensures var fwd, bwd := SentBy(ps, ps[0].ipSrc), NotSentBy(ps, ps[0].ipSrc);
            && ps[0] in fwd
            && (forall p :: p in fwd ==> p.ipSrc == ps[0].ipSrc)
            && (forall p :: p in bwd ==> p.ipSrc != ps[0].ipSrc)
            && ExtractFlowFeatures(ps).value.totFwdPkts == |fwd|
            && ExtractFlowFeatures(ps).value.totBwdPkts == |bwd|
  {
  }

  /**
   * The forward mean is the true mean of a non-empty list of forward frame
   * lengths, so it lies within the shortest and longest of them: the `else 0`
   * fallback never applies.
   */
  lemma ForwardMeanIsTrueMean(ps: seq<Packet>)
    requires |ps| >= 2
    ensures var lens := Lengths(SentBy(ps, ps[0].ipSrc));
            && |lens| > 0
            && ExtractFlowFeatures(ps).value.fwdPktLenMean == Mean(lens)
            && Min(lens) <= Mean(lens) <= Max(lens)
  {
    ForwardMeanField(ps);
    MeanBounds(Lengths(SentBy(ps, ps[0].ipSrc)));
  }

  /** The forward mean field is the mean of the forward packets' lengths. */
  lemma ForwardMeanField(ps: seq<Packet>)
    requires |ps| >= 2
    ensures var fwd := SentBy(ps, ps[0].ipSrc);
            |fwd| > 0 && ExtractFlowFeatures(ps).value.fwdPktLenMean == Mean(Lengths(fwd))
  {
    assert ps[0] in SentBy(ps, ps[0].ipSrc);
  }

  /** Each emitted flag count is the number of packets whose flag text is exactly "1". */
  lemma FlagCountsAreNumbersFlagged(ps: seq<Packet>)
    requires |ps| >= 2
    ensures var r := ExtractFlowFeatures(ps).value;
            && r.finFlagCnt == |FlaggedPositions(ps, Fin)|
            && r.synFlagCnt == |FlaggedPositions(ps, Syn)|
            && r.pshFlagCnt == |FlaggedPositions(ps, Push)|
            && r.ackFlagCnt == |FlaggedPositions(ps, Ack)|
  {
    FlagCountIsNumberFlagged(ps, Fin);
    FlagCountIsNumberFlagged(ps, Syn);
    FlagCountIsNumberFlagged(ps, Push);
    FlagCountIsNumberFlagged(ps, Ack);
  }

  /** The protocol is the last segment of the first packet's protocol stack. */
  lemma ProtocolIsLastLayer(ps: seq<Packet>)
    requires |ps| >= 2
    ensures var proto := ExtractFlowFeatures(ps).value.protocol;
            var stack := ps[0].frameProtocols;
            && ':' !in proto
            && proto == stack[|stack| - |proto|..]
            && (':' !in stack ==> proto == stack)
            && (':' in stack ==> stack[|stack| - |proto| - 1] == ':')
  {
    FirstPacketFieldValues(ps);
    assert ExtractFlowFeatures(ps).value.protocol == LastSegment(ps[0].frameProtocols, ':');
  }

  /**
   * Identity fields, the initial window and the TLS length come from the first
   * packet alone: two flows that open with the same packet agree on them.
   */
  lemma FirstPacketFields(ps: seq<Packet>, qs: seq<Packet>)
    requires |ps| >= 2 && |qs| >= 2 && ps[0] == qs[0]
    ensures var a, b := ExtractFlowFeatures(ps).value, ExtractFlowFeatures(qs).value;
            && a.flowId == b.flowId && a.srcIp == b.srcIp && a.srcPort == b.srcPort
            && a.dstIp == b.dstIp && a.dstPort == b.dstPort && a.protocol == b.protocol
            && a.initFwdWinByts == b.initFwdWinByts && a.tlsLength == b.tlsLength
  {
    FirstPacketFieldValues(ps);
    FirstPacketFieldValues(qs);
  }

  /** Without a TLS layer on the first packet the TLS length is 0. */
  lemma TlsLengthDefault(ps: seq<Packet>)
    requires |ps| >= 2
    ensures ps[0].tlsRecordLength.None? ==> ExtractFlowFeatures(ps).value.tlsLength == 0
    ensures ps[0].tlsRecordLength.Some? ==> ExtractFlowFeatures(ps).value.tlsLength == ps[0].tlsRecordLength.value
  {
    FirstPacketFieldValues(ps);
  }
}
