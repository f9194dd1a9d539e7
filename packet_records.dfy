/**
 * Per-packet record building (`parse_json_to_csv`): every decoded tshark packet
 * that has non-empty `tcp`, `ip` and `frame` layers and whose fields convert
 * becomes one fixed 13-key record; every other packet is skipped and the loop
 * goes on.  The result tells whether any record was produced (and so whether a
 * CSV file was written).
 *
 * Reading the JSON file is abstracted to an already-decoded value (or `None`
 * when loading failed) and writing the CSV to returning the rows.  Python's
 * `float()` on a string is a parameter, `toFloat`, that yields `None` where
 * `float()` raises.
 */
module PacketRecords {
  import opened Wrappers
  import PyInt

  /** A decoded JSON value as tshark writes it: every leaf is a string. */
  datatype Json = Str(text: string) | Obj(members: map<string, Json>) | Arr(items: seq<Json>)

  /** The 13-key dictionary built for one packet, field by field in key order. */
  datatype Record = Record(
    srcPort: int,            // Src Port
    dstPort: int,            // Dst Port
    protocol: int,           // Protocol
    flowDuration: real,      // Flow Duration (microseconds)
    totFwdPkts: int,         // Tot Fwd Pkts
    totBwdPkts: int,         // Tot Bwd Pkts
    pktLenMean: real,        // Pkt Len Mean
    flowBytsPerSec: int,     // Flow Byts/s
    flowPktsPerSec: int,     // Flow Pkts/s
    synFlagCnt: int,         // SYN Flag Cnt
    initFwdWinByts: int,     // Init Fwd Win Byts
    ackFlagCnt: int,         // ACK Flag Cnt
    rstFlagCnt: int)         // RST Flag Cnt

  /** The record's keys in the order the dictionary literal lists them: the CSV header. */
  const RecordKeys: seq<string> := [
    "Src Port", "Dst Port", "Protocol", "Flow Duration",
    "Tot Fwd Pkts", "Tot Bwd Pkts", "Pkt Len Mean",
    "Flow Byts/s", "Flow Pkts/s", "SYN Flag Cnt",
    "Init Fwd Win Byts", "ACK Flag Cnt", "RST Flag Cnt"
  ]

  // ---------------------------------------------------------------------------
  // Reading one packet

  /** `v[key]`; `None` where Python raises (no such key, or `v` is not an object). */
  function Member(v: Json, key: string): Option<Json> {
    if v.Obj? && key in v.members then Some(v.members[key]) else None
  }

  /**
   * `layers.get(name, {})` followed by `if not layer: raise`: a layer is usable
   * only when it is a non-empty object.  An empty object, string or array is
   * falsy and raises; a non-empty string or array has no `.get` and raises too.
   */
  function Layer(layers: map<string, Json>, name: string): (r: Option<map<string, Json>>)
    ensures r.Some? <==> name in layers && layers[name].Obj? && |layers[name].members| > 0
  {
    if name in layers && layers[name].Obj? && |layers[name].members| > 0
    then Some(layers[name].members) else None
  }

  /** Python's truthiness of a JSON value: empty strings, objects and arrays are false. */
  predicate Truthy(v: Json) {
    match v
    case Str(t) => t != []
    case Obj(m) => m.Keys != {}
    case Arr(xs) => xs != []
  }

  /**
   * A layer is usable exactly when `layers.get(name, {})` is truthy and is an
   * object, and it is then that object's members.
   */
  lemma LayerIsTruthyObject(layers: map<string, Json>, name: string)
    ensures var v := if name in layers then layers[name] else Obj(map[]);
            && (Layer(layers, name).Some? <==> Truthy(v) && v.Obj?)
            && (Layer(layers, name).Some? ==> Layer(layers, name).value == v.members)
  {
    var v := if name in layers then layers[name] else Obj(map[]);
    if v.Obj? && v.members.Keys == {} {
      assert v.members == map[];
    }
  }

  /** `layer.get(key)`: the field's value, if present. */
  function Field(layer: map<string, Json>, key: string): Option<Json> {
    if key in layer then Some(layer[key]) else None
  }

  /** `int(layer.get(key, 0))`: an absent field is 0, a string is parsed, anything else raises. */
  function IntField(layer: map<string, Json>, key: string): Option<int> {
    if key !in layer then Some(0)
    else match layer[key]
      case Str(t) => PyInt.ParseInt(t)
      case _ => None
  }

  /** `float(layer.get(key, 0))`: an absent field is 0.0, a string goes through `toFloat`, anything else raises. */
  function FloatField(layer: map<string, Json>, key: string, toFloat: string -> Option<real>): Option<real> {
    if key !in layer then Some(0.0)
    else match layer[key]
      case Str(t) => toFloat(t)
      case _ => None
  }

  /** `pkt['_source']['layers']`, when it is an object (anything else has no `.get` and raises). */
  function LayersOf(pkt: Json): Option<map<string, Json>> {
    var source := Member(pkt, "_source");
    var layers := if source.Some? then Member(source.value, "layers") else None;
    if layers.Some? && layers.value.Obj? then Some(layers.value.members) else None
  }

  /**
   * The record for one packet, or `None` when building it raises.  A record is
   * only ever built from a packet with all three layers usable, and it carries
   * the constant placeholders.
   */
  function BuildRecord(pkt: Json, toFloat: string -> Option<real>): (r: Option<Record>)
    ensures r.Some? ==> && LayersOf(pkt).Some?
                        && Layer(LayersOf(pkt).value, "tcp").Some?
                        && Layer(LayersOf(pkt).value, "ip").Some?
                        && Layer(LayersOf(pkt).value, "frame").Some?
    ensures r.Some? ==> HasPlaceholders(r.value)
  {
    if LayersOf(pkt).None? then None
    else
      var ls := LayersOf(pkt).value;
      var tcp, ip, frame := Layer(ls, "tcp"), Layer(ls, "ip"), Layer(ls, "frame");
      if tcp.None? || ip.None? || frame.None? then None
      else
        var srcPort := IntField(tcp.value, "tcp.srcport");
        var dstPort := IntField(tcp.value, "tcp.dstport");
        var proto := IntField(ip.value, "ip.proto");
        var delta := FloatField(frame.value, "frame.time_delta_displayed", toFloat);
        var len := FloatField(frame.value, "frame.len", toFloat);
        var syn := IntField(tcp.value, "tcp.flags.syn");
        var win := IntField(tcp.value, "tcp.window_size_value");
        var ack := IntField(tcp.value, "tcp.flags.ack");
        var rst := IntField(tcp.value, "tcp.flags.reset");
        if srcPort.None? || dstPort.None? || proto.None? || delta.None? || len.None?
           || syn.None? || win.None? || ack.None? || rst.None?
        then None
        else Some(Record(
          srcPort := srcPort.value, dstPort := dstPort.value, protocol := proto.value,
          flowDuration := delta.value * 1000000.0,
          totFwdPkts := 1, totBwdPkts := 0,
          pktLenMean := len.value,
          flowBytsPerSec := 0, flowPktsPerSec := 0,
          synFlagCnt := syn.value, initFwdWinByts := win.value,
          ackFlagCnt := ack.value, rstFlagCnt := rst.value))
  }

  // ---------------------------------------------------------------------------
  // The loop over all packets

  /** The per-packet step of the loop, for a given `float()`. */
  function RecordBuilder(toFloat: string -> Option<real>): Json -> Option<Record> {
    p => BuildRecord(p, toFloat)
  }

  /**
   * The records the loop collects when `build` yields each packet's record (or
   * `None` for a packet whose processing raises): the built records, in input order.
   */
  function Accepted(pkts: seq<Json>, build: Json -> Option<Record>): (rs: seq<Record>)
    ensures |rs| <= |pkts|
  {
    if pkts == [] then []
    else
      var front := Accepted(pkts[..|pkts| - 1], build);
      match build(pkts[|pkts| - 1])
      case Some(r) => front + [r]
      case None => front
  }

  /**
   * `parse_json_to_csv`: `loaded` is the decoded JSON list (`None` when the file
   * could not be loaded); `rows` are the records the CSV would hold and `written`
   * is the function's return value.
   */
  method ParseJsonToCsv(loaded: Option<seq<Json>>, toFloat: string -> Option<real>)
    returns (rows: seq<Record>, written: bool)
    ensures loaded.None? ==> rows == [] && !written
    ensures loaded.Some? ==> rows == Accepted(loaded.value, RecordBuilder(toFloat))
    ensures written <==> rows != []
  {
    if loaded.None? {
      return [], false;
    }
    var packets := loaded.value;
    var build := RecordBuilder(toFloat);
    var records: seq<Record> := [];
    var i := 0;
    while i < |packets|
      invariant 0 <= i <= |packets|
      invariant records == Accepted(packets[..i], build)
    {
      assert packets[..i + 1][..i] == packets[..i];
      var record := build(packets[i]);
      if record.Some? {
        records := records + [record.value];
      }
      i := i + 1;
    }
    assert packets[..|packets|] == packets;
    rows := records;
    written := |records| > 0;
  }

  // ---------------------------------------------------------------------------
  // Properties of the loop: skip, never fail; keep input order

  /** Processing two batches one after the other gives the records of each, in order. */
  lemma {:induction false} AcceptedAppend(a: seq<Json>, b: seq<Json>, build: Json -> Option<Record>)
    ensures Accepted(a + b, build) == Accepted(a, build) + Accepted(b, build)
  {
    if b != [] {
      var n := |b| - 1;
      var c := a + b;
      assert c[..|c| - 1] == a + b[..n];
      assert c[|c| - 1] == b[n];
      AcceptedAppend(a, b[..n], build);
      var tail := match build(b[n]) case Some(r) => [r] case None => [];
      assert Accepted(c, build) == Accepted(a + b[..n], build) + tail;
      assert Accepted(b, build) == Accepted(b[..n], build) + tail;
    } else {
      assert a + b == a;
    }
  }

  /** A single packet contributes its record, or nothing. */
  lemma AcceptedSingle(p: Json, build: Json -> Option<Record>)
    ensures Accepted([p], build) == match build(p) case Some(r) => [r] case None => []
  {
    assert [p][..0] == [];
  }

  /** A packet that builds no record can be removed without changing any other record. */
  lemma SkippedPacketLeavesNoTrace(pkts: seq<Json>, i: nat, build: Json -> Option<Record>)
    requires i < |pkts| && build(pkts[i]).None?
    ensures Accepted(pkts, build) == Accepted(pkts[..i] + pkts[i + 1..], build)
  {
    var pre, p, post := pkts[..i], pkts[i], pkts[i + 1..];
    assert pkts == (pre + [p]) + post;
    calc {
      Accepted(pkts, build);
      { AcceptedAppend(pre + [p], post, build); }
      Accepted(pre + [p], build) + Accepted(post, build);
      { AcceptedAppend(pre, [p], build); AcceptedSingle(p, build); }
      Accepted(pre, build) + Accepted(post, build);
      { AcceptedAppend(pre, post, build); }
      Accepted(pre + post, build);
    }
  }

  /** A packet that builds a record contributes exactly that record, at its place in the output. */
  lemma AcceptedPacketKeepsItsPlace(pkts: seq<Json>, i: nat, build: Json -> Option<Record>)
    requires i < |pkts| && build(pkts[i]).Some?
    ensures Accepted(pkts, build)
            == Accepted(pkts[..i], build) + [build(pkts[i]).value] + Accepted(pkts[i + 1..], build)
  {
    var pre, p, post := pkts[..i], pkts[i], pkts[i + 1..];
    assert pkts == (pre + [p]) + post;
    calc {
      Accepted(pkts, build);
      { AcceptedAppend(pre + [p], post, build); }
      Accepted(pre + [p], build) + Accepted(post, build);
      { AcceptedAppend(pre, [p], build); AcceptedSingle(p, build); }
      Accepted(pre, build) + [build(p).value] + Accepted(post, build);
    }
  }

  /** The positions of the packets that build a record. */
  function AcceptedPositions(pkts: seq<Json>, build: Json -> Option<Record>): set<int> {
    set i | 0 <= i < |pkts| && build(pkts[i]).Some?
  }

  lemma AcceptedPositionsSnoc(front: seq<Json>, p: Json, build: Json -> Option<Record>)
    ensures AcceptedPositions(front + [p], build)
            == AcceptedPositions(front, build) + (if build(p).Some? then {|front|} else {})
  {
    var ps := front + [p];
    forall i | 0 <= i < |front| ensures ps[i] == front[i] { }
  }

  /** There is exactly one record per packet that builds one. */
  lemma {:induction false} OneRecordPerAcceptedPacket(pkts: seq<Json>, build: Json -> Option<Record>)
    ensures |Accepted(pkts, build)| == |AcceptedPositions(pkts, build)|
  {
    if pkts != [] {
      var n := |pkts| - 1;
      var front := pkts[..n];
      assert pkts == front + [pkts[n]];
      OneRecordPerAcceptedPacket(front, build);
      AcceptedPositionsSnoc(front, pkts[n], build);
      assert n !in AcceptedPositions(front, build);
    }
  }

  // ---------------------------------------------------------------------------
  // Properties of one packet's record

  /** The dictionary literal's constant placeholders. */
  predicate HasPlaceholders(r: Record) {
    r.totFwdPkts == 1 && r.totBwdPkts == 0 && r.flowBytsPerSec == 0 && r.flowPktsPerSec == 0
  }

  /** Every record the loop produces carries the constant placeholders. */
  lemma {:induction false} PlaceholdersAreConstant(pkts: seq<Json>, toFloat: string -> Option<real>)
    ensures forall r :: r in Accepted(pkts, RecordBuilder(toFloat)) ==> HasPlaceholders(r)
  {
    if pkts != [] {
      var n := |pkts| - 1;
      PlaceholdersAreConstant(pkts[..n], toFloat);
    }
  }

  /** A packet without usable `tcp`, `ip` or `frame` layers builds no record. */
  lemma MissingLayerRejected(pkt: Json, toFloat: string -> Option<real>)
    requires LayersOf(pkt).None?
             || Layer(LayersOf(pkt).value, "tcp").None?
             || Layer(LayersOf(pkt).value, "ip").None?
             || Layer(LayersOf(pkt).value, "frame").None?
    ensures BuildRecord(pkt, toFloat).None?
  {
  }

  /** `parse_json_to_csv` skips a packet without usable layers and keeps every other packet's record, in order. */
  lemma MissingLayerPacketSkipped(pkts: seq<Json>, i: nat, toFloat: string -> Option<real>)
    requires i < |pkts|
    requires LayersOf(pkts[i]).None?
             || Layer(LayersOf(pkts[i]).value, "tcp").None?
             || Layer(LayersOf(pkts[i]).value, "ip").None?
             || Layer(LayersOf(pkts[i]).value, "frame").None?
    ensures Accepted(pkts, RecordBuilder(toFloat)) == Accepted(pkts[..i] + pkts[i + 1..], RecordBuilder(toFloat))
  {
    MissingLayerRejected(pkts[i], toFloat);
    SkippedPacketLeavesNoTrace(pkts, i, RecordBuilder(toFloat));
  }

  /** The integer-valued fields read from the `tcp` layer. */
  const TcpIntKeys: set<string> := {"tcp.srcport", "tcp.dstport", "tcp.flags.syn",
                                     "tcp.window_size_value", "tcp.flags.ack", "tcp.flags.reset"}

  /** The real-valued fields read from the `frame` layer. */
  const FrameFloatKeys: set<string> := {"frame.time_delta_displayed", "frame.len"}

  /**
   * The conversion of field `key` raises in the layer the record reads it from:
   * `int()` for the `tcp` fields and `ip.proto`, `float()` for the `frame` fields.
   */
  predicate ConversionFails(ls: map<string, Json>, key: string, toFloat: string -> Option<real>) {
    || (key in TcpIntKeys && Layer(ls, "tcp").Some? && IntField(Layer(ls, "tcp").value, key).None?)
    || (key == "ip.proto" && Layer(ls, "ip").Some? && IntField(Layer(ls, "ip").value, key).None?)
    || (key in FrameFloatKeys && Layer(ls, "frame").Some?
        && FloatField(Layer(ls, "frame").value, key, toFloat).None?)
  }

  /** A packet one of whose nine numeric fields fails to convert builds no record. */
  lemma UnconvertibleFieldRejected(pkt: Json, toFloat: string -> Option<real>, key: string)
    requires LayersOf(pkt).Some? && ConversionFails(LayersOf(pkt).value, key, toFloat)
    ensures BuildRecord(pkt, toFloat).None?
  {
  }

  /**
   * `parse_json_to_csv` skips a packet one of whose numeric fields fails to
   * convert and keeps every other packet's record, in order.
   */
  lemma UnconvertiblePacketSkipped(pkts: seq<Json>, i: nat, toFloat: string -> Option<real>, key: string)
    requires i < |pkts|
    requires LayersOf(pkts[i]).Some? && ConversionFails(LayersOf(pkts[i]).value, key, toFloat)
    ensures Accepted(pkts, RecordBuilder(toFloat)) == Accepted(pkts[..i] + pkts[i + 1..], RecordBuilder(toFloat))
  {
    UnconvertibleFieldRejected(pkts[i], toFloat, key);
    SkippedPacketLeavesNoTrace(pkts, i, RecordBuilder(toFloat));
  }

  /** Every numeric field the record reads. */
  const NumericKeys: set<string> := TcpIntKeys + {"ip.proto"} + FrameFloatKeys

  /**
   * A packet builds a record exactly when its `tcp`, `ip` and `frame` layers
   * are usable and none of the nine conversions raises.
   */
  lemma BuildRecordAcceptsExactly(pkt: Json, toFloat: string -> Option<real>)
    ensures BuildRecord(pkt, toFloat).Some? <==>
              && LayersOf(pkt).Some?
              && Layer(LayersOf(pkt).value, "tcp").Some?
              && Layer(LayersOf(pkt).value, "ip").Some?
              && Layer(LayersOf(pkt).value, "frame").Some?
              && forall key :: !ConversionFails(LayersOf(pkt).value, key, toFloat)
  {
    if BuildRecord(pkt, toFloat).Some? {
      forall key ensures !ConversionFails(LayersOf(pkt).value, key, toFloat) {
        if ConversionFails(LayersOf(pkt).value, key, toFloat) {
          UnconvertibleFieldRejected(pkt, toFloat, key);
        }
      }
    } else if LayersOf(pkt).Some? {
      var ls := LayersOf(pkt).value;
      if Layer(ls, "tcp").Some? && Layer(ls, "ip").Some? && Layer(ls, "frame").Some? {
        var k :| k in NumericKeys && ConversionFails(ls, k, toFloat) by {
          FailingKey(pkt, toFloat);
        }
      }
    }
  }

  /** A packet with usable layers that builds no record has a field whose conversion raises. */
  lemma FailingKey(pkt: Json, toFloat: string -> Option<real>)
    requires BuildRecord(pkt, toFloat).None? && LayersOf(pkt).Some?
    requires var ls := LayersOf(pkt).value;
             Layer(ls, "tcp").Some? && Layer(ls, "ip").Some? && Layer(ls, "frame").Some?
    ensures exists k :: k in NumericKeys && ConversionFails(LayersOf(pkt).value, k, toFloat)
  {
    var ls := LayersOf(pkt).value;
    var tcp, ip, frame := Layer(ls, "tcp").value, Layer(ls, "ip").value, Layer(ls, "frame").value;
    if IntField(tcp, "tcp.srcport").None? {
      assert ConversionFails(ls, "tcp.srcport", toFloat);
    } else if IntField(tcp, "tcp.dstport").None? {
      assert ConversionFails(ls, "tcp.dstport", toFloat);
    } else if IntField(ip, "ip.proto").None? {
      assert ConversionFails(ls, "ip.proto", toFloat);
    } else if FloatField(frame, "frame.time_delta_displayed", toFloat).None? {
      assert ConversionFails(ls, "frame.time_delta_displayed", toFloat);
    } else if FloatField(frame, "frame.len", toFloat).None? {
      assert ConversionFails(ls, "frame.len", toFloat);
    } else if IntField(tcp, "tcp.flags.syn").None? {
      assert ConversionFails(ls, "tcp.flags.syn", toFloat);
    } else if IntField(tcp, "tcp.window_size_value").None? {
      assert ConversionFails(ls, "tcp.window_size_value", toFloat);
    } else if IntField(tcp, "tcp.flags.ack").None? {
      assert ConversionFails(ls, "tcp.flags.ack", toFloat);
    } else {
      assert ConversionFails(ls, "tcp.flags.reset", toFloat);
    }
  }

  /** Each field of a built record holds its own key's conversion; the duration is in microseconds. */
  lemma BuildRecordFields(pkt: Json, toFloat: string -> Option<real>)
    ensures BuildRecord(pkt, toFloat).Some? ==>
              var ls := LayersOf(pkt).value;
              var tcp, ip, frame := Layer(ls, "tcp").value, Layer(ls, "ip").value, Layer(ls, "frame").value;
              var r := BuildRecord(pkt, toFloat).value;
              && IntField(tcp, "tcp.srcport") == Some(r.srcPort)
              && IntField(tcp, "tcp.dstport") == Some(r.dstPort)
              && IntField(ip, "ip.proto") == Some(r.protocol)
              && FloatField(frame, "frame.time_delta_displayed", toFloat) == Some(r.flowDuration / 1000000.0)
              && FloatField(frame, "frame.len", toFloat) == Some(r.pktLenMean)
              && IntField(tcp, "tcp.flags.syn") == Some(r.synFlagCnt)
              && IntField(tcp, "tcp.window_size_value") == Some(r.initFwdWinByts)
              && IntField(tcp, "tcp.flags.ack") == Some(r.ackFlagCnt)
              && IntField(tcp, "tcp.flags.reset") == Some(r.rstFlagCnt)
  {
  }

  /** `layer.get(key, 0)` of an absent key converts to 0. */
  lemma AbsentFieldDefaults(layer: map<string, Json>, key: string, toFloat: string -> Option<real>)
    ensures key !in layer ==> IntField(layer, key) == Some(0) && FloatField(layer, key, toFloat) == Some(0.0)
  {
  }

  /**
   * With usable layers and none of the numeric fields present, the packet
   * builds the record whose every field is 0 (placeholders aside).
   */
  lemma AbsentFieldsAreZero(pkt: Json, toFloat: string -> Option<real>)
    requires LayersOf(pkt).Some?
    requires var ls := LayersOf(pkt).value;
             && Layer(ls, "tcp").Some? && Layer(ls, "ip").Some? && Layer(ls, "frame").Some?
             && Layer(ls, "tcp").value.Keys !! TcpIntKeys
             && "ip.proto" !in Layer(ls, "ip").value
             && Layer(ls, "frame").value.Keys !! FrameFloatKeys
    ensures BuildRecord(pkt, toFloat) == Some(Record(0, 0, 0, 0.0, 1, 0, 0.0, 0, 0, 0, 0, 0, 0))
  {
  }

  /** `int(layer.get(key, 0))` reads back an integer written as its decimal text. */
  lemma IntFieldReadsDecimal(layer: map<string, Json>, key: string, n: int)
    requires Field(layer, key) == Some(Str(PyInt.IntToString(n)))
    ensures IntField(layer, key) == Some(n)
  {
    PyInt.ParseIntRoundTrip(n);
  }

  /** A record's source port is the integer whose decimal text the packet's `tcp.srcport` holds. */
  lemma SourcePortReadBack(pkt: Json, toFloat: string -> Option<real>, port: int)
    requires LayersOf(pkt).Some?
    requires var ls := LayersOf(pkt).value;
             && Layer(ls, "tcp").Some?
             && Field(Layer(ls, "tcp").value, "tcp.srcport") == Some(Str(PyInt.IntToString(port)))
    ensures BuildRecord(pkt, toFloat).Some? ==> BuildRecord(pkt, toFloat).value.srcPort == port
  {
    IntFieldReadsDecimal(Layer(LayersOf(pkt).value, "tcp").value, "tcp.srcport", port);
  }
}
