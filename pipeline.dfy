/**
 * How the two halves meet: the records the capture side turns into a CSV
 * (one column per record key, in key order, one row per record) are what the
 * endpoint reads back.  The header always carries every required feature, so
 * such an upload is never turned away for missing columns, and the model is
 * handed the records' values unchanged.
 */
module Pipeline {
  import Wrappers
  import PacketRecords
  import PredictApi

  /** One CSV row: the record's values in key order. */
  function Row(r: PacketRecords.Record): (row: seq<real>)
    ensures |row| == |PacketRecords.RecordKeys|
  {
    [r.srcPort as real, r.dstPort as real, r.protocol as real, r.flowDuration,
     r.totFwdPkts as real, r.totBwdPkts as real, r.pktLenMean,
     r.flowBytsPerSec as real, r.flowPktsPerSec as real, r.synFlagCnt as real,
     r.initFwdWinByts as real, r.ackFlagCnt as real, r.rstFlagCnt as real]
  }

  /** `pd.DataFrame(records)` written with `to_csv(index=False)` and read back with `read_csv`. */
  function ToFrame(records: seq<PacketRecords.Record>): (t: PredictApi.Frame)
    ensures t.columns == PacketRecords.RecordKeys
    ensures |t.rows| == |records|
    ensures forall i :: 0 <= i < |records| ==> t.rows[i] == Row(records[i])
  {
    var rows := seq(|records|, i requires 0 <= i < |records| => Row(records[i]));
    forall r | r in rows ensures |r| == |PacketRecords.RecordKeys| {
      var i :| 0 <= i < |rows| && rows[i] == r;
    }
    PredictApi.Table(PacketRecords.RecordKeys, rows)
  }

  /** A CSV row read back as a record: the integer columns are whole numbers. */
  function RecordOf(row: seq<real>): PacketRecords.Record
    requires |row| == |PacketRecords.RecordKeys|
  {
    PacketRecords.Record(
      srcPort := row[0].Floor, dstPort := row[1].Floor, protocol := row[2].Floor,
      flowDuration := row[3], totFwdPkts := row[4].Floor, totBwdPkts := row[5].Floor,
      pktLenMean := row[6], flowBytsPerSec := row[7].Floor, flowPktsPerSec := row[8].Floor,
      synFlagCnt := row[9].Floor, initFwdWinByts := row[10].Floor,
      ackFlagCnt := row[11].Floor, rstFlagCnt := row[12].Floor)
  }

  /** Writing the records as a CSV loses nothing: each row reads back as its record. */
  lemma CsvRoundTrip(records: seq<PacketRecords.Record>)
    ensures |ToFrame(records).rows| == |records|
    ensures forall i :: 0 <= i < |records| ==> RecordOf(ToFrame(records).rows[i]) == records[i]
  {
  }

  /** The capture side writes exactly the columns the endpoint requires, in the same order. */
  lemma HeaderIsRequiredFeatures()
    ensures PacketRecords.RecordKeys == PredictApi.RequiredFeatures
    ensures PredictApi.NoDuplicates(PredictApi.RequiredFeatures)
  {
  }

  /** A CSV of captured records never fails the missing-feature check. */
  lemma CapturedCsvHasAllFeatures(records: seq<PacketRecords.Record>, classes: seq<string>,
                                  classify: seq<seq<real>> -> Wrappers.Option<seq<int>>)
    ensures PredictApi.Missing(ToFrame(records).columns) == []
    ensures var v := PredictApi.Evaluate(PredictApi.File(Wrappers.Some(ToFrame(records))), classes, classify);
            v.Rejected? ==> v == PredictApi.Rejected(500, PredictApi.Internal)
  {
    HeaderIsRequiredFeatures();
    PredictApi.NothingMissingIffAllPresent(ToFrame(records).columns);
  }

  /** Selecting every column of a header without repeats, in header order, gives the rows back. */
  lemma SelectAllColumns(t: PredictApi.Frame)
    requires PredictApi.NoDuplicates(t.columns)
    ensures PredictApi.Select(t, t.columns) == t.rows
  {
    var data := PredictApi.Select(t, t.columns);
    forall i | 0 <= i < |data|
      ensures data[i] == t.rows[i]
    {
      assert t.rows[i] in t.rows;
      forall j | 0 <= j < |t.columns|
        ensures data[i][j] == t.rows[i][j]
      {
        PredictApi.IndexOfDistinct(t.columns, j);
      }
    }
  }

  /**
   * The model is fed the captured records' values, row for row and column for
   * column, and the request succeeds exactly when the model and the decoder
   * accept them, with the model's codes as the predictions.
   */
  lemma ModelSeesRecords(records: seq<PacketRecords.Record>, classes: seq<string>,
                         classify: seq<seq<real>> -> Wrappers.Option<seq<int>>)
    ensures forall n :: n in PredictApi.RequiredFeatures ==> n in ToFrame(records).columns
    ensures PredictApi.Select(ToFrame(records), PredictApi.RequiredFeatures) == ToFrame(records).rows
    ensures var v := PredictApi.Evaluate(PredictApi.File(Wrappers.Some(ToFrame(records))), classes, classify);
            var out := classify(ToFrame(records).rows);
            && (v.Labelled? <==> out.Some? && PredictApi.InverseTransform(classes, out.value).Some?)
            && (v.Labelled? ==> v.preds == out.value)
  {
    var t := ToFrame(records);
    HeaderIsRequiredFeatures();
    SelectAllColumns(t);
    PredictApi.NothingMissingIffAllPresent(t.columns);
    assert PredictApi.Missing(t.columns) == [];
    assert PredictApi.Select(t, PredictApi.RequiredFeatures) == t.rows;
    ModelFedRows(t, classes, classify);
  }

  /** For an upload with every required column, whose selection is its rows, the model decides the outcome. */
  lemma ModelFedRows(t: PredictApi.Frame, classes: seq<string>, classify: seq<seq<real>> -> Wrappers.Option<seq<int>>)
    requires PredictApi.Missing(t.columns) == []
    requires PredictApi.Select(t, PredictApi.RequiredFeatures) == t.rows
    ensures var v := PredictApi.Evaluate(PredictApi.File(Wrappers.Some(t)), classes, classify);
            var out := classify(t.rows);
            && (v.Labelled? <==> out.Some? && PredictApi.InverseTransform(classes, out.value).Some?)
            && (v.Labelled? ==> v.preds == out.value)
  {
  }
}
