/**
 * The `/predict` endpoint of the classification service: it checks an uploaded
 * feature table for the required columns, has an external model classify the
 * rows, decodes the predicted codes into labels, counts them per label, alerts
 * on attack labels and answers with one result per row.  Across requests it
 * keeps the metrics counters (requests, successes, errors, per-label counts).
 *
 * The model is a parameter (`classify`, `None` when it raises); the label
 * decoder is the fitted encoder's class list (`classes`).  The e-mail alert is
 * an outbox of the attack-label lists it would send.
 */
module PredictApi {
  import opened Wrappers

  /** The columns the model is fed, in this order. */
  const RequiredFeatures: seq<string> := [
    "Src Port", "Dst Port", "Protocol", "Flow Duration",
    "Tot Fwd Pkts", "Tot Bwd Pkts", "Pkt Len Mean",
    "Flow Byts/s", "Flow Pkts/s", "SYN Flag Cnt",
    "Init Fwd Win Byts", "ACK Flag Cnt", "RST Flag Cnt"
  ]

  /** The labels that raise an alert. */
  const AttackCategories: seq<string> := ["DoS", "Web Attack", "Brute Force", "U2R"]

  /** An uploaded CSV as `pd.read_csv` gives it: a header and rows of numbers. */
  datatype Table = Table(columns: seq<string>, rows: seq<seq<real>>)

  /** `read_csv` always yields one cell per column in every row. */
  type Frame = t: Table | forall r :: r in t.rows ==> |r| == |t.columns| witness Table([], [])

  /** The request: no `file` part, or a file whose parse succeeded (`Some`) or raised (`None`). */
  datatype Upload = NoFile | File(frame: Option<Frame>)

  datatype ErrorKind = NoFileUploaded | MissingFeatures(features: seq<string>) | Internal

  /** One entry of `results`: the code and its decoded label. */
  datatype PredictionResult = PredictionResult(prediction: int, name: string)

  /** The JSON answer: `{error}` with an HTTP status, or `{results, status: 'success'}` (HTTP 200). */
  datatype Response = Failure(status: nat, error: ErrorKind) | Success(results: seq<PredictionResult>)

  // ---------------------------------------------------------------------------
  // Sequence helpers

  /** `a` is `b` with some elements left out, the rest in the same order. */
  predicate IsSubsequence(a: seq<string>, b: seq<string>)
    decreases |b|
  {
    if a == [] then true
    else if b == [] then false
    else if a[0] == b[0] then IsSubsequence(a[1..], b[1..])
    else IsSubsequence(a, b[1..])
  }

  /** How many times `x` occurs in `s`. */
  function Occurrences(s: seq<string>, x: string): nat {
    multiset(s)[x]
  }

  predicate NoDuplicates(s: seq<string>) {
    forall i, j :: 0 <= i < j < |s| ==> s[i] != s[j]
  }

  /** A metric's value: a labelled counter that was never touched reads 0. */
  function Get(counts: map<string, nat>, name: string): nat {
    if name in counts then counts[name] else 0
  }

  // ---------------------------------------------------------------------------
  // The missing-feature check

  /** `[f for f in features if f not in columns]`. */
  function Absent(features: seq<string>, columns: seq<string>): (r: seq<string>)
    ensures forall f :: f in r <==> f in features && f !in columns
    ensures IsSubsequence(r, features)
  {
    if features == [] then []
    else if features[0] in columns then Absent(features[1..], columns)
    else [features[0]] + Absent(features[1..], columns)
  }

  /** Each absent feature is reported as many times as it is listed, and a present one never. */
  lemma {:induction false} AbsentOccurrences(features: seq<string>, columns: seq<string>, f: string)
    ensures Occurrences(Absent(features, columns), f) == if f in columns then 0 else Occurrences(features, f)
  {
    if features != [] {
      assert features == [features[0]] + features[1..];
      AbsentOccurrences(features[1..], columns, f);
    }
  }

  /** `missing`: the required features the upload lacks, in `RequiredFeatures` order. */
  function Missing(columns: seq<string>): (missing: seq<string>)
    ensures forall f :: f in missing <==> f in RequiredFeatures && f !in columns
    ensures IsSubsequence(missing, RequiredFeatures)
  {
    Absent(RequiredFeatures, columns)
  }

  /** Nothing is missing exactly when every listed feature is among the columns. */
  lemma NothingAbsentIffAllPresent(features: seq<string>, columns: seq<string>)
    ensures Absent(features, columns) == [] <==> forall f :: f in features ==> f in columns
  {
    var r := Absent(features, columns);
    if r != [] {
      assert r[0] in features && r[0] !in columns;
    }
  }

  /** The upload passes the missing-feature check exactly when it has every required column. */
  lemma NothingMissingIffAllPresent(columns: seq<string>)
    ensures Missing(columns) == [] <==> forall f :: f in RequiredFeatures ==> f in columns
  {
    NothingAbsentIffAllPresent(RequiredFeatures, columns);
  }

  // ---------------------------------------------------------------------------
  // Column selection, classification and decoding

  /** The position of the first column with this name. */
  function IndexOf(columns: seq<string>, name: string): (k: nat)
    requires name in columns
    ensures k < |columns| && columns[k] == name
    ensures forall j :: 0 <= j < k ==> columns[j] != name
  {
    if columns[0] == name then 0 else 1 + IndexOf(columns[1..], name)
  }

  /** In a header without repeats, each name's first position is its only one. */
  lemma {:induction false} IndexOfDistinct(columns: seq<string>, j: nat)
    requires NoDuplicates(columns)
    requires j < |columns|
    ensures IndexOf(columns, columns[j]) == j
  {
    if j > 0 {
      assert columns[0] != columns[j];
      assert columns[1..][j - 1] == columns[j];
      IndexOfDistinct(columns[1..], j - 1);
    }
  }

  /** `df[names]`: every row, reduced to the named columns in the order given. */
  function Select(t: Frame, names: seq<string>): (data: seq<seq<real>>)
    requires forall n :: n in names ==> n in t.columns
    ensures |data| == |t.rows|
    ensures forall i :: 0 <= i < |data| ==> |data[i]| == |names|
    ensures forall i, j :: 0 <= i < |data| && 0 <= j < |names| ==>
              data[i][j] == t.rows[i][IndexOf(t.columns, names[j])]
  {
    seq(|t.rows|, i requires 0 <= i < |t.rows| =>
      assert t.rows[i] in t.rows;
      seq(|names|, j requires 0 <= j < |names| => t.rows[i][IndexOf(t.columns, names[j])]))
  }

  /**
   * In a header without repeats, cell `j` of a selected row is the row's value
   * in the one column named `names[j]`.
   */
  lemma SelectByColumnName(t: Frame, names: seq<string>)
    requires forall n :: n in names ==> n in t.columns
    requires NoDuplicates(t.columns)
    ensures forall i, j, k :: 0 <= i < |t.rows| && 0 <= j < |names| && 0 <= k < |t.columns| && t.columns[k] == names[j]
              ==> |t.rows[i]| == |t.columns| && Select(t, names)[i][j] == t.rows[i][k]
  {
    forall i, j, k | 0 <= i < |t.rows| && 0 <= j < |names| && 0 <= k < |t.columns| && t.columns[k] == names[j]
      ensures |t.rows[i]| == |t.columns| && Select(t, names)[i][j] == t.rows[i][k]
    {
      assert t.rows[i] in t.rows;
      IndexOfDistinct(t.columns, k);
    }
  }

  /**
   * `label_encoder.inverse_transform(codes)`: code `k` decodes to `classes[k]`;
   * any code outside `[0, |classes|)` makes the whole call raise.
   */
  function InverseTransform(classes: seq<string>, codes: seq<int>): (r: Option<seq<string>>)
    ensures r.Some? <==> forall i :: 0 <= i < |codes| ==> 0 <= codes[i] < |classes|
    ensures r.Some? ==> |r.value| == |codes|
    ensures r.Some? ==> forall i :: 0 <= i < |codes| ==> r.value[i] == classes[codes[i]]
  {
    if forall i :: 0 <= i < |codes| ==> 0 <= codes[i] < |classes| then
      Some(seq(|codes|, i requires 0 <= i < |codes| => classes[codes[i]]))
    else None
  }

  /**
   * `label_encoder.transform(labels)`, the direction the encoder was fitted in:
   * each label becomes its position in `classes`; an unknown label makes the call raise.
   */
  function Transform(classes: seq<string>, labels: seq<string>): (r: Option<seq<int>>)
    ensures r.Some? <==> forall i :: 0 <= i < |labels| ==> labels[i] in classes
    ensures r.Some? ==> |r.value| == |labels|
    ensures r.Some? ==> forall i :: 0 <= i < |labels| ==> 0 <= r.value[i] < |classes| && classes[r.value[i]] == labels[i]
  {
    if forall i :: 0 <= i < |labels| ==> labels[i] in classes then
      Some(seq(|labels|, i requires 0 <= i < |labels| => IndexOf(classes, labels[i]) as int))
    else None
  }

  /** Encoding the decoded labels gives the codes back, for a class list without repeats (as a fitted encoder's is). */
  lemma DecodeThenEncode(classes: seq<string>, codes: seq<int>)
    requires NoDuplicates(classes)
    ensures InverseTransform(classes, codes).Some? ==> Transform(classes, InverseTransform(classes, codes).value) == Some(codes)
  {
    var d := InverseTransform(classes, codes);
    if d.Some? {
      var e := Transform(classes, d.value);
      assert e.Some? by {
        forall i | 0 <= i < |d.value| ensures d.value[i] in classes {
          assert d.value[i] == classes[codes[i]];
        }
      }
      forall i | 0 <= i < |codes| ensures e.value[i] == codes[i] {
        assert classes[e.value[i]] == classes[codes[i]];
      }
      assert e.value == codes;
    }
  }

  /** Decoding the encoded labels gives the labels back. */
  lemma EncodeThenDecode(classes: seq<string>, labels: seq<string>)
    ensures Transform(classes, labels).Some? ==> InverseTransform(classes, Transform(classes, labels).value) == Some(labels)
  {
    var e := Transform(classes, labels);
    if e.Some? {
      var d := InverseTransform(classes, e.value);
      assert d.Some?;
      assert d.value == labels;
    }
  }

  // ---------------------------------------------------------------------------
  // Attack filter and results

  predicate IsAttack(name: string) {
    name in AttackCategories
  }

  /** `attack_labels`: the decoded labels that are attack categories, in order and with repeats. */
  function AttackLabels(labels: seq<string>): (attacks: seq<string>)
    ensures forall l :: l in attacks <==> l in labels && IsAttack(l)
    ensures IsSubsequence(attacks, labels)
    ensures forall l :: Occurrences(attacks, l) == if IsAttack(l) then Occurrences(labels, l) else 0
  {
    if labels == [] then []
    else
      assert labels == [labels[0]] + labels[1..];
      var rest := AttackLabels(labels[1..]);
      if IsAttack(labels[0]) then [labels[0]] + rest else rest
  }

  /** `zip(preds, decoded_labels)`, one result per pair. */
  function Results(preds: seq<int>, labels: seq<string>): (rs: seq<PredictionResult>)
    requires |preds| == |labels|
    ensures |rs| == |preds|
    ensures forall i :: 0 <= i < |rs| ==> rs[i].prediction == preds[i] && rs[i].name == labels[i]
  {
    seq(|preds|, i requires 0 <= i < |preds| => PredictionResult(preds[i], labels[i]))
  }

  /** The `prediction` field of each result. */
  function Predictions(rs: seq<PredictionResult>): (ps: seq<int>)
    ensures |ps| == |rs|
  {
    seq(|rs|, i requires 0 <= i < |rs| => rs[i].prediction)
  }

  /** The `label` field of each result. */
  function Names(rs: seq<PredictionResult>): (ns: seq<string>)
    ensures |ns| == |rs|
  {
    seq(|rs|, i requires 0 <= i < |rs| => rs[i].name)
  }

  /** The results are exactly the zipped pairs: unzipping gives back both lists, and zipping the halves gives back the results. */
  lemma ResultsUnzip(preds: seq<int>, labels: seq<string>, rs: seq<PredictionResult>)
    requires |preds| == |labels|
    ensures Predictions(Results(preds, labels)) == preds && Names(Results(preds, labels)) == labels
    ensures Results(Predictions(rs), Names(rs)) == rs
  {
  }

  // ---------------------------------------------------------------------------
  // Per-label counting: `Counter(decoded_labels)` and its increments

  /** One item of `Counter(...).items()`. */
  datatype LabelCount = LabelCount(name: string, count: nat)

  /** The distinct labels, in order of first occurrence (the key order of `Counter`). */
  function Distinct(s: seq<string>): (d: seq<string>)
    ensures forall x :: x in d <==> x in s
    ensures NoDuplicates(d)
  {
    if s == [] then []
    else
      var front := Distinct(s[..|s| - 1]);
      assert forall x :: x in s <==> x in s[..|s| - 1] || x == s[|s| - 1] by {
        assert s == s[..|s| - 1] + [s[|s| - 1]];
      }
      if s[|s| - 1] in front then front else front + [s[|s| - 1]]
  }

  /** Each label of `d` with its number of occurrences in `s`. */
  function Pairs(d: seq<string>, s: seq<string>): (t: seq<LabelCount>)
    ensures |t| == |d|
    ensures forall i :: 0 <= i < |d| ==> t[i] == LabelCount(d[i], Occurrences(s, d[i]))
  {
    seq(|d|, i requires 0 <= i < |d| => LabelCount(d[i], Occurrences(s, d[i])))
  }

  /** `Counter(labels).items()`. */
  function Tally(labels: seq<string>): (t: seq<LabelCount>)
    ensures forall i :: 0 <= i < |t| ==> t[i].name in labels && t[i].count == Occurrences(labels, t[i].name)
    ensures forall l :: l in labels ==> exists i :: 0 <= i < |t| && t[i].name == l
  {
    var d := Distinct(labels);
    var t := Pairs(d, labels);
    assert forall l :: l in labels ==> exists i :: 0 <= i < |t| && t[i].name == l by {
      forall l | l in labels ensures exists i :: 0 <= i < |t| && t[i].name == l {
        var i :| 0 <= i < |d| && d[i] == l;
        assert t[i].name == l;
      }
    }
    t
  }

  /** The sum of all counts of a tally. */
  function Total(t: seq<LabelCount>): nat {
    if t == [] then 0 else Total(t[..|t| - 1]) + t[|t| - 1].count
  }

  /** The sum of the counts a tally holds for one label. */
  function LabelTotal(t: seq<LabelCount>, l: string): nat {
    if t == [] then 0
    else LabelTotal(t[..|t| - 1], l) + (if t[|t| - 1].name == l then t[|t| - 1].count else 0)
  }

  /** The label counters after `labels(label=l).inc(count)` for each entry in turn. */
  function Bumped(counts: map<string, nat>, t: seq<LabelCount>): map<string, nat> {
    if t == [] then counts
    else
      var before := Bumped(counts, t[..|t| - 1]);
      var e := t[|t| - 1];
      before[e.name := Get(before, e.name) + e.count]
  }

  /** Incrementing adds each entry's count to its own label and touches no other counter. */
  lemma {:induction false} BumpedGet(counts: map<string, nat>, t: seq<LabelCount>, l: string)
    ensures Get(Bumped(counts, t), l) == Get(counts, l) + LabelTotal(t, l)
  {
    if t != [] {
      BumpedGet(counts, t[..|t| - 1], l);
    }
  }

  /** Incrementing creates a counter for each label that had none, and no other. */
  lemma {:induction false} BumpedKeys(counts: map<string, nat>, t: seq<LabelCount>)
    ensures Bumped(counts, t).Keys == counts.Keys + set i | 0 <= i < |t| :: t[i].name
  {
    if t != [] {
      var n := |t| - 1;
      BumpedKeys(counts, t[..n]);
      assert (set i | 0 <= i < |t| :: t[i].name) == (set i | 0 <= i < n :: t[..n][i].name) + {t[n].name} by {
        forall i | 0 <= i < n ensures t[..n][i] == t[i] { }
      }
    }
  }

  /** A list of distinct labels pairs each of its labels with exactly one count. */
  lemma {:induction false} LabelTotalOfPairs(d: seq<string>, s: seq<string>, l: string)
    requires NoDuplicates(d)
    ensures LabelTotal(Pairs(d, s), l) == if l in d then Occurrences(s, l) else 0
  {
    if d != [] {
      var n := |d| - 1;
      assert Pairs(d, s)[..n] == Pairs(d[..n], s);
      assert d == d[..n] + [d[n]];
      LabelTotalOfPairs(d[..n], s, l);
    }
  }

  /** Each label's total in the tally is its number of occurrences. */
  lemma TallyCountsEachLabel(labels: seq<string>, l: string)
    ensures LabelTotal(Tally(labels), l) == Occurrences(labels, l)
  {
    LabelTotalOfPairs(Distinct(labels), labels, l);
  }

  /** With no labels seen yet every count of a tally is 0. */
  lemma {:induction false} TotalOfNothing(d: seq<string>)
    ensures Total(Pairs(d, [])) == 0
  {
    if d != [] {
      var n := |d| - 1;
      assert Pairs(d, [])[..n] == Pairs(d[..n], []);
      TotalOfNothing(d[..n]);
    }
  }

  /** One more label adds 1 to the total over distinct labels, when the new label is among them. */
  lemma {:induction false} TotalSnoc(d: seq<string>, s: seq<string>, e: string)
    requires NoDuplicates(d)
    ensures Total(Pairs(d, s + [e])) == Total(Pairs(d, s)) + (if e in d then 1 else 0)
  {
    if d != [] {
      var n := |d| - 1;
      assert Pairs(d, s + [e])[..n] == Pairs(d[..n], s + [e]);
      assert Pairs(d, s)[..n] == Pairs(d[..n], s);
      assert multiset(s + [e]) == multiset(s) + multiset{e};
      assert d == d[..n] + [d[n]];
      TotalSnoc(d[..n], s, e);
    }
  }

  /** Over distinct labels that cover `s`, the counts add up to the length of `s`. */
  lemma {:induction false} TotalCovers(d: seq<string>, s: seq<string>)
    requires NoDuplicates(d)
    requires forall x :: x in s ==> x in d
    ensures Total(Pairs(d, s)) == |s|
  {
    if s == [] {
      TotalOfNothing(d);
    } else {
      var n := |s| - 1;
      assert s == s[..n] + [s[n]];
      TotalCovers(d, s[..n]);
      TotalSnoc(d, s[..n], s[n]);
    }
  }

  /** The per-label counts of a batch add up to the number of labels in it. */
  lemma TallyTotal(labels: seq<string>)
    ensures Total(Tally(labels)) == |labels|
  {
    TotalCovers(Distinct(labels), labels);
  }

  /** After counting a batch, every label's counter has grown by its occurrences in the batch. */
  lemma CountersGrowByOccurrences(counts: map<string, nat>, labels: seq<string>, l: string)
    ensures Get(Bumped(counts, Tally(labels)), l) == Get(counts, l) + Occurrences(labels, l)
  {
    BumpedGet(counts, Tally(labels), l);
    TallyCountsEachLabel(labels, l);
  }

  /** Counting labels that are all known creates no counter beyond the preloaded ones. */
  lemma CountingKeepsKnownLabels(counts: map<string, nat>, labels: seq<string>, classes: seq<string>)
    requires counts.Keys == set l | l in classes
    requires forall l :: l in labels ==> l in classes
    ensures Bumped(counts, Tally(labels)).Keys == counts.Keys
  {
    var t := Tally(labels);
    BumpedKeys(counts, t);
    assert forall i :: 0 <= i < |t| ==> t[i].name in counts.Keys;
  }

  /** The loop `for label, count in label_counts.items(): ...inc(count)`, on a copy of the counters. */
  method CountLabels(counts: map<string, nat>, tally: seq<LabelCount>) returns (after: map<string, nat>)
    ensures after == Bumped(counts, tally)
  {
    after := counts;
    var i := 0;
    while i < |tally|
      invariant 0 <= i <= |tally|
      invariant after == Bumped(counts, tally[..i])
    {
      assert tally[..i + 1][..i] == tally[..i];
      after := after[tally[i].name := Get(after, tally[i].name) + tally[i].count];
      i := i + 1;
    }
    assert tally[..|tally|] == tally;
  }

  // ---------------------------------------------------------------------------
  // The decision `predict` takes

  /** How a request ends: an error response, or the predictions and their decoded labels. */
  datatype Verdict = Rejected(status: nat, error: ErrorKind) | Labelled(preds: seq<int>, labels: seq<string>)

  /** The outcome of one request, before any counter moves. */
  function Evaluate(upload: Upload, classes: seq<string>, classify: seq<seq<real>> -> Option<seq<int>>): (v: Verdict)
    ensures (v.Rejected? && v.error.NoFileUploaded?) <==> upload.NoFile?
    ensures upload.NoFile? ==> v == Rejected(400, NoFileUploaded)
    ensures (v.Rejected? && v.error.MissingFeatures?)
            <==> (upload.File? && upload.frame.Some? && Missing(upload.frame.value.columns) != [])
    ensures v.Rejected? && v.error.MissingFeatures? ==>
              v.status == 400 && v.error.features == Missing(upload.frame.value.columns)
    ensures upload == File(None) ==> v == Rejected(500, Internal)
    ensures v.Rejected? ==> (v.status == 500 <==> v.error.Internal?)
    ensures upload.File? && upload.frame.Some? && Missing(upload.frame.value.columns) == [] ==>
              var out := classify(Select(upload.frame.value, RequiredFeatures));
              && (v.Labelled? <==> out.Some? && InverseTransform(classes, out.value).Some?)
              && (v.Labelled? ==> v.preds == out.value && v.labels == InverseTransform(classes, out.value).value)
    ensures v.Labelled? ==>
              && |v.labels| == |v.preds|
              && forall i :: 0 <= i < |v.preds| ==> 0 <= v.preds[i] < |classes| && v.labels[i] == classes[v.preds[i]]
  {
    match upload
    case NoFile => Rejected(400, NoFileUploaded)
    case File(None) => Rejected(500, Internal)
    case File(Some(t)) =>
      var missing := Missing(t.columns);
      if missing != [] then Rejected(400, MissingFeatures(missing))
      else
        match classify(Select(t, RequiredFeatures))
        case None => Rejected(500, Internal)
        case Some(preds) =>
          match InverseTransform(classes, preds)
          case None => Rejected(500, Internal)
          case Some(labels) => Labelled(preds, labels)
  }

  /** A label that decoding produced is one of the encoder's classes. */
  lemma LabelsAreKnown(upload: Upload, classes: seq<string>, classify: seq<seq<real>> -> Option<seq<int>>)
    ensures var v := Evaluate(upload, classes, classify);
            v.Labelled? ==> forall l :: l in v.labels ==> l in classes
  {
  }

  /** On success the response pairs prediction `i` with label `i`, one entry per prediction. */
  lemma SuccessPairsEachPrediction(upload: Upload, classes: seq<string>, classify: seq<seq<real>> -> Option<seq<int>>)
    ensures var v := Evaluate(upload, classes, classify);
            v.Labelled? ==>
              var rs := Results(v.preds, v.labels);
              && |rs| == |v.preds|
              && forall i :: 0 <= i < |rs| ==> rs[i].prediction == v.preds[i] && rs[i].name == classes[v.preds[i]]
  {
  }

  /** Without a file, or with a required column missing, the model is never consulted. */
  lemma RejectedUploadSkipsModel(upload: Upload, classes: seq<string>,
                                 classify: seq<seq<real>> -> Option<seq<int>>,
                                 other: seq<seq<real>> -> Option<seq<int>>)
    requires upload.NoFile? || (upload.frame.Some? && Missing(upload.frame.value.columns) != [])
    ensures Evaluate(upload, classes, classify) == Evaluate(upload, classes, other)
    ensures Evaluate(upload, classes, classify).Rejected? && Evaluate(upload, classes, classify).status == 400
  {
  }

  /** An alert goes out exactly when some decoded label is an attack category. */
  lemma AlertIffAttack(labels: seq<string>)
    ensures AttackLabels(labels) != [] <==> exists i :: 0 <= i < |labels| && IsAttack(labels[i])
  {
    if exists i :: 0 <= i < |labels| && IsAttack(labels[i]) {
      var i :| 0 <= i < |labels| && IsAttack(labels[i]);
      assert labels[i] in AttackLabels(labels);
    }
  }

  // ---------------------------------------------------------------------------
  // The service and its counters

  class PredictionService {
    /** `label_encoder.classes_`, also the labels whose counters are preloaded. */
    const classes: seq<string>
    var predictions: nat   // flask_predictions_total
    var successes: nat     // flask_success_total
    var errors: nat        // flask_errors_total
    var labelCounts: map<string, nat>   // flask_prediction_label_total, by label
    var alerts: seq<seq<string>>        // attack-label lists handed to the e-mail alert

    /**
     * Every request ends as exactly one success or one error, and the label
     * counters are exactly the preloaded known labels.
     */
    ghost predicate Valid()
      reads this
    {
      && predictions == successes + errors
      && labelCounts.Keys == set l | l in classes
    }

    /** Start-up: all counters at 0, each known label's counter created with `inc(0)`. */
    constructor (classes: seq<string>)
      ensures Valid()
      ensures this.classes == classes
      ensures predictions == 0 && successes == 0 && errors == 0 && alerts == []
      ensures labelCounts == map l | l in classes :: 0
    {
      var counts: map<string, nat> := map[];
      for i := 0 to |classes|
        invariant counts == map l | l in classes[..i] :: 0
      {
        assert classes[..i + 1] == classes[..i] + [classes[i]];
        counts := counts[classes[i] := Get(counts, classes[i]) + 0];
      }
      assert classes[..|classes|] == classes;
      this.classes := classes;
      predictions, successes, errors := 0, 0, 0;
      labelCounts := counts;
      alerts := [];
    }

    /**
     * `predict()`: counts the request, evaluates it, and on success counts the
     * labels, counts the success and queues an alert when attacks were seen.
     */
    method Predict(upload: Upload, classify: seq<seq<real>> -> Option<seq<int>>) returns (resp: Response)
      requires Valid()
      modifies this
      ensures Valid()
      ensures predictions == old(predictions) + 1
      ensures var v := Evaluate(upload, classes, classify);
              match v
              case Rejected(status, error) =>
                && resp == Failure(status, error)
                && errors == old(errors) + 1 && successes == old(successes)
                && labelCounts == old(labelCounts) && alerts == old(alerts)
              case Labelled(preds, labels) =>
                && resp == Success(Results(preds, labels))
                && successes == old(successes) + 1 && errors == old(errors)
                && labelCounts == Bumped(old(labelCounts), Tally(labels))
                && alerts == old(alerts) + (if AttackLabels(labels) != [] then [AttackLabels(labels)] else [])
    {
      predictions := predictions + 1;
      var v := Evaluate(upload, classes, classify);
      match v
      case Rejected(status, error) =>
        errors := errors + 1;
        resp := Failure(status, error);
      case Labelled(preds, labels) =>
        LabelsAreKnown(upload, classes, classify);
        CountSuccess(labels);
        resp := Success(Results(preds, labels));
    }

    /** The success path's bookkeeping: label counters, the success counter and the alert. */
    method CountSuccess(labels: seq<string>)
      requires labelCounts.Keys == set l | l in classes
      requires forall l :: l in labels ==> l in classes
      modifies this
      ensures labelCounts.Keys == old(labelCounts.Keys)
      ensures predictions == old(predictions) && errors == old(errors)
      ensures successes == old(successes) + 1
      ensures labelCounts == Bumped(old(labelCounts), Tally(labels))
      ensures alerts == old(alerts) + (if AttackLabels(labels) != [] then [AttackLabels(labels)] else [])
    {
      var counts := CountLabels(labelCounts, Tally(labels));
      CountingKeepsKnownLabels(labelCounts, labels, classes);
      labelCounts := counts;
      successes := successes + 1;
      var attacks := AttackLabels(labels);
      if attacks != [] {
        alerts := alerts + [attacks];
      }
    }
  }
}
