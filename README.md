# IDS-Project core in Dafny

This project models the three computational pieces of a small network intrusion detection pipeline and proves properties of them.

- **Flow feature extraction** (`extract_flow_features`) turns the packets of one TCP flow into a feature record. The record holds:
  - the duration, from the latest minus the earliest timestamp;
  - forward and backward packet counts, where forward means sent from the first packet's source address;
  - the mean length of the forward packets;
  - four TCP flag counts;
  - the protocol name, from the last `:`-segment of the protocol stack;
  - fields copied from the first packet.
- **Per-packet record building** (`parse_json_to_csv`) walks tshark's decoded JSON packets.
  - Every packet that has non-empty `tcp`, `ip` and `frame` layers, and whose fields convert, becomes one fixed 13-key record.
  - Every other packet is skipped, and the loop goes on.
  - The function reports whether any record was produced, which is also whether a CSV file gets written.
- **The `/predict` endpoint** of the Flask service, step by step:
  - it rejects an upload with no file (400) or with missing required columns (400);
  - it hands the required columns to the classifier and decodes the predicted codes into labels;
  - it counts the labels per category;
  - it queues an e-mail alert when attack categories appear;
  - it answers with one result per row;
  - any exception becomes a 500.

  Across requests it keeps four Prometheus counters: requests, successes, errors, and a per-label count.

Modules, one per file:

| module | file | source |
|---|---|---|
| `Wrappers` | `wrappers.dfy` | `Option` |
| `PyInt` | `py_int.dfy` | Python's `int()` on a string, as `parse_json_to_csv` applies it to tshark field text |
| `FlowFeatures` | `flow_features.dfy` | `automate-tshark/pcap_to_flows.py` (pure functions and lemmas) |
| `PacketRecords` | `packet_records.dfy` | `automate-tshark/automate_tshark.py`: the loop is a `method` proved against the function `Accepted`; the per-packet step is the function `BuildRecord` |
| `PredictApi` | `predict_api.dfy` | `flask-api-project/app.py`: the pure comprehensions are functions; the counters are fields of the class `PredictionService`, updated by the method `Predict` |
| `Pipeline` | `pipeline.dfy` | how the records written by the capture side meet the endpoint's column check |

Several foreign calls are parameters of the model:
- The trained classifier (`model.predict`) is a function parameter `classify`, which returns `None` where it raises.
- Python's `float()` on a string is a function parameter `toFloat`, which also returns `None` where it raises.
- The label decoder (`label_encoder.inverse_transform`) is modelled concretely from the fitted class list `classes`: code `k` decodes to `classes[k]`, and any code out of range makes the call raise.
- The e-mail alert is an outbox field, `alerts`, holding the attack-label lists that would be sent.

## Model

Some functions are definitions whose meaning is stated by lemmas, and those lemmas are the rows below:
- `ParseDigits` and `ParseInt`: `ParseIntAcceptsExactly`, `ParseIntValue`, `StrayCharacterRejected`, `ParseDigitsOfNat`, `UnderscoresIgnored`, `SurroundingSpaceIgnored`, `ParseIntRoundTrip`. The first two compare `ParseInt` with `IntText` and `SignedValue`, a grammar of integer texts defined without the trimming functions.
- `Layer`: `LayerIsTruthyObject`.
- `IntField` and `FloatField`: `IntFieldReadsDecimal`, `AbsentFieldDefaults`, `AbsentFieldsAreZero`, `UnconvertibleFieldRejected`, `BuildRecordFields`.
- `Mean`: `MeanBounds`.
- `CountFlags`: `CountFlagsCountsEachFlag`.
- `Select`: `SelectByColumnName`.
- `InverseTransform`: `DecodeThenEncode` and `EncodeThenDecode`. These use `Transform`, an independent definition of the encoder's `transform`.
- `Results`: `ResultsUnzip`.
- `Bumped`: `BumpedGet` and `BumpedKeys`.
- `ToFrame`: `CsvRoundTrip`.

| member | source | states |
|---|---|---|
| PyInt.ParseIntAcceptsExactly | automate-tshark/automate_tshark.py:34-46 | `int()` succeeds exactly on the texts `IntText` describes: whitespace, then an optional `+` or `-`, then digit groups joined by single underscores, then whitespace. Every other text makes it raise |
| PyInt.ParseIntValue | automate-tshark/automate_tshark.py:34-46 | On such a text `int()` gives the sign applied to the decimal value of the digits with the underscores dropped |
| PyInt.StrayCharacterRejected | automate-tshark/automate_tshark.py:34-46 | A character anywhere in the text that is not whitespace, a digit, a sign or an underscore makes `int()` raise |
| PyInt.ParseDigitsOfNat | automate-tshark/automate_tshark.py:34-46 | A natural number's decimal text is a valid digit string and converts back to that number |
| PyInt.UnderscoresIgnored | automate-tshark/automate_tshark.py:34-46 | Grouping underscores do not change the value: a grouped digit string reads as the same number as its digits alone (`int("1_000") == int("1000")`) |
| PyInt.SurroundingSpaceIgnored | automate-tshark/automate_tshark.py:34-46 | `int()` gives the same number, or the same failure, when whitespace is added at either end of the text |
| PyInt.ParseIntRoundTrip | automate-tshark/automate_tshark.py:34-46 | `int()` reads back every integer from its decimal text, negative numbers included |
| FlowFeatures.Max | automate-tshark/pcap_to_flows.py:14 | `max` of a non-empty list is one of its elements and at least every element |
| FlowFeatures.Min | automate-tshark/pcap_to_flows.py:14 | `min` of a non-empty list is one of its elements and at most every element |
| FlowFeatures.SentBy | automate-tshark/pcap_to_flows.py:18-19 | Forward packets are exactly the packets whose source is the given address |
| FlowFeatures.NotSentBy | automate-tshark/pcap_to_flows.py:20-21 | Backward packets are exactly the packets whose source is not the given address |
| FlowFeatures.DirectionPartition | automate-tshark/pcap_to_flows.py:17-21 | Forward and backward packets together are the whole list, as a multiset, so their counts add up to its length |
| FlowFeatures.MeanBounds | automate-tshark/pcap_to_flows.py:56 | `Mean`: the mean times the number of values is their sum, and it lies between their minimum and maximum |
| FlowFeatures.FlagCountIsNumberFlagged | automate-tshark/pcap_to_flows.py:30-43 | A flag count equals the number of packet positions whose flag text is exactly `"1"` |
| FlowFeatures.CountFlagsCountsEachFlag | automate-tshark/pcap_to_flows.py:30-43 | All six counts (FIN, SYN, RST, PSH, ACK, URG) are the numbers of packets with that flag text `"1"`, each at most the packet count |
| FlowFeatures.LastSegment | automate-tshark/pcap_to_flows.py:51 | `split(':')[-1]` is a suffix without `:`. It is the whole string when there is no `:`, and otherwise it is preceded by a `:` |
| FlowFeatures.ExtractFlowFeatures | automate-tshark/pcap_to_flows.py:6-65 | The result is `None` exactly for fewer than 2 packets. Otherwise Tot Fwd + Tot Bwd = packet count, Tot Fwd ≥ 1, duration ≥ 0, and each flag count ≤ packet count |
| FlowFeatures.DurationZeroIffSimultaneous | automate-tshark/pcap_to_flows.py:12-14 | The duration is 0 exactly when every packet carries the same timestamp (both directions) |
| FlowFeatures.ExtremaOrderFree | automate-tshark/pcap_to_flows.py:14 | `max` and `min` depend only on the multiset of values |
| FlowFeatures.DurationOrderFree | automate-tshark/pcap_to_flows.py:12-14 | Reordering the packets' timestamps changes neither the duration nor the start timestamp |
| FlowFeatures.TimestampIsEarliest | automate-tshark/pcap_to_flows.py:52 | The reported timestamp is ≤ every packet's timestamp and equal to some packet's |
| FlowFeatures.ForwardIsFirstSource | automate-tshark/pcap_to_flows.py:17-21 | Packet 0 is forward. Every forward packet has packet 0's source and no backward packet does. Tot Fwd and Tot Bwd are the two list lengths |
| FlowFeatures.ForwardMeanIsTrueMean | automate-tshark/pcap_to_flows.py:24-27 | The forward lengths are never empty, so the reported mean is their true mean (the `else 0` is unreachable) and lies within their range |
| FlowFeatures.FlagCountsAreNumbersFlagged | automate-tshark/pcap_to_flows.py:58-61 | The emitted FIN/SYN/PSH/ACK counts are the numbers of packets with that flag text `"1"` |
| FlowFeatures.ProtocolIsLastLayer | automate-tshark/pcap_to_flows.py:51 | The protocol is the segment after the last `:` of packet 0's protocol stack: no `:` in it, a suffix of the stack, the whole stack when there is no `:` |
| FlowFeatures.FirstPacketFields | automate-tshark/pcap_to_flows.py:45-64 | Two flows that start with the same packet agree on Flow ID, addresses, ports, protocol, initial window and TLS length |
| FlowFeatures.TlsLengthDefault | automate-tshark/pcap_to_flows.py:63-64 | The TLS length is 0 without a TLS layer on packet 0, and otherwise that layer's record length |
| PacketRecords.LayerIsTruthyObject | automate-tshark/automate_tshark.py:25-31 | `Layer`: a layer is usable exactly when `layers.get(name, {})` is truthy and is an object, and it is then that object |
| PacketRecords.BuildRecord | automate-tshark/automate_tshark.py:24-47 | A record is built only from a packet whose `tcp`, `ip` and `frame` layers are all usable, and it carries the constant placeholders |
| PacketRecords.BuildRecordAcceptsExactly | automate-tshark/automate_tshark.py:24-47 | A packet builds a record exactly when `_source.layers` and its `tcp`, `ip` and `frame` layers are usable and none of the nine field conversions raises |
| PacketRecords.BuildRecordFields | automate-tshark/automate_tshark.py:33-46 | Each field of a built record holds the conversion of its own key from its own layer: six `tcp` keys and `ip.proto` by `int()`, `frame.len` by `float()`, and Flow Duration is `float(frame.time_delta_displayed)` times 10^6 |
| PacketRecords.AbsentFieldDefaults | automate-tshark/automate_tshark.py:34-46 | `IntField`, `FloatField`: a key absent from its layer takes the default 0, and both conversions read it as 0 |
| PacketRecords.Accepted | automate-tshark/automate_tshark.py:22-52 | The loop never produces more records than packets |
| PacketRecords.ParseJsonToCsv | automate-tshark/automate_tshark.py:20-58 | A load failure caught at lines 16-18 (`None`) gives no rows and `False`. Otherwise the rows are the accepted packets' records in input order, and the result is `True` exactly when there is at least one |
| PacketRecords.AcceptedAppend | automate-tshark/automate_tshark.py:22-52 | Processing two batches in a row gives the first batch's records followed by the second's |
| PacketRecords.SkippedPacketLeavesNoTrace | automate-tshark/automate_tshark.py:50-52 | Removing a packet that raises leaves the output unchanged: skipping does not disturb the other packets |
| PacketRecords.AcceptedPacketKeepsItsPlace | automate-tshark/automate_tshark.py:48 | An accepted packet's record sits between the records of the packets before it and those after it |
| PacketRecords.OneRecordPerAcceptedPacket | automate-tshark/automate_tshark.py:22-48 | There are exactly as many records as packet positions whose record builds |
| PacketRecords.PlaceholdersAreConstant | automate-tshark/automate_tshark.py:38-42 | Every output record has Tot Fwd Pkts 1, Tot Bwd Pkts 0, Flow Byts/s 0 and Flow Pkts/s 0 |
| PacketRecords.MissingLayerRejected | automate-tshark/automate_tshark.py:29-31 | A packet without usable `_source.layers`, or without a usable `tcp`, `ip` or `frame` layer, builds no record |
| PacketRecords.MissingLayerPacketSkipped | automate-tshark/automate_tshark.py:29-52 | Such a packet is skipped, and the other packets' records are unchanged and in order |
| PacketRecords.UnconvertibleFieldRejected | automate-tshark/automate_tshark.py:34-46 | A packet any of whose nine numeric fields fails to convert builds no record: `int()` on the six TCP fields and on `ip.proto`, `float()` on the two frame fields |
| PacketRecords.UnconvertiblePacketSkipped | automate-tshark/automate_tshark.py:34-52 | A packet whose numeric field fails to convert is skipped, and the other packets' records are unchanged and in order |
| PacketRecords.AbsentFieldsAreZero | automate-tshark/automate_tshark.py:34-46 | `IntField`, `FloatField`: with usable layers and every numeric field absent, each field reads as its default 0, so the record is all zeros apart from the placeholder Tot Fwd Pkts = 1 |
| PacketRecords.IntFieldReadsDecimal | automate-tshark/automate_tshark.py:34-46 | `IntField`: `int(layer.get(key, 0))` reads an integer's decimal text back as that integer |
| PacketRecords.SourcePortReadBack | automate-tshark/automate_tshark.py:34 | A source port written as an integer's decimal text is read back as that integer whenever the packet builds a record |
| PredictApi.Absent | flask-api-project/app.py:85 | The comprehension keeps exactly the listed features that are not among the columns, as a subsequence of the list (order kept) |
| PredictApi.AbsentOccurrences | flask-api-project/app.py:85 | A listed feature that is not among the columns is reported as many times as it is listed, and one that is among them is never reported |
| PredictApi.Missing | flask-api-project/app.py:85 | `missing` holds exactly the required features absent from the columns, as a subsequence of `REQUIRED_FEATURES` (their order kept) |
| PredictApi.NothingMissingIffAllPresent | flask-api-project/app.py:85-86 | Nothing is missing exactly when every required feature is among the columns |
| PredictApi.SelectByColumnName | flask-api-project/app.py:90 | `Select`: for a header without repeats, cell `j` of selected row `i` is row `i`'s value in the column named `names[j]` |
| Pipeline.SelectAllColumns | flask-api-project/app.py:90 | Selecting every column of a header without repeats, in header order, gives back the rows unchanged |
| PredictApi.DecodeThenEncode | flask-api-project/app.py:92 | `InverseTransform`: for a class list without repeats, encoding the decoded labels with the encoder's `transform` gives back the codes |
| PredictApi.EncodeThenDecode | flask-api-project/app.py:92 | `InverseTransform`: decoding the codes `transform` assigns to known labels gives back the labels |
| PredictApi.AttackLabels | flask-api-project/app.py:102 | `attack_labels` holds exactly the attack-category labels, as an order-preserving subsequence, with each attack label occurring as often as in the decoded labels |
| PredictApi.AlertIffAttack | flask-api-project/app.py:102-104 | An alert is raised exactly when some decoded label is an attack category |
| PredictApi.ResultsUnzip | flask-api-project/app.py:107-110 | `Results`: the results are exactly the zipped pairs. Unzipping them gives back the predictions and the labels, and zipping the two halves of any result list gives it back |
| PredictApi.Distinct | flask-api-project/app.py:95 | The counter's keys are the labels that occur, each exactly once |
| PredictApi.Tally | flask-api-project/app.py:95 | Every occurring label has an entry, and each entry's count is that label's number of occurrences |
| PredictApi.TallyTotal | flask-api-project/app.py:95-97 | The per-label counts of a batch add up to the number of decoded labels |
| PredictApi.BumpedGet | flask-api-project/app.py:96-97 | The increments add each entry's count to its own label's counter and leave the others unchanged |
| PredictApi.BumpedKeys | flask-api-project/app.py:96-97 | `Bumped`: the increments create a counter for each label that had none, and no other |
| PredictApi.CountersGrowByOccurrences | flask-api-project/app.py:95-97 | After a successful request, each label's counter has grown by exactly its number of occurrences in the batch |
| PredictApi.CountingKeepsKnownLabels | flask-api-project/app.py:96-97 | Counting labels that all come from the decoder creates no counter beyond the preloaded ones |
| PredictApi.CountLabels | flask-api-project/app.py:96-97 | The increment loop leaves the counters as the increments prescribe |
| PredictApi.Evaluate | flask-api-project/app.py:76-116 | No file gives 400 "no file", and only then. Missing features give 400 with exactly the missing list, and only then. A file that fails to parse gives 500, and 500 always means an internal failure. A complete upload succeeds exactly when the model accepts its required columns and every code it returns decodes. The predictions are then the model's codes and the labels their decodings, `classes[prediction]` |
| PredictApi.RejectedUploadSkipsModel | flask-api-project/app.py:77-88 | With no file, or with a missing feature, the outcome is a 400 that does not depend on the model |
| PredictApi.LabelsAreKnown | flask-api-project/app.py:92 | Every decoded label is one of the encoder's classes |
| PredictApi.SuccessPairsEachPrediction | flask-api-project/app.py:107-112 | On success the response has one result per prediction, pairing it with `classes[prediction]` |
| PredictApi.PredictionService.CountSuccess | flask-api-project/app.py:95-104 | The success path's bookkeeping: the label counters become the increments applied to the old ones (keeping their keys), the success counter grows by 1, and an alert with the attack labels is queued exactly when there are some |
| PredictApi.PredictionService.constructor | flask-api-project/app.py:38-40 | All counters start at 0, and each known label's counter exists with value 0 |
| PredictApi.PredictionService.Predict | flask-api-project/app.py:72-116 | The request counter grows by 1 on every path, and the invariant "requests = successes + errors, label counters = the known labels" is kept. A rejection adds 1 to errors and changes nothing else. On success it adds 1 to successes, advances the label counters by one increment per label, queues the attack list exactly when it is non-empty, and returns the paired results |
| Pipeline.CsvRoundTrip | automate-tshark/automate_tshark.py:54-56 | `ToFrame`: the written CSV has one row per record, and each row reads back as its record unchanged |
| Pipeline.HeaderIsRequiredFeatures | flask-api-project/app.py:30-35 | The record keys are `REQUIRED_FEATURES`, in the same order and without repeats |
| Pipeline.CapturedCsvHasAllFeatures | flask-api-project/app.py:85-88 | A CSV of captured records never fails the missing-feature check. The only rejection left for it is the 500 path |
| Pipeline.ModelSeesRecords | flask-api-project/app.py:90-92 | For such a CSV, the model is fed the captured records' values unchanged. The request succeeds exactly when the model and the decoder accept those rows, with the model's codes as the predictions |

## Left out

- `capture_to_model` (the tshark capture, the HTTP POST, file removal and sleeping) is process and network I/O. It is not modelled.
- JSON loading, with its UTF-8 fallback, is left out as file I/O. `ParseJsonToCsv` takes the decoded packet list, or `None` for the failures caught at automate_tshark.py lines 16-18.
- `ParseJsonToCsv`: when the UTF-8 read fails and the `errors='ignore'` re-read then fails to parse, the exception is raised inside the `except UnicodeDecodeError` handler and escapes the function. That raising case is not modelled.
- The `print` messages (the decode fallback, the load failure, each skipped packet) are console output. They are not modelled.
- Writing the CSV is left out as file I/O. `ParseJsonToCsv` returns the rows that would be written, and `Pipeline.ToFrame` states which table the endpoint then reads back.
- `ParseJsonToCsv`: a decoded top-level JSON value that is not a list is not modelled.
- `Json` leaves are modelled as strings only, since tshark writes every field as text. JSON numbers, booleans and `null` are not modelled.
- `PyInt.ParseInt` treats as whitespace only ` \t\n\v\f\r`, U+0085 and U+00A0, the characters below U+0100 that `int()` skips. It treats as digits only ASCII `0`-`9`. Python also skips the Unicode spaces above U+00FF and accepts other Unicode decimal digits.
- `PyInt.ParseInt` does not model the limit on integer string conversion: Python 3.11 and later raise `ValueError` for more than 4300 digits.
- `PacketRecords.BuildRecord`: `float()` is the parameter `toFloat`, and the arithmetic is exact on `real`. IEEE rounding of `× 1e6` is not modelled.
- `FlowFeatures.ExtractFlowFeatures` takes typed packets, so every field it reads is present and already converted. The `KeyError` or `ValueError` a malformed packet would raise is not modelled.
- `FlowFeatures.Mean` is exact real arithmetic on the lengths, not NumPy's floating-point `np.mean`.
- `np.std` (Fwd Pkt Len Std) is left out: it needs floating-point square roots. The `Features` record has no such field.
- `PredictApi.Evaluate`: `pd.read_csv` is abstracted to a numeric table, or `None` when parsing raises.
- `PredictApi.Evaluate`: `model.predict` is the parameter `classify`. Nothing is assumed about how many codes it returns.
- `PredictApi.DecodeThenEncode` needs a class list without repeats. A fitted `LabelEncoder`'s `classes_` is sorted and unique, but the model does not carry that as an invariant of `PredictionService`. `Transform` is the encoder's fitting direction; the endpoint never calls it.
- `PredictApi.Evaluate`: error texts (`'Missing features: …'`, `str(e)`) are modelled by their kind only (`MissingFeatures(list)`, `Internal`).
- `PredictApi.PredictionService.Predict`: `send_email_alert` is an SMTP call. It is modelled as appending the attack-label list to `alerts`. The message body, which iterates over a set, and the mail transport are not modelled.
- `PredictApi.PredictionService.Predict` visits labels in first-occurrence order, which is the order of `Counter.items()`. The final counter values do not depend on that order.
- The Flask routing, the `/` and `/metrics` endpoints, the Prometheus exposition server and `joblib` loading are foreign libraries. They are not modelled.
- Concurrent requests are not modelled: each request is one atomic call to `Predict`.
- The RST and URG counts are computed but never emitted. `FlowFeatures.CountFlags` computes them, and `CountFlagsCountsEachFlag` states their value.
- Grouping packets into flows by 5-tuple, inter-arrival, active or idle statistics, and bytes/s or packets/s throughput do not exist in the source, so the model has none of them. `parse_json_to_csv` writes constant placeholders for the two rates.
