# AI-powered network intrusion detection: a Dafny model

This project models the core of a small network intrusion detection system.
The system groups the packets of a capture into directional flows and turns
each flow into a row of statistical features. It projects a table of traffic
onto its numeric columns, scores each row with an IsolationForest, and
raises alerts for rows whose anomaly score reaches a threshold. It has four
command-line modes: train, detect, demo and deep learning.

The model is split into modules:

- `Wrappers`: `Option` and `Result`.
- `Seqs`: order-preserving `Filter`, `Map` and `Positions`, with their lemmas.
- `Stats`: `Sum`, `Mean` and the population `Variance` over exact reals, plus `Gaps` (`np.diff`).
  - `np.mean` and `np.std` are fields of a `NumPy` value.
  - `MeanIsArithmetic` and `StdIsPopulation` state what those two calls compute, with the square root as a parameter.
- `Flows`: the packet record, the directional 5-tuple key, and the specification of the grouping.
  - `FirstSeen` is the key order of the flow dictionary.
  - `Accumulated` is the record the loop holds for a key after a prefix of the capture.
- `FeatureEngineering`: `extract_features`.
  - The grouping loop `GroupFlows` and the collecting loop `ExtractFeatures` are methods, proved against `Flows` and the table function `FeatureRows`.
  - `FlowFeatures` is the per-flow arithmetic, with lemmas for each promised property.
  - `FeatureFrame` is the conversion to a DataFrame.
- `Frames`: a DataFrame is named columns, numeric or not, and rows of cells. Every row fits the columns.
- `NetworkIds`: the class `NetworkIDS`, with fields `model` and `alertLog`.
  - The IsolationForest is a value `Forest` of two functions: the raw label and the decision value.
  - Training takes the fit as a function parameter.
- `IdsModule`: the command-line driver.
  - The `--data` checks, the suffix dispatch, the threshold filter and the alert loop of `main`.
  - The top-five selection and the alert loop of `run_demo`.
  - Everything outside the program is a field of `Env`: the CSV reader, the packet decoder, whether the packet library is installed, the model store, the clock, and the presence or download of the demo datasets.

The feature extraction keeps every packet of a flow in a list and computes
the statistics from that list once the capture has been read; flows are
never evicted. Each row's prediction is the model's own label (1 for an
outlier), and the threshold only selects which rows raise alerts.

## Model

| member | source | states |
|---|---|---|
| Flows.FirstSeen | src/feature_engineering.py:34-40 | the flow keys in the order their first packet appears, without repetition (the dictionary's key order) |
| Flows.FlowPacketsMembers | src/feature_engineering.py:33-41 | every packet of a flow comes from the capture and carries that flow's key; every eligible packet with that key is in the flow |
| Flows.AccumulatedPackets | src/feature_engineering.py:18-44 | a key's record holds exactly the capture's packets that have an IP layer, a TCP or UDP layer and that key, and it has a packet exactly when the key is listed |
| Flows.FirstSeenIffPackets | src/feature_engineering.py:34-41 | a key is listed exactly when its flow has at least one packet |
| Flows.AccumulatedIsConsistent | src/feature_engineering.py:34-44 | each listed flow record has at least one packet, the first packet's time as start time, the sum of its packet lengths as byte total, and the set of its TCP flag values |
| Flows.FlagSetMembers | src/feature_engineering.py:43-44 | a value is in the flag set exactly when some TCP packet of the flow carries it |
| Flows.ReverseIsAnotherFlow | src/feature_engineering.py:33 | keys are directional: for distinct endpoints, the reverse key is another key and no packet belongs to both flows |
| Flows.PacketConservation | src/feature_engineering.py:18-41 | the listed flows together hold exactly the packets with an IP layer and a TCP or UDP layer |
| Flows.FirstSeenInCaptureOrder | src/feature_engineering.py:34-35 | flows are listed in increasing order of the capture position of their first packet |
| FeatureEngineering.GroupFlows | src/feature_engineering.py:17-44 | the grouping loop ends with the keys in first-seen order and, for each key, exactly the record `Flows.Accumulated` specifies |
| FeatureEngineering.ExtractFeatures | src/feature_engineering.py:15-86 | the collecting loop produces the feature table `FeatureRows`: the features of each flow, in dictionary order |
| FeatureEngineering.FeatureRows | src/feature_engineering.py:46-86 | one feature row per listed flow |
| FeatureEngineering.AccumulatedSnoc | src/feature_engineering.py:34-44 | one more packet leaves every other flow unchanged and extends its own flow: packet appended, start time set on the first packet, length added, TCP flag value added |
| FeatureEngineering.SkipPacket | src/feature_engineering.py:19-32 | a packet without an IP layer, or without a TCP or UDP layer, leaves the flow table unchanged |
| FeatureEngineering.AddPacket | src/feature_engineering.py:33-44 | the loop body's update of an eligible packet keeps the table equal to the specification of the longer capture |
| FeatureEngineering.RowCells | src/feature_engineering.py:69-85 | a feature row as cells, fitting the 15 feature columns; with packet times as floats, only the two addresses are non-numeric |
| FeatureEngineering.FeatureFrame | src/feature_engineering.py:88-89 | the DataFrame has no columns for no rows, else the feature columns, with row `i` the cells of feature row `i` |
| FeatureEngineering.ExtractFeaturesFrom | src/feature_engineering.py:8-89 | None exactly when the packet library is missing, otherwise the DataFrame of the feature table of the decoded capture |
| FeatureEngineering.FlowFeatures | src/feature_engineering.py:47-85 | the row carries the flow's key, its packet count, its byte total and its number of distinct flag values, and neither rate is negative |
| FeatureEngineering.Rate | src/feature_engineering.py:53-54 | a count per unit of duration is never negative |
| FeatureEngineering.RowOfFlow | src/feature_engineering.py:46-86 | row `i` is the features of the `i`-th listed flow, whose record is non-empty |
| FeatureEngineering.ListedFlowsAreConsistent | src/feature_engineering.py:34-44 | every listed flow's record is consistent and holds exactly that flow's packets |
| FeatureEngineering.RowsDescribeFlows | src/feature_engineering.py:47-51 | row `i` carries the key of the `i`-th flow, a packet count of at least 1 equal to the flow's size, and a byte count equal to the sum of its packet lengths |
| FeatureEngineering.OneRowPerFlow | src/feature_engineering.py:34-46 | no two rows have the same key, and every row's flow has packets |
| FeatureEngineering.EveryPacketHasARow | src/feature_engineering.py:18-46 | every eligible packet's key is the key of some row |
| FeatureEngineering.RowsInFirstPacketOrder | src/feature_engineering.py:34-86 | rows appear in the order of each flow's first packet in the capture |
| FeatureEngineering.PacketCountsCoverCapture | src/feature_engineering.py:18-50 | the packet counts of all rows add up to the number of packets with an IP layer and a TCP or UDP layer |
| FeatureEngineering.FlowTotals | src/feature_engineering.py:47-51 | key fields copied from the key; duration is last time minus first time; packet and byte counts are the flow's size and byte total |
| FeatureEngineering.RatesGuardZeroDuration | src/feature_engineering.py:53-54 | both rates are 0 when the duration is not positive, and otherwise are the count and the byte total per unit of duration |
| FeatureEngineering.SinglePacketFlow | src/feature_engineering.py:49-67 | a one-packet flow has duration 0, rates 0, inter-arrival mean and spread 0, mean size equal to its length and size spread 0 |
| FeatureEngineering.FlagDiversity | src/feature_engineering.py:56-58 | the flag feature is the number of distinct TCP flag values: 0 exactly when the flow has no TCP packet |
| FeatureEngineering.InterArrivalTelescopes | src/feature_engineering.py:64-66 | with at least two packets, the mean inter-arrival time is the duration divided by the number of gaps |
| FeatureEngineering.SpreadsNonNegative | src/feature_engineering.py:60-67 | both standard deviations are at least 0 |
| FeatureEngineering.TwoPacketFeatures | src/feature_engineering.py:49-67 | the exact features of a two-packet flow of 100 and 200 bytes half a second apart |
| FeatureEngineering.TwoPacketCapture | src/feature_engineering.py:17-86 | a capture of those two packets yields exactly one row, with those features |
| Stats.GapsTelescope | src/feature_engineering.py:65 | the consecutive differences of the times add up to last minus first |
| Stats.VarianceNonNegative | src/feature_engineering.py:61 | the population variance is never negative, so its square root is defined |
| NetworkIds.PrepareData | src/network_ids.py:78-90 | one projected row per input row, each as wide as the list of kept columns |
| NetworkIds.PrepareDataColumns | src/network_ids.py:85 | the kept columns are exactly the numeric columns, in their original order |
| NetworkIds.PrepareDataCells | src/network_ids.py:88 | a missing numeric value becomes 0 and a present one is kept unchanged |
| NetworkIds.AnomalyFlag | src/network_ids.py:69 | the prediction is 0 or 1, and 1 exactly when the raw label is -1 |
| NetworkIds.Detected | src/network_ids.py:63-76 | one prediction and one score per row, in row order; each prediction is 0 or 1 and is 1 exactly for label -1; each score is the negated decision value |
| NetworkIds.ScoresReverseDecisionOrder | src/network_ids.py:72-74 | a row scores higher exactly when its decision value is lower, and scores tie exactly when decision values tie |
| NetworkIds.NetworkIDS.constructor | src/network_ids.py:12-22 | empty alert log; no model unless a non-empty path is given, in which case the model stored there |
| NetworkIds.NetworkIDS.LoadModel | src/network_ids.py:98-102 | the model becomes the one stored at the path |
| NetworkIds.NetworkIDS.Train | src/network_ids.py:24-49 | the model is an IsolationForest fitted with 100 trees, automatic sample size, contamination 0.1 and seed 42 on the numeric projection of the CSV; it is handed for storage exactly when a non-empty model path is given |
| NetworkIds.NetworkIDS.Detect | src/network_ids.py:51-76 | fails with "model not loaded" exactly when there is no model; otherwise returns the predictions and scores of `Detected`, one per row; changes neither the model nor the log |
| IdsModule.DefaultArgs | src/ids_module.py:26-31 | an empty command line runs the demo, which reads no `--data`, with the demo's own non-empty model path and threshold 0.8 |
| IdsModule.KindOf | src/ids_module.py:50-60 | a path goes to the packet extractor only with a `.pcap` or `.pcapng` suffix, to the CSV reader only with a `.csv` suffix, and is refused only when it has none of the three |
| IdsModule.KindBySuffix | src/ids_module.py:50-57 | a path ending in `.pcap` or `.pcapng` goes to the packet extractor, and one ending in `.csv` goes to the CSV reader |
| IdsModule.KindIsCaseSensitive | src/ids_module.py:50-60 | an upper-case `.PCAP` or a trailing `.gz` is an unsupported format |
| IdsModule.JoinPath | src/ids_module.py:84 | the report path ends with the report's file name |
| IdsModule.ScoreTable | src/ids_module.py:66-69 | row `i` of the scored table holds the `i`-th prediction and score, in its fields and in its `prediction` and `anomaly_score` columns |
| IdsModule.SelectAlerts | src/ids_module.py:70 | no more alerts than rows; every alert is a row scoring at least the threshold, and every such row is an alert |
| IdsModule.SelectAlertsExactly | src/ids_module.py:70 | the alerts are exactly the rows with score at least the threshold, in their original order |
| IdsModule.DefaultThresholdIsInclusive | src/ids_module.py:30 | against the default threshold 0.8, scores 0.42, 0.8 and 0.95 select the last two, in order |
| IdsModule.AlertFor | src/ids_module.py:76-81 | the entry carries the given timestamp and the row's prediction and score; its details are the row's mapping in the demo and empty in `main` |
| IdsModule.AlertEntries | src/ids_module.py:75-82 | one log entry per alert |
| IdsModule.AlertEntriesCopyRows | src/ids_module.py:75-82 | entry `i` has the `i`-th clock reading, the prediction and score of alert `i`, and empty details (`main`) or the row's mapping (demo) |
| IdsModule.AppendAlerts | src/ids_module.py:75-82 | the log becomes its old entries followed by one entry per alert, in order |
| IdsModule.ReadTraffic | src/ids_module.py:50-60 | the traffic table is read by the suffix's reader; none for an unsupported suffix or a missing packet library |
| IdsModule.ReportAlerts | src/ids_module.py:66-87 | the log becomes one entry per selected alert, in order, with empty details; a report is produced exactly when at least one alert was selected, and it renders that log |
| IdsModule.RunDetect | src/ids_module.py:44-87 | exit code 1 when the traffic cannot be read; the "model not loaded" error for an empty model path; otherwise exit code 0, with a report of the selected alerts exactly when there are any |
| IdsModule.SortByScore | src/ids_module.py:154 | the sorted table has as many rows as the table; `SortByScorePermutes` and `SortByScoreDescending` state its contents and its order |
| IdsModule.InsertPermutes | src/ids_module.py:154 | inserting a row into the sorted prefix adds exactly that row |
| IdsModule.InsertDescending | src/ids_module.py:154 | inserting a row keeps a non-increasing sequence non-increasing |
| IdsModule.SortByScorePermutes | src/ids_module.py:154 | the sorted table is a permutation of the table |
| IdsModule.SortByScoreDescending | src/ids_module.py:154 | the sorted table is in non-increasing score order |
| IdsModule.TopAnomalies | src/ids_module.py:154 | the top anomalies are five rows, or every row when there are fewer |
| IdsModule.TopAnomaliesAreHighest | src/ids_module.py:154 | the top anomalies are in non-increasing score order, are rows of the table, and no row left out scores higher than a selected row |
| IdsModule.RowRecord | src/ids_module.py:169 | every column name of the row is a key of its `to_dict` mapping |
| IdsModule.RowRecordAt | src/ids_module.py:169 | with distinct column names, each name maps to its own cell |
| IdsModule.ResultsTable | src/ids_module.py:149-151 | one scored row per test row |
| IdsModule.LoadOrTrain | src/ids_module.py:136-141 | the demo loads the stored model when its file exists, else fits one and stores it |
| IdsModule.DemoWithDatasets | src/ids_module.py:129-174 | the demo report renders the five highest-scoring test rows, each with its full row as details |
| IdsModule.RunDemo | src/ids_module.py:100-176 | without datasets on disk and with a failed download, nothing is stored or reported; otherwise the demo runs on the datasets on disk or on the downloaded ones |
| IdsModule.RunMain | src/ids_module.py:16-98 | train, detect and deep learning return 1 without `--data`; train fits on the CSV and stores the model; detect stores nothing and reports at `intrusion_report.html` under the output path exactly as `RunDetect` states; the demo stores and reports exactly as `RunDemo` states, its report at `demo_report.html` under the output path; otherwise the exit code is 0 |

## Left out

- Packet decoding with scapy (`rdpcap` and the layer lookups) is not modelled. A capture is a sequence of records that say which layers are present and carry the fields read from them.
- IsolationForest fitting, prediction and decision values are not modelled. They are opaque functions (`Forest`, `Env.fit`), and the model assumes one value per row.
- The square root is a parameter, constrained only where a lemma needs it. Floating-point rounding of `np.mean`, `np.std` and the divisions is not modelled; the model computes over exact reals.
- Pickle storage is reduced to `Env.load` and to the `(path, model)` pair that `train` hands over for storage. `_save_model`'s directory creation (src/network_ids.py:94) is left out. A model path without a directory part, such as `--model ids.pkl`, makes `os.makedirs('')` raise after the fit, so `train` then fails with nothing stored; the model instead ends train mode with `Exit(0)` and the pair handed over for storage.
- Missing or unreadable input files are not modelled. The CSV reader (src/ids_module.py:57 and 145, src/network_ids.py:32), the packet reader (src/feature_engineering.py:14) and the model store (src/network_ids.py:101) are total functions of `Env`. Where the program raises on a missing or malformed file, the model reads some table, capture or model and goes on; for example, a missing CSV in `detect` ends with exit code 0.
- FeatureEngineering.RowCells: packet times are taken to be floats, as scapy 2.4 returns them, so the five time-derived columns (`duration`, `packet_rate`, `byte_rate`, `avg_inter_arrival`, `std_inter_arrival`) are marked numeric. setup.py:33 also admits scapy 2.5 and later, where `packet.time` is a Decimal; those columns then hold Decimal objects, pandas gives them object dtype, and `select_dtypes` in `_prepare_data` drops them. That case is not modelled.
- The HTML report (`generate_report`, Jinja2) is reduced to its path and the alert log it renders.
- The dataset download (src/data_loader.py) is reduced to `Env.download`. Plotting (src/visualization.py) is left out.
- The deep-learning mode is modelled only up to its `--data` check: src/deeplearning_model.py is not part of this model.
- The imports at src/ids_module.py:19-23 are assumed to succeed. As written, src/deeplearning_model.py does not parse, so the import at line 23 would fail.
- Argument parsing is left out: the parsed arguments are an `Args` value, and `DefaultArgs` is the value an empty command line gives.
- Printing, `os.makedirs` and the exact clock format are left out. The clock is `Env.now`, its `i`-th reading in an alert loop.
- sklearn rejects a table with no rows, and this error is not modelled. For example, a capture with no eligible packet gives a table with no columns and no rows.
- The forest is assumed to accept any set of columns. sklearn 1.2 and later raise when the feature names or their number differ from the training table, for example in `detect` on a capture with the demo's NSL-KDD model; this error is not modelled.
- Column types are reduced to numeric or not. Pandas' type inference when reading a CSV is not modelled.
- The `to_dict` of a demo row is modelled cell for cell. The upcast that `iloc` applies to a row is not modelled, in either alert loop. In `main`, `alerts.iloc[i]` on the table of integer predictions and float scores (src/ids_module.py:66-79) is a float row, so the logged prediction is `1.0` where `AlertEntry.prediction` holds the integer 1.
- IdsModule.SortByScore: pandas' default sort is not stable, so its order among equal scores is unspecified. The model places equal scores in row order. `SortByScorePermutes`, `SortByScoreDescending` and `TopAnomaliesAreHighest` hold for any tie order. `DemoWithDatasets`, `RunDemo` and `RunMain` state the exact demo report through `TopAnomalies`, so among equal scores they fix the row order that pandas does not promise.
- `main`'s exit through `exit(exit_code)` is reduced to the returned `Outcome`.
