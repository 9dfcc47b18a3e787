# network_reports flow reconstruction, modelled in Dafny

The two report scripts `spineleaf_network_report.py` and `owcell_network_report.py` read a simulation's result database. They rebuild every connection from the `runParam` table, and they tally the `scalar` table's utilization and packet-drop statistics. This project models that reconstruction as pure functions over sequences of rows and proves what the loops compute.

The `runParam` loop reads rows in order. The key's first flow marker decides what a row does:
- `sendBytes` sets the flow size.
- `tOpen` restarts the flow length.
- `tSend` and `tClose` add to the length.
- `tClose` also records the length and the rate `size / length`.
- `connectAddress` reads the (level 1, level 2) coordinates of both endpoints. It adds the flow to the traffic map, summing with any earlier flow between the same pair, and to the locality counters.

The two scripts differ in a few ways:
- Spineleaf starts the length at 0 and resets it to the `tOpen` value.
- Owcell starts at 1 and resets it to 1 plus the value.
- Owcell also reads the topology dimensions (`**.rows`, `**.columns`, `**.racks`, `**.hosts`).
- Owcell lays the traffic map out as a dense rack-by-rack matrix, transposed for plotting.

The `scalar` loop is a first-match chain over fifteen statistic names. In spineleaf it also splits the transfer and receive counts, and the utilizations, by the module that reported them.

Modules:
- `Results`: the `Result`/`Option` wrappers and the failures a pass can raise:
  - `BadInteger`: `int()` rejects its text.
  - `NoMatch`: `re.search` finds nothing, so `capture.group` fails.
  - `OutOfScope`: a path this model does not interpret.
  - `ZeroDivision`: a rate over a zero length.
- `Text`: substring search, the suffix strip `[:-n]`, and decimal integer parsing with its round trip.
- `Markers`: first-match lookup of a key against an ordered list of names.
- `Addresses`: bracket-coordinate extraction by the scripts' regular expressions, with its round trip.
- `Heat`: the traffic map with insert-or-sum, and ghost sums of its sizes over key predicates.
- `Flows`: the row datatype, flow-marker dispatch, value decoding and the shared size/length/list lifecycle.
- `SpineLeafTraffic`, `OwCellTraffic`: the two `runParam` loops. Each row is decoded into an event on its own, and the event is then applied to the loop state.
- `SpineLeafScenario`: one whole flow run end to end through the spineleaf loop.
- `HeatMatrix`: the owcell dense matrix, its transpose and the network-table arithmetic.
- `Scalars`: the `scalar` classification loop.
- `SpineLeafScalars`: the spineleaf spine/leaf split, as written and as evidently intended.

## Model

| member | source | states |
|---|---|---|
| Text.DropLast | spineleaf_network_report.py:172 | slicing off the last n characters keeps exactly the rest of the text; text shorter than the unit leaves nothing |
| Text.ParseInt | owcell_network_report.py:112 | `int()` succeeds exactly on an optionally signed run of decimal digits, fails with a bad-integer error otherwise, and gives a non-negative number when no minus sign is present |
| Text.ParseShowInt | owcell_network_report.py:112 | parsing the decimal text of any integer gives that integer back |
| Text.ParseSuffixed | spineleaf_network_report.py:172 | `int(s[:-n])` succeeds exactly when the text without its last n characters is an integer, fails with a bad-integer error otherwise, and is non-negative when no minus sign is present |
| Text.ParseSuffixedShow | spineleaf_network_report.py:172-182 | a number's text followed by any unit of the stripped width parses back to the number |
| Markers.FirstMatch | owcell_network_report.py:312-342 | the branch taken is the first name contained in the key, no earlier name is contained, and no branch is taken exactly when no name is contained |
| Addresses.Tokenize | spineleaf_network_report.py:188 | a path splits into gaps and bracketed digit runs that join back to the path |
| Addresses.TokenizeJoin | spineleaf_network_report.py:188 | splitting a well-formed layout's text gives that layout back |
| Addresses.Search | spineleaf_network_report.py:188-193 | a match yields exactly one digit string per group of the pattern; a failed search is either no match or a path outside the model |
| Addresses.SearchJoin | spineleaf_network_report.py:165-166 | a path with as many bracket numbers as the pattern has groups matches exactly when every gap fits the pattern, and then the groups are the bracket numbers in order |
| Addresses.SearchTooFewTokens | spineleaf_network_report.py:188-193 | a path with fewer bracket numbers than groups does not match |
| Addresses.CoordinateOf | spineleaf_network_report.py:188-196 | reading the coordinate succeeds exactly when the search matches and groups 1 and 2 are non-empty; a failed search passes on its own failure, and an empty group is a bad integer |
| Addresses.CoordinateOfJoin | spineleaf_network_report.py:188-196 | the coordinate is groups 1 and 2 read as integers; a failed match and an empty group are the two error cases |
| Addresses.CoordinateRoundTrip | spineleaf_network_report.py:188-196 | numbers written into a fitting path are read back unchanged |
| Heat.Record | spineleaf_network_report.py:199-203 | an absent key is inserted with (size, length), a present one becomes the componentwise sum, and no other key changes |
| Heat.RecordCommutes | spineleaf_network_report.py:199-203 | recording two connections in either order gives the same map |
| Heat.SumOverRecord | spineleaf_network_report.py:199-208 | recording a connection adds its size to exactly the size sums whose key predicate holds for it |
| Heat.SumOverSplit | spineleaf_network_report.py:205-208 | a size sum splits into the sums over two disjoint predicates that cover it |
| Heat.SumOverNonNegative | owcell_network_report.py:96-100 | a map with non-negative sizes has non-negative size sums |
| Flows.ClassifyFlow | spineleaf_network_report.py:169-186 | the branch taken is always a marker the key contains |
| Flows.ClassifyFlowFirstMatch | spineleaf_network_report.py:169-186 | dispatch is first-match in the order sendBytes, tOpen, tSend, tClose, connectAddress, and a key holding none of them takes no branch |
| Flows.DecodeTiming | spineleaf_network_report.py:171-182 | a timing value decodes exactly when its text without the 3- or 1-character unit is an integer, into the event of its marker carrying that integer; text without a minus sign gives a non-negative value |
| Flows.DecodeTimingShow | owcell_network_report.py:72-81 | an integer's text followed by a unit of the right width decodes to that integer |
| Flows.ApplyTiming | spineleaf_network_report.py:171-184 | `sendBytes` sets the size to its value and appends it to the sizes, whether or not the flow is ever closed; `tOpen` sets the length to the baseline plus its value; `tSend` adds its value to the length; `tClose` adds its value and appends the length and the rate (size, length), failing exactly when that length is 0; nothing recorded before is lost |
| Flows.TimingAll | spineleaf_network_report.py:169-184 | a run of timing rows fails only by a division by zero and keeps every size, length and rate recorded before it |
| Flows.SendsThenCloseTiming | spineleaf_network_report.py:178-184 | sends then a close add their values to the current length and record it once |
| Flows.ConnectionTiming | owcell_network_report.py:75-84 | a connection's recorded length is the baseline plus the sum of its values, whatever the length was before; a zero length fails with a division by zero |
| SpineLeafTraffic.ConnectionKey | spineleaf_network_report.py:188-196 | the key is (group 1, group 2) of the parameter key and (group 1, group 2) of the value; it exists exactly when both coordinates are read |
| SpineLeafTraffic.Decode | spineleaf_network_report.py:169-196 | a row with no marker is skipped, a timing row decodes by its marker, a connect row to its endpoints, and decoding fails only on a bad integer, a failed match or a path outside the model |
| SpineLeafTraffic.Connect | spineleaf_network_report.py:199-208 | the connection is recorded in the map and its size added to intra-leaf exactly when both leaves are equal, otherwise to extra-leaf |
| SpineLeafTraffic.Apply | spineleaf_network_report.py:169-208 | an applied event fails only by division by zero; timing rows leave the map and counters alone |
| SpineLeafTraffic.Step | spineleaf_network_report.py:169-186 | a row matching no marker leaves the whole state unchanged |
| SpineLeafTraffic.RunFrom | spineleaf_network_report.py:169-208 | a pass fails only by a bad integer, a failed match, a path outside the model or a division by zero, and a successful one keeps every heat-map key and every recorded size, length and rate it started with |
| SpineLeafTraffic.Run | spineleaf_network_report.py:155-208 | from the initial values, a successful pass has one rate per length, no zero length, and intra-leaf and extra-leaf equal to the map's same-leaf and other-leaf size sums |
| SpineLeafTraffic.RunFromDecoded | spineleaf_network_report.py:169-208 | running rows equals applying the events they decode to, one by one |
| SpineLeafTraffic.ApplyAllTiming | spineleaf_network_report.py:171-184 | a run of timing events acts on the timing variables alone |
| SpineLeafTraffic.ApplyInv | spineleaf_network_report.py:181-208 | each step keeps the length and rate lists equal in length, recorded lengths nonzero, and the two counters equal to the map's intra and extra sums |
| SpineLeafTraffic.RunFromInv | spineleaf_network_report.py:169-208 | the same invariant holds after any successful pass |
| SpineLeafTraffic.RunLocality | spineleaf_network_report.py:199-208 | after a pass, intra-leaf plus extra-leaf is the total size in the map, and the length and rate lists have equal length |
| SpineLeafTraffic.RunFromAppend | spineleaf_network_report.py:169 | a pass over two row blocks is the pass over the second from the state the first leaves |
| SpineLeafTraffic.ConnectionEvents | spineleaf_network_report.py:175-184 | open, sends and close record the plain sum of their values and change nothing else; a zero sum is a division by zero |
| SpineLeafTraffic.ConnectionLength | spineleaf_network_report.py:175-184 | the same for any rows that decode to such a connection |
| SpineLeafTraffic.OpenSendSendClose | spineleaf_network_report.py:175-183 | open 5, send 3, send 2, close 1 records length 11 |
| SpineLeafTraffic.ApplyAllAppend | spineleaf_network_report.py:169 | a pass over two event blocks is the pass over the second from the state the first leaves |
| SpineLeafTraffic.GroupEffect | spineleaf_network_report.py:169-208 | a whole connection (size, open, sends, close, connect) leaves the same result whatever size and length the loop held before, and fails exactly when its values sum to 0 |
| SpineLeafTraffic.ConnectsCommute | spineleaf_network_report.py:199-208 | two closed connections recorded in either order give the same map, the same intra-leaf and extra-leaf totals, and the same sizes and lengths as multisets |
| SpineLeafTraffic.GroupsCommute | spineleaf_network_report.py:169-208 | swapping two whole connections in the input fails in the same cases and gives the same map, locality totals, and multisets of sizes and lengths |
| SpineLeafScenario.DecodeSizeRow | spineleaf_network_report.py:171-173 | a `sendBytes` row whose value is a number followed by a 3-character unit decodes to that size |
| SpineLeafScenario.DecodeTimeRow | spineleaf_network_report.py:175-182 | a `tOpen` or `tClose` row whose value is a number followed by a 1-character unit decodes to that time |
| SpineLeafScenario.DecodeConnectRow | spineleaf_network_report.py:186-196 | a `connectAddress` row whose key and value are paths fitting `pattern1` and `pattern2`, with printed numbers a, b and c, d as their first two bracket numbers, decodes to the link (a, b, c, d) |
| SpineLeafScenario.FlowApply | spineleaf_network_report.py:169-208 | from the start, one flow's size, open, close and connect events record the size, the length open + close and the rate, put (size, length) under the endpoints, and count the size as intra-leaf exactly when both leaves are equal; a zero length is a division by zero |
| SpineLeafScenario.SingleFlow | spineleaf_network_report.py:169-208 | any four rows decoding to those events run from the start to that same state |
| OwCellTraffic.ClassifyShape | owcell_network_report.py:111-118 | the topology branch is the first of rows, columns, racks, hosts the key contains |
| OwCellTraffic.ConnectionKey | owcell_network_report.py:85-94 | the key is (group 1, group 2) of the parameter key and of the value; it exists exactly when both coordinates are read |
| OwCellTraffic.DecodeShape | owcell_network_report.py:111-118 | a dimension decodes exactly when its whole value is an integer, into that field |
| OwCellTraffic.Decode | owcell_network_report.py:71-118 | flow markers take precedence; a row with none may set a dimension; otherwise it is skipped; failures are bad integers, failed matches or paths outside the model |
| OwCellTraffic.Connect | owcell_network_report.py:96-110 | the connection is recorded in the map, its size goes to exactly one cell counter and exactly one rack counter, and intra-rack needs both cell and rack equal |
| OwCellTraffic.Apply | owcell_network_report.py:71-118 | a dimension event sets only its own field; a skipped row changes nothing; timing rows change only the timing |
| OwCellTraffic.Step | owcell_network_report.py:71-118 | a row matching no flow and no topology marker leaves the state unchanged |
| OwCellTraffic.RunFrom | owcell_network_report.py:71-118 | a pass fails only by a bad integer, a failed match, a path outside the model or a division by zero, and a successful one keeps every heat-map key and every recorded size, length and rate it started with |
| OwCellTraffic.Run | owcell_network_report.py:55-118 | from the initial values, a successful pass has one rate per length and the four locality totals equal to the map's cell and rack size sums |
| OwCellTraffic.RunFromDecoded | owcell_network_report.py:71-118 | running rows equals applying their decoded events |
| OwCellTraffic.ApplyAllTiming | owcell_network_report.py:72-84 | a run of timing events acts on the timing variables alone |
| OwCellTraffic.ApplyInv | owcell_network_report.py:80-110 | each step keeps the lists equal in length and the four counters equal to the map's cell and rack sums |
| OwCellTraffic.RunFromInv | owcell_network_report.py:71-118 | the same invariant holds after any successful pass |
| OwCellTraffic.RunLocality | owcell_network_report.py:96-110 | after a pass both counter pairs sum to the total size in the map |
| OwCellTraffic.ApplyPositive | owcell_network_report.py:66-84 | with non-negative values every event succeeds and keeps the length at least 1 |
| OwCellTraffic.StepPositive | owcell_network_report.py:75-84 | a row without a minus sign never divides by zero and keeps the length at least 1 |
| OwCellTraffic.RunFromPositive | owcell_network_report.py:71-118 | a pass over such rows never divides by zero |
| OwCellTraffic.RunUnsigned | owcell_network_report.py:66-110 | from the start state, unsigned rows never divide by zero, every recorded length is at least 1, intra-rack is at most intra-cell and extra-cell at most extra-rack |
| OwCellTraffic.ConnectionEvents | owcell_network_report.py:75-84 | open, sends and close record 1 plus the sum of their values |
| OwCellTraffic.OpenSendSendClose | owcell_network_report.py:75-82 | open 5, send 3, send 2, close 1 records length 12 |
| OwCellTraffic.ApplyAllAppend | owcell_network_report.py:71 | a pass over two event blocks is the pass over the second from the state the first leaves |
| OwCellTraffic.GroupEffect | owcell_network_report.py:71-110 | a whole connection leaves the same result whatever size and length the loop held before, and fails exactly when 1 plus its values is 0 |
| OwCellTraffic.ConnectsCommute | owcell_network_report.py:96-110 | two closed connections recorded in either order give the same map, topology, four locality totals, and sizes and lengths as multisets |
| OwCellTraffic.GroupsCommute | owcell_network_report.py:71-110 | swapping two whole connections in the input fails in the same cases and gives the same map, topology, locality totals, and multisets of sizes and lengths |
| HeatMatrix.Entry | owcell_network_report.py:183-186 | the entry is the recorded size, or 0 for a pair that never connected |
| HeatMatrix.Dense | owcell_network_report.py:177-187 | the matrix has cells times racks rows, each of that length |
| HeatMatrix.DenseEntry | owcell_network_report.py:178-187 | entry [i*racks+j][k*racks+l] is the size sent from rack j of cell i to rack l of cell k |
| HeatMatrix.Transpose | owcell_network_report.py:195 | the transpose has one row per column of the shortest row, and entry [c][r] is the original [r][c] |
| HeatMatrix.TransposeTwice | owcell_network_report.py:195 | transposing a rectangular matrix twice gives it back |
| HeatMatrix.TransposedEntry | owcell_network_report.py:195-198 | after the transpose, row k*racks+l lists what rack l of cell k received from each rack |
| HeatMatrix.NetworkTable | owcell_network_report.py:221-233 | cells are rows times columns, total racks are cells times racks per cell, and total hosts are hosts per rack times total racks |
| HeatMatrix.TableCountsMatrixRows | owcell_network_report.py:221-233 | for every topology, a matrix sized from its dimensions has as many rows, and columns per row, as the table's total racks, and the table's total hosts are hosts per rack times that count |
| HeatMatrix.TopologyBeyondMatrix | owcell_network_report.py:175-187 | with more than 9 cells or more than 8 racks per cell, some pair of the topology's racks lies outside the hardcoded matrix, and whatever is recorded for it leaves the matrix unchanged |
| Scalars.Kind | owcell_network_report.py:312-342 | a row's kind names a statistic its name contains |
| Scalars.KindFirstMatch | owcell_network_report.py:312-342 | a statistic row takes the branch of the first name it contains, and none when it contains no name |
| Scalars.InitTotals | owcell_network_report.py:297-311 | all fourteen counters start at zero and the utilizations are empty |
| Scalars.Tally | owcell_network_report.py:312-342 | a row changes at most one counter, or appends one utilization; a row matching no name changes nothing |
| Scalars.TallyAll | owcell_network_report.py:312-342 | the loop keeps the utilizations it started with in place and never changes the number of counters |
| Scalars.TallyAllUnmatched | owcell_network_report.py:312-342 | rows matching none of the names leave the totals unchanged |
| Scalars.TallyAllUtilizations | owcell_network_report.py:313-314 | the utilizations are the values of the utilization rows, in order |
| Scalars.TallyAllCount | owcell_network_report.py:315-342 | each counter grows by the sum of the values of the rows whose first match is its name |
| Scalars.TableTotals | owcell_network_report.py:297-342 | from zero, each counter is the sum of its rows' values and the utilizations are exactly the utilization values |
| SpineLeafScalars.SplitStep | spineleaf_network_report.py:386-428 | a utilization goes to the spine list when its module holds `spine[` and to the leaf list otherwise; a transfer or receive count goes to the spine count when the module holds `spine[`, otherwise to the leaf count only when the leaf test holds; the shared totals change as in the plain tally |
| SpineLeafScalars.SplitAll | spineleaf_network_report.py:386-428 | every utilization the totals gain goes to exactly one of the spine and leaf lists, and rows matching no name change nothing |
| SpineLeafScalars.RunAsWritten | spineleaf_network_report.py:363-428 | as written, the totals are the owcell tally, utilizations split by spine module, and the leaf counts sum every non-spine module's rows |
| SpineLeafScalars.Run | spineleaf_network_report.py:363-428 | with the corrected test, the totals are the owcell tally, and the leaf counts sum only the non-spine leaf and border-leaf modules' rows |
| SpineLeafScalars.SplitAllTotals | spineleaf_network_report.py:386-428 | the spine/leaf split never changes the plain totals |
| SpineLeafScalars.SplitAllCounters | spineleaf_network_report.py:393-404 | each side's counters are the sums over the rows of that side |
| SpineLeafScalars.SplitAllUtilizations | spineleaf_network_report.py:387-392 | spine utilizations are those from spine modules, leaf utilizations all the others |
| SpineLeafScalars.SumWherePartition | spineleaf_network_report.py:393-404 | two complementary module tests split a counter's sum and a value list's length |
| SpineLeafScalars.AsWrittenPartition | spineleaf_network_report.py:387-404 | as written, spine plus leaf transfer and receive counts equal the totals, and the two utilization lists together are as long as all utilizations |
| SpineLeafScalars.IntendedPartition | spineleaf_network_report.py:393-404 | with a real leaf test, spine plus leaf plus the rows of neither kind make up each total |
| SpineLeafScalars.HostCountedAsLeaf | spineleaf_network_report.py:393-398 | as written, a host's transfer count is added to the leaf count |
| SpineLeafScalars.HostCountedInTotalOnly | spineleaf_network_report.py:393-398 | with the intended test, the host's count is in the total only |

## Left out

- Database access (`create_connection`, the cursors and the `runAttr` loop for the configuration name, date and network) is I/O. The input is modelled as a sequence of rows. The run id and `paramOrder` columns are not read; order is position in the sequence.
- Plotting, table rendering and file saving (matplotlib and seaborn) produce no state the model needs.
- Histograms, CDFs, `statistics.fmean`, the percentage table and the unit scalings (`*1048576`, `*1000000`, `*8`) are floating-point library numerics.
- `throughput_graph` in `spineleaf_network_report.py` is float-based, and its own comments mark its formula as doubtful.
- Flows.ApplyTiming: a rate is kept as the exact pair (size, length) rather than the float `size / length`, whose rounding is floating-point behaviour.
- Text.ParseInt: Python `int()` also accepts surrounding whitespace, underscores between digits and non-ASCII digits. Here those are bad integers.
- Addresses.Tokenize: Python's backtracking `re.search` is modelled only for paths whose bracket count is at most the pattern's group count and whose brackets enclose digit runs. Other paths give `OutOfScope` rather than what the regex would capture.
- Scalars.Tally: `scalarValue` is modelled as an integer. Float statistics and `int()` truncation of float counts are not modelled, and utilizations are kept as their values, not plotted.
- HeatMatrix.Dense: the matrix is stated for any cell and rack count. The script's 9 and 8 are constants here and are not checked against the topology read from the parameters; what a larger topology loses is stated by HeatMatrix.TopologyBeyondMatrix.
- A whole flow is run end to end for spineleaf only (SpineLeafScenario). The owcell loop is covered by its general lemmas.

## Findings

| source | as written | input that shows it | evidently intended | confidence | as-written member | corrected member |
|---|---|---|---|---|---|---|
| spineleaf_network_report.py:397-403 | `'leaf[' or 'borderLeaf' in row[2]` is the non-empty string `'leaf['`, so it is always true and every non-spine module counts as leaf | a `txPk:count` row of value 7 from module `net.host[3].eth[0]` adds 7 to `tr_leaf_count` | count a row as leaf only when its module contains `leaf[` or `borderLeaf` | not executed | SpineLeafScalars.HostCountedAsLeaf | SpineLeafScalars.HostCountedInTotalOnly |
