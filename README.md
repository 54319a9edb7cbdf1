# Verified model of the mixed-behaviour process-mining scripts

This project models, in Dafny, the three pieces of the repository's own logic
that are more than calls into process-mining and graph libraries:

- **The flower-pattern log splitter** (`log_split`, split_logs_behaviours.py).
  It runs on a discovered Petri net. It finds the loop transitions, whose name
  contains `init_loop_` anywhere. It takes the places right after them. It
  keeps those places with at least 20 outgoing arcs to labelled transitions
  (the "flower" places). It collects the labels one arc after the flower
  places (`flower_users`, the flower activity set). Finally it splits the
  event log: a trace with an event whose `concept:name` is one of those labels
  goes to the coordinated log, every other trace to the uncoordinated log.
- **Operator extraction and gate counting** (`get_operators` and
  `find_gate_count`, calculate_constructs.py). The pre-order walk of a process
  tree collects the operators of the nodes it reaches through operator nodes
  only. The counting loop then counts the XOR (`"X"`) and AND (`"+"`) operators.
- **Event-log preparation** (generate_logs_spain_thailand.py). This covers the
  row rules of `preprocess_df`: keep reposts, normalise account ids, split on
  `is_control`. It also covers `preprocess_log`: trim every trace to 10
  events, keep traces with at least 2 events, take the first `log_length`
  traces. Last comes the per-country `log_length`.

Files and modules:

| file | module | models |
|---|---|---|
| wrappers.dfy | `Wrappers` | `Option` (Python `None`) and `Result` (a raised error) |
| sequences.dfy | `Sequences` | order-preserving `Filter` and `Map` (list comprehensions), `Interleaves` (a split into two parts that loses, duplicates and reorders nothing), with their lemmas |
| event_log.dfy | `EventLogs` | events, traces and event logs |
| flower_split.dfy | `FlowerSplit` | split_logs_behaviours.py |
| gate_count.dfy | `GateCount` | calculate_constructs.py |
| log_generation.dfy | `LogGeneration` | generate_logs_spain_thailand.py |

Form of the model:

- The comprehensions of `log_split` (`loop_t`, `loop_place`, `flower_users`)
  are functions.
- Its two loops are methods with loop invariants. One is the flower-place
  loop with its `count` accumulator (`CountLabelledOutArcs`,
  `SelectFlowerPlaces`). The other is the partition loop (`PartitionLog`).
- `get_operators` appends to a list shared with its inner function
  `recurse`. The model is a class `OperatorCollector` with an `operators`
  field and a recursive method `Recurse`, checked against the pre-order
  function `Operators`.
- The trimming and selection loops of `preprocess_log` are methods. The
  column-wise rules of `preprocess_df` are functions over a sequence of rows.
- The Petri net's arcs are typed as place-to-transition or
  transition-to-place. So the net is bipartite by construction, and
  `arc.target.label` on an arc that leaves a place always reads a
  transition's label.
- Transitions, places and traces are values: object identity in the scripts
  is value equality here, which agrees as long as node names are unique.
- The net's transitions and arcs are unordered sets in the Petri-net
  library; the model lists them as sequences. The order this gives to
  `loop_place`, `flower_places` and `flower_users` does not exist in the
  scripts, but it never reaches the output: the split depends only on which
  labels occur (`PartitionLog` is stated over the set of `flower_users`, and
  `FlowerUsersAreFlowerLabels` equates that set with the flower activity set).
- A transition labelled with the empty string counts as labelled, because
  the code tests `label is not None` (`SilentAndEmptyLabels`).
- `filter_case_size(log, 2, 1e6)` keeps the traces with 2 to 1000000
  events. That is the library's documented behaviour, written out here.
  Trimming runs first, so the upper bound never removes a trace. As a
  result, a trace of more than 1000000 events is still selected, cut to 10
  events (`EligibleIsTrimmedLongTraces`).
- The scripts never define the string forms of process-tree operators.
  `Symbol` writes them out as the process-tree library's operator
  enumeration gives them through `__str__` (`X` XOR, `+` AND, `->`
  sequence, `*` loop, `O` or, `<>` interleaving, `PO` partial order); the
  model assumes those values.

## Model

| member | source | states |
|---|---|---|
| `FlowerSplit.ContainsSubstring` | split_logs_behaviours.py:27 | `'init_loop_' in t.name`: true iff the marker occurs at some position of the name, not only at the start |
| `FlowerSplit.LoopTransitions` | split_logs_behaviours.py:27 | a transition is in `loop_t` iff it is a transition of the net whose name contains `init_loop_` |
| `FlowerSplit.LoopPlaces` | split_logs_behaviours.py:31 | a place is in `loop_place` iff some arc leaves a loop transition for it |
| `FlowerSplit.CountLabelledOutArcs` | split_logs_behaviours.py:38-41 | the counter ends equal to the number of arcs that leave the place for a transition whose label is not `None` |
| `FlowerSplit.SelectFlowerPlaces` | split_logs_behaviours.py:35-43 | `flower_places` is the candidate list, in order and with repetitions, reduced to places with at least 20 labelled outgoing arcs; a place is in it iff it is a candidate and reaches 20 |
| `FlowerSplit.FlowerPlaceMembership` | split_logs_behaviours.py:37-43 | membership in the flower-place list is exactly "candidate and labelled out-degree at least 20" |
| `FlowerSplit.FlowerUsers` | split_logs_behaviours.py:47 | a label is in `flower_users` iff some arc leaves a flower place for a transition carrying exactly that label; a silent transition contributes nothing |
| `FlowerSplit.FlowerUsersAreFlowerLabels` | split_logs_behaviours.py:27-47 | the labels that `loop_t` through `flower_users` compute are exactly the flower activity set, given independently: labels one arc after a place that a loop transition of the net enters and that has at least 20 labelled outgoing arcs |
| `FlowerSplit.AnyEventIn` | split_logs_behaviours.py:51 | `any(...)` is true iff some event's `concept:name` is in `flower_users`; false on an empty trace |
| `FlowerSplit.PartitionLog` | split_logs_behaviours.py:50-54 | `c_log` is the input traces that touch a flower label and `u_log` those that do not, each in input order; together they interleave the input log, so the sizes add up to the input's; an empty trace never goes to `c_log`; only which labels occur in `flower_users` matters, not their order or repetitions |
| `FlowerSplit.LogSplit` | split_logs_behaviours.py:3-58 | `log_split` returns the input traces that have an event in the flower activity set, in order, and the rest, in order; every trace lands in exactly one output |
| `FlowerSplit.NoFlowerLabelsNoCoordination` | split_logs_behaviours.py:50-54 | with no flower labels the coordinated log is empty and the uncoordinated log is the input log |
| `FlowerSplit.NoFlowerNoSplit` | split_logs_behaviours.py:27-54 | when no transition name contains the marker, or no candidate place reaches 20 labelled arcs, the flower activity set is empty, `c_log` is empty and `u_log` equals the input |
| `FlowerSplit.ThresholdBoundary` | split_logs_behaviours.py:37-43 | a candidate place with exactly 19 labelled outgoing arcs is not a flower place and not in `flower_places`; with exactly 20 it is both |
| `FlowerSplit.SilentAndEmptyLabels` | split_logs_behaviours.py:40-47 | a transition labelled with the empty string after a flower place puts `""` in the flower activity set; every flower label comes from a labelled (non-silent) transition |
| `GateCount.OperatorCollector.constructor` | calculate_constructs.py:14 | the shared operator list starts empty |
| `GateCount.OperatorCollector.Recurse` | calculate_constructs.py:19-23 | `recurse(node)` appends exactly the pre-order operator list of `node` to the shared list: nothing for a node without an operator, else its operator and then its children's lists left to right |
| `GateCount.GetOperators` | calculate_constructs.py:2-25 | `get_operators` returns the pre-order operator list; it is empty iff the root has no operator, and it starts with the root's operator otherwise |
| `GateCount.CollectedIsReachable` | calculate_constructs.py:19-24 | every collected operator sits on a node reached from the root through operator nodes only |
| `GateCount.ReachableIsCollected` | calculate_constructs.py:19-24 | the operator of every node reached from the root through operator nodes only is collected |
| `GateCount.OperatorsAreReachable` | calculate_constructs.py:19-24 | an operator is collected iff it sits on a node reachable from the root through operator nodes only: the walk prunes exactly at nodes without an operator |
| `GateCount.PreOrderLayout` | calculate_constructs.py:20-23 | the root's operator comes first, and the operators of child `i` form one contiguous block right after those of children `0..i-1` |
| `GateCount.OperatorsBoundedBySize` | calculate_constructs.py:19-24 | at most one operator per tree node is collected |
| `GateCount.CountGates` | calculate_constructs.py:58-67 | `xor_count` is the number of operators whose string form is `"X"`, `and_count` the number whose form is `"+"`, i.e. the multiplicities of XOR and AND; their sum is at most the list's length |
| `GateCount.CountSymbolIsMultiplicity` | calculate_constructs.py:62-67 | counting by string form `"X"` (or `"+"`) counts exactly the XOR (or AND) operators |
| `GateCount.GateCountsBounded` | calculate_constructs.py:62-67 | `xor_count + and_count` equals the number of XOR and AND operators, so no other operator is counted and none twice, and it never exceeds the number of operators |
| `GateCount.GateCountsPermutationInvariant` | calculate_constructs.py:62-67 | both counts are unchanged by any reordering of the operator list |
| `GateCount.FindGateCount` | calculate_constructs.py:55-69 | from the discovered tree, the two counts are the numbers of XOR and AND operators among those the walk collects; both are 0 when the root has no operator |
| `LogGeneration.NormaliseAccountId` | generate_logs_spain_thailand.py:24-26 | the normalised id starts with `u`; what follows is the id's own characters in their order, with no `+` or `=` (the id interleaves it with a sequence of only `+` and `=`); its length is 1 + the original length - the number of `+` and `=` removed |
| `LogGeneration.StrippedLength` | generate_logs_spain_thailand.py:25 | removing `+` and `=` shortens the id by exactly their number of occurrences |
| `LogGeneration.ToEventRow` | generate_logs_spain_thailand.py:26-46 | the rewritten row takes `post_time` as `time:timestamp` and the reposted post id as `case:concept:name`; its `concept:name` is the normalised account id (`u`, then the id's own characters other than `+` and `=`, in order); it has no `is_control` column |
| `LogGeneration.PreprocessRows` | generate_logs_spain_thailand.py:14-46 | the uncoordinated frame is exactly the control reposts and the coordinated frame exactly the other reposts, each row rewritten, in row order, one output row per input row; together they interleave the rewritten reposts; non-reposts are dropped; the output rows have no `is_control` column |
| `LogGeneration.FilterRowsMembership` | generate_logs_spain_thailand.py:42-46 | a rewritten row is in the uncoordinated (coordinated) frame iff it comes from a repost with `is_control` true (false) |
| `LogGeneration.Trim` | generate_logs_spain_thailand.py:61-68 | the trimmed trace keeps the trace attributes, its events are a prefix of the original's, of length 10 when the trace is longer and unchanged otherwise |
| `LogGeneration.TrimLog` | generate_logs_spain_thailand.py:57-68 | trimming keeps the number and order of traces and trims each one; every trimmed trace has at most 10 events |
| `LogGeneration.SelectFirst` | generate_logs_spain_thailand.py:74-77 | the selection succeeds iff `log_length` traces exist and then yields exactly the first `log_length`, in order; otherwise it fails at index = the filtered log's length |
| `LogGeneration.PreprocessLog` | generate_logs_spain_thailand.py:51-79 | `preprocess_log` returns the first `log_length` of the trimmed traces that keep between 2 and 1000000 events, each with between 2 and 10 events, and fails iff fewer than `log_length` survive |
| `LogGeneration.EligibleBounds` | generate_logs_spain_thailand.py:59-71 | every trace that survives trimming and the case-size filter has between 2 and 10 events |
| `LogGeneration.EligibleIsTrimmedLongTraces` | generate_logs_spain_thailand.py:59-71 | the surviving traces are the trimmed versions of the input traces with at least 2 events, in order |
| `LogGeneration.LogLength` | generate_logs_spain_thailand.py:111-114 | a log length is assigned exactly for `spain` (3000) and `thailand` (1500), and for no other country |
| `LogGeneration.GenerateCountryLog` | generate_logs_spain_thailand.py:111-118 | the log generated for Spain holds 3000 traces and for Thailand 1500, a prefix of the eligible traces; it is produced iff that many traces are eligible |

## Left out

- File and format I/O: reading and writing XES, PNML and parquet, directory scanning, `load_config`, argparse and the path construction in every `__main__` block.
- Process discovery (the inductive miner) is a library algorithm. The discovered Petri net and process tree are inputs of the model.
- `log_converter.apply`, the library conversion of rows into traces. The converted log is an input of `PreprocessLog`, so the model does not connect `PreprocessRows` to `PreprocessLog`.
- The pandas-specific steps of `preprocess_df`. These are `pd.to_datetime`, the `astype('str')` conversions (account ids and post ids are strings from the start), column selection and the positional rename (the model's output type has the renamed columns).
- `sort_values` by `post_time` in `preprocess_df` (line 32) uses a sort that is not guaranteed stable. The model takes rows already in time order. The repost filter and id rewriting act row by row, so they give the same rows before or after the sort.
- The null filters of lines 33-34 run after `astype('str')` and remove nothing, so they are not modelled as filters. Missing (non-boolean) values in `is_repost` and `is_control` are not modelled either: both columns are booleans here.
- Events always carry `concept:name` in the model. The `KeyError` that `event['concept:name']` raises on an event without it is not modelled.
- Python's recursion limit, which `recurse` would hit on a very deep process tree, is not modelled.
- GateCount.OperatorsAreReachable: it states the length of the operator list only through membership (an operator is collected iff it is reachable through operator nodes) and the bound `OperatorsBoundedBySize`. It does not state that the length equals the number of such nodes, because counting tree paths as a set would need a finite-set cardinality argument this model does not make.
- calculate_centrality.py, calculate_density.py, calculate_diameter.py and generate_petri_nets.py compute floating-point metrics through graph libraries or only call discovery. They are not part of this model.
