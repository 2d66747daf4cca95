# CTC and ASG label graphs, and device buffer growth

This project models two pieces of a sequence-training toolkit and proves
properties of them.

1. The label-graph builders of `Fsa.py`.
   - `ctc_fsa_for_label_seq` turns a label sequence into the CTC alignment
     acceptor, a pair (state count, ordered edge list).
   - `asg_fsa_for_label_seq` builds the simpler ASG chain.
   - Each edge is a tuple (from, to, symbol, weight). The blank symbol is
     `num_labels` and every weight is the placeholder `1.`.
2. `_device_maybe_enlarge_data` of `EngineUtil.py`. It grows a device's
   per-key index and target buffers along dimension 0. The old rows are kept
   and the new rows are filled with 0 (index) or -1 (targets).

Files:

- `Fsa.dfy` (module `Fsa`) holds the edge type and the specification
  functions of the edge lists. It also holds the builders, written as
  methods. They have the same helper structure as the source: each helper
  takes the edge list, appends to it and returns it. The builders' `for`
  loops keep the growing list equal to the specification function.
- `FsaProperties.dfy` (module `FsaProperties`) holds the lemmas about those
  edge lists.
- `EngineUtil.dfy` (module `EngineUtil`) holds the buffer model and the
  growth method. The growth method works on a `Device` object whose two
  per-key maps it replaces.

State ids are natural numbers. The source turns them into strings with
`str(i)`, only so they can be rendered. Weights are the constant
`UnitWeight = 1.0`.

## Where the code and its description differ (the model follows the code)

- Both builders use the position index `m` as the symbol of every non-blank
  edge. They do not use the label value `label_seq[m]`. The ASG builder also
  uses `m` as its base state. So ASG positions that share a label value do
  not collide: the chain has distinct states 0..L. The docstring promises
  that every label edge carries a symbol below `num_labels`, and that only
  blank edges carry `num_labels`. For CTC this holds exactly when
  L <= num_labels (`CtcLabelSymbolsBelowBlank`). At L = num_labels + 1 every
  symbol is still at most `num_labels` (`CtcSymbolsWithinAlphabet`), but the
  label edges of the last position carry the blank value. For ASG, the blank
  value `num_labels` appears on an edge exactly when L > num_labels
  (`AsgBlankFree`).
- The CTC final stage uses the last position index L-1 as its symbol, not
  the last label.
- The skip test at position 0 compares with `label_seq[-1]`, the last label
  (`Predecessor`).
- The CTC final state is not free of outgoing edges. It has one: its blank
  self-loop (`CtcEdgesWellFormed`). The ASG final state `num_labels - 1` is
  not free of outgoing edges either whenever it lies on the chain: its
  self-loop leaves it, or the first forward edge when num_labels = 1
  (`AsgStartAndFinalEdges`). In both builders no edge enters the start state
  0 (`CtcEdgesWellFormed`, `AsgNothingEntersStart`).
- ASG reports `num_states == num_labels` whenever the sequence is non-empty.
  The edges still reach state L. So the endpoints lie below the state count
  exactly when L < num_labels (`AsgEndpointsWithinStates`).
- By the state-count convention the ASG final state is `num_labels - 1`.
  When L + 1 < num_labels no edge enters it, so it cannot be reached from
  the start state. Every reported state is reachable from 0 and reaches the
  reported final state exactly when num_labels <= L + 1
  (`AsgReportedFinalReachable`).

## Model

| member | source | states |
|---|---|---|
| FsaProperties.PredecessorIsNegativeIndex | Fsa.py:51 | the label position m is compared with is labelSeq[(m - 1) mod L]: Python's negative index, so position 0 is compared with the last label |
| Fsa.CtcBlockEdges | Fsa.py:46-52 | a position adds 5 edges when its label differs from its predecessor and 4 otherwise |
| Fsa.CreateStatesFromLabelForCtc | Fsa.py:32-55 | appends to the list exactly the block of the position (the four fixed edges, then the skip edge when the labels differ), keeps the earlier edges, and returns the state count 2*(m+2)-1 |
| Fsa.CreateLastStateForCtc | Fsa.py:58-80 | appends exactly the four closing edges CtcLastEdges into the new state numStates, keeps the earlier edges, and increments the state count |
| Fsa.CtcFsaForLabelSeq | Fsa.py:6-29 | for a non-empty sequence, returns 2*L+2 states whether or not labels repeat, and the edge list CtcEdges: every position block in order, then the final stage |
| Fsa.CreateStatesFromLabelForAsg | Fsa.py:106-125 | appends AsgBlockEdges(m), the forward edge (m, m+1, m) and the self-loop (m+1, m+1, m), keeps the earlier edges, and sets the state count to numLabels |
| Fsa.AsgFsaForLabelSeq | Fsa.py:83-103 | returns (0, []) for an empty sequence; otherwise returns numLabels states and the chain AsgChain(L) |
| FsaProperties.CtcBlocksLength | Fsa.py:46-52 | after k positions the list holds 4 edges per position plus one per skip position |
| FsaProperties.CtcBlocksPrefix | Fsa.py:22-23 | edges are only appended: the list after j positions is a prefix of the list after k >= j positions |
| FsaProperties.CtcEdgeCount | Fsa.py:73-78 | the CTC list has 4*L + (number of skip positions) + 4 edges, and its last four are (F-1,F,blank), (F,F,blank), (F-2,F,L-1), (F-3,F,L-1) with F = 2L+1 |
| FsaProperties.CtcPositionEdges | Fsa.py:46-53 | position m's block starts at 4m + (skips before m): (2m,2m+1,blank), (2m+1,2m+1,blank), (2m+1,2m+2,m), (2m+2,2m+2,m), then (2m,2m+2,m) if HasSkip; the next block follows right after it |
| FsaProperties.CtcEdgesWellFormed | Fsa.py:10-16 | every CTC edge has src <= dst <= 2L+1, none enters state 0, the only edge leaving the final state is its blank self-loop, the weight is 1.0, and the symbol is the blank or a position below L |
| FsaProperties.CtcSkipEdgeIff | Fsa.py:51-52 | the skip edge (2m, 2m+2, m) occurs in the CTC list if and only if HasSkip holds, that is labelSeq[m] differs from its predecessor |
| FsaProperties.CtcPairSkips | Fsa.py:51-52 | for [a, b], the skip edges (0,2,0) and (2,4,1) are present iff a != b: none for [0,0], both for [0,1] |
| FsaProperties.CtcWrapAroundSkip | Fsa.py:51 | for [a, b, a], position 0 never gets a skip edge, because of the wrap-around; position 1 gets one iff b != a |
| FsaProperties.CtcSymbolsWithinAlphabet | Fsa.py:16 | every CTC symbol is at most numLabels (a label index or the blank) if and only if L <= numLabels + 1 |
| FsaProperties.CtcEdgeRoles | Fsa.py:46-77 | every blank edge (into an odd state, other than the closing label edges) carries numLabels, and every label edge carries a position index below L |
| FsaProperties.CtcLabelSymbolsBelowBlank | Fsa.py:46-77 | every label edge carries a symbol below numLabels, so label edges never look like blanks, if and only if L <= numLabels |
| FsaProperties.CtcBlankShadowsPosition | Fsa.py:46-52 | when L > numLabels, the label edge (2n+1, 2n+2, n) of position n = numLabels is in the CTC list and carries the blank symbol numLabels |
| FsaProperties.CtcForwardStep | Fsa.py:47-49 | every CTC state below the final one has an edge to its successor |
| FsaProperties.CtcAllStatesReachable | Fsa.py:13 | every CTC state is reachable from start state 0, and the final state 2L+1 is reachable from every state |
| FsaProperties.AsgChainLength | Fsa.py:120-123 | the ASG list has exactly 2*L edges |
| FsaProperties.AsgChainLayout | Fsa.py:120-122 | ASG edge 2m is (m, m+1, m) and edge 2m+1 is (m+1, m+1, m) |
| FsaProperties.AsgEdgeShapes | Fsa.py:120-122 | every ASG edge is a forward step m -> m+1 or a self-loop on m+1, with symbol m < L and weight 1.0: no skip edges |
| FsaProperties.AsgStartAndFinalEdges | Fsa.py:120-122 | for L >= 1 and 1 <= numLabels <= L + 1, some edge leaves the reported final state numLabels - 1 |
| FsaProperties.AsgNothingEntersStart | Fsa.py:120-122 | for every L, no ASG edge enters the start state 0 |
| FsaProperties.AsgEndpointsWithinStates | Fsa.py:120-123 | for L >= 1, all ASG endpoints are below the reported count numLabels if and only if L < numLabels |
| FsaProperties.AsgBlankFree | Fsa.py:120-122 | the blank value numLabels occurs on no ASG edge if and only if L <= numLabels |
| FsaProperties.AsgChainReachable | Fsa.py:99-100 | the ASG chain reaches every state 0..L from 0, and reaches L from each of them |
| FsaProperties.AsgChainRuns | Fsa.py:120-122 | along the ASG chain, every state a reaches every state b with a <= b <= L |
| FsaProperties.AsgReportedFinalReachable | Fsa.py:99-123 | for L >= 1, every state below the reported count numLabels is reachable from 0 and reaches the reported final state numLabels - 1 if and only if numLabels <= L + 1 |
| EngineUtil.Full | EngineUtil.py:72 | a fresh buffer has the requested shape and type, and every element is the fill value |
| EngineUtil.AssignPrefix | EngineUtil.py:73 | a slice assignment of the first rows replaces exactly them and keeps the rest, the shape and the type |
| EngineUtil.NewLen | EngineUtil.py:64-66 | the grown length is at least neededLen, and the growth is floor(1.5 * (neededLen - curLen)) |
| EngineUtil.Enlarged | EngineUtil.py:69-79 | the enlarged buffer has only dimension 0 changed, the requested type, the old rows as its prefix, and the fill value in every later row |
| EngineUtil.EnlargedUnique | EngineUtil.py:69-79 | those properties determine the enlarged buffer completely |
| EngineUtil.MaybeEnlargeData | EngineUtil.py:60-79 | when curLen >= neededLen nothing changes; otherwise the index buffer of the key becomes the int8 enlargement filled with 0 and its target buffer the same-typed enlargement filled with -1; all other keys are untouched, and the index buffer then holds at least neededLen rows |

## Left out

- Console output: the `print` calls in the builders have no effect on the result.
- `hmm_fsa_for_word_seq` and its helpers: mostly empty stubs; the rest is lexicon loading and XML parsing.
- `fsa_to_dot_format`, `__add_nodes`, `__add_edges` and `main`: graphviz rendering, file output and argument parsing.
- The rest of `EngineUtil.py` (`assign_dev_data`, `assign_dev_data_single_seq`, `maybe_subtract_priors`): dataset loading, device allocation, locking and floating-point prior arithmetic.
- `RecurrentTransform.py` is not part of this model: it builds symbolic tensor graphs over floating point.
- The path-language property (blank-stripped, collapsed paths spell the label sequence) is not proved. Path enumeration is not modelled. With the position index as symbol, when L <= num_labels the collapsed paths would spell 0..L-1 and not the labels. For longer sequences the label edges of position num_labels carry the blank symbol, so stripping blanks removes that position from every path (`CtcBlankShadowsPosition`).
- Validation of label values (`label_seq[m] < num_labels`) is not modelled: the code never checks it.
- Fsa.CtcFsaForLabelSeq: requires a non-empty sequence. The source then reaches its final stage with the loop variable unbound and raises an error; that error path is not modelled.
- Fsa.CreateLastStateForCtc: requires numStates >= 3 so that all state ids are natural numbers. Its only caller passes 2L+1 >= 3. Smaller counts would produce negative ids in the source.
- EngineUtil.MaybeEnlargeData: requires the key in the index map, and when growing, the key in the target map with as many rows as the index buffer. Without these the source raises a KeyError or a numpy shape error (numpy broadcasting of a one-row source is not modelled).
- EngineUtil.MaybeEnlargeData: elements are unbounded integers. The int8 cast of copied index values and float target values are not modelled. `int(diff_len * 1.5)` is modelled as exact, which ignores float rounding: for differences of 2^53/3 or more, 1.5 times the difference is no longer exact in double precision, and the rounded product can exceed the floor of 3*d/2 by one.
- Buffer identity: buffers are values, so "unchanged" means equal contents and shape; numpy object identity is not modelled.
