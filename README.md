# Dijkstra's shortest paths and the todo argument validators, in Dafny

This project models two parts of a small TypeScript repository and proves
properties of the model.

**The shortest-path module** (`01-argorithm/src/dijkstra.ts`) has four parts:

- `createGraph` turns a list of `[from, to, weight]` tuples into an adjacency
  list with one entry per node, up to the largest node id.
- `PriorityQueue` is a binary min-heap of `{node, distance}` entries.
- `dijkstra` computes, from a start node, each node's distance and its
  predecessor. Unreachable nodes get `Infinity` and `null`. The queue uses
  lazy deletion: a node that was already visited is skipped when it is
  popped again.
- `getShortestPath` follows the predecessor links back from a target.

**The todo command line's validators** (`02-todo/src/cli-helpers.ts`) check a
todo id, a title and a description before either is stored.

The files:

- `wrappers.dfy` (module `Wrappers`): `Option` (the source's `null`) and
  `Result`.
- `priority_queue.dfy` (module `PriorityQueues`): class `PriorityQueue`. Its
  `heap` field is a sequence that each method reassigns, and its sift
  operations are recursive methods, as in the source.
- `graph.dfy` (module `Graphs`):
  - edges and adjacency lists;
  - `CreateGraph`, a loop proved against the function `Outgoing`;
  - walks and their weights, which define what a shortest distance is.
- `shortest_path.dfy` (module `ShortestPaths`):
  - `Dijkstra`, proved against the predicate `SolvesShortestPaths`;
  - the theory behind it: potentials, certificates, uniqueness of distances,
    and self-loops;
  - `GetShortestPath` and the lemmas that connect its result to shortest
    walks.
- `shortest_path_examples.dfy` (module `DijkstraExamples`): every case of
  `01-argorithm/test/dijkstra.test.ts`. The expected distances and paths are
  derived from the contracts alone. Each case has a scenario method that
  performs the steps of its test and whose `ensures` is what the test
  expects.
- `cli_helpers.dfy` (module `CliHelpers`):
  - `trim`, `length` in UTF-16 code units, and base-10 `parseInt`, written
    out;
  - the three validators, each returning a `Result`.

Distances are `Dist = Finite(d: nat) | Infinity`, with `Plus`, `Less` and
`AtMost`. They follow JavaScript's arithmetic on `Infinity`:
`Infinity + w` is `Infinity`, and nothing is less than `Infinity` except a
finite value.

## Model

| member | source | states |
|---|---|---|
| PriorityQueues.PriorityQueue.constructor | 01-argorithm/src/dijkstra.ts:10-11 | a new queue is an empty heap |
| PriorityQueues.PriorityQueue.Enqueue | 01-argorithm/src/dijkstra.ts:13-16 | heap order is kept; the contents gain exactly the one entry `(node, distance)` |
| PriorityQueues.PriorityQueue.Dequeue | 01-argorithm/src/dijkstra.ts:18-30 | on an empty heap it returns `None` and changes nothing; otherwise it returns the old root, whose priority is no larger than any entry's, removes exactly that one occurrence, and keeps heap order |
| PriorityQueues.PriorityQueue.IsEmpty | 01-argorithm/src/dijkstra.ts:32-34 | true exactly when the queue holds no entry |
| PriorityQueues.PriorityQueue.HeapifyUp | 01-argorithm/src/dijkstra.ts:36-43 | from a heap whose only fault is between `index` and its parent, it restores heap order; it only permutes the entries and leaves a heap already in order untouched, because it swaps only on a strict `>` |
| PriorityQueues.PriorityQueue.HeapifyDown | 01-argorithm/src/dijkstra.ts:45-62 | from a heap whose only fault is between `index` and its children, it restores heap order; it only permutes the entries and leaves a heap already in order untouched, because it swaps only on a strict `<` |
| PriorityQueues.ParentIsFloor | 01-argorithm/src/dijkstra.ts:37 | `Math.floor((index - 1) / 2)`: the largest `p` with `2p <= index - 1`, so -1 for the root and a smaller index for every other position |
| PriorityQueues.RootIsMinimal | 01-argorithm/src/dijkstra.ts:21 | in a heap, the root's priority is at most that of every position |
| PriorityQueues.RootIsMinimalEntry | 01-argorithm/src/dijkstra.ts:21 | in a heap, the root's priority is at most that of every entry held |
| PriorityQueues.SmallestOfFamily | 01-argorithm/src/dijkstra.ts:46-58 | the index `heapifyDown` picks is the smallest of the node and its children; if it is the node itself, the heap is already in order |
| PriorityQueues.SiftDownStep | 01-argorithm/src/dijkstra.ts:58-61 | swapping a node with its strictly smaller, smallest child moves the one fault of heap order down to that child |
| PriorityQueues.SwapKeepsMultiset | 01-argorithm/src/dijkstra.ts:40 | the destructuring swap keeps the multiset of entries |
| Graphs.MaxNode | 01-argorithm/src/dijkstra.ts:111 | the spread `Math.max` over all endpoints bounds every endpoint and is one of them |
| Graphs.MaxNodeIs | 01-argorithm/src/dijkstra.ts:111 | a value that bounds every endpoint and is one of them is the maximum |
| Graphs.CreateGraph | 01-argorithm/src/dijkstra.ts:110-119 | the result has `max + 1` lists, and list `u` is exactly the `(to, weight)` entries of the edges leaving `u`, in input order |
| Graphs.OutgoingAppend | 01-argorithm/src/dijkstra.ts:114-116 | the list built from a concatenation of edge lists is the concatenation of the lists: input order is kept |
| Graphs.OutgoingCount | 01-argorithm/src/dijkstra.ts:114-116 | no deduplication: each `(to, weight)` entry occurs in `u`'s list exactly as often as `(u, to, weight)` occurs in the input |
| Graphs.CreateGraphTargetsInRange | 01-argorithm/src/dijkstra.ts:111-112 | every edge of a built graph points at a node of the graph |
| Graphs.WalkExtend | 01-argorithm/src/dijkstra.ts:82-85 | appending an edge to a walk gives a walk whose weight grows by the edge's weight |
| ShortestPaths.Plus | 01-argorithm/src/dijkstra.ts:85 | `distances[node] + weight`: `Infinity` stays `Infinity`, a finite distance grows by the weight, and the sum is never below the distance |
| ShortestPaths.DistOrder | 01-argorithm/src/dijkstra.ts:87 | the `<` of `newDistance < distances[neighbor]` on `Dist` (`Less`) is a strict total order with `Infinity` above every finite value and below nothing; `AtMost` is its reflexive closure |
| ShortestPaths.Dijkstra | 01-argorithm/src/dijkstra.ts:65-96 | both outputs have one entry per node; the start is at 0 with no predecessor; a node is finite exactly when it is reachable; a finite distance is the least weight of any walk; unreachable nodes keep `None`; every other reached node's predecessor edge realises its distance; and the predecessor links are acyclic |
| ShortestPaths.PotentialBoundsWalks | 01-argorithm/src/dijkstra.ts:85-87 | a potential (0 at the start, never lowered along an edge) is a lower bound on every walk's weight |
| ShortestPaths.SolutionIsPotential | 01-argorithm/src/dijkstra.ts:85-87 | the distances of any correct answer cannot be improved by relaxing one more edge |
| ShortestPaths.SolutionBetweenPotentials | 01-argorithm/src/dijkstra.ts:65-96 | the distances of a correct answer are the largest potential |
| ShortestPaths.DistancesDetermined | 01-argorithm/src/dijkstra.ts:65-96 | a potential whose every finite value is some walk's weight equals the distances of every correct answer |
| ShortestPaths.DistancesUnique | 01-argorithm/src/dijkstra.ts:65-96 | any two correct answers for the same graph and start have the same distances |
| ShortestPaths.TreeBoundsPotential | 01-argorithm/src/dijkstra.ts:87-89 | a value realised along a tree of tight edges is at least every potential |
| ShortestPaths.CertifiedDistances | 01-argorithm/src/dijkstra.ts:65-96 | a potential with a tight tree is the distance vector of every correct answer |
| ShortestPaths.WalkWithSelfLoop | 01-argorithm/test/dijkstra.test.ts:123-138 | a walk stays a walk after a self-loop is added |
| ShortestPaths.SelfLoopsIrrelevant | 01-argorithm/test/dijkstra.test.ts:123-138 | adding a self-loop of any weight to any node changes no distance |
| ShortestPaths.InitialInv | 01-argorithm/src/dijkstra.ts:66-73 | the initial arrays and the queue holding only `(start, 0)` satisfy the loop invariant |
| ShortestPaths.PopStale | 01-argorithm/src/dijkstra.ts:76-79 | popping an entry of a node already visited keeps the invariant |
| ShortestPaths.PopFresh | 01-argorithm/src/dijkstra.ts:76-80 | the popped unvisited node's distance is final: marking it visited keeps the invariant |
| ShortestPaths.RelaxImproves | 01-argorithm/src/dijkstra.ts:85-91 | a strict improvement updates distance, predecessor and queue together and keeps the invariant |
| ShortestPaths.RelaxSkips | 01-argorithm/src/dijkstra.ts:87 | an edge that does not strictly improve its target keeps the invariant |
| ShortestPaths.FinishNode | 01-argorithm/src/dijkstra.ts:82-92 | after all of a node's edges are relaxed, the outer invariant holds again |
| ShortestPaths.InvAtExit | 01-argorithm/src/dijkstra.ts:75-95 | once the queue is empty, the invariant implies a correct answer |
| ShortestPaths.GetShortestPath | 01-argorithm/src/dijkstra.ts:98-108 | the path ends at the target, each node's predecessor is the node before it, the first node has no predecessor, and a target without a predecessor gives `[target]` |
| ShortestPaths.ChainPrefix | 01-argorithm/src/dijkstra.ts:102-105 | a chain has more than one node exactly when its last node has a predecessor, and dropping that node leaves a chain |
| ShortestPaths.ChainUnique | 01-argorithm/src/dijkstra.ts:98-108 | there is only one predecessor chain back from a node, so the path is determined by the links |
| ShortestPaths.ChainIsShortestWalk | 01-argorithm/src/dijkstra.ts:98-108 | on a correct answer, the path to a reached node starts at the start node and lists the nodes of a walk whose weight is the node's distance |
| DijkstraExamples.SingleNodeAnswer | 01-argorithm/test/dijkstra.test.ts:25-30 | the graph `[[]]` has the answer `[0]`, `[null]` |
| DijkstraExamples.SingleNodeScenario | 01-argorithm/test/dijkstra.test.ts:25-30 | solving `[[]]` from node 0 gives `[0]` and `[null]` |
| DijkstraExamples.SimpleBuilt | 01-argorithm/test/dijkstra.test.ts:6-15 | the first test's edges build the expected adjacency list |
| DijkstraExamples.SimpleDistances | 01-argorithm/test/dijkstra.test.ts:17-19 | every correct answer has distances `[0, 4, 2, 9, 11]` |
| DijkstraExamples.SimplePath | 01-argorithm/test/dijkstra.test.ts:21-22 | the path to node 3 is `[0, 1, 3]` |
| DijkstraExamples.SimpleScenario | 01-argorithm/test/dijkstra.test.ts:5-23 | building, solving and reading the path give the test's expected values |
| DijkstraExamples.DisconnectedDistances | 01-argorithm/test/dijkstra.test.ts:32-45 | every correct answer has distances `[0, 5, Infinity, Infinity]` |
| DijkstraExamples.DisconnectedScenario | 01-argorithm/test/dijkstra.test.ts:32-45 | building and solving give the test's expected distances |
| DijkstraExamples.MultiRouteDistances | 01-argorithm/test/dijkstra.test.ts:47-63 | every correct answer has distances `[0, 7, 3, 9]` |
| DijkstraExamples.MultiRoutePath | 01-argorithm/test/dijkstra.test.ts:47-63 | the path to node 3 is `[0, 2, 1, 3]` |
| DijkstraExamples.MultiRouteScenario | 01-argorithm/test/dijkstra.test.ts:47-63 | building, solving and reading the path give the test's expected values |
| DijkstraExamples.ComplexDistances | 01-argorithm/test/dijkstra.test.ts:65-86 | every correct answer has distances `[0, 1, 3, 4, 7, 8]` |
| DijkstraExamples.ComplexPath | 01-argorithm/test/dijkstra.test.ts:65-86 | the path to node 5 is `[0, 1, 2, 3, 5]` |
| DijkstraExamples.ComplexScenario | 01-argorithm/test/dijkstra.test.ts:65-86 | building, solving and reading the path give the test's expected values |
| DijkstraExamples.ZeroWeightDistances | 01-argorithm/test/dijkstra.test.ts:88-103 | every correct answer has distances `[0, 0, 0, 1]` |
| DijkstraExamples.ZeroWeightPath | 01-argorithm/test/dijkstra.test.ts:88-103 | the path to node 3 is `[0, 1, 2, 3]` |
| DijkstraExamples.ZeroWeightScenario | 01-argorithm/test/dijkstra.test.ts:88-103 | building, solving and reading the path give the test's expected values |
| DijkstraExamples.LargeWeightDistances | 01-argorithm/test/dijkstra.test.ts:105-121 | every correct answer has distances `[0, 150, 100, 200]` |
| DijkstraExamples.LargeWeightPath | 01-argorithm/test/dijkstra.test.ts:105-121 | the path to node 3 is `[0, 2, 1, 3]` |
| DijkstraExamples.LargeWeightScenario | 01-argorithm/test/dijkstra.test.ts:105-121 | building, solving and reading the path give the test's expected values |
| DijkstraExamples.SelfLoopDistances | 01-argorithm/test/dijkstra.test.ts:123-138 | every correct answer has distances `[0, 3, 4]` |
| DijkstraExamples.SelfLoopPath | 01-argorithm/test/dijkstra.test.ts:123-138 | the path to node 2 is `[0, 1, 2]` |
| DijkstraExamples.SelfLoopScenario | 01-argorithm/test/dijkstra.test.ts:123-138 | building, solving and reading the path give the test's expected values |
| CliHelpers.IsWhiteSpace | 02-todo/src/cli-helpers.ts:47 | the characters `trim` and `parseInt` skip include space, tab, line feed and carriage return; each is a single UTF-16 code unit and none is a digit |
| CliHelpers.LeadingWhiteSpace | 02-todo/src/cli-helpers.ts:47 | the count of leading white-space characters: all of them are white space, and the next one is not |
| CliHelpers.TrailingWhiteSpace | 02-todo/src/cli-helpers.ts:47 | where trailing white space begins: everything after it is white space, and the character before it is not |
| CliHelpers.TrimStart | 02-todo/src/cli-helpers.ts:38 | the white space `parseInt` skips: the result is a suffix of the input, everything before it is white space, and it does not start with white space |
| CliHelpers.Trim | 02-todo/src/cli-helpers.ts:47 | `trim()` returns a contiguous part of the input with only white space around it, and no white space at either end; it is empty exactly when the input is all white space |
| CliHelpers.TrimIdempotent | 02-todo/src/cli-helpers.ts:55 | trimming a trimmed string changes nothing |
| CliHelpers.Utf16Length | 02-todo/src/cli-helpers.ts:51 | `length` counts UTF-16 code units: between one and two per character |
| CliHelpers.Utf16LengthBmp | 02-todo/src/cli-helpers.ts:51 | a string whose characters all lie in the Basic Multilingual Plane has exactly one code unit per character |
| CliHelpers.Utf16LengthChar | 02-todo/src/cli-helpers.ts:51 | one character is one code unit inside the Basic Multilingual Plane and two outside it; with `Utf16LengthAppend` this fixes the length of every string |
| CliHelpers.Utf16LengthAppend | 02-todo/src/cli-helpers.ts:51 | the length of a concatenation is the sum of the lengths |
| CliHelpers.TrimShortens | 02-todo/src/cli-helpers.ts:55 | trimming never lengthens a string |
| CliHelpers.DigitPrefix | 02-todo/src/cli-helpers.ts:38 | `parseInt` reads the longest run of decimal digits |
| CliHelpers.DecimalRoundTrip | 02-todo/src/cli-helpers.ts:38 | reading back the decimal numeral of `n` gives `n` |
| CliHelpers.ParseDigits | 02-todo/src/cli-helpers.ts:38 | a number is read exactly when the text starts with a decimal digit |
| CliHelpers.ParseSigned | 02-todo/src/cli-helpers.ts:38 | a number is read exactly when the text starts with a digit, or with `+` or `-` followed by a digit; a negative result needs a leading `-` |
| CliHelpers.ParseInt | 02-todo/src/cli-helpers.ts:38 | `parseInt(s, 10)` gives NaN for all-white-space input; a number needs a digit somewhere in the input, and a negative number a `-` |
| CliHelpers.ParseIntReads | 02-todo/src/cli-helpers.ts:38 | `parseInt(s, 10)` skips leading white space and ignores whatever follows the digits |
| CliHelpers.ParseIntReadsSigned | 02-todo/src/cli-helpers.ts:38 | a `+` or `-` before the digits gives the value that sign |
| CliHelpers.ParseIntNeedsDigit | 02-todo/src/cli-helpers.ts:38-39 | a string without a digit gives NaN |
| CliHelpers.Message | 02-todo/src/cli-helpers.ts:40-60 | the text printed for each rejection starts with the cross mark and a space |
| CliHelpers.ValidateId | 02-todo/src/cli-helpers.ts:37-44 | it accepts exactly when `parseInt` gives a number above 0, and then returns that number; every rejection is the invalid-id error |
| CliHelpers.ValidateIdReads | 02-todo/src/cli-helpers.ts:37-44 | a numeral, after white space and before any non-digit, is accepted as its value exactly when that value is positive |
| CliHelpers.ValidateIdRejectsNegative | 02-todo/src/cli-helpers.ts:39-42 | a numeral with a minus sign is rejected |
| CliHelpers.ValidateIdNeedsDigit | 02-todo/src/cli-helpers.ts:39-42 | a string without a digit is rejected |
| CliHelpers.ValidateTitle | 02-todo/src/cli-helpers.ts:46-56 | an empty or all-white-space title is rejected as empty; otherwise a title over 255 code units before trimming is rejected as too long; these are the only rejections, so every other title is accepted and the trimmed title is returned: non-empty, at most 255 units, with no white space at either end |
| CliHelpers.ValidateTitleIdempotent | 02-todo/src/cli-helpers.ts:46-56 | an accepted title is accepted again unchanged |
| CliHelpers.ValidateTitleCountsPadding | 02-todo/src/cli-helpers.ts:51-54 | the limit is measured before trimming: white-space padding before or after an acceptable title that pushes it over 255 units makes it rejected |
| CliHelpers.ValidateDescription | 02-todo/src/cli-helpers.ts:58-64 | a description over 1000 code units is rejected; otherwise the trimmed description is returned, at most 1000 units, and the empty description gives `''` |
| CliHelpers.ValidateDescriptionIdempotent | 02-todo/src/cli-helpers.ts:58-64 | an accepted description is accepted again unchanged |

## Left out

- Weights and distances are natural numbers. The source's `number` weights
  may be fractional or negative. Negative weights fall outside what Dijkstra's
  algorithm promises, and floating-point rounding is not modelled.
- `Infinity` is a constructor of `Dist`, not a floating-point value. Very
  large finite sums are exact here, where the source would round them.
- An empty edge list is excluded by a precondition of `Graphs.CreateGraph`.
  In the source, `Math.max()` of nothing is `-Infinity`, `Array.from`
  clamps that length to 0, and `createGraph([])` silently returns the empty
  graph `[]`.
- ShortestPaths.Dijkstra: the start node must be a node of the graph.
- Inside `ShortestPaths.Dijkstra`, `distances`, `previous` and `visited` are
  local sequence variables, not arrays updated in place. The model therefore
  does not capture aliasing of those arrays; nothing in the source shares
  them.
- PriorityQueues.PriorityQueue: the `heap` field is a sequence that each
  method reassigns whole, where the source's `push`, `pop`, root write and
  index swaps update one array in place. The model does not capture
  in-place update or aliasing of that array; the field is private in the
  source, so no caller can observe either.
- An edge whose target lies outside the graph: the source compares the new
  distance with `undefined`, which is false, so the edge is skipped. The
  model writes that skip out as an explicit `neighbor < n` test.
- ShortestPaths.GetShortestPath: the target must be a node, and the
  predecessor links must be acyclic. Otherwise the source's loop never ends:
  `previous[undefined]` is `undefined`, not `null`. Answers of `Dijkstra`
  have acyclic links and one entry per node, so any node of the graph is a
  valid target.
- `CLIHelper.executeCommand`, `handleError`, the `manager` getter,
  `console.error` and `process.exit` are left out. They are I/O and process
  control. A validator that would exit returns a `Failure` naming the
  reason, and `CliHelpers.Message` holds the text the source prints.
- CliHelpers.ValidateId: an exact integer is returned where `parseInt`
  rounds numerals above 2^53 to the nearest double. A numeral long enough to
  overflow to `Infinity` is accepted with its exact value.
- `parseInt` is modelled for radix 10 only. That is the only radix the
  source uses.
- Strings are sequences of Unicode scalar values. A lone UTF-16 surrogate
  cannot be represented. `length` counts a character above U+FFFF as two
  code units, as JavaScript does.
- The todo storage (`todo.ts`, `database.ts`, `types.ts`), the command
  wiring in `index.ts`, the game in `03-survivor`, the example scripts
  `01-argorithm/examples/example.ts` and `01-argorithm/examples/visualize.ts`,
  and the `add` and `distance` tests are not part of this model.
