# nlcmd in Dafny

A model of the phrase matcher of the nlcmd repository, which matches spoken
commands. Each command is an order-k Markov chain. Its nodes are labelled by
windows of k consecutive tokens. A chain is trained from example phrases and
then queried in two ways:

- `match` is a strict whole-phrase match.
- `scan` is a sub-phrase scan.

In the newer engine, a token of the form `<name>` is an open slot that
captures the words spoken in its place.

Both engines are modelled.

**The nlcmd engine** (`nlcmd/.../MarkovChain.java`, `Result.java`, `CommandSet.java`, `Nlcmd.java`):

| file | modules |
|---|---|
| base.dfy | `Base`: Java's doubles, exceptions and nullable caller maps |
| edges.dfy | `Edges`: the edge tables and the update rule of `addEdge` |
| nodes.dfy | `Nodes`: `Node`, with the three-step placeholder fallback of `queryEdge` |
| matches.dfy | `Matches`: the `Result` accumulator |
| mixins.dfy | `Mixins`: the mixin hooks and the `LONGEST_AVG_REL` scoring mixin |
| training.dfy | `Training`: training, loading and traversal as functions on a node map |
| scanning.dfy | `Scanning`: `_scanSingleMatch`, `match` and `scan` as functions |
| chain.dfy | `NlcmdChain`: the `MarkovChain` and `SlidingWindow` classes |
| commandset.dfy | `Commands`: the `CommandSet` |
| registry.dfy | `Registry`: the static `Nlcmd` facade |

**The older markov engine** (`markov/...`). It reuses training, loading and the edge update rule:

| file | modules |
|---|---|
| legacy_results.dfy | `LegacyResults`: `MatchResults`; markov's own `Result` shares `append`, `createPlaceholder`, `appendPlaceholder` and `resetPlaceholder` with nlcmd's (modelled by `Matches.Result`); it has no `getPhrase`, `getPlaceholder` or `extractMatches` |
| legacy_scanning.dfy | `LegacyScanning`: its exact-edge walk as functions |
| legacy_chain.dfy | `LegacyChain`: `SlidingWindow` with the sticky placeholder flag, `PlaceholderNode` and `MarkovChain` |
| legacy_commandset.dfy | `LegacyCommands`: its plain arg-max `CommandSet` |

The model has three layers:

- The operations that loop or change state are methods on classes: the chain, the window, the node, the result accumulators, the mixin, the command set and the registry.
- Each method is proved against a function on values that states what it computes.
- Lemmas prove what the code promises about those functions.

The properties proved include:

- Every node's outgoing probabilities keep summing to 1 under training. Both formulas of `addEdge` divide by n + 1.
- Probabilities stay in (0, 1].
- Training adds exactly the phrase's windows as nodes and links each window to the next one. It never removes an edge. It records one `associate(phrase, offset)` call per window.
- A fresh chain trained on a phrase with distinct windows matches that phrase with 1.0, in both engines.
- Reloading the triples `traverse` emits rebuilds the graph exactly.
- In `queryEdge`:
  - an exact edge wins and leaves the details alone;
  - otherwise step 2 (a target ending in a placeholder) wins over step 1 (a target that leaves a placeholder) and starts a capture with the window's word;
  - step 1 alone takes its edge and keeps the capture;
  - with neither, a node whose label ends in a placeholder takes its reflexive edge of probability 1.0 and appends the window's last word to the capture;
  - the entries never change, and a miss drops the pending capture.
- Walking from a placeholder node, each window no edge matches adds its last word to the capture, and the entry of the sub-match carries that capture. The "St. Georgen" scenario of the repository's tests is proved concretely: score 1.0, with <location> captured as "St." "Georgen".
- `match` returns:
  - -1 for short phrases;
  - otherwise a number in [0, 1], or the average when one entry covers the phrase.
- `scan`:
  - returns the best average;
  - adds entries that cover the phrase left to right without overlap;
  - stops at a non-positive or NaN average.
- The two engines agree on phrases and chains without placeholder tokens.
- The arg-max of both `CommandSet`s picks the first key of a maximal score above -1, never a NaN score. Under `LONGEST_AVG_REL` it always picks a key from a non-empty set.
- The caller's maps end up holding the winner's maps.
- The `Nlcmd` setters, `reset`, `action` and dispatch behave as their exceptions say.

Modelling conventions:

- **Doubles.** Probabilities are `real`, so normalisation is exact. `Base.Double` adds the NaN of 0/0. Java's `>` is false on NaN, which `Base.Greater` models.
- **Exceptions.** A Java exception is an `Outcome.Throw` carrying its kind: NullPointerException, IndexOutOfBounds, NoSuchElement, IllegalState, ClassCast, "Not implemented", or a JSON error.
- **Labels.**
  - A label is a `seq<string>`.
  - Java compares labels by their space-joined string. This agrees with sequence equality only when no token contains a space, and the model assumes that none does.
  - The empty label stands for the null label that an empty JSON array produces.
- **Iteration order.** Each HashMap (node map, edge table, command set) is a sequence in insertion order: a new key goes last, and an overwritten key keeps its place. The lemmas about the arg-max and about `queryEdge` hold for whatever sequence is given.
- **Chains.** A chain's node map is held by value: the `graph` map from label to edge table, plus the key order.

Where the source calls something that does not exist, the model follows the evident intent:

- markov's `_scanSingleMatch` calls a four-argument `MatchResults.append`. The model adds an entry carrying the tracked capture.
- `Nlcmd.action` calls a three-argument `CommandSet` constructor. The model constructs the set from the order and the mode.
- markov's `CommandSet.scan` calls a three-argument `MarkovChain.scan` that markov does not declare. The model scans into fresh details and copies every entry into two fresh maps, as nlcmd's `extractMatches` does.

## Model

| member | source | states |
|---|---|---|
| Base.Average | nlcmd/src/main/java/com/ktm_technologies/nlcmd/MarkovChain.java:772 | NaN exactly when no edge was taken (0/0); otherwise the quotient times n gives back the sum |
| Base.AverageOfOnes | nlcmd/src/main/java/com/ktm_technologies/nlcmd/MarkovChain.java:772 | n probabilities of 1 average to exactly 1 |
| Base.At | nlcmd/src/main/java/com/ktm_technologies/nlcmd/MarkovChain.java:264-265 | Java array indexing: a value exactly for an index in range, an IndexOutOfBoundsException otherwise |
| Edges.IndexOf | nlcmd/src/main/java/com/ktm_technologies/nlcmd/MarkovChain.java:243 | the position of the edge to a target, none exactly when the table has no such target, and no earlier edge to it |
| Edges.WeakenOthers | nlcmd/src/main/java/com/ktm_technologies/nlcmd/MarkovChain.java:345-352 | weakening the other edges keeps the table's length |
| Edges.AddEdgeKeys | nlcmd/src/main/java/com/ktm_technologies/nlcmd/MarkovChain.java:332-354 | addEdge adds the target to the key set and changes no other key; an existing target keeps the size, a new one appends; targets stay distinct |
| Edges.AddEdgeProbabilities | nlcmd/src/main/java/com/ktm_technologies/nlcmd/MarkovChain.java:332-354 | after addEdge the target's edge holds (p·n + 1)/(n + 1), or 1/(n + 1) when new, and every other edge p·n/(n + 1) |
| Edges.TotalScaled | nlcmd/src/main/java/com/ktm_technologies/nlcmd/MarkovChain.java:345-352 | scaling every probability by n/(n + 1), with 1/(n + 1) added at one position, scales the total the same way |
| Edges.AddEdgeTotalExisting | nlcmd/src/main/java/com/ktm_technologies/nlcmd/MarkovChain.java:338-341 | strengthening an existing edge and weakening the others gives a new total T' with T'·(n + 1) = T·n + 1 |
| Edges.AddEdgeTotalNew | nlcmd/src/main/java/com/ktm_technologies/nlcmd/MarkovChain.java:342-352 | a new edge of 1/(n + 1) and the others weakened give a new total T' with T'·(n + 1) = T·n + 1 |
| Edges.WeakenAllRescaled | nlcmd/src/main/java/com/ktm_technologies/nlcmd/MarkovChain.java:345-352 | weakening every edge from n to n + 1 scales the total by n/(n + 1) |
| Edges.WeakenRescaled | nlcmd/src/main/java/com/ktm_technologies/nlcmd/MarkovChain.java:155-159 | weaken(n, n + 1) scales a probability by n/(n + 1) |
| Edges.StrengthenRescaled | nlcmd/src/main/java/com/ktm_technologies/nlcmd/MarkovChain.java:166-170 | strengthen(n, n + 1) gives (p·n + 1)/(n + 1) |
| Edges.NormalisedRescaled | nlcmd/src/main/java/com/ktm_technologies/nlcmd/MarkovChain.java:332-354 | a total rescaled that way from 1 (or from an empty table) is exactly 1 |
| Edges.AddEdgeTotal | nlcmd/src/main/java/com/ktm_technologies/nlcmd/MarkovChain.java:332-354 | the central invariant of training: T'·(n + 1) = T·n + 1 for the old total T of n edges |
| Edges.AddEdgeNormalised | nlcmd/src/main/java/com/ktm_technologies/nlcmd/MarkovChain.java:332-354 | a table summing to 1, or an empty one, sums to exactly 1 after addEdge |
| Edges.WeakenInRange | nlcmd/src/main/java/com/ktm_technologies/nlcmd/MarkovChain.java:155-159 | weaken keeps a probability in [0, 1] |
| Edges.StrengthenInRange | nlcmd/src/main/java/com/ktm_technologies/nlcmd/MarkovChain.java:166-170 | strengthen keeps a probability in [0, 1] |
| Edges.AddEdgeInRange | nlcmd/src/main/java/com/ktm_technologies/nlcmd/MarkovChain.java:332-354 | probabilities in [0, 1] stay in [0, 1] under addEdge |
| Edges.UpdatePositive | nlcmd/src/main/java/com/ktm_technologies/nlcmd/MarkovChain.java:155-170 | weaken and strengthen keep a positive probability positive |
| Edges.AddEdgePositive | nlcmd/src/main/java/com/ktm_technologies/nlcmd/MarkovChain.java:332-354 | addEdge never makes a positive probability zero |
| Edges.PutKeys | nlcmd/src/main/java/com/ktm_technologies/nlcmd/MarkovChain.java:231-234 | addEdge(Edge) adds the target as a key, keeps targets distinct, and stores the edge verbatim, overwriting any edge to that target |
| Edges.TargetsOfAppend | nlcmd/src/main/java/com/ktm_technologies/nlcmd/MarkovChain.java:349-350 | appending an edge adds exactly its target to the key set |
| Edges.TotalAppend | nlcmd/src/main/java/com/ktm_technologies/nlcmd/MarkovChain.java:349-350 | appending an edge adds its probability to the total |
| Nodes.Step1 | nlcmd/src/main/java/com/ktm_technologies/nlcmd/MarkovChain.java:248-269 | placeholder step 1: the index found holds a target whose second-to-last token is a placeholder and whose last token equals the window's token at that position |
| Nodes.Step2 | nlcmd/src/main/java/com/ktm_technologies/nlcmd/MarkovChain.java:271-299 | placeholder step 2: the index found holds a target ending in a placeholder |
| Nodes.QueryEdgeSpec | nlcmd/src/main/java/com/ktm_technologies/nlcmd/MarkovChain.java:241-326 | an exact edge is returned with the details untouched; otherwise exceptions of steps 1 and 2 propagate; a step 2 hit wins over step 1, is taken, and starts a capture for the target's final placeholder at the given offset holding the window's word at that position (an index error when the window is shorter); a step 1 hit alone is taken with the details untouched; with neither, a node whose label ends in a placeholder takes the reflexive edge of probability 1.0 and appends the window's last word to the pending capture (a null-pointer error without one), any other node finds no edge and drops the capture; the entries never change |
| Nodes.PutEdgeIn | nlcmd/src/main/java/com/ktm_technologies/nlcmd/MarkovChain.java:231-234 | the loop-free insertion of addEdge(Edge) stores the edge as Put does |
| Nodes.AddEdgeIn | nlcmd/src/main/java/com/ktm_technologies/nlcmd/MarkovChain.java:332-354 | the loop over the edge map computes the update rule AddEdgeSpec |
| Nodes.FindTerminating | nlcmd/src/main/java/com/ktm_technologies/nlcmd/MarkovChain.java:248-269 | the step 1 loop returns the first index step 1 designates, or throws where it does |
| Nodes.FindStarting | nlcmd/src/main/java/com/ktm_technologies/nlcmd/MarkovChain.java:271-299 | the step 2 loop returns the first index step 2 designates, or throws where it does |
| Nodes.PrefixMatches | nlcmd/src/main/java/com/ktm_technologies/nlcmd/MarkovChain.java:281-289 | the prefix loop of step 2 agrees with PrefixAgrees on tokens 0 up to last - 2 |
| Nodes.QueryEdgeIn | nlcmd/src/main/java/com/ktm_technologies/nlcmd/MarkovChain.java:241-326 | queryEdge on a table returns the edge and the details QueryEdgeSpec gives, or throws the same exception |
| Nodes.Node.constructor | nlcmd/src/main/java/com/ktm_technologies/nlcmd/MarkovChain.java:201-203 | a new node has its label and no edges |
| Nodes.Node.PutEdge | nlcmd/src/main/java/com/ktm_technologies/nlcmd/MarkovChain.java:231-234 | the node's table becomes Put of the old one |
| Nodes.Node.AddEdge | nlcmd/src/main/java/com/ktm_technologies/nlcmd/MarkovChain.java:332-354 | the node's table becomes the update rule of the old one; markov's addEdge(Node) (MarkovChain.java 212-234) is the same rule |
| Nodes.Node.QueryEdge | nlcmd/src/main/java/com/ktm_technologies/nlcmd/MarkovChain.java:241-326 | Node.queryEdge agrees with QueryEdgeSpec on its own label and table |
| Nodes.Step1Plain | nlcmd/src/main/java/com/ktm_technologies/nlcmd/MarkovChain.java:248-269 | without placeholder targets, step 1 finds nothing |
| Nodes.Step2Plain | nlcmd/src/main/java/com/ktm_technologies/nlcmd/MarkovChain.java:271-299 | without placeholder targets, step 2 finds nothing |
| Nodes.QueryExactOnly | nlcmd/src/main/java/com/ktm_technologies/nlcmd/MarkovChain.java:241-326 | without placeholder tokens, queryEdge is a plain lookup; a miss only drops the capture |
| Matches.FirstWordCaptured | nlcmd/src/main/java/com/ktm_technologies/nlcmd/Result.java:148-179 | createPlaceholder followed by one appendPlaceholder leaves a capture for the token and offset holding exactly that word |
| Matches.CaptureRecorded | nlcmd/src/main/java/com/ktm_technologies/nlcmd/Result.java:128-134 | a capture started, fed words and closed by append lands on the new entry with exactly those words, and nothing stays pending |
| Matches.AppendAllGrows | nlcmd/src/main/java/com/ktm_technologies/nlcmd/Result.java:176-179 | feeding words to a pending capture appends them, leaving the entries alone |
| Matches.PutMatchesContents | nlcmd/src/main/java/com/ktm_technologies/nlcmd/Result.java:194-204 | a key is in the match map iff it was before or some entry has those tokens; it then holds the average of the last such entry; untouched keys keep their value |
| Matches.PutPlaceholdersContents | nlcmd/src/main/java/com/ktm_technologies/nlcmd/Result.java:194-204 | the placeholder map gains exactly the tokens of the captures the entries carry; such a token maps to the words of the last entry that captures it, and a token no entry captures keeps its old words |
| Matches.Result.constructor | nlcmd/src/main/java/com/ktm_technologies/nlcmd/Result.java:120 | a new result has no entries and no pending capture |
| Matches.Result.Append | nlcmd/src/main/java/com/ktm_technologies/nlcmd/Result.java:128-134 | one entry appended at the end with the pending capture, which is then cleared (markov's Result.java 133-139 is the same method) |
| Matches.Result.CreatePlaceholder | nlcmd/src/main/java/com/ktm_technologies/nlcmd/Result.java:148-152 | any pending capture is replaced by an empty one for the token and offset (markov's Result.java 153-157 is the same method) |
| Matches.Result.AppendPlaceholder | nlcmd/src/main/java/com/ktm_technologies/nlcmd/Result.java:176-179 | one word is appended to the pending capture; without one it throws a NullPointerException and changes nothing (markov's Result.java 163-166 is the same method) |
| Matches.Result.ResetPlaceholder | nlcmd/src/main/java/com/ktm_technologies/nlcmd/Result.java:184-187 | only the pending capture is cleared (markov's Result.java 171-174 is the same method) |
| Matches.Result.GetPhrase | nlcmd/src/main/java/com/ktm_technologies/nlcmd/Result.java:158-161 | the first entry's tokens; NoSuchElementException exactly when there is no entry |
| Matches.Result.GetPlaceholder | nlcmd/src/main/java/com/ktm_technologies/nlcmd/Result.java:167-170 | the first entry's capture; NoSuchElementException exactly when there is no entry |
| Matches.Result.ExtractMatches | nlcmd/src/main/java/com/ktm_technologies/nlcmd/Result.java:194-204 | every entry goes into the caller's maps (later equal phrases overwrite); a null match map throws on the first entry; a null placeholder map is skipped |
| Mixins.InitRecorded | nlcmd/src/main/java/com/ktm_technologies/nlcmd/CommandSet.java:195-207 | initQuery opens a (0, 0) record for the phrase length |
| Mixins.UpdateRecorded | nlcmd/src/main/java/com/ktm_technologies/nlcmd/CommandSet.java:210-224 | each update adds the edge probability to the last sum and one to the last count |
| Mixins.LongestUnique | nlcmd/src/main/java/com/ktm_technologies/nlcmd/CommandSet.java:236-245 | the first longest record is unique |
| Mixins.LongestIndex | nlcmd/src/main/java/com/ktm_technologies/nlcmd/CommandSet.java:236-245 | the index getScore settles on: -1 exactly when no record has an edge, otherwise the first index of the largest positive count |
| Mixins.ScoreMeaning | nlcmd/src/main/java/com/ktm_technologies/nlcmd/CommandSet.java:230-252 | the score is 0 without edges, the sum of the longest record over the phrase length otherwise, and never negative |
| Mixins.Mixin.constructor | nlcmd/src/main/java/com/ktm_technologies/nlcmd/CommandSet.java:187-192 | a mixin starts with empty lists |
| Mixins.Mixin.InitQuery | nlcmd/src/main/java/com/ktm_technologies/nlcmd/CommandSet.java:195-207 | the state becomes InitQuerySpec: phrase length recorded and a (0, 0) record appended; the plain MarkovChainMixin's initQuery (MarkovChain.java 489-492) changes nothing the model observes |
| Mixins.Mixin.UpdateQuery | nlcmd/src/main/java/com/ktm_technologies/nlcmd/CommandSet.java:210-224 | the state becomes UpdateQuerySpec; without a record the list access throws and nothing changes |
| Mixins.Mixin.FinishQuery | nlcmd/src/main/java/com/ktm_technologies/nlcmd/CommandSet.java:227-228 | finishQuery changes nothing |
| Mixins.Mixin.GetScore | nlcmd/src/main/java/com/ktm_technologies/nlcmd/CommandSet.java:230-252 | the sum of the first longest record over the latest phrase length, or 0 when no record has an edge; ScoreMeaning states what that number is |
| Training.NodeForWellFormed | nlcmd/src/main/java/com/ktm_technologies/nlcmd/MarkovChain.java:625-634 | looking up or creating a node keeps the node map well-formed, adds exactly that label, and keeps every other table |
| Training.SetTableWellFormed | nlcmd/src/main/java/com/ktm_technologies/nlcmd/MarkovChain.java:636-637 | giving a node a table of existing targets keeps the map well-formed |
| Training.TrainUpTo | nlcmd/src/main/java/com/ktm_technologies/nlcmd/MarkovChain.java:664-675 | every window trained so far is a node, and no node is removed |
| Training.TrainUpToNext | nlcmd/src/main/java/com/ktm_technologies/nlcmd/MarkovChain.java:664-675 | one more window: create its node, then link the previous window's node to it |
| Training.TrainUpToKeys | nlcmd/src/main/java/com/ktm_technologies/nlcmd/MarkovChain.java:648-676 | training adds exactly the phrase's windows as nodes |
| Training.AddEdgeWellFormed | nlcmd/src/main/java/com/ktm_technologies/nlcmd/MarkovChain.java:332-354 | addEdge between two nodes keeps the map well-formed |
| Training.TrainStepWellFormed | nlcmd/src/main/java/com/ktm_technologies/nlcmd/MarkovChain.java:664-675 | one training step keeps the node-map invariant |
| Training.TrainUpToWellFormed | nlcmd/src/main/java/com/ktm_technologies/nlcmd/MarkovChain.java:664-675 | the training loop keeps the node-map invariant |
| Training.TrainWellFormed | nlcmd/src/main/java/com/ktm_technologies/nlcmd/MarkovChain.java:648-676 | train keeps the node-map invariant |
| Training.TrainStepKeepsEdges | nlcmd/src/main/java/com/ktm_technologies/nlcmd/MarkovChain.java:664-675 | one training step removes no node and no edge |
| Training.TrainUpToKeepsEdges | nlcmd/src/main/java/com/ktm_technologies/nlcmd/MarkovChain.java:648-676 | training never removes an edge |
| Training.TrainUpToLinks | nlcmd/src/main/java/com/ktm_technologies/nlcmd/MarkovChain.java:664-675 | after training, each window's node has an edge to the next window |
| Training.TrainUpToNormalised | nlcmd/src/main/java/com/ktm_technologies/nlcmd/MarkovChain.java:648-676 | training keeps every node's outgoing probabilities summing to 1 and within (0, 1] |
| Training.NodeForKeepsNormalised | nlcmd/src/main/java/com/ktm_technologies/nlcmd/MarkovChain.java:625-634 | a new edgeless node keeps the map normalised |
| Training.AddEdgeKeepsNormalised | nlcmd/src/main/java/com/ktm_technologies/nlcmd/MarkovChain.java:332-354 | addEdge on one node keeps the map normalised with probabilities in (0, 1] |
| Training.NewEdge | nlcmd/src/main/java/com/ktm_technologies/nlcmd/MarkovChain.java:342-344 | the first edge of a node gets probability 1 |
| Training.WindowFresh | nlcmd/src/main/java/com/ktm_technologies/nlcmd/MarkovChain.java:664-675 | with distinct windows, each window is new when training reaches it |
| Training.TrainPathStep | nlcmd/src/main/java/com/ktm_technologies/nlcmd/MarkovChain.java:664-675 | with distinct windows, one more step extends the trained path |
| Training.TrainUpToPath | nlcmd/src/main/java/com/ktm_technologies/nlcmd/MarkovChain.java:648-676 | with distinct windows, training an empty chain yields a path whose edges all have probability 1 |
| Training.LoadOk | nlcmd/src/main/java/com/ktm_technologies/nlcmd/MarkovChain.java:615-639 | loading succeeds exactly when no element is malformed |
| Training.LoadItemWellFormed | nlcmd/src/main/java/com/ktm_technologies/nlcmd/MarkovChain.java:625-637 | inserting one triple keeps the map well-formed |
| Training.LoadWellFormed | nlcmd/src/main/java/com/ktm_technologies/nlcmd/MarkovChain.java:615-639 | loading keeps the map well-formed, also when it stops at a malformed element |
| Training.LoadConcat | nlcmd/src/main/java/com/ktm_technologies/nlcmd/MarkovChain.java:615-639 | loading a + b is loading a, then b |
| Training.EdgeItems | nlcmd/src/main/java/com/ktm_technologies/nlcmd/MarkovChain.java:862-869 | one triple per edge of a node |
| Training.TraverseItems | nlcmd/src/main/java/com/ktm_technologies/nlcmd/MarkovChain.java:856-870 | the triples of all nodes, every one well-formed |
| Training.TraverseItemsPrefix | nlcmd/src/main/java/com/ktm_technologies/nlcmd/MarkovChain.java:856-870 | the triples of the first nodes come first |
| Training.TraverseItemsNext | nlcmd/src/main/java/com/ktm_technologies/nlcmd/MarkovChain.java:856-870 | the triples of one more node follow those of the earlier ones |
| Training.ItemEventsFailed | nlcmd/src/main/java/com/ktm_technologies/nlcmd/MarkovChain.java:858-869 | after a null label, later triples add no calls |
| Training.ItemEventsNext | nlcmd/src/main/java/com/ktm_technologies/nlcmd/MarkovChain.java:858-869 | one more triple: a null source label throws before startGraph, a null target right after it, otherwise startGraph, addEdge and endGraph |
| Training.EdgeItemsNext | nlcmd/src/main/java/com/ktm_technologies/nlcmd/MarkovChain.java:862-869 | the triples of one more edge follow those of the earlier edges |
| Training.EdgeItemsFailed | nlcmd/src/main/java/com/ktm_technologies/nlcmd/MarkovChain.java:862-869 | a failure inside a node's edges is the outcome of all its edges |
| Training.ItemEventsShape | nlcmd/src/main/java/com/ktm_technologies/nlcmd/MarkovChain.java:854-873 | without null labels every triple becomes startGraph, addEdge, endGraph in order; otherwise a NullPointerException |
| Training.ReachedContents | nlcmd/src/main/java/com/ktm_technologies/nlcmd/MarkovChain.java:625-634 | reloading the edges of some nodes creates exactly those nodes that have edges and their targets |
| Training.LoadItemGraph | nlcmd/src/main/java/com/ktm_technologies/nlcmd/MarkovChain.java:625-637 | one loaded triple adds the edge verbatim and creates missing nodes edgeless |
| Training.TableLoadedStep | nlcmd/src/main/java/com/ktm_technologies/nlcmd/MarkovChain.java:636-637 | one more triple of a table extends the reloaded table by that edge |
| Training.LoadEdgeItems | nlcmd/src/main/java/com/ktm_technologies/nlcmd/MarkovChain.java:615-639 | loading one node's triples rebuilds its table |
| Training.LoadPrefix | nlcmd/src/main/java/com/ktm_technologies/nlcmd/MarkovChain.java:615-639 | reloading the triples of distinct nodes creates exactly the labels they reach and gives those nodes their tables back |
| Training.TraverseLoadRoundTrip | nlcmd/src/main/java/com/ktm_technologies/nlcmd/MarkovChain.java:854-873 | loading the triples traverse emits into an empty chain rebuilds the graph exactly, when no node is isolated |
| Training.ReachedAll | nlcmd/src/main/java/com/ktm_technologies/nlcmd/MarkovChain.java:854-873 | without isolated nodes the edges reach every node |
| Training.TrainUpToNoIsolated | nlcmd/src/main/java/com/ktm_technologies/nlcmd/MarkovChain.java:664-675 | trained chains have no isolated node |
| Scanning.FirstWindow | nlcmd/src/main/java/com/ktm_technologies/nlcmd/MarkovChain.java:740-752 | the first window from k on that labels a node; none exactly when no such window exists |
| Scanning.Walk | nlcmd/src/main/java/com/ktm_technologies/nlcmd/MarkovChain.java:754-767 | the walk never shrinks the count of edges taken, stays within the phrase and leaves the entries alone |
| Scanning.WalkStep | nlcmd/src/main/java/com/ktm_technologies/nlcmd/MarkovChain.java:754-767 | one walk step: a throw stops the walk, a miss ends it, a found edge moves on with its probability added |
| Scanning.WalkCaptures | nlcmd/src/main/java/com/ktm_technologies/nlcmd/MarkovChain.java:300-316 | from a node whose label ends in a placeholder, with a capture pending, every window no edge matches takes the reflexive edge of probability 1.0 and appends its last word to the capture |
| Scanning.ScanSingleSpec | nlcmd/src/main/java/com/ktm_technologies/nlcmd/MarkovChain.java:725-777 | -1 for a short phrase; at most one new entry, earlier ones kept; otherwise a new entry appears exactly when some window labels a node, it starts at the first such window and covers the walked tokens with the average; with no such window the result is 0 with the details unchanged |
| Scanning.SubMatchSpec | nlcmd/src/main/java/com/ktm_technologies/nlcmd/MarkovChain.java:754-774 | a sub-match adds one entry covering the first known window and the windows walked; the entry carries the capture the walk left pending, and none stays pending |
| Scanning.ScanFromStep | nlcmd/src/main/java/com/ktm_technologies/nlcmd/MarkovChain.java:835-845 | one turn of scan: a throw propagates, a non-positive average ends the loop, a positive one restarts right after the entry |
| Scanning.ScanFrom | nlcmd/src/main/java/com/ktm_technologies/nlcmd/MarkovChain.java:835-845 | scan's loop keeps earlier entries, adds entries that cover the phrase left to right without overlap, and returns the best average |
| Scanning.CoversShifted | nlcmd/src/main/java/com/ktm_technologies/nlcmd/MarkovChain.java:840-842 | an entry of a suffix covers the whole phrase at its offset |
| Scanning.ScanStep | nlcmd/src/main/java/com/ktm_technologies/nlcmd/MarkovChain.java:835-845 | one more sub-match in front keeps the order and the best average |
| Scanning.ScanSpec | nlcmd/src/main/java/com/ktm_technologies/nlcmd/MarkovChain.java:819-848 | -1 for a short phrase |
| Scanning.WalkBounds | nlcmd/src/main/java/com/ktm_technologies/nlcmd/MarkovChain.java:754-767 | on probabilities in [0, 1], the walked sum lies between 0 and the number of edges |
| Scanning.MatchBounds | nlcmd/src/main/java/com/ktm_technologies/nlcmd/MarkovChain.java:691-712 | match is -1 exactly for a short phrase and otherwise in [0, 1], never NaN |
| Scanning.WalkPath | nlcmd/src/main/java/com/ktm_technologies/nlcmd/MarkovChain.java:754-767 | on a trained path every remaining edge has probability 1 |
| Scanning.PathScansWhole | nlcmd/src/main/java/com/ktm_technologies/nlcmd/MarkovChain.java:725-777 | a sub-match over a trained path starts at window 0, covers the phrase and averages 1 |
| Scanning.PathMatches | nlcmd/src/main/java/com/ktm_technologies/nlcmd/MarkovChain.java:691-712 | any node map holding the path of a phrase matches that phrase with 1.0 |
| Scanning.TrainedPhraseMatches | nlcmd/src/main/java/com/ktm_technologies/nlcmd/MarkovChain.java:691-712 | a fresh chain trained on a phrase with distinct windows matches it with 1.0 |
| Scanning.FooBarBazMatches | nlcmd/src/main/java/com/ktm_technologies/nlcmd/MarkovChain.java:691-712 | a chain trained on "foo bar baz" at order 1 matches that phrase with 1.0 |
| Scanning.StGeorgenCaptured | nlcmd/src/test/java/com/ktm_technologies/nlcmd/MarkovChainTest.java:261-286 | a chain of order 2 trained on "füge wegpunkt in <location> zusätzlich ein" scans "füge wegpunkt in St. Georgen zusätzlich ein" with 1.0, in one entry over the whole phrase that captures <location> as "St." "Georgen" |
| Scanning.BestAtLeast | nlcmd/src/main/java/com/ktm_technologies/nlcmd/MarkovChain.java:843-844 | the best average is finite and at least its start and every finite entry average |
| Scanning.ScanResult | nlcmd/src/main/java/com/ktm_technologies/nlcmd/MarkovChain.java:819-848 | scan returns -1 exactly for a short phrase, otherwise at least 0 and every sub-match average; the new entries cover the phrase left to right without overlap |
| Scanning.SingleMixin | nlcmd/src/main/java/com/ktm_technologies/nlcmd/MarkovChain.java:738-769 | one sub-match opens at most one record and keeps the earlier ones |
| Scanning.MatchMixin | nlcmd/src/main/java/com/ktm_technologies/nlcmd/MarkovChain.java:691-712 | match keeps the mixin record growing |
| Scanning.ScanFromMixin | nlcmd/src/main/java/com/ktm_technologies/nlcmd/MarkovChain.java:835-845 | scan's loop keeps the mixin record growing |
| Scanning.ScanMixin | nlcmd/src/main/java/com/ktm_technologies/nlcmd/MarkovChain.java:819-848 | scan keeps the mixin record growing |
| NlcmdChain.AssociationsAt | nlcmd/src/main/java/com/ktm_technologies/nlcmd/MarkovChain.java:661-672 | window k of a trained phrase is associated with the phrase at offset k, once per window |
| NlcmdChain.FooBarBazAssociation | nlcmd/src/main/java/com/ktm_technologies/nlcmd/MarkovChain.java:661-672 | training "foo bar baz" at order 1 associates the last window with offset 2 |
| NlcmdChain.SlidingWindow.constructor | nlcmd/src/main/java/com/ktm_technologies/nlcmd/MarkovChain.java:372-377 | a new window sits before the phrase (offset -1) |
| NlcmdChain.SlidingWindow.CanSlide | nlcmd/src/main/java/com/ktm_technologies/nlcmd/MarkovChain.java:382-384 | another full window remains |
| NlcmdChain.SlidingWindow.Slide | nlcmd/src/main/java/com/ktm_technologies/nlcmd/MarkovChain.java:396-411 | the k-th slide returns tokens [k, k + size) and sets the offset to k; once exhausted it returns null and changes nothing |
| NlcmdChain.MarkovChain.constructor | nlcmd/src/main/java/com/ktm_technologies/nlcmd/MarkovChain.java:573-577 | an empty chain of the given order with the default mixin |
| NlcmdChain.MarkovChain.SetMixin | nlcmd/src/main/java/com/ktm_technologies/nlcmd/MarkovChain.java:601-608 | null installs a fresh default mixin, anything else is installed as given |
| NlcmdChain.MarkovChain.NodeAt | nlcmd/src/main/java/com/ktm_technologies/nlcmd/MarkovChain.java:625-634 | get or create the node of a label, as NodeFor |
| NlcmdChain.MarkovChain.LoadTriple | nlcmd/src/main/java/com/ktm_technologies/nlcmd/MarkovChain.java:625-637 | one triple loaded as LoadItem |
| NlcmdChain.MarkovChain.Load | nlcmd/src/main/java/com/ktm_technologies/nlcmd/MarkovChain.java:615-639 | the chain becomes LoadSpec; a malformed element throws, leaving the triples before it inserted |
| NlcmdChain.MarkovChain.Train | nlcmd/src/main/java/com/ktm_technologies/nlcmd/MarkovChain.java:648-676 | the chain becomes TrainSpec; the phrase is listed when longer than the order; associate runs once per window with its offset |
| NlcmdChain.MarkovChain.TrainStep | nlcmd/src/main/java/com/ktm_technologies/nlcmd/MarkovChain.java:664-675 | one loop turn: the next window's node is linked to from the previous one and associated |
| NlcmdChain.MarkovChain.ScanSingle | nlcmd/src/main/java/com/ktm_technologies/nlcmd/MarkovChain.java:725-777 | _scanSingleMatch computes ScanSingleSpec: result, details and mixin state |
| NlcmdChain.MarkovChain.Match | nlcmd/src/main/java/com/ktm_technologies/nlcmd/MarkovChain.java:691-712 | match computes MatchSpec and leaves the mixin as it says |
| NlcmdChain.MarkovChain.Scan | nlcmd/src/main/java/com/ktm_technologies/nlcmd/MarkovChain.java:819-848 | scan(details) computes ScanSpec, into fresh details when given null |
| NlcmdChain.MarkovChain.ScanInto | nlcmd/src/main/java/com/ktm_technologies/nlcmd/MarkovChain.java:795-804 | scan(phrase, matches, placeholders): the ScanSpec result copied into the maps; a null match map throws when there are entries |
| NlcmdChain.MarkovChain.Traverse | nlcmd/src/main/java/com/ktm_technologies/nlcmd/MarkovChain.java:854-873 | traverse emits the calls of TraverseSpec |
| NlcmdChain.TraverseEdges | nlcmd/src/main/java/com/ktm_technologies/nlcmd/MarkovChain.java:862-869 | the inner loop of traverse emits the calls for a node's edges up to the first null label |
| NlcmdChain.VisitEdge | nlcmd/src/main/java/com/ktm_technologies/nlcmd/MarkovChain.java:862-869 | one edge's calls, stopped by a null label |
| NlcmdChain.ScanSingleIn | nlcmd/src/main/java/com/ktm_technologies/nlcmd/MarkovChain.java:725-777 | _scanSingleMatch on a node map computes ScanSingleSpec |
| NlcmdChain.FindFirst | nlcmd/src/main/java/com/ktm_technologies/nlcmd/MarkovChain.java:740-752 | the first loop finds FirstWindow and leaves the window on it |
| NlcmdChain.ScanLoop | nlcmd/src/main/java/com/ktm_technologies/nlcmd/MarkovChain.java:835-845 | the do-while loop computes ScanFrom from offset 0 |
| NlcmdChain.ScanTurn | nlcmd/src/main/java/com/ktm_technologies/nlcmd/MarkovChain.java:836-844 | one turn advances the offset strictly and keeps the rest of the loop equal |
| NlcmdChain.SubMatch | nlcmd/src/main/java/com/ktm_technologies/nlcmd/MarkovChain.java:754-774 | the walk, finishQuery and the new entry compute SubMatchSpec |
| NlcmdChain.StepWalk | nlcmd/src/main/java/com/ktm_technologies/nlcmd/MarkovChain.java:755-766 | the slide and queryEdge of one walk turn are one step of Walk |
| NlcmdChain.WalkTurn | nlcmd/src/main/java/com/ktm_technologies/nlcmd/MarkovChain.java:755-766 | one walk turn is one step of Walk, with the edge fed to the mixin |
| NlcmdChain.Feed | nlcmd/src/main/java/com/ktm_technologies/nlcmd/MarkovChain.java:760 | updateQuery counts one more edge of the walk |
| NlcmdChain.WalkFrom | nlcmd/src/main/java/com/ktm_technologies/nlcmd/MarkovChain.java:754-767 | the walk loop computes Walk and leaves the mixin record holding its sum and count |
| Commands.PutSpec | nlcmd/src/main/java/com/ktm_technologies/nlcmd/CommandSet.java:70-79 | put throws exactly under LONGEST_AVG_REL_MOR with commands; otherwise it stores a sound chain (normalised, in (0, 1], consistent mixin) or the null chain |
| Commands.ExtractScore | nlcmd/src/main/java/com/ktm_technologies/nlcmd/CommandSet.java:170-182 | extractScore throws "Not implemented" exactly under LONGEST_AVG_REL_MOR |
| Commands.TrainAllNormalised | nlcmd/src/main/java/com/ktm_technologies/nlcmd/CommandSet.java:70-79 | training on every command keeps the chain normalised |
| Commands.MatchOne | nlcmd/src/main/java/com/ktm_technologies/nlcmd/CommandSet.java:94-103 | one turn of match keeps the stored chain sound and its graph unchanged |
| Commands.ScanOne | nlcmd/src/main/java/com/ktm_technologies/nlcmd/CommandSet.java:127-135 | one turn of scan keeps the stored chain sound and its graph unchanged |
| Commands.Scores | nlcmd/src/main/java/com/ktm_technologies/nlcmd/CommandSet.java:94-103 | the scores of the visited chains, in order |
| Commands.PickOf | nlcmd/src/main/java/com/ktm_technologies/nlcmd/CommandSet.java:89-108 | the running maximum starts at -1 with no key; a picked index holds the maximum |
| Commands.PickChosen | nlcmd/src/main/java/com/ktm_technologies/nlcmd/CommandSet.java:89-108 | the pick is the arg-max: none exactly when no score exceeds -1, otherwise the first index of a maximal score above -1; NaN is never chosen |
| Commands.DistinctAt | nlcmd/src/main/java/com/ktm_technologies/nlcmd/CommandSet.java:70-79 | a key in the iteration order never repeats an earlier one |
| Commands.MatchRun | nlcmd/src/main/java/com/ktm_technologies/nlcmd/CommandSet.java:94-103 | every visited chain stays sound |
| Commands.ScanRun | nlcmd/src/main/java/com/ktm_technologies/nlcmd/CommandSet.java:127-135 | every visited chain stays sound |
| Commands.ReplacedContents | nlcmd/src/main/java/com/ktm_technologies/nlcmd/CommandSet.java:94-103 | after the loop each visited key holds its chain's new record and nothing else changes |
| Commands.MatchRunThrows | nlcmd/src/main/java/com/ktm_technologies/nlcmd/CommandSet.java:94-103 | once a chain throws the run throws the same exception |
| Commands.ScanRunThrows | nlcmd/src/main/java/com/ktm_technologies/nlcmd/CommandSet.java:127-135 | once a chain throws the run throws the same exception |
| Commands.PickNext | nlcmd/src/main/java/com/ktm_technologies/nlcmd/CommandSet.java:96-101 | a later score takes over the maximum only when strictly greater |
| Commands.ReplacedIndexed | nlcmd/src/main/java/com/ktm_technologies/nlcmd/CommandSet.java:94-103 | storing sound records keeps the map in step with the key order |
| Commands.Advance | nlcmd/src/main/java/com/ktm_technologies/nlcmd/CommandSet.java:96-101 | one more key advances the running maximum and key |
| Commands.RelativeOneNonNegative | nlcmd/src/main/java/com/ktm_technologies/nlcmd/CommandSet.java:170-182 | under LONGEST_AVG_REL a chain's score is the mixin score, never negative |
| Commands.RelativeMatchNonNegative | nlcmd/src/main/java/com/ktm_technologies/nlcmd/CommandSet.java:89-108 | under LONGEST_AVG_REL every match score is at least 0 |
| Commands.RelativeScanNonNegative | nlcmd/src/main/java/com/ktm_technologies/nlcmd/CommandSet.java:119-151 | under LONGEST_AVG_REL every scan score is at least 0 |
| Commands.NonNegativePicks | nlcmd/src/main/java/com/ktm_technologies/nlcmd/CommandSet.java:89-108 | non-negative scores beat -1, so some key is picked |
| Commands.RelativeAlwaysPicks | nlcmd/src/main/java/com/ktm_technologies/nlcmd/CommandSet.java:89-151 | under LONGEST_AVG_REL a non-empty set always yields a key |
| Commands.UnimplementedThrows | nlcmd/src/main/java/com/ktm_technologies/nlcmd/CommandSet.java:153-168 | under LONGEST_AVG_REL_MOR createChain yields null and a non-empty set throws a NullPointerException |
| Commands.CommandSet.constructor | nlcmd/src/main/java/com/ktm_technologies/nlcmd/CommandSet.java:48-55 | an empty set with the order and mode |
| Commands.CommandSet.Put | nlcmd/src/main/java/com/ktm_technologies/nlcmd/CommandSet.java:70-79 | the trained chain is stored under the key, replacing any earlier one; the key order gains a new key last; a throw changes nothing |
| Commands.CommandSet.Match | nlcmd/src/main/java/com/ktm_technologies/nlcmd/CommandSet.java:89-108 | match returns the key of the arg-max of the scores and stores each chain's new mixin record |
| Commands.CommandSet.Scan | nlcmd/src/main/java/com/ktm_technologies/nlcmd/CommandSet.java:119-151 | scan picks as match does; non-null caller maps end up holding exactly the winner's maps, or stay as they were when none wins |
| Commands.PutIn | nlcmd/src/main/java/com/ktm_technologies/nlcmd/CommandSet.java:70-79 | put over the map and key order computes PutSpec and keeps them indexed |
| Commands.IndexedPut | nlcmd/src/main/java/com/ktm_technologies/nlcmd/CommandSet.java:70-79 | storing a sound chain keeps the key order in step with the map |
| Commands.TrainCommand | nlcmd/src/main/java/com/ktm_technologies/nlcmd/CommandSet.java:153-168 | createChain and train on every command give the chain PutSpec stores |
| Commands.MatchLoop | nlcmd/src/main/java/com/ktm_technologies/nlcmd/CommandSet.java:94-103 | the loop computes MatchRun and the arg-max key |
| Commands.MatchStep | nlcmd/src/main/java/com/ktm_technologies/nlcmd/CommandSet.java:94-103 | one loop turn advances the run |
| Commands.ScanLoop | nlcmd/src/main/java/com/ktm_technologies/nlcmd/CommandSet.java:127-145 | the loop computes ScanRun, the arg-max key and the winner's maps |
| Commands.ScanStep | nlcmd/src/main/java/com/ktm_technologies/nlcmd/CommandSet.java:127-145 | one loop turn advances the run and refills the maps on a new maximum |
| Commands.Refill | nlcmd/src/main/java/com/ktm_technologies/nlcmd/CommandSet.java:136-144 | clear and putAll: each non-null caller map holds exactly the given map |
| Commands.MatchTurn | nlcmd/src/main/java/com/ktm_technologies/nlcmd/CommandSet.java:96 | one chain's match and score is MatchOne |
| Commands.ScanTurn | nlcmd/src/main/java/com/ktm_technologies/nlcmd/CommandSet.java:128-130 | one chain's scan and score is ScanOne |
| Commands.NewCommandSet | nlcmd/src/main/java/com/ktm_technologies/nlcmd/CommandSet.java:48-55 | an order below 1 throws IndexOutOfBoundsException; otherwise an empty set |
| Registry.MatchDispatch | nlcmd/src/main/java/com/ktm_technologies/nlcmd/Nlcmd.java:145-159 | no winner runs nothing; a match callback runs; a scan callback throws ClassCastException |
| Registry.ScanDispatch | nlcmd/src/main/java/com/ktm_technologies/nlcmd/Nlcmd.java:179-195 | no winner runs nothing; a scan callback runs on the filled maps; a match callback throws ClassCastException |
| Registry.MatchRunsBest | nlcmd/src/main/java/com/ktm_technologies/nlcmd/Nlcmd.java:145-159 | the callback that runs is the one whose chain is the arg-max |
| Registry.MatchOnlyNeverCasts | nlcmd/src/main/java/com/ktm_technologies/nlcmd/Nlcmd.java:145-159 | with only match callbacks, match never throws ClassCastException |
| Registry.Nlcmd.constructor | nlcmd/src/main/java/com/ktm_technologies/nlcmd/Nlcmd.java:41-44 | order 2, LONGEST_AVG_REL, no command set |
| Registry.Nlcmd.SetScoreMode | nlcmd/src/main/java/com/ktm_technologies/nlcmd/Nlcmd.java:61-66 | IllegalStateException exactly once a command set exists; otherwise the mode is set |
| Registry.Nlcmd.SetOrder | nlcmd/src/main/java/com/ktm_technologies/nlcmd/Nlcmd.java:79-88 | IllegalStateException once a set exists, IndexOutOfBoundsException below 1, otherwise the order is set |
| Registry.Nlcmd.Reset | nlcmd/src/main/java/com/ktm_technologies/nlcmd/Nlcmd.java:93-95 | the command set is discarded; the settings stay |
| Registry.Nlcmd.Action | nlcmd/src/main/java/com/ktm_technologies/nlcmd/Nlcmd.java:102-125 | the first call creates the set with the current order and mode; later calls add to the same set; the callback is put with its phrases |
| Registry.Nlcmd.Match | nlcmd/src/main/java/com/ktm_technologies/nlcmd/Nlcmd.java:145-159 | nothing without actions; otherwise the set's match picks the key and the winner is dispatched |
| Registry.Nlcmd.Scan | nlcmd/src/main/java/com/ktm_technologies/nlcmd/Nlcmd.java:179-195 | nothing without actions; otherwise the set scans into fresh maps and the winner is dispatched with them |
| LegacyResults.StartWithIsStartThenCapture | markov/src/main/java/com/ktm_technologies/markov/MatchResults.java:152-156 | createPlaceholder(keyword, word, offset) is createPlaceholder then appendPlaceholder(word), leaving the entries alone |
| LegacyResults.CaptureWithRecorded | markov/src/main/java/com/ktm_technologies/markov/MatchResults.java:137-161 | a capture opened with a word, fed more words and closed by append lands on the entry with all those words |
| LegacyResults.AddEntryIsCarryingPending | markov/src/main/java/com/ktm_technologies/markov/MatchResults.java:137-143 | append is the carrying append handed the pending capture; it adds exactly one entry |
| LegacyResults.MatchResults.constructor | markov/src/main/java/com/ktm_technologies/markov/MatchResults.java:129 | no entries and no pending capture |
| LegacyResults.MatchResults.Append | markov/src/main/java/com/ktm_technologies/markov/MatchResults.java:137-143 | one entry appended with the pending capture, then cleared; earlier entries unchanged |
| LegacyResults.MatchResults.AppendCarrying | markov/src/main/java/com/ktm_technologies/markov/MarkovChain.java:621 | the four-argument append: an entry carrying the given capture, then the pending one cleared |
| LegacyResults.MatchResults.CreatePlaceholder | markov/src/main/java/com/ktm_technologies/markov/MatchResults.java:152-156 | the pending capture becomes one whose words are exactly [word]; entries unchanged |
| LegacyResults.MatchResults.AppendPlaceholder | markov/src/main/java/com/ktm_technologies/markov/MatchResults.java:158-161 | one word appended to the pending capture; NullPointerException without one |
| LegacyResults.MatchResults.ResetPlaceholder | markov/src/main/java/com/ktm_technologies/markov/MatchResults.java:163-166 | only the pending capture is cleared |
| LegacyScanning.ExactWalk | markov/src/main/java/com/ktm_technologies/markov/MarkovChain.java:578-610 | the exact walk stays within the phrase and never shrinks the edge count |
| LegacyScanning.ExactWalkLongest | markov/src/main/java/com/ktm_technologies/markov/MarkovChain.java:578-610 | the walk takes the longest run of linked windows and adds up their probabilities |
| LegacyScanning.ExactSingleSpec | markov/src/main/java/com/ktm_technologies/markov/MarkovChain.java:550-624 | -1 for a short rest; at most one new entry; none means 0; a new entry has no capture and covers the walked tokens |
| LegacyScanning.ExactSubMatch | markov/src/main/java/com/ktm_technologies/markov/MarkovChain.java:578-622 | a sub-match adds one capture-free entry for the tokens walked |
| LegacyScanning.ExactMatchWhole | markov/src/main/java/com/ktm_technologies/markov/MarkovChain.java:462-483 | match is the average along the whole phrase when every window is linked from the first, 0 otherwise |
| LegacyScanning.SubMatchFinds | markov/src/main/java/com/ktm_technologies/markov/MarkovChain.java:578-622 | the sub-match entry spans the longest linked run with its average |
| LegacyScanning.RunFromWindow | markov/src/main/java/com/ktm_technologies/markov/MarkovChain.java:578-610 | the exact walk from a window takes exactly the longest linked run from there, and its sum is that run's probability sum |
| LegacyScanning.EntryOfRun | markov/src/main/java/com/ktm_technologies/markov/MarkovChain.java:578-622 | the sub-match entry spans the walked windows plus one window's tokens and carries the walk's average |
| LegacyScanning.ExactSingleFinds | markov/src/main/java/com/ktm_technologies/markov/MarkovChain.java:550-624 | an entry exactly when some window from the start labels a node, at the first such window, spanning the longest linked run |
| LegacyScanning.PathSumOnPath | markov/src/main/java/com/ktm_technologies/markov/MarkovChain.java:422-448 | along a trained path every step has probability 1 |
| LegacyScanning.TrainedPhraseMatchesExactly | markov/src/main/java/com/ktm_technologies/markov/MarkovChain.java:462-483 | a fresh chain trained on a phrase with distinct windows matches it with 1.0 |
| LegacyScanning.SingleAdvances | markov/src/main/java/com/ktm_technologies/markov/MarkovChain.java:655-665 | a sub-match has what the scan loop relies on |
| LegacyScanning.ExactScanTurnSpans | markov/src/main/java/com/ktm_technologies/markov/MarkovChain.java:655-665 | the rest of the scan adds capture-free entries that cover the phrase left to right without overlap, and keeps the best average |
| LegacyScanning.ExactScanResult | markov/src/main/java/com/ktm_technologies/markov/MarkovChain.java:639-667 | scan returns -1 exactly for a short phrase, otherwise at least 0 and every average; entries cover the phrase without overlap and carry no capture |
| LegacyScanning.WalkIsExact | markov/src/main/java/com/ktm_technologies/markov/MarkovChain.java:578-610 | without placeholder tokens nlcmd's queryEdge walk takes the same edges as the exact walk |
| LegacyScanning.PlainWalkStep | markov/src/main/java/com/ktm_technologies/markov/MarkovChain.java:578-610 | without placeholder tokens one step of nlcmd's walk follows the exact edge to the next window, or ends the walk with the details unchanged |
| LegacyScanning.MatchAgrees | markov/src/main/java/com/ktm_technologies/markov/MarkovChain.java:462-483 | without placeholder tokens the two engines' match agree |
| LegacyChain.SlidingWindow.constructor | markov/src/main/java/com/ktm_technologies/markov/MarkovChain.java:281-285 | a window over the phrase from a start position, placed just before it with the flag lowered |
| LegacyChain.SlidingWindow.ResetPlaceholder | markov/src/main/java/com/ktm_technologies/markov/MarkovChain.java:295 | only the flag is lowered |
| LegacyChain.SlidingWindow.CanSlide | markov/src/main/java/com/ktm_technologies/markov/MarkovChain.java:300-302 | another full window remains |
| LegacyChain.SlidingWindow.Slide | markov/src/main/java/com/ktm_technologies/markov/MarkovChain.java:308-325 | the next window, or null once exhausted; the flag goes up when the window holds a placeholder token and never comes down here |
| LegacyChain.PlaceholderNode.constructor | markov/src/main/java/com/ktm_technologies/markov/MarkovChain.java:241-244 | the decorator wraps its parent node |
| LegacyChain.PlaceholderNode.Name | markov/src/main/java/com/ktm_technologies/markov/MarkovChain.java:247-249 | the label is the parent's |
| LegacyChain.PlaceholderNode.Edges | markov/src/main/java/com/ktm_technologies/markov/MarkovChain.java:252-254 | the edge map is the parent's |
| LegacyChain.PlaceholderNode.PutEdge | markov/src/main/java/com/ktm_technologies/markov/MarkovChain.java:257-259 | addEdge(Edge) updates the parent's table, visible through both nodes |
| LegacyChain.PlaceholderNode.AddEdge | markov/src/main/java/com/ktm_technologies/markov/MarkovChain.java:262-264 | addEdge(Node) applies the update rule to the parent's table, visible through both nodes |
| LegacyChain.MarkovChain.constructor | markov/src/main/java/com/ktm_technologies/markov/MarkovChain.java:366-368 | an empty chain with the window |
| LegacyChain.MarkovChain.NodeAt | markov/src/main/java/com/ktm_technologies/markov/MarkovChain.java:393-402 | get or create the node of a label |
| LegacyChain.MarkovChain.Load | markov/src/main/java/com/ktm_technologies/markov/MarkovChain.java:382-413 | the chain becomes LoadSpec; the result is false exactly at a malformed element |
| LegacyChain.MarkovChain.Train | markov/src/main/java/com/ktm_technologies/markov/MarkovChain.java:422-448 | the chain becomes TrainSpec: nothing for a short phrase, consecutive windows linked otherwise |
| LegacyChain.MarkovChain.TrainStep | markov/src/main/java/com/ktm_technologies/markov/MarkovChain.java:437-447 | one loop turn links the previous window's node to the next |
| LegacyChain.MarkovChain.ScanSingle | markov/src/main/java/com/ktm_technologies/markov/MarkovChain.java:550-624 | _scanSingleMatch computes ExactSingleSpec |
| LegacyChain.MarkovChain.Match | markov/src/main/java/com/ktm_technologies/markov/MarkovChain.java:462-483 | match computes ExactMatchSpec |
| LegacyChain.MarkovChain.Scan | markov/src/main/java/com/ktm_technologies/markov/MarkovChain.java:639-667 | scan computes ExactScanSpec, into fresh details when given null |
| LegacyChain.MarkovChain.Traverse | markov/src/main/java/com/ktm_technologies/markov/MarkovChain.java:674-693 | traverse emits the calls of TraverseSpec |
| LegacyChain.MatchIn | markov/src/main/java/com/ktm_technologies/markov/MarkovChain.java:462-483 | match on a node map computes ExactMatchSpec |
| LegacyChain.ScanIn | markov/src/main/java/com/ktm_technologies/markov/MarkovChain.java:639-667 | scan on a node map computes ExactScanSpec |
| LegacyChain.ScanSingleIn | markov/src/main/java/com/ktm_technologies/markov/MarkovChain.java:550-624 | _scanSingleMatch on a node map computes ExactSingleSpec |
| LegacyChain.FindFirst | markov/src/main/java/com/ktm_technologies/markov/MarkovChain.java:564-575 | the first loop finds FirstWindow |
| LegacyChain.SubMatch | markov/src/main/java/com/ktm_technologies/markov/MarkovChain.java:578-622 | the walk and the new entry compute ExactSubMatch |
| LegacyChain.WalkFrom | markov/src/main/java/com/ktm_technologies/markov/MarkovChain.java:578-610 | the walk loop computes ExactWalk |
| LegacyChain.WalkTurn | markov/src/main/java/com/ktm_technologies/markov/MarkovChain.java:580-609 | one turn follows the exact edge or stops |
| LegacyChain.ScanLoop | markov/src/main/java/com/ktm_technologies/markov/MarkovChain.java:655-665 | the do-while loop computes ExactScanFrom |
| LegacyChain.ScanTurn | markov/src/main/java/com/ktm_technologies/markov/MarkovChain.java:655-665 | one turn is one step of ExactScanFrom |
| LegacyCommands.MatchScores | markov/src/main/java/com/ktm_technologies/nlcmd/CommandSet.java:39-46 | one match score per key, in key order |
| LegacyCommands.ScanScores | markov/src/main/java/com/ktm_technologies/nlcmd/CommandSet.java:67-86 | one scan score per key, in key order |
| LegacyCommands.PickSnoc | markov/src/main/java/com/ktm_technologies/nlcmd/CommandSet.java:41-45 | one more score takes over the maximum only when strictly greater |
| LegacyCommands.ScanOfFound | markov/src/main/java/com/ktm_technologies/nlcmd/CommandSet.java:71 | the maps a chain hands back: its placeholder map is always empty, its match map holds exactly the entries' tokens |
| LegacyCommands.CommandSet.constructor | markov/src/main/java/com/ktm_technologies/nlcmd/CommandSet.java:26 | an empty set |
| LegacyCommands.CommandSet.Put | markov/src/main/java/com/ktm_technologies/nlcmd/CommandSet.java:26 | HashMap.put: the chain is stored under the key, a new key goes last |
| LegacyCommands.CommandSet.Match | markov/src/main/java/com/ktm_technologies/nlcmd/CommandSet.java:35-49 | null for an empty set or when no score exceeds -1; otherwise the first key of a maximal score |
| LegacyCommands.CommandSet.Scan | markov/src/main/java/com/ktm_technologies/nlcmd/CommandSet.java:60-89 | the key is picked by the same rule on scan scores; non-null maps hold the winner's maps, untouched when none wins |
| LegacyCommands.MatchLoop | markov/src/main/java/com/ktm_technologies/nlcmd/CommandSet.java:39-46 | the loop returns the key of PickOf of the match scores |
| LegacyCommands.ScanLoop | markov/src/main/java/com/ktm_technologies/nlcmd/CommandSet.java:67-86 | the loop returns the key of the pick and refills the maps on each new maximum |
| LegacyCommands.ScanInto | markov/src/main/java/com/ktm_technologies/nlcmd/CommandSet.java:71 | the three-argument chain scan computes ScanOf |
| Commands.MorRunThrows | nlcmd/src/main/java/com/ktm_technologies/nlcmd/CommandSet.java:153-168 | under LONGEST_AVG_REL_MOR a non-empty run throws a NullPointerException at the first null chain |
| LegacyCommands.NoCaptureNoPlaceholders | markov/src/main/java/com/ktm_technologies/nlcmd/CommandSet.java:71 | entries without capture leave the placeholder map as it was |
| LegacyScanning.SpanStep | markov/src/main/java/com/ktm_technologies/markov/MarkovChain.java:655-665 | one more entry in front of the rest of the scan keeps the entries in order without overlap and the best average |
| Edges.TargetsOfUpdate | nlcmd/src/main/java/com/ktm_technologies/nlcmd/MarkovChain.java:345-352 | updating probabilities in place keeps the key set and distinct targets |

## Left out

- Reading a command from a single string: `Utils.words` and the `String` overloads of `Nlcmd.action`, `match` and `scan` (`Nlcmd.java` 133-137 and 167-171). Commands and phrases enter the model already split into tokens; `Utils.java` is not part of this model.
- JSON and Graphviz I/O: parsing and writing the JSON file, the `Dot` listener and the streams. `load` takes the parsed array as a sequence of items, a malformed element standing for a missing or mistyped field; `traverse` produces the sequence of listener calls.
- Floating point: probabilities are exact reals, so normalisation holds exactly, while Java's doubles only approximate it. Rounding is not modelled; the NaN of 0/0 is.
- The random query id the default mixin draws in `initQuery` is not modelled; no hook reads it.
- `matchingFaktor` and the other unused fields of `Node` are left out; of the training bookkeeping only the list of trained phrases and the `associate` calls are kept.
- Logging, `toString`, the getters that only expose a field, and `Label.hashCode`: labels are compared as token sequences, which agrees with Java's string comparison only while no token contains a space.
- Node identity and aliasing inside a chain: a chain holds its nodes by value, a map from label to edge table. Two `Node` objects with the same label cannot occur in the source either, since every node is created through the node map. `Nodes.Node` and `LegacyChain.PlaceholderNode` are modelled as objects where the source updates them in place.
- Node subclassing: `MarkovChainMixin.create` may return a subclass of `Node`; the model creates plain nodes, and the only behaviour a mixin adds is through its query hooks.
- The state left behind by an exception inside a loop is what the model's methods leave; callers in the source do not use an object after such an exception, and contracts speak of it only where the source leaves the object unchanged.
- The three-argument `CommandSet` constructor that `Nlcmd.action` calls does not exist in `CommandSet.java`; it is modelled as the two-argument one.
- The four-argument `MatchResults.append` that markov's `_scanSingleMatch` calls does not exist; it is modelled as `LegacyResults.MatchResults.AppendCarrying`.
- markov's placeholder branch in the walk of `_scanSingleMatch` (`MarkovChain.java` 594-610) is guarded by a literal `false` and never runs; the model's walk follows the exact edges only.
- The three-argument `MarkovChain.scan` that markov's `CommandSet.scan` calls does not exist in markov; it is modelled as `LegacyCommands.ScanInto`.
- NlcmdChain.MarkovChain.constructor: requires an order of at least 1. The chain itself accepts any order, but an order below 1 gives empty windows, which the model's labels reserve for null; no caller builds such a chain, since the command set rejects it (`Commands.NewCommandSet`) and so does `Nlcmd.setOrder`.
- LegacyChain.MarkovChain.constructor: requires a window of at least 1, for the same reason.
- NlcmdChain.MarkovChain.Traverse: requires that every listed key is a node of the map. Every chain the model builds satisfies this; the source iterates over the map itself.
- LegacyChain.MarkovChain.Traverse: requires that every listed key is a node of the map, for the same reason.
- Callbacks are identified by a number: what a callback does when it runs is outside the model, and `Registry` reports which callback runs and with which maps.
- `subList` views: a sub-phrase is the whole phrase plus a start position rather than a view sharing storage.
- nlcmd's `load` throws on a malformed element, while markov's returns false; both are modelled as the source has them.
- `LegacyChain.SlidingWindow` keeps an explicit offset and the whole phrase; the markov class holds the offset only implicitly, through how many tokens `slide` has removed from the head of its own copy of the list.
- The concrete scenarios of the repository's tests (the fox phrases scoring 2.5/3, the scan of "x b c y d e f z", the dispatch of three registered actions) are not restated one by one; the general lemmas cover their properties, and the "foo bar baz" examples state two of them concretely. Of the placeholder captures, only the "St. Georgen" scan is stated concretely (Scanning.StGeorgenCaptured); WalkCaptures and the queryEdge contract state how any spoken placeholder is captured.
- `MainActivity` and the Android app around the library are not part of this model.
- `ScoreMode` is a datatype of the three modes; the mixin's query id and its `Object` identity are not modelled.
- Iteration order: Java's `HashMap` order is unspecified; the model fixes it as insertion order, and the arg-max and query lemmas hold for any order given.
