# SpecERE, modelled and proved in Dafny

SpecERE keeps a belief about each specification of a repository (unknown, satisfied or violated), feeds it
with test outcomes and file edits, couples related specifications, clusters the files of the test harness, and
shares configuration files with other tools by fencing off what it writes. This project models the algorithms
behind that and proves what they promise. `dafny verify dfyconfig.toml` checks all of it.

The loops of the source are Dafny methods proved against specification functions; the objects it updates in
place (`PerSpecHMM`, `FactorGraphBP`, `RBPF`, `ClassCounts`, the harness graph) are classes; what the source
promises is proved about the specifications as lemmas.

## The parts

**Communities** (`Sums`, `Ordering`, `Modularity`, `Cluster`, `Gains`, `LouvainRun`, `LouvainLoops`,
`Communities`, `ClusterReport`, `ClusterEnrich`). The composite graph, the local moving with its incrementally kept totals and
tie-break, the relabelling and the report. Modularity is defined over pairs of nodes, independently of the loop;
each move changes it by exactly the difference of the gains the loop compares, a whole run can lose no more than
the ties allow, the reported shares add up to it, and the whole call is deterministic.

**Coupling** (`Graph`, `Coupling`, `Calibrate`, `Specs`, `PairCounting`, `CoReport`). The three-colour search that
accepts exactly the acyclic graphs, the reachability test, the greedy filter, and the counts the edges come from.

**Fences** (`TextLines`, `Chars`, `Fencing`, `TextFence`, `YamlFence`, `YamlPieces`, `ClaudeDeploy`,
`ClaudeRoundTrip`, `HookPlaces`, `HookKeys`, `ClaudeInstall`, `ClaudeUninstall`, `Markers`). Several units edit one file. Each of
the three fence formats has its exact round-trip condition; whole sequences of edits undo themselves; every hook the
deployer installs ends up in the list under its own key; what the
deployer's install followed by its removal leaves of a file has a closed form, and the files it leaves unchanged, byte
for byte, are exactly characterised.

**Filters** (`Beliefs`, `Hmm`, `Bp`, `Particles`, `Rbpf`, `MotionFit`, `Calibration`, `Evidence`, `Events`,
`FilterRun`, `FilterHistory`). The three belief filters, the fitted transition matrices, the evidence-based trust
in test outcomes, and the command that resumes from a saved posterior. The main results are about whole histories:
which events count, how often, and that stopping in between makes no difference.

**Histories and parsing** (`CivilDate`, `DepInfo`, `Harness`, `Flaky`, `CofailHistory`, `FlakyPromises`). Calendar
arithmetic, Make dependency lines, and co-failure edges: one call, any number of calls, and what the comments promise
of them.

## Reading the model

- Floating-point numbers are reals. A computation in logarithms is done on the positive numbers themselves:
  adding logarithms is multiplying, subtracting the maximum is dividing by the largest weight, log-sum-exp is the
  sum. The floors (`1e-12` in the filters, `1e-6` in the sensor) and the tests that guard the fallbacks are kept.
- The damping exponent of the propagation is any function that is positive, multiplicative and one at one
  (`Bp.IsPower`), growing where the exponent must not be negative (`Bp.IsGrowing`); the logarithm of the co-failure score is any strictly increasing function that is zero at one
  (`Flaky.IsLog`); the saturating map `1 - exp(-x)` and the roundings of written values are arbitrary functions.
- Random numbers are an arbitrary stream; what is proved holds for every stream.
- Text is a sequence of characters, lines end in a single newline, and white space is ASCII.
- Files, locks, processes and parsers of TOML, JSON and YAML are left out: a run is a step on the parsed values.

## Where the code differs from what is said about it

- `flaky.rs` says skipped outcomes drop out of the denominator of the association and that flaky pairs get a
  discounted score. In the code all runs are counted and a flaky pair is only marked. The model follows the code;
  `FlakyPromises` says exactly when each makes a difference (`AssociationAsPromised`, `DiscountAsPromised`) and gives
  runs where it does (`SkipsCount`, `FlakyPairKeepsScore`).
- The header of `flaky.rs` drops a failure as a flake when the test's coverage misses the changed files. The code, as a
  comment in it says, only looks whether the test's node has any coverage (`FlakyPromises.JointByCoverage`).
- The header of `flaky.rs` divides the failures by `total_runs`; the code divides by the runs in which the test
  appears, which is the same exactly for tests that appear in every run or appear and never fail
  (`FlakyPromises.ScoreOverAllRuns`, `FlakyPromises.AbsenceIsNotCounted`). Every failure is counted, as a comment in
  the loop says.
- `flaky.rs` says identical re-imports of a run are idempotent through its id. Test events are grouped by it; the lines
  of a runs file are not, and the enrichment does not look at it. The same call again changes nothing
  (`CofailHistory.SameCallIsIdle`), and a run listed again within one call counts again (`CofailHistory.RunListedAgain`; the second list of `CofailHistory.CallsPileUp` is the first with one
  run repeated).
- `bp.rs` says that centring the messages stops repeated sweeps from drifting towards violation. Any positive factor
  on a message cancels (`Bp.CentringIsIdle`); without new evidence a sweep raises the violations it reaches, up to the
  floor, if and only if `kappa > 1`, whatever the centring (`Bp.ViolationRises`, `Bp.ViolationDrifts`). The default
  `kappa` does (`Bp.UniformPairDrifts`).
- The text fence's contract says removal preserves all surrounding bytes and collapses adjacent blank lines to one. It
  does the second anywhere in the file, and drops trailing blank lines; `TextFence.RoundTripExactly` says exactly which
  files are unharmed, `TextFence.BlankRunIsLost` gives one that is not.
- The deployer promises that its removal restores the hook file byte for byte. It does not for every file:
  `ClaudeUninstall.UninstallUndoesExactly` says for which, `ClaudeUninstall.TakenKeyStays` and
  `ClaudeUninstall.NewHooksLineStays` give two that change.
- The YAML fence's removal leaves synthesised keys behind (`YamlFence.RoundTripExactly`,
  `YamlFence.SynthesisedKeyIsLeft`), and the deployer's sweep takes a key whose hooks all sit in another unit's fence
  for empty (`ClaudeDeploy.ForeignFenceHidesHooks`).
- `strip_block` does not give back a file that is a single newline, or that ends in none or in several
  (`Markers.RoundTripExactly`, `Markers.LoneNewlineIsLost`).
- A dependency line is not read back exactly when its target starts with a hash, or when the target or the last
  source ends in white space: the line is trimmed before its escapes are read (`DepInfo.RuleRoundTripExactly`,
  `DepInfo.RulesThatChange`).
- Calling the co-failure enrichment again with other runs leaves the earlier edge of a pair beside the new one, and
  alternating between two sets of runs repeats equal edges (`CofailHistory.CallsPileUp`);
  `CofailHistory.OneEdgePerGatedPair` and `CofailHistory.EdgeTwiceIfAlternating` say exactly when.
- A marker of the substring fences is shared with another id whenever its id has a block or its unit a space
  (`Markers.MarkersIdentifyExactly`). This concerns callers of the public functions only: the repository itself
  passes `rules` without a block, whose markers are its own (`Markers.RulesMarkersAreOwn`).

## Model

| member | source | states |
|---|---|---|
| `Cluster.AddHalf` | crates/specere/src/harness/cluster.rs:97-104 | Adding weight to one direction changes exactly that entry, and never leaves an empty row |
| `Cluster.Add` | crates/specere/src/harness/cluster.rs:93-105 | An accepted link adds its weight to both directions; a self-link or a weight that is not positive changes nothing; the graph stays symmetric, loop-free and positive |
| `Cluster.AddAll` | crates/specere/src/harness/cluster.rs:107-125 | After a whole table, every entry is the total of the accepted links read so far |
| `Cluster.CompositeAdjacency` | crates/specere/src/harness/cluster.rs:90-127 | For every pair of nodes, the weight is the sum over the four tables of the accepted contributions; with a mix that is not negative it is each table's own score in proportion to its own factor, marked co-failures counted half; the weight of a graph with a single edge is given table by table; the result is symmetric, loop-free and positive |
| `Cluster.MarkingHalves` | crates/specere/src/harness/cluster.rs:119-125 | Marking one co-failure takes half of what it adds away from the weight between its ends, and changes nothing else |
| `Modularity.MoveChangesTotal` | crates/specere/src/harness/cluster.rs:181-204 | For any symmetric table, moving one element to another group changes the within-group total by exactly twice the difference of the two pulls |
| `Modularity.RenamingKeepsTotal` | crates/specere/src/harness/cluster.rs:211-218 | A renaming of groups that keeps the same elements together keeps the within-group total |
| `Gains.GainIsPull` | crates/specere/src/harness/cluster.rs:183-192 | The gain the loop computes for a community is the pull of that community in the modularity table, with the node itself taken out |
| `Gains.MoveChangesQ` | crates/specere/src/harness/cluster.rs:181-204 | A move changes modularity by exactly `2 / two_m` times the difference of the two gains |
| `Gains.ChoiceIsNearBest` | crates/specere/src/harness/cluster.rs:186-197 | The chosen community is the present one or a neighbouring one, loses less than one tie against the present one, is within two ties of every candidate, and staying put means no candidate is better by more than a tie |
| `Gains.BestProperties` | crates/specere/src/harness/cluster.rs:191-197 | What the scan over candidates knows at every step, for every starting state of the scan |
| `LouvainLoops.CollectLinks` | crates/specere/src/harness/cluster.rs:171-178 | The weights to neighbouring communities are the sums of the links into them, and exactly the communities with a link appear |
| `LouvainLoops.GainFromTotals` | crates/specere/src/harness/cluster.rs:182-192 | From an exact running total without the node, the computed gain is the defined gain |
| `LouvainLoops.ScanCommunities` | crates/specere/src/harness/cluster.rs:186-197 | The loop over sorted communities returns the tie-broken best of them |
| `LouvainLoops.VisitNode` | crates/specere/src/harness/cluster.rs:167-205 | One visit makes the defined choice, reports whether the node moved, and leaves `sigma_tot` exact: each community total is the sum of its members' degrees |
| `LouvainLoops.OnePass` | crates/specere/src/harness/cluster.rs:164-208 | A pass over the nodes is the sequence of visits, with `sigma_tot` exact throughout and the moved flag true exactly when some node moved |
| `LouvainLoops.TotalsConserve` | crates/specere/src/harness/cluster.rs:158-161 | An exact `sigma_tot` adds up to the total degree `two_m` |
| `LouvainRun.VisitBound` | crates/specere/src/harness/cluster.rs:181-204 | A visit loses at most one tie's worth of modularity |
| `LouvainRun.PassBound` | crates/specere/src/harness/cluster.rs:167-205 | A pass loses at most one tie's worth per node |
| `LouvainRun.PassesBound` | crates/specere/src/harness/cluster.rs:163-209 | Any number of passes, stopped at the first quiet one, loses at most one tie per node and pass |
| `LouvainRun.QuietPassIsOptimal` | crates/specere/src/harness/cluster.rs:206-208 | A pass in which nothing moves ends in a partition no single move improves by more than a tie |
| `LouvainRun.SettledIsOptimal` | crates/specere/src/harness/cluster.rs:163-209 | The passes end in such a local optimum unless every one of them moved something |
| `Communities.InitialState` | crates/specere/src/harness/cluster.rs:147-161 | Each node starts in its own community with an exact `sigma_tot` |
| `Communities.RepeatPasses` | crates/specere/src/harness/cluster.rs:163-209 | The loop of at most twenty passes computes the defined passes |
| `Communities.Relabel` | crates/specere/src/harness/cluster.rs:211-218 | The relabelling gives labels from zero without gaps, keeps their order and keeps the same nodes together |
| `Communities.Louvain` | crates/specere/src/harness/cluster.rs:131-219 | Labels exactly the nodes of the graph with a dense renaming of the partition the passes end in |
| `Communities.LouvainGuarantee` | crates/specere/src/harness/cluster.rs:131-219 | The result's modularity is at least that of the singletons minus twenty passes' worth of ties, and it is a local optimum unless all twenty passes moved something |
| `Communities.RelabelIsUnique` | crates/specere/src/harness/cluster.rs:211-218 | A partition with ordered communities has one dense relabelling |
| `Communities.LouvainIsDetermined` | crates/specere/src/harness/cluster.rs:18-20 | Two runs on the same graph give the same assignment |
| `Communities.RelabelKeepsQ` | crates/specere/src/harness/cluster.rs:211-218 | Relabelling keeps the modularity |
| `Communities.RelabelKeepsOptimum` | crates/specere/src/harness/cluster.rs:211-218 | Relabelling keeps local optimality |
| `ClusterReport.ShareIsOwnPart` | crates/specere/src/harness/cluster.rs:265-276 | The modularity a cluster is credited with is its members' own part of the pairwise definition |
| `ClusterReport.SharesSumToQ` | crates/specere/src/harness/cluster.rs:245-277 | The unrounded cluster modularities add up to the pairwise definition of modularity |
| `ClusterReport.ClusterTotals` | crates/specere/src/harness/cluster.rs:253-283 | The inside weight and the degree total of a cluster, and as centroid the last of the members with most inside weight, or the first member if no link runs inside |
| `ClusterReport.ReportRow` | crates/specere/src/harness/cluster.rs:246-300 | A row lists exactly the cluster's members in ascending order with half the inside sum, its unrounded share and its centroid |
| `ClusterReport.TwoMembers` | crates/specere/src/harness/cluster.rs:253-264 | The inside weight of a cluster of two nodes is the weight between them, counted once |
| `ClusterReport.Report` | crates/specere/src/harness/cluster.rs:232-277 | One row per label, every node in the row of its label, and an unrounded total modularity equal to the pairwise definition |
| `ClusterReport.RowIsUnique` | crates/specere/src/harness/cluster.rs:253-283 | What a row says is decided by the graph and the assignment, the centroid among ties included |
| `ClusterReport.DenseLabels` | crates/specere/src/harness/cluster.rs:233-246 | The rows are numbered like the dense labels |
| `ClusterEnrich.LabelsTell` | crates/specere/src/harness/cluster.rs:249 | Different clusters have different labels, however many there are |
| `ClusterEnrich.LabelNumbers` | crates/specere/src/harness/cluster.rs:249 | A label is a `C` and the cluster's number counted from one in decimal, with at least two digits and no other leading zero |
| `ClusterEnrich.PeakIsGreatest` | crates/specere/src/harness/cluster.rs:285-291 | The flakiest member is the last of the scored members with the greatest score, and there is none exactly when no member is scored |
| `ClusterEnrich.Enrich` | crates/specere/src/harness/cluster.rs:223-310 | From the four tables to the labelled nodes and the report: the composite graph, the communities of a Louvain run on it, a label for exactly the nodes with edges, and one unrounded summary per community listed by label |
| `ClusterEnrich.ReportIsGood` | crates/specere/src/harness/cluster.rs:223-310 | The reported modularity, unrounded, is at least that of single nodes minus the ties of twenty passes, and the clusters are a local optimum unless every pass moved something |
| `ClusterEnrich.EnrichIsDetermined` | crates/specere/src/harness/cluster.rs:18-20 | The same nodes and edges always give the same labels and the same report |
| `ClusterEnrich.EnrichAgain` | crates/specere/src/harness/cluster.rs:223-310 | A second run on the labelled nodes changes no label and reports the same |
| `ClusterEnrich.LabelsMatchReport` | crates/specere/src/harness/cluster.rs:223-310 | A node carries a cluster's label if and only if the report lists it as a member of that cluster, and none if it is listed nowhere |
| `Coupling.BuildAdjacency` | crates/specere-filter/src/coupling.rs:77-85 | The child lists and the node set of an edge list |
| `Coupling.Explore` | crates/specere-filter/src/coupling.rs:95-136 | A search from one white node either blackens it, keeping every finished node ranked above its children, or returns a simple cycle of the graph |
| `Coupling.SearchAll` | crates/specere-filter/src/coupling.rs:93-137 | Searching from every node finds no cycle only if the graph is acyclic |
| `Coupling.RequireDag` | crates/specere-filter/src/coupling.rs:76-138 | Accepts the edge list if and only if it has no directed cycle, self-loops included; a rejection names a chain of edges that starts and ends at the same node and meets no other node twice |
| `Graph.RankedIsAcyclic` | crates/specere-filter/src/coupling.rs:95-137 | A graph whose edges all go down in some numbering has no cycle |
| `Graph.NewEdgeCycle` | crates/specere-filter/src/calibrate.rs:287-289 | Adding an edge to an acyclic graph keeps it acyclic if and only if its destination does not already reach its source |
| `Calibrate.WouldCreateCycle` | crates/specere-filter/src/calibrate.rs:287-308 | True if and only if the new destination reaches the new source over the kept edges |
| `Calibrate.GreedyFilter` | crates/specere-filter/src/calibrate.rs:264-276 | The loop splits the proposals as the greedy rule says |
| `Calibrate.GreedyIsAcyclic` | crates/specere-filter/src/calibrate.rs:264-276 | For proposals in any order, the kept edges are acyclic, each dropped edge would close a cycle with them, and nothing is lost or duplicated |
| `Calibrate.GreedyKeepsAcyclic` | crates/specere-filter/src/calibrate.rs:264-276 | An acyclic list of proposals is kept whole and in order |
| `Calibrate.AlphabeticalIsAcyclic` | crates/specere-filter/src/calibrate.rs:241-243 | Edges that all point up the alphabet have no cycle |
| `Specs.UnderIsComponentPrefix` | crates/specere-filter/src/calibrate.rs:187-208 | A file is under a support entry exactly when the entry's path components begin the file's: `src/widget` does not match `src/widgetry` |
| `Specs.TrailingSlashIgnored` | crates/specere-filter/src/calibrate.rs:202-203 | A trailing slash on a support entry changes nothing |
| `PairCounting.CountPairs` | crates/specere-filter/src/calibrate.rs:236-245 | The nested loop adds one to each pair of listed names, once, and to no other |
| `CoReport.TouchedBy` | crates/specere-filter/src/calibrate.rs:216-227 | The touched specs of a commit are exactly those with a support entry over one of its files |
| `CoReport.TouchedByComponents` | crates/specere-filter/src/calibrate.rs:187-208 | A commit touches a spec if and only if the path components of one of its support entries begin those of one of the commit's files |
| `CoReport.CountCommits` | crates/specere-filter/src/calibrate.rs:210-246 | Every counter equals the number of commits it is meant to count, and no pair is recorded without a commit |
| `CoReport.CountIsCommits` | crates/specere-filter/src/calibrate.rs:236-245 | The count of a pair is the number of commits that touch both specs |
| `CoReport.ActiveIsCommits` | crates/specere-filter/src/calibrate.rs:229-235 | The count of activity is the number of commits that touch any spec |
| `CoReport.Propose` | crates/specere-filter/src/calibrate.rs:248-262 | The pairs that reach the threshold, most co-commits first and then by name |
| `CoReport.ComputeReport` | crates/specere-filter/src/calibrate.rs:182-285 | Reports an edge for a pair if and only if a positive number of commits, at least the minimum, touch both, with that exact count; it leaves the id that is a proper prefix of the other or has the smaller character where they first differ; edges come with most co-commits first and then in the order of their ids; they are acyclic and none is dropped |
| `CoReport.OneEdgePerPair` | crates/specere-filter/src/calibrate.rs:248-276 | No pair is reported twice |
| `TextLines.Tidy` | crates/specere-markers/src/text_block_fence.rs:78-92 | The two loops collapse runs of blank lines and drop trailing ones |
| `TextLines.LinesUnlines` | crates/specere-markers/src/text_block_fence.rs:59 | Lines written with newlines after them are read back |
| `TextLines.JoinLines` | crates/specere-markers/src/text_block_fence.rs:94-98 | Splitting and joining restores any text, up to its final newline |
| `TextLines.TidiedIsTidy` | crates/specere-markers/src/text_block_fence.rs:78-92 | Tidying leaves no adjacent and no trailing blank lines, and changes nothing if and only if there were none |
| `TextLines.TidiedNonBlank` | crates/specere-markers/src/text_block_fence.rs:78-92 | Tidying loses blank lines only |
| `Fencing.Remove` | crates/specere-markers/src/text_block_fence.rs:56-100 | Without a begin line nothing changes; a begin line without an end line behind it is an error; otherwise everything from the first begin line to the first end line behind it goes and the rest is tidied |
| `Fencing.MarkersExactly` | crates/specere-markers/src/yaml_block_fence.rs:134-146 | A marker line is the exact text in plain files and the text up to trailing white space in YAML |
| `Chars.TrimEndExactly` | crates/specere-markers/src/yaml_block_fence.rs:134-146 | Trimming the end takes off exactly the trailing white space |
| `Fencing.StripFence` | crates/specere-markers/src/yaml_block_fence.rs:137-167 | A fence with no earlier begin marker is cut out whole and what is around it is tidied |
| `Fencing.StripsCommute` | crates/specere-markers/src/yaml_block_fence.rs:132-175 | Cutting out two disjoint fences gives the same lines in either order |
| `Fencing.RemovalsCommute` | crates/specere-markers/src/text_block_fence.rs:56-100 | Removing two present units gives the same text in either order and keeps every other non-blank line |
| `TextFence.Add` | crates/specere-markers/src/text_block_fence.rs:29-51 | A text with the unit's begin line stays as it is; any other ends up as its old lines, one blank line if it has any, the begin line, the body and the end line, in a text that ends in a newline |
| `TextFence.RoundTripResult` | crates/specere-markers/src/text_block_fence.rs:29-100 | Removing what was added leaves the tidied lines, each with its newline |
| `TextFence.RoundTripExactly` | crates/specere-markers/src/text_block_fence.rs:29-100 | Removing what was added restores the file if and only if the file is empty, or ends in a newline and has no adjacent or trailing blank lines |
| `TextFence.BlankRunIsLost` | crates/specere-markers/src/text_block_fence.rs:13-14 | A file with two blank lines in a row comes back with one |
| `TextFence.EditsUndoThemselves` | crates/specere-markers/src/text_block_fence.rs:29-100 | Any sequence of adds and removes of distinct units never fails, leaves exactly the units present that should be, and restores the starting file when none is left |
| `YamlFence.Add` | crates/specere-markers/src/yaml_block_fence.rs:48-127 | A text with the unit's begin line stays as it is; in any other the fence goes to the end of its verb's list, behind its last line that is not blank and before the first other line that is no hook, or under a new key right behind the first `hooks:`, or under both new keys at the end of the file; the final newline or its absence is kept |
| `YamlFence.ListEndsOnce` | crates/specere-markers/src/yaml_block_fence.rs:65-82 | There is only one such end of a list |
| `YamlFence.AddIsIdempotent` | crates/specere-markers/src/yaml_block_fence.rs:48-52 | A second add of the same unit changes nothing |
| `YamlFence.RemoveAdded` | crates/specere-markers/src/yaml_block_fence.rs:48-175 | Removing what was added leaves the lines on either side of the insertion point, tidied; synthesised keys stay |
| `YamlFence.RoundTripExactly` | crates/specere-markers/src/yaml_block_fence.rs:48-175 | Removing what was added restores the file if and only if the verb key was already there and the file has no adjacent or trailing blank lines |
| `YamlFence.SynthesisedKeyIsLeft` | crates/specere-markers/src/yaml_block_fence.rs:48-175 | A file with nothing but `hooks:` comes back with the key that was put in |
| `YamlPieces.InsertBoundary` | crates/specere-markers/src/yaml_block_fence.rs:65-82 | In a file of whole fences and plain lines, the insertion point never falls inside a fence |
| `YamlPieces.AddedPieces` | crates/specere-markers/src/yaml_block_fence.rs:48-127 | Adding puts the new fence, with any new keys, between two pieces |
| `YamlPieces.RemovedPieces` | crates/specere-markers/src/yaml_block_fence.rs:132-175 | Removing takes one fence out and leaves the other fences whole |
| `YamlPieces.EditsKeepFences` | crates/specere-markers/src/yaml_block_fence.rs:48-175 | Any sequence of adds and removes succeeds and keeps the fences paired, disjoint and free of key lines |
| `ClaudeDeploy.StripEmptyVerbKeys` | crates/specere-units/src/deploy/claude_code.rs:91-124 | Drops exactly the workflow key lines whose next non-blank line is not a hook line |
| `ClaudeDeploy.DroppedExactly` | crates/specere-units/src/deploy/claude_code.rs:94-113 | A line is dropped if and only if it is the key of a workflow verb's phase, up to trailing white space, and the next line that is not all spaces is no hook line or there is none |
| `ClaudeDeploy.KeptInOrder` | crates/specere-units/src/deploy/claude_code.rs:114-123 | The lines that stay are those that are not dropped, in their order |
| `ClaudeDeploy.SweepExactly` | crates/specere-units/src/deploy/claude_code.rs:91-124 | The sweep takes away exactly the keys synthesised behind `hooks:` if and only if every original workflow key has a hook line behind it and no hook line comes first behind those keys |
| `ClaudeDeploy.ForeignFenceHidesHooks` | crates/specere-units/src/deploy/claude_code.rs:100-110 | A workflow key followed directly by a fence of any unit is treated as empty and dropped, although the fence holds hooks |
| `ClaudeDeploy.ObserveStepIsHookEntry` | crates/specere-units/src/deploy/claude_code.rs:128-138 | Every line of a span entry is a hook line |
| `ClaudeDeploy.AfterImplementIsHookEntry` | crates/specere-units/src/deploy/claude_code.rs:158-167 | Every line of the `after_implement` entry is a hook line |
| `ClaudeInstall.RegisterObserveStepHook` | crates/specere-units/src/deploy/claude_code.rs:145-156 | Registers one span hook under its own block id |
| `ClaudeInstall.InstallHooks` | crates/specere-units/src/deploy/claude_code.rs:263-301 | The install adds `after_implement` and then both phases of each verb, except the second of `implement`; in a file without these fences, each of the fourteen ends up whole in the list under the first line that is its own key, with only hook lines and blank lines in between |
| `HookPlaces.AddKeeps` | crates/specere-units/src/deploy/claude_code.rs:263-301 | Adding a hook leaves the fence of any hook with another key in its place |
| `HookPlaces.InstalledHooksStand` | crates/specere-units/src/deploy/claude_code.rs:263-301 | After any sequence of hooks with different keys, none of them there before, every fence stands under its own key |
| `ClaudeInstall.RemoveSpans` | crates/specere-units/src/deploy/claude_code.rs:389-400 | Removing both phases of each verb in order; the first broken fence ends it |
| `ClaudeInstall.RemoveHooks` | crates/specere-units/src/deploy/claude_code.rs:387-406 | The removal takes out every span, then the main unit, then sweeps the keys |
| `ClaudeInstall.BlockIdInjective` | crates/specere-units/src/deploy/claude_code.rs:151 | Different phases and verbs have different block ids, none of them the main unit's |
| `ClaudeRoundTrip.InstallStep` | crates/specere-units/src/deploy/claude_code.rs:263-301 | Each hook of the deployer puts in one whole fence, and outside the fences nothing but its key where that was missing |
| `ClaudeRoundTrip.RemoveStep` | crates/specere-units/src/deploy/claude_code.rs:389-402 | Each removal takes out its fence and tidies, and keeps the lines outside the fences |
| `ClaudeRoundTrip.InstallShows` | crates/specere-units/src/deploy/claude_code.rs:263-301 | Any sequence of hooks of distinct units: one fence each, and outside them the original lines with the missing keys put in one after another |
| `ClaudeRoundTrip.RemoveShows` | crates/specere-units/src/deploy/claude_code.rs:389-402 | Removing all units leaves the tidied lines outside the fences, in whatever order they are removed |
| `HookKeys.MissingKeys` | crates/specere-markers/src/yaml_block_fence.rs:102-114 | In a file with a `hooks:` line the missing keys all go right behind it, and none is put in if and only if none was missing |
| `HookKeys.NewHooksStays` | crates/specere-markers/src/yaml_block_fence.rs:115-122 | Without a `hooks:` line, a missing key brings one that no later step takes away |
| `HookKeys.UntidyIsLost` | crates/specere-units/src/deploy/claude_code.rs:91-124 | A file with adjacent or trailing blank lines does not come back, whatever the sweep drops |
| `ClaudeUninstall.UninstallLeaves` | crates/specere-units/src/deploy/claude_code.rs:387-406 | What installing every hook and removing them all leaves of any file without these markers: the missing keys put in, blank lines tidied, keys without hooks swept, and nothing else changed |
| `ClaudeUninstall.UninstallUndoesExactly` | crates/specere-units/src/deploy/claude_code.rs:263-301 | Installing every hook and removing them all restores a file without these markers byte for byte if and only if it has no adjacent or trailing blank lines, a hook line behind every workflow key, and either every hook key already or a `hooks:` line with no hook line first behind it |
| `ClaudeUninstall.TakenKeyStays` | crates/specere-units/src/deploy/claude_code.rs:100-110 | A file with a hook directly behind `hooks:` does not come back |
| `ClaudeUninstall.NewHooksLineStays` | crates/specere-markers/src/yaml_block_fence.rs:115-122 | A file without a `hooks:` line does not come back |
| `Markers.Find` | crates/specere-markers/src/lib.rs:52-64 | The first occurrence of a marker, or none at all |
| `Markers.NoStraddle` | crates/specere-markers/src/lib.rs:52-64 | A marker cannot begin before a newline and end after it |
| `Markers.UpsertFences` | crates/specere-markers/src/lib.rs:48-92 | A successful upsert leaves one block around the trimmed body, with a head and a tail that do not depend on the body |
| `Markers.UpsertAppends` | crates/specere-markers/src/lib.rs:75-91 | Without a begin marker the block goes to the end, after a blank line unless the text is empty |
| `Markers.UpsertOutcomes` | crates/specere-markers/src/lib.rs:52-74 | A second begin marker is an error, so is a missing end marker, and otherwise the text from the begin marker to the first end marker behind it is replaced |
| `Markers.UpsertReplaces` | crates/specere-markers/src/lib.rs:48-92 | A second upsert gives what it would have given without the first, for every text and every pair of bodies |
| `Markers.StripUndoesUpsert` | crates/specere-markers/src/lib.rs:48-122 | Stripping an appended block gives the text with its trailing newlines made into one |
| `Markers.StripAbsent` | crates/specere-markers/src/lib.rs:100-102 | Without a begin marker nothing is stripped |
| `Markers.StripBroken` | crates/specere-markers/src/lib.rs:103-108 | A begin marker without an end marker behind it is an error |
| `Markers.StripCuts` | crates/specere-markers/src/lib.rs:103-122 | Otherwise everything from the first begin marker to the first end marker behind it goes, with one newline after it, and the rest ends in one newline |
| `Markers.RoundTripExactly` | crates/specere-markers/src/lib.rs:48-122 | The text comes back exactly if and only if it is empty or ends in exactly one newline after some other character |
| `Markers.LoneNewlineIsLost` | crates/specere-markers/src/lib.rs:116-121 | A text that is a single newline comes back empty |
| `Markers.MarkersIdentifyExactly` | crates/specere-markers/src/lib.rs:32-44 | The marker of an id is its own alone if and only if the id has no block and its unit no space |
| `Markers.RulesMarkersAreOwn` | crates/specere-units/src/deploy/claude_code.rs:324-329 | No other id shares the markers of `rules` without a block, the one id the repository passes |
| `Markers.SpacesConfuse` | crates/specere-markers/src/lib.rs:48-75 | The unit `a b` replaces the text of unit `a` with block `b` |
| `CivilDate.ToDaysOfCivil` | crates/specere/src/harness/history.rs:312-344 | For every day number, negative ones included, the conversion gives a real Gregorian date whose day count is that number |
| `CivilDate.CivilOfToDays` | crates/specere/src/harness/history.rs:312-344 | Every Gregorian date is the date of its own day count |
| `CivilDate.ToDaysIsMonotone` | crates/specere/src/harness/history.rs:332-341 | The day count orders dates exactly as the calendar does |
| `CivilDate.ToDaysOfDayAfter` | crates/specere/src/harness/history.rs:332-341 | The day after, by month lengths and the leap rule, is one more |
| `CivilDate.CivilFollowsTheCalendar` | crates/specere/src/harness/history.rs:312-329 | Day zero is 1 January 1970 and each next day number is the day after |
| `CivilDate.DaysBetweenCounts` | crates/specere/src/harness/history.rs:331-345 | The age is the number of days passed, and zero for a later date, as long as it fits 32 bits |
| `CivilDate.CurrentYmdIsExact` | crates/specere/src/harness/history.rs:304-329 | The date from the clock is exact if and only if its year fits 32 bits |
| `Beliefs.NormaliseMakesSimplex` | crates/specere-filter/src/hmm.rs:152-159 | Normalising gives a distribution if and only if nothing is negative or the total is at most the floor, and leaves a distribution alone |
| `Beliefs.MixtureIsStochastic` | crates/specere-filter/src/motion.rs:53-56 | The mixture of two stochastic matrices is stochastic |
| `Beliefs.AdvanceKeepsSimplex` | crates/specere-filter/src/hmm.rs:106-118 | A motion step keeps the simplex, and its renormalisation changes nothing |
| `Beliefs.RescaledIsNormalised` | crates/specere-filter/src/hmm.rs:138-146 | After subtracting the maximum the total is at least one, so the uniform fallback is dead code |
| `Beliefs.PosteriorIsBayes` | crates/specere-filter/src/hmm.rs:134-147 | The observation step is exactly Bayes' rule on the floored prior, and leaves every status possible |
| `Beliefs.PosteriorOdds` | crates/specere-filter/src/hmm.rs:134-147 | Posterior odds are floored prior odds times the likelihood ratio |
| `Beliefs.FlatEvidence` | crates/specere-filter/src/hmm.rs:137-143 | An uninformative outcome gives `(p + eps) / (1 + 3 eps)` |
| `Beliefs.ViolationGains` | crates/specere-filter/src/hmm.rs:134-147 | Evidence that speaks more for a violation, against either other status, raises its posterior |
| `Hmm.PerSpecHMM.constructor` | crates/specere-filter/src/hmm.rs:42-60 | Every spec starts uniform; a repeated id stands for its last descriptor |
| `Hmm.PerSpecHMM.Marginal` | crates/specere-filter/src/hmm.rs:72-78 | The row of a known spec, an error for an unknown one |
| `Hmm.PerSpecHMM.SetBelief` | crates/specere-filter/src/hmm.rs:90-98 | Overwrites one row by the normalised value, whatever is given; the filter stays well-formed if and only if the spec is unknown or that value is a distribution |
| `Hmm.PerSpecHMM.Predict` | crates/specere-filter/src/hmm.rs:106-118 | Every row with an edited support file moves to the mean of where good and bad writes would take it, in the proportion assumed, and every other row by the leak alone |
| `Hmm.WriteExtremes` | crates/specere-filter/src/motion.rs:53-56 | With all writes assumed good only the good matrix matters to such a row, and with none only the bad one |
| `Hmm.PerSpecHMM.UpdateTest` | crates/specere-filter/src/hmm.rs:124-149 | One row is updated, an unknown id is an error and changes nothing |
| `Hmm.IndexIsLast` | crates/specere-filter/src/hmm.rs:47-51 | The index maps an id to the last descriptor that carries it |
| `Hmm.StepKeepsSimplex` | crates/specere-filter/src/hmm.rs:90-149 | Every step keeps every row a distribution |
| `Hmm.ReachableBeliefs` | crates/specere-filter/src/hmm.rs:90-149 | So does every run, and a tested spec has no impossible status |
| `Hmm.RunAppend` | crates/specere-filter/src/hmm.rs:90-149 | A run may be split anywhere |
| `Hmm.SpecsAreIndependent` | crates/specere-filter/src/hmm.rs:1-2 | A run over all specs is, spec by spec, a run of that spec alone |
| `Hmm.TestsCommute` | crates/specere-filter/src/hmm.rs:124-149 | Outcomes of different specs may be taken in either order |
| `Bp.MessageShape` | crates/specere-filter/src/bp.rs:140-165 | A message is a distribution that treats the two harmless statuses alike and multiplies a violation by the lift |
| `Bp.FactorGraphBP.constructor` | crates/specere-filter/src/bp.rs:43-61 | Keeps the edges between known specs, in order: each link leaves the row of its edge's source and enters the row of its destination, and no edge between known specs is without one |
| `Bp.FactorGraphBP.BpStep` | crates/specere-filter/src/bp.rs:131-191 | A sweep equals, row by row, one observation that favours violation by the product of the damped lifts; rows without incoming edges are unchanged |
| `Bp.FactorGraphBP.RunBp` | crates/specere-filter/src/bp.rs:117-121 | The configured number of sweeps |
| `Bp.FactorGraphBP.Predict` | crates/specere-filter/src/bp.rs:101-104 | A motion step followed by the sweeps |
| `Bp.FactorGraphBP.UpdateTest` | crates/specere-filter/src/bp.rs:106-115 | An observation followed by the sweeps; an unknown spec changes nothing |
| `Bp.ProductsArePositive` | crates/specere-filter/src/bp.rs:166-169 | The damped lifts multiply to something positive, at least one for `kappa >= 1` and `damp >= 0`, and exactly one for `kappa == 1` |
| `Bp.SweepKeepsSimplex` | crates/specere-filter/src/bp.rs:173-190 | A sweep keeps every row a distribution |
| `Bp.SweepKeepsHarmlessRatio` | crates/specere-filter/src/bp.rs:140-190 | A sweep never changes the ratio of unknown to satisfied, floored |
| `Bp.ViolationIsNotLowered` | crates/specere-filter/src/bp.rs:140-190 | With `kappa >= 1` and `damp >= 0` a reached violation never falls below `(p + eps) / (1 + 3 eps)`, and other rows are unchanged |
| `Bp.ViolationIsNotRaised` | crates/specere-filter/src/bp.rs:131-191 | With `kappa <= 1` and `damp >= 0` a reached violation never gets above `(p + eps) / (1 + 3 eps)` |
| `Bp.ViolationRises` | crates/specere-filter/src/bp.rs:131-191 | With `damp > 0` a sweep puts a reached violation strictly above `(p + eps) / (1 + 3 eps)` if and only if `kappa > 1`, which up to a third is above where it was |
| `Bp.ViolationDrifts` | crates/specere-filter/src/bp.rs:154-163 | So does every further sweep, with no new evidence in between, if and only if `kappa > 1` |
| `Bp.UniformPairDrifts` | crates/specere-filter/src/bp.rs:26-28 | With the default `kappa` and any positive damping, two coupled specs of which nothing is known: the second one's violation rises above a third at once and goes on rising |
| `Bp.UniformPairUndamped` | crates/specere-filter/src/bp.rs:26-28 | Undamped, to 17/47 |
| `Bp.CentringIsIdle` | crates/specere-filter/src/bp.rs:154-166 | Multiplying each message by any positive number of its own, which is what another centring does, leaves the sweep as it is |
| `Bp.NeutralCouplingIsStill` | crates/specere-filter/src/bp.rs:194-199 | With `kappa == 1` no entry moves by more than `2 eps` |
| `Bp.SweepIgnoresOrder` | crates/specere-filter/src/bp.rs:140-171 | The sweep does not depend on the order of the edges, repeated ones included |
| `Bp.ViolationSpreads` | crates/specere-filter/src/bp.rs:123-130 | With `kappa >= 1` and `damp >= 0`, more violated sources leave a more violated destination |
| `Bp.NoLinksNoEffect` | crates/specere-filter/src/bp.rs:132-134 | Without edges the filter is the plain per-spec filter |
| `Calibration.LikelihoodIsPositive` | crates/specere-filter/src/state.rs:146-164 | Every likelihood is positive, whatever the calibration and the outcome |
| `Calibration.QualityInRange` | crates/specere-filter/src/state.rs:102-141 | Quality is between 0.3 and 1 for all evidence |
| `Calibration.LikelihoodByQuality` | crates/specere-filter/src/state.rs:102-164 | Within that range the floor never bites and the likelihoods are affine in the quality |
| `Calibration.UncalibratedIsTrusted` | crates/specere-filter/src/state.rs:197-225 | A spec without a calibration is judged by the prototype's likelihoods |
| `Calibration.OtherOutcomesSayNothing` | crates/specere-filter/src/state.rs:159-163 | Any outcome but a pass or a failure leaves the odds as they were, up to the floor |
| `Calibration.TrustSharpens` | crates/specere-filter/src/state.rs:102-164 | For any prior, better quality makes a pass speak more for satisfied and a failure more for violated |
| `Calibration.FlakinessNeverRaises` | crates/specere-filter/src/state.rs:127-141 | Quality falls as cluster flakiness grows, never exceeds the plain one, and equals it at zero |
| `Evidence.Gather` | crates/specere/src/main.rs:945-973 | The counters of caught and missed mutants and the distinct smells of each spec |
| `Evidence.SmellsByName` | crates/specere/src/main.rs:962-973 | Smells are told apart by their test and kind |
| `Evidence.ClusterMeans` | crates/specere/src/main.rs:840-853 | The mean flakiness of each cluster with a scored file |
| `Evidence.SpecFlakiness` | crates/specere/src/main.rs:886-924 | The mean over a spec's files of their clusters' means, zero without any |
| `Evidence.ComputeCalibrations` | crates/specere/src/main.rs:941-994 | One calibration per spec; its quality is the share of caught mutants among caught, missed and timed-out ones, one without any, times one minus 0.15 for each distinct smell, neither factor nor product below 0.3 |
| `Evidence.ComputeWithClusters` | crates/specere/src/main.rs:829-936 | The same with the flakiness of the spec's clusters, and the plain one without a graph |
| `Evidence.QualityByFlakiness` | crates/specere/src/main.rs:921-932 | The quality with a graph is the plain one times one minus half the flakiness, the flakiness kept between zero and one and the result not below 0.3 |
| `Evidence.EvenFlakiness` | crates/specere/src/main.rs:840-924 | If every scored file scores the same and a file of the spec sits in a scored cluster, that score is the spec's flakiness |
| `Evidence.UnknownFilesAreBaseline` | crates/specere/src/main.rs:886-924 | A spec none of whose files the graph knows keeps its plain calibration |
| `Evidence.NoGraphIsBaseline` | crates/specere/src/main.rs:835-838 | An empty graph gives the plain calibration |
| `Evidence.GraphNeverRaises` | crates/specere/src/main.rs:889-934 | No graph ever raises a spec's quality |
| `Evidence.BaselineExactly` | crates/specere/src/main.rs:880-932 | A spec keeps its plain calibration if and only if the mean flakiness of its files' clusters is not positive or its plain quality already is 0.3 |
| `Evidence.StableClustersAreBaseline` | crates/specere/src/main.rs:908-933 | A spec none of whose clusters is flaky keeps its plain calibration |
| `Evidence.MutantsMoveQuality` | crates/specere/src/main.rs:980-991 | A killed mutant never lowers the quality and a surviving one never raises it |
| `Evidence.SmellsLowerQuality` | crates/specere/src/main.rs:986-991 | One more smell never raises it |
| `Evidence.NoEvidenceIsPrototype` | crates/specere/src/main.rs:938-940 | A spec without evidence of its own has exactly the prototype's calibration, whatever the log says of others |
| `Evidence.FullTrustExactly` | crates/specere/src/main.rs:938-960 | A spec has the prototype's calibration if and only if no mutant survived for it and no smell was reported |
| `Evidence.CalibrationsIgnoreOtherEvents` | crates/specere/src/main.rs:952-973 | Events of other kinds leave every calibration as it was |
| `Events.ParseJoined` | crates/specere-filter/src/drive.rs:71-79 | A comma-separated list of plain paths is read back as it was written |
| `Events.ParsedPathsArePlain` | crates/specere-filter/src/drive.rs:71-79 | Whatever the text, only trimmed paths without commas come out, and no empty one |
| `FilterRun.FilterBackend.Take` | crates/specere/src/main.rs:746-770 | One event is turned into a motion step, an observation, or nothing; it is processed unless it means nothing or names an unknown spec |
| `FilterRun.EventByKind` | crates/specere/src/main.rs:746-770 | An edit event moves every row by its listed files and a test outcome updates exactly the row of its spec, each followed by the messages; every other event, and an outcome of an unknown spec, leaves everything as it was |
| `FilterRun.RunFilter` | crates/specere/src/main.rs:642-788 | A run takes exactly the events ahead of the cursor, in log order, from the saved beliefs; it saves the latest of their timestamps and one entry per spec, in order and stamped with it, and without such an event the same cursor and entries, sorted by id |
| `FilterRun.ResumeFromSnapshot` | crates/specere/src/main.rs:700-706 | Resuming from saved entries brings back the very rows they were taken from |
| `FilterRun.ApplyAppend` | crates/specere/src/main.rs:746-770 | Taking two batches of events one after the other is taking them together |
| `FilterRun.PlainSettles` | crates/specere/src/main.rs:690-697 | Without coupling edges the propagation backend and the plain filter agree |
| `FilterHistory.RunTakesEverything` | crates/specere/src/main.rs:642-671 | A run leaves no event ahead of the cursor, never moves it back, and leaves it in place only if nothing was new |
| `FilterHistory.RerunIsIdle` | crates/specere/src/main.rs:660-671 | A second run without new events leaves cursor and entries exactly as they are |
| `FilterHistory.SplitRunIsOneRun` | crates/specere/src/main.rs:642-788 | A run over the early events and then one over all of them saves exactly what a single run saves, when no later event is one the first run has already gone past |
| `FilterHistory.SplitRunWithCalibrations` | crates/specere/src/main.rs:708-739 | The same with the sensor recomputed by each run, when the later events bring no evidence |
| `FilterHistory.TimelyEventsCountOnce` | crates/specere/src/main.rs:642-788 | Over any history of appends and runs, after a run the applied events are exactly those that were ahead of the cursor when appended, each once, and the saved beliefs are those of one pass over them |
| `FilterHistory.CursorNeverMovesBack` | crates/specere/src/main.rs:742-750 | However a history goes on, the cursor never moves back and nothing applied is undone |
| `Particles.WeightsAreNormalised` | crates/specere-filter/src/rbpf.rs:236-245 | Normalised weights are the weights over their sum; the fallback is dead code |
| `Particles.SquaresOfDistribution` | crates/specere-filter/src/rbpf.rs:205-208 | The squares of a distribution over n places sum to at least 1/n, with equality exactly when it is uniform |
| `Particles.EssInRange` | crates/specere-filter/src/rbpf.rs:205-208 | The effective sample size is between one and the number of particles |
| `Particles.EssIsFull` | crates/specere-filter/src/rbpf.rs:205-208 | Up to a million million particles it is the full number exactly when all weights are equal |
| `Particles.EssByWeights` | crates/specere-filter/src/rbpf.rs:205-208 | It is the square of the sum of the weights over the sum of their squares |
| `Particles.PickInterval` | crates/specere-filter/src/rbpf.rs:215-226 | Place i is drawn exactly on an interval of draws as long as its weight |
| `Particles.SampleCategorical` | crates/specere-filter/src/rbpf.rs:247-257 | The first place whose running sum reaches the draw, the last place if none does |
| `Rbpf.FirstReaching` | crates/specere-filter/src/rbpf.rs:223-226 | The search always finds the least such place; its fallback is dead code |
| `Rbpf.RBPF.constructor` | crates/specere-filter/src/rbpf.rs:54-87 | Tracks the known cluster ids, with equal weights and every particle's state at each place its own throw of the die, in order |
| `Rbpf.RBPF.Predict` | crates/specere-filter/src/rbpf.rs:132-149 | The backbone advances as the plain filter, and every particle is redrawn by where its own draw falls among the three probabilities of its state: by the leak, or by the mean of the two write matrices if a support file was edited |
| `Rbpf.RBPF.UpdateTest` | crates/specere-filter/src/rbpf.rs:151-175 | Reweights a tracked spec, updates the backbone, and resamples exactly when the effective sample size is below the fraction |
| `Rbpf.RBPF.Resample` | crates/specere-filter/src/rbpf.rs:210-233 | Each new particle is a copy of the picked old one, and the weights become equal |
| `Rbpf.RBPF.Marginal` | crates/specere-filter/src/rbpf.rs:177-194 | A distribution for every known spec; outside the cluster the backbone's row |
| `Rbpf.RBPF.SetBelief` | crates/specere-filter/src/rbpf.rs:108-130 | Seeds the backbone, and for a tracked spec redraws its particles from the given marginal and resets the weights |
| `Rbpf.MarginalByMass` | crates/specere-filter/src/rbpf.rs:177-194 | Both normalisations together divide by the sum of the weights |
| `Rbpf.ReweightingIsBayes` | crates/specere-filter/src/rbpf.rs:161-168 | Reweighting is exact Bayes on the marginal the particles stand for |
| `Rbpf.EssAfterResampling` | crates/specere-filter/src/rbpf.rs:231-232 | Right after resampling the effective sample size is the number of particles |
| `Rbpf.ExtinctStatesStayExtinct` | crates/specere-filter/src/rbpf.rs:221-231 | A state no particle is in does not come back by resampling |
| `Rbpf.Drive` | crates/specere-filter/src/rbpf.rs:132-175 | Whatever the random numbers, the backbone ends where the plain filter does on the same steps |
| `MotionFit.PrototypeIsProper` | crates/specere-filter/src/motion.rs:36-51 | The prototype matrices are stochastic |
| `MotionFit.ClassCounts.Bump` | crates/specere-filter/src/motion_fit.rs:36-39 | One transition is counted and nothing else |
| `MotionFit.ClassCounts.ToMatrix` | crates/specere-filter/src/motion_fit.rs:43-56 | Laplace-smoothed rows, or nothing without any transition |
| `MotionFit.FitSpec` | crates/specere-filter/src/motion_fit.rs:229-307 | The fit of one spec from its observations |
| `MotionFit.Fit` | crates/specere-filter/src/motion_fit.rs:215-314 | A fit for exactly the declared specs, each from its own observations in order; its number of events, its rate and its quality by the counts of caught mutants and passes against missed mutants, timeouts and failures |
| `MotionFit.FittedByCounts` | crates/specere-filter/src/motion_fit.rs:43-56 | Each row of a fitted matrix has, in proportion, one more than each count of moves out of its status; a class without a move keeps the prototype's matrix |
| `MotionFit.MovesAddUp` | crates/specere-filter/src/motion_fit.rs:243-254 | Good and bad transitions together number one less than the observations |
| `MotionFit.FitIsSound` | crates/specere-filter/src/motion_fit.rs:229-307 | Every fit is a proper motion with quality in [0.3, 1], and its transitions add up |
| `MotionFit.GoodMatrixShape` | crates/specere-filter/src/motion_fit.rs:175-254 | A fitted good matrix starts evenly from unknown and otherwise favours satisfied, the other two sharing equally |
| `MotionFit.OthersDoNotMatter` | crates/specere-filter/src/motion_fit.rs:221-227 | Events of other specs or without evidence do not change a fit |
| `DepInfo.SplitOnUnescapedColon` | crates/specere/src/harness/dep_info.rs:109-123 | Splits at the first colon not preceded by an escape, or not at all |
| `DepInfo.TokeniseMakePaths` | crates/specere/src/harness/dep_info.rs:125-152 | The tokens between unescaped white space |
| `DepInfo.UnescapeMakePath` | crates/specere/src/harness/dep_info.rs:154-168 | Removes the escapes |
| `DepInfo.ParseLine` | crates/specere/src/harness/dep_info.rs:90-104 | The rule on one line, or nothing for blanks, comments and lines without a colon |
| `DepInfo.UnescapeRoundTrip` | crates/specere/src/harness/dep_info.rs:154-168 | Unescaping an escaped path gives the path |
| `DepInfo.SplitRoundTrip` | crates/specere/src/harness/dep_info.rs:109-123 | The split finds the colon after an escaped target |
| `DepInfo.TokeniseRoundTrip` | crates/specere/src/harness/dep_info.rs:125-152 | Escaped paths with spaces between them are read back as the same list |
| `DepInfo.RuleIsRead` | crates/specere/src/harness/dep_info.rs:90-104 | What any escaped rule line is read back as |
| `DepInfo.RuleRoundTripExactly` | crates/specere/src/harness/dep_info.rs:90-104 | It is read back exactly if and only if the target does not start with a hash and neither the target nor the last source ends in white space |
| `DepInfo.RulesThatChange` | crates/specere/src/harness/dep_info.rs:109-168 | A target starting with a hash is lost; a target or last source ending in a space comes back with a backslash for it |
| `Flaky.TallyRun` | crates/specere/src/harness/flaky.rs:143-148 | One more for each test that appears, and for each that fails |
| `Flaky.CountRuns` | crates/specere/src/harness/flaky.rs:108-162 | All counters have their meaning: appearances, failures, and runs in which both tests of a pair fail and survive the filter |
| `FlakyPromises.JointByCoverage` | crates/specere/src/harness/flaky.rs:120-140 | Two tests are counted in every run in which both fail if the first node of each path has coverage or is missing, and otherwise only in the runs that name no changed file |
| `Flaky.JointIsAtMostFails` | crates/specere/src/harness/flaky.rs:125-161 | A pair fails together no more often than either fails |
| `Flaky.WriteScores` | crates/specere/src/harness/flaky.rs:164-180 | A node with history gets its failure rate, others keep what they had; the counts of flagged nodes and of nodes with too short a history |
| `FlakyPromises.FlaggedAreAbove` | crates/specere/src/harness/flaky.rs:164-180 | The report counts as flagged the nodes seen at least once, with enough runs, whose failures exceed the threshold's share of their appearances |
| `FlakyPromises.ShortAreTooShort` | crates/specere/src/harness/flaky.rs:164-180 | And as too short the nodes seen at least once with too few runs |
| `Flaky.EmitEdges` | crates/specere/src/harness/flaky.rs:202-243 | One candidate edge for each pair that failed together and passes the gate |
| `Flaky.Enrich` | crates/specere/src/harness/flaky.rs:92-250 | Scores and the report's counts; then the old and new edges sorted by their ends, with equal neighbours made one; nothing happens without runs, and no edges without enough |
| `Flaky.GateByCounts` | crates/specere/src/harness/flaky.rs:206-216 | The association is positive if and only if `joint * n_runs > fails_a * fails_b` |
| `Flaky.FirstCallEdges` | crates/specere/src/harness/flaky.rs:202-247 | From a graph without such edges, exactly the gated pairs get an edge, one each, with the exact count |
| `FlakyPromises.EdgeByCoverage` | crates/specere/src/harness/flaky.rs:120-161 | The count an edge carries is that number of runs |
| `FlakyPromises.EdgeJoins` | crates/specere/src/harness/flaky.rs:190-229 | An edge joins the ids of the last nodes of its two paths, each with its own path |
| `FlakyPromises.EdgeSays` | crates/specere/src/harness/flaky.rs:225-232 | An edge runs from the smaller id to the larger and is marked if and only if both scores are above the threshold, a missing one counting as zero |
| `FlakyPromises.EdgeScores` | crates/specere/src/harness/flaky.rs:206-240 | Its score is the rounded logarithm of joint failures times runs over the product of the failures |
| `FlakyPromises.OrderedByEnds` | crates/specere/src/harness/flaky.rs:244-246 | Edges are sorted by their smaller ids and then by their larger ones |
| `Flaky.OldEdgesStay` | crates/specere/src/harness/flaky.rs:233-247 | An edge from an earlier call is never removed or replaced |
| `CofailHistory.PairHistory` | crates/specere/src/harness/flaky.rs:233-247 | After any number of calls the edges between two nodes are what the calls recorded for them, in order, with equal neighbours made one |
| `CofailHistory.OneEdgePerPair` | crates/specere/src/harness/flaky.rs:244-247 | Every two nodes keep one edge if and only if all that was ever recorded for them is the same edge |
| `CofailHistory.NoEdgeTwice` | crates/specere/src/harness/flaky.rs:244-247 | An edge stands twice if and only if it was recorded again after a different one |
| `CofailHistory.OneEdgePerGatedPair` | crates/specere/src/harness/flaky.rs:202-247 | From a graph without such edges, any number of calls leave one edge per two nodes if and only if the calls that gate a pair of tests agree on its count, written score and mark |
| `CofailHistory.EdgeTwiceIfAlternating` | crates/specere/src/harness/flaky.rs:202-247 | An edge stands twice if and only if some call repeats what an earlier one recorded for a pair, with a different record in between |
| `CofailHistory.CallsPileUp` | crates/specere/src/harness/flaky.rs:202-247 | Two runs, then three, then the first two again: two edges between one pair, then three, two of them equal |
| `CofailHistory.SameCallIsIdle` | crates/specere/src/harness/flaky.rs:58-60 | A second call with the same runs and settings changes neither a node nor an edge |
| `CofailHistory.RunListedAgain` | crates/specere/src/harness/flaky.rs:58-60 | A run listed once more in one call adds one to the runs and to every counter it bears on, so appearances stay as they were exactly if it holds no outcome |
| `FlakyPromises.ScoreIsShare` | crates/specere/src/harness/flaky.rs:164-180 | The score of a node is its rounded share of failures among its appearances, zero if it appeared and never failed, skipped or not |
| `FlakyPromises.ScoreOverAllRuns` | crates/specere/src/harness/flaky.rs:7-10 | Failures over all runs are the same share if and only if the test appears in every run, or appears and never fails |
| `FlakyPromises.AbsenceIsNotCounted` | crates/specere/src/harness/flaky.rs:7-10 | One failure and one run without the test: the share is one, over all runs a half |
| `FlakyPromises.ScoreWithoutSkips` | crates/specere/src/harness/flaky.rs:164-180 | Failures over passes and failures, for comparison, are the same share if and only if the test is never skipped, or passes and never fails |
| `FlakyPromises.AssociationAsPromised` | crates/specere/src/harness/flaky.rs:48-50 | Leaving skipped outcomes out of the shares would change the association of a pair if and only if the product of the two tests' skips differs from the number of runs times their common skips |
| `FlakyPromises.FlakinessOnlyMarks` | crates/specere/src/harness/flaky.rs:230-242 | The flakiness of the tests decides the mark of an edge and nothing else about it |
| `FlakyPromises.DiscountAsPromised` | crates/specere/src/harness/flaky.rs:18-25 | The promised discount would change the score if and only if the pair is marked, for scores that are shares and a threshold that is not negative |
| `FlakyPromises.SkipsCount` | crates/specere/src/harness/flaky.rs:48-50 | One common failure and one common skip: twice the promised association |
| `FlakyPromises.FlakyPairKeepsScore` | crates/specere/src/harness/flaky.rs:18-25 | One common failure and one common pass: both tests are flaky and marked, and the full score is written where a quarter was promised |
| `Ordering.SortKeys` | crates/specere/src/harness/cluster.rs:148-149 | The sorted enumeration of a set: ascending, complete, without repetition |
| `Ordering.AscendingUnique` | crates/specere/src/harness/cluster.rs:148-149 | There is only one such enumeration |
| `Ordering.StringLessByPosition` | crates/specere-filter/src/calibrate.rs:241-243 | A string comes before another if and only if it is a proper prefix of it or has the smaller character at the first place where they differ |
| `Ordering.SortIsSorted` | crates/specere-filter/src/posterior.rs:98-100 | A stable sort is ordered and a permutation |

## Left out

- Communities.Louvain: takes a symmetric, loop-free, positive graph, which is what `composite_adjacency` builds; the branch for a graph of total weight zero is reached only by the empty graph.
- ClusterEnrich.Enrich: does not model the rounding of the report to three decimals, and the seed, which the code does not use.
- YamlFence.Add: the unit's name contains no newline.
- Markers.RoundTripExactly: the unit's name contains no newline, the text does not hold the unit's begin marker, and the body holds neither marker.
- ClaudeUninstall.UninstallUndoesExactly: the file holds none of these units' markers before the install; the check that the hook file parses as YAML, and the file the install starts from when there is none, are not modelled.
- Rbpf.RBPF.SetBelief: the given values are such that normalising them gives a distribution (`Beliefs.NormaliseMakesSimplex` says which); drawing particles from negative shares is not modelled. The same holds for the posterior a run resumes from.
- Bp.FactorGraphBP.BpStep: `kappa` is positive, as its logarithm requires.
- FilterRun.RunFilter: the backend is the plain filter or the propagation; the particle filter as a backend of the command, the entropy column and the printed summary are not modelled.
- FilterHistory.SplitRunIsOneRun: both runs use one specification list and one sensor; `SplitRunWithCalibrations` says when the recomputed sensor is the same.
- Rbpf.RBPF.constructor: the quality of the random numbers and the statistical accuracy of the filter are not modelled.
- Flaky.Enrich: the written scores are rounded by arbitrary functions; which printed digits result is not modelled.
- CivilDate.ToDaysOfCivil: days and months of dates that do not exist are not excluded by the day count itself and are not given a meaning; reading a date from its ten-character prefix is not modelled.
- DepInfo.RuleRoundTripExactly: about one line; folding `\` line continuations, the mapping of paths to repository files, and bytes outside ASCII are not modelled.
- Events.ParseJoined: paths without commas and without surrounding white space.
- Carriage returns and white space outside ASCII in all text formats.
- Floating-point rounding, the iteration order of hash maps, and 32- and 64-bit overflow of counters other than the date arithmetic.
- The manifest with its hashes, the generic deployer's files, skills and agents, the `rules` block in `CLAUDE.md` and the `.gitignore` entry as steps of the install.
- The telemetry receivers, the SQLite store, the terminal interface, the smell detection and the provenance and coverage enrichments.
- The version metrics and co-modification edges of `history.rs` beyond its calendar arithmetic.
