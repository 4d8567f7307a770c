# leitir: a verified model of its decision cores

leitir decides three things about source code it has extracted: which definitions
have to move together when one function is transplanted, whether an async entry
point can reach a blocking call, and how a body of evidence scores against a
release policy. This project models those decisions in Dafny and proves what they
promise, over every graph, budget, policy and response sequence.

* **The Behavioral Transplant Set walk** (`Walk*.dfy`, `OwnerIndex.dfy`,
  `BtsMethod.dfy`, `SourceSpan.dfy`). A budgeted, priority-ordered closure over
  runtime edges, which cost one level of depth, and lexical nesting, which costs
  nothing. `Walk.dfy` is the walk as a state machine (`Step`, `Run`, `Conclude`);
  `BtsMethod.dfy` is the imperative program, proved to compute it. The other files
  prove the invariants of a step, the theorems about whole runs, which nodes become
  members and what the verdict says in terms of the graph alone, what a run costs and
  why it stops, and how outcomes compare between budgets.
* **Async compatibility** (`CanonicalPaths.dfy`, `Architecture.dfy`). Canonical
  shortest call paths and the three-valued verdict built on them.
* **Scoring** (`Rounding.dfy`, `Scoring.dfy`, `ScoringDimensions.dfy`, `Gate.dfy`,
  `MannWhitney.dfy`, `RankVariance.dfy`, `Retrieval.dfy`). Decimal rounding against
  exact rounding, bounds over unresolved evidence at both levels, the
  non-compensating gate, the rank test with the permutation variance it reports, and
  the retrieval kernel.
* **Supporting cores** (`Retry.dfy`, `BenchAggregate.dfy`, `GoMask.dfy`).

Code that updates variables in loops is modelled by methods with loops, each proved
against a specification function or stated outright; code made of expressions is
modelled by functions. `Ordering.dfy` holds the lexicographic keys and the stable
sort that stand for Python's tuple comparison and `sorted`, `GraphModel.dfy` the
graph.

## How to read the model

* The heap is a sequence from which the least key is taken, serial included; its
  array layout is not observable. Verification of a node's bytes is a map from
  source references to a digest or a refusal, so every outcome is covered.
* A budget hit inside the edge loop does not end that loop, exactly as in the
  program: the remaining edges are still examined and can still be rejected.
* Clocks, responses and discount sequences are parameters. Times, precisions and
  gains are exact reals.
* `WellFormed` states what the graph constructors enforce: node identities are
  unique, source references are valid, and edges are sorted by their key, without
  repetition, between nodes of the graph.

## Where the code and its promises part

* *A rejection dominates exhaustion* holds within one walk, but not across budgets:
  a larger depth or queue limit can spend the work that an import's examination
  needed and turn REJECT into PARTIAL (`WalkWitness.RejectHiddenByDepth`). A caller
  is safe who raises neither limit (`WalkMonotone.SameReachKeepsReject`) or whose
  policy rejects no import (`WalkMonotone.CleanImportsKeepReject`). In general the
  edge loop in which the smaller walk stopped decides, by arithmetic on its counters
  and its edges: `WalkStability.RejectSurvives` for a given larger budget,
  `WalkStability.RejectStability` for all of them at once.
* A COMPLETE walk may exceed its work and interface budgets, because import support
  is charged after the last test (`WalkWitness.CompleteCanOverrun`). What it spends
  and uses is a count over the least closed set, whatever the budget, so it stays
  within each of the two exactly when that count does
  (`WalkTotals.CompleteWithinExactly`); an overrun is never more than the last
  examined edge's imports charge (`WalkTheorems.CompleteRespects`).
* The 28-digit benchmark score is not always the exact rounding
  (`Rounding.BenchScoreCanRoundUp`). `Rounding.BenchScoreExactly` says exactly when it
  is; `Rounding.BenchScoreIsExact` gives a simple sufficient bound.
* Pooled scores stay within the range of the scores pooled for pooled numerators
  below 10^28, and not beyond (`BenchAggregate.PooledScoreCanDrop`).
* The Go masker closes a string at a single quote and a rune at a double quote
  (`GoMask.QuoteRuneHidesCode`). It scans as Go's lexical rules do exactly on texts
  where no literal holds an unescaped quote of the other kind
  (`GoMask.ScanAgreesExactly`).

## Model

| member | source | states |
|---|---|---|
| `GraphModel.NodeKeyInjective` | src/leitir/bts.py:366-367 | Distinct nodes have distinct keys, so no two nodes tie in any ordering by key. |
| `GraphModel.EdgeKeyInjective` | src/leitir/architecture.py:295-302 | Distinct edges have distinct keys, whatever optional binding each carries. |
| `GraphModel.EdgeOrder` | src/leitir/bts.py:385-386 | The canonical edge key orders all edges strictly and totally. |
| `GraphModel.NodeOrder` | src/leitir/architecture.py:283-284 | The canonical node key orders all nodes strictly and totally. |
| `GraphModel.NodeFieldsDecide` | src/leitir/bts.py:366-367 | Nodes compare by origin, kind, module, name and location: the first of these that differs decides. |
| `GraphModel.SourceFieldsDecide` | src/leitir/bts.py:370-374 | Sources compare by slug, commit, path, blob, start line, start column, end line and end column, in that order. |
| `GraphModel.EdgeFieldsDecide` | src/leitir/bts.py:377-386 | Edges compare by source, kind, target, site, binding with none before any, syntax kind, rule and protocol flag, although the key of a binding has two lengths. |
| `GraphModel.EdgesDistinct` | src/leitir/graph/model.py:367-376 | A graph the constructor accepts repeats no edge. |
| `OwnerIndex.HeadIsLongestPrefix` | src/leitir/bts.py:926-936 | Climbing by `rpartition` visits exactly the dotted prefixes of a name, longest first. |
| `OwnerIndex.NestedMembers` | src/leitir/bts.py:918-936 | A node is indexed under an owner exactly when it lies inside it, said of the graph alone: the owner is a class, function or method, the last node of its name, its name and a dot begin the node's, and its span of the same blob starts no later and ends no earlier. |
| `OwnerIndex.NestedTransitive` | src/leitir/bts.py:918-936 | What is nested in a nested definition is nested in the outer one, which the walk's depth argument needs. |
| `OwnerIndex.NestedIrreflexive` | src/leitir/bts.py:918-936 | No node owns itself. |
| `OwnerIndex.BuildNameIndex` | src/leitir/bts.py:918 | The dictionary answers with the last node of a name, as repeated assignment does. |
| `OwnerIndex.LookUp` | src/leitir/bts.py:928 | A lookup in the built dictionary is the specified lookup over the node list. |
| `OwnerIndex.ClimbPrefixes` | src/leitir/bts.py:926-936 | One climb appends the child to every definition that owns it and changes no other entry. |
| `OwnerIndex.BuildOwnerIndex` | src/leitir/bts.py:916-936 | The loops build, for every owner, exactly the nested nodes in graph order. |
| `Walk.Classify` | src/leitir/bts.py:843-856 | The disposition of a target, whatever the edge: INCLUDE exactly for an unruled donor node; REJECT exactly for a reject rule, or an unruled node neither a donor's nor pure standard library; EXTERNAL exactly for an external rule or unruled pure standard library; MAP, ADAPT and REPLACE exactly for their rules. |
| `Walk.OwnerFieldsDecide` | src/leitir/bts.py:1019 | Nested owners are taken by origin, module, name, kind and location, the first that differs deciding. |
| `Walk.EntryFieldsDecide` | src/leitir/bts.py:825-827 | Heap entries compare by depth, node, incoming edge with none before any, and serial. |
| `Walk.LeastIsMinimal` | src/leitir/bts.py:971 | What the heap yields is minimal in the frontier key and serial. |
| `Walk.LeastHasLeastDepth` | src/leitir/bts.py:825-827 | The frontier key puts depth first, so a pop has least depth. |
| `Walk.StepSpends` | src/leitir/bts.py:970-977 | Every iteration spends work, and one begun over the work limit hits the budget: the walk ends under any budget. |
| `WalkInvariant.WellFormedIsLawful` | src/leitir/bts.py:918-948 | The lookup tables of a constructed graph have what the walk relies on: own, distinct runtime edges, and nesting that is transitive and never circular. |
| `WalkInvariant.LegalExactly` | src/leitir/bts.py:916-944 | The hops of a chain, said of the graph alone (into a definition that lies inside, or along an edge of one of the five runtime kinds to a donor node that no rule names), are those the walk's tables offer. |
| `WalkPreserves.PopDepth` | src/leitir/bts.py:971-972 | The depth recomputed from `visited` on a pop is the depth in the heap key, no smaller than any before and no larger than any still queued. |
| `WalkPreserves.ExamineOneKeeps` | src/leitir/bts.py:1036-1076 | Examining an edge leaves it recorded with its target visited, queued at the right depth, rejected or on the frontier. |
| `WalkPreserves.VisitAllKeeps` | src/leitir/bts.py:1019-1032 | After the nested loop every nested owner is visited no deeper than its member, or the member is on the frontier. |
| `WalkPreserves.ReachKeeps` | src/leitir/bts.py:980-1061 | Refusing, deferring or expanding a reached node keeps all invariants. |
| `WalkPreserves.StepKeeps` | src/leitir/bts.py:970-1076 | One iteration keeps all invariants at a depth that never decreases, and a visited node is never reopened. |
| `WalkPreserves.RunKeeps` | src/leitir/bts.py:970-1076 | The invariants hold when the loop ends, which it does. |
| `WalkBudgets.StepWithin` | src/leitir/bts.py:999-1061 | One iteration keeps members, lines, files, ratio, depth and heap within their limits. |
| `WalkBudgets.RunWithin` | src/leitir/bts.py:967-1061 | So does a whole run. |
| `WalkTheorems.CompleteIsLeastClosure` | src/leitir/bts.py:916-1106 | A complete walk visits exactly the least set that holds the seed and is closed under lexical nesting and under edges that call, instantiate, read, inherit or raise a donor node without a rule. |
| `WalkTheorems.CompleteSpan` | src/leitir/bts.py:1010-1032 | That set is the members together with the owners nested in them. |
| `WalkTheorems.CompleteIsClean` | src/leitir/bts.py:1015-1042 | No runtime edge out of it leads to a node turned away by its rule or for its origin, nothing in it is unresolved but tests, and frontier and blockers are empty. |
| `WalkTheorems.CompleteDepthIsDistance` | src/leitir/bts.py:970-1061 | Each recorded depth is the shortest distance from the seed with included edges costing one and nesting nothing. |
| `WalkTheorems.NothingIsLost` | src/leitir/bts.py:974-1080 | In every run, each visited node is a member, nested in one, a recorded refusal or on the frontier; each runtime edge and unresolved reference of a visited node is recorded or openly deferred; each examined included target is visited or on the frontier. |
| `WalkTheorems.PopsInOrder` | src/leitir/bts.py:970-977 | From any reachable state, pops come in non-decreasing depth and are paid for by runtime edges. |
| `WalkTheorems.WalkIsOrderly` | src/leitir/bts.py:970-1061 | Under any budget, pops number at most one more than the runtime edges, no node is a member twice and no runtime edge is examined twice. |
| `WalkTheorems.EveryRunRespects` | src/leitir/bts.py:999-1009 | Whatever the verdict, members, symbols, files, line union, donor ratio, depth and heap are within budget. |
| `WalkCharges.ExamineOneCharges` | src/leitir/bts.py:1036-1076 | An edge neither rejected nor deferred is charged two units, one for its queue entry if included, and two for each import that supports it, whose external targets it adds. |
| `WalkCharges.VisitAllTakes` | src/leitir/bts.py:1019-1032 | A nested loop that runs to its end spends one unit an owner and has visited every one, the new ones at the member's depth and the others where they were. |
| `WalkTheorems.CompleteRespects` | src/leitir/bts.py:1047-1076 | A complete run keeps edges and configuration within budget; work overruns by at most two units for each import supporting the last examined edge, and only if that edge queued nothing; interfaces by at most the external ones among those imports. |
| `WalkMembers.ForemostIsChosen` | src/leitir/bts.py:970-981 | At any moment of an unblocked walk, the node taken up next is entered by an edge at its own distance from the seed, and no definition around it, entered at that distance, has a smaller key. |
| `WalkMembers.MembersExactly` | src/leitir/bts.py:970-1032 | The members of a walk that runs to its end unblocked are exactly the nodes so chosen, a condition on the graph alone: the others visited are nested in one taken up before them. |
| `WalkTotals.FinishedTotals` | src/leitir/bts.py:959-1076 | Such a walk spends, to the unit: two, two for each runtime edge of the least closed set, two more if its target is included, two for each import that supports it, and one for each definition nested in a member; and it uses exactly the external targets of those edges and imports. |
| `WalkTotals.CompleteWithinExactly` | src/leitir/bts.py:1047-1106 | A complete walk is within its work budget if and only if that total is, and within its interface budget if and only if that set is no larger. |
| `WalkTotals.UnsupportedStaysWithin` | src/leitir/bts.py:1063-1076 | No overrun of either kind where no import supports a runtime edge of a node that the seed reaches. |
| `WalkMonotone.CompleteIsMonotone` | src/leitir/bts.py:967-1106 | A complete outcome is the outcome, in every field, of every larger budget. |
| `WalkCompare.CompleteBudgetsAgree` | src/leitir/bts.py:967-1106 | Any two budgets that complete, comparable or not, give the same outcome in every field, and so does their pointwise minimum. |
| `WalkCompare.MembersExtend` | src/leitir/bts.py:999-1010 | Under every verdict, the members found are the first of those found under a larger budget. |
| `WalkMonotone.ExamineOneBlockers` | src/leitir/bts.py:1043-1076 | An examined edge always records its own rejection, and its import support's exactly when it is not rejected and no budget stops it. |
| `WalkMonotone.RejectionsPersist` | src/leitir/bts.py:1033-1076 | Every rejection found is found under every larger budget, unless it is that of an import edge. |
| `WalkMonotone.RejectLostOnlyIf` | src/leitir/bts.py:1047-1076 | Whenever a larger budget loses a REJECT, it raises the depth or queue limit, both walks are stopped by a budget, every rejection was of an import edge, and the verdict becomes PARTIAL. |
| `WalkMonotone.SameReachKeepsReject` | src/leitir/bts.py:1055-1061 | A larger budget with the same depth and queue limits keeps every REJECT. |
| `WalkMonotone.CleanImportsKeepReject` | src/leitir/bts.py:1066-1076 | Where the policy rejects no import edge, every larger budget keeps every REJECT. |
| `WalkStability.ExamineAllSpots` | src/leitir/bts.py:1036-1076 | An edge loop without rejected edges ends blocked exactly when some edge with a rejected support is tested within the work, edge and interface limits and has room in the queue, the charges of the edges before it counted. |
| `WalkStability.RejectSurvives` | src/leitir/bts.py:1047-1076 | A REJECT survives a larger budget if and only if, in the edge loop where the smaller walk stopped, that test still reaches a rejected support under the larger limits; or the smaller walk was blocked or stopped otherwise. |
| `WalkStability.RejectStability` | src/leitir/bts.py:967-1106 | A REJECT survives every larger budget if and only if the test reaches a rejected support under the smaller limits for every room in the queue from what there was to one entry an edge: a finite condition on that one loop. |
| `WalkStability.DeeperStability` | src/leitir/bts.py:1055-1061 | Among budgets with the same queue limit, one evaluation of the test, with the room the queue had, decides. |
| `WalkWitness.RejectHiddenByDepth` | src/leitir/bts.py:1055-1076 | A concrete graph is rejected at depth limit zero and merely partial at depth limit one. |
| `WalkWitness.EmptyFileHasSpan` | src/leitir/bts.py:719-738 | The source reference of the witnesses is valid and extracts from the empty file whose blob it names. |
| `WalkWitness.CompleteCanOverrun` | src/leitir/bts.py:1063-1076 | A concrete complete walk overruns its work budget by two units and its interface budget by one, for the one import that supports its last edge. |
| `WalkFaithful.EvidenceIsTrue` | src/leitir/bts.py:974-1080 | In every run members are verified, each traversed edge carries the policy's disposition and is a runtime edge of a visited node or an import proving its binding, each blocker has a real cause, each frontier entry its proper depth, and the external set is exactly the external targets traversed. |
| `WalkFaithful.RejectHasCause` | src/leitir/bts.py:1082-1100 | A REJECT carries a blocker that is true of the graph. |
| `WalkVerdict.BadExactly` | src/leitir/bts.py:1043-1076 | An edge whose target or import is turned away, said of the graph and the rules, is one the walk rejects. |
| `WalkVerdict.TaintedExactly` | src/leitir/bts.py:938-948 | So for a node's unresolved references and edges: the tables hold every kind but a test's. |
| `WalkVerdict.ProvenExactly` | src/leitir/bts.py:985-997 | A node is refused exactly when the graph gives it no source or re-reading that source does not verify. |
| `WalkVerdict.SeededExactly` | src/leitir/bts.py:908-914 | The seed is accepted exactly when it is a donor function or method, async or not, that the graph gives a source. |
| `WalkVerdict.RejectMeansDirty` | src/leitir/bts.py:974-1076 | Under any budget, a REJECT means that something the seed reaches is unresolved, or has a runtime edge whose target, or whose binding's import, is turned away by its rule or for its origin, or that a node the graph chooses has no verified source. |
| `WalkVerdict.UnblockedIsUntainted` | src/leitir/bts.py:1036-1076 | A walk neither stopped nor blocked has visited every reachable node and found no edge, import or reference of it bad. |
| `WalkVerdict.DirtyMeansReject` | src/leitir/bts.py:985-1076 | A walk that no budget stops overlooks nothing of that kind. |
| `WalkVerdict.UnstoppedVerdict` | src/leitir/bts.py:911-1106 | So an unstopped walk is REJECT exactly without a proper seed or for a dirty graph, COMPLETE exactly for a clean one all of whose files were parsed, and PARTIAL exactly for any other clean one: a statement about the graph, the rules and the verified sources only. |
| `WalkCauses.OversizedExactly` | src/leitir/bts.py:999-1005 | Members are too many exactly when their number, their distinct paths, their distinct lines, or the share of these in the lines of the donor's Python files exceeds its limit. |
| `WalkCauses.StoppedForCause` | src/leitir/bts.py:967-1061 | A budget is hit only when a count it names exceeds its limit: configuration, work, edges, interfaces, queue, the depth of something deferred, or the members together with a deferred node. |
| `BtsMethod.IndexSources` | src/leitir/bts.py:908-909 | The node dictionary answers as a search of the node list. |
| `BtsMethod.IndexEdges` | src/leitir/bts.py:938-944 | The edge loop splits runtime edges by source, in order, from imports. |
| `BtsMethod.IndexUnresolved` | src/leitir/bts.py:945-948 | The unresolved loop groups runtime and import references by source, in order. |
| `BtsMethod.LineUnion` | src/leitir/bts.py:810-814 | Per-file sets of lines count the union of all members' lines once. |
| `BtsMethod.TotalDonorLines` | src/leitir/bts.py:817-822 | The same for the Python files of the coverage certificate. |
| `BtsMethod.VisitNestedOwners` | src/leitir/bts.py:1019-1032 | The nested loop computes the specified state and list of owners newly taken. |
| `BtsMethod.SupportImports` | src/leitir/bts.py:1066-1076 | The import loop computes the specified state. |
| `BtsMethod.ExamineEdge` | src/leitir/bts.py:1036-1076 | The body of the edge loop computes the specified state. |
| `BtsMethod.ReachNode` | src/leitir/bts.py:980-1035 | The rest of an iteration, from verification to expansion, computes the specified state. |
| `BtsMethod.WalkGraph` | src/leitir/bts.py:950-1076 | The heap loop computes the run of the state machine. |
| `BtsMethod.ComputeBts` | src/leitir/bts.py:884-1106 | The whole program computes the outcome all theorems are about; its verdict is that of the graph whenever no budget is hit, and a budget is hit only for cause. |
| `SourceSpan.LinesJoin` | src/leitir/bts.py:720-722 | Splitting keeps every byte, whatever the line terminators. |
| `SourceSpan.LinesBreakExactly` | src/leitir/bts.py:720-722 | The lines are cut exactly after LF, CR LF, and a CR that no LF follows: each begins the file or follows such a break and has none within, and a final break opens one more. |
| `SourceSpan.PositionMonotone` | src/leitir/bts.py:734-737 | Offsets within a file are ordered as (line, column) pairs. |
| `SourceSpan.LineStarts` | src/leitir/bts.py:725-729 | The offset loop accumulates the start of every line. |
| `SourceSpan.ExtractSpan` | src/leitir/bts.py:719-738 | The imperative extraction computes the specified span or its error. |
| `SourceSpan.SpanExactness` | src/leitir/bts.py:719-738 | An admitted reference yields bytes exactly when the file has both its positions; it never fails for an end before its start. |
| `SourceSpan.EnclosedBytes` | src/leitir/bts.py:930-935 | The (line, column) containment test implies that the inner bytes are a contiguous slice of the outer ones. |
| `SourceSpan.NestedBytes` | src/leitir/bts.py:1012-1015 | The bytes of a nested owner are a slice of its enclosing definition's, for every pair the index holds. |
| `CanonicalPaths.LeastIsUnique` | src/leitir/architecture.py:305-306 | At most one chain is minimal in length and edge keys. |
| `CanonicalPaths.CandidateIsLast` | src/leitir/architecture.py:252-255 | Whenever a target already has an answer, a new candidate comes after it: the replacement test fires only on first discovery. |
| `CanonicalPaths.TryCalls` | src/leitir/architecture.py:250-255 | Trying the calls of one entry keeps the queue layered and sorted and queues exactly the newly answered nodes. |
| `CanonicalPaths.GivingUp` | src/leitir/architecture.py:246-249 | The entry on which the search gives up is the least chain to its node and has exactly the limit's length. |
| `CanonicalPaths.SearchConcludes` | src/leitir/architecture.py:244-257 | With an empty queue the answers are exactly the reachable nodes, each with its least chain. |
| `CanonicalPaths.FindPaths` | src/leitir/architecture.py:241-257 | The result holds exactly the reachable nodes other than the root, each with its least chain; the search is refused exactly when a least chain uses up the limit at a node that calls on; pops number one or two more than the answers. |
| `Architecture.BuildAdjacency` | src/leitir/architecture.py:162-171 | Call edges are grouped by source and sorted; a dangling call, and only that, is refused. |
| `Architecture.ReachableSources` | src/leitir/architecture.py:173-179 | The stack loop marks exactly the roots and what they reach by calls. |
| `Architecture.CollectEvidence` | src/leitir/architecture.py:187-194 | The evidence of one root covers its catalogued and external targets once each, and stops exactly on exceeding the path limit. |
| `Architecture.GatherEvidence` | src/leitir/architecture.py:183-194 | So for all roots; the search gives up only for a chain at the length limit or for too many pairs. |
| `Architecture.AsyncRoots` | src/leitir/architecture.py:158 | The roots are exactly the graph's nodes of kind async function or async method, each once. |
| `Architecture.GapsAgree` | src/leitir/architecture.py:180-181 | The unresolved-call test over the marked set is the test over reachability in the graph. |
| `Architecture.VerdictIsExact` | src/leitir/architecture.py:202-204 | INCOMPATIBLE exactly when some async function or method of the graph reaches a different catalogued node; otherwise UNKNOWN exactly when one reaches an uncatalogued declared external or concurrency is unknown. |
| `Architecture.Concurrency` | src/leitir/architecture.py:219-236 | A declared model is taken if it is one of the four; undeclared it is mixed, async, sync or unknown exactly by whether async and plain functions or methods are present. |
| `Architecture.GivesUpExactly` | src/leitir/architecture.py:186-194 | Gathering gives up exactly when the graph reaches too deep or has too many offending pairs for the limits. |
| `Architecture.LimitsAdmit` | src/leitir/architecture.py:153-160 | A graph is let in exactly when every limit is positive and none is below the number of async nodes, nodes or edges it bounds. |
| `Architecture.DistinctSorts` | src/leitir/architecture.py:196 | Sorting evidence that repeats no pair leaves it strictly ordered by root and target, with nothing gained or lost. |
| `Architecture.PairFieldsDecide` | src/leitir/architecture.py:335-337 | Evidence compares by root, and for one root by target. |
| `Architecture.ObservationFieldsDecide` | src/leitir/architecture.py:331-332 | Observations compare by kind, path, digest, rule and evidence. |
| `Architecture.OrderObservations` | src/leitir/architecture.py:265-271 | Each group of observations is sorted, and the whole refused exactly when some group repeats one: comparing neighbours finds every repetition. |
| `Architecture.Assess` | src/leitir/architecture.py:133-216 | A returned verdict is exact for the async functions and methods of the graph and rests on the least chain of each offending pair, none missing or repeated, in the order of roots and targets; the budget refusal and the input refusal, that for an unresolved call within their reach included, each occur exactly for their causes, in their order of precedence. |
| `Rounding.DoubleRounding` | tools/score_engine.py:327-329 | Half-up rounding of a nearest approximation on an even grid finer than the denominator is half-up rounding of the fraction. |
| `Rounding.DivideThenQuantize` | tools/score_engine.py:325-329 | Decimal division at enough precision followed by quantize is exact. |
| `Rounding.RoundHalfUpFractionIsExact` | tools/score_engine.py:321-329 | The engine's rounding is floor((2n+d)/(2d)) for all n and d > 0. |
| `Rounding.QuantizeFits` | tools/score_engine.py:325-329 | The quantized result always fits the context, so quantize cannot raise. |
| `Rounding.ProductIsExact` | src/leitir/bts_bench.py:704 | The 28-digit product with 10000 is exact for numerators below 10^28, since it ends in four zeros. |
| `Rounding.BenchScoreExactly` | src/leitir/bts_bench.py:701-704 | For every record's fraction above nought: the score is the exact rounding if and only if the rounded product, half a unit in the quotient's last place added, stays between the two boundaries. |
| `Rounding.BenchScoreRoundsUpExactly` | src/leitir/bts_bench.py:701-704 | Below 10^28: if and only if the fraction stays more than half a unit in the last place below the upper boundary. |
| `Rounding.BenchScoreMonotone` | src/leitir/bts_bench.py:701-704 | Below 10^28 a larger fraction never scores less, all roundings included. |
| `Rounding.BenchScoreIsExact` | src/leitir/bts_bench.py:701-704 | A sufficient bound: the score is exact for all numerators below 10^23 and every denominator. |
| `Rounding.BenchScoreCanRoundUp` | src/leitir/bts_bench.py:701-704 | A concrete larger fraction just under one half of a basis point is rounded up. |
| `Scoring.WeightedScore` | tools/score_engine.py:364-380 | The loop refuses exactly empty, out-of-range or weightless input, and otherwise returns the exact rounding of the weighted mean. |
| `Scoring.ObservedScore` | tools/score_engine.py:5863-5869 | The observed score of the specified aggregate is what the weighted-score loop returns for the known checks. |
| `Scoring.MeanBetween` | tools/score_engine.py:5870-5877 | Rounded means are ordered: unknown weight at zero, known weight only, unknown weight in full. |
| `Scoring.CheckBoundsAreSound` | tools/score_engine.py:5848-5885 | Every way to settle the unresolved checks gives an exact score between the reported bounds. |
| `Scoring.CheckBoundsAreTight` | tools/score_engine.py:5873-5877 | Both bounds are the score of some way to settle them. |
| `Scoring.ObservedIsBetween` | tools/score_engine.py:5863-5885 | The observed score lies between the bounds; an exact score exists exactly when nothing eligible is unresolved, and then all four agree. |
| `Scoring.CheckAddsWeight` | tools/score_engine.py:5848-5861 | The reported weights start at nought, and a check adds to the eligible one exactly when it may be scored and applies, and to the included one exactly when, besides, it passed or failed. |
| `ScoringDimensions.InDimensionCounts` | tools/score_engine.py:6068-6076 | A dimension scores the checks that name it, each as often as it was assessed, and no other. |
| `ScoringDimensions.InDimensionAppends` | tools/score_engine.py:6068-6076 | In the order of the assessment. |
| `ScoringDimensions.DimensionsApart` | tools/score_engine.py:6068-6076 | Exchanging a check of another dimension leaves a dimension's aggregate as it was. |
| `ScoringDimensions.PickedScore` | tools/score_engine.py:5899-5921 | Each overall score of the specified aggregate is what the weighted-score loop returns for the dimensions that have one. |
| `ScoringDimensions.OverallIsBetween` | tools/score_engine.py:5888-5929 | The overall observed score lies between the overall bounds, and all four agree when every dimension is exact. |
| `ScoringDimensions.OverallBoundsAreSound` | tools/score_engine.py:5914-5921 | Every way to settle the checks gives an overall score within the bounds reported before, through two levels of rounding. |
| `ScoringDimensions.OverallBoundsAreTight` | tools/score_engine.py:5914-5921 | Both overall bounds are attained. |
| `ScoringDimensions.DimensionAddsWeight` | tools/score_engine.py:5888-5896 | So for dimensions: a dimension adds to the eligible weight exactly when something in it is eligible, and to the included one exactly when, besides, something was observed. |
| `Gate.ExactPassRoundsToPass` | tools/score_engine.py:2695-2706 | A ratio that meets its criterion exactly also meets it after rounding. |
| `Gate.RoundedFloorIsHalfStepLower` | tools/score_engine.py:2687-2692 | The rounded score meets a floor or ceiling exactly when the ratio is within half a basis point of it, so the converse fails by that much. |
| `Gate.DecisionIsExact` | tools/score_engine.py:5961-5972 | FAIL exactly on a required failure, PASS exactly when every required check passed or does not apply, and complete exactly when none is unresolved. |
| `Gate.BlockersAreExact` | tools/score_engine.py:5932-5966 | The blockers are exactly those that required checks raise, each with its own id, status, reason and kind, failures first. |
| `Gate.GateIgnoresScores` | tools/score_engine.py:5932-5972 | Scores, weights and advisory results move neither the decision nor the blockers. |
| `Gate.ResolvingNeverClears` | tools/score_engine.py:5935-5966 | Resolving unresolved checks never clears a FAIL and never spoils a PASS. |
| `Gate.IndexResults` | tools/score_engine.py:6027 | The dictionary of results answers as a search of the submissions. |
| `Gate.CheckMeans` | tools/score_engine.py:6029-6065 | An assessed check carries its policy's id, dimension, weight and eligibility and its submission's status, score and reason; one without a submission is missing, unknown and neither satisfied nor failed. |
| `Gate.Evaluate` | tools/score_engine.py:5975-6091 | Evaluation succeeds exactly on acceptable input, each refusal having its cause, duplicate evidence ids included; the checks carry their policies and submissions, the dimensions are scored, and under the release profile the decision is PASS exactly when every check required for release is satisfied and FAIL exactly when one has a failing submission, under the offline profile likewise with the checks required offline. |
| `Gate.GateIsNonCompensating` | tools/score_engine.py:473-480 | For every policy and result set, PASS exactly when every check that the profile requires, by its release or its offline mode, has a satisfying submission, FAIL exactly when one has a failing submission. |
| `MannWhitney.WinsComplement` | tools/score_engine.py:4630-4632 | The two doubled statistics share out every pair: they add up to twice n1 n2. |
| `MannWhitney.GroupRank` | tools/score_engine.py:4617-4623 | Giving a tie group the middle of its places is giving each of its values its pairwise rank. |
| `MannWhitney.GroupTies` | tools/score_engine.py:4624-4625 | A group's cube-minus-count is the sum of its values' tie counts. |
| `MannWhitney.TieGroupLoop` | tools/score_engine.py:4613-4626 | The nested loop computes the rank sum and tie term of the pooled sample. |
| `MannWhitney.RankSumIsPairwise` | tools/score_engine.py:4627-4630 | The rank sum of any sorted pool is the pairwise count of wins and half-wins plus n1(n1+1). |
| `MannWhitney.MannWhitneyU` | tools/score_engine.py:4596-4635 | The statistic is the smaller pairwise count, with the tie-corrected variance; only empty samples are refused. |
| `MannWhitney.OrderDoesNotMatter` | tools/score_engine.py:4606-4635 | Permuting either sample or swapping the two changes neither statistic nor variance. |
| `MannWhitney.TieTermBound` | tools/score_engine.py:4624-4625 | The tie term is largest exactly when all pooled values are equal. |
| `MannWhitney.VarianceSign` | tools/score_engine.py:4633-4636 | The variance is never negative and vanishes exactly when all pooled values are equal. |
| `RankVariance.DrawDivides` | tools/score_engine.py:4627-4635 | Each draw divides the pooled values and takes as many as the first sample has. |
| `RankVariance.DrawsCount` | tools/score_engine.py:4627-4635 | There are as many draws as Pascal's triangle says. |
| `RankVariance.SpreadIs` | tools/score_engine.py:4624-4635 | The squared deviations of the doubled mid-ranks add up to a third of N cubed less N less the tie term. |
| `RankVariance.VarianceIsPermutation` | tools/score_engine.py:4633-4635 | The reported variance is the variance of the statistic over every way of drawing the first sample from the pooled values, ties included: the deviations cancel, and the mean of their squares is the variance. |
| `Retrieval.HitsAtMostJudged` | tools/score_engine.py:5209-5232 | A duplicate-free ranking hits no more of a grade than was judged at it. |
| `Retrieval.IdealCounts` | tools/score_engine.py:5215 | Before the cut, the ideal order holds each grade as often as it was judged. |
| `Retrieval.IdealDescends` | tools/score_engine.py:5215 | It lists the highest grades first. |
| `Retrieval.IdealIsCut` | tools/score_engine.py:5215 | The ideal gains are its first ten. |
| `Retrieval.DcgOfNothing` | tools/score_engine.py:5211-5214 | Without gains the discounted gain is nought. |
| `Retrieval.DcgByRank` | tools/score_engine.py:5211-5214 | Each rank counts for its gain times its own discount. |
| `Retrieval.Top` | tools/score_engine.py:5209 | What is scored is the longest head of the ranking with at most ten results. |
| `Retrieval.DcgAtMostIdeal` | tools/score_engine.py:5209-5220 | For any positive non-increasing discounts, no duplicate-free ranking gains more than the judged grades in decreasing order. |
| `Retrieval.IdealIsPositive` | tools/score_engine.py:5215-5220 | With a grade-2 target the ideal gain is positive, so the quotient is defined. |
| `Retrieval.SumPrecisions` | tools/score_engine.py:5240-5245 | The loop sums the precision at each useful rank, at most one apiece. |
| `Retrieval.PrecisionsByRank` | tools/score_engine.py:5235-5245 | What is counted and summed are the useful ranks, and the share of useful results down to each of them. |
| `Retrieval.Precisions` | tools/score_engine.py:5237-5246 | The three precisions are the useful results among five and ten, and the mean precision over the useful ranks; they lie in the unit interval. |
| `Retrieval.RankMetrics` | tools/score_engine.py:5222-5229 | Each success flag says whether a target is within its cutoff, the flags are nested, and the reciprocal rank is that of the first target. |
| `Retrieval.GainMetrics` | tools/score_engine.py:5209-5232 | Normalized gain and recall are the stated ratios and lie in the unit interval. |
| `Retrieval.ComputeMetrics` | tools/score_engine.py:5176-5258 | Each malformed input gets exactly its error; all other input gives metrics the constructor accepts. |
| `Retry.Classify` | src/leitir/_http.py:233-268 | Rate limited exactly for 429, or 403 with no requests remaining or a Retry-After; transient exactly for a protocol or system error, 408, 425, 500 and 502 to 599; fatal otherwise. |
| `Retry.Hint` | src/leitir/_http.py:183-224 | A usable Retry-After number is the wait whatever else is there, then a Retry-After date, then the reset time of an exhausted limit; past times are no wait. |
| `Retry.BackoffDoubles` | src/leitir/_http.py:497-501 | The first backoff is the base delay and each doubles the one before. |
| `Retry.HintIsSleptInFull` | src/leitir/_http.py:473-501 | A rate-limited failure with a hint is retried exactly when the hint is within the rate-limit cap, and then sleeps exactly the hint. |
| `Retry.WaitIsCapped` | src/leitir/_http.py:494-501 | Every wait is non-negative and is the hint, or the backoff without one, unless the cap is smaller: the rate-limit cap exactly for a rate-limited failure. |
| `Retry.BackoffGrows` | src/leitir/_http.py:497-501 | Without hints, waits of one kind never shrink. |
| `Retry.RetryHttp` | src/leitir/_http.py:419-513 | Over any responses and clock: sleeps are calls minus one and calls at most the limit, the total wait keeps its bound, a call is slept on exactly when its failure is one of those listed for rate limits or transience with no oversized hint, an attempt is left and the wait fits, the final outcome is the one its last response calls for, with an oversized hint refused on any attempt, and the statement after the loop is unreachable. |
| `BenchAggregate.TallyReasons` | src/leitir/bts_bench.py:908-911 | The dictionary holds the exact total of every reason. |
| `BenchAggregate.MergeExclusions` | src/leitir/bts_bench.py:908-914 | Merged exclusions are sorted, unique, and keep every reason's total. |
| `BenchAggregate.AggregateMetric` | src/leitir/bts_bench.py:904-915 | The pooled record always satisfies its constructor, loses no count, and lacks a score exactly when nothing was pooled into its denominator. |
| `BenchAggregate.PooledRoundingIsBetween` | src/leitir/bts_bench.py:912-915 | The exact rounding of the pooled fraction lies within the range of the records' exact roundings. |
| `BenchAggregate.PooledScoreIsBetween` | src/leitir/bts_bench.py:912-915 | The pooled score lies within the range of the scores the records carry, for pooled numerators below 10^28. |
| `BenchAggregate.PooledScoreExactly` | src/leitir/bts_bench.py:912-915 | For any pooled numerator above nought: the pooled score is in a range if and only if the rounded product is, by half a unit in the last place. |
| `BenchAggregate.PooledScoreCanDrop` | src/leitir/bts_bench.py:912-915 | Two concrete records that each score one pool to a score of nought. |
| `GoMask.ScanOne` | src/leitir/apisurface.py:304-351 | One turn of the loop writes and moves on as the specified turn does. |
| `GoMask.MaskGo` | src/leitir/apisurface.py:298-352 | The scanner computes the specified mask: of any split of the source into lexical pieces it keeps the code and blanks the rest. |
| `GoMask.MaskByPieces` | src/leitir/apisurface.py:304-351 | Masking keeps every character of code and blanks everything else in place, where a text is cut into code without opener or quote, line comments through their line break, block comments through the first closing pair, raw strings through the next backtick and literals through the first unescaped quote. |
| `GoMask.EveryTextSplits` | src/leitir/apisurface.py:304-351 | Every text has such a cut, one left open at the end of the text included. |
| `GoMask.MaskKeepsPlaces` | src/leitir/apisurface.py:306-351 | Every character survives or becomes a blank in its place, and line breaks stay where they were. |
| `GoMask.MaskIsIdempotent` | src/leitir/apisurface.py:298-352 | A masked text has nothing left to mask. |
| `GoMask.TurnsAgree` | src/leitir/apisurface.py:343-350 | Either rule for quotes takes a turn alike exactly when it does not meet an unescaped quote of the other kind inside a literal. |
| `GoMask.ScanAgreesExactly` | src/leitir/apisurface.py:343-350 | The scan behind the mask passes through the modes that Go's rule gives exactly when no literal holds an unescaped quote of the other kind, and then masks the same characters. |
| `GoMask.QuoteRuneHidesCode` | src/leitir/apisurface.py:345-348 | After the rune of a double quote, the program masks the code that follows and Go's rule does not. |

## Left out

- The report (`_report`): sorting and deduplicating evidence, canonical JSON and digests; the model stops at the evidence lists and the verdict.
- Tree verification, file reads, locks and hashing: a node's verification is an arbitrary map.
- Field validators, regular expressions and type checks of the dataclasses, except where a property needs them.
- The BTS record built for a complete verdict, its artifact on disk and the snapshot it names.
- The assessment digest, and the catalog's own validation: a catalog arrives as the set of its targets.
- The normal approximation of the rank test (z, p-value) and floating point: the model stops at U and the variance.
- `log2` discounts: any positive non-increasing sequence, of which those are one.
- WalkTheorems.CompleteRespects: an upper bound only; the exact condition is that of `WalkTotals.CompleteWithinExactly`.
- WalkTotals.UnsupportedStaysWithin: a sufficient condition only, on the graph; likewise.
- WalkMonotone.RejectLostOnlyIf: necessary conditions only; the exact condition is that of `WalkStability.RejectSurvives`.
- Rounding.BenchScoreIsExact: a sufficient bound only; the exact condition is that of `Rounding.BenchScoreExactly`.
- BenchAggregate.PooledScoreIsBetween: bounds the pooled numerator by 10^28, beyond which it fails; `BenchAggregate.PooledScoreExactly` has no bound.
- Redirects, provider notices, logging and header parsing of the HTTP client; a failure arrives with its headers already parsed.
- The recall, missing and overlap graders of the benchmark, the exit gate, collectors, subprocesses, HTML and command line: they would only add easy members.
- Splitting the masked Go text into lines, and the regular-expression extraction that follows it.
