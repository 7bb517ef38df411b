# A model of nx_tinygrad's worker and compiler

nx_tinygrad compiles Nx expressions to a graph, ships it to a Python worker, and runs it there on
tinygrad in several accelerated ways: captured whole, captured segment by segment, and, for loops,
captured body by body with symbolic slice starts. All of them promise the answer of plain
node-by-node interpretation. Around that sit references that release their buffers when collected,
workers that restart with a new generation and ids from 1 again, a cache of executables, a
request/reply server and a framed protocol. This project models these parts and proves what they
promise.

## The main results

1. **Lowering accepts exactly what it should, and preserves meaning.** A well-scoped list of Nx expressions
   is lowered if and only if every operation in it is supported, fill values are compile-time scalars,
   projections are within the width of a tuple, and so on: a condition on the expressions alone
   (`LoweringExact.LowerExactly`, `ToGraphExactly`). Evaluating the emitted graph on any arguments then gives what the
   expressions mean, and has a result exactly when they have values (`LoweringSound.LoweringPreservesMeaning`).
   What is shared is lowered once (`LoweringExact.LoweredOnce`). What an expression means
   is defined on the expression alone (`ExprMeaning`), with no memo table, no ids and no graph; a
   `cond` there is "the first true clause wins", and the select chain is proved equal to it; a window is at the
   nearest start at which it fits (`WindowPlaced`). Every
   lowered graph is well formed at every nesting depth (`LoweringForm.LoweredGraphOk`) and passes the
   worker's check of ids. Lowering also keeps types: well-typed expressions become a well-typed graph with one
   input per parameter and outputs of the declared types (`LoweringTyped.LoweringKeepsTypes`), which the worker accepts
   (`WellTypedAccepted`). So a call of a lowered program is answered with what its expressions mean on the
   client's tensors (`Calls.CallMeans`): if loops are not nested, and no fold's function reads a runtime scalar
   or holds a loop, nothing is asked of the emitted graph.
2. **Accelerated runs give the interpreter's values.** Buffers are a heap, a captured function is an
   object that writes the same buffers on every replay, rejects repeated input buffers and may break off
   at any call, and tensors are lazy expressions over buffers. On top of this, `Executables` runs loops
   as the worker does (cached steps, variables passed through, symbolic starts, a switch to
   interpretation at any iteration), loops inside loops and inside folds included, and `GraphRuns` runs whole graphs
   (segments with liveness-pruned outputs, dead segments skipped, cached steps, per-segment fallback). `RunWhile`
   ends with exactly the loop state interpretation ends with. `CompiledGraph.Run` gives exactly the graph's values for
   every sheltered graph: one in which no fold's function reads a runtime scalar or holds a loop, or in which a node
   outside the folds does, or without inputs (`ShelteredExactly`, `GivesRight`). Any other graph is replayed right
   if the window starts of these inputs are the captured ones and, where operations tell operands and starts apart,
   only then (`ReplayedRight`). Both hold
   for every sequence of runs, on steps cached by earlier runs, whatever else ran on the device in
   between, because the postconditions restore the invariants they start from; and a run fails exactly
   if it is captured and references share a buffer or the call breaks off.
   When nested loops are right is a condition on the graph alone (`Reentry`): nests of any depth that
   carry a variable through meet it, folds over loops meet it, and a loop that keeps what a captured loop
   inside it returned last time does not, and is run wrong (`NestedLoops`).
3. **Registered tensors never change.** The worker's whole state is seen through one map, handle to
   value. Every command (upload, run_node, execute, compile, release, download) is specified by what it
   does to that map, and nothing but a release changes an entry (`Workers.Worker`). An execute succeeds if and only
   if the executable and the handles are there and, for a captured one, the handles share no buffer and the call does
   not break off. Which values it registers is said whenever the graph has values on its arguments and can be
   captured or is run eagerly; but
   whatever a run does, in whatever order it copies, captures, replays and gives up, and wherever it
   breaks off, no registered tensor changes and every cached step stays right (`AnyRuns.Wander`,
   `Workers.Worker.RunAny`, `ExecuteAny`).
4. **Every buffer is accounted for exactly once, and none leaks**, over every run of
   a step system with crashes, restarts, timeouts, drops, takes and drains (`Lifecycle`). A live reference always
   finds its own buffer, no handle of one generation is used in another, and no reference causes two releases. Every
   buffer of a running generation is in exactly the place its journey says (`JourneyHolds`); a dropped reference's
   buffer is freed by drain, reap and receive (`DroppedIsFreed`); and with nothing under way a buffer is resident
   exactly if a live reference owns it or its caller gave up on it (`NothingLeaks`).
5. **Every caller is told exactly the first thing that settled its request**: its own response when that arrives, or
   the timeout, bad frame or exit that came before it, and nothing else (`Rpc.ToldExactly`). No request is lost
   (`NothingLost`), and the unanswered requests are exactly the pending ones (`AnsweredOnce`).
6. **A cache hit is right**: it names an executable compiled on the same worker and generation, from the
   same canonical graph, blobs, commit and device, and still resident (`CompileCache`), as long as no two of the
   sources compiled so far collide under the hashes; canonical JSON is injective and blind to map order
   (`CanonicalJson`). What is asked of printing and hashing can be met (`CompileCache.LawsMet`, `TwoSources`, `JsonText`).
7. **Framing**: the decoder accepts exactly the frames and reads them right, the imperative decoder agrees
   with it, and a written list of packets is read back whatever the chunks (`Protocol`).
8. **Which graphs are accepted, and which of them can run**: the check passes exactly the graphs whose ids are
   defined in order, whose declared dtypes, ranks and bytes are known, and whose names are known wherever the check
   looks (`Acceptance.AcceptedWhen`). An accepted graph that defines its ids in every list, at any depth,
   never meets an undefined one, for every meaning of the operations, all arguments and any number of
   iterations; one that does not is stuck in some run (`Undefined`).
9. **Index arithmetic**: bit counts, triangular solve, coordinate gather and scatter-add, window scatter,
   each loop proved against what it should mean (`BitCounts`, `TriangularSolve`, `RowMajor`,
   `Coordinates`, `WindowScatter`).

## How it is laid out

| files | part of the program |
|---|---|
| `Values`, `GraphIR`, `GraphForm`, `Typing` | tensor values and laws, the graph and its reference interpreter, well-formedness, shapes |
| `Lowering`, `LoweringForm`, `ExprMeaning`, `LoweringExact`, `LoweringMeaning`, `SubGraphRuns`, `LoweringSound`, `LoweringTyped`, `LoweringStill` | the front end: what it accepts, and that it keeps meaning, form and types |
| `SymbolicPlan`, `SymbolicSound` | dynamic starts as bounded variables |
| `LazyTensors`, `LazySound`, `Devices` | lazy tensors, buffers and who owns them, captured functions |
| `Reentry`, `PassThrough`, `TaintSound`, `Capture`, `NodeRuns`, `LoopStates`, `Steps`, `Executor`, `Executables`, `NestedLoops` | loops, loops inside loops and folds |
| `Segments`, `SegmentSound`, `SegmentRuns`, `Frozen`, `GraphRuns`, `AnyRuns`, `Hazards` | whole graphs, and what the safeguards guard against |
| `Workers`, `Calls`, `Validator`, `Acceptance`, `Undefined` | the worker's commands, the client's arguments, the worker's check |
| `Lifecycle`, `References`, `Rpc`, `CanonicalJson`, `JsonText`, `CompileCache`, `Protocol` | references, requests, cache, frames |
| `BitCounts`, `TriangularSolve`, `RowMajor`, `Coordinates`, `WindowScatter` | operations |

Python and Rust code that updates state is modelled by classes and loops (`Device`, `Executable`,
`CompiledGraph`, `Registry`, `Worker`, `TensorRef`, `ReleaseQueue`, `Cache`, `Compiler`); Elixir code that
threads a state by functions.

## Hypotheses

Each is a precondition or a law in the Dafny text.

- `Lawful` (`ExprMeaning`): select and cond act position by position and cast to the declared dtype,
  casting twice is casting once, tensors equal everywhere are equal.
- `ShapeLaw` and typed graphs (`Typing`): an operation on operands it fits returns its declared shape.
- `WellTyped` (`LoweringTyped`): Nx's own typing of expressions. Operations fit their operands, a projection has the
  type of its component, a loop keeps the shapes of its variables, and a region has one parameter node for
  each position.
- `WellScoped`: what Nx guarantees of its expressions. One reference names one expression; it may stand
  in many scopes as long as the parameters it reads are the same in all of them, so one that reads none
  may stand anywhere (`ExprMeaning.SharedConstant`). Parameters exist, a loop's body returns as many
  values as the loop carries, and a constant that is used as a compile-time number reads back as that
  number (`ScalarHonest`).
- `CapturedLoop`, `AllWf`: the nodes are of the kinds that lowering emits (`Calls.KindsWf`).
- Nested loops: `Reentry.SafeLoop` and `SafeFold` are conditions on the graph alone. They keep account, for
  every value, of the captured steps whose buffers it may be in, and ask that nothing still needed is in
  the buffers of a step that is entered again, and that a step is not given a variable it passes through
  from its own buffers. A graph's loops must be such that they can be entered with nothing of their own
  around (`EntersSafely`); `EnteredOnce` then finds the account for the whole graph. Loops without loops
  inside meet this always (`NestedLoops.InnermostEnters`). That the condition cannot be dropped is shown
  by `NestedLoops.ConvergeRun`.
- Reading a worker's generation and then sending to it by name is one step in `Lifecycle`.
  `LateSendLoses` and `LateBuildAliases` are runs that go wrong without that.
- A captured call that fails has not written (`Device.CallJit`). Which calls break off inside tinygrad is any
  predicate on the number of the call (`breaks`).
- `HashLaws` (`CompileCache`): digests and keys have one length, worker names print apart, a key or scalar ends
  where its delimiter is, and nothing printed into the key before the worker's name holds a line break.
- `NoCollision` (`CompileCache`): among the sources compiled so far and the one asked for, different blobs have
  different digests and different key texts different keys. It cannot be asked of all sources at once,
  because a hash of one length keeps only finitely many apart.

## What the proofs found

- `_dedup` compares tensor objects, not buffers. A captured run fails exactly when two references share
  a buffer (`GraphRuns.DedupDistinct`, `SharedRejected`), and run_node registers such references: a
  reshape of a resident tensor (`Hazards.ViewShares`).
- A loop step is captured once and its buffers are written again each time its loop is entered. An outer
  loop whose body is `(x, before) = (inner(x), x)`, the shape of a convergence test, is run node by node,
  and from its second pass on `before` is the tensor the inner step returned last: the next entry
  overwrites it, and it reads as the new x. In general a result of an earlier entry that is still referred
  to survives the next exactly when both entries return the same value (`NestedLoops.EnterAgain`,
  `ConvergeRun`; a loop for which they differ, run wrong: `ConvergeTurns`). The static condition refuses such loops
  wherever they stand (`ConvergeUnsafe`).
- The test that sends a graph to eager evaluation does not look inside the functions of folds, as
  `_node_jit_safe` does. A graph whose only runtime scalar is a start inside a fold is captured whole, and
  keeps the start it was captured with. A replay of any graph without loops is right if every start the
  trace uses is the one the graph itself would use on these inputs, and, where operations tell operands
  and starts apart, only then (`Frozen.ReplayRight`, `GraphRuns.CompiledGraph.ReplayedRight`); the guard of
  `_node_jit_safe` is enough (`GuardedRight`), and a graph without such folds is always eager or passes it (`ShelteredExactly`). `Hazards.HiddenStartRun` is a run with a wrong result: a reduce
  whose function slices a constant table at its element. It passes the replay validation at compile time,
  because the starts of the second and third dummy inputs are both pulled back to the table's last cell.
- The worker's check of a sub-graph does not look at ids: a loop whose condition returns an id that is
  nowhere defined is accepted and cannot run (`Validator.AcceptedButStuck`). An accepted graph never meets an
  undefined id if every list in it, at any depth, defines its ids (`Undefined.AcceptedRuns`). With no loop
  entered it is stuck exactly if a condition, or the function of a fold that visits anything, does not
  (`AcceptedExactly`), and a bad body is met by the run that enters its loop (`AcceptedBody`, `LoopDefined`).
- `read_exact` returns None also when the stream ends in the middle, though its comment says "clean EOF".
  So `read_packet` takes a packet cut short for a clean end exactly when the cut is in its header
  (`Protocol.CutShort`).
- The cache keeps its limit exactly when that is not 0: with 0, one entry stays (`CompileCache.Cache.Put`).

## Model

| member | source | states |
|---|---|---|
| LoweringSound.LoweringPreservesMeaning | lib/nx_tinygrad/lowering.ex:28-595 | a well-scoped expression list lowers if and only if each expression can be lowered (`Lowers`), and then the emitted graph evaluated on any arguments never gets stuck, has a result exactly when all the expressions have values, and gives these values |
| LoweringSound.LowerMeans | lib/nx_tinygrad/lowering.ex:58-63 | an expression that can be lowered is, whatever was lowered before: by lowering it or finding it in the memo comes an id that stands for its value in the scope where it occurs, and what earlier ids stand for is kept |
| LoweringExact.LowerExactly | lib/nx_tinygrad/lowering.ex:58-438 | with anything lowered before, an expression is lowered if and only if every operation in it is supported, fills are compile-time scalars, slices have one operand and put_slices two, put_slice starts are expressions, projections are within the width, loops have variables, and tuple-valued forms stand only where tuples may; what the memo holds stays, and is all of this kind |
| LoweringExact.ToGraphExactly | lib/nx_tinygrad/lowering.ex:28-56 | a program is lowered if and only if each of its outputs can be |
| LoweringExact.TupleExactly | lib/nx_tinygrad/lowering.ex:455-553 | a tuple source is lowered if and only if it is a block, loop, cond or tuple of parts that can be, and gives as many ids as it is wide |
| LoweringExact.LoweredOnce | lib/nx_tinygrad/lowering.ex:58-61 | met again after any other expressions, an expression has the id it was given first, and nothing is added |
| LoweringExact.TupleLoweredOnce | lib/nx_tinygrad/lowering.ex:455-509 | a tuple-valued block or a loop is lowered once for all its projections |
| LoweringStill.StillProgram | lib/nx_tinygrad/lowering.ex:201-207 | a program in which no fold's function reads a runtime scalar or holds a loop becomes a graph in which none does |
| LoweringSound.FoundMeans | lib/nx_tinygrad/lowering.ex:58-61 | an id found in the memo was lowered in a scope that gives the expression the same value as the one where it is found, though the memo is kept across blocks |
| ExprMeaning.EvalSame | lib/nx_tinygrad/lowering.ex:555-564 | an expression's value depends only on the parameters it reads where it stands, not on those of the blocks, loops and folds inside it |
| ExprMeaning.SharedConstant | lib/nx_tinygrad/lowering.ex:557-563 | a constant used both outside a block and in its default expression is well scoped |
| LoweringSound.LowerAllMeans | lib/nx_tinygrad/lowering.ex:443-451 | children lowered in order under one threaded state stand for their values in order |
| LoweringSound.ParamMeans | lib/nx_tinygrad/lowering.ex:68-79 | a parameter inside a block stands for the block's input at that position; elsewhere it becomes a graph input that stands for the runtime argument |
| LoweringSound.BlockMeans | lib/nx_tinygrad/lowering.ex:85-105 | a block's id stands for its default expression with parameters bound to the lowered inputs; the saved binding is restored |
| LoweringSound.TupleBlockMeans | lib/nx_tinygrad/lowering.ex:455-465 | a tuple block's ids stand for its results under the input binding, one lowering shared by every projection |
| LoweringSound.FirstMeans | lib/nx_tinygrad/lowering.ex:92-96 | a tuple block named directly stands for its first result |
| LoweringSound.ElemMeans | lib/nx_tinygrad/lowering.ex:109-113 | a projection stands for that position of its source's value |
| LoweringSound.CondMeans | lib/nx_tinygrad/lowering.ex:117-132 | the right-folded select chain stands for Nx's cond, every branch evaluated |
| LoweringSound.TupleCondMeans | lib/nx_tinygrad/lowering.ex:511-531 | one select chain per position stands for the tuple cond, predicates and branches lowered once |
| ExprMeaning.ChainIsChosen | lib/nx_tinygrad/lowering.ex:115-129 | nested selects choose at each position the value of the first clause true there, and the default if none is |
| ExprMeaning.WindowPlaced | priv/worker/operations.py:432-461 | a window is put at a slice's own integer, and otherwise at the nearest start at which it fits in its operand |
| LoweringSound.MetadataMeans | lib/nx_tinygrad/lowering.ex:135-138 | a metadata wrapper stands for what it wraps |
| LoweringSound.ConstantMeans | lib/nx_tinygrad/lowering.ex:141-160 | a scalar constant and a literal tensor stand for themselves; a literal's `data_index` finds its own bytes in the shared blob list |
| LoweringSound.ApplyMeans | lib/nx_tinygrad/lowering.ex:162-196 | an operation whose operands can be lowered always becomes a node, however many there are, and that node stands for the operation on their values |
| LoweringSound.FillMeans | lib/nx_tinygrad/lowering.ex:318-323 | an operation with a compile-time fill value stands for the operation with that constant, found under any metadata |
| LoweringSound.ReduceMeans | lib/nx_tinygrad/lowering.ex:201-207 | a fold node with its function as an isolated sub-graph stands for folding the expression's function |
| LoweringSound.WindowMeans | lib/nx_tinygrad/lowering.ex:300-360 | a slice or put_slice node stands for the window at the starts Nx means: integers of a slice as given, all others the nearest start at which the window fits (`ExprMeaning.WindowPlaced`) |
| LoweringSound.LowerStartsMeans | lib/nx_tinygrad/lowering.ex:303-309 | the dynamic starts alone are lowered, in order, and stand for their values |
| LoweringSound.SpecsPrefix | lib/nx_tinygrad/lowering.ex:350-359 | the descriptor of start n is its constant, or names the number of dynamic starts before it |
| LoweringSound.LoopMeans | lib/nx_tinygrad/lowering.ex:472-503 | a while node with condition and body as isolated sub-graphs: its output ids stand for the loop's final variables |
| LoweringSound.LowerTupleMeans | lib/nx_tinygrad/lowering.ex:455-553 | every tuple-valued source lowers to ids that stand for its components |
| LoweringSound.RegionMeans | lib/nx_tinygrad/lowering.ex:568-595 | a region lowered with its own id space and inputs is a sub-graph that means the region's expressions on any parameters |
| LoweringForm.LoweredGraphOk | lib/nx_tinygrad/lowering.ex:568-632 | every lowered graph, recursively in its sub-graphs, has one duplicate-free sequential id space including loop outputs, every reference is to an earlier id, and every dynamic start names an operand |
| LoweringTyped.LoweringKeepsTypes | lib/nx_tinygrad/lowering.ex:28-595 | a well-typed list of expressions lowers to a graph that is well typed at every depth, declares every output with its own type, and has at most one input for each parameter, of that parameter's type; loops are nested no deeper than in the expressions |
| LoweringTyped.LowerTyped | lib/nx_tinygrad/lowering.ex:58-63 | an id, lowered or found in the memo, declares the type of its expression, in whatever block the expression stands |
| LoweringTyped.LowerTupleTyped | lib/nx_tinygrad/lowering.ex:455-553 | the ids of a tuple source declare the types of its components |
| LoweringTyped.LoopTyped | lib/nx_tinygrad/lowering.ex:472-503 | a while node keeps the shapes of its variables, and its two regions are typed on them |
| LoweringTyped.FnTyped | lib/nx_tinygrad/lowering.ex:568-595 | a fold's function is a graph typed on its own parameters, and holds no loop unless it may |
| LoweringTyped.WellTypedAccepted | priv/worker/graph.py:49-128 | a well-typed program of dtypes, operations and literals that the worker knows is accepted if and only if it has an output and not too many nodes |
| Validator.LoweredAccepted | priv/worker/graph.py:49-128 | a lowered graph passes if and only if its sizes, shapes, dtypes, ops, blob lengths and output specs are ones the worker knows: the checks of its version and of ids always pass |
| Validator.WellFormedIds | priv/worker/graph.py:58-64 | a well-formed graph defines no id twice, uses none too early, and has every output defined |
| Validator.Validate | priv/worker/graph.py:49-128 | the validator's loops pass a graph if and only if it has the known version and meets the declarative condition `Accepted` |
| Validator.CheckInputs | priv/worker/graph.py:66-71 | the first loop passes only if ids are distinct and every input is known, and fails only if not; it leaves exactly the ids and specs of the inputs |
| Validator.DistinctIndices | priv/worker/graph.py:73-74 | true if and only if no two inputs are at one position |
| Validator.CheckConstants | priv/worker/graph.py:76-92 | the loop passes only if ids are new and every constant is known, its blob of the right length, and fails only if not; it leaves exactly the ids and specs so far |
| Validator.CheckNodes | priv/worker/graph.py:94-119 | the loop passes only if every operand is defined before, every op known and every id new, and fails only if not; it leaves exactly the ids and specs so far |
| Validator.DefineNode | priv/worker/graph.py:101-117 | a node defines its ids, all new, with their specs, or is refused because one is not new |
| Validator.AcceptedButStuck | priv/worker/graph.py:35-46 | a graph with a loop whose condition returns an undefined id is accepted, is not well formed, and cannot run |
| Acceptance.AcceptedWhen | priv/worker/graph.py:35-128 | a graph is accepted if and only if its ids are in order, every spec it declares has a known dtype and rank, every operation at the top and in the regions the check enters is known, loops and regions give something, literals have as many bytes as they ask for, positions are distinct, and each output is declared as it says |
| Acceptance.InsideKnown | priv/worker/graph.py:35-46 | a region passes if and only if it and every loop's region inside it, at any depth, give something and hold known names only |
| Acceptance.SpecsDeclared | priv/worker/graph.py:66-117 | the specs that the loops collect are exactly those the graph declares, one for each id it defines |
| Undefined.NeverStuck | priv/worker/executable.py:471-482 | a graph that defines its ids in every list, its indices in range, never meets an undefined id: for every meaning of the operations, all arguments and any number of iterations |
| Undefined.ValueDefined | priv/worker/executable.py:471-482 | whatever the operations mean, a list with an undefined id never gives a value |
| Undefined.LoopDefined | priv/worker/executable.py:581-593 | a loop that gives a value has all ids defined in its condition, and in its body if it was entered |
| Undefined.PlainRun | priv/worker/executable.py:471-482 | where every operation succeeds and no loop is entered, a graph gives a value if its ids are defined in every list a run is sure to meet, and is stuck if not |
| Undefined.FoldDefined | priv/worker/executable.py:425-448 | a fold that has visited an element has all ids defined in its function |
| Undefined.AcceptedRuns | priv/worker/graph.py:49-128 | an accepted graph whose sub-graphs define their ids never meets an undefined one |
| Undefined.AcceptedExactly | priv/worker/graph.py:35-46 | with no loop entered, an accepted graph is stuck if and only if a loop's condition, or the function of a fold that visits anything, has an undefined id |
| Undefined.AcceptedBody | priv/worker/graph.py:35-46 | an accepted graph that enters a loop whose body has an undefined id is stuck |
| Undefined.LoweredDefined | lib/nx_tinygrad/lowering.ex:568-595 | lowered graphs define their ids in every list, at any depth |
| GraphIR.EvalNodesConcat | priv/worker/executable.py:413-423 | evaluating a node list is evaluating a front part and then the rest from where it ended |
| Typing.SubShaped | priv/worker/executable.py:471-482 | a typed graph on arguments of the declared shapes gives outputs of the declared shapes |
| PassThrough.NodesKeep | priv/worker/executable.py:413-423 | evaluating nodes changes no id that they do not define |
| PassThrough.InvariantValue | priv/worker/executable.py:494-508 | a loop variable whose output id is its own input id has the same value after one pass over the body |
| Values.IntOf | priv/worker/operations.py:451 | a dynamic start is truncated toward zero |
| Values.Clamp | priv/worker/operations.py:452 | a start at or below 0 becomes 0, one past the last fitting start becomes that, one between stays, and without room it is 0 |
| Values.ClampNearest | priv/worker/operations.py:452 | a number is the clamped start if and only if it is the start from 0 to hi that is nearest, or 0 where there is none |
| SymbolicPlan.RewriteWindow | priv/worker/executable.py:155-188 | the loop over starts rewrites one window as the specification function says: static starts kept, hi <= 0 pinned to 0, others new variables |
| SymbolicPlan.CollectAncestors | priv/worker/executable.py:190-197 | the backward pass computes the ancestor closure of the start ids |
| SymbolicPlan.AncestorsNeeded | priv/worker/executable.py:190-197 | nothing else is collected: each node is needed itself or is an operand of a later collected one, and the ids are exactly the needed ones and these operands |
| SymbolicPlan.ConstantsNeeded | priv/worker/executable.py:198 | a constant is kept if and only if it is needed |
| SymbolicPlan.MakePlan | priv/worker/executable.py:138-199 | the imperative planner builds the specified plan |
| SymbolicSound.ClampTwice | priv/worker/executable.py:174-177 | clamping on the host and again in the operation is clamping once; hi <= 0 pinned to 0 agrees with the clamp |
| SymbolicSound.StartSound | priv/worker/executable.py:170-182 | one axis: the variable or pinned start resolves to the start the original operation resolves to |
| SymbolicSound.UsesPositive | priv/worker/executable.py:174-181 | every variable has an upper bound above 0 |
| SymbolicSound.AncestorsSuffice | priv/worker/executable.py:190-199 | evaluating only the ancestors gives every start operand the value that evaluating the whole body gives it |
| SymbolicSound.NodesSound | priv/worker/executable.py:158-188 | node by node, the rewritten body under the bound variables computes what the original computes |
| SymbolicSound.SymbolicPlanSound | priv/worker/executable.py:138-199 | the ancestors evaluate, every bound lies in [0, hi], and the rewritten body under these bounds gives exactly the original body's outputs |
| Steps.BindStarts | priv/worker/executable.py:529-540 | the step reads each start from the ancestors alone and binds exactly the nearest start in range |
| LazySound.KernelSound | priv/worker/operations.py:432-461 | a lazy operation, its dynamic starts read now and frozen, reads as the operation's value, also at a later replay when it has no dynamic start |
| LazySound.LazyFoldSound | priv/worker/executable.py:425-448 | unrolling a fold into lazy tensors reads as the fold's value |
| LazySound.LazySubSound | priv/worker/executable.py:471-482 | evaluating a loop-free sub-graph on tensors gives tensors that read as the values the reference interpreter gives |
| LazyTensors.ReadStable | priv/worker/executable.py:8-10 | a tensor reads the same as long as the buffers it is read from do |
| Devices.Device.Clone | priv/worker/executable.py:535-555 | a clone is a new buffer with the same value, and nothing else changes |
| Devices.Device.Realize | priv/worker/executable.py:597 | realizing keeps the value and writes at most one new buffer |
| Devices.Device.Materialize | priv/worker/executable.py:567-570 | the result is in a buffer, reads the same, and is the tensor itself or a new buffer |
| Devices.Device.CallJit | priv/worker/executable.py:8-10 | the contract the comments state: it fails exactly on repeated input buffers or when the call breaks off, and then writes nothing; the second call captures, for good; traced kernels write the same buffers on every replay, realized outputs replay the capture-time tensor |
| Devices.WriteAllAt | priv/worker/executable.py:8-10 | a replay leaves every kernel's value in its own buffer and changes no other |
| Capture.PlanStatic | priv/worker/executable.py:487-492 | the rewritten body of a capturable loop reads no runtime scalar while it is traced |
| Capture.StepTraceSound | priv/worker/executable.py:510-524 | what the capture records, read over any later state and bounds, gives the next values of exactly the variables that are not passed through, and none of it is realized in the trace |
| Steps.StepInputs | priv/worker/executable.py:545-556 | the inputs of a captured iteration are realized, read as the state, have pairwise distinct buffers, and none is a buffer the call will write |
| Executor.MergeAt | priv/worker/executable.py:558 | results are dealt out in order to the variables that are not passed through; these get the state's own tensors |
| Executor.StepReady | priv/worker/executable.py:529-558 | on any state from which a capturable body has a next state, the ancestors find every start, and what is captured reads as the next state under the bound starts |
| Executor.CallStep | priv/worker/executable.py:529-558 | the call fails exactly when it breaks off, and then changes no existing buffer, or returns the next state, every new value in the step's own buffers; it writes nothing that another owner has |
| LoopStates.FirstState | priv/worker/executable.py:567-570 | the materialized operands are a right loop state |
| LoopStates.NextState | priv/worker/executable.py:597 | the body's outputs, realized, are a right loop state for the next values |
| LoopStates.SurvivesTest | priv/worker/executable.py:580-581 | evaluating the condition, loops in it included, leaves the loop state as it is |
| Reentry.EnteredOnce | priv/worker/executable.py:573-577 | for nodes whose loops can be entered with nothing of their own around, an account of whose buffers each value may be in exists along the whole list, and nothing still needed is ever overwritten by a step entered in it |
| Reentry.LoopsEager | priv/worker/executable.py:108-119 | whatever holds a loop, at any depth, is interpreted |
| Segments.EagerExactly | priv/worker/executable.py:108-119 | a loop's body is interpreted if and only if it holds a loop, or a fold in which, at any depth, something reads a runtime scalar or loops |
| Reentry.InvariantExactly | priv/worker/executable.py:494-508 | a variable is passed through if and only if its output names the input at its own position |
| TaintSound.ResultsTainted | priv/worker/executable.py:573-577 | binding a loop's results keeps the static account of which steps' buffers each value may be in right |
| Executables.ReadyClear | priv/worker/executable.py:545-551 | in a loop that meets the static condition, every variable passed straight through is clear of the step's own buffers |
| NodeRuns.SurvivesLoops | priv/worker/executable.py:573-577 | at a node with loops that the static condition allows, everything still needed reads the same after it, though it wrote its cached buffers again |
| Executables.Executable.MakeStep | priv/worker/executable.py:484-560 | the step is interpretation if and only if the body needs it, and otherwise a fresh captured function of the planned body |
| Executables.Executable.Test | priv/worker/executable.py:581 | the condition's truth is read, and the state survives |
| Executables.Executable.Iterate | priv/worker/executable.py:582-597 | one iteration, captured or interpreted or falling back from the same state, gives the next values of the reference body; a step is interpreted from then on exactly if it was before or its call breaks off, and is otherwise captured by its second call |
| Executables.Executable.Interpret | priv/worker/executable.py:593-597 | an interpreted iteration gives the next values of the reference body |
| Executables.Executable.RunSub | priv/worker/executable.py:471-482 | a sub-graph run on tensors gives tensors that read as the reference values, made only of the parameters, its loops' own buffers and new ones |
| Executables.Executable.RunWhile | priv/worker/executable.py:562-598 | the loop stops where the reference loop stops, with exactly its final variables, using a step cached by any earlier run; it writes only new buffers and its own; a step once captured stays as it is or is given up for good, and returns its results in its own buffers |
| Executables.Executable.RunFold | priv/worker/executable.py:425-448 | a fold whose function holds loops, run element by element with the loops' steps entered again each time, gives the reference fold's value |
| Executables.Executable.RunFoldAt | priv/worker/executable.py:418-421 | such a fold among the nodes binds its result, and everything still needed survives it |
| Executables.Executable.RunNodes | priv/worker/executable.py:413-423 | a node list with loops leaves every id still needed reading as the reference value |
| Executables.Executable.RunLoopAt | priv/worker/executable.py:415-417 | a loop among the nodes binds its results, and everything still needed survives it |
| NestedLoops.InnermostEnters | priv/worker/executable.py:545-556 | a loop without loops inside meets the condition wherever it stands |
| NestedLoops.NestEnters | priv/worker/executable.py:551-555 | a nest of loops of any depth that carries a variable in to the innermost loop and out again meets it: the variable is cloned before the captured call |
| NestedLoops.FoldEnters | priv/worker/executable.py:425-448 | a fold whose function runs a loop on the accumulator meets it, the loop's step entered again at every element |
| NestedLoops.ConvergeUnsafe | priv/worker/executable.py:573-577 | a loop that keeps the x from before an inner captured loop does not, wherever it stands and whatever it is given |
| NestedLoops.ConvergeMeans | priv/worker/executable.py:471-482 | what that loop means: each pass keeps the x it started from |
| NestedLoops.EnterAgain | priv/worker/executable.py:573-597 | entered again, a captured loop overwrites what it returned the time before: a tensor of it that is still referred to keeps its value if and only if this entry returns the same |
| NestedLoops.ConvergeRun | priv/worker/executable.py:562-598 | two passes of that outer loop: once the inner step is captured, the variable that should keep the earlier x reads as the later one, so it is right if and only if the two are equal |
| NestedLoops.TurnsDiffer | priv/worker/executable.py:562-598 | a loop for which the two passes leave different values |
| NestedLoops.TurnsCounted | priv/worker/executable.py:471-482 | that loop is well formed, captured, and passes no variable through |
| NestedLoops.ConvergeTurns | priv/worker/executable.py:562-598 | its two passes under any meaning in which it turns three values in a ring: once the step is captured, the variable that should keep the earlier value reads as the later one, and they differ |
| Segments.Split | priv/worker/executable.py:285-299 | the items are the nodes in order, cut into maximal runs of jit-safe nodes and eager singles |
| Segments.NeededAfter | priv/worker/executable.py:304-311 | the backward pass finds for each item exactly the ids read after it or output |
| Segments.SegmentInputs | priv/worker/executable.py:317-323 | a segment's inputs are exactly the ids it reads before defining them, constants apart |
| Segments.Sorted | priv/worker/executable.py:325 | the ids of the set, ascending, each once |
| Segments.FillIn | priv/worker/executable.py:317-325 | an item's outputs are exactly the ids it defines that are needed later |
| Segments.PlanSegments | priv/worker/executable.py:273-327 | there is no plan if and only if no node is jit-safe; a plan is right in all the above |
| Segments.HasSegment | priv/worker/executable.py:301-302 | the plan has a segment exactly when some node is jit-safe |
| Segments.SafeExactly | priv/worker/executable.py:98-129 | the nodes that can live in a trace are exactly those in which no window, at any depth, has an operand for a start, and nothing loops |
| SegmentSound.InputsThere | priv/worker/executable.py:342 | when a segment runs, each of its declared inputs is in the environment |
| SegmentSound.Restricted | priv/worker/executable.py:362-366 | from its declared inputs and the constants alone, a segment computes what it computes from everything |
| SegmentSound.SegmentTraceSound | priv/worker/executable.py:362-377 | what capturing a segment records, read over any later inputs, gives the segment's outputs |
| SegmentRuns.SegmentEnd | priv/worker/executable.py:350-352 | after a captured segment with only its needed outputs bound, everything still needed is there and right |
| SegmentRuns.DeadSegment | priv/worker/executable.py:334-335 | skipping a segment without outputs loses nothing that is needed |
| GraphRuns.SegmentArgs | priv/worker/executable.py:381-401 | a segment's arguments are realized, read as its inputs, with pairwise distinct buffers that the call does not write |
| GraphRuns.CallSegment | priv/worker/executable.py:402-405 | the call fails exactly when it breaks off, and then changes no existing buffer, or gives the segment's outputs in its own buffers |
| Frozen.OwnTrace | priv/worker/executable.py:600-626 | what capturing a graph without loops records, read over the inputs it was captured with, gives the graph's outputs |
| Frozen.TracesAlike | priv/worker/executable.py:600-626 | captured on any two inputs, a graph gives traces that differ at most in the fixed starts of windows |
| Frozen.ReplayRight | priv/worker/executable.py:712-715 | captured on some inputs and replayed on others, a graph without loops gives its own values if every frozen start is the one the later inputs give; where operations tell operands and starts apart, only then |
| GraphRuns.GraphTraceSound | priv/worker/executable.py:600-626 | what capturing a whole jit-safe graph records on any inputs, read over any later inputs, gives the graph's outputs |
| GraphRuns.CompiledGraph.RunItemByNode | priv/worker/executable.py:331-340 | an item run node by node keeps the environment right |
| GraphRuns.CompiledGraph.RunSegment | priv/worker/executable.py:336-352 | a segment captured, replayed, or interpreted after a failure keeps the environment right; it is interpreted from then on exactly if it was before or its call breaks off |
| GraphRuns.CompiledGraph.RunItems | priv/worker/executable.py:329-352 | after all items the outputs read as the reference values, and only this executable's buffers were written |
| GraphRuns.CloneAll | priv/worker/executable.py:612-625 | every output becomes a buffer of its own with the same value |
| GraphRuns.CompiledGraph.RunEager | priv/worker/executable.py:600-626 | an eager run, with or without a plan, gives the graph's values in buffers nothing else writes |
| GraphRuns.Dedup | priv/worker/executable.py:696-710 | every repeated reference is cloned, and the inputs read the same |
| GraphRuns.DedupDistinct | priv/worker/executable.py:696-710 | the inputs have pairwise distinct buffers if and only if no two different references share one |
| GraphRuns.SharedRejected | priv/worker/executable.py:696-715 | hence a captured call is rejected exactly on inputs with a shared buffer |
| GraphRuns.CompiledGraph.RunCaptured | priv/worker/executable.py:712-715 | the first calls give the graph's values, every later call those of the trace captured then; it fails if and only if two references share a buffer or the call breaks off, and then changes no existing buffer and not the capture |
| GraphRuns.CompiledGraph.ReplayedRight | priv/worker/executable.py:712-715 | those are the graph's values if the graph reads no runtime scalar, or if every frozen start is the graph's own on these inputs; where starts can be told apart, only then |
| GraphRuns.CompiledGraph.GuardedRight | priv/worker/executable.py:122-129 | a graph whose nodes are all jit-safe can be captured, and every call gives its values |
| GraphRuns.ShelteredExactly | priv/worker/executable.py:87-129 | a graph is run eagerly exactly if a node outside its folds loops or has an operand for a window's start; it passes the guard exactly if nothing does at any depth; and one of these holds, or it has no inputs, exactly if it is sheltered |
| GraphRuns.CompiledGraph.GivesRight | priv/worker/executable.py:712-715 | a run of a sheltered graph gives the graph's own values, whatever was captured; any other, replayed, gives them if every captured start is the one these inputs give and, where operations tell operands and starts apart, only then |
| AnyRuns.Wander | priv/worker/executable.py:329-598 | any sequence of copies, captured calls on any inputs, replays that break off or overwrite what they read, and fallbacks, in any order, keeps every cached step right and writes only new buffers and the executable's own |
| AnyRuns.CallAny | priv/worker/executable.py:712-715 | a captured call on any inputs, clean or not, leaves the capture as it was and writes only its own buffers |
| GraphRuns.CompiledGraph.Run | priv/worker/executable.py:712-715 | after any earlier runs of this executable or others, an eager run gives the graph's values and never fails, and a captured one gives its trace's or fails, exactly if references share a buffer or the call breaks off; every invariant is kept, and only new buffers and its own are written |
| Hazards.ResultOverwritten | priv/worker/executable.py:8-10 | a result kept across the next replay reads as that replay's value: why results are copied |
| Hazards.PassedThroughStale | priv/worker/executable.py:516-523 | an input returned uncloned from a captured function replays the capture-time input: why it is cloned |
| Hazards.HiddenStartNotEager | priv/worker/executable.py:257-260 | a graph whose only dynamic start is inside a fold is not run eagerly, and is not jit-safe |
| Hazards.HiddenStartFrozen | priv/worker/executable.py:640-649 | captured whole, its trace holds the start of the inputs it was captured with as a constant |
| Hazards.HiddenStartReplayed | priv/worker/executable.py:712-715 | a replay on any inputs reads the table at the captured start |
| Hazards.HiddenStartMeans | priv/worker/executable.py:425-448 | the graph itself reads it at the start its own inputs give |
| Hazards.HiddenStartRun | priv/worker/executable.py:640-686 | captured and checked with the dummy inputs of the compiler, such a graph passes the replay validation, and a later replay gives the wrong cell |
| Hazards.ViewShares | priv/worker/main.py:247-262 | a realized tensor and a view of it, a reshape or a slice, under two references always share a buffer |
| Workers.Registry.Allocate | priv/worker/registry.py:28-31 | ids go up by one and are never resident |
| Workers.Registry.Put | priv/worker/registry.py:33-36 | a new id holds the item, and every other id what it did |
| Workers.Registry.Get | priv/worker/registry.py:38-45 | the item, or a stale-reference error exactly when there is none |
| Workers.Registry.Release | priv/worker/registry.py:47-53 | exactly the named ids go, the others keep their items, and the count is of those that were there; unknown and repeated ids are ignored |
| Workers.ReleaseTwice | priv/worker/registry.py:47-53 | releasing the same ids again removes nothing |
| Workers.Worker.Upload | priv/worker/main.py:266-281 | a new handle holds the value; every other handle what it did |
| Workers.Worker.Download | priv/worker/main.py:283-291 | a resident handle's value, or a stale-reference error |
| Workers.Worker.Release | priv/worker/main.py:293-296 | exactly the named handles go, and no other changes |
| Workers.Worker.ReleaseExecutables | priv/worker/main.py:298-301 | exactly the named executables go, and no handle changes |
| Workers.Worker.Fetch | priv/worker/main.py:151-167 | succeeds if and only if every handle is resident, with inputs that read as the arguments' values; no handle changes |
| Workers.Worker.SharesExactly | priv/worker/executable.py:696-710 | the fetched references share a buffer if and only if two different handles among the arguments are tensors in one buffer: bytes never share |
| Workers.Worker.RunNode | priv/worker/main.py:198-264 | succeeds exactly when the operands are resident, the operation computes and its result has the requested shape; a new handle, and one id, holds its value, and no other handle changes; a stale reference is reported exactly if an operand is not there |
| Workers.Worker.Settle | priv/worker/main.py:252-253 | the result is realized, reads the same, and is in buffers no captured function writes |
| Workers.Worker.Compile | priv/worker/main.py:127-143 | a new executable of this graph and these blobs under a new id, not captured yet, or none and the id is used up; no handle changes |
| Workers.Worker.GivesRight | priv/worker/executable.py:712-715 | an executable of a sheltered graph answers with its graph's values; another captured one does if its captured starts are those of these arguments and, where starts can be told apart, only then |
| Workers.Worker.RunOn | priv/worker/main.py:148-170 | running an executable gives the values it is bound to give, its graph's or its capture's, and changes no handle; it succeeds if and only if executable and handles are there and, for a captured one, no two handles share a buffer and the call does not break off; what is missing is reported exactly when it is |
| Workers.Worker.Execute | priv/worker/main.py:186-196 | new consecutive handles hold those values, copied out of the reused buffers, and no earlier handle changes; it succeeds under the same condition, and a failure uses up no handle |
| Workers.Worker.ExecuteHost | priv/worker/main.py:174-184 | the reply carries those values, and no handle changes; it succeeds under the same condition |
| Workers.Worker.RunAny | priv/worker/main.py:148-170 | a run of any kind, failed, endless or wrong, changes no handle and leaves the worker ready for every later command |
| Workers.Worker.ExecuteAny | priv/worker/main.py:145-196 | whatever such a run returns, or part of it, is registered under new consecutive handles, and every earlier handle keeps its value |
| Workers.Worker.RegisterAll | priv/worker/main.py:191-195 | every output gets a handle on its own copy |
| Workers.Worker.ImmutableCopy | priv/worker/executable.py:31-64 | a new buffer with equal contents that no captured function writes |
| Calls.BuiltInputs | lib/nx_tinygrad/compiler.ex:215-245 | accepted arguments name only resident handles of this generation and stand for the parameters at the graph's input positions |
| Calls.BuildInputs | lib/nx_tinygrad/compiler.ex:215-245 | succeeds if and only if every input's parameter is there and is not of another generation; a failure names such an input |
| Calls.PositionalRun | priv/worker/executable.py:600-603 | binding arguments sent in input order by position is binding parameters by index |
| Calls.KindsWf | lib/nx_tinygrad/lowering.ex:568-595 | a lowered graph has only nodes that the executor's theorems cover |
| Calls.LoweredReady | lib/nx_tinygrad/compiler.ex:192-211 | a well-typed program of expressions that can be lowered and have values lowers to a graph that meets everything a run asks, and the values the run must give are the expressions'; for programs without nested loops this asks nothing of the graph |
| Calls.CallMeans | lib/nx_tinygrad/compiler.ex:192-211 | a call of a lowered program on a worker, by handles and bytes, is answered with what the program's expressions mean on the client's tensors, if no fold's function in it reads a runtime scalar or holds a loop, or the graph is sheltered otherwise |
| Calls.FlatEnters | priv/worker/executable.py:562-598 | loops without loops inside and folds without loops can always be entered |
| Lifecycle.StepKeeps | lib/nx_tinygrad/release_reaper.ex:38-67 | every step (start, crash, create, build, give up, drop, take, deallocate, drain, reap, receive, use, lookup) keeps the books |
| Lifecycle.Conservation | native/nx_tinygrad_ref/src/lib.rs:40-78 | in every reachable state, each resident buffer of a running generation is accounted for exactly once (live reference, queue, claimed, drained, sent, being created, orphaned) and no absent buffer is |
| Lifecycle.LiveFinds | lib/nx_tinygrad/backend.ex:114-142 | a live reference of a running generation finds its buffer resident, and no release of it is anywhere on its way |
| Lifecycle.LiveDistinct | priv/worker/registry.py:28-36 | no two live references of a running generation name one buffer |
| Lifecycle.GenerationSafety | lib/nx_tinygrad/release_reaper.ex:53-67 | whatever a process has in its mailbox names its own generation; a release there names a resident buffer |
| Lifecycle.ReleasedOnce | native/nx_tinygrad_ref/src/lib.rs:69-78 | under any order of take, drop and drain a reference makes one release if it was claimed and none before |
| Lifecycle.ReleasesConserved | native/nx_tinygrad_ref/src/lib.rs:40-111 | over every run, each release that was made has been handled by a deallocating caller or the reaper, or is still queued, claimed or drained: no crash or restart loses one, of whatever generation |
| Lifecycle.StepWaiting | lib/nx_tinygrad/backend.ex:114-142 | a use stays in its worker's mailbox until it is looked up or the worker crashes, and a made buffer stays its caller's until a reference is built or the caller gives up; nothing else adds or removes either |
| Lifecycle.JourneyHolds | lib/nx_tinygrad/release_reaper.ex:38-67 | over every run, a buffer of a running generation is in exactly the place its journey says (unmade, being created, owned, queued, claimed, drained, mailed, freed or given up), and only a caller that gives up loses one |
| Lifecycle.DroppedIsFreed | lib/nx_tinygrad/release_reaper.ex:38-62 | after a reference is dropped, a drain, the reaper's pass over its worker and the receipt of the release leave the buffer not resident |
| Lifecycle.NothingLeaks | lib/nx_tinygrad/release_reaper.ex:38-67 | with nothing queued, claimed, drained, mailed or being created, a buffer of a running generation is resident if and only if a live reference owns it or its caller gave up |
| Lifecycle.OrphansGivenUp | lib/nx_tinygrad/backend.ex:114-125 | a buffer is given up exactly as often as its caller gave up |
| Lifecycle.UseArrives | lib/nx_tinygrad/backend.ex:127-142 | a use of a live reference of a running generation reaches the worker where its buffer is, and a use of an earlier generation's is not sent |
| Lifecycle.LateSendLoses | lib/nx_tinygrad/release_reaper.ex:56-62 | a run in which a restart between reading the generation and sending releases a live buffer of the new generation |
| Lifecycle.LateBuildAliases | lib/nx_tinygrad/backend.ex:114-125 | a run in which a reference built after a restart aliases another live reference |
| References.ReleaseQueue.Push | native/nx_tinygrad_ref/src/lib.rs:43-47 | appends one entry |
| References.ReleaseQueue.DrainAll | native/nx_tinygrad_ref/src/lib.rs:104-111 | returns all entries and leaves none |
| References.TensorRef.TakeTag | native/nx_tinygrad_ref/src/lib.rs:69-78 | is the lifecycle's claim: the tag the first time, nothing after |
| References.TensorRef.Collect | native/nx_tinygrad_ref/src/lib.rs:40-49 | is the lifecycle's drop: queued unless claimed |
| References.TakenThenCollected | native/nx_tinygrad_ref/src/lib.rs:69-78 | a claimed reference is not queued when collected, and a second take gets nothing |
| References.BatchExact | lib/nx_tinygrad/release_reaper.ex:38-57 | a handle is in the release sent to a worker if and only if an entry of that worker and its current generation names it |
| References.ReapSends | lib/nx_tinygrad/release_reaper.ex:53-62 | the lifecycle's reap step mails a worker exactly this batch |
| References.WorkerIds.IdFor | lib/nx_tinygrad/worker_ids.ex:20-47 | the two tables stay inverse, an assignment is never changed, and at most this name is added |
| References.WorkerIds.NameFor | lib/nx_tinygrad/worker_ids.ex:28-33 | the name an id was given to, if any |
| References.TwoWorkers | lib/nx_tinygrad/worker_ids.ex:20-47 | two names get one id if and only if they are the same, and the id leads back to its name |
| References.Generation.NextGeneration | lib/nx_tinygrad/generation.ex:22-26 | strictly larger than every number handed out before |
| Rpc.FailAll | lib/nx_tinygrad/worker.ex:257-264 | everyone pending is told once, nobody else is, and `pending` is empty |
| Rpc.StepKeeps | lib/nx_tinygrad/worker.ex:120-173 | every call, reply, late reply, timeout, bad frame and exit keeps: who waits is who asked and was not told |
| Rpc.AnsweredOnce | lib/nx_tinygrad/worker.ex:120-173 | over every run each caller is told at most once, a response only if the worker computed it from that caller's own request; who waits is exactly who was not told; after a stop nobody waits |
| Rpc.ToldExactly | lib/nx_tinygrad/worker.ex:120-173 | over every run, a caller is told an answer if and only if it is the first thing that settled its request: the response computed for it by its arrival, `TimedOut` by its timer, `ProtocolFault` by a bad frame, `Crashed` by an exit |
| Rpc.StepTells | lib/nx_tinygrad/worker.ex:120-173 | a step tells a caller exactly what it settles for its request, if that is still open, and nothing else |
| Rpc.NothingLost | lib/nx_tinygrad/worker.ex:120-173 | whoever waits has a request or a response under way, so with nothing under way everyone has been told |
| CanonicalJson.PrintOnce | lib/nx_tinygrad/graph.ex:46-62 | a term can be read off the front of any text that goes on with a delimiter: printing is injective |
| CanonicalJson.TextsEqual | lib/nx_tinygrad/graph.ex:40-62 | equal canonical texts if and only if equal terms up to the order of map entries |
| CanonicalJson.OrderHidden | lib/nx_tinygrad/graph.ex:48-56 | maps with the same entries in any order have one canonical text |
| CompileCache.KeyExact | lib/nx_tinygrad/graph_cache_key.ex:16-51 | of two sources that do not collide, the cache keys are equal if and only if the canonical graphs, the blob lists, the commit, the device and the worker are |
| CompileCache.KeyReads | lib/nx_tinygrad/graph_cache_key.ex:16-51 | the text that is hashed can be read back: equal texts come from equal canonical graphs, blobs, commit, device and worker |
| CompileCache.PrintsOnce | lib/nx_tinygrad/graph_cache_key.ex:44-51 | equal fingerprints of equally many blobs come from equal blobs, if the digests keep these blobs apart |
| CompileCache.LawsMet | lib/nx_tinygrad/graph_cache_key.ex:16-51 | a hashing with digests of 32 and keys of 64 characters meets every law, and keeps two sources with different graphs and blobs apart |
| CompileCache.TwoSources | lib/nx_tinygrad/compiler.ex:121-150 | with it a compiler compiles two sources to two executables, and asked again for the first it answers from the cache |
| JsonText.JsonDelimited | lib/nx_tinygrad/graph.ex:48-62 | quoted keys, decimal numbers, names and quoted strings end where their delimiter is and tell keys and scalars apart |
| JsonText.JsonOrdered | lib/nx_tinygrad/graph.ex:48-52 | keys are ordered totally by their characters, as sorting asks |
| JsonText.EscapeOnce | lib/nx_tinygrad/graph.ex:52 | a quoted text ends at its first bare quote, and is told by what stands before it |
| CompileCache.Cache.Put | lib/nx_tinygrad/executable_cache.ex:49-59 | the entry is stored, at most one other is given up and only when the table is full and the key new; the limit is kept if and only if it is not 0 |
| CompileCache.Cache.Get | lib/nx_tinygrad/executable_cache.ex:22-27 | the stored entry, or none |
| CompileCache.Compiler.EnsureCompiled | lib/nx_tinygrad/compiler.ex:121-150 | hit or miss, the executable is of the worker's current generation, still resident, and was compiled from a source with the same canonical graph, blobs, commit, device and worker; it is a hit exactly if the cache holds an entry of this generation, and then nothing is compiled; otherwise one executable is, under the worker's next id; afterwards the next call hits |
| CompileCache.Compiler.CompileNow | lib/nx_tinygrad/compiler.ex:152-156 | the new executable has the worker's next id, is resident, of the current generation, and recorded as compiled from this source; no other worker and no other record changes |
| CompileCache.Compiler.Restart | lib/nx_tinygrad/generation.ex:22-26 | a new generation with nothing resident leaves every cache entry right, because an old entry no longer matches |
| CompileCache.Compiler.ReleaseExecutable | native/nx_tinygrad_ref/src/lib.rs:51-57 | releasing an executable that no cache entry holds leaves every cache entry right |
| Protocol.BeRoundTrip | lib/nx_tinygrad/protocol.ex:32-34 | a number that fits its field reads back |
| Protocol.DecodesFrames | lib/nx_tinygrad/protocol.ex:41-74 | the decoder returns an id, metadata and blobs if and only if the payload is the frame of them, whatever its reserved bytes |
| Protocol.RoundTrip | lib/nx_tinygrad/protocol.ex:25-54 | decoding an encoded frame within field bounds gives it back |
| Protocol.ReadTable | priv/worker/protocol.py:78-82 | the loop reads the same lengths as the recursive decoder and stops where the table ends |
| Protocol.ReadBlobs | priv/worker/protocol.py:96-105 | the loop succeeds with the same blobs as the recursive decoder, and fails when it does |
| Protocol.DecodeFrame | priv/worker/protocol.py:65-107 | the worker's decoder succeeds exactly where the client's does with a JSON object, with the same result |
| Protocol.ReadExact | priv/worker/protocol.py:34-42 | exactly the next n bytes whatever the chunks, or none if and only if fewer are left |
| Protocol.ReadPacket | priv/worker/protocol.py:45-56 | one packet off the front, or the end, or one of the two errors, as the bytes say |
| Protocol.CutShort | priv/worker/protocol.py:34-56 | a packet cut after any number of its bytes reads as a clean end if and only if the cut is in its header, and as truncated otherwise |
| Protocol.ReadAllBack | priv/worker/protocol.py:45-62 | a list of packets within the limit, written, is read back exactly whatever the chunks |
| BitCounts.LeadingZerosBound | priv/worker/operations.py:222-243 | the count of leading zeros is the exact one: the value lies between the two powers of two, and a negative number has none |
| BitCounts.Smear | priv/worker/operations.py:229-235 | for every width, doubling shifts set exactly the bits at or below a set one (all bits of a negative number) |
| BitCounts.BitSum | priv/worker/operations.py:239-241 | the sum of the low bits of all shifts is the number of set bits, shifted-in signs notwithstanding |
| BitCounts.PopulationCounts | priv/worker/operations.py:236-243 | what is counted is the size of the set of positions that are set |
| BitCounts.LowBit | priv/worker/operations.py:229-235 | read from its low end, each bit of a pattern counts twice the one before |
| BitCounts.SmearedCount | priv/worker/operations.py:229-243 | width less the set bits of a smeared pattern is the number of leading zeros |
| BitCounts.CountLeadingZeros | priv/worker/operations.py:229-243 | the operation gives the number of leading zeros, signed or unsigned |
| BitCounts.PopulationCount | priv/worker/operations.py:236-243 | the operation gives the number of set bits |
| TriangularSolve.SolveRow | priv/worker/operations.py:782-785 | the row satisfies its equation in terms of the rows solved before |
| TriangularSolve.Forward | priv/worker/operations.py:780-785 | forward substitution satisfies every row's equation |
| TriangularSolve.Backward | priv/worker/operations.py:780-785 | back substitution satisfies every row's equation |
| TriangularSolve.Solve | priv/worker/operations.py:758-792 | succeeds exactly for a left side and a known transform, and then op(A) x = b with only the named triangle of A |
| RowMajor.RoundTrip | priv/worker/operations.py:614-624 | coordinates in range are recovered from their linear index |
| RowMajor.IndexRoundTrip | priv/worker/operations.py:614-624 | every index below the product is the linear index of coordinates in range |
| RowMajor.LinearConcat | priv/worker/operations.py:611-612 | collapsing leading axes into one leaves every linear index as it is |
| RowMajor.Strides | priv/worker/operations.py:614-619 | stride j is the product of the sizes after j |
| RowMajor.Linearise | priv/worker/operations.py:621-624 | the loop over coordinates computes the row-major index |
| RowMajor.PartialLinear | priv/worker/operations.py:621-624 | the sum of the first axes and the index along the rest make the whole index |
| RowMajor.FitsInt32 | priv/worker/operations.py:621-624 | every product, every partial sum and the index fit int32 when the product of the sizes is at most 2^31 |
| Coordinates.Inverse | priv/worker/operations.py:689-691 | the loop builds the inverse permutation |
| Coordinates.InverseUndoes | priv/worker/operations.py:689-692 | the inverse is a permutation and undoes the permutation both ways |
| Coordinates.OrderIsPermutation | priv/worker/operations.py:601-612 | the indexed axes followed by the others, ascending, are a permutation of all axes |
| Coordinates.FrontedAt | priv/worker/operations.py:611-612 | permuting and collapsing puts every cell at the linear index of its indexed coordinates |
| Coordinates.RestoredAt | priv/worker/operations.py:688-692 | splitting and undoing the permutation puts every cell back |
| Coordinates.Gather | priv/worker/operations.py:594-626 | gather is coordinate lookup: the cell whose indexed coordinates are the row's, at every choice of the others |
| Coordinates.HitsAdded | priv/worker/operations.py:675-677 | a row hits a cell's linear index exactly when it names its coordinates, so duplicates accumulate |
| Coordinates.IndexedAdd | priv/worker/operations.py:651-692 | every cell of the result is the old cell plus the updates of all rows that name it, in the original axis order; at fixed other coordinates the total of the result is the old total plus that of the updates |
| Coordinates.AxesTotal | priv/worker/operations.py:683-684 | summed over all cells along the indexed axes, the total grows by exactly the total of the updates |
| WindowScatter.WindowInside | priv/worker/operations.py:553-573 | every cell of every window is inside the padded operand, and so is its linear index |
| WindowScatter.WindowsFit | priv/worker/operations.py:541-544 | the windows are all those, and only those, that end inside the padded operand |
| WindowScatter.WindowIndices | priv/worker/operations.py:560-573 | the sums of coordinate times stride are the row-major indices of the window's cells |
| WindowScatter.ChosenLast | priv/worker/operations.py:546-550 | the one selected position is the last that holds the window's extreme, and no other position qualifies |
| WindowScatter.ChosenExtreme | priv/worker/operations.py:534-550 | the selected position is the last of the largest numbers, or of the smallest, and the last cell where there is only padding |
| WindowScatter.PaddingLoses | priv/worker/operations.py:534-538 | a window that holds any real cell never selects padding |
| WindowScatter.CellHolds | priv/worker/operations.py:551-575 | each cell gets the sum of the source values of exactly the windows that chose it |
| WindowScatter.ScatterConserves | priv/worker/operations.py:573-575 | the scattered total before init is the source total |
| WindowScatter.Scatter | priv/worker/operations.py:521-576 | the whole operation up to the crop: each cell holds init plus what the windows that chose it scatter, overlaps accumulated, the total conserved |

## Left out

What the repository does that the model does not:

- tinygrad itself. `Device.CallJit` is the contract its use relies on: it may fail at any call before it writes, it captures on its second call and replays from the third, and it rejects inputs that are not in distinct buffers.
- The dummy runs and the replay check at compile time (`_capture`, `_validate_replay`), except in `Hazards.HiddenStartRun`. A captured whole graph starts as a captured function that has not been called, and may be captured on any inputs.
- Floating point: numbers are reals, `+`, `*` and `/` exact. The approximations (`_erf_inv`, `_expm1`, `_log1p`, `_cbrt`, `_atan2`, `_dft`), NaN and infinities, and the numbers' encoding are not modelled.
- Complex tensors and their `Cx` wrapper, dtype tables, op-name tables. Attributes are opaque text that lowering carries along; axis normalisation is not modelled.
- Elementwise operations, reductions, `dot`, `conv`, `pad`, `sort`, `argmax` and windows without scatter: one uninterpreted function `apply`.
- `indexed_put`: which of two rows for one cell wins is the library's choice.
- The client's eager operations beyond their arguments, output containers, device strings, ports, timers' real time, telemetry and logging.
- Byte accounting in the registry and the workers' counters.
- When the garbage collector runs is a nondeterministic `Drop` step. Mailboxes are handled in any order. A poisoned queue lock, on which a release is lost, is not modelled.
- A caller that exits on its own call timeout before the server answers it: the server's own timeout is modelled, the caller's is not.

Where a member says less than the source might, or assumes more:

- Executables.Executable.RunWhile: asks for the static condition `SafeLoop`, which the source does not check, and `ConvergeRun` shows what happens without it. The condition looks at the graph and not at values, so it refuses some loops in which the overwritten value happens to be equal.
- Executables.Executable.RunFold: typing gives the accumulator the shape the function declares. A fold with loops over several cells at once is not covered: the condition of a loop in it is no scalar there, and reading it fails.
- Frozen.ReplayRight: a loop hidden in the function of a fold also escapes the eager test. Whether one capture may run inside another is the runtime library's choice, so graphs sent to capture have no loops here.
- GraphRuns.CompiledGraph.Run: asks that the graph is typed, that its loops can be entered (`AllEnter`), and that the windows of a captured trace still have the axes their frozen starts name. A run that does not terminate is not described; inputs are in buffers, as registered tensors are.
- LazySound.LazyFoldSound: the number of elements of a fold is a field of the node, where the source computes it from the operand's shape.
- Devices.Device.CallJit: two literal constants with equal contents count as one buffer, which rejects more than the source does.
- LoweringSound.LoweringPreservesMeaning: a window start on an axis that the operand does not have has no value on either side. A projection past the end of a tuple is an error of lowering, where the source makes a nil id.
- ExprMeaning.ChainIsChosen: both branches of a cond are evaluated, as the source does, so nothing is said when a branch not taken diverges.
- Validator.Validate: shapes and ids are natural numbers and lists are lists by type, so the checks of JSON types have nothing to refuse.
- Workers.Worker.Compile: whether a graph compiles is a parameter.
- Workers.Worker.Execute: says which values are registered for graphs that have values on the arguments and are run eagerly or can be captured (`Expects`). Of other runs `RunAny` and `ExecuteAny` say what they leave alone, not what they return. The same holds for `ExecuteHost` and `RunOn`.
- AnyRuns.Wander: a run is any sequence of moves, without saying which sequences the executor makes. A kernel that runs outside a captured call writes a new buffer.
- Calls.LoweredReady: for programs with loops inside loops or folds, that the emitted loops can be entered (`AllEnter`) is asked of the graph.
- Calls.CallMeans: for a program with a fold whose function reads a runtime scalar or holds a loop, and with nothing outside the folds that does, `Workers.Worker.GivesRight` says when a replay is right.
- LoweringTyped.WellTypedAccepted: the number of nodes is read off the emitted graph.
- Undefined.AcceptedBody: for the first loop of a graph, its body without loops. A body behind an earlier loop that no meaning of the operations ever lets the run leave is never met; for those `LoopDefined` says what any run that enters the loop needs.
- Calls.BuiltInputs: bytes shipped for a parameter stand for the parameter's value.
- CompileCache.Compiler.EnsureCompiled: one call is one step; generation and compilation are not interleaved with a restart. The uncached variant is `CompileNow`.
- CompileCache.KeyExact: the worker's name and what follows it print last, worker names are text, and names are told apart by their printing. Commits and devices are one line each.
- CompileCache.LawsMet: a witness that the laws can be met; SHA-256 and the exact text of Elixir's JSON encoder are not modelled.
- Protocol.DecodesFrames: JSON text is an abstract pair of functions of which one undoes the other; which of the two decoders' error values is returned is modelled for the worker's only.
- Rpc.AnsweredOnce: the worker may answer a request with anything; what commands compute is the subject of `Workers`.
- TriangularSolve.Solve: over exact reals with a nonzero diagonal. A vector right side is one column. Back substitution subtracts the solved rows in ascending order, the source in descending order.
- Coordinates.Gather: coordinates are in range and there is at least one indexed axis. The rows are the flattened batch.
- Coordinates.IndexedAdd: coordinates are in range and there is at least one indexed axis.
- WindowScatter.Scatter: starts from the padded operand and ends before the crop; padding cells are the identity of the extreme. The rank is at least 1 and every window fits.
