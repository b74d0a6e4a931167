# LangGraph tutorial workflows in Dafny

This project models the small graphs that the LangGraph tutorial scripts build with
`StateGraph`, `add_node`, `add_edge`, `add_conditional_edges` and `invoke`:

- the linear chain `a -> b` (`simple_linear_workflow.py`);
- routing by the sign of a number (`conditional_workflow.py`);
- the fan-out to `square`, `cube` and `double`, followed by the fan-in at `summary` (`parallel_workflow.py`);
- four workflows from `05_langgraph_foundation.py`:
  - the message accumulator;
  - the counter loop;
  - the error-handling graph;
  - the data-processing pipeline (load, clean, validate, then process or handle_invalid).

Every state is a `datatype`, with one field per `TypedDict` key. What a node returns is a second
datatype with an `Option` per key: `None` is a key the node leaves out of the dictionary it returns.

Each field is merged by the policy its declaration implies (module `Reducers`):

- a plain field is overwritten;
- a field annotated `Annotated[list, operator.add]` has the written list appended.

A node or router that raises a Python exception yields `None`.

The runtime's `invoke` is replaced by a small sequential interpreter (module `Graph`):

- It runs the current node and merges its update.
- It follows the node's direct or conditional edge, and stops at `END`.
- A step budget (`fuel`) stands for the runtime's recursion limit.
- The outcome records the nodes executed, in order.

The parallel fan-out is not run by that interpreter. It is modelled as the three branches applied
one after another in an arbitrary order, and as all three reading one common state. The model
shows that these coincide, whatever the order.

The string operations the pipeline uses are modelled in module `Text`:

- `str.strip()`, using the whitespace set of CPython's `str.isspace()`;
- `str.split(",")`;
- `int()`, on an optional sign followed by ASCII digits;
- `str(n)` for the integers the conditional handlers write into their result.

The end-to-end lemmas hold for any budget of at least `k` node executions: they require
`fuel >= k`, or write the budget as `spare + k`.

## Model

| member | source | states |
|---|---|---|
| Reducers.Overwrite | 05_langgraph_foundation.py:262 | a field without a reducer takes the value a node writes, and keeps its value when the node leaves the key out; `LastWriterWins` states it over a run |
| Reducers.OverwriteOptional | conditional_workflow.py:24-25 | the same policy for a field the initial state may leave unset; `ConditionalRun` and `ParallelRun` state the fields it yields |
| Reducers.Accumulate | 05_langgraph_foundation.py:261 | a field annotated `operator.add` has what a node writes appended to it; `AccumulationKeepsOrder` states it over a run |
| Reducers.LastWriterWins | 05_langgraph_foundation.py:259-262 | a field without a reducer ends with the value of the last step that wrote it, or keeps its old value if no step wrote it |
| Reducers.AccumulationKeepsOrder | 05_langgraph_foundation.py:261 | a field with the `operator.add` reducer ends with its old list followed by everything the steps wrote, in step order |
| Text.TrimLeft | 05_langgraph_foundation.py:478 | `lstrip()` returns a suffix of its input that is empty or starts with a non-whitespace character |
| Text.TrimRight | 05_langgraph_foundation.py:478 | `rstrip()` returns a prefix of its input that is empty or ends with a non-whitespace character |
| Text.Strip | 05_langgraph_foundation.py:478 | `strip()` is no longer than its input, and is empty or starts and ends with non-whitespace |
| Text.StripIsTrimmedSlice | 05_langgraph_foundation.py:478 | `strip()` keeps exactly the slice that has only whitespace outside it and starts and ends with non-whitespace |
| Text.StripPadded | 05_langgraph_foundation.py:478 | a line padded with whitespace on both sides strips back to the line, when the line has no whitespace at either end |
| Text.StripIdempotent | 05_langgraph_foundation.py:478 | `strip()` is idempotent: stripping its result again changes nothing |
| Text.Split | 05_langgraph_foundation.py:484 | `split(",")` always returns at least one piece |
| Text.SplitPiecesLackSeparator | 05_langgraph_foundation.py:484 | no piece of a split contains the separator |
| Text.JoinSplit | 05_langgraph_foundation.py:484 | joining the pieces with the separator gives back the split string |
| Text.SplitLength | 05_langgraph_foundation.py:484-486 | a split has one more piece than the string has separators |
| Text.SplitJoin | 05_langgraph_foundation.py:484 | splitting a join of separator-free pieces gives back the pieces |
| Text.ParseInt | 05_langgraph_foundation.py:501 | up to CPython's limit on the number of digits, `int()` succeeds exactly on the strings `IsIntLiteral` describes (an optional `+` or `-`, then at least one ASCII digit); a negative result comes from a leading `-` |
| Text.ParseIntPlus | 05_langgraph_foundation.py:501 | a leading `+` before a run of digits does not change the value |
| Text.ParseIntMinus | 05_langgraph_foundation.py:501 | a leading `-` before a run of digits negates the value |
| Text.ParseIntLeadingZero | 05_langgraph_foundation.py:501 | a leading `0` before a run of digits does not change the value, so "025" is 25 |
| Text.NatToStringValue | conditional_workflow.py:41 | the decimal rendering of a natural number is a non-empty run of digits whose value is that number, and it starts with `0` only for zero; these two facts fix the rendering uniquely |
| Text.IntToString | conditional_workflow.py:41 | `str(n)`: `NatToStringValue` states that it is `-` before the digits of `-n` for negative `n`, otherwise those of `n`, with no leading zero; `ParseIntToString` states that `int()` reads it back as `n` |
| Text.ParseIntToString | conditional_workflow.py:51 | `int(str(n)) == n` for every integer `n`, up to CPython's limit on the number of digits |
| Graph.Resolve | conditional_workflow.py:70-78 | a direct edge always leads to its target; a conditional edge proceeds only when the router returns a key of its mapping |
| Graph.Run | simple_linear_workflow.py:56-57 | `invoke`: runs nodes from the entry, merging each update and following edges until `END`, a raising node or router, or the budget; `RunTraceShape` and `RunWithMoreFuel` state its outcome's shape |
| Graph.RunTraceShape | simple_linear_workflow.py:56-57 | a run executes at most its budget of nodes and starts at the entry node; a failing node is the last one executed; a run stopped by the budget used all of it |
| Graph.RunWithMoreFuel | simple_linear_workflow.py:56-57 | a run that does not exhaust its budget ends the same way with any larger budget |
| LinearWorkflow.Apply | simple_linear_workflow.py:20-23 | both fields are overwritten by what a node returns; `LinearRun` states the merged result |
| LinearWorkflow.Edges | simple_linear_workflow.py:48-50 | the wiring a → b → END; `LinearRun` states the order of execution |
| LinearWorkflow.NodeA | simple_linear_workflow.py:26-32 | node a appends " Hello" to `message` and adds one to `count`; `LinearRun` states its effect within the run |
| LinearWorkflow.NodeB | simple_linear_workflow.py:34-40 | node b appends " from LangGraph!" to `message` and adds one to `count`; `LinearRun` states its effect within the run |
| LinearWorkflow.LinearRun | simple_linear_workflow.py:26-50 | from any state the chain runs `a` then `b`, appends " Hello" then " from LangGraph!" to `message`, and increases `count` by the number of nodes executed |
| LinearWorkflow.LinearExample | simple_linear_workflow.py:56-57 | from {message "", count 0} the result is {message " Hello from LangGraph!", count 2} |
| ConditionalWorkflow.Apply | conditional_workflow.py:21-25 | each field is overwritten by what a node returns; `ConditionalRun` states the merged result |
| ConditionalWorkflow.Edges | conditional_workflow.py:67-83 | categorize routes by `CategoryRoutes` ("negative", "zero", "positive" to the handler of that name) and each handler goes to END; `CategoryAlwaysRouted` and `ConditionalRun` state where a run goes |
| ConditionalWorkflow.CategorizeNode | conditional_workflow.py:27-36 | categorize writes only `category`, choosing "negative", "zero" or "positive" exactly when the number is below, at or above zero |
| ConditionalWorkflow.HandleNegative | conditional_workflow.py:38-41 | writes "<n> is negative" to `result`; `HandlersWriteOnlyResult`, `ConditionalRun` and `NegativeExample` state its effect |
| ConditionalWorkflow.HandleZero | conditional_workflow.py:43-46 | writes "Number is zero" to `result`; `HandlersWriteOnlyResult`, `ConditionalRun` and `ZeroExample` state its effect |
| ConditionalWorkflow.HandlePositive | conditional_workflow.py:48-51 | writes "<n> is positive" to `result`; `HandlersWriteOnlyResult`, `ConditionalRun` and `PositiveExample` state its effect |
| ConditionalWorkflow.RouteByCategory | conditional_workflow.py:54-57 | returns the state's `category` as the routing key; `CategoryAlwaysRouted` states that it is always mapped |
| ConditionalWorkflow.HandlersWriteOnlyResult | conditional_workflow.py:38-51 | each handler writes only `result`, never `number` or `category` |
| ConditionalWorkflow.CategoryAlwaysRouted | conditional_workflow.py:54-78 | the router returns the category just written, which is always a key of the mapping, and it leads to the handler matching the sign |
| ConditionalWorkflow.ConditionalRun | conditional_workflow.py:27-83 | every run executes categorize and the matching handler, then reaches END with the category and result for the number's sign; `number` is unchanged |
| ConditionalWorkflow.RenderedPositive | conditional_workflow.py:51 | the positive handler's text for 42 is "42 is positive" |
| ConditionalWorkflow.RenderedNegative | conditional_workflow.py:41 | the negative handler's text for -10 is "-10 is negative" |
| ConditionalWorkflow.PositiveExample | conditional_workflow.py:88-90 | invoking with 42 gives the result "42 is positive" |
| ConditionalWorkflow.NegativeExample | conditional_workflow.py:92-94 | invoking with -10 gives the result "-10 is negative" |
| ConditionalWorkflow.ZeroExample | conditional_workflow.py:96-98 | invoking with 0 gives the result "Number is zero" |
| ParallelWorkflow.Apply | parallel_workflow.py:21-27 | each field is overwritten by what a node returns; `MergeCommutes` states that updates to disjoint fields merge in either order |
| ParallelWorkflow.MergeCommutes | parallel_workflow.py:78-85 | two updates that write disjoint fields can be merged in either order |
| ParallelWorkflow.BranchNode | parallel_workflow.py:29-42 | square, cube and double each write n², n³ or 2n of `input_value` to their own field; `BranchWritesOwnField` and `RunBranchesFields` state this |
| ParallelWorkflow.BranchWritesOwnField | parallel_workflow.py:29-42 | each branch writes exactly its own field, never `input_value`; distinct branches write distinct fields |
| ParallelWorkflow.RunBranchesFields | parallel_workflow.py:29-42 | after any sequence of branches, each field that ran holds n², n³ or 2n, any other branch field is untouched, and `input_value` and `summary` are unchanged |
| ParallelWorkflow.RunBranches | parallel_workflow.py:78-80 | the fan-out with the branches run one after another; `RunBranchesFields` states every field afterwards |
| ParallelWorkflow.FanOut | parallel_workflow.py:78-80 | the fan-out as one step, every branch reading the same state; `SequentialEqualsOneStep` states that it equals `RunBranches` |
| ParallelWorkflow.SequentialEqualsOneStep | parallel_workflow.py:78-80 | running the branches one after another equals running them all on the state before the step and merging afterwards |
| ParallelWorkflow.FanOutOrderIrrelevant | parallel_workflow.py:78-85 | every order of the three branches gives the same state, with all three fields set from `input_value` |
| ParallelWorkflow.SummaryNode | parallel_workflow.py:56-66 | copies the input and the three results into `summary`, raising on an unset result; `SummaryNeedsAllBranches` and `ParallelRun` state this |
| ParallelWorkflow.Invoke | parallel_workflow.py:69-90 | runs the branches in the given order, then summary; `ParallelRun` and `FanOutOrderIrrelevant` state its result |
| ParallelWorkflow.SummaryNeedsAllBranches | parallel_workflow.py:56-66 | with any branch missing and its field unset, summary raises |
| ParallelWorkflow.ParallelRun | parallel_workflow.py:56-86 | with each branch run once, in any order, the final state holds the three results and a summary copied from them; `input_value` is unchanged |
| ParallelWorkflow.ParallelExample | parallel_workflow.py:90 | for input 5 the final state has squared 25, cubed 125 and doubled 10, and a summary of the four values |
| AccumulatorWorkflow.Apply | 05_langgraph_foundation.py:259-262 | `messages` is appended to and `count` overwritten; `AccumulatorFollowsPolicies` states the merged result over a run |
| AccumulatorWorkflow.Edges | 05_langgraph_foundation.py:286-289 | the wiring msg1 → msg2 → msg3 → END; `AccumulatorRun` states the order of execution |
| AccumulatorWorkflow.AddMessage | 05_langgraph_foundation.py:264-277 | msg1, msg2 and msg3 each write a one-message list and their own count; `AccumulatorRun` states their combined effect |
| AccumulatorWorkflow.AccumulatorRun | 05_langgraph_foundation.py:264-289 | from any state msg1, msg2 and msg3 run in order; the three messages are appended after the old ones, and `count` is 3 |
| AccumulatorWorkflow.AccumulatorFollowsPolicies | 05_langgraph_foundation.py:259-289 | `messages` is the old list followed by what the executed nodes wrote, in execution order; `count` is what the last writer wrote |
| AccumulatorWorkflow.AccumulatorExample | 05_langgraph_foundation.py:293 | from {messages [], count 0} the result is the three messages in order, with count 3 |
| LoopWorkflow.Apply | 05_langgraph_foundation.py:305-309 | `counter` and `max_iterations` are overwritten and `results` appended to; `IncrementStep` states the merged result |
| LoopWorkflow.Edges | 05_langgraph_foundation.py:334-344 | increment routes "continue" back to itself and "end" to END; `IncrementStep` and `LoopRun` state where a run goes |
| LoopWorkflow.IncrementNode | 05_langgraph_foundation.py:311-318 | increment writes `counter` + 1 and a one-element list holding it; `IncrementStep` states its effect |
| LoopWorkflow.ShouldContinue | 05_langgraph_foundation.py:320-327 | returns "continue" while `counter` is below `max_iterations`, "end" otherwise; `IncrementStep` and `LoopExitCondition` state where it leads |
| LoopWorkflow.IncrementStep | 05_langgraph_foundation.py:311-344 | increment adds one to `counter` and appends the new value to `results`; the run loops back while the new counter is below the maximum, and ends otherwise |
| LoopWorkflow.LoopRun | 05_langgraph_foundation.py:311-344 | with enough budget, the loop ends with the counter advanced by the number of iterations, each new counter appended to `results` in order, and `max_iterations` unchanged |
| LoopWorkflow.LoopExitCondition | 05_langgraph_foundation.py:320-327 | the loop ends only once the counter has reached the maximum; a counter already at or past it is incremented once |
| LoopWorkflow.LoopStepLimit | 05_langgraph_foundation.py:337-344 | a budget below the number of iterations stops the run after exactly that many executions of increment |
| LoopWorkflow.LoopExample | 05_langgraph_foundation.py:348 | from {counter 0, max_iterations 5, results []} the final state is counter 5 with results [1, 2, 3, 4, 5] |
| ErrorWorkflow.Apply | 05_langgraph_foundation.py:359-364 | each field is overwritten by what a node returns; `ErrorRun` states the merged result |
| ErrorWorkflow.Edges | 05_langgraph_foundation.py:427-437 | operation routes by `StatusRoutes` ("success" and "error" to the node of that name) and both handlers go to END; `StatusAlwaysRouted` and `ErrorRun` state where a run goes |
| ErrorWorkflow.RiskyOperation | 05_langgraph_foundation.py:366-396 | status is "success" exactly for a positive input, with an empty error; otherwise it is "error" with result 0; the input is never written |
| ErrorWorkflow.HandleSuccess | 05_langgraph_foundation.py:406-409 | writes the final status "completed"; `ErrorRun` states it |
| ErrorWorkflow.HandleError | 05_langgraph_foundation.py:411-414 | writes the final status "failed"; `ErrorRun` states it |
| ErrorWorkflow.RouteByStatus | 05_langgraph_foundation.py:416-418 | returns the state's `status` as the routing key; `StatusAlwaysRouted` states that it is always mapped |
| ErrorWorkflow.StatusAlwaysRouted | 05_langgraph_foundation.py:416-435 | the status left by risky_operation is always a key of the mapping, and it selects `success` exactly for a positive input |
| ErrorWorkflow.ErrorRun | 05_langgraph_foundation.py:366-437 | every run ends "completed" with an empty error for a positive input, or "failed" with the negative-number or division-by-zero message and result 0 |
| ErrorWorkflow.ErrorExamples | 05_langgraph_foundation.py:442-452 | input 10 completes; inputs 0 and -5 fail with their messages |
| DataPipeline.Apply | 05_langgraph_foundation.py:462-468 | `errors` is appended to and the other fields overwritten; `AcceptedWrites` and `RejectedWrites` state the merged result of validate |
| DataPipeline.Edges | 05_langgraph_foundation.py:548-562 | load → clean → validate, then `ValidationRoutes` ("valid" to process, "invalid" to handle_invalid), and both end at END; `ValidationAlwaysRouted` and `PipelineFromClean` state where a run goes |
| DataPipeline.Fields | 05_langgraph_foundation.py:492 | there is one field per comma-separated piece |
| DataPipeline.StripEach | 05_langgraph_foundation.py:492 | stripping each piece keeps the number of pieces |
| DataPipeline.FieldsAreStrippedPieces | 05_langgraph_foundation.py:492 | each field is the stripped piece at the same position, so no field starts or ends with whitespace |
| DataPipeline.ValidateData | 05_langgraph_foundation.py:481-513 | validate writes only `validated` and `errors`: it accepts with no error, or rejects with exactly one error |
| DataPipeline.ValidateChecksInOrder | 05_langgraph_foundation.py:484-511 | the checks run in order (field count, then email, then age as an integer, then age range), and the first failure names the error; the count fails exactly when the line lacks exactly two commas |
| DataPipeline.ValidateAcceptsWellFormed | 05_langgraph_foundation.py:481-513 | validate accepts exactly the lines with three fields, an `@` in the email and an integer age in [0, 150] |
| DataPipeline.AcceptedWrites | 05_langgraph_foundation.py:513 | an accepted record only gains `validated` true |
| DataPipeline.RejectedWrites | 05_langgraph_foundation.py:486-511 | a rejected record gains `validated` false, with the one error appended to the old ones |
| DataPipeline.CategoryOf | 05_langgraph_foundation.py:525 | the category is "adult" exactly from age 18 on, and "minor" below |
| DataPipeline.LoadData | 05_langgraph_foundation.py:470-473 | stores the fixed sample line as `raw_data`; `LoadThenClean` states it |
| DataPipeline.CleanData | 05_langgraph_foundation.py:475-479 | stores the stripped raw line as `cleaned_data`; `CleanThenValidate` states it |
| DataPipeline.ProcessData | 05_langgraph_foundation.py:515-528 | builds the person from the three stripped fields (`PersonFrom`), raising when the line does not split into three pieces or the age does not parse; `ValidatedRecordIsProcessed` states that an accepted line never raises |
| DataPipeline.HandleInvalidData | 05_langgraph_foundation.py:530-533 | stores empty processed data; `HandleInvalidThenEnd` states it |
| DataPipeline.RouteValidation | 05_langgraph_foundation.py:535-537 | returns "valid" or "invalid" from `validated`; `ValidationAlwaysRouted` states where it leads |
| DataPipeline.ValidatedRecordIsProcessed | 05_langgraph_foundation.py:515-528 | process does not raise on an accepted record; it writes only `processed_data`, copying the email (which holds `@`) and the status, and its age in [0, 150] agrees with the category |
| DataPipeline.ValidationAlwaysRouted | 05_langgraph_foundation.py:535-559 | after validate the router's key is always in the mapping; it leads to `process` exactly for a well-formed line, and to `handle_invalid` otherwise |
| DataPipeline.LoadThenClean | 05_langgraph_foundation.py:470-473 | load stores the fixed line and hands the run to clean |
| DataPipeline.CleanThenValidate | 05_langgraph_foundation.py:475-479 | clean stores the stripped raw line and hands the run to validate |
| DataPipeline.ValidateThenProcess | 05_langgraph_foundation.py:552-559 | validate accepts a well-formed line and hands it to process |
| DataPipeline.ValidateThenHandleInvalid | 05_langgraph_foundation.py:552-559 | validate rejects any other line, appends its error, and hands the run to handle_invalid |
| DataPipeline.ProcessThenEnd | 05_langgraph_foundation.py:515-528 | process stores the parsed person, and the run ends |
| DataPipeline.HandleInvalidThenEnd | 05_langgraph_foundation.py:530-533 | handle_invalid stores the empty processed data, and the run ends |
| DataPipeline.ValidFromValidate | 05_langgraph_foundation.py:552-561 | from validate, a well-formed line runs validate and process, and ends processed |
| DataPipeline.InvalidFromValidate | 05_langgraph_foundation.py:552-562 | from validate, any other line runs validate and handle_invalid, and ends with empty processed data and the error appended |
| DataPipeline.PipelineFromValidate | 05_langgraph_foundation.py:481-562 | from validate, for any cleaned line: a well-formed line ends processed with no new error; any other line ends with empty processed data and exactly one new error; the raw and cleaned lines are unchanged |
| DataPipeline.PipelineFromClean | 05_langgraph_foundation.py:475-562 | from clean, for any raw line: the stripped line is stored and then validated, ending as above |
| DataPipeline.SampleRecordStripped | 05_langgraph_foundation.py:473-478 | the loaded line "  user@example.com, 25, active  " strips to "user@example.com, 25, active" |
| DataPipeline.SampleRecordSplit | 05_langgraph_foundation.py:484 | the cleaned line splits into "user@example.com", " 25" and " active" |
| DataPipeline.SampleRecordFields | 05_langgraph_foundation.py:492 | its fields are "user@example.com", "25" and "active" |
| DataPipeline.SampleAgeParsed | 05_langgraph_foundation.py:501 | `int("25")` is 25 |
| DataPipeline.SampleRecordWellFormed | 05_langgraph_foundation.py:481-528 | the cleaned sample is accepted, and processes to {email "user@example.com", age 25, status "active", category "adult"} |
| DataPipeline.ExampleFromClean | 05_langgraph_foundation.py:475-562 | from clean, with the fixed line loaded, the run cleans, validates and processes it |
| DataPipeline.PipelineExample | 05_langgraph_foundation.py:566-576 | whatever the initial state, the run executes load, clean, validate and process; it ends with the sample person and adds no error (so `errors` stays [] from the script's initial state) |

## Left out

- `streamlit_blog_app.py`: a user interface around language-model calls, with no behaviour that can be stated.
- The LangGraph runtime itself (`StateGraph`, `compile`, super-step scheduling, checkpointing, compile-time graph checks). The interpreter in `Graph` covers only what these graphs use. Its `fuel` stands for the recursion limit, whose value is not modelled.
- `Graph.UnmappedRoute`: it exists only to keep the interpreter total. The lemmas `CategoryAlwaysRouted`, `StatusAlwaysRouted`, `ValidationAlwaysRouted` and the loop lemmas show that no graph here reaches it.
- Real parallelism of the fan-out: the branches are applied in sequence, in any order, or all from one common state. `parallel_workflow.invoke` is modelled apart from the interpreter.
- ErrorWorkflow.RiskyOperation: the float `100 / input_value` is kept exact as `HundredOver(input_value)`, because Dafny has no floating point. The `except Exception` branch is not modelled, because the explicit checks make it unreachable.
- Text.ParseInt: does not accept underscores between digits (`int("1_0")` is 10) or non-ASCII decimal digits, which `int()` accepts. It also has no limit on length, whereas CPython (3.11 on, by default) raises ValueError when a decimal string has more than 4300 digits, leading zeros included. The only line the scripts validate is the fixed sample, whose age is "25". `int()`'s own whitespace stripping is not needed, because the field it is given is already stripped.
- DataPipeline.ValidateAcceptsWellFormed, DataPipeline.ValidateChecksInOrder: because of the line above, these lemmas differ from validate_data (05_langgraph_foundation.py:501) in two cases.
  - An age written with underscores or non-ASCII digits: they say validate rejects it with "Age must be a number", where validate_data accepts it.
  - An age of more than 4300 digits: validate_data reports "Age must be a number", where they say the line is accepted (for example 4299 zeros followed by "25") or rejected with "Age out of valid range".
- The copies of the linear, parallel and conditional examples in 05_langgraph_foundation.py:56-250: the separate scripts are modelled instead. That copy's summary_node (05_langgraph_foundation.py:135-139) renders an f-string, whose exact text is not modelled.
- Text.IntToString, ConditionalWorkflow.ConditionalRun: `str(n)` and f-strings raise ValueError in CPython for an integer of more than 4300 digits, and the model renders every integer. So for `abs(number) >= 10^4300` Python's run raises: the print in categorize (conditional_workflow.py:29) is the first to fail. ConditionalRun instead says the run reaches END with the rendered text.
- ErrorWorkflow.ErrorRun, LoopWorkflow.LoopRun: the prints are dropped, and with them the ValueError an f-string raises for an integer of more than 4300 digits.
  - risky_operation's print (05_langgraph_foundation.py:369) is inside its `try`. So for `input_value >= 10^4300` Python ends "failed" through the `except ValueError` at line 390, where ErrorRun says "completed". For `input_value <= -10^4300` the run also fails, but with the conversion's message as the error rather than "Negative numbers not allowed!".
  - The prints in increment_node and should_continue (05_langgraph_foundation.py:314, 323, 326) raise once a counter or the maximum reaches 4301 digits, where LoopRun goes on.
- All other `print` calls, console banners and the documentation sections at 05_langgraph_foundation.py:579-834: output only.
- The `summary` field is annotated `str` but receives a dictionary; the model stores the dictionary, as the code does.
