# Raster planning pipeline of tesseract_planning, modelled in Dafny

This project models the core of the task-composer raster pipeline of
tesseract_planning and the planning steps it is built from:

- **RasterMotionTask** (`RasterConfig`, `RasterGraph`, `RasterMotionTask`):
  - construction from a configuration entry;
  - `createTask`, which instantiates a freespace, raster or transition node template, remapping its keys and then indexing them with a 1-based instance number;
  - `checkTaskInput`;
  - `runImpl`. A program `[from_start, raster 1, transition 1, ..., raster R, to_end]` is split into segments. Each segment except from_start gets the last move of the element before it prepended. Each segment gets its own node. The segment inputs are staged in the data storage. `runImpl` builds the layered sub-graph (start → rasters → update/mux nodes → transitions and freespace), hands it to an executor, and stitches the segment outputs back into one program, stripping the prepended moves.
- **SimpleMotionLegacyPlanner** (`SimpleMotionLegacyPlanner`):
  - `checkUserInput` and `getStartInstruction`;
  - `processCompositeInstruction`. This walks the program and replaces each move by the seed its plan profile generates. It threads the previous instruction and the previous seed move through nested composites in document order;
  - `solve`.
- **MotionPlannerTaskGenerator** (`MotionPlannerTaskGenerator`): `conditionalProcess` and `process`. The generator validates its input, combines the manipulator info, and splices in the neighbouring start and end instructions. It then calls the planner and records one task info.
- **ContinuousContactCheckTask** (`ContinuousContactCheckTask`): construction from a configuration, and `runImpl` around an abstract contact check.
- **waypoint_type.cpp** (`WaypointType`): the four waypoint type tests.

Shared foundations:
- `Instructions`: instruction trees, the document-order move list, first/last move search, and the last-move waypoint assignment.
- `TaskComposerData`: the data storage and the node info.
- `Strings`: decimal rendering of indices.
- `Wrappers`: `Option`, `Result` and `Outcome`.

`RasterExample` is the repository's raster example program with poses reduced to two numbers. It serves as a fixture for the shape lemmas.

How the source's behaviour maps onto the model:
- **Exceptions** become `Err(message)`, with the source's message where it has one.
- **Undefined behaviour the source guards only with `assert`** becomes a precondition:
  - a missing last move in a segment (`SegmentsHaveMoves`);
  - a missing first or last move in a start or end composite (`SourceAssertions`).
- **Other undefined behaviour** becomes an `Err` with a message of the model's own:
  - `erase(begin())` on an empty composite;
  - `back()` of an empty seed;
  - a null first or last move that is dereferenced;
  - a missing joint group.
- **Opaque collaborators are function-typed parameters**: the plugin factory, the executor, plan profiles, the planner, the contact check and the scene state.
- **Node uuids** are modelled as storage keys `Uuid(NodeId)`. These are distinct from every configured key name by construction.

`getStartInstruction` also accepts a Cartesian start waypoint: it replaces it by a state waypoint at the current joint values (simple_motion_legacy_planner.cpp:154-162). Only waypoints that are neither joint, Cartesian nor state throw. The model follows the code.

Profile selection in `processCompositeInstruction` pairs a move's profile with its *path*-profile overrides when it has no path profile, and its path profile with its *profile* overrides otherwise (lines 217-231). The model keeps this pairing as written (`SelectProfile`).

## Model

| member | source | states |
|---|---|---|
| WaypointType.IsCartesianWaypoint | tesseract_command_language/src/waypoint_type.cpp:40-43 | holds exactly for Cartesian waypoints |
| WaypointType.IsJointWaypoint | tesseract_command_language/src/waypoint_type.cpp:45-48 | holds exactly for joint waypoints |
| WaypointType.IsStateWaypoint | tesseract_command_language/src/waypoint_type.cpp:50-53 | holds exactly for state waypoints |
| WaypointType.IsNullWaypoint | tesseract_command_language/src/waypoint_type.cpp:55-58 | holds exactly for null waypoints |
| WaypointType.AtMostOneTypeTest | tesseract_command_language/src/waypoint_type.cpp:40-58 | at most one of the four tests holds of any waypoint, and none holds exactly for user-defined waypoint types |
| Instructions.FirstMoveIsHeadOfFlatten | tesseract_motion_planners/core/src/simple/simple_motion_legacy_planner.cpp:173 | the depth-first search for the first move finds the first move of the document order (nested composites included) |
| Instructions.LastMoveIsLastOfFlatten | tesseract_task_composer/src/nodes/raster_motion_task.cpp:330 | the backward search for the last move finds the last move of the document order |
| Instructions.StripFirstUndoesPrepend | tesseract_task_composer/src/nodes/raster_motion_task.cpp:332 | erasing the first element undoes inserting a move at the front |
| Instructions.AssignLastMoveWaypointSpec | tesseract_process_managers/src/task_generators/motion_planner_task_generator.cpp:121-126 | assigning a waypoint to the last move changes only that move's waypoint: same top-level length, same other fields, document-order moves equal to the old ones with the last waypoint replaced; of the elements only the last one holding a move differs (a move gets the waypoint, a composite is assigned recursively), and without any move nothing changes |
| Instructions.AssignLastBeforeFrame | tesseract_process_managers/src/task_generators/motion_planner_task_generator.cpp:121-126 | the backward assignment over `elems[..j]` touches exactly one element, the last one before j that holds a move, or nothing when none does |
| Strings.NatToStringInjective | tesseract_task_composer/src/nodes/raster_motion_task.cpp:67 | distinct indices have distinct decimal renderings |
| Strings.SuffixedKeysDiffer | tesseract_task_composer/src/nodes/raster_motion_task.cpp:65-68 | one key suffixed with two distinct indices gives two distinct keys |
| TaskComposerData.SetAllSpec | tesseract_task_composer/src/nodes/raster_motion_task.cpp:338 | a run of `setData` calls leaves unwritten keys unchanged and adds exactly the written keys |
| TaskComposerData.SetAllLastWrite | tesseract_task_composer/src/nodes/raster_motion_task.cpp:380 | a key holds the value of the last write to it |
| RasterConfig.CreateTask | tesseract_task_composer/src/nodes/raster_motion_task.cpp:43-85 | the node gets the given name and task; each key is remapped and then, if on the indexing list, gets the decimal index appended; the returned keys are the first input and output keys |
| RasterConfig.InstancesDoNotShareIndexedKeys | tesseract_task_composer/src/nodes/raster_motion_task.cpp:57-70 | two instances with different indices never share an indexed input key; unindexed keys are the same in every instance |
| RasterConfig.InstancesDoNotShareIndexedOutputKeys | tesseract_task_composer/src/nodes/raster_motion_task.cpp:60-79 | the same for output keys |
| RasterConfig.IndexedKeysOfDifferentNamesCanMeet | tesseract_task_composer/src/nodes/raster_motion_task.cpp:63-79 | isolation is per key name only: "a1" at instance 2 and "a" at instance 12 both become "a12" |
| RasterConfig.ParseEntry | tesseract_task_composer/src/nodes/raster_motion_task.cpp:124-166 | an entry parses exactly when it is present with 'task', 'input_indexing' and 'output_indexing'; absent remappings are empty; each missing field gives its own message, in the order the fields are read |
| RasterConfig.FromConfig | tesseract_task_composer/src/nodes/raster_motion_task.cpp:107-255 | construction succeeds exactly for one input key, one output key and three complete entries; each error in reading order: the input count, the output count, then the first incomplete entry of freespace, raster and transition with that entry's parse error; the three factories are `createTask` over their entries |
| RasterGraph.EdgesExactly | tesseract_task_composer/src/nodes/raster_motion_task.cpp:340-432 | the edges added are exactly start → raster i, raster j and raster j+1 → mux j → transition j, raster 1 → update-end → from_start, raster R → update-start → to_end |
| RasterGraph.NodesExactly | tesseract_task_composer/src/nodes/raster_motion_task.cpp:310-427 | the nodes added are exactly start, rasters 1..R, transitions and muxes 1..R-1 and the four boundary nodes, each once |
| RasterGraph.NodeIdsRoundTrip | tesseract_task_composer/src/nodes/raster_motion_task.cpp:310-427 | the position of a node in the order of addition and its identity determine each other |
| RasterGraph.EdgesAreLayered | tesseract_task_composer/src/nodes/raster_motion_task.cpp:340-432 | every edge joins two planned nodes and goes down at least one layer |
| RasterGraph.PathsDescend | tesseract_task_composer/src/nodes/raster_motion_task.cpp:340-432 | along a path the layer grows by at least one per edge |
| RasterGraph.Acyclic | tesseract_task_composer/src/nodes/raster_motion_task.cpp:340-432 | no path of one edge or more returns to its first node |
| RasterGraph.ReachableFromStart | tesseract_task_composer/src/nodes/raster_motion_task.cpp:340-432 | every planned node is reachable from the start node |
| RasterGraph.MuxJoinsNeighbouringRasters | tesseract_task_composer/src/nodes/raster_motion_task.cpp:371-384 | mux j has an incoming edge from exactly rasters j and j+1 |
| RasterMotionTask.CheckTaskInputAsWritten | tesseract_task_composer/src/nodes/raster_motion_task.cpp:474-502 | passes exactly for a non-null, composite, non-empty program whose elements are all composites; otherwise fails with the message of the first failing check |
| RasterMotionTask.CheckTaskInput | tesseract_task_composer/src/nodes/raster_motion_task.cpp:474-502 | the corrected check: passes exactly for composite programs of odd length at least 3 whose elements are all composites; keeps every message of the original |
| RasterMotionTask.LoopIndices | tesseract_task_composer/src/nodes/raster_motion_task.cpp:318 | the stride-2 loop visits from, from+2, ... below the bound, and ceil((bound-from)/2) indices in all |
| RasterMotionTask.SegmentLayout | tesseract_task_composer/src/nodes/raster_motion_task.cpp:316-387 | for n ≥ 3, rasters sit at 1, 3, ..., transitions at 2, 4, ..., there are (n-1)/2 rasters and one transition fewer, and n = 3 has no transitions |
| RasterMotionTask.TransitionPositionsAsWrittenAgree | tesseract_task_composer/src/nodes/raster_motion_task.cpp:349 | from two elements on, the unsigned loop bound `size() - 2` is the mathematical one |
| RasterMotionTask.ShortProgramsPassAsWritten | tesseract_task_composer/src/nodes/raster_motion_task.cpp:318-396 | one- and two-element programs pass the original check, yet no raster is made, so `raster_tasks[0]` has nothing to read; for one element the transition loop starts past the end |
| RasterMotionTask.ContinuityInput | tesseract_task_composer/src/nodes/raster_motion_task.cpp:320-332 | a segment input is the segment, with combined manipulator info, behind the last move of the element before it |
| RasterMotionTask.RasterSegment | tesseract_task_composer/src/nodes/raster_motion_task.cpp:316-343 | raster i sits at position 2i-1, gets the continuity input, and is made by the raster factory with name "Raster #i: ..." and instance i |
| RasterMotionTask.TransitionSegment | tesseract_task_composer/src/nodes/raster_motion_task.cpp:345-369 | transition j sits at position 2j, gets the continuity input, and is made by the transition factory with name "Transition #j: ..." and instance j |
| RasterMotionTask.MakePlan | tesseract_task_composer/src/nodes/raster_motion_task.cpp:304-432 | (n-1)/2 rasters and one transition fewer; from_start is element 0 with no prepended move and freespace instance 1; to_end is the last element with the continuity move and freespace instance 2 |
| RasterMotionTask.PlanGraph | tesseract_task_composer/src/nodes/raster_motion_task.cpp:305-432 | the sub-graph has 3R+3 nodes in the order they are added, and exactly the planned edges |
| RasterMotionTask.PlanWrites | tesseract_task_composer/src/nodes/raster_motion_task.cpp:338-429 | in order: each raster input under its node's input key, each transition input under its mux's uuid, then the from_start and to_end inputs under their update nodes' uuids |
| RasterMotionTask.StagedStorageHoldsSegmentInputs | tesseract_task_composer/src/nodes/raster_motion_task.cpp:338-429 | the executor sees each transition, from_start and to_end input under its node's uuid, each raster input under its key (unless a later raster reuses the key), and every other name unchanged |
| RasterMotionTask.StitchFrom | tesseract_task_composer/src/nodes/raster_motion_task.cpp:445-464 | stitching succeeds exactly when every segment output reads as a composite (non-empty where it is stripped); then element k is the output of the k-th segment in from_start, raster, transition, ..., to_end order, stripped except for from_start |
| RasterMotionTask.FirstFailure | tesseract_task_composer/src/nodes/raster_motion_task.cpp:445-464 | the index of the first segment output, in reading order, that cannot be read as a composite or erased from: every earlier one can |
| RasterMotionTask.StitchFromReportsFirstFailure | tesseract_task_composer/src/nodes/raster_motion_task.cpp:445-464 | a failed stitch fails with the error of that first failing segment output |
| RasterMotionTask.SegmentAtPosition | tesseract_task_composer/src/nodes/raster_motion_task.cpp:445-464 | output element k comes from input position k, except that to_end comes from the last position |
| RasterMotionTask.EvenProgramLosesSegment | tesseract_task_composer/src/nodes/raster_motion_task.cpp:316-464 | an even-length program passes the original check, yet no output element comes from element n-2 and the output has n-1 elements |
| RasterMotionTask.OddProgramUsesEverySegment | tesseract_task_composer/src/nodes/raster_motion_task.cpp:316-464 | for odd length, output element k comes from input element k, for every k < n |
| RasterMotionTask.PieceOfEchoedOutput | tesseract_task_composer/src/nodes/raster_motion_task.cpp:446-463 | an echoed segment output, stripped, is the segment with combined manipulator info |
| RasterMotionTask.StitchOfEchoedOutputs | tesseract_task_composer/src/nodes/raster_motion_task.cpp:445-464 | if every segment node echoes its input, stitching gives back the program's elements with combined manipulator info |
| RasterMotionTask.RunPlanned | tesseract_task_composer/src/nodes/raster_motion_task.cpp:338-471 | the segment inputs are staged, then: no executor gives the exception; an aborted sub-run gives outcome 0, "Raster subgraph failed" and the sub-run's storage, output key untouched; otherwise a failed stitch gives its exception, and a successful one writes the stitched program (other fields from the input, 2R+1 elements) to the output key with outcome 1 and "Successful" |
| RasterMotionTask.PassedInputIsPlannable | tesseract_task_composer/src/nodes/raster_motion_task.cpp:328-331 | a program that passes the check and has the moves the source asserts can be planned |
| RasterMotionTask.Run | tesseract_task_composer/src/nodes/raster_motion_task.cpp:272-472 | aborted on entry: outcome 0, "Aborted", storage unchanged; invalid input: outcome 0 with the check's message, storage unchanged; otherwise the planned run of the program's plan; with the corrected check (see Findings) outcome 1 only for an odd-length raster program of at least 3 composites, and then the output has the input's fields and length |
| RasterMotionTask.RunWithEchoingSubgraph | tesseract_task_composer/src/nodes/raster_motion_task.cpp:272-472 | end to end, an echoing sub-graph makes the task write the input program, with combined segment manipulator info, to the output key |
| RasterMotionTask.RunWithEchoingSubgraphReturnsProgram | tesseract_task_composer/src/nodes/raster_motion_task.cpp:437-471 | with an echoing sub-graph and segments whose manipulator info already holds every field the program's combined info sets, the output equals the input program |
| RasterExample.ExampleProgramIsARasterProgram | tesseract_task_composer/examples/raster_example_program.h:41-145 | the example program passes the check and can be planned: 4 rasters, 3 transitions, 15 nodes; raster 2 starts from transition 1's move |
| SimpleMotionLegacyPlanner.GetStartInstruction | tesseract_motion_planners/core/src/simple/simple_motion_legacy_planner.cpp:130-181 | the result always has a state waypoint: joint start → same names and positions; Cartesian start → current joint values; state start → unchanged; other types → "Unsupported waypoint type!"; no start → the first move in document order, typed START, at the current joint values; failure when there is no move |
| SimpleMotionLegacyPlanner.NextMove | tesseract_motion_planners/core/src/simple/simple_motion_legacy_planner.cpp:204-213 | the first move instruction strictly after position i among the composite's own elements, or none if there is none |
| SimpleMotionLegacyPlanner.ProcessComposite | tesseract_motion_planners/core/src/simple/simple_motion_legacy_planner.cpp:183-253 | the seed mirrors the composite: same fields, one element per element, other instructions copied, moves replaced by composites that end in a move, nested composites mirrored recursively |
| SimpleMotionLegacyPlanner.ProcessFrom | tesseract_motion_planners/core/src/simple/simple_motion_legacy_planner.cpp:191-251 | from element i on, one seed element per element, each mirroring its element |
| SimpleMotionLegacyPlanner.ProcessCompositeThreadsLastMove | tesseract_motion_planners/core/src/simple/simple_motion_legacy_planner.cpp:197-198 | after a composite, the previous instruction is its last move in document order, or unchanged if it has none |
| SimpleMotionLegacyPlanner.ProcessFromThreadsLastMove | tesseract_motion_planners/core/src/simple/simple_motion_legacy_planner.cpp:244-245 | after elements i.., the previous instruction is their last move in document order, nested ones included |
| SimpleMotionLegacyPlanner.ProcessCompositeGenerates | tesseract_motion_planners/core/src/simple/simple_motion_legacy_planner.cpp:183-253 | the j-th generated seed in document order is what the j-th move's profile generates from the move before it (or the start), the last move of the seed before it (or the start seed), the move and its next move; afterwards the previous seed is the last move of the last generated seed |
| SimpleMotionLegacyPlanner.ProcessFromGenerates | tesseract_motion_planners/core/src/simple/simple_motion_legacy_planner.cpp:191-251 | the same for elements i.. |
| SimpleMotionLegacyPlanner.ProcessCompositeNeedsProfiles | tesseract_motion_planners/core/src/simple/simple_motion_legacy_planner.cpp:215-234 | a composite is only processed when every one of its moves, nested ones included, resolves to a non-null profile |
| SimpleMotionLegacyPlanner.ProcessFromNeedsProfiles | tesseract_motion_planners/core/src/simple/simple_motion_legacy_planner.cpp:215-234 | the same for elements i.. |
| SimpleMotionLegacyPlanner.Solve | tesseract_motion_planners/core/src/simple/simple_motion_legacy_planner.cpp:63-271 | the request is rejected as invalid exactly when it has no environment or no instruction; start-instruction failures escape; processing failures: unsuccessful with "Failed to find valid solution"; success: "Found valid solution" and exactly the processed seed, its start set to the start instruction typed START, which has a state waypoint; the seed mirrors the instructions |
| SimpleMotionLegacyPlanner.SolveGeneratesInOrder | tesseract_motion_planners/core/src/simple/simple_motion_legacy_planner.cpp:84-107 | a solution's seeds were generated in document order, the first from the start instruction and the start seed |
| MotionPlannerTaskGenerator.SpliceStart | tesseract_process_managers/src/task_generators/motion_planner_task_generator.cpp:90-111 | a composite start gives its last move in document order as the start, a move start gives itself, both typed START; null or other leaves the program unchanged; nothing but the start changes |
| MotionPlannerTaskGenerator.AssignEndWaypoint | tesseract_process_managers/src/task_generators/motion_planner_task_generator.cpp:121-144 | succeeds exactly for Cartesian, joint and state waypoints on a program with a move, replacing only the last move's waypoint; other types give "Invalid waypoint type" |
| MotionPlannerTaskGenerator.SpliceEnd | tesseract_process_managers/src/task_generators/motion_planner_task_generator.cpp:112-147 | a composite end contributes its first move's waypoint, a move end its own waypoint; null or other leaves the program unchanged |
| MotionPlannerTaskGenerator.ConditionalProcess | tesseract_process_managers/src/task_generators/motion_planner_task_generator.cpp:46-197 | aborted: 0 and nothing changes; non-composite instructions or seed: 0 and one info with the matching message; planner success: 1 and the results replaced; failure: 0, results untouched, the planner's message; one info appended on every non-aborted path; only the results and infos change |
| MotionPlannerTaskGenerator.PlannerSeesSplicedProgram | tesseract_process_managers/src/task_generators/motion_planner_task_generator.cpp:81-159 | the planner is given the program with combined manipulator info, the same top-level length and other fields; its start is the last move of a composite start instruction or the move start instruction, typed START, or else the program's own, so it has a start exactly when the program or the start instruction supplies one (the assert at line 150 is not assumed); its moves are the program's, with the waypoint of a move end instruction, or of a composite end instruction's first move, on the last one |
| MotionPlannerTaskGenerator.Process | tesseract_process_managers/src/task_generators/motion_planner_task_generator.cpp:199-202 | the same effect as `conditionalProcess`, the returned value dropped |
| ContinuousContactCheckTask.FromConfig | tesseract_task_composer/src/nodes/continuous_contact_check_task.cpp:54-65 | construction succeeds exactly for one input key; no key and several keys each give their message |
| ContinuousContactCheckTask.Run | tesseract_task_composer/src/nodes/continuous_contact_check_task.cpp:67-135 | aborted: 0 and "Aborted"; null or non-composite input: 0 and its message; a throwing check escapes; contacts found: 0, the not-contact-free message with the description, and the contacts recorded; no contacts: 1 and "Continuous contact check succeeded"; the storage is only read |
| ContinuousContactCheckTask.MessageAgreesWithReturnValue | tesseract_task_composer/src/nodes/continuous_contact_check_task.cpp:74-134 | when the task returns, the outcome is 1 exactly when the message is the success message |

## Left out

- Timers and `elapsed_time`, console logging, boost serialization, `operator==`, `clone`, `terminate` and `clear`: these do not affect outcomes.
- Enforcing joint limits on the seed in `solve` (simple_motion_legacy_planner.cpp:113-122): it is floating-point clamping against the environment's limits.
- The executor, futures and waiting: `executor.run(...)->wait()` is a function parameter that returns the storage and the abort flag after the sub-run. The update tasks that run inside the sub-graph are not part of this model.
- YAML parsing: configurations arrive already converted (`TaskConfig`, the input-key list). The base `TaskComposerTask(name, config)` constructor is not part of this model.
- `getProfileString`, `getProfile`, `applyProfileOverrides` and `generate`: together they form the `ProfileResolver` and `Generator` parameters. A `generate` that throws returns `Err`. `generate` is also passed the request and the program's manipulator info (simple_motion_legacy_planner.cpp:236-241); both are fixed for one `solve`, so they are part of the resolver a request carries. The planner is the `Planner` parameter.
- `getJointGroup`, `getStateSolver`, the contact manager, contact-profile lookup and `contactCheckProgram` of the contact task form the `ContactChecker` parameter. An exception in any of them, such as an unknown manipulator, is the checker's `Err`.
- The environment is reduced to a map from joint-group names to joint names, and the scene state to a function from joint names to values.
- `getFirstMoveInstruction`, `getLastMoveInstruction`, `renameInputKeys`/`renameOutputKeys`, `ManipulatorInfo::getCombined` and `std::to_string` are not part of this model. They are modelled as:
  - a depth-first search over the elements;
  - per-key lookup;
  - the argument's non-empty fields replacing those of the info it is called on;
  - decimal rendering.
- Storage writes made before an exception escapes `runImpl` (the staging before `executor.value()`) are not kept on the `Err` path.
- `TaskInfo` and `ContactInfo` omit the saved copies of inputs and outputs and the environment pointer.
- The default constructors and the constructors taking explicit keys are not modelled. They only store their arguments.
- Start and end instructions of a type other than composite or move: the source asserts this does not happen. The model leaves the program unchanged, as a build without assertions does.
- RasterConfig.InstancesDoNotShareIndexedKeys: isolation is stated for one key name across instances only, because two different names can collide (IndexedKeysOfDifferentNamesCanMeet).
- `ManipInfo` has no `tcp_offset`. Neither the offset nor `getCombined`'s rule that an identity offset counts as unset is modelled: no modelled code reads the offset.
- RasterConfig.CreateTask: the plugin factory is taken to return a node with at least one input and one output key (`Keys` is a non-empty list). A null node from `createTaskComposerNode` is dereferenced at line 53, and `front()` of an empty key list at lines 81-82 has no defined behaviour. Neither case is represented.
- RasterMotionTask.Run: applies the corrected `CheckTaskInput` (see Findings), not the source's check. An even-length program of at least 4 composites is rejected with the alternation message, where the source's `runImpl` plans it and reports success with n-1 elements. One- and two-element programs are rejected, where the source has undefined behaviour. What the source does with such programs is stated by `CheckTaskInputAsWritten`, `EvenProgramLosesSegment` (the plan of an even-length program, run by `RunPlanned`, never uses element n-2) and `ShortProgramsPassAsWritten`.
- MotionPlannerTaskGenerator.ConditionalProcess: the task info records the outcome and message only.

## Findings

| source | as written | input that shows it | evidently intended | confidence | as-written member | corrected member |
|---|---|---|---|---|---|---|
| tesseract_task_composer/src/nodes/raster_motion_task.cpp:474-502 | `checkTaskInput` accepts every non-empty program of composites, including even lengths | a four-element program `[from_start, raster, transition, to_end]`: element 2 gets no node and is missing from the output, which has three elements (RasterMotionTask.EvenProgramLosesSegment) | accept only odd lengths of at least 3 | not executed | RasterMotionTask.CheckTaskInputAsWritten | RasterMotionTask.CheckTaskInput |
| tesseract_task_composer/src/nodes/raster_motion_task.cpp:474-502 | `checkTaskInput` accepts one- and two-element programs | a one-element program: no raster node is made, `raster_tasks[0]` (line 396) reads an empty vector, and `program.size() - 2` wraps (RasterMotionTask.ShortProgramsPassAsWritten) | reject programs shorter than 3 | not executed | RasterMotionTask.CheckTaskInputAsWritten | RasterMotionTask.CheckTaskInput |
