/**
 * The task generator that runs a motion planner on one task input: it checks that
 * the program and the seed are composites, combines the manipulator info, splices
 * the start and end instructions of the neighbouring segments into the program,
 * calls the planner, and on success replaces the seed with the planner's results.
 */
module MotionPlannerTaskGenerator {
  import opened Wrappers
  import opened WaypointType
  import opened Instructions

  const INVALID_WAYPOINT_TYPE := "Invalid waypoint type"
  /** `getLastMoveInstruction()` of a program without moves is dereferenced; the model fails there. */
  const NO_LAST_MOVE := "dereference of a missing last move instruction"

  function NotCompositeInstructions(name: string): string
  {
    "Input instructions to MotionPlannerTaskGenerator: " + name + " must be a composite instruction"
  }

  function NotCompositeSeed(name: string): string
  {
    "Input seed to MotionPlannerTaskGenerator: " + name + " must be a composite instruction"
  }

  /** `MotionPlannerTaskInfo`, without timing and the saved copies of the inputs. */
  datatype TaskInfo = TaskInfo(uniqueId: nat, name: string, returnValue: int, message: string)

  /**
   * The part of `TaskInput` the generator reads and writes: the abort flag, the
   * program segment, the seed (`results`), the manipulator info, the neighbouring
   * start and end instructions (`None` for a null instruction) and the task infos.
   */
  datatype TaskInput = TaskInput(
    aborted: bool,
    instruction: Instr,
    results: Instr,
    manipInfo: ManipInfo,
    startInstruction: Option<Instr>,
    endInstruction: Option<Instr>,
    taskInfos: seq<TaskInfo>)

  datatype PlannerRequest = PlannerRequest(instructions: Composite, seed: Composite)

  /** The planner's status (success and message) and its response's results. */
  datatype PlannerStatus = PlannerStatus(ok: bool, message: string, results: Composite)

  /** `MotionPlanner::solve`, which the generator only calls. */
  type Planner = PlannerRequest -> PlannerStatus

  /**
   * Setting the start: the last move of a composite start instruction, or a move
   * start instruction, becomes the program's start, typed as a start; any other
   * start instruction leaves the program as it is.
   */
  function SpliceStart(c: Composite, start: Option<Instr>): (r: Composite)
    requires start.Some? && start.value.CompositeInstr? ==> LastMove(start.value.composite).Some?
    ensures r.(start := c.start) == c
    ensures start.Some? && start.value.CompositeInstr? ==>
              && Last(Flatten(start.value.composite)).Some?
              && r.start == Some(Last(Flatten(start.value.composite)).value.(moveType := Start))
    ensures start.Some? && start.value.MoveInstr? ==> r.start == Some(start.value.move.(moveType := Start))
    ensures start.None? || start.value.OtherInstr? ==> r == c
  {
    match start
    case None => c
    case Some(CompositeInstr(ci)) =>
      LastMoveIsLastOfFlatten(ci);
      c.(start := Some(LastMove(ci).value.(moveType := Start)))
    case Some(MoveInstr(m)) => c.(start := Some(m.(moveType := Start)))
    case Some(OtherInstr(_)) => c
  }

  /** Assigning the end waypoint to the last move of the program, for the three waypoint types that can be assigned. */
  function AssignEndWaypoint(c: Composite, wp: Waypoint): (r: Result<Composite>)
    ensures r.Ok? <==> (wp.CartesianWaypoint? || wp.JointWaypoint? || wp.StateWaypoint?) && Flatten(c) != []
    ensures !(wp.CartesianWaypoint? || wp.JointWaypoint? || wp.StateWaypoint?) ==> r == Err(INVALID_WAYPOINT_TYPE)
    ensures (wp.CartesianWaypoint? || wp.JointWaypoint? || wp.StateWaypoint?) && Flatten(c) == [] ==>
              r == Err(NO_LAST_MOVE)
    ensures r.Ok? ==> && r.value.(elems := c.elems) == c
                      && |r.value.elems| == |c.elems|
                      && Flatten(r.value) == ReplaceLastWaypoint(Flatten(c), wp)
  {
    LastMoveIsLastOfFlatten(c);
    AssignLastMoveWaypointSpec(c, wp);
    if IsCartesianWaypoint(wp) || IsJointWaypoint(wp) || IsStateWaypoint(wp) then
      if LastMove(c).None? then Err(NO_LAST_MOVE) else Ok(AssignLastMoveWaypoint(c, wp))
    else Err(INVALID_WAYPOINT_TYPE)
  }

  /**
   * Setting the end: the waypoint of the first move of a composite end instruction,
   * or of a move end instruction, is assigned to the program's last move; any other
   * end instruction leaves the program as it is.
   */
  function SpliceEnd(c: Composite, end: Option<Instr>): (r: Result<Composite>)
    requires end.Some? && end.value.CompositeInstr? ==> FirstMove(end.value.composite).Some?
    ensures end.None? || end.value.OtherInstr? ==> r == Ok(c)
    ensures end.Some? && end.value.CompositeInstr? ==>
              && Head(Flatten(end.value.composite)).Some?
              && r == AssignEndWaypoint(c, Head(Flatten(end.value.composite)).value.waypoint)
    ensures end.Some? && end.value.MoveInstr? ==> r == AssignEndWaypoint(c, end.value.move.waypoint)
  {
    match end
    case None => Ok(c)
    case Some(CompositeInstr(ci)) =>
      FirstMoveIsHeadOfFlatten(ci);
      AssignEndWaypoint(c, FirstMove(ci).value.waypoint)
    case Some(MoveInstr(m)) => AssignEndWaypoint(c, m.waypoint)
    case Some(OtherInstr(_)) => Ok(c)
  }

  /** The program segment as it is handed to the planner. */
  function PlannerInstructions(input: TaskInput): Result<Composite>
    requires input.instruction.CompositeInstr?
    requires SourceAssertions(input)
  {
    var c := WithManip(input.instruction.composite, input.manipInfo);
    SpliceEnd(SpliceStart(c, input.startInstruction), input.endInstruction)
  }

  /**
   * What the source asserts of its input because it dereferences the answer: a
   * composite start instruction has a last move and a composite end instruction has
   * a first move.
   */
  predicate SourceAssertions(input: TaskInput)
  {
    && (input.startInstruction.Some? && input.startInstruction.value.CompositeInstr? ==>
          LastMove(input.startInstruction.value.composite).Some?)
    && (input.endInstruction.Some? && input.endInstruction.value.CompositeInstr? ==>
          FirstMove(input.endInstruction.value.composite).Some?)
  }

  /** The input reaches the planner call: not aborted, with composite instructions and seed. */
  predicate ReachesPlanner(input: TaskInput)
  {
    !input.aborted && input.instruction.CompositeInstr? && input.results.CompositeInstr?
  }

  function AddInfo(input: TaskInput, info: TaskInfo): TaskInput
  {
    input.(taskInfos := input.taskInfos + [info])
  }

  /**
   * `conditionalProcess`: the value it returns and the task input afterwards.  An
   * `Err` is the exception thrown for an end waypoint of another type.
   */
  function ConditionalProcess(name: string, planner: Planner, input: TaskInput, uniqueId: nat)
    : (r: Result<(int, TaskInput)>)
    requires ReachesPlanner(input) ==> SourceAssertions(input)
    ensures input.aborted ==> r == Ok((0, input))
    ensures r.Ok? ==> r.value.0 == 0 || r.value.0 == 1
    ensures r.Ok? ==> r.value.1.(results := input.results, taskInfos := input.taskInfos) == input
    ensures r.Ok? && !input.aborted ==>
              && |r.value.1.taskInfos| == |input.taskInfos| + 1
              && r.value.1.taskInfos[..|input.taskInfos|] == input.taskInfos
              && r.value.1.taskInfos[|input.taskInfos|].uniqueId == uniqueId
              && r.value.1.taskInfos[|input.taskInfos|].name == name
              && r.value.1.taskInfos[|input.taskInfos|].returnValue == r.value.0
    ensures !input.aborted && !input.instruction.CompositeInstr? ==>
              r == Ok((0, AddInfo(input, TaskInfo(uniqueId, name, 0, NotCompositeInstructions(name)))))
    ensures !input.aborted && input.instruction.CompositeInstr? && !input.results.CompositeInstr? ==>
              r == Ok((0, AddInfo(input, TaskInfo(uniqueId, name, 0, NotCompositeSeed(name)))))
    ensures !input.aborted && input.instruction.CompositeInstr? && input.results.CompositeInstr? ==>
              && (r.Err? <==> PlannerInstructions(input).Err?)
              && (r.Err? ==> r.message == PlannerInstructions(input).message)
              && (r.Ok? ==>
                    var status := planner(PlannerRequest(PlannerInstructions(input).value, input.results.composite));
                    && (status.ok ==> r.value.0 == 1 && r.value.1.results == CompositeInstr(status.results))
                    && (!status.ok ==> r.value.0 == 0 && r.value.1.results == input.results
                                       && r.value.1.taskInfos[|input.taskInfos|].message == status.message))
  {
    if input.aborted then Ok((0, input))
    else if !input.instruction.CompositeInstr? then
      Ok((0, AddInfo(input, TaskInfo(uniqueId, name, 0, NotCompositeInstructions(name)))))
    else if !input.results.CompositeInstr? then
      Ok((0, AddInfo(input, TaskInfo(uniqueId, name, 0, NotCompositeSeed(name)))))
    else
      match PlannerInstructions(input)
      case Err(e) => Err(e)
      case Ok(instructions) =>
        var status := planner(PlannerRequest(instructions, input.results.composite));
        if status.ok then
          Ok((1, AddInfo(input.(results := CompositeInstr(status.results)), TaskInfo(uniqueId, name, 1, ""))))
        else
          Ok((0, AddInfo(input, TaskInfo(uniqueId, name, 0, status.message))))
  }

  /** The program the planner is given has the start spliced in and the end waypoint assigned to its last move. */
  lemma PlannerSeesSplicedProgram(input: TaskInput)
    requires input.instruction.CompositeInstr? && SourceAssertions(input)
    requires PlannerInstructions(input).Ok?
    ensures var c := input.instruction.composite;
            var r := PlannerInstructions(input).value;
            && r.manip == Combined(c.manip, input.manipInfo)
            && (r.start.Some? <==>
                  || c.start.Some?
                  || (input.startInstruction.Some?
                      && (input.startInstruction.value.CompositeInstr? || input.startInstruction.value.MoveInstr?)))
            && r.(elems := c.elems, start := c.start, manip := c.manip) == c
            && |r.elems| == |c.elems|
            && (input.endInstruction.None? || input.endInstruction.value.OtherInstr? ==> Flatten(r) == Flatten(c))
            && (input.endInstruction.Some? && input.endInstruction.value.MoveInstr? ==>
                  Flatten(r) == ReplaceLastWaypoint(Flatten(c), input.endInstruction.value.move.waypoint))
            && (input.endInstruction.Some? && input.endInstruction.value.CompositeInstr? ==>
                  && Head(Flatten(input.endInstruction.value.composite)).Some?
                  && Flatten(r) == ReplaceLastWaypoint(Flatten(c),
                                                       Head(Flatten(input.endInstruction.value.composite)).value.waypoint))
            && (input.startInstruction.None? || input.startInstruction.value.OtherInstr? ==> r.start == c.start)
            && (input.startInstruction.Some? && input.startInstruction.value.MoveInstr? ==>
                  r.start == Some(input.startInstruction.value.move.(moveType := Start)))
            && (input.startInstruction.Some? && input.startInstruction.value.CompositeInstr? ==>
                  && Last(Flatten(input.startInstruction.value.composite)).Some?
                  && r.start == Some(Last(Flatten(input.startInstruction.value.composite)).value.(moveType := Start)))
  {
    var c := input.instruction.composite;
    var withManip := WithManip(c, input.manipInfo);
    var started := SpliceStart(withManip, input.startInstruction);
    MovesInFrame(started, c, 0, |c.elems|);
  }

  /** `process`: `conditionalProcess` with its return value dropped. */
  function Process(name: string, planner: Planner, input: TaskInput, uniqueId: nat): (r: Result<TaskInput>)
    requires ReachesPlanner(input) ==> SourceAssertions(input)
    ensures r.Ok? <==> ConditionalProcess(name, planner, input, uniqueId).Ok?
    ensures r.Ok? ==> r.value == ConditionalProcess(name, planner, input, uniqueId).value.1
  {
    match ConditionalProcess(name, planner, input, uniqueId)
    case Err(e) => Err(e)
    case Ok((_, after)) => Ok(after)
  }
}
