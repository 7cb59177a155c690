/**
 * The raster example program of the task composer examples, with poses reduced to
 * (x, y) pairs and each raster reduced to its first and last move: from_start,
 * four rasters with a transition between each pair, and to_end.
 */
module RasterExample {
  import opened Wrappers
  import opened WaypointType
  import opened Instructions
  import opened TaskComposerData
  import opened RasterConfig
  import opened RasterMotionTask

  function Pose(x: real, y: real): Waypoint
  {
    CartesianWaypoint([x, y])
  }

  function MoveTo(wp: Waypoint, moveType: MoveType, profile: string, description: string): Move
  {
    Move(wp, moveType, profile, "", map[], map[], description)
  }

  function Segment(description: string, profile: string, moves: seq<Move>): Instr
  {
    CompositeInstr(Composite(description, profile, map[], ManipInfo("", "", "", ""), None,
                             seq(|moves|, k requires 0 <= k < |moves| => MoveInstr(moves[k]))))
  }

  const HOME := StateWaypoint(["joint_1", "joint_2", "joint_3", "joint_4", "joint_5", "joint_6"], [0.0, 0.0, 0.0, 0.0, 0.0, 0.0])

  /** Raster i (0-based) runs from y = -0.2 to 0.3 for even i and back from 0.2 to -0.3 for odd i. */
  function Raster(i: nat): Instr
  {
    var x := 0.8 + (i as real) * 0.1;
    var moves := if i % 2 == 0 then [MoveTo(Pose(x, -0.2), Linear, "PROCESS", ""), MoveTo(Pose(x, 0.3), Linear, "PROCESS", "")]
                 else [MoveTo(Pose(x, 0.2), Linear, "PROCESS", ""), MoveTo(Pose(x, -0.3), Linear, "PROCESS", "")];
    Segment("Raster #" + ["1", "2", "3", "4"][i % 4], "PROCESS", moves)
  }

  function Transition(i: nat, y: real): Instr
  {
    Segment("Transition #" + ["1", "2", "3"][i % 3], "DEFAULT",
            [MoveTo(Pose(0.8 + ((i + 1) as real) * 0.1, y), Freespace, "DEFAULT", "transition_from_end_plan")])
  }

  function ExampleProgram(): Composite
  {
    Composite("", "DEFAULT", map[], ManipInfo("manipulator", "", "base_link", "tool0"), None,
              [ Segment("from_start", "DEFAULT", [MoveTo(HOME, Freespace, "DEFAULT", "Start"),
                                                  MoveTo(Pose(0.8, -0.3), Freespace, "DEFAULT", "from_start_plan")]),
                Raster(0), Transition(0, 0.3), Raster(1), Transition(1, -0.3), Raster(2), Transition(2, 0.3), Raster(3),
                Segment("to_end", "DEFAULT", [MoveTo(HOME, Freespace, "DEFAULT", "to_end_plan")]) ])
  }

  /**
   * The example program passes the corrected check and can be planned: four rasters,
   * three transitions, and a sub-graph of 15 nodes; raster 2 starts from the last
   * move of transition 1.
   */
  lemma ExampleProgramIsARasterProgram(task: RasterTask, problemManip: ManipInfo)
    ensures CheckTaskInput(Some(CompositeData(ExampleProgram()))).Pass?
    ensures Plannable(ExampleProgram())
    ensures var p := MakePlan(task, ExampleProgram(), problemManip);
            && |p.rasters| == 4 && |p.transitions| == 3
            && |PlanGraph(p).nodes| == 15
            && p.rasters[1].input.elems[0] == MoveInstr(MoveTo(Pose(0.9, 0.3), Freespace, "DEFAULT", "transition_from_end_plan"))
  {
    var c := ExampleProgram();
    assert LastMove(c.elems[2].composite) == Some(MoveTo(Pose(0.9, 0.3), Freespace, "DEFAULT", "transition_from_end_plan"));
  }
}
