/**
 * The raster motion task: it validates a program laid out as
 * `[from_start, raster 1, transition 1, ..., raster R, to_end]`, gives each segment
 * its own node (made from the freespace, raster or transition template with a
 * 1-based instance index), stores each segment's input with the last move of the
 * preceding segment prepended for continuity, runs the resulting sub-graph, and
 * stitches the segment outputs back into one program.
 */
module RasterMotionTask {
  import opened Wrappers
  import opened Strings
  import opened Instructions
  import opened TaskComposerData
  import opened RasterConfig
  import opened RasterGraph

  const NULL_INPUT := "RasterMotionTask, input is null"
  const NOT_COMPOSITE := "RasterMotionTask, input is not a composite instruction"
  /**
   * `composite.at(0)` on an empty program throws `std::out_of_range`.  The text of
   * that exception comes from the standard library, not from the task; this string
   * is the model's stand-in for it.
   */
  const OUT_OF_RANGE := "vector::_M_range_check"
  const FROM_START_NOT_COMPOSITE := "RasterMotionTask, from_start should be a composite"
  const SEGMENT_NOT_COMPOSITE := "RasterMotionTask, Both rasters and transitions should be a composite"
  const TO_END_NOT_COMPOSITE := "RasterMotionTask, to_end should be a composite"
  /** The rejection the corrected check adds for programs that do not alternate. */
  const NOT_ALTERNATING := "RasterMotionTask, program should be from_start, then rasters separated by transitions, then to_end"
  const SUBGRAPH_FAILED := "Raster subgraph failed"
  const SUCCESSFUL := "Successful"
  /**
   * `as<CompositeInstruction>()` on a value of another type throws; the text is the
   * model's stand-in for the library's message.
   */
  const BAD_CAST := "boost::bad_any_cast: failed conversion using boost::any_cast"
  /** `erase(begin())` on an empty composite has no defined behaviour; the model fails there. */
  const ERASE_EMPTY := "erase of the first element of an empty composite"
  const BAD_OPTIONAL_ACCESS := "bad optional access"

  // ---------------------------------------------------------------------------
  // checkTaskInput
  // ---------------------------------------------------------------------------

  predicate AllComposite(c: Composite)
  {
    forall k :: 0 <= k < |c.elems| ==> c.elems[k].CompositeInstr?
  }

  /**
   * `checkTaskInput` with the source's branches, in the source's order, and its
   * messages; only the out-of-range message is the model's stand-in.
   */
  function CheckTaskInputAsWritten(input: Option<Value>): (r: Outcome)
    ensures r.Pass? <==> input.Some? && input.value.CompositeData? && |input.value.composite.elems| > 0
                         && AllComposite(input.value.composite)
    ensures input.None? ==> r == Fail(NULL_INPUT)
    ensures input.Some? && input.value.OtherData? ==> r == Fail(NOT_COMPOSITE)
    ensures input.Some? && input.value.CompositeData? ==>
              var elems := input.value.composite.elems;
              && (|elems| == 0 ==> r == Fail(OUT_OF_RANGE))
              && (|elems| > 0 && !elems[0].CompositeInstr? ==> r == Fail(FROM_START_NOT_COMPOSITE))
              && (|elems| > 0 && elems[0].CompositeInstr? && (exists k :: 1 <= k < |elems| - 1 && !elems[k].CompositeInstr?)
                  ==> r == Fail(SEGMENT_NOT_COMPOSITE))
              && ((|elems| > 1 && (forall k :: 0 <= k < |elems| - 1 ==> elems[k].CompositeInstr?)
                   && !elems[|elems| - 1].CompositeInstr?) ==>
                    r == Fail(TO_END_NOT_COMPOSITE))
  {
    match input
    case None => Fail(NULL_INPUT)
    case Some(OtherData(_)) => Fail(NOT_COMPOSITE)
    case Some(CompositeData(c)) =>
      if |c.elems| == 0 then Fail(OUT_OF_RANGE)
      else if !c.elems[0].CompositeInstr? then Fail(FROM_START_NOT_COMPOSITE)
      else if exists k :: 1 <= k < |c.elems| - 1 && !c.elems[k].CompositeInstr? then Fail(SEGMENT_NOT_COMPOSITE)
      else if !c.elems[|c.elems| - 1].CompositeInstr? then Fail(TO_END_NOT_COMPOSITE)
      else Pass
  }

  /** A program of the raster shape: from_start, R >= 1 rasters with R - 1 transitions between them, to_end. */
  predicate IsRasterProgram(c: Composite)
  {
    && 3 <= |c.elems|
    && |c.elems| % 2 == 1
    && AllComposite(c)
  }

  /** `checkTaskInput` corrected to also reject programs that do not alternate (see README, Findings). */
  function CheckTaskInput(input: Option<Value>): (r: Outcome)
    ensures r.Pass? <==> input.Some? && input.value.CompositeData? && IsRasterProgram(input.value.composite)
    ensures CheckTaskInputAsWritten(input).Fail? ==> r == CheckTaskInputAsWritten(input)
    ensures CheckTaskInputAsWritten(input).Pass? && !IsRasterProgram(input.value.composite)
            ==> r == Fail(NOT_ALTERNATING)
  {
    match CheckTaskInputAsWritten(input)
    case Fail(m) => Fail(m)
    case Pass => if IsRasterProgram(input.value.composite) then Pass else Fail(NOT_ALTERNATING)
  }

  // ---------------------------------------------------------------------------
  // The segment loops
  // ---------------------------------------------------------------------------

  /** The indices `for (idx = from; idx < bound; idx += 2)` visits. */
  function LoopIndices(from: nat, bound: int): (r: seq<nat>)
    ensures |r| == if from < bound then (bound - from + 1) / 2 else 0
    ensures forall k :: 0 <= k < |r| ==> r[k] == from + 2 * k
    decreases bound - from
  {
    if from < bound then [from] + LoopIndices(from + 2, bound) else []
  }

  /** Positions of the rasters: `idx = 1; idx < program.size() - 1`. */
  function RasterPositions(n: nat): seq<nat>
    requires 1 <= n
  {
    LoopIndices(1, n - 1)
  }

  /** Positions of the transitions: `idx = 2; idx < program.size() - 2`. */
  function TransitionPositions(n: nat): seq<nat>
    requires 2 <= n
  {
    LoopIndices(2, n - 2)
  }

  /**
   * For n >= 3 the rasters sit at 1, 3, ..., the transitions at 2, 4, ..., there are
   * R = (n - 1) / 2 rasters and R - 1 transitions; a three-element program has none.
   */
  lemma SegmentLayout(n: nat)
    requires 3 <= n
    ensures |RasterPositions(n)| == (n - 1) / 2
    ensures |TransitionPositions(n)| == (n - 1) / 2 - 1
    ensures forall i :: 0 <= i < |RasterPositions(n)| ==> RasterPositions(n)[i] == 2 * i + 1
    ensures forall j :: 0 <= j < |TransitionPositions(n)| ==> TransitionPositions(n)[j] == 2 * j + 2
    ensures n == 3 ==> TransitionPositions(n) == []
  {
  }

  /** `std::size_t` arithmetic wraps modulo 2^64. */
  const SIZE_MODULUS: int := 0x1_0000_0000_0000_0000

  /** The transition loop as the source writes it, with `program.size() - 2` in unsigned arithmetic. */
  function TransitionPositionsAsWritten(n: nat): seq<nat>
  {
    LoopIndices(2, (n - 2) % SIZE_MODULUS)
  }

  /** From two elements on, the unsigned bound is the mathematical one. */
  lemma TransitionPositionsAsWrittenAgree(n: nat)
    requires 2 <= n < SIZE_MODULUS
    ensures TransitionPositionsAsWritten(n) == TransitionPositions(n)
  {
  }

  /**
   * The as-written check lets one- and two-element programs through, yet for them
   * the raster loop visits nothing, so `raster_tasks[0]` reads past the end; for one
   * element `program.size() - 2` wraps and the transition loop starts at index 2,
   * past the end of the program.
   */
  lemma ShortProgramsPassAsWritten(c: Composite)
    requires 1 <= |c.elems| <= 2 && AllComposite(c)
    ensures CheckTaskInputAsWritten(Some(CompositeData(c))).Pass?
    ensures CheckTaskInput(Some(CompositeData(c))) == Fail(NOT_ALTERNATING)
    ensures RasterPositions(|c.elems|) == []
    ensures |c.elems| == 1 ==> |TransitionPositionsAsWritten(1)| > 0 && TransitionPositionsAsWritten(1)[0] >= |c.elems|
  {
  }

  // ---------------------------------------------------------------------------
  // Planning the sub-graph
  // ---------------------------------------------------------------------------

  /**
   * What building the sub-graph needs: at least three composite segments, and a move
   * in every segment but the last, since each one lends its last move to the next.
   */
  predicate Plannable(c: Composite)
  {
    && 3 <= |c.elems|
    && AllComposite(c)
    && forall k :: 0 <= k < |c.elems| - 1 ==> LastMove(c.elems[k].composite).Some?
  }

  /** A segment's position in the program, the input stored for it and the node made for it. */
  datatype Segment = Segment(position: nat, input: Composite, results: TaskFactoryResults)

  /** The input of the segment at position k >= 1: its own instructions after the preceding segment's last move. */
  function ContinuityInput(c: Composite, info: ManipInfo, k: nat): (r: Composite)
    requires Plannable(c) && 1 <= k < |c.elems|
    ensures |r.elems| == |c.elems[k].composite.elems| + 1
    ensures r.elems[0] == MoveInstr(LastMove(c.elems[k - 1].composite).value)
    ensures StripFirst(r) == WithManip(c.elems[k].composite, info)
  {
    var r := Prepend(LastMove(c.elems[k - 1].composite).value, WithManip(c.elems[k].composite, info));
    StripFirstUndoesPrepend(LastMove(c.elems[k - 1].composite).value, WithManip(c.elems[k].composite, info));
    r
  }

  /** The node name the source gives a segment: a heading with an index, and the segment's description. */
  function SegmentName(heading: string, input: Composite): string
  {
    heading + ": " + input.description
  }

  /** Raster i (1-based) sits at position 2i - 1 and uses instance i of the raster template. */
  function RasterSegment(task: RasterTask, c: Composite, info: ManipInfo, i: nat): (r: Segment)
    requires Plannable(c) && 1 <= i <= |RasterPositions(|c.elems|)|
    ensures r.position == 2 * i - 1
    ensures r.input == ContinuityInput(c, info, 2 * i - 1)
    ensures r.results == task.rasterFactory(SegmentName("Raster #" + NatToString(i), r.input), i)
  {
    var position := RasterPositions(|c.elems|)[i - 1];
    var input := ContinuityInput(c, info, position);
    Segment(position, input, task.rasterFactory(SegmentName("Raster #" + NatToString(i), input), i))
  }

  /** Transition j (1-based) sits at position 2j and uses instance j of the transition template. */
  function TransitionSegment(task: RasterTask, c: Composite, info: ManipInfo, j: nat): (r: Segment)
    requires Plannable(c) && 1 <= j <= |TransitionPositions(|c.elems|)|
    ensures r.position == 2 * j
    ensures r.input == ContinuityInput(c, info, 2 * j)
    ensures r.results == task.transitionFactory(SegmentName("Transition #" + NatToString(j), r.input), j)
  {
    var position := TransitionPositions(|c.elems|)[j - 1];
    var input := ContinuityInput(c, info, position);
    Segment(position, input, task.transitionFactory(SegmentName("Transition #" + NatToString(j), input), j))
  }

  /** The raster segments, in the order the raster loop makes them. */
  function RasterSegments(task: RasterTask, c: Composite, info: ManipInfo): (rs: seq<Segment>)
    requires Plannable(c)
    ensures |rs| == (|c.elems| - 1) / 2
    ensures forall i :: 0 <= i < |rs| ==> rs[i] == RasterSegment(task, c, info, i + 1)
  {
    SegmentLayout(|c.elems|);
    var count := |RasterPositions(|c.elems|)|;
    seq(count, i requires 0 <= i < count => RasterSegment(task, c, info, i + 1))
  }

  /** The transition segments, in the order the transition loop makes them. */
  function TransitionSegments(task: RasterTask, c: Composite, info: ManipInfo): (ts: seq<Segment>)
    requires Plannable(c)
    ensures |ts| == (|c.elems| - 1) / 2 - 1
    ensures forall j :: 0 <= j < |ts| ==> ts[j] == TransitionSegment(task, c, info, j + 1)
  {
    SegmentLayout(|c.elems|);
    var count := |TransitionPositions(|c.elems|)|;
    seq(count, j requires 0 <= j < count => TransitionSegment(task, c, info, j + 1))
  }

  /** The loops cover every position exactly when the length is odd. */
  lemma SegmentsCoverOddLength(n: nat)
    requires 1 <= n
    ensures 2 * ((n - 1) / 2) + 1 == n <==> n % 2 == 1
  {
  }

  datatype Plan = Plan(rasters: seq<Segment>, transitions: seq<Segment>, fromStart: Segment, toEnd: Segment)

  /**
   * The segments of a program.  The continuity move goes in front of every raster,
   * transition and to_end input; from_start keeps its own instructions.  Rasters get
   * instances 1..R, transitions 1..R-1, from_start and to_end instances 1 and 2 of
   * the freespace template.
   */
  function MakePlan(task: RasterTask, c: Composite, problemManip: ManipInfo): (p: Plan)
    requires Plannable(c)
    ensures |p.rasters| == (|c.elems| - 1) / 2 && |p.transitions| == |p.rasters| - 1
    ensures 2 * |p.rasters| + 1 == |c.elems| <==> |c.elems| % 2 == 1
    ensures forall i :: 0 <= i < |p.rasters| ==> p.rasters[i] == RasterSegment(task, c, Combined(c.manip, problemManip), i + 1)
    ensures forall j :: 0 <= j < |p.transitions| ==>
              p.transitions[j] == TransitionSegment(task, c, Combined(c.manip, problemManip), j + 1)
    ensures p.fromStart.position == 0
    ensures p.fromStart.input == WithManip(c.elems[0].composite, Combined(c.manip, problemManip))
    ensures p.fromStart.results == task.freespaceFactory(SegmentName("From Start", p.fromStart.input), 1)
    ensures p.toEnd.position == |c.elems| - 1
    ensures p.toEnd.input == ContinuityInput(c, Combined(c.manip, problemManip), |c.elems| - 1)
    ensures p.toEnd.results == task.freespaceFactory(SegmentName("To End", p.toEnd.input), 2)
  {
    var n := |c.elems|;
    var info := Combined(c.manip, problemManip);
    var fromStartInput := WithManip(c.elems[0].composite, info);
    var toEndInput := ContinuityInput(c, info, n - 1);
    SegmentsCoverOddLength(n);
    Plan(
      RasterSegments(task, c, info),
      TransitionSegments(task, c, info),
      Segment(0, fromStartInput, task.freespaceFactory(SegmentName("From Start", fromStartInput), 1)),
      Segment(n - 1, toEndInput, task.freespaceFactory(SegmentName("To End", toEndInput), 2)))
  }

  /** A plan as `MakePlan` shapes it: R >= 1 rasters and R - 1 transitions. */
  predicate WellFormedPlan(p: Plan)
  {
    1 <= |p.rasters| && |p.transitions| == |p.rasters| - 1
  }

  /** The node made for a template segment. */
  function SegmentNode(id: NodeId, s: Segment): GraphNode
  {
    GraphNode(id, s.results.node.name, PluginTask(s.results.node))
  }

  /** The k-th of the (transition, mux) pairs the transition loop adds. */
  function TransitionLoopNode(p: Plan, k: nat): GraphNode
    requires WellFormedPlan(p) && k < 2 * |p.transitions|
  {
    var j := k / 2;
    if k % 2 == 0 then SegmentNode(TransitionNode(j + 1), p.transitions[j])
    else GraphNode(MuxNode(j + 1), "UpdateStartAndEndStateTask",
                   UpdateStartAndEndState(p.rasters[j].results.outputKey, p.rasters[j + 1].results.outputKey,
                                          p.transitions[j].results.inputKey))
  }

  /** The nodes the raster loop adds, rasters 1..R. */
  function RasterLoopNodes(p: Plan): (ns: seq<GraphNode>)
    requires WellFormedPlan(p)
    ensures |ns| == |p.rasters|
    ensures forall i :: 0 <= i < |ns| ==> ns[i] == SegmentNode(RasterNode(i + 1), p.rasters[i])
  {
    seq(|p.rasters|, i requires 0 <= i < |p.rasters| => SegmentNode(RasterNode(i + 1), p.rasters[i]))
  }

  /** The nodes the transition loop adds: transition j, then mux j, for j = 1..R-1. */
  function TransitionLoopNodes(p: Plan): (ns: seq<GraphNode>)
    requires WellFormedPlan(p)
    ensures |ns| == 2 * |p.transitions|
    ensures forall k :: 0 <= k < |ns| ==> ns[k] == TransitionLoopNode(p, k)
  {
    seq(2 * |p.transitions|, k requires 0 <= k < 2 * |p.transitions| => TransitionLoopNode(p, k))
  }

  /** The four nodes added after the loops: from_start, its update node, to_end, its update node. */
  function BoundaryNodes(p: Plan): (ns: seq<GraphNode>)
    requires WellFormedPlan(p)
    ensures |ns| == 4
    ensures ns[0].id == FromStartNode && ns[1].id == UpdateEndNode && ns[2].id == ToEndNode && ns[3].id == UpdateStartNode
  {
    var r := |p.rasters|;
    [ SegmentNode(FromStartNode, p.fromStart),
      GraphNode(UpdateEndNode, "UpdateEndStateTask",
                UpdateEndState(p.rasters[0].results.outputKey, p.fromStart.results.inputKey)),
      SegmentNode(ToEndNode, p.toEnd),
      GraphNode(UpdateStartNode, "UpdateStartStateTask",
                UpdateStartState(p.rasters[r - 1].results.outputKey, p.toEnd.results.inputKey)) ]
  }

  /** The sub-graph `runImpl` assembles. */
  function PlanGraph(p: Plan): (g: Graph)
    requires WellFormedPlan(p)
    ensures |g.nodes| == 3 * |p.rasters| + 3
    ensures forall k :: 0 <= k < |g.nodes| ==> g.nodes[k].id == NodeIdAt(|p.rasters|, k)
    ensures g.edges == PlannedEdges(|p.rasters|)
  {
    var nodes := [GraphNode(StartNode, "StartTask", StartTask)] + RasterLoopNodes(p) + TransitionLoopNodes(p)
                 + BoundaryNodes(p);
    PlanGraphNodeIds(p, nodes);
    Graph(nodes, PlannedEdges(|p.rasters|))
  }

  lemma PlanGraphNodeIds(p: Plan, nodes: seq<GraphNode>)
    requires WellFormedPlan(p)
    requires nodes == [GraphNode(StartNode, "StartTask", StartTask)] + RasterLoopNodes(p) + TransitionLoopNodes(p)
                      + BoundaryNodes(p)
    ensures |nodes| == 3 * |p.rasters| + 3
    ensures forall k :: 0 <= k < |nodes| ==> nodes[k].id == NodeIdAt(|p.rasters|, k)
  {
    var r := |p.rasters|;
    var rs := RasterLoopNodes(p);
    var ts := TransitionLoopNodes(p);
    var bs := BoundaryNodes(p);
    var front := [GraphNode(StartNode, "StartTask", StartTask)] + rs;
    var loops := front + ts;
    assert nodes == loops + bs;
    forall k | 0 <= k < |nodes|
      ensures nodes[k].id == NodeIdAt(r, k)
    {
      if k < |front| {
        assert nodes[k] == front[k];
        if k > 0 {
          assert front[k] == rs[k - 1];
        }
      } else if k < |loops| {
        assert nodes[k] == loops[k] == ts[k - r - 1];
      } else {
        assert nodes[k] == bs[k - 3 * r + 1];
      }
    }
  }

  /**
   * The `setData` calls made while building the graph, in order: each raster input
   * under the raster node's input key, each transition input under its mux node's
   * uuid, and the from_start and to_end inputs under their update nodes' uuids.
   */
  function PlanWrites(p: Plan): (w: seq<Write>)
    requires WellFormedPlan(p)
    ensures |w| == 2 * |p.rasters| + 1
    ensures forall i :: 0 <= i < |p.rasters| ==>
              w[i] == Write(Name(p.rasters[i].results.inputKey), CompositeData(p.rasters[i].input))
    ensures forall j :: 0 <= j < |p.transitions| ==>
              w[|p.rasters| + j] == Write(Uuid(MuxNode(j + 1)), CompositeData(p.transitions[j].input))
    ensures w[2 * |p.rasters| - 1] == Write(Uuid(UpdateEndNode), CompositeData(p.fromStart.input))
    ensures w[2 * |p.rasters|] == Write(Uuid(UpdateStartNode), CompositeData(p.toEnd.input))
  {
    var r := |p.rasters|;
    var t := |p.transitions|;
    seq(r, i requires 0 <= i < r => Write(Name(p.rasters[i].results.inputKey), CompositeData(p.rasters[i].input)))
    + seq(t, j requires 0 <= j < t => Write(Uuid(MuxNode(j + 1)), CompositeData(p.transitions[j].input)))
    + [ Write(Uuid(UpdateEndNode), CompositeData(p.fromStart.input)),
        Write(Uuid(UpdateStartNode), CompositeData(p.toEnd.input)) ]
  }

  /**
   * What the executor is given: each transition, from_start and to_end input under
   * its node's uuid, each raster input under its input key unless a later raster
   * shares that key, and every other named entry as it was.
   */
  lemma StagedStorageHoldsSegmentInputs(p: Plan, s: Storage)
    requires WellFormedPlan(p)
    ensures var staged := SetAll(s, PlanWrites(p));
            && (forall j :: 0 <= j < |p.transitions| ==>
                  GetData(staged, Uuid(MuxNode(j + 1))) == Some(CompositeData(p.transitions[j].input)))
            && GetData(staged, Uuid(UpdateEndNode)) == Some(CompositeData(p.fromStart.input))
            && GetData(staged, Uuid(UpdateStartNode)) == Some(CompositeData(p.toEnd.input))
            && (forall i :: 0 <= i < |p.rasters| && LastUseOfInputKey(p, i) ==>
                  GetData(staged, Name(p.rasters[i].results.inputKey)) == Some(CompositeData(p.rasters[i].input)))
            && (forall name :: UnusedInputKey(p, name) ==> GetData(staged, Name(name)) == GetData(s, Name(name)))
  {
    var w := PlanWrites(p);
    var r := |p.rasters|;
    forall j | 0 <= j < |p.transitions|
      ensures GetData(SetAll(s, w), Uuid(MuxNode(j + 1))) == Some(CompositeData(p.transitions[j].input))
    {
      SetAllLastWrite(s, w, r + j);
    }
    SetAllLastWrite(s, w, 2 * r - 1);
    SetAllLastWrite(s, w, 2 * r);
    forall i | 0 <= i < r && LastUseOfInputKey(p, i)
      ensures GetData(SetAll(s, w), Name(p.rasters[i].results.inputKey)) == Some(CompositeData(p.rasters[i].input))
    {
      SetAllLastWrite(s, w, i);
    }
    forall name | UnusedInputKey(p, name)
      ensures GetData(SetAll(s, w), Name(name)) == GetData(s, Name(name))
    {
      forall x | x in w
        ensures x.key != Name(name)
      {
        var m :| 0 <= m < |w| && w[m] == x;
        if m < r {
          assert w[m].key == Name(p.rasters[m].results.inputKey);
        }
      }
      SetAllSpec(s, w, Name(name));
    }
  }

  /** No later raster shares raster i's input key. */
  predicate LastUseOfInputKey(p: Plan, i: nat)
    requires i < |p.rasters|
  {
    forall i' :: i < i' < |p.rasters| ==> p.rasters[i'].results.inputKey != p.rasters[i].results.inputKey
  }

  /** No raster uses this name as its input key. */
  predicate UnusedInputKey(p: Plan, name: string)
  {
    forall i :: 0 <= i < |p.rasters| ==> p.rasters[i].results.inputKey != name
  }

  // ---------------------------------------------------------------------------
  // Reassembly
  // ---------------------------------------------------------------------------

  /**
   * The segment whose output becomes element k of the stitched program: from_start,
   * then rasters and transitions alternating, then to_end at 2R.
   */
  function SegmentAt(p: Plan, k: nat): Segment
    requires WellFormedPlan(p) && k <= 2 * |p.rasters|
  {
    if k == 0 then p.fromStart
    else if k == 2 * |p.rasters| then p.toEnd
    else if k % 2 == 1 then p.rasters[(k - 1) / 2]
    else p.transitions[k / 2 - 1]
  }

  /** `getData(key).as<CompositeInstruction>()`. */
  function ReadComposite(s: Storage, key: string): Result<Composite>
  {
    match GetData(s, Name(key))
    case Some(CompositeData(c)) => Ok(c)
    case _ => Err(BAD_CAST)
  }

  /**
   * Element k of the stitched program: the output of `SegmentAt(p, k)`, with its
   * first element (the continuity move) removed for every segment but from_start.
   */
  function Piece(p: Plan, s: Storage, k: nat): Result<Composite>
    requires WellFormedPlan(p) && k <= 2 * |p.rasters|
  {
    match ReadComposite(s, SegmentAt(p, k).results.outputKey)
    case Err(m) => Err(m)
    case Ok(out) =>
      if k == 0 then Ok(out)
      else if |out.elems| == 0 then Err(ERASE_EMPTY)
      else Ok(StripFirst(out))
  }

  /** Elements k.. of the stitched program, read in the order the source reads them. */
  function StitchFrom(p: Plan, s: Storage, k: nat): (r: Result<seq<Instr>>)
    requires WellFormedPlan(p) && k <= 2 * |p.rasters| + 1
    ensures r.Ok? <==> forall m :: k <= m <= 2 * |p.rasters| ==> Piece(p, s, m).Ok?
    ensures r.Ok? ==> |r.value| == 2 * |p.rasters| + 1 - k
                      && forall m :: 0 <= m < |r.value| ==> r.value[m] == CompositeInstr(Piece(p, s, k + m).value)
    decreases 2 * |p.rasters| + 1 - k
  {
    if k == 2 * |p.rasters| + 1 then Ok([])
    else
      match Piece(p, s, k)
      case Err(m) => Err(m)
      case Ok(piece) =>
        match StitchFrom(p, s, k + 1)
        case Err(m) => Err(m)
        case Ok(rest) => Ok([CompositeInstr(piece)] + rest)
  }

  /** The first segment output, from k on in reading order, that cannot be made a piece; 2R + 1 if there is none. */
  function FirstFailure(p: Plan, s: Storage, k: nat): (m: nat)
    requires WellFormedPlan(p) && k <= 2 * |p.rasters| + 1
    ensures k <= m <= 2 * |p.rasters| + 1
    ensures forall m' :: k <= m' < m ==> Piece(p, s, m').Ok?
    ensures m <= 2 * |p.rasters| ==> Piece(p, s, m).Err?
    decreases 2 * |p.rasters| + 1 - k
  {
    if k == 2 * |p.rasters| + 1 || Piece(p, s, k).Err? then k else FirstFailure(p, s, k + 1)
  }

  /** A failed stitch fails with the error of the first segment output, in reading order, that fails. */
  lemma {:induction false} StitchFromReportsFirstFailure(p: Plan, s: Storage, k: nat)
    requires WellFormedPlan(p) && k <= 2 * |p.rasters| + 1
    requires StitchFrom(p, s, k).Err?
    ensures FirstFailure(p, s, k) <= 2 * |p.rasters|
    ensures Piece(p, s, FirstFailure(p, s, k)) == Err(StitchFrom(p, s, k).message)
    decreases 2 * |p.rasters| + 1 - k
  {
    if Piece(p, s, k).Ok? {
      assert StitchFrom(p, s, k + 1).Err? && StitchFrom(p, s, k).message == StitchFrom(p, s, k + 1).message;
      StitchFromReportsFirstFailure(p, s, k + 1);
    }
  }

  /**
   * Where each output element comes from: element k is made from the segment at
   * position k of the input, except that to_end (element 2R) comes from the last
   * position, |c.elems| - 1, which is 2R only when the program has odd length.
   */
  lemma SegmentAtPosition(task: RasterTask, c: Composite, problemManip: ManipInfo, p: Plan, k: nat)
    requires Plannable(c) && p == MakePlan(task, c, problemManip) && k <= 2 * |p.rasters|
    ensures SegmentAt(p, k).position == (if k == 2 * |p.rasters| then |c.elems| - 1 else k)
    ensures k == 0 ==> SegmentAt(p, k).input == WithManip(c.elems[0].composite, Combined(c.manip, problemManip))
    ensures k > 0 ==> SegmentAt(p, k).input == ContinuityInput(c, Combined(c.manip, problemManip), SegmentAt(p, k).position)
  {
    var info := Combined(c.manip, problemManip);
    if k == 0 || k == 2 * |p.rasters| {
    } else if k % 2 == 1 {
      var i := (k - 1) / 2;
      assert 2 * i + 1 == k;
      assert SegmentAt(p, k) == p.rasters[i] == RasterSegment(task, c, info, i + 1);
    } else {
      var j := k / 2 - 1;
      assert 2 * j + 2 == k;
      assert SegmentAt(p, k) == p.transitions[j] == TransitionSegment(task, c, info, j + 1);
    }
  }

  /**
   * The as-written check lets even-length programs through, and for them element
   * |c.elems| - 2 of the program is never used: no element of the stitched program
   * comes from it, and the stitched program is one element shorter than the input.
   */
  lemma EvenProgramLosesSegment(task: RasterTask, c: Composite, problemManip: ManipInfo)
    requires Plannable(c) && |c.elems| % 2 == 0
    ensures CheckTaskInputAsWritten(Some(CompositeData(c))).Pass?
    ensures CheckTaskInput(Some(CompositeData(c))) == Fail(NOT_ALTERNATING)
    ensures var p := MakePlan(task, c, problemManip);
            && 2 * |p.rasters| + 1 == |c.elems| - 1
            && forall k :: 0 <= k <= 2 * |p.rasters| ==> SegmentAt(p, k).position != |c.elems| - 2
  {
    var p := MakePlan(task, c, problemManip);
    forall k | 0 <= k <= 2 * |p.rasters|
      ensures SegmentAt(p, k).position != |c.elems| - 2
    {
      SegmentAtPosition(task, c, problemManip, p, k);
    }
  }

  /** For an odd-length program, element k of the stitched program comes from position k. */
  lemma OddProgramUsesEverySegment(task: RasterTask, c: Composite, problemManip: ManipInfo)
    requires Plannable(c) && IsRasterProgram(c)
    ensures var p := MakePlan(task, c, problemManip);
            && 2 * |p.rasters| + 1 == |c.elems|
            && forall k :: 0 <= k < |c.elems| ==> SegmentAt(p, k).position == k
  {
    var p := MakePlan(task, c, problemManip);
    forall k | 0 <= k < |c.elems|
      ensures SegmentAt(p, k).position == k
    {
      SegmentAtPosition(task, c, problemManip, p, k);
    }
  }

  /** A segment that echoed its input yields the input's own element of the program. */
  lemma PieceOfEchoedOutput(task: RasterTask, c: Composite, problemManip: ManipInfo, p: Plan, s: Storage, k: nat)
    requires IsRasterProgram(c) && Plannable(c) && p == MakePlan(task, c, problemManip) && k < |c.elems|
    requires GetData(s, Name(SegmentAt(p, k).results.outputKey)) == Some(CompositeData(SegmentAt(p, k).input))
    ensures Piece(p, s, k) == Ok(WithManip(c.elems[k].composite, Combined(c.manip, problemManip)))
  {
    SegmentAtPosition(task, c, problemManip, p, k);
  }

  /** Every segment node left its own input as its output. */
  predicate Echoed(p: Plan, s: Storage)
    requires WellFormedPlan(p)
  {
    forall k :: 0 <= k <= 2 * |p.rasters| ==>
      GetData(s, Name(SegmentAt(p, k).results.outputKey)) == Some(CompositeData(SegmentAt(p, k).input))
  }

  /** The program `c` with each segment's manipulator info combined with `info`. */
  function CombinedSegments(c: Composite, info: ManipInfo): (r: seq<Instr>)
    requires AllComposite(c)
    ensures |r| == |c.elems|
    ensures forall k :: 0 <= k < |r| ==> r[k] == CompositeInstr(WithManip(c.elems[k].composite, info))
  {
    seq(|c.elems|, k requires 0 <= k < |c.elems| => CompositeInstr(WithManip(c.elems[k].composite, info)))
  }

  /** Stitching pieces that are all present gives exactly those pieces, in order. */
  lemma StitchOfPieces(p: Plan, s: Storage, expected: seq<Composite>)
    requires WellFormedPlan(p) && |expected| == 2 * |p.rasters| + 1
    requires forall k :: 0 <= k < |expected| ==> Piece(p, s, k) == Ok(expected[k])
    ensures StitchFrom(p, s, 0).Ok?
    ensures forall k :: 0 <= k < |expected| ==> StitchFrom(p, s, 0).value[k] == CompositeInstr(expected[k])
  {
    var r := StitchFrom(p, s, 0);
    assert r.Ok?;
    forall k | 0 <= k < |expected|
      ensures r.value[k] == CompositeInstr(expected[k])
    {
      assert r.value[k] == CompositeInstr(Piece(p, s, 0 + k).value);
    }
  }

  /**
   * If every segment node left its own input as its output, the stitched program is
   * the input program with each segment's manipulator info combined.
   */
  lemma StitchOfEchoedOutputs(task: RasterTask, c: Composite, problemManip: ManipInfo, p: Plan, s: Storage)
    requires IsRasterProgram(c) && Plannable(c) && p == MakePlan(task, c, problemManip)
    requires Echoed(p, s)
    ensures StitchFrom(p, s, 0) == Ok(CombinedSegments(c, Combined(c.manip, problemManip)))
  {
    var info := Combined(c.manip, problemManip);
    var pieces := seq(|c.elems|, k requires 0 <= k < |c.elems| => WithManip(c.elems[k].composite, info));
    forall k | 0 <= k < |pieces|
      ensures Piece(p, s, k) == Ok(pieces[k])
    {
      PieceOfEchoedOutput(task, c, problemManip, p, s, k);
    }
    StitchOfPieces(p, s, pieces);
    assert StitchFrom(p, s, 0).value == CombinedSegments(c, info);
  }

  // ---------------------------------------------------------------------------
  // runImpl
  // ---------------------------------------------------------------------------

  /** What the executor hands back after running the sub-graph: the storage, and whether the run was aborted. */
  datatype SubRun = SubRun(storage: Storage, aborted: bool)

  /** `executor.run(task_graph, input)->wait()`, as an opaque function of the storage and the graph. */
  type Executor = (Storage, Graph) -> SubRun

  /** The source asserts that each segment but the last has a move to lend to the next one. */
  predicate SegmentsHaveMoves(input: Option<Value>)
  {
    input.Some? && input.value.CompositeData? ==>
      var elems := input.value.composite.elems;
      forall k :: 0 <= k < |elems| - 1 && elems[k].CompositeInstr? ==> LastMove(elems[k].composite).Some?
  }

  /** The storage and graph the executor is given for a valid program. */
  function StagedStorage(task: RasterTask, c: Composite, s: Storage, problemManip: ManipInfo): Storage
    requires Plannable(c)
  {
    SetAll(s, PlanWrites(MakePlan(task, c, problemManip)))
  }

  /** A program that passes the check, with the moves the source asserts, can be planned. */
  lemma PassedInputIsPlannable(input: Option<Value>)
    requires SegmentsHaveMoves(input) && CheckTaskInput(input).Pass?
    ensures Plannable(input.value.composite)
  {
  }

  /**
   * The part of `runImpl` after the input check, for the plan `p` of program `c`:
   * stage the segment inputs, run the sub-graph and stitch its outputs together.
   */
  function RunPlanned(task: RasterTask, c: Composite, p: Plan, s: Storage, executor: Option<Executor>)
    : (r: Result<TaskResult>)
    requires WellFormedPlan(p)
    ensures var staged := SetAll(s, PlanWrites(p));
            && (executor.None? ==> r == Err(BAD_OPTIONAL_ACCESS))
            && (executor.Some? && executor.value(staged, PlanGraph(p)).aborted ==>
                  r == Ok(TaskResult(NodeInfo(0, SUBGRAPH_FAILED), executor.value(staged, PlanGraph(p)).storage)))
            && (executor.Some? && !executor.value(staged, PlanGraph(p)).aborted ==>
                  var after := executor.value(staged, PlanGraph(p)).storage;
                  && (StitchFrom(p, after, 0).Err? ==> r == Err(StitchFrom(p, after, 0).message))
                  && (StitchFrom(p, after, 0).Ok? ==>
                        r == Ok(TaskResult(NodeInfo(1, SUCCESSFUL),
                                           after[Name(task.outputKey) := CompositeData(c.(elems := StitchFrom(p, after, 0).value))]))))
    ensures r.Ok? && r.value.info.returnValue == 1 ==>
              && r.value.info.message == SUCCESSFUL
              && Name(task.outputKey) in r.value.storage
              && r.value.storage[Name(task.outputKey)].CompositeData?
              && r.value.storage[Name(task.outputKey)].composite.(elems := c.elems) == c
              && |r.value.storage[Name(task.outputKey)].composite.elems| == 2 * |p.rasters| + 1
  {
    var graph := PlanGraph(p);
    var staged := SetAll(s, PlanWrites(p));
    if executor.None? then Err(BAD_OPTIONAL_ACCESS)
    else
      var sub := executor.value(staged, graph);
      if sub.aborted then Ok(TaskResult(NodeInfo(0, SUBGRAPH_FAILED), sub.storage))
      else
        match StitchFrom(p, sub.storage, 0)
        case Err(m) => Err(m)
        case Ok(elems) =>
          Ok(TaskResult(NodeInfo(1, SUCCESSFUL), sub.storage[Name(task.outputKey) := CompositeData(c.(elems := elems))]))
  }

  /**
   * `RasterMotionTask::runImpl`.  `aborted` is the abort flag on entry, `problemManip`
   * the problem's manipulator info; an `Err` is an exception leaving `runImpl`.
   */
  function Run(task: RasterTask, s: Storage, aborted: bool, problemManip: ManipInfo, executor: Option<Executor>)
    : (r: Result<TaskResult>)
    requires !aborted && CheckTaskInput(GetData(s, Name(task.inputKey))).Pass?
             ==> SegmentsHaveMoves(GetData(s, Name(task.inputKey)))
    ensures aborted ==> r == Ok(TaskResult(NodeInfo(0, ABORTED), s))
    ensures !aborted && CheckTaskInput(GetData(s, Name(task.inputKey))).Fail? ==>
              r == Ok(TaskResult(NodeInfo(0, CheckTaskInput(GetData(s, Name(task.inputKey))).message), s))
    ensures !aborted && CheckTaskInput(GetData(s, Name(task.inputKey))).Pass? ==>
              var c := GetData(s, Name(task.inputKey)).value.composite;
              && Plannable(c)
              && r == RunPlanned(task, c, MakePlan(task, c, problemManip), s, executor)
    ensures r.Ok? && r.value.info.returnValue == 1 ==>
              var c := GetData(s, Name(task.inputKey)).value.composite;
              && IsRasterProgram(c)
              && r.value.info.message == SUCCESSFUL
              && GetData(r.value.storage, Name(task.outputKey)).Some?
              && r.value.storage[Name(task.outputKey)].CompositeData?
              && r.value.storage[Name(task.outputKey)].composite.(elems := c.elems) == c
              && |r.value.storage[Name(task.outputKey)].composite.elems| == |c.elems|
  {
    if aborted then Ok(TaskResult(NodeInfo(0, ABORTED), s))
    else
      var input := GetData(s, Name(task.inputKey));
      match CheckTaskInput(input)
      case Fail(m) => Ok(TaskResult(NodeInfo(0, m), s))
      case Pass =>
        PassedInputIsPlannable(input);
        var c := input.value.composite;
        RunPlanned(task, c, MakePlan(task, c, problemManip), s, executor)
  }

  /**
   * End to end: when the executor is not aborted and every segment node echoes its
   * input, the task succeeds and writes the input program back (each segment with
   * its manipulator info combined) to the output key.
   */
  lemma RunWithEchoingSubgraph(task: RasterTask, c: Composite, s: Storage, problemManip: ManipInfo, executor: Executor,
                               p: Plan, after: Storage)
    requires GetData(s, Name(task.inputKey)) == Some(CompositeData(c)) && IsRasterProgram(c) && Plannable(c)
    requires p == MakePlan(task, c, problemManip)
    requires executor(SetAll(s, PlanWrites(p)), PlanGraph(p)) == SubRun(after, false)
    requires Echoed(p, after)
    ensures Run(task, s, false, problemManip, Some(executor))
            == Ok(TaskResult(NodeInfo(1, SUCCESSFUL),
                             after[Name(task.outputKey) :=
                                     CompositeData(c.(elems := CombinedSegments(c, Combined(c.manip, problemManip))))]))
  {
    StitchOfEchoedOutputs(task, c, problemManip, p, after);
  }

  /**
   * With an echoing sub-graph and segments whose manipulator info already agrees
   * with every field the program's combined info sets, the program written to the
   * output key is the input program itself.
   */
  lemma RunWithEchoingSubgraphReturnsProgram(task: RasterTask, c: Composite, s: Storage, problemManip: ManipInfo,
                                             executor: Executor, p: Plan, after: Storage)
    requires GetData(s, Name(task.inputKey)) == Some(CompositeData(c)) && IsRasterProgram(c) && Plannable(c)
    requires forall k :: 0 <= k < |c.elems| ==>
               OverrideAgrees(c.elems[k].composite.manip, Combined(c.manip, problemManip))
    requires p == MakePlan(task, c, problemManip)
    requires executor(SetAll(s, PlanWrites(p)), PlanGraph(p)) == SubRun(after, false)
    requires Echoed(p, after)
    ensures Run(task, s, false, problemManip, Some(executor))
            == Ok(TaskResult(NodeInfo(1, SUCCESSFUL), after[Name(task.outputKey) := CompositeData(c)]))
  {
    RunWithEchoingSubgraph(task, c, s, problemManip, executor, p, after);
    AgreeingSegmentsAreKept(c, Combined(c.manip, problemManip));
  }

  /** Combining into segments that agree with every field the info sets changes nothing. */
  lemma AgreeingSegmentsAreKept(c: Composite, info: ManipInfo)
    requires AllComposite(c)
    requires forall k :: 0 <= k < |c.elems| ==> OverrideAgrees(c.elems[k].composite.manip, info)
    ensures c.(elems := CombinedSegments(c, info)) == c
  {
    var combined := CombinedSegments(c, info);
    forall k | 0 <= k < |c.elems|
      ensures combined[k] == c.elems[k]
    {
      CombinedKeepsInfo(c.elems[k].composite.manip, info);
      assert WithManip(c.elems[k].composite, info) == c.elems[k].composite;
    }
    assert combined == c.elems;
  }
}
