/**
 * The simple legacy motion planner.  It walks the program, and for every move
 * instruction asks the move's plan profile to generate a seed composite from the
 * previous instruction, the previous seed move, the move itself and the next move
 * of the same composite; the seeds replace the moves, nested composites are
 * processed recursively and every other instruction is copied.
 */
module SimpleMotionLegacyPlanner {
  import opened Wrappers
  import opened WaypointType
  import opened Instructions

  const SOLUTION_FOUND := "Found valid solution"
  const ERROR_INVALID_INPUT := "Input to planner is invalid. Check that instructions and seed are compatible"
  const FAILED_TO_FIND_VALID_SOLUTION := "Failed to find valid solution"
  const UNSUPPORTED_WAYPOINT := "Unsupported waypoint type!"
  const INVALID_PROFILE := "SimpleMotionPlanner: Invalid profile"
  /** The remaining failures have no message of their own in the source. */
  const UNKNOWN_JOINT_GROUP := "the environment has no joint group for the manipulator"
  const NO_FIRST_MOVE := "dereference of a missing first move instruction"
  const EMPTY_SEED := "back() of an empty generated seed"
  const SEED_END_NOT_MOVE := "bad cast: the last element of a generated seed is not a move instruction"

  /** The environment, reduced to the joint names of each joint group. */
  datatype Environment = Environment(jointGroups: map<string, seq<string>>)

  /** The current scene state: the values of the named joints. */
  type SceneState = seq<string> -> JointValues

  /**
   * `SimplePlannerLegacyPlanProfile::generate` for one request: from the previous
   * instruction, the previous seed move, the move and the next move it builds a
   * seed, or throws (`Err`).
   */
  type Generator = (Move, Move, Move, Option<Move>) -> Result<Composite>

  /**
   * Profile remapping, lookup with the default profile as fallback, and applying
   * overrides: a profile name and an override set give a profile, or a null one.
   */
  type ProfileResolver = (string, Overrides) -> Option<Generator>

  datatype Request = Request(env: Option<Environment>, envState: SceneState, instructions: Composite,
                             profiles: ProfileResolver)

  datatype Response = Response(successful: bool, message: string, results: Option<Composite>)

  /** `checkUserInput`: an environment is required, and at least one instruction. */
  predicate CheckUserInput(request: Request)
  {
    request.env.Some? && |request.instructions.elems| > 0
  }

  /** A state waypoint holding the current values of the manipulator's joints. */
  function CurrentState(joints: seq<string>, state: SceneState): Waypoint
  {
    StateWaypoint(joints, state(joints))
  }

  /**
   * `getStartInstruction`: the program's start instruction with its waypoint made a
   * state waypoint, or, without one, the first move turned into a start at the
   * current state.  `joints` are the manipulator's joint names.
   */
  function GetStartInstruction(request: Request, joints: seq<string>): (r: Result<Move>)
    ensures r.Ok? ==> r.value.waypoint.StateWaypoint?
    ensures request.instructions.start.Some? ==>
              var start := request.instructions.start.value;
              && (r.Ok? <==> IsJointWaypoint(start.waypoint) || IsCartesianWaypoint(start.waypoint)
                             || IsStateWaypoint(start.waypoint))
              && (r.Err? ==> r.message == UNSUPPORTED_WAYPOINT)
              && (r.Ok? ==> r.value.(waypoint := start.waypoint) == start)
              && (start.waypoint.JointWaypoint? ==>
                    r.value.waypoint == StateWaypoint(start.waypoint.names, start.waypoint.position))
              && (start.waypoint.CartesianWaypoint? ==> r.value.waypoint == CurrentState(joints, request.envState))
              && (start.waypoint.StateWaypoint? ==> r.value == start)
    ensures request.instructions.start.None? ==>
              && (r.Ok? <==> Flatten(request.instructions) != [])
              && (r.Err? ==> r.message == NO_FIRST_MOVE)
              && (r.Ok? ==> && r.value.(waypoint := Flatten(request.instructions)[0].waypoint,
                                         moveType := Flatten(request.instructions)[0].moveType)
                               == Flatten(request.instructions)[0]
                            && r.value.moveType == Start
                            && r.value.waypoint == CurrentState(joints, request.envState))
  {
    match request.instructions.start
    case Some(start) =>
      var wp := start.waypoint;
      if IsJointWaypoint(wp) then Ok(start.(waypoint := StateWaypoint(wp.names, wp.position)))
      else if IsCartesianWaypoint(wp) then Ok(start.(waypoint := CurrentState(joints, request.envState)))
      else if IsStateWaypoint(wp) then Ok(start)
      else Err(UNSUPPORTED_WAYPOINT)
    case None =>
      FirstMoveIsHeadOfFlatten(request.instructions);
      match FirstMove(request.instructions)
      case None => Err(NO_FIRST_MOVE)
      case Some(m) => Ok(m.(moveType := Start, waypoint := CurrentState(joints, request.envState)))
  }

  /**
   * Which profile a move is planned with: its path profile when it has one, else
   * its profile.  The override set passed along is the other one of the two.
   */
  function SelectProfile(m: Move): (string, Overrides)
  {
    if m.pathProfile == "" then (m.profile, m.pathProfileOverrides) else (m.pathProfile, m.profileOverrides)
  }

  /** The next move instruction among `elems[i + 1..]`, nested composites not searched. */
  function NextMove(elems: seq<Instr>, i: nat): (r: Option<Move>)
    ensures r.Some? ==> exists n :: i < n < |elems| && elems[n] == MoveInstr(r.value)
                                   && forall k :: i < k < n ==> !elems[k].MoveInstr?
    ensures r.None? ==> forall k :: i < k < |elems| ==> !elems[k].MoveInstr?
    decreases |elems| - i
  {
    if i + 1 >= |elems| then None
    else if elems[i + 1].MoveInstr? then Some(elems[i + 1].move)
    else NextMove(elems, i + 1)
  }

  /** What is threaded through the walk: the instruction and the seed move last seen. */
  datatype Processed<T> = Processed(seed: T, prevInstruction: Move, prevSeed: Move)

  /**
   * A seed element mirrors a program element: other instructions are copied, a
   * move becomes a composite ending in a move (its generated seed), and a
   * composite becomes a composite that mirrors it.
   */
  predicate ElementMirrors(e: Instr, s: Instr)
    decreases e
  {
    match e
    case OtherInstr(_) => s == e
    case MoveInstr(_) => s.CompositeInstr? && EndsInMove(s.composite)
    case CompositeInstr(sub) => s.CompositeInstr? && Mirrors(sub, s.composite)
  }

  /** The last element of a composite is a move instruction. */
  predicate EndsInMove(c: Composite)
  {
    |c.elems| > 0 && c.elems[|c.elems| - 1].MoveInstr?
  }

  /** A seed composite mirrors a program composite: same fields, and its elements mirror the program's one for one. */
  predicate Mirrors(c: Composite, seed: Composite)
    decreases c
  {
    && seed.(elems := c.elems) == c
    && |seed.elems| == |c.elems|
    && forall k :: 0 <= k < |c.elems| ==> ElementMirrors(c.elems[k], seed.elems[k])
  }

  /** `processCompositeInstruction`: the seed of a composite, and the threaded state after it. */
  function ProcessComposite(c: Composite, prevInstruction: Move, prevSeed: Move, profiles: ProfileResolver)
    : (r: Result<Processed<Composite>>)
    ensures r.Ok? ==> Mirrors(c, r.value.seed)
    decreases c, 1
  {
    match ProcessFrom(c, 0, prevInstruction, prevSeed, profiles)
    case Err(m) => Err(m)
    case Ok(p) => Ok(Processed(c.(elems := p.seed), p.prevInstruction, p.prevSeed))
  }

  /** The loop of `processCompositeInstruction` from element i on. */
  function ProcessFrom(c: Composite, i: nat, prevInstruction: Move, prevSeed: Move, profiles: ProfileResolver)
    : (r: Result<Processed<seq<Instr>>>)
    requires i <= |c.elems|
    ensures r.Ok? ==> |r.value.seed| == |c.elems| - i
                      && forall k :: 0 <= k < |r.value.seed| ==> ElementMirrors(c.elems[i + k], r.value.seed[k])
    decreases c, 0, |c.elems| - i
  {
    if i == |c.elems| then Ok(Processed([], prevInstruction, prevSeed))
    else
      match c.elems[i]
      case CompositeInstr(sub) =>
        (match ProcessComposite(sub, prevInstruction, prevSeed, profiles)
         case Err(m) => Err(m)
         case Ok(p) =>
           match ProcessFrom(c, i + 1, p.prevInstruction, p.prevSeed, profiles)
           case Err(m) => Err(m)
           case Ok(rest) => Ok(rest.(seed := [CompositeInstr(p.seed)] + rest.seed)))
      case MoveInstr(m) =>
        (match profiles(SelectProfile(m).0, SelectProfile(m).1)
         case None => Err(INVALID_PROFILE)
         case Some(generate) =>
           match generate(prevInstruction, prevSeed, m, NextMove(c.elems, i))
           case Err(e) => Err(e)
           case Ok(seed) =>
             if |seed.elems| == 0 then Err(EMPTY_SEED)
             else if !seed.elems[|seed.elems| - 1].MoveInstr? then Err(SEED_END_NOT_MOVE)
             else
               match ProcessFrom(c, i + 1, m, seed.elems[|seed.elems| - 1].move, profiles)
               case Err(e) => Err(e)
               case Ok(rest) => Ok(rest.(seed := [CompositeInstr(seed)] + rest.seed)))
      case OtherInstr(_) =>
        match ProcessFrom(c, i + 1, prevInstruction, prevSeed, profiles)
        case Err(e) => Err(e)
        case Ok(rest) => Ok(rest.(seed := [c.elems[i]] + rest.seed))
  }

  /** The last move of a sequence, or `d` when there is none. */
  function LastOr(s: seq<Move>, d: Move): Move
  {
    if s == [] then d else s[|s| - 1]
  }

  lemma LastOrAppend(a: seq<Move>, b: seq<Move>, d: Move)
    ensures LastOr(a + b, d) == LastOr(b, LastOr(a, d))
  {
    if b != [] {
      assert (a + b)[|a + b| - 1] == b[|b| - 1];
    } else {
      assert a + b == a;
    }
  }

  /** The moves of `c.elems[i..]` are those of element i followed by those of the rest. */
  lemma MovesInUnfoldFront(c: Composite, i: nat)
    requires i < |c.elems|
    ensures MovesIn(c, i, |c.elems|) == MovesOf(c, i) + MovesIn(c, i + 1, |c.elems|)
  {
    MovesInSplit(c, i, i + 1, |c.elems|);
    assert MovesIn(c, i, i + 1) == MovesIn(c, i, i) + MovesOf(c, i);
  }

  /** After a composite, the previous instruction is its last move in document order, or unchanged if it has none. */
  lemma {:induction false} ProcessCompositeThreadsLastMove(c: Composite, prevInstruction: Move, prevSeed: Move,
                                                           profiles: ProfileResolver)
    requires ProcessComposite(c, prevInstruction, prevSeed, profiles).Ok?
    ensures ProcessComposite(c, prevInstruction, prevSeed, profiles).value.prevInstruction
            == LastOr(Flatten(c), prevInstruction)
    decreases c, 1
  {
    ProcessFromThreadsLastMove(c, 0, prevInstruction, prevSeed, profiles);
  }

  lemma {:induction false} ProcessFromThreadsLastMove(c: Composite, i: nat, prevInstruction: Move, prevSeed: Move,
                                                      profiles: ProfileResolver)
    requires i <= |c.elems|
    requires ProcessFrom(c, i, prevInstruction, prevSeed, profiles).Ok?
    ensures ProcessFrom(c, i, prevInstruction, prevSeed, profiles).value.prevInstruction
            == LastOr(MovesIn(c, i, |c.elems|), prevInstruction)
    decreases c, 0, |c.elems| - i
  {
    if i < |c.elems| {
      MovesInUnfoldFront(c, i);
      LastOrAppend(MovesOf(c, i), MovesIn(c, i + 1, |c.elems|), prevInstruction);
      match c.elems[i]
      case CompositeInstr(sub) =>
        var p := ProcessComposite(sub, prevInstruction, prevSeed, profiles).value;
        ProcessCompositeThreadsLastMove(sub, prevInstruction, prevSeed, profiles);
        ProcessFromThreadsLastMove(c, i + 1, p.prevInstruction, p.prevSeed, profiles);
      case MoveInstr(m) =>
        var generate := profiles(SelectProfile(m).0, SelectProfile(m).1).value;
        var seed := generate(prevInstruction, prevSeed, m, NextMove(c.elems, i)).value;
        ProcessFromThreadsLastMove(c, i + 1, m, seed.elems[|seed.elems| - 1].move, profiles);
      case OtherInstr(_) =>
        ProcessFromThreadsLastMove(c, i + 1, prevInstruction, prevSeed, profiles);
    }
  }

  /** The profile of a move resolves to a non-null profile. */
  predicate HasProfile(profiles: ProfileResolver, m: Move)
  {
    profiles(SelectProfile(m).0, SelectProfile(m).1).Some?
  }

  /** A composite is only processed when every one of its moves, nested ones included, has a profile. */
  lemma {:induction false} ProcessCompositeNeedsProfiles(c: Composite, prevInstruction: Move, prevSeed: Move,
                                                         profiles: ProfileResolver)
    requires ProcessComposite(c, prevInstruction, prevSeed, profiles).Ok?
    ensures forall m :: m in Flatten(c) ==> HasProfile(profiles, m)
    decreases c, 1
  {
    ProcessFromNeedsProfiles(c, 0, prevInstruction, prevSeed, profiles);
  }

  lemma {:induction false} ProcessFromNeedsProfiles(c: Composite, i: nat, prevInstruction: Move, prevSeed: Move,
                                                    profiles: ProfileResolver)
    requires i <= |c.elems|
    requires ProcessFrom(c, i, prevInstruction, prevSeed, profiles).Ok?
    ensures forall m :: m in MovesIn(c, i, |c.elems|) ==> HasProfile(profiles, m)
    decreases c, 0, |c.elems| - i
  {
    if i < |c.elems| {
      MovesInUnfoldFront(c, i);
      match c.elems[i]
      case CompositeInstr(sub) =>
        var p := ProcessComposite(sub, prevInstruction, prevSeed, profiles).value;
        ProcessCompositeNeedsProfiles(sub, prevInstruction, prevSeed, profiles);
        ProcessFromNeedsProfiles(c, i + 1, p.prevInstruction, p.prevSeed, profiles);
      case MoveInstr(m) =>
        var generate := profiles(SelectProfile(m).0, SelectProfile(m).1).value;
        var seed := generate(prevInstruction, prevSeed, m, NextMove(c.elems, i)).value;
        ProcessFromNeedsProfiles(c, i + 1, m, seed.elems[|seed.elems| - 1].move, profiles);
      case OtherInstr(_) =>
        ProcessFromNeedsProfiles(c, i + 1, prevInstruction, prevSeed, profiles);
    }
  }

  // ---------------------------------------------------------------------------
  // The generate calls in document order
  // ---------------------------------------------------------------------------

  /** For each move of `c.elems[i..]`, nested ones included, the next move of its own composite. */
  function NextsIn(c: Composite, i: nat): (r: seq<Option<Move>>)
    requires i <= |c.elems|
    ensures |r| == |MovesIn(c, i, |c.elems|)|
    decreases c, |c.elems| - i
  {
    if i == |c.elems| then []
    else
      MovesInUnfoldFront(c, i);
      (match c.elems[i]
       case MoveInstr(_) => [NextMove(c.elems, i)]
       case CompositeInstr(sub) => NextsIn(sub, 0)
       case OtherInstr(_) => []) + NextsIn(c, i + 1)
  }

  /** `seed` mirrors `c.elems[i..]` element by element. */
  predicate MirrorsFrom(c: Composite, i: nat, seed: seq<Instr>)
  {
    && i <= |c.elems|
    && |seed| == |c.elems| - i
    && forall k :: 0 <= k < |seed| ==> ElementMirrors(c.elems[i + k], seed[k])
  }

  lemma MirrorsFromRest(c: Composite, i: nat, seed: seq<Instr>)
    requires MirrorsFrom(c, i, seed) && i < |c.elems|
    ensures ElementMirrors(c.elems[i], seed[0])
    ensures MirrorsFrom(c, i + 1, seed[1..])
  {
    assert ElementMirrors(c.elems[i + 0], seed[0]);
    forall k | 0 <= k < |seed| - 1
      ensures ElementMirrors(c.elems[i + 1 + k], seed[1..][k])
    {
      assert ElementMirrors(c.elems[i + (k + 1)], seed[k + 1]);
    }
  }

  /**
   * The seed composites generated for the moves of `c.elems[i..]`, in document
   * order, read off a seed that mirrors those elements.
   */
  function GeneratedIn(c: Composite, i: nat, seed: seq<Instr>): (r: seq<Composite>)
    requires MirrorsFrom(c, i, seed)
    ensures |r| == |MovesIn(c, i, |c.elems|)|
    ensures forall j :: 0 <= j < |r| ==> EndsInMove(r[j])
    decreases c, |c.elems| - i
  {
    if i == |c.elems| then []
    else
      MovesInUnfoldFront(c, i);
      MirrorsFromRest(c, i, seed);
      (match c.elems[i]
       case MoveInstr(_) => [seed[0].composite]
       case CompositeInstr(sub) =>
         assert Mirrors(sub, seed[0].composite);
         GeneratedIn(sub, 0, seed[0].composite.elems)
       case OtherInstr(_) => []) + GeneratedIn(c, i + 1, seed[1..])
  }

  /** The last move of the last generated seed, or `d` when nothing was generated. */
  function LastSeedOr(gens: seq<Composite>, d: Move): Move
  {
    if gens != [] && EndsInMove(gens[|gens| - 1]) then
      var g := gens[|gens| - 1];
      g.elems[|g.elems| - 1].move
    else d
  }

  /**
   * The j-th move was planned by its own profile's `generate`, called with the move
   * before it in document order (or the start), the last move of the seed generated
   * before it (or the start seed), the move and its next move, and it produced the
   * j-th generated seed.
   */
  predicate GeneratedInOrder(moves: seq<Move>, nexts: seq<Option<Move>>, gens: seq<Composite>,
                             prevInstruction: Move, prevSeed: Move, profiles: ProfileResolver)
    requires |moves| == |nexts| == |gens|
  {
    forall j :: 0 <= j < |moves| ==>
      Generated(profiles, LastOr(moves[..j], prevInstruction), LastSeedOr(gens[..j], prevSeed),
                moves[j], nexts[j], gens[j])
  }

  /** One `generate` call: the move's profile exists, and on these arguments it returns `seed`. */
  predicate Generated(profiles: ProfileResolver, prevInstruction: Move, prevSeed: Move, m: Move,
                      next: Option<Move>, seed: Composite)
  {
    HasProfile(profiles, m)
    && profiles(SelectProfile(m).0, SelectProfile(m).1).value(prevInstruction, prevSeed, m, next) == Ok(seed)
  }

  lemma LastSeedOrAppend(a: seq<Composite>, b: seq<Composite>, d: Move)
    requires forall j :: 0 <= j < |b| ==> EndsInMove(b[j])
    ensures LastSeedOr(a + b, d) == LastSeedOr(b, LastSeedOr(a, d))
  {
    if b != [] {
      assert (a + b)[|a + b| - 1] == b[|b| - 1];
    } else {
      assert a + b == a;
    }
  }

  /** Two runs of generate calls, the second starting where the first left off, make one run. */
  lemma GeneratedInOrderAppend(m1: seq<Move>, n1: seq<Option<Move>>, g1: seq<Composite>,
                               m2: seq<Move>, n2: seq<Option<Move>>, g2: seq<Composite>,
                               prevInstruction: Move, prevSeed: Move, profiles: ProfileResolver)
    requires |m1| == |n1| == |g1| && |m2| == |n2| == |g2|
    requires forall j :: 0 <= j < |g2| ==> EndsInMove(g2[j])
    requires GeneratedInOrder(m1, n1, g1, prevInstruction, prevSeed, profiles)
    requires GeneratedInOrder(m2, n2, g2, LastOr(m1, prevInstruction), LastSeedOr(g1, prevSeed), profiles)
    ensures GeneratedInOrder(m1 + m2, n1 + n2, g1 + g2, prevInstruction, prevSeed, profiles)
  {
    var moves, nexts, gens := m1 + m2, n1 + n2, g1 + g2;
    forall j | 0 <= j < |moves|
      ensures Generated(profiles, LastOr(moves[..j], prevInstruction), LastSeedOr(gens[..j], prevSeed),
                        moves[j], nexts[j], gens[j])
    {
      if j < |m1| {
        assert Generated(profiles, LastOr(m1[..j], prevInstruction), LastSeedOr(g1[..j], prevSeed),
                         m1[j], n1[j], g1[j]);
        assert moves[..j] == m1[..j] && gens[..j] == g1[..j];
      } else {
        var k := j - |m1|;
        assert Generated(profiles, LastOr(m2[..k], LastOr(m1, prevInstruction)),
                         LastSeedOr(g2[..k], LastSeedOr(g1, prevSeed)), m2[k], n2[k], g2[k]);
        AppendedPrefixes(m1, g1, m2, g2, j, prevInstruction, prevSeed);
      }
    }
  }

  /** Before call j of the joined run, the calls of the first run have all been made. */
  lemma AppendedPrefixes(m1: seq<Move>, g1: seq<Composite>, m2: seq<Move>, g2: seq<Composite>, j: nat,
                         prevInstruction: Move, prevSeed: Move)
    requires |m1| == |g1| && |m2| == |g2| && |m1| <= j < |m1| + |m2|
    requires forall j :: 0 <= j < |g2| ==> EndsInMove(g2[j])
    ensures LastOr((m1 + m2)[..j], prevInstruction) == LastOr(m2[..j - |m1|], LastOr(m1, prevInstruction))
    ensures LastSeedOr((g1 + g2)[..j], prevSeed) == LastSeedOr(g2[..j - |m1|], LastSeedOr(g1, prevSeed))
  {
    assert (m1 + m2)[..j] == m1 + m2[..j - |m1|];
    assert (g1 + g2)[..j] == g1 + g2[..j - |m1|];
    LastOrAppend(m1, m2[..j - |m1|], prevInstruction);
    LastSeedOrAppend(g1, g2[..j - |m1|], prevSeed);
  }

  /**
   * A processed composite was generated move by move in document order, and the
   * threaded previous seed is the last move of the last generated seed.
   */
  lemma {:induction false} ProcessCompositeGenerates(c: Composite, prevInstruction: Move, prevSeed: Move,
                                                     profiles: ProfileResolver)
    requires ProcessComposite(c, prevInstruction, prevSeed, profiles).Ok?
    ensures var r := ProcessComposite(c, prevInstruction, prevSeed, profiles).value;
            GenerationOf(c, 0, r.seed.elems, r.prevSeed, prevInstruction, prevSeed, profiles)
    decreases c, 1
  {
    ProcessFromGenerates(c, 0, prevInstruction, prevSeed, profiles);
  }

  /**
   * `seed` mirrors `c.elems[i..]` and was generated move by move in document order
   * from `prevInstruction` and `prevSeed`, leaving `after` as the last seed move.
   */
  predicate GenerationOf(c: Composite, i: nat, seed: seq<Instr>, after: Move, prevInstruction: Move, prevSeed: Move,
                         profiles: ProfileResolver)
  {
    && MirrorsFrom(c, i, seed)
    && GeneratedInOrder(MovesIn(c, i, |c.elems|), NextsIn(c, i), GeneratedIn(c, i, seed),
                        prevInstruction, prevSeed, profiles)
    && after == LastSeedOr(GeneratedIn(c, i, seed), prevSeed)
  }

  /** Nothing is left: nothing was generated. */
  lemma GenerationOfEnd(c: Composite, prevInstruction: Move, prevSeed: Move, profiles: ProfileResolver)
    ensures GenerationOf(c, |c.elems|, [], prevSeed, prevInstruction, prevSeed, profiles)
  {
  }

  /** An other instruction is copied and adds no generate call. */
  lemma GenerationOfOther(c: Composite, i: nat, seed: seq<Instr>, after: Move, prevInstruction: Move,
                          prevSeed: Move, profiles: ProfileResolver)
    requires i < |c.elems| && c.elems[i].OtherInstr? && |seed| > 0 && seed[0] == c.elems[i]
    requires GenerationOf(c, i + 1, seed[1..], after, prevInstruction, prevSeed, profiles)
    ensures GenerationOf(c, i, seed, after, prevInstruction, prevSeed, profiles)
  {
    OtherAddsNothing(c, i, seed);
  }

  lemma OtherAddsNothing(c: Composite, i: nat, seed: seq<Instr>)
    requires i < |c.elems| && c.elems[i].OtherInstr? && MirrorsFrom(c, i, seed)
    ensures MirrorsFrom(c, i + 1, seed[1..])
    ensures MovesIn(c, i, |c.elems|) == MovesIn(c, i + 1, |c.elems|)
    ensures NextsIn(c, i) == NextsIn(c, i + 1)
    ensures GeneratedIn(c, i, seed) == GeneratedIn(c, i + 1, seed[1..])
  {
    MovesInUnfoldFront(c, i);
    MirrorsFromRest(c, i, seed);
  }

  /** A single generate call is a run of one. */
  lemma OneGeneration(profiles: ProfileResolver, prevInstruction: Move, prevSeed: Move, m: Move, next: Option<Move>,
                      g: Composite)
    requires Generated(profiles, prevInstruction, prevSeed, m, next, g)
    ensures GeneratedInOrder([m], [next], [g], prevInstruction, prevSeed, profiles)
  {
    assert [m][..0] == [] && [g][..0] == [];
  }

  /** A move adds its own generate call in front of those of the rest. */
  lemma GenerationOfMove(c: Composite, i: nat, seed: seq<Instr>, after: Move, prevInstruction: Move,
                         prevSeed: Move, profiles: ProfileResolver)
    requires i < |c.elems| && c.elems[i].MoveInstr? && |seed| > 0 && seed[0].CompositeInstr?
    requires EndsInMove(seed[0].composite)
    requires Generated(profiles, prevInstruction, prevSeed, c.elems[i].move, NextMove(c.elems, i), seed[0].composite)
    requires GenerationOf(c, i + 1, seed[1..], after, c.elems[i].move, LastSeedOr([seed[0].composite], prevSeed),
                          profiles)
    ensures GenerationOf(c, i, seed, after, prevInstruction, prevSeed, profiles)
  {
    var m, g := c.elems[i].move, seed[0].composite;
    MoveAddsOne(c, i, seed);
    var g2 := GeneratedIn(c, i + 1, seed[1..]);
    OneGeneration(profiles, prevInstruction, prevSeed, m, NextMove(c.elems, i), g);
    GeneratedInOrderAppend([m], [NextMove(c.elems, i)], [g], MovesIn(c, i + 1, |c.elems|), NextsIn(c, i + 1), g2,
                           prevInstruction, prevSeed, profiles);
    LastSeedOrAppend([g], g2, prevSeed);
  }

  lemma MoveAddsOne(c: Composite, i: nat, seed: seq<Instr>)
    requires i < |c.elems| && c.elems[i].MoveInstr? && |seed| > 0 && seed[0].CompositeInstr?
    requires EndsInMove(seed[0].composite)
    requires MirrorsFrom(c, i + 1, seed[1..])
    ensures MirrorsFrom(c, i, seed)
    ensures MovesIn(c, i, |c.elems|) == [c.elems[i].move] + MovesIn(c, i + 1, |c.elems|)
    ensures NextsIn(c, i) == [NextMove(c.elems, i)] + NextsIn(c, i + 1)
    ensures GeneratedIn(c, i, seed) == [seed[0].composite] + GeneratedIn(c, i + 1, seed[1..])
  {
    MovesInUnfoldFront(c, i);
    MirrorsFromFront(c, i, seed);
  }

  /** A composite's generate calls come in front of those of the rest. */
  lemma GenerationOfComposite(c: Composite, i: nat, seed: seq<Instr>, mid: Move, after: Move, prevInstruction: Move,
                              prevSeed: Move, profiles: ProfileResolver)
    requires i < |c.elems| && c.elems[i].CompositeInstr? && |seed| > 0 && seed[0].CompositeInstr?
    requires seed[0].composite.(elems := c.elems[i].composite.elems) == c.elems[i].composite
    requires GenerationOf(c.elems[i].composite, 0, seed[0].composite.elems, mid, prevInstruction, prevSeed, profiles)
    requires GenerationOf(c, i + 1, seed[1..], after, LastOr(Flatten(c.elems[i].composite), prevInstruction), mid,
                          profiles)
    ensures GenerationOf(c, i, seed, after, prevInstruction, prevSeed, profiles)
  {
    var sub := c.elems[i].composite;
    CompositeAddsItsOwn(c, i, seed);
    var g1 := GeneratedIn(sub, 0, seed[0].composite.elems);
    var g2 := GeneratedIn(c, i + 1, seed[1..]);
    GeneratedInOrderAppend(Flatten(sub), NextsIn(sub, 0), g1, MovesIn(c, i + 1, |c.elems|), NextsIn(c, i + 1), g2,
                           prevInstruction, prevSeed, profiles);
    LastSeedOrAppend(g1, g2, prevSeed);
  }

  lemma CompositeAddsItsOwn(c: Composite, i: nat, seed: seq<Instr>)
    requires i < |c.elems| && c.elems[i].CompositeInstr? && |seed| > 0 && seed[0].CompositeInstr?
    requires seed[0].composite.(elems := c.elems[i].composite.elems) == c.elems[i].composite
    requires MirrorsFrom(c.elems[i].composite, 0, seed[0].composite.elems)
    requires MirrorsFrom(c, i + 1, seed[1..])
    ensures MirrorsFrom(c, i, seed)
    ensures MovesIn(c, i, |c.elems|) == Flatten(c.elems[i].composite) + MovesIn(c, i + 1, |c.elems|)
    ensures NextsIn(c, i) == NextsIn(c.elems[i].composite, 0) + NextsIn(c, i + 1)
    ensures GeneratedIn(c, i, seed)
            == GeneratedIn(c.elems[i].composite, 0, seed[0].composite.elems) + GeneratedIn(c, i + 1, seed[1..])
  {
    var sub := c.elems[i].composite;
    MovesInUnfoldFront(c, i);
    assert Mirrors(sub, seed[0].composite) by {
      assert forall k :: 0 <= k < |sub.elems| ==> sub.elems[0 + k] == sub.elems[k];
    }
    MirrorsFromFront(c, i, seed);
  }

  /** A seed whose first element mirrors element i and whose rest mirrors the rest mirrors `c.elems[i..]`. */
  lemma MirrorsFromFront(c: Composite, i: nat, seed: seq<Instr>)
    requires i < |c.elems| && |seed| > 0 && ElementMirrors(c.elems[i], seed[0])
    requires MirrorsFrom(c, i + 1, seed[1..])
    ensures MirrorsFrom(c, i, seed)
  {
    forall k | 0 < k < |seed|
      ensures ElementMirrors(c.elems[i + k], seed[k])
    {
      assert ElementMirrors(c.elems[i + 1 + (k - 1)], seed[1..][k - 1]);
    }
  }

  lemma {:induction false} ProcessFromGenerates(c: Composite, i: nat, prevInstruction: Move, prevSeed: Move,
                                                profiles: ProfileResolver)
    requires i <= |c.elems|
    requires ProcessFrom(c, i, prevInstruction, prevSeed, profiles).Ok?
    ensures var r := ProcessFrom(c, i, prevInstruction, prevSeed, profiles).value;
            GenerationOf(c, i, r.seed, r.prevSeed, prevInstruction, prevSeed, profiles)
    decreases c, 0, |c.elems| - i
  {
    var r := ProcessFrom(c, i, prevInstruction, prevSeed, profiles).value;
    if i == |c.elems| {
      GenerationOfEnd(c, prevInstruction, prevSeed, profiles);
    } else {
      match c.elems[i]
      case CompositeInstr(sub) =>
        var p := ProcessComposite(sub, prevInstruction, prevSeed, profiles).value;
        var rest := ProcessFrom(c, i + 1, p.prevInstruction, p.prevSeed, profiles).value;
        ProcessCompositeGenerates(sub, prevInstruction, prevSeed, profiles);
        ProcessCompositeThreadsLastMove(sub, prevInstruction, prevSeed, profiles);
        ProcessFromGenerates(c, i + 1, p.prevInstruction, p.prevSeed, profiles);
        assert r.seed[1..] == rest.seed;
        GenerationOfComposite(c, i, r.seed, p.prevSeed, r.prevSeed, prevInstruction, prevSeed, profiles);
      case MoveInstr(m) =>
        var generate := profiles(SelectProfile(m).0, SelectProfile(m).1).value;
        var seed := generate(prevInstruction, prevSeed, m, NextMove(c.elems, i)).value;
        var seedEnd := seed.elems[|seed.elems| - 1].move;
        var rest := ProcessFrom(c, i + 1, m, seedEnd, profiles).value;
        ProcessFromGenerates(c, i + 1, m, seedEnd, profiles);
        assert r.seed[1..] == rest.seed;
        GenerationOfMove(c, i, r.seed, r.prevSeed, prevInstruction, prevSeed, profiles);
      case OtherInstr(_) =>
        var rest := ProcessFrom(c, i + 1, prevInstruction, prevSeed, profiles).value;
        ProcessFromGenerates(c, i + 1, prevInstruction, prevSeed, profiles);
        assert r.seed[1..] == rest.seed;
        GenerationOfOther(c, i, r.seed, r.prevSeed, prevInstruction, prevSeed, profiles);
    }
  }

  /** The joint names of the program's manipulator, if the environment has that joint group. */
  function JointGroup(env: Environment, info: ManipInfo): Option<seq<string>>
  {
    if info.manipulator in env.jointGroups then Some(env.jointGroups[info.manipulator]) else None
  }

  /**
   * `solve`, without enforcing joint limits on the seed.  An `Err` is an exception
   * that leaves `solve`: looking up the joint group and finding the start instruction
   * happen outside its try block; failures while processing are caught.
   */
  function Solve(request: Request): (r: Result<Response>)
    ensures !CheckUserInput(request) ==> r == Ok(Response(false, ERROR_INVALID_INPUT, None))
    ensures (request.env.None? || |request.instructions.elems| == 0) <==> r == Ok(Response(false, ERROR_INVALID_INPUT, None))
    ensures CheckUserInput(request) ==>
              var joints := JointGroup(request.env.value, request.instructions.manip);
              && (joints.None? ==> r == Err(UNKNOWN_JOINT_GROUP))
              && (joints.Some? && GetStartInstruction(request, joints.value).Err? ==>
                    r == Err(GetStartInstruction(request, joints.value).message))
              && (joints.Some? && GetStartInstruction(request, joints.value).Ok? ==>
                    var start := GetStartInstruction(request, joints.value).value;
                    var processed := ProcessComposite(request.instructions, start, start.(moveType := Start),
                                                      request.profiles);
                    && (processed.Err? ==> r == Ok(Response(false, FAILED_TO_FIND_VALID_SOLUTION, None)))
                    && (processed.Ok? ==>
                          r == Ok(Response(true, SOLUTION_FOUND,
                                           Some(processed.value.seed.(start := Some(start.(moveType := Start))))))))
    ensures r.Ok? && r.value.successful ==>
              && r.value.message == SOLUTION_FOUND
              && r.value.results.Some?
              && Mirrors(request.instructions, r.value.results.value.(start := request.instructions.start))
              && r.value.results.value.start.Some?
              && r.value.results.value.start.value.moveType == Start
              && r.value.results.value.start.value.waypoint.StateWaypoint?
    ensures r.Ok? && !r.value.successful ==> r.value.results.None?
  {
    if !CheckUserInput(request) then Ok(Response(false, ERROR_INVALID_INPUT, None))
    else
      match JointGroup(request.env.value, request.instructions.manip)
      case None => Err(UNKNOWN_JOINT_GROUP)
      case Some(joints) =>
        match GetStartInstruction(request, joints)
        case Err(e) => Err(e)
        case Ok(start) =>
          var startSeed := start.(moveType := Start);
          match ProcessComposite(request.instructions, start, startSeed, request.profiles)
          case Err(_) => Ok(Response(false, FAILED_TO_FIND_VALID_SOLUTION, None))
          case Ok(p) => Ok(Response(true, SOLUTION_FOUND, Some(p.seed.(start := Some(startSeed)))))
  }

  /**
   * A solution's seed was generated move by move in document order: the first move
   * with the start instruction and the start seed, every later one with the move and
   * seed move before it.
   */
  lemma SolveGeneratesInOrder(request: Request)
    requires CheckUserInput(request)
    requires JointGroup(request.env.value, request.instructions.manip).Some?
    requires GetStartInstruction(request, JointGroup(request.env.value, request.instructions.manip).value).Ok?
    requires Solve(request).Ok? && Solve(request).value.successful
    ensures var start := GetStartInstruction(request, JointGroup(request.env.value, request.instructions.manip).value).value;
            var c := request.instructions;
            var seed := Solve(request).value.results.value;
            && MirrorsFrom(c, 0, seed.elems)
            && GeneratedInOrder(Flatten(c), NextsIn(c, 0), GeneratedIn(c, 0, seed.elems),
                                start, start.(moveType := Start), request.profiles)
  {
    var start := GetStartInstruction(request, JointGroup(request.env.value, request.instructions.manip).value).value;
    ProcessCompositeGenerates(request.instructions, start, start.(moveType := Start), request.profiles);
  }
}
