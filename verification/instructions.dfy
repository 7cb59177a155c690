/**
 * Instruction trees of the command language: move instructions, composite
 * instructions that nest, and every other instruction type, which the modelled
 * code only copies.
 */
module Instructions {
  import opened Wrappers
  import opened WaypointType

  /** Which manipulator, solver and frames a program is planned for. */
  datatype ManipInfo = ManipInfo(manipulator: string, ikSolver: string, workingFrame: string, tcpFrame: string)

  function Fill(mine: string, override: string): string
  {
    if override == "" then mine else override
  }

  /**
   * `ManipulatorInfo::getCombined(override)`: every field set in `override` replaces
   * the field of `info`; fields `override` leaves empty keep the value of `info`.
   */
  function Combined(info: ManipInfo, override: ManipInfo): ManipInfo
  {
    ManipInfo(Fill(info.manipulator, override.manipulator), Fill(info.ikSolver, override.ikSolver),
              Fill(info.workingFrame, override.workingFrame), Fill(info.tcpFrame, override.tcpFrame))
  }

  /** Every field `override` sets already has that value in `info`. */
  predicate OverrideAgrees(info: ManipInfo, override: ManipInfo)
  {
    && (override.manipulator == "" || override.manipulator == info.manipulator)
    && (override.ikSolver == "" || override.ikSolver == info.ikSolver)
    && (override.workingFrame == "" || override.workingFrame == info.workingFrame)
    && (override.tcpFrame == "" || override.tcpFrame == info.tcpFrame)
  }

  /** Combining changes nothing exactly when the override agrees with every field it sets. */
  lemma CombinedKeepsInfo(info: ManipInfo, override: ManipInfo)
    ensures Combined(info, override) == info <==> OverrideAgrees(info, override)
  {
  }

  datatype MoveType = Linear | Freespace | Circular | Start

  /** Profile overrides are opaque to the modelled code: it only chooses which set to pass on. */
  type Overrides = map<string, string>

  datatype Move = Move(
    waypoint: Waypoint,
    moveType: MoveType,
    profile: string,
    pathProfile: string,
    profileOverrides: Overrides,
    pathProfileOverrides: Overrides,
    description: string)

  datatype Instr =
    | CompositeInstr(composite: Composite)
    | MoveInstr(move: Move)
    | OtherInstr(typeName: string)

  datatype Composite = Composite(
    description: string,
    profile: string,
    profileOverrides: Overrides,
    manip: ManipInfo,
    start: Option<Move>,
    elems: seq<Instr>)

  // ---------------------------------------------------------------------------
  // Moves in document order (the reference definition the searches are checked against)
  // ---------------------------------------------------------------------------

  /** The move instructions of `c.elems[i..j]`, nested composites included, in document order. */
  function MovesIn(c: Composite, i: nat, j: nat): seq<Move>
    requires i <= j <= |c.elems|
    decreases c, j
  {
    if i == j then [] else MovesIn(c, i, j - 1) + MovesOf(c, j - 1)
  }

  /** The move instructions of the single element `c.elems[k]`. */
  function MovesOf(c: Composite, k: nat): seq<Move>
    requires k < |c.elems|
    decreases c, k
  {
    match c.elems[k]
    case MoveInstr(m) => [m]
    case CompositeInstr(sub) => MovesIn(sub, 0, |sub.elems|)
    case OtherInstr(_) => []
  }

  function Flatten(c: Composite): seq<Move>
  {
    MovesIn(c, 0, |c.elems|)
  }

  function Head(s: seq<Move>): Option<Move>
  {
    if s == [] then None else Some(s[0])
  }

  function Last(s: seq<Move>): Option<Move>
  {
    if s == [] then None else Some(s[|s| - 1])
  }

  lemma {:induction false} MovesInSplit(c: Composite, i: nat, k: nat, j: nat)
    requires i <= k <= j <= |c.elems|
    ensures MovesIn(c, i, j) == MovesIn(c, i, k) + MovesIn(c, k, j)
    decreases j
  {
    if k < j {
      MovesInSplit(c, i, k, j - 1);
    }
  }

  /** The moves of a range depend only on the elements in that range. */
  lemma {:induction false} MovesInFrame(c: Composite, d: Composite, i: nat, j: nat)
    requires i <= j <= |c.elems| && j <= |d.elems|
    requires forall k :: i <= k < j ==> c.elems[k] == d.elems[k]
    ensures MovesIn(c, i, j) == MovesIn(d, i, j)
    decreases j
  {
    if i < j {
      MovesInFrame(c, d, i, j - 1);
      assert MovesOf(c, j - 1) == MovesOf(d, j - 1);
    }
  }

  // ---------------------------------------------------------------------------
  // getFirstMoveInstruction / getLastMoveInstruction
  // ---------------------------------------------------------------------------

  /** Depth-first search of `c.elems[i..]` for the first move instruction. */
  function FirstMoveFrom(c: Composite, i: nat): Option<Move>
    requires i <= |c.elems|
    decreases c, |c.elems| - i
  {
    if i == |c.elems| then None
    else
      match c.elems[i]
      case MoveInstr(m) => Some(m)
      case CompositeInstr(sub) =>
        var found := FirstMoveFrom(sub, 0);
        if found.Some? then found else FirstMoveFrom(c, i + 1)
      case OtherInstr(_) => FirstMoveFrom(c, i + 1)
  }

  function FirstMove(c: Composite): Option<Move>
  {
    FirstMoveFrom(c, 0)
  }

  /** Depth-first search of `c.elems[..j]`, from the back, for the last move instruction. */
  function LastMoveBefore(c: Composite, j: nat): Option<Move>
    requires j <= |c.elems|
    decreases c, j
  {
    if j == 0 then None
    else
      match c.elems[j - 1]
      case MoveInstr(m) => Some(m)
      case CompositeInstr(sub) =>
        var found := LastMoveBefore(sub, |sub.elems|);
        if found.Some? then found else LastMoveBefore(c, j - 1)
      case OtherInstr(_) => LastMoveBefore(c, j - 1)
  }

  function LastMove(c: Composite): Option<Move>
  {
    LastMoveBefore(c, |c.elems|)
  }

  lemma {:induction false} FirstMoveFromIsHead(c: Composite, i: nat)
    requires i <= |c.elems|
    ensures FirstMoveFrom(c, i) == Head(MovesIn(c, i, |c.elems|))
    decreases c, |c.elems| - i
  {
    if i < |c.elems| {
      MovesInSplit(c, i, i + 1, |c.elems|);
      assert MovesIn(c, i, i + 1) == MovesOf(c, i);
      FirstMoveFromIsHead(c, i + 1);
      match c.elems[i]
      case MoveInstr(m) =>
      case CompositeInstr(sub) => FirstMoveFromIsHead(sub, 0);
      case OtherInstr(_) =>
    }
  }

  lemma {:induction false} LastMoveBeforeIsLast(c: Composite, j: nat)
    requires j <= |c.elems|
    ensures LastMoveBefore(c, j) == Last(MovesIn(c, 0, j))
    decreases c, j
  {
    if 0 < j {
      LastMoveBeforeIsLast(c, j - 1);
      match c.elems[j - 1]
      case MoveInstr(m) =>
      case CompositeInstr(sub) => LastMoveBeforeIsLast(sub, |sub.elems|);
      case OtherInstr(_) =>
    }
  }

  /** `getFirstMoveInstruction` finds the first move of the document order. */
  lemma FirstMoveIsHeadOfFlatten(c: Composite)
    ensures FirstMove(c) == Head(Flatten(c))
  {
    FirstMoveFromIsHead(c, 0);
  }

  /** `getLastMoveInstruction` finds the last move of the document order. */
  lemma LastMoveIsLastOfFlatten(c: Composite)
    ensures LastMove(c) == Last(Flatten(c))
  {
    LastMoveBeforeIsLast(c, |c.elems|);
  }

  // ---------------------------------------------------------------------------
  // Edits used by the raster task and the motion planner task
  // ---------------------------------------------------------------------------

  /** `insertMoveInstruction(begin(), m)`. */
  function Prepend(m: Move, c: Composite): Composite
  {
    c.(elems := [MoveInstr(m)] + c.elems)
  }

  /** `erase(begin())`. */
  function StripFirst(c: Composite): Composite
    requires |c.elems| > 0
  {
    c.(elems := c.elems[1..])
  }

  /** `setManipulatorInfo(getManipulatorInfo().getCombined(info))`. */
  function WithManip(c: Composite, info: ManipInfo): Composite
  {
    c.(manip := Combined(c.manip, info))
  }

  /** Stripping the first element undoes prepending a move. */
  lemma StripFirstUndoesPrepend(m: Move, c: Composite)
    ensures |Prepend(m, c).elems| == |c.elems| + 1
    ensures Prepend(m, c).elems[0] == MoveInstr(m)
    ensures StripFirst(Prepend(m, c)) == c
  {
  }

  /** A sequence of moves with the waypoint of its last move replaced. */
  function ReplaceLastWaypoint(s: seq<Move>, wp: Waypoint): seq<Move>
  {
    if s == [] then [] else s[..|s| - 1] + [s[|s| - 1].(waypoint := wp)]
  }

  /** Assign `wp` to the last move of `c.elems[..j]`, searching from the back like `LastMoveBefore`. */
  function AssignLastBefore(c: Composite, j: nat, wp: Waypoint): Composite
    requires j <= |c.elems|
    decreases c, j
  {
    if j == 0 then c
    else
      match c.elems[j - 1]
      case MoveInstr(m) => c.(elems := c.elems[j - 1 := MoveInstr(m.(waypoint := wp))])
      case CompositeInstr(sub) =>
        if LastMoveBefore(sub, |sub.elems|).Some?
        then c.(elems := c.elems[j - 1 := CompositeInstr(AssignLastMoveWaypoint(sub, wp))])
        else AssignLastBefore(c, j - 1, wp)
      case OtherInstr(_) => AssignLastBefore(c, j - 1, wp)
  }

  /** `getLastMoveInstruction()->assign…Waypoint(wp)`. */
  function AssignLastMoveWaypoint(c: Composite, wp: Waypoint): Composite
    decreases c, |c.elems| + 1
  {
    AssignLastBefore(c, |c.elems|, wp)
  }

  /** What assigning to the last move of `c.elems[..j]` leaves and changes. */
  predicate AssignedBefore(c: Composite, j: nat, wp: Waypoint, r: Composite)
    requires j <= |c.elems|
  {
    && r.(elems := c.elems) == c
    && |r.elems| == |c.elems|
    && (forall k :: j <= k < |c.elems| ==> r.elems[k] == c.elems[k])
    && MovesIn(r, 0, j) == ReplaceLastWaypoint(MovesIn(c, 0, j), wp)
  }

  lemma ReplaceLastWaypointAppend(a: seq<Move>, b: seq<Move>, wp: Waypoint)
    requires b != []
    ensures ReplaceLastWaypoint(a + b, wp) == a + ReplaceLastWaypoint(b, wp)
  {
    assert (a + b)[..|a + b| - 1] == a + b[..|b| - 1];
  }

  /** Element j - 1 is a move: it is the last move, and only its waypoint changes. */
  lemma AssignLastBeforeAtMove(c: Composite, j: nat, wp: Waypoint)
    requires 0 < j <= |c.elems| && c.elems[j - 1].MoveInstr?
    ensures AssignedBefore(c, j, wp, AssignLastBefore(c, j, wp))
  {
    var r := AssignLastBefore(c, j, wp);
    MovesInFrame(r, c, 0, j - 1);
    assert MovesOf(r, j - 1) == [c.elems[j - 1].move.(waypoint := wp)];
    ReplaceLastWaypointAppend(MovesIn(c, 0, j - 1), MovesOf(c, j - 1), wp);
  }

  /** Element j - 1 is a composite with a move: the assignment happens inside it. */
  lemma {:induction false} AssignLastBeforeInComposite(c: Composite, j: nat, wp: Waypoint)
    requires 0 < j <= |c.elems| && c.elems[j - 1].CompositeInstr?
    requires LastMoveBefore(c.elems[j - 1].composite, |c.elems[j - 1].composite.elems|).Some?
    ensures AssignedBefore(c, j, wp, AssignLastBefore(c, j, wp))
    decreases c, 0
  {
    var sub := c.elems[j - 1].composite;
    var r := AssignLastBefore(c, j, wp);
    MovesInFrame(r, c, 0, j - 1);
    AssignLastMoveWaypointSpec(sub, wp);
    LastMoveBeforeIsLast(sub, |sub.elems|);
    assert MovesOf(r, j - 1) == ReplaceLastWaypoint(Flatten(sub), wp);
    assert MovesOf(c, j - 1) == Flatten(sub);
    ReplaceLastWaypointAppend(MovesIn(c, 0, j - 1), Flatten(sub), wp);
  }

  /** Element j - 1 holds no move: the search goes on below it, and element j - 1 is kept. */
  lemma AssignLastBeforeSkips(c: Composite, j: nat, wp: Waypoint)
    requires 0 < j <= |c.elems| && MovesOf(c, j - 1) == []
    requires AssignLastBefore(c, j, wp) == AssignLastBefore(c, j - 1, wp)
    requires AssignedBefore(c, j - 1, wp, AssignLastBefore(c, j - 1, wp))
    ensures AssignedBefore(c, j, wp, AssignLastBefore(c, j, wp))
  {
    var r := AssignLastBefore(c, j, wp);
    assert MovesOf(r, j - 1) == MovesOf(c, j - 1);
    assert MovesIn(r, 0, j) == MovesIn(r, 0, j - 1);
    assert MovesIn(c, 0, j) == MovesIn(c, 0, j - 1);
  }

  lemma {:induction false} AssignLastBeforeSpec(c: Composite, j: nat, wp: Waypoint)
    requires j <= |c.elems|
    ensures AssignedBefore(c, j, wp, AssignLastBefore(c, j, wp))
    decreases c, 1, j
  {
    if j > 0 {
      match c.elems[j - 1]
      case MoveInstr(m) =>
        AssignLastBeforeAtMove(c, j, wp);
      case CompositeInstr(sub) =>
        if LastMoveBefore(sub, |sub.elems|).Some? {
          AssignLastBeforeInComposite(c, j, wp);
        } else {
          AssignLastBeforeSpec(c, j - 1, wp);
          LastMoveBeforeIsLast(sub, |sub.elems|);
          AssignLastBeforeSkips(c, j, wp);
        }
      case OtherInstr(_) =>
        AssignLastBeforeSpec(c, j - 1, wp);
        AssignLastBeforeSkips(c, j, wp);
    }
  }

  /** An element with the waypoint of its last move set: a move directly, a composite recursively. */
  predicate AssignedElement(e: Instr, wp: Waypoint, after: Instr)
  {
    match e
    case MoveInstr(m) => after == MoveInstr(m.(waypoint := wp))
    case CompositeInstr(sub) => after == CompositeInstr(AssignLastMoveWaypoint(sub, wp))
    case OtherInstr(_) => false
  }

  /**
   * `r` is `c` with only element `idx` of `c.elems[..j]` changed: `idx` is the last
   * element before `j` that holds a move, and it is assigned `wp`.
   */
  predicate TouchedAt(c: Composite, j: nat, idx: nat, wp: Waypoint, r: Composite)
    requires j <= |c.elems|
  {
    && idx < j
    && MovesOf(c, idx) != []
    && (forall k :: idx < k < j ==> MovesOf(c, k) == [])
    && |r.elems| == |c.elems|
    && (forall k :: 0 <= k < |c.elems| && k != idx ==> r.elems[k] == c.elems[k])
    && AssignedElement(c.elems[idx], wp, r.elems[idx])
  }

  /** The assignment touches one element, the last one holding a move, or nothing when there is none. */
  lemma {:induction false} AssignLastBeforeFrame(c: Composite, j: nat, wp: Waypoint)
    requires j <= |c.elems|
    ensures MovesIn(c, 0, j) == [] ==> AssignLastBefore(c, j, wp) == c
    ensures MovesIn(c, 0, j) != [] ==> exists idx :: TouchedAt(c, j, idx, wp, AssignLastBefore(c, j, wp))
    decreases j
  {
    if j > 0 {
      var r := AssignLastBefore(c, j, wp);
      match c.elems[j - 1]
      case MoveInstr(m) =>
        assert TouchedAt(c, j, j - 1, wp, r);
      case CompositeInstr(sub) =>
        LastMoveBeforeIsLast(sub, |sub.elems|);
        if LastMoveBefore(sub, |sub.elems|).Some? {
          assert TouchedAt(c, j, j - 1, wp, r);
        } else {
          AssignLastBeforeFrame(c, j - 1, wp);
          assert MovesOf(c, j - 1) == [];
          if MovesIn(c, 0, j - 1) != [] {
            var idx :| TouchedAt(c, j - 1, idx, wp, r);
            assert TouchedAt(c, j, idx, wp, r);
          }
        }
      case OtherInstr(_) =>
        AssignLastBeforeFrame(c, j - 1, wp);
        assert MovesOf(c, j - 1) == [];
        if MovesIn(c, 0, j - 1) != [] {
          var idx :| TouchedAt(c, j - 1, idx, wp, r);
          assert TouchedAt(c, j, idx, wp, r);
        }
    }
  }

  /**
   * Assigning a waypoint to the last move changes exactly that move's waypoint: the
   * document-order moves are the old ones with the last waypoint replaced, the
   * top-level length and every field but the elements are unchanged, and of the
   * elements only the last one holding a move differs, assigned recursively.
   */
  lemma {:induction false} AssignLastMoveWaypointSpec(c: Composite, wp: Waypoint)
    ensures var r := AssignLastMoveWaypoint(c, wp);
            && r.(elems := c.elems) == c
            && |r.elems| == |c.elems|
            && Flatten(r) == ReplaceLastWaypoint(Flatten(c), wp)
            && (Flatten(c) == [] ==> r == c)
            && (Flatten(c) != [] ==> exists idx :: TouchedAt(c, |c.elems|, idx, wp, r))
    decreases c, 2
  {
    AssignLastBeforeSpec(c, |c.elems|, wp);
    AssignLastBeforeFrame(c, |c.elems|, wp);
  }
}
