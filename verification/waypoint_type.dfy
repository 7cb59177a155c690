/**
 * Waypoints and the four type tests of the command language.
 *
 * A `WaypointPoly` is type-erased in the source and is classified by comparing its
 * stored `std::type_index` against the index of each known waypoint type.  Here the
 * stored type is a closed variant; `TypeOf` plays the part of `getType()`.
 */
module WaypointType {

  /** Joint values and poses are only copied around by the modelled code, never computed on. */
  type JointValues = seq<real>

  datatype Waypoint =
    | CartesianWaypoint(pose: seq<real>)
    | JointWaypoint(names: seq<string>, position: JointValues)
    | StateWaypoint(names: seq<string>, position: JointValues)
    | NullWaypoint
      /** Any waypoint type a user registers beyond the four known ones. */
    | UserWaypoint(typeName: string)

  /** The `std::type_index` of the object held by a waypoint. */
  datatype TypeIndex = CartesianType | JointType | StateType | NullType | UserType(name: string)

  function TypeOf(w: Waypoint): TypeIndex
  {
    match w
    case CartesianWaypoint(_) => CartesianType
    case JointWaypoint(_, _) => JointType
    case StateWaypoint(_, _) => StateType
    case NullWaypoint => NullType
    case UserWaypoint(n) => UserType(n)
  }

  predicate IsCartesianWaypoint(w: Waypoint)
    ensures IsCartesianWaypoint(w) <==> w.CartesianWaypoint?
  {
    TypeOf(w) == CartesianType
  }

  predicate IsJointWaypoint(w: Waypoint)
    ensures IsJointWaypoint(w) <==> w.JointWaypoint?
  {
    TypeOf(w) == JointType
  }

  predicate IsStateWaypoint(w: Waypoint)
    ensures IsStateWaypoint(w) <==> w.StateWaypoint?
  {
    TypeOf(w) == StateType
  }

  predicate IsNullWaypoint(w: Waypoint)
    ensures IsNullWaypoint(w) <==> w.NullWaypoint?
  {
    TypeOf(w) == NullType
  }

  /** How many of the four type tests hold of a waypoint. */
  function TestsThatHold(w: Waypoint): nat
  {
    (if IsCartesianWaypoint(w) then 1 else 0) + (if IsJointWaypoint(w) then 1 else 0)
    + (if IsStateWaypoint(w) then 1 else 0) + (if IsNullWaypoint(w) then 1 else 0)
  }

  /** The four tests are mutually exclusive, and only a user-defined waypoint fails all four. */
  lemma AtMostOneTypeTest(w: Waypoint)
    ensures TestsThatHold(w) <= 1
    ensures TestsThatHold(w) == 0 <==> w.UserWaypoint?
  {
  }
}
