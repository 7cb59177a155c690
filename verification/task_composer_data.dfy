/**
 * The data storage that task-composer nodes exchange values through, and the
 * record every node returns.
 */
module TaskComposerData {
  import opened Wrappers
  import opened Instructions

  /**
   * The identity of a node of a raster sub-graph.  The source identifies nodes by
   * random uuids; the model names each node by its role, which makes them distinct
   * by construction.
   */
  datatype NodeId =
    | StartNode
    | RasterNode(index: nat)
    | TransitionNode(index: nat)
    | MuxNode(index: nat)
    | FromStartNode
    | UpdateEndNode
    | ToEndNode
    | UpdateStartNode

  /**
   * A data-storage key: a configured key name, or the uuid string of a node, which
   * the source assumes collides with no configured name and no other node's uuid.
   */
  datatype Key = Name(name: string) | Uuid(node: NodeId)

  /** A stored `AnyPoly`: a composite instruction or a value of any other type. */
  datatype Value = CompositeData(composite: Composite) | OtherData(typeName: string)

  type Storage = map<Key, Value>

  /** `getData`: a missing key reads as a null `AnyPoly`. */
  function GetData(s: Storage, k: Key): Option<Value>
  {
    if k in s then Some(s[k]) else None
  }

  datatype Write = Write(key: Key, value: Value)

  /** A run of `setData` calls, applied in order; a later write to a key overwrites an earlier one. */
  function SetAll(s: Storage, writes: seq<Write>): Storage
    decreases |writes|
  {
    if writes == [] then s else SetAll(s[writes[0].key := writes[0].value], writes[1..])
  }

  /** `TaskComposerNodeInfo`: the outcome a node reports (0 is failure) and its message. */
  datatype NodeInfo = NodeInfo(returnValue: int, message: string)

  /** What running a task yields: its info and the data storage afterwards. */
  datatype TaskResult = TaskResult(info: NodeInfo, storage: Storage)

  const ABORTED := "Aborted"

  /** After a run of writes every written key holds the value of its last write, and nothing else changes. */
  lemma {:induction false} SetAllSpec(s: Storage, writes: seq<Write>, k: Key)
    ensures (forall w :: w in writes ==> w.key != k) ==> GetData(SetAll(s, writes), k) == GetData(s, k)
    ensures SetAll(s, writes).Keys == s.Keys + set w | w in writes :: w.key
    decreases |writes|
  {
    if writes != [] {
      SetAllSpec(s[writes[0].key := writes[0].value], writes[1..], k);
      assert forall w :: w in writes[1..] ==> w in writes;
      assert writes == [writes[0]] + writes[1..];
      assert (set w | w in writes :: w.key) == {writes[0].key} + set w | w in writes[1..] :: w.key;
    }
  }

  /** The value under a key written by the last write of a run. */
  lemma {:induction false} SetAllLastWrite(s: Storage, writes: seq<Write>, i: nat)
    requires i < |writes|
    requires forall j :: i < j < |writes| ==> writes[j].key != writes[i].key
    ensures GetData(SetAll(s, writes), writes[i].key) == Some(writes[i].value)
    decreases |writes|
  {
    if i == 0 {
      SetAllSpec(s[writes[0].key := writes[0].value], writes[1..], writes[0].key);
      forall w | w in writes[1..]
        ensures w.key != writes[0].key
      {
        var j :| 0 <= j < |writes[1..]| && writes[1..][j] == w;
        assert writes[j + 1] == w;
      }
    } else {
      SetAllLastWrite(s[writes[0].key := writes[0].value], writes[1..], i - 1);
    }
  }
}
