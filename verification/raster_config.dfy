/**
 * How a raster motion task is configured: the three node templates (freespace,
 * raster, transition), the key remapping and per-instance key indexing a template
 * applies when it is instantiated, and construction from a configuration entry.
 */
module RasterConfig {
  import opened Wrappers
  import opened Strings

  /** A non-empty list of keys. */
  type Keys = s: seq<string> | |s| > 0 witness [""]

  /** The input and output keys a node created by the plugin factory declares. */
  datatype NodeKeys = NodeKeys(inputs: Keys, outputs: Keys)

  /** `TaskComposerPluginFactory::createTaskComposerNode`, reduced to the keys of the node it creates. */
  type PluginFactory = string -> NodeKeys

  /** A node made from a template: its name, the plugin task it runs, and its keys after renaming. */
  datatype PluginNode = PluginNode(name: string, task: string, inputKeys: seq<string>, outputKeys: seq<string>)

  /** `RasterMotionTask::TaskFactoryResults`. */
  datatype TaskFactoryResults = TaskFactoryResults(node: PluginNode, inputKey: string, outputKey: string)

  /** `RasterMotionTask::TaskFactory`: builds the node for a name and a 1-based instance index. */
  type TaskFactory = (string, nat) -> TaskFactoryResults

  /** One template entry after parsing: the plugin task and its key remapping and indexing lists. */
  datatype TaskTemplate = TaskTemplate(
    task: string,
    inputRemapping: map<string, string>,
    outputRemapping: map<string, string>,
    inputIndexing: seq<string>,
    outputIndexing: seq<string>)

  function Lookup(renaming: map<string, string>, key: string): string
  {
    if key in renaming then renaming[key] else key
  }

  /** `renameInputKeys` / `renameOutputKeys`: every key found in the renaming is replaced. */
  function Rename(keys: seq<string>, renaming: map<string, string>): (r: seq<string>)
    ensures |r| == |keys|
  {
    seq(|keys|, k requires 0 <= k < |keys| => Lookup(renaming, keys[k]))
  }

  /** The renaming `x -> x + to_string(index)` for every x of an indexing list. */
  function IndexRenaming(indexing: seq<string>, index: nat): map<string, string>
  {
    map x | x in indexing :: x + NatToString(index)
  }

  /** What indexing does to one key: keys on the list get the decimal index appended. */
  function IndexKey(key: string, indexing: seq<string>, index: nat): string
  {
    if key in indexing then key + NatToString(index) else key
  }

  /** The anonymous-namespace `createTask` of the raster motion task. */
  function CreateTask(name: string, t: TaskTemplate, plugin: PluginFactory, index: nat): (r: TaskFactoryResults)
    ensures r.node.name == name && r.node.task == t.task
    ensures |r.node.inputKeys| == |plugin(t.task).inputs|
    ensures |r.node.outputKeys| == |plugin(t.task).outputs|
    ensures forall k :: 0 <= k < |r.node.inputKeys| ==>
              r.node.inputKeys[k]
              == IndexKey(Lookup(t.inputRemapping, plugin(t.task).inputs[k]), t.inputIndexing, index)
    ensures forall k :: 0 <= k < |r.node.outputKeys| ==>
              r.node.outputKeys[k]
              == IndexKey(Lookup(t.outputRemapping, plugin(t.task).outputs[k]), t.outputIndexing, index)
    ensures r.inputKey == r.node.inputKeys[0] && r.outputKey == r.node.outputKeys[0]
  {
    var created := plugin(t.task);
    var inputs := if t.inputRemapping != map[] then Rename(created.inputs, t.inputRemapping) else created.inputs;
    var outputs := if t.outputRemapping != map[] then Rename(created.outputs, t.outputRemapping) else created.outputs;
    var inputs' := if t.inputIndexing != [] then Rename(inputs, IndexRenaming(t.inputIndexing, index)) else inputs;
    var outputs' := if t.outputIndexing != [] then Rename(outputs, IndexRenaming(t.outputIndexing, index)) else outputs;
    TaskFactoryResults(PluginNode(name, t.task, inputs', outputs'), inputs'[0], outputs'[0])
  }

  /**
   * Two instances of one template never share a key that indexing renamed: the k-th
   * key of instance i and of instance j differ when i != j and the remapped key is
   * on the indexing list; keys off the list are the same in every instance.
   */
  lemma InstancesDoNotShareIndexedKeys(t: TaskTemplate, plugin: PluginFactory, i: nat, j: nat, k: nat)
    requires k < |plugin(t.task).inputs|
    ensures var remapped := Lookup(t.inputRemapping, plugin(t.task).inputs[k]);
            var a := CreateTask("", t, plugin, i).node.inputKeys[k];
            var b := CreateTask("", t, plugin, j).node.inputKeys[k];
            && (remapped in t.inputIndexing && i != j ==> a != b)
            && (remapped !in t.inputIndexing ==> a == b == remapped)
  {
    var remapped := Lookup(t.inputRemapping, plugin(t.task).inputs[k]);
    if remapped in t.inputIndexing && i != j {
      SuffixedKeysDiffer(remapped, i, j);
    }
  }

  /** The same for output keys. */
  lemma InstancesDoNotShareIndexedOutputKeys(t: TaskTemplate, plugin: PluginFactory, i: nat, j: nat, k: nat)
    requires k < |plugin(t.task).outputs|
    ensures var remapped := Lookup(t.outputRemapping, plugin(t.task).outputs[k]);
            var a := CreateTask("", t, plugin, i).node.outputKeys[k];
            var b := CreateTask("", t, plugin, j).node.outputKeys[k];
            && (remapped in t.outputIndexing && i != j ==> a != b)
            && (remapped !in t.outputIndexing ==> a == b == remapped)
  {
    var remapped := Lookup(t.outputRemapping, plugin(t.task).outputs[k]);
    if remapped in t.outputIndexing && i != j {
      SuffixedKeysDiffer(remapped, i, j);
    }
  }

  /**
   * Isolation holds per key name only: two different names on one indexing list can
   * meet, "a1" at instance 2 and "a" at instance 12 both becoming "a12".
   */
  lemma IndexedKeysOfDifferentNamesCanMeet()
    ensures IndexKey("a1", ["a", "a1"], 2) == IndexKey("a", ["a", "a1"], 12) == "a12"
  {
    assert NatToString(2) == "2";
    assert NatToString(1) == "1";
    assert NatToString(12) == NatToString(1) + [DigitChar(2)] == "12";
  }

  // ---------------------------------------------------------------------------
  // Construction from a configuration entry
  // ---------------------------------------------------------------------------

  /** One of the 'freespace', 'raster' and 'transition' entries; `None` is a missing field. */
  datatype TemplateEntry = TemplateEntry(
    task: Option<string>,
    inputRemapping: Option<map<string, string>>,
    outputRemapping: Option<map<string, string>>,
    inputIndexing: Option<seq<string>>,
    outputIndexing: Option<seq<string>>)

  /** The configuration of a raster motion task, its fields already converted from YAML. */
  datatype TaskConfig = TaskConfig(
    inputs: seq<string>,
    outputs: seq<string>,
    conditional: bool,
    freespace: Option<TemplateEntry>,
    raster: Option<TemplateEntry>,
    transition: Option<TemplateEntry>)

  /** A raster motion task: its single input and output key and its three node factories. */
  datatype RasterTask = RasterTask(
    name: string,
    conditional: bool,
    inputKey: string,
    outputKey: string,
    freespaceFactory: TaskFactory,
    rasterFactory: TaskFactory,
    transitionFactory: TaskFactory)

  const MISSING_INPUTS := "RasterMotionTask, config missing 'inputs' entry"
  const TOO_MANY_INPUTS := "RasterMotionTask, config 'inputs' entry currently only supports one input key"
  const MISSING_OUTPUTS := "RasterMotionTask, config missing 'outputs' entry"
  const TOO_MANY_OUTPUTS := "RasterMotionTask, config 'outputs' entry currently only supports one output key"

  function MissingEntry(entry: string): string
  {
    "RasterMotionTask: missing '" + entry + "' entry"
  }

  function MissingField(entry: string, field: string): string
  {
    "RasterMotionTask, entry '" + entry + "' missing '" + field + "' entry"
  }

  /** An entry names its task and both indexing lists; the remappings are optional. */
  predicate EntryComplete(e: Option<TemplateEntry>)
  {
    && e.Some?
    && e.value.task.Some?
    && e.value.inputIndexing.Some?
    && e.value.outputIndexing.Some?
  }

  function OrEmpty(m: Option<map<string, string>>): map<string, string>
  {
    if m.Some? then m.value else map[]
  }

  /** The template a complete entry describes, an absent remapping being the empty one. */
  function TemplateOf(e: Option<TemplateEntry>): TaskTemplate
    requires EntryComplete(e)
  {
    TaskTemplate(e.value.task.value, OrEmpty(e.value.inputRemapping), OrEmpty(e.value.outputRemapping),
                 e.value.inputIndexing.value, e.value.outputIndexing.value)
  }

  /** Parse one template entry, failing on the first missing field in the order the source reads them. */
  function ParseEntry(entry: string, e: Option<TemplateEntry>): (r: Result<TaskTemplate>)
    ensures r.Ok? <==> EntryComplete(e)
    ensures r.Ok? ==> r.value == TemplateOf(e)
    ensures e.None? ==> r == Err(MissingEntry(entry))
    ensures e.Some? && e.value.task.None? ==> r == Err(MissingField(entry, "task"))
    ensures e.Some? && e.value.task.Some? && e.value.inputIndexing.None?
            ==> r == Err(MissingField(entry, "input_indexing"))
    ensures e.Some? && e.value.task.Some? && e.value.inputIndexing.Some? && e.value.outputIndexing.None?
            ==> r == Err(MissingField(entry, "output_indexing"))
  {
    match e
    case None => Err(MissingEntry(entry))
    case Some(entryValue) =>
      if entryValue.task.None? then Err(MissingField(entry, "task"))
      else
        var inputRemapping := if entryValue.inputRemapping.Some? then entryValue.inputRemapping.value else map[];
        var outputRemapping := if entryValue.outputRemapping.Some? then entryValue.outputRemapping.value else map[];
        if entryValue.inputIndexing.None? then Err(MissingField(entry, "input_indexing"))
        else if entryValue.outputIndexing.None? then Err(MissingField(entry, "output_indexing"))
        else Ok(TaskTemplate(entryValue.task.value, inputRemapping, outputRemapping,
                             entryValue.inputIndexing.value, entryValue.outputIndexing.value))
  }

  /** A configuration the constructor accepts. */
  predicate ConfigAccepted(config: TaskConfig)
  {
    && |config.inputs| == 1
    && |config.outputs| == 1
    && EntryComplete(config.freespace)
    && EntryComplete(config.raster)
    && EntryComplete(config.transition)
  }

  /** The factory a template entry yields: `createTask` over the template and the plugin factory. */
  function FactoryOf(t: TaskTemplate, plugin: PluginFactory): TaskFactory
  {
    (name: string, index: nat) => CreateTask(name, t, plugin, index)
  }

  /** `RasterMotionTask(name, config, plugin_factory)`. */
  function FromConfig(name: string, config: TaskConfig, plugin: PluginFactory): (r: Result<RasterTask>)
    ensures r.Ok? <==> ConfigAccepted(config)
    ensures |config.inputs| == 0 ==> r == Err(MISSING_INPUTS)
    ensures |config.inputs| > 1 ==> r == Err(TOO_MANY_INPUTS)
    ensures |config.inputs| == 1 && |config.outputs| == 0 ==> r == Err(MISSING_OUTPUTS)
    ensures |config.inputs| == 1 && |config.outputs| > 1 ==> r == Err(TOO_MANY_OUTPUTS)
    ensures |config.inputs| == 1 && |config.outputs| == 1 && config.freespace.None?
            ==> r == Err(MissingEntry("freespace"))
    ensures |config.inputs| == 1 && |config.outputs| == 1 && !EntryComplete(config.freespace)
            ==> r == Err(ParseEntry("freespace", config.freespace).message)
    ensures |config.inputs| == 1 && |config.outputs| == 1 && EntryComplete(config.freespace)
            && !EntryComplete(config.raster)
            ==> r == Err(ParseEntry("raster", config.raster).message)
    ensures |config.inputs| == 1 && |config.outputs| == 1 && EntryComplete(config.freespace)
            && EntryComplete(config.raster) && !EntryComplete(config.transition)
            ==> r == Err(ParseEntry("transition", config.transition).message)
    ensures r.Ok? ==>
              && r.value.name == name
              && r.value.conditional == config.conditional
              && r.value.inputKey == config.inputs[0]
              && r.value.outputKey == config.outputs[0]
              && (forall n: string, i: nat :: r.value.freespaceFactory(n, i)
                                               == CreateTask(n, TemplateOf(config.freespace), plugin, i))
              && (forall n: string, i: nat :: r.value.rasterFactory(n, i)
                                               == CreateTask(n, TemplateOf(config.raster), plugin, i))
              && (forall n: string, i: nat :: r.value.transitionFactory(n, i)
                                               == CreateTask(n, TemplateOf(config.transition), plugin, i))
  {
    if |config.inputs| == 0 then Err(MISSING_INPUTS)
    else if |config.inputs| > 1 then Err(TOO_MANY_INPUTS)
    else if |config.outputs| == 0 then Err(MISSING_OUTPUTS)
    else if |config.outputs| > 1 then Err(TOO_MANY_OUTPUTS)
    else
      match ParseEntry("freespace", config.freespace)
      case Err(m) => Err(m)
      case Ok(freespace) =>
        match ParseEntry("raster", config.raster)
        case Err(m) => Err(m)
        case Ok(raster) =>
          match ParseEntry("transition", config.transition)
          case Err(m) => Err(m)
          case Ok(transition) =>
            Ok(RasterTask(name, config.conditional, config.inputs[0], config.outputs[0],
                          FactoryOf(freespace, plugin), FactoryOf(raster, plugin), FactoryOf(transition, plugin)))
  }
}
